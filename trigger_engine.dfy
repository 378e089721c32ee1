/**
 * The trigger engine of overlay_daemon.py: the set of held keys, the cooldown gate, the
 * keyboard-then-joystick combo test and the singleton spawn of the menu, one input event
 * at a time. Devices, the selector wait and the clock are outside the model: the loop is
 * given the events, the time of each in milliseconds, and what the process scan reports.
 */
module TriggerEngine {
  import opened Wrappers
  import opened TriggerConfig

  /** evdev's event type for keys and buttons. */
  const EV_KEY := 1

  /** One evdev event, its key code already translated into a key name. */
  datatype InputEvent = InputEvent(evType: int, key: string, value: int)

  /**
   * One pass of the loop body: the event, the clock reading in milliseconds, and whether
   * the process scan would find a running menu if a combo fired now.
   */
  datatype Tick = Tick(event: InputEvent, now: int, menuFound: bool)

  /**
   * What handling one event led to: no fire, a fire of the keyboard or the joystick combo,
   * or a combo test that raised TypeError, which ends `main`.
   */
  datatype Firing = Quiet | Keyboard | Joystick | Crashed

  /** A combo fired. */
  predicate Fires(f: Firing) {
    f.Keyboard? || f.Joystick?
  }

  /** What a call of `spawn_overlay` did. */
  datatype SpawnOutcome = AlreadyRunning | Launched

  /**
   * What the loop keeps between events: the held keys and the time of the last fire, the
   * number of `spawn_overlay` calls and of menu processes they started, and whether `main`
   * is still running (a TypeError out of a combo test ends it).
   */
  datatype DaemonState = DaemonState(pressed: set<string>, lastFire: int, spawnCalls: nat, launches: nat, running: bool)

  /** The loop's state before the first event: nothing held, `last_fire = 0`. */
  const Initial := DaemonState({}, 0, 0, 0, true)

  /** A configured value is a key name in the pressed set. */
  predicate Held(pressed: set<string>, m: Member) {
    m.Name? && m.s in pressed
  }

  /** What `matches_combo` does: it returns True, returns False, or raises TypeError. */
  datatype ComboTest = Matched | Unmatched | Raised

  /** `tap_key in pressed`, the last step of `matches_combo`. */
  function TapTest(pressed: set<string>, tap: Member): (r: ComboTest)
    ensures r == Matched <==> Held(pressed, tap)
    ensures r == Raised <==> tap.Unhashable?
  {
    match tap
    case Name(s) => if s in pressed then Matched else Unmatched
    case NeverHeld => Unmatched
    case Unhashable => Raised
  }

  /** Every entry up to `i` is a held key name and entry `i` is unhashable: the scan raises there. */
  predicate RaisesAt(pressed: set<string>, items: seq<Member>, i: int) {
    0 <= i < |items| && items[i].Unhashable? && forall j :: 0 <= j < i ==> Held(pressed, items[j])
  }

  /**
   * The loop of `matches_combo` over list entries, in order: an entry that is not held
   * ends it with False, an unhashable one raises, and after the last entry the tap key
   * decides. Entries after the first one that is not held are never looked at.
   */
  function ScanEntries(pressed: set<string>, items: seq<Member>, tap: Member): (r: ComboTest)
    ensures r == Matched <==> (forall i :: 0 <= i < |items| ==> Held(pressed, items[i])) && Held(pressed, tap)
    ensures r == Raised <==>
      || (exists i :: RaisesAt(pressed, items, i))
      || ((forall i :: 0 <= i < |items| ==> Held(pressed, items[i])) && tap.Unhashable?)
    decreases |items|
  {
    if items == [] then TapTest(pressed, tap)
    else
      var rest := items[1..];
      var r := match items[0]
        case Unhashable => Raised
        case NeverHeld => Unmatched
        case Name(s) => if s in pressed then ScanEntries(pressed, rest, tap) else Unmatched;
      assert forall i :: 0 < i < |items| ==> items[i] == rest[i - 1];
      assert RaisesAt(pressed, items, 0) <==> items[0].Unhashable?;
      assert Held(pressed, items[0]) ==> forall i :: 0 < i < |items| ==>
        (RaisesAt(pressed, items, i) <==> RaisesAt(pressed, rest, i - 1));
      assert !Held(pressed, items[0]) ==> forall i :: 0 < i < |items| ==> !RaisesAt(pressed, items, i);
      assert (exists i :: RaisesAt(pressed, rest, i)) ==> Held(pressed, items[0]) ==> exists i :: RaisesAt(pressed, items, i) by {
        if Held(pressed, items[0]) && exists i :: RaisesAt(pressed, rest, i) {
          var i :| RaisesAt(pressed, rest, i);
          assert RaisesAt(pressed, items, i + 1);
        }
      }
      r
  }

  /** The hold value is iterable and everything it yields is a held key name. */
  predicate AllHeld(pressed: set<string>, hold: Hold) {
    match hold
    case Entries(items) => forall i :: 0 <= i < |items| ==> Held(pressed, items[i])
    case DictKeys(keys) => keys <= pressed
    case NotIterable => false
  }

  /**
   * `matches_combo`: True exactly when everything the hold value yields is held and so is
   * the tap key. It raises when the hold value is not iterable, when the scan reaches an
   * unhashable entry before any entry that is not held, or when the tap value is
   * unhashable and the scan got that far.
   */
  function MatchesCombo(pressed: set<string>, hold: Hold, tap: Member): (r: ComboTest)
    ensures r == Matched <==> AllHeld(pressed, hold) && Held(pressed, tap)
    ensures r == Raised <==>
      || hold.NotIterable?
      || (hold.Entries? && exists i :: RaisesAt(pressed, hold.items, i))
      || (AllHeld(pressed, hold) && tap.Unhashable?)
    ensures hold == Entries([]) ==> r == TapTest(pressed, tap)
  {
    match hold
    case Entries(items) => ScanEntries(pressed, items, tap)
    case DictKeys(keys) => if keys <= pressed then TapTest(pressed, tap) else Unmatched
    case NotIterable => Raised
  }

  /** `kb_enabled and matches_combo(...)`: a disabled combo is not tested at all. */
  function TestOf(pressed: set<string>, c: Combo): (r: ComboTest)
    ensures !c.enabled ==> r == Unmatched
    ensures c.enabled ==> r == MatchesCombo(pressed, c.hold, c.tap)
    ensures r == Matched <==> c.enabled && AllHeld(pressed, c.hold) && Held(pressed, c.tap)
  {
    if c.enabled then MatchesCombo(pressed, c.hold, c.tap) else Unmatched
  }

  /** The update of the held keys: a press adds the key, a release discards it, anything else keeps the set. */
  function ApplyKey(pressed: set<string>, ev: InputEvent): (r: set<string>)
    ensures ev.value == 1 ==> ev.key in r
    ensures ev.value == 0 ==> ev.key !in r
    ensures forall k :: k != ev.key ==> (k in r <==> k in pressed)
    ensures ev.value != 0 && ev.value != 1 ==> r == pressed
  {
    if ev.value == 1 then pressed + {ev.key}
    else if ev.value == 0 then pressed - {ev.key}
    else pressed
  }

  /** The combo test on the updated set: keyboard first, joystick only when the keyboard did not fire. */
  function Decide(cfg: TriggerSettings, pressed: set<string>): (r: Firing)
    ensures r != Keyboard ==> TestOf(pressed, cfg.keyboard) != Matched
    ensures r == Joystick ==> TestOf(pressed, cfg.keyboard) == Unmatched
  {
    match TestOf(pressed, cfg.keyboard)
    case Matched => Keyboard
    case Raised => Crashed
    case Unmatched =>
      match TestOf(pressed, cfg.joystick)
      case Matched => Joystick
      case Raised => Crashed
      case Unmatched => Quiet
  }

  /** `spawn_overlay`: nothing when the scan finds a menu, one new process otherwise. */
  function SpawnOverlay(menuFound: bool): (out: SpawnOutcome)
    ensures out == Launched <==> !menuFound
  {
    if menuFound then AlreadyRunning else Launched
  }

  /** What handling tick `t` in state `s` leads to; once `main` has ended nothing is handled. */
  function FiringOf(cfg: TriggerSettings, s: DaemonState, t: Tick): (r: Firing)
    ensures r != Quiet ==> s.running && t.event.evType == EV_KEY && t.now - s.lastFire >= cfg.cooldownMs
  {
    if !s.running || t.event.evType != EV_KEY then Quiet
    else if t.now - s.lastFire < cfg.cooldownMs then Quiet
    else Decide(cfg, ApplyKey(s.pressed, t.event))
  }

  /** The state after the loop body has handled tick `t`. */
  function Next(cfg: TriggerSettings, s: DaemonState, t: Tick): (n: DaemonState)
    ensures n.running ==> s.running
    ensures s.spawnCalls <= n.spawnCalls <= s.spawnCalls + 1
    ensures n.launches - s.launches <= n.spawnCalls - s.spawnCalls
    ensures n.lastFire != s.lastFire ==> n.lastFire == t.now && n.spawnCalls == s.spawnCalls + 1
  {
    if !s.running || t.event.evType != EV_KEY then s
    else
      var p := ApplyKey(s.pressed, t.event);
      match FiringOf(cfg, s, t)
      case Quiet => s.(pressed := p)
      case Crashed => s.(pressed := p, running := false)
      case _ =>
        var launched := if SpawnOverlay(t.menuFound).Launched? then 1 else 0;
        DaemonState(p, t.now, s.spawnCalls + 1, s.launches + launched, true)
  }

  /** The state after the loop has handled every tick of `trace`, in order. */
  function Replay(cfg: TriggerSettings, s: DaemonState, trace: seq<Tick>): DaemonState
    decreases |trace|
  {
    if trace == [] then s
    else Next(cfg, Replay(cfg, s, trace[..|trace| - 1]), trace[|trace| - 1])
  }

  /** The times at which combos fired while `trace` was handled, in order. */
  function FireTimes(cfg: TriggerSettings, s: DaemonState, trace: seq<Tick>): seq<int>
    decreases |trace|
  {
    if trace == [] then []
    else
      var before := trace[..|trace| - 1];
      var t := trace[|trace| - 1];
      FireTimes(cfg, s, before) + (if Fires(FiringOf(cfg, Replay(cfg, s, before), t)) then [t.now] else [])
  }

  // ---------------------------------------------------------------------------
  // The combo test

  /**
   * The scan stops at the first entry that is not held: whatever follows it, even an
   * unhashable value, the combo just does not match.
   */
  lemma UnheldEntryEndsTheScan(pressed: set<string>, items: seq<Member>, tap: Member, k: int)
    requires 0 <= k < |items| && !Held(pressed, items[k]) && !items[k].Unhashable?
    requires forall j :: 0 <= j < k ==> Held(pressed, items[j])
    ensures MatchesCombo(pressed, Entries(items), tap) == Unmatched
  {
    forall i | 0 <= i < |items|
      ensures !RaisesAt(pressed, items, i)
    {
      if i > k {
        assert !Held(pressed, items[k]);
      }
    }
  }

  /**
   * A string or a dict as the hold value never raises by itself: its characters and its
   * keys are strings. The combo matches when every one of them is held, and only an
   * unhashable tap value can still raise.
   */
  lemma StringOrDictHoldNeverRaises(pressed: set<string>, v: Json, tap: Member)
    requires v.JStr? || v.JObject?
    ensures MatchesCombo(pressed, HoldOf(v), tap) == Raised <==> AllHeld(pressed, HoldOf(v)) && tap.Unhashable?
    ensures v.JStr? ==> (MatchesCombo(pressed, HoldOf(v), tap) == Matched <==>
      (forall i :: 0 <= i < |v.s| ==> [v.s[i]] in pressed) && Held(pressed, tap))
    ensures v.JObject? ==> (MatchesCombo(pressed, HoldOf(v), tap) == Matched <==>
      v.fields.Keys <= pressed && Held(pressed, tap))
  {
    var h := HoldOf(v);
    if v.JStr? {
      forall i | 0 <= i < |h.items|
        ensures !h.items[i].Unhashable?
      {
        assert h.items[i] == Name([v.s[i]]);
      }
    }
  }

  /** A dict as the hold value acts as the list of its keys, in any order. */
  lemma DictHoldActsAsItsKeys(pressed: set<string>, fields: map<string, Json>, names: seq<string>, tap: Member)
    requires forall k :: k in fields <==> k in names
    ensures MatchesCombo(pressed, HoldOf(JObject(fields)), tap)
      == MatchesCombo(pressed, HoldOf(JList(seq(|names|, i requires 0 <= i < |names| => JStr(names[i])))), tap)
  {
    var h := HoldOf(JList(seq(|names|, i requires 0 <= i < |names| => JStr(names[i]))));
    assert forall i :: 0 <= i < |names| ==> h.items[i] == Name(names[i]);
    assert forall i :: 0 <= i < |names| ==> !RaisesAt(pressed, h.items, i);
    assert AllHeld(pressed, h) <==> fields.Keys <= pressed by {
      if fields.Keys <= pressed {
        forall i | 0 <= i < |names|
          ensures Held(pressed, h.items[i])
        {
          assert names[i] in fields;
        }
      }
      if AllHeld(pressed, h) {
        forall k | k in fields
          ensures k in pressed
        {
          var i :| 0 <= i < |names| && names[i] == k;
          assert Held(pressed, h.items[i]);
        }
      }
    }
  }

  /** A combo that cannot raise: disabled, or with an iterable hold value and no unhashable value in it or as the tap. */
  predicate Safe(c: Combo) {
    !c.enabled || (!c.hold.NotIterable? && !c.tap.Unhashable?
      && (c.hold.Entries? ==> forall i :: 0 <= i < |c.hold.items| ==> !c.hold.items[i].Unhashable?))
  }

  /** The test of a safe combo never raises. */
  lemma SafeComboNeverRaises(pressed: set<string>, c: Combo)
    requires Safe(c)
    ensures TestOf(pressed, c) != Raised
  {
  }

  // ---------------------------------------------------------------------------
  // One event

  /** Events that are not key events change nothing and fire nothing. */
  lemma NonKeyEventChangesNothing(cfg: TriggerSettings, s: DaemonState, t: Tick)
    requires t.event.evType != EV_KEY
    ensures FiringOf(cfg, s, t) == Quiet
    ensures Next(cfg, s, t) == s
  {
  }

  /** Once a combo test has raised, `main` has ended: no later event is handled. */
  lemma StoppedDaemonHandlesNothing(cfg: TriggerSettings, s: DaemonState, trace: seq<Tick>)
    requires !s.running
    ensures Replay(cfg, s, trace) == s
    ensures FireTimes(cfg, s, trace) == []
    decreases |trace|
  {
    if trace != [] {
      StoppedDaemonHandlesNothing(cfg, s, trace[..|trace| - 1]);
    }
  }

  /**
   * A key event updates the held keys whatever else happens: value 1 adds the key, value 0
   * removes it (absent or not), any other value (2 is a repeat) leaves the set as it was.
   */
  lemma KeyEventUpdatesPressed(cfg: TriggerSettings, s: DaemonState, t: Tick)
    requires s.running && t.event.evType == EV_KEY
    ensures var p := Next(cfg, s, t).pressed;
      && (t.event.value == 1 ==> p == s.pressed + {t.event.key} && t.event.key in p)
      && (t.event.value == 0 ==> p == s.pressed - {t.event.key} && t.event.key !in p)
      && (t.event.value != 0 && t.event.value != 1 ==> p == s.pressed)
  {
  }

  /**
   * Within the cooldown nothing fires and `last_fire` stays, but the set update has happened;
   * a gap of exactly the cooldown is not within it.
   */
  lemma CooldownGate(cfg: TriggerSettings, s: DaemonState, t: Tick)
    requires s.running && t.event.evType == EV_KEY
    ensures t.now - s.lastFire < cfg.cooldownMs ==>
      FiringOf(cfg, s, t) == Quiet && Next(cfg, s, t) == s.(pressed := ApplyKey(s.pressed, t.event))
    ensures t.now - s.lastFire == cfg.cooldownMs ==>
      FiringOf(cfg, s, t) == Decide(cfg, ApplyKey(s.pressed, t.event))
  {
  }

  /**
   * A key event outside the cooldown fires the keyboard combo exactly when it is enabled and
   * matches the updated set; the joystick combo is tested only when the keyboard test
   * returned False, and fires exactly when it is enabled and matches. A test that raises
   * ends `main`.
   */
  lemma FiresIffEnabledComboMatches(cfg: TriggerSettings, s: DaemonState, t: Tick)
    requires s.running && t.event.evType == EV_KEY && t.now - s.lastFire >= cfg.cooldownMs
    ensures var p := ApplyKey(s.pressed, t.event);
      var kb := TestOf(p, cfg.keyboard);
      var js := TestOf(p, cfg.joystick);
      && (FiringOf(cfg, s, t) == Keyboard <==> kb == Matched)
      && (FiringOf(cfg, s, t) == Joystick <==> kb == Unmatched && js == Matched)
      && (FiringOf(cfg, s, t) == Crashed <==> kb == Raised || (kb == Unmatched && js == Raised))
      && (FiringOf(cfg, s, t) == Quiet <==> kb == Unmatched && js == Unmatched)
  {
  }

  /**
   * A fire records the time and makes exactly one `spawn_overlay` call, which starts a menu
   * only when the scan found none; without a fire `last_fire` and the spawn counts stay; a
   * raising combo test ends `main`.
   */
  lemma FireRecordsAndSpawnsOnce(cfg: TriggerSettings, s: DaemonState, t: Tick)
    ensures var n := Next(cfg, s, t);
      && (n.running <==> s.running && FiringOf(cfg, s, t) != Crashed)
      && if Fires(FiringOf(cfg, s, t)) then
        && n.lastFire == t.now
        && n.spawnCalls == s.spawnCalls + 1
        && n.launches == s.launches + (if t.menuFound then 0 else 1)
      else
        n.lastFire == s.lastFire && n.spawnCalls == s.spawnCalls && n.launches == s.launches
  {
  }

  /**
   * With a scan that reports the truth, a spawn call when at most one menu runs leaves exactly
   * one running: the scan never lets a second one start.
   */
  lemma SpawnKeepsOneMenu(live: nat)
    requires live <= 1
    ensures var out := SpawnOverlay(live > 0);
      live + (if out.Launched? then 1 else 0) == 1
  {
  }

  /**
   * While `last_fire` is still the initial 0, whatever is held, a key event that satisfies a
   * combo fires once the clock reads at least the cooldown.
   */
  lemma FirstComboFires(cfg: TriggerSettings, s: DaemonState, t: Tick)
    requires s.running && s.lastFire == 0
    requires t.event.evType == EV_KEY && t.now >= cfg.cooldownMs
    requires Fires(Decide(cfg, ApplyKey(s.pressed, t.event)))
    ensures Fires(FiringOf(cfg, s, t))
    ensures Next(cfg, s, t).lastFire == t.now
  {
  }

  /**
   * From the start of the loop, after any events that fired nothing, the first event that
   * satisfies a combo with the clock at least the cooldown fires: it is the first fire.
   */
  lemma FirstFireOfTrace(cfg: TriggerSettings, trace: seq<Tick>, t: Tick)
    requires FireTimes(cfg, Initial, trace) == [] && Replay(cfg, Initial, trace).running
    requires t.event.evType == EV_KEY && t.now >= cfg.cooldownMs
    requires Fires(Decide(cfg, ApplyKey(Replay(cfg, Initial, trace).pressed, t.event)))
    ensures FireTimes(cfg, Initial, trace + [t]) == [t.now]
  {
    FiresSpacedByCooldown(cfg, Initial, trace);
    FirstComboFires(cfg, Replay(cfg, Initial, trace), t);
    assert (trace + [t])[..|trace|] == trace;
  }

  // ---------------------------------------------------------------------------
  // A sequence of events

  /** Tick `t` presses or releases key `k`. */
  predicate Changes(t: Tick, k: string) {
    t.event.evType == EV_KEY && t.event.key == k && (t.event.value == 0 || t.event.value == 1)
  }

  /** Tick `t` presses key `k`. */
  predicate Presses(t: Tick, k: string) {
    t.event.evType == EV_KEY && t.event.key == k && t.event.value == 1
  }

  /**
   * Key `k` counts as held after `trace`: its last press or release in `trace` was a press,
   * or `trace` neither presses nor releases it and it was held before.
   */
  ghost predicate HeldAfter(before: set<string>, trace: seq<Tick>, k: string) {
    || (exists i :: 0 <= i < |trace| && Presses(trace[i], k) && forall j :: i < j < |trace| ==> !Changes(trace[j], k))
    || (k in before && forall j :: 0 <= j < |trace| ==> !Changes(trace[j], k))
  }

  /** One more event: its own press or release decides, and any other event leaves the question to the earlier ones. */
  lemma HeldAfterStep(before: set<string>, trace: seq<Tick>, k: string)
    requires trace != []
    ensures var n := |trace| - 1;
      HeldAfter(before, trace, k) <==>
        if Changes(trace[n], k) then Presses(trace[n], k) else HeldAfter(before, trace[..n], k)
  {
    var n := |trace| - 1;
    var prefix := trace[..n];
    if Changes(trace[n], k) {
      if !Presses(trace[n], k) {
        forall i | 0 <= i < |trace| && Presses(trace[i], k)
          ensures exists j :: i < j < |trace| && Changes(trace[j], k)
        {
          assert i < n && Changes(trace[n], k);
        }
      }
    } else {
      if HeldAfter(before, prefix, k) {
        if exists i :: 0 <= i < n && Presses(prefix[i], k) && forall j :: i < j < n ==> !Changes(prefix[j], k) {
          var i :| 0 <= i < n && Presses(prefix[i], k) && forall j :: i < j < n ==> !Changes(prefix[j], k);
          assert Presses(trace[i], k) && forall j :: i < j < |trace| ==> !Changes(trace[j], k);
        }
      }
      if HeldAfter(before, trace, k) {
        if exists i :: 0 <= i < |trace| && Presses(trace[i], k) && forall j :: i < j < |trace| ==> !Changes(trace[j], k) {
          var i :| 0 <= i < |trace| && Presses(trace[i], k) && forall j :: i < j < |trace| ==> !Changes(trace[j], k);
          assert i < n;
          assert Presses(prefix[i], k) && forall j :: i < j < n ==> !Changes(prefix[j], k);
        }
      }
    }
  }

  /**
   * While `main` runs, the held keys after any events are exactly the keys whose most recent
   * press-or-release was a press (repeats and other values do not count), whatever the
   * cooldown and the combos do.
   */
  lemma {:induction false} ReplayTracksHeldKeys(cfg: TriggerSettings, s: DaemonState, trace: seq<Tick>, k: string)
    ensures Replay(cfg, s, trace).running ==> (k in Replay(cfg, s, trace).pressed <==> HeldAfter(s.pressed, trace, k))
    decreases |trace|
  {
    if trace != [] && Replay(cfg, s, trace).running {
      var n := |trace| - 1;
      var before := trace[..n];
      var t := trace[n];
      ReplayTracksHeldKeys(cfg, s, before, k);
      var b := Replay(cfg, s, before);
      assert Replay(cfg, s, trace) == Next(cfg, b, t);
      assert b.running;
      assert Replay(cfg, s, trace).pressed == if t.event.evType == EV_KEY then ApplyKey(b.pressed, t.event) else b.pressed;
      HeldAfterStep(s.pressed, trace, k);
    }
  }

  /**
   * Fires are at least the cooldown apart, the first at least the cooldown after the starting
   * `last_fire`; `last_fire` ends at the last fire, and each fire made one spawn call.
   */
  lemma {:induction false} FiresSpacedByCooldown(cfg: TriggerSettings, s: DaemonState, trace: seq<Tick>)
    ensures var ft := FireTimes(cfg, s, trace);
      && (ft != [] ==> ft[0] - s.lastFire >= cfg.cooldownMs)
      && (forall i :: 0 < i < |ft| ==> ft[i] - ft[i - 1] >= cfg.cooldownMs)
      && Replay(cfg, s, trace).lastFire == (if ft == [] then s.lastFire else ft[|ft| - 1])
      && Replay(cfg, s, trace).spawnCalls == s.spawnCalls + |ft|
    decreases |trace|
  {
    if trace != [] {
      var before := trace[..|trace| - 1];
      FiresSpacedByCooldown(cfg, s, before);
    }
  }

  /** With two combos that cannot raise, `main` keeps running whatever the events. */
  lemma {:induction false} SafeSettingsKeepRunning(cfg: TriggerSettings, s: DaemonState, trace: seq<Tick>)
    requires Safe(cfg.keyboard) && Safe(cfg.joystick) && s.running
    ensures Replay(cfg, s, trace).running
    decreases |trace|
  {
    if trace != [] {
      var before := trace[..|trace| - 1];
      SafeSettingsKeepRunning(cfg, s, before);
      var b := Replay(cfg, s, before);
      var t := trace[|trace| - 1];
      if t.event.evType == EV_KEY {
        var p := ApplyKey(b.pressed, t.event);
        SafeComboNeverRaises(p, cfg.keyboard);
        SafeComboNeverRaises(p, cfg.joystick);
      }
    }
  }

  // ---------------------------------------------------------------------------
  // Worked examples

  /** The combo of the worked example: hold KEY_LEFTCTRL, tap KEY_M, 500 ms cooldown. */
  const CtrlM := TriggerSettings(500, Combo(true, Entries([Name("KEY_LEFTCTRL")]), Name("KEY_M")), Defaults.joystick)

  function Key(name: string, value: int, now: int): Tick {
    Tick(InputEvent(EV_KEY, name, value), now, false)
  }

  /** Handling `a` and then `b` is handling `a + b`; the fires of `b` follow those of `a`. */
  lemma {:induction false} ReplayAppend(cfg: TriggerSettings, s: DaemonState, a: seq<Tick>, b: seq<Tick>)
    ensures Replay(cfg, s, a + b) == Replay(cfg, Replay(cfg, s, a), b)
    ensures FireTimes(cfg, s, a + b) == FireTimes(cfg, s, a) + FireTimes(cfg, Replay(cfg, s, a), b)
    decreases |b|
  {
    if b == [] {
      assert a + b == a;
    } else {
      var front := b[..|b| - 1];
      ReplayAppend(cfg, s, a, front);
      assert (a + b)[..|a + b| - 1] == a + front;
      assert (a + b)[|a + b| - 1] == b[|b| - 1];
    }
  }

  /** Ctrl then M, from the initial state at `t0`: the combo fires. */
  lemma CtrlMFirstPress(t0: int)
    requires t0 >= 500
    ensures var trace := [Key("KEY_LEFTCTRL", 1, t0), Key("KEY_M", 1, t0)];
      && Replay(CtrlM, Initial, trace) == DaemonState({"KEY_LEFTCTRL", "KEY_M"}, t0, 1, 1, true)
      && FireTimes(CtrlM, Initial, trace) == [t0]
  {
    var trace := [Key("KEY_LEFTCTRL", 1, t0), Key("KEY_M", 1, t0)];
    assert trace[..1][..0] == [] && trace[..1][0] == trace[0];
    assert !Held({"KEY_LEFTCTRL"}, Name("KEY_M"));
    assert !Held({"KEY_LEFTCTRL"}, Name("BTN_START"));
    assert Decide(CtrlM, {"KEY_LEFTCTRL"}) == Quiet;
    assert Replay(CtrlM, Initial, trace[..1]) == DaemonState({"KEY_LEFTCTRL"}, 0, 0, 0, true);
    assert FireTimes(CtrlM, Initial, trace[..1]) == [];
    assert trace[..2] == trace;
  }

  /** Releasing both keys and pressing them again 300 ms after the fire: the cooldown holds it back. */
  lemma CtrlMWithinCooldown(t0: int)
    ensures var trace := [
        Key("KEY_M", 0, t0 + 100), Key("KEY_LEFTCTRL", 0, t0 + 100),
        Key("KEY_LEFTCTRL", 1, t0 + 300), Key("KEY_M", 1, t0 + 300)];
      var s := DaemonState({"KEY_LEFTCTRL", "KEY_M"}, t0, 1, 1, true);
      && Replay(CtrlM, s, trace) == s
      && FireTimes(CtrlM, s, trace) == []
  {
    var trace := [
      Key("KEY_M", 0, t0 + 100), Key("KEY_LEFTCTRL", 0, t0 + 100),
      Key("KEY_LEFTCTRL", 1, t0 + 300), Key("KEY_M", 1, t0 + 300)];
    var s := DaemonState({"KEY_LEFTCTRL", "KEY_M"}, t0, 1, 1, true);
    assert trace[..1][..0] == [] && trace[..1][0] == trace[0];
    assert Replay(CtrlM, s, trace[..1]) == s.(pressed := {"KEY_LEFTCTRL"});
    assert trace[..2][..1] == trace[..1];
    assert Replay(CtrlM, s, trace[..2]) == s.(pressed := {});
    assert trace[..3][..2] == trace[..2];
    assert Replay(CtrlM, s, trace[..3]) == s.(pressed := {"KEY_LEFTCTRL"});
    assert trace[..4] == trace && trace[..4][..3] == trace[..3];
    assert FireTimes(CtrlM, s, trace[..1]) == [];
    assert FireTimes(CtrlM, s, trace[..2]) == [];
    assert FireTimes(CtrlM, s, trace[..3]) == [];
  }

  /** Releasing both keys and pressing them again 600 ms after the fire: the combo fires again. */
  lemma CtrlMAfterCooldown(t0: int)
    ensures var trace := [
        Key("KEY_M", 0, t0 + 400), Key("KEY_LEFTCTRL", 0, t0 + 400),
        Key("KEY_LEFTCTRL", 1, t0 + 600), Key("KEY_M", 1, t0 + 600)];
      var s := DaemonState({"KEY_LEFTCTRL", "KEY_M"}, t0, 1, 1, true);
      FireTimes(CtrlM, s, trace) == [t0 + 600]
  {
    var trace := [
      Key("KEY_M", 0, t0 + 400), Key("KEY_LEFTCTRL", 0, t0 + 400),
      Key("KEY_LEFTCTRL", 1, t0 + 600), Key("KEY_M", 1, t0 + 600)];
    var s := DaemonState({"KEY_LEFTCTRL", "KEY_M"}, t0, 1, 1, true);
    assert trace[..1][..0] == [] && trace[..1][0] == trace[0];
    assert Replay(CtrlM, s, trace[..1]) == s.(pressed := {"KEY_LEFTCTRL"});
    assert trace[..2][..1] == trace[..1];
    assert Replay(CtrlM, s, trace[..2]) == s.(pressed := {});
    assert trace[..3][..2] == trace[..2];
    assert !Held({"KEY_LEFTCTRL"}, Name("KEY_M"));
    assert !Held({"KEY_LEFTCTRL"}, Name("BTN_START"));
    assert Replay(CtrlM, s, trace[..3]) == s.(pressed := {"KEY_LEFTCTRL"});
    assert trace[..4] == trace && trace[..4][..3] == trace[..3];
    assert FireTimes(CtrlM, s, trace[..1]) == [];
    assert FireTimes(CtrlM, s, trace[..2]) == [];
    assert FireTimes(CtrlM, s, trace[..3]) == [];
  }

  /**
   * Ctrl+M at time `t0` fires; the same combo again 300 ms later does not; again 600 ms
   * after the first fire it does.
   */
  lemma CtrlMScenario(t0: int)
    requires t0 >= 500
    ensures var trace := [
        Key("KEY_LEFTCTRL", 1, t0), Key("KEY_M", 1, t0),
        Key("KEY_M", 0, t0 + 100), Key("KEY_LEFTCTRL", 0, t0 + 100),
        Key("KEY_LEFTCTRL", 1, t0 + 300), Key("KEY_M", 1, t0 + 300),
        Key("KEY_M", 0, t0 + 400), Key("KEY_LEFTCTRL", 0, t0 + 400),
        Key("KEY_LEFTCTRL", 1, t0 + 600), Key("KEY_M", 1, t0 + 600)];
      FireTimes(CtrlM, Initial, trace) == [t0, t0 + 600]
  {
    var a := [Key("KEY_LEFTCTRL", 1, t0), Key("KEY_M", 1, t0)];
    var b := [
      Key("KEY_M", 0, t0 + 100), Key("KEY_LEFTCTRL", 0, t0 + 100),
      Key("KEY_LEFTCTRL", 1, t0 + 300), Key("KEY_M", 1, t0 + 300)];
    var c := [
      Key("KEY_M", 0, t0 + 400), Key("KEY_LEFTCTRL", 0, t0 + 400),
      Key("KEY_LEFTCTRL", 1, t0 + 600), Key("KEY_M", 1, t0 + 600)];
    CtrlMFirstPress(t0);
    CtrlMWithinCooldown(t0);
    CtrlMAfterCooldown(t0);
    ReplayAppend(CtrlM, Initial, a, b);
    ReplayAppend(CtrlM, Initial, a + b, c);
    assert a + b + c == [
      Key("KEY_LEFTCTRL", 1, t0), Key("KEY_M", 1, t0),
      Key("KEY_M", 0, t0 + 100), Key("KEY_LEFTCTRL", 0, t0 + 100),
      Key("KEY_LEFTCTRL", 1, t0 + 300), Key("KEY_M", 1, t0 + 300),
      Key("KEY_M", 0, t0 + 400), Key("KEY_LEFTCTRL", 0, t0 + 400),
      Key("KEY_LEFTCTRL", 1, t0 + 600), Key("KEY_M", 1, t0 + 600)];
  }

  /** With the default 800 ms cooldown, a satisfied combo 500 ms after a fire is suppressed and one 900 ms after fires. */
  lemma DefaultCooldownExample(s: DaemonState, t: Tick, u: Tick)
    requires s.running && t.event.evType == EV_KEY && u.event.evType == EV_KEY
    requires t.now == s.lastFire + 500 && u.now == s.lastFire + 900
    requires Fires(Decide(Defaults, ApplyKey(s.pressed, u.event)))
    ensures FiringOf(Defaults, s, t) == Quiet
    ensures Fires(FiringOf(Defaults, s, u))
  {
  }

  // ---------------------------------------------------------------------------
  // Start-up and the loop

  /** Why `main` stops before watching: a configuration it cannot read options from, or no devices. */
  datatype StartupError = ConfigRaised(e: ConfigError) | NoInputDevices

  /**
   * The start of `main`: options from the loaded configuration, then the device check;
   * `devices` is how many input devices could be opened.
   */
  function Startup(f: ConfigFile, devices: nat): (r: Result<TriggerSettings, StartupError>)
    ensures r.Ok? <==> ReadSettings(LoadConfig(f)).Ok? && devices > 0
    ensures r.Ok? ==> r.value == ReadSettings(LoadConfig(f)).value
    ensures ReadSettings(LoadConfig(f)).Ok? && devices == 0 ==> r == Err(NoInputDevices)
    ensures f.Unreadable? && devices > 0 ==> r == Ok(Defaults)
  {
    match ReadSettings(LoadConfig(f))
    case Err(e) => Err(ConfigRaised(e))
    case Ok(cfg) => if devices == 0 then Err(NoInputDevices) else Ok(cfg)
  }

  /** The daemon's loop state, updated in place by the loop body as `main` does. */
  class Daemon {
    const settings: TriggerSettings
    var pressed: set<string>
    var lastFire: int
    var spawnCalls: nat
    var launches: nat
    var running: bool

    function State(): DaemonState
      reads this
    {
      DaemonState(pressed, lastFire, spawnCalls, launches, running)
    }

    constructor (settings: TriggerSettings)
      ensures this.settings == settings
      ensures State() == Initial
    {
      this.settings := settings;
      pressed := {};
      lastFire := 0;
      spawnCalls := 0;
      launches := 0;
      running := true;
    }

    /** `spawn_overlay`, with the scan's answer given. */
    method Spawn(menuFound: bool) returns (out: SpawnOutcome)
      modifies this
      ensures out == SpawnOverlay(menuFound)
      ensures spawnCalls == old(spawnCalls) + 1
      ensures launches == old(launches) + (if out == Launched then 1 else 0)
      ensures pressed == old(pressed) && lastFire == old(lastFire) && running == old(running)
    {
      spawnCalls := spawnCalls + 1;
      if menuFound {
        return AlreadyRunning;
      }
      launches := launches + 1;
      out := Launched;
    }

    /**
     * The body of the loop for one event. A combo test that raises ends `main`, which the
     * cleared `running` flag stands for; nothing is handled after that.
     */
    method HandleEvent(t: Tick) returns (fired: Firing)
      modifies this
      ensures fired == FiringOf(settings, old(State()), t)
      ensures State() == Next(settings, old(State()), t)
    {
      var ev := t.event;
      if !running || ev.evType != EV_KEY {
        return Quiet;
      }
      if ev.value == 1 {
        pressed := pressed + {ev.key};
      } else if ev.value == 0 {
        pressed := pressed - {ev.key};
      }
      if t.now - lastFire < settings.cooldownMs {
        return Quiet;
      }
      fired := Quiet;
      var kb := TestOf(pressed, settings.keyboard);
      if kb == Raised {
        running := false;
        return Crashed;
      }
      if kb == Matched {
        fired := Keyboard;
      }
      if fired == Quiet {
        var js := TestOf(pressed, settings.joystick);
        if js == Raised {
          running := false;
          return Crashed;
        }
        if js == Matched {
          fired := Joystick;
        }
      }
      if fired != Quiet {
        lastFire := t.now;
        var _ := Spawn(t.menuFound);
      }
    }

    /** The loop over a given sequence of events, in arrival order. */
    method Run(trace: seq<Tick>)
      modifies this
      ensures State() == Replay(settings, old(State()), trace)
    {
      var i := 0;
      while i < |trace|
        invariant 0 <= i <= |trace|
        invariant State() == Replay(settings, old(State()), trace[..i])
      {
        assert trace[..i + 1][..i] == trace[..i];
        var _ := HandleEvent(trace[i]);
        i := i + 1;
      }
      assert trace[..i] == trace;
    }
  }
}
