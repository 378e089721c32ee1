/**
 * The dashboard menu, menu_overlay3.py: a cursor over the cards that clamps at the ends (or
 * wraps, when `WRAP_AROUND` is set), a window that a "toggle" message shows and withdraws,
 * cards whose actions hide the window, run a command chain or do nothing, and Escape, which
 * destroys the window.
 */
module MenuOverlay3 {
  import opened Wrappers
  import opened Palette
  import opened Commands
  import opened Arithmetic
  import opened MenuList
  import opened Actions
  import Text

  /** What a card's description shows: a fixed text, or one of the status texts. */
  datatype Desc = Static(text: string) | VolumeStatus | BrightnessStatus | WifiStatus | BluetoothStatus

  /** A non-header entry of `MENU_ITEMS`. */
  datatype CardSpec = CardSpec(title: string, desc: Desc, action: Action, tag: Option<string>, danger: bool, switch: bool)

  /** `if tag:` — the card names a refresh group. */
  predicate Tagged(spec: CardSpec) {
    spec.tag.Some? && spec.tag.value != ""
  }

  // ---------------------------------------------------------------------------
  // Moving the cursor

  /** `max(0, min(n - 1, i + d))`: the position `i + d`, held at the first and the last card. */
  function Clamped(i: int, d: int, n: int): (r: int)
    requires n > 0
    ensures 0 <= r < n
    ensures 0 <= i + d < n ==> r == i + d
    ensures i + d < 0 ==> r == 0
    ensures i + d >= n ==> r == n - 1
  {
    var m := if n - 1 < i + d then n - 1 else i + d;
    if m < 0 then 0 else m
  }

  /** Where `move_sel` puts the cursor when there are `n` cards. */
  function NextIndex(wrap: bool, i: int, d: int, n: int): (r: int)
    requires n > 0
    ensures 0 <= r < n
    ensures wrap ==> r == Wrapped(i, d, n)
    ensures !wrap ==> r == Clamped(i, d, n)
  {
    if wrap then Wrapped(i, d, n) else Clamped(i, d, n)
  }

  /**
   * Without wrap-around the cursor stops at the ends: moving up from the first card or down
   * from the last leaves it where it is, so `move_sel` does nothing; with wrap-around it
   * goes round to the other end.
   */
  lemma EndsOfTheList(n: int)
    requires n > 0
    ensures NextIndex(false, 0, -1, n) == 0
    ensures NextIndex(false, n - 1, 1, n) == n - 1
    ensures NextIndex(true, 0, -1, n) == n - 1
    ensures NextIndex(true, n - 1, 1, n) == 0
  {
  }

  // ---------------------------------------------------------------------------
  // Scrolling the selected card into view

  /** What `ensure_visible` measures: the canvas and content heights, and the selected card's top and height. */
  datatype Geometry = Geometry(canvasH: real, innerH: real, cardY: real, cardH: real)

  /** The top of the view that puts the card's centre in the middle of the canvas. */
  function CentredTop(g: Geometry): real {
    g.cardY + g.cardH / 2.0 - g.canvasH / 2.0
  }

  /** `view_top` clamped into `[0, max_scroll]`. */
  function ClampTop(top: real, maxScroll: real): (r: real)
    requires maxScroll > 0.0
    ensures 0.0 <= r <= maxScroll
    ensures 0.0 <= top <= maxScroll ==> r == top
    ensures top < 0.0 ==> r == 0.0
    ensures top > maxScroll ==> r == maxScroll
  {
    var t := if top < 0.0 then 0.0 else top;
    if t > maxScroll then maxScroll else t
  }

  lemma FractionOfRange(x: real, m: real)
    requires m > 0.0 && 0.0 <= x <= m
    ensures 0.0 <= x / m <= 1.0 && (x / m) * m == x
  {
    var f := x / m;
    assert f * m == x;
    assert (f - 1.0) * m == x - m;
  }

  /**
   * `ensure_visible`: the scroll fraction to move to, or `None` when the content fits in the
   * canvas and nothing scrolls. The fraction is the clamped centring top divided by the
   * scroll range `inner_h - canvas_h`.
   */
  function ScrollFraction(g: Geometry): (f: Option<real>)
    ensures f.None? <==> g.innerH <= g.canvasH
    ensures f.Some? ==> 0.0 <= f.value <= 1.0
    ensures f.Some? ==> f.value * (g.innerH - g.canvasH) == ClampTop(CentredTop(g), g.innerH - g.canvasH)
  {
    if g.innerH <= g.canvasH then None
    else
      var maxScroll := g.innerH - g.canvasH;
      var top := ClampTop(CentredTop(g), maxScroll);
      var fraction := top / maxScroll;
      FractionOfRange(top, maxScroll);
      Some(if 1.0 < fraction then 1.0 else if fraction < 0.0 then 0.0 else fraction)
  }

  /** Two fractions of the same positive range are ordered as the lengths they denote. */
  lemma FractionsOrdered(fa: real, fb: real, a: real, b: real, m: real)
    requires m > 0.0 && fa * m == a && fb * m == b && a <= b
    ensures fa <= fb
  {
  }

  /**
   * The fraction follows the card: in the same canvas and content, a card lower down never
   * gets a smaller fraction; a card whose centring top is above the content gets 0, and one
   * whose centring top is past the scroll range gets 1.
   */
  lemma ScrollFollowsCard(g: Geometry, h: Geometry)
    requires g.innerH > g.canvasH && h.canvasH == g.canvasH && h.innerH == g.innerH
    requires CentredTop(g) <= CentredTop(h)
    ensures ScrollFraction(g).value <= ScrollFraction(h).value
    ensures CentredTop(g) <= 0.0 ==> ScrollFraction(g).value == 0.0
    ensures CentredTop(h) >= h.innerH - h.canvasH ==> ScrollFraction(h).value == 1.0
  {
    var m := g.innerH - g.canvasH;
    var a, b := ClampTop(CentredTop(g), m), ClampTop(CentredTop(h), m);
    var fa, fb := ScrollFraction(g).value, ScrollFraction(h).value;
    assert fa * m == a && fb * m == b;
    FractionsOrdered(fa, fb, a, b, m);
    if CentredTop(h) >= m {
      FractionsOrdered(1.0, fb, m, b, m);
    }
  }

  // ---------------------------------------------------------------------------
  // The window

  /** The window as `root.state()` reports it, or destroyed. */
  datatype WindowMode = Withdrawn | Shown | Destroyed

  /** The part of the application's state that showing and withdrawing act on. */
  datatype Snapshot = Snapshot(window: WindowMode, fullscreen: bool, idx: int, scroll: real)

  /**
   * `do_toggle` (with the `initial_position` it schedules): a withdrawn window is shown full
   * screen with the cursor on the first card and the list at the top; a shown window is
   * withdrawn and keeps its cursor; a destroyed one stays destroyed.
   */
  function Toggled(s: Snapshot): (t: Snapshot)
    ensures t.window == Destroyed <==> s.window == Destroyed
    ensures s.window == Withdrawn ==> t.window == Shown && t.fullscreen && t.idx == 0 && t.scroll == 0.0
    ensures s.window == Shown ==> t == s.(window := Withdrawn)
  {
    match s.window
    case Withdrawn => Snapshot(Shown, true, 0, 0.0)
    case Shown => s.(window := Withdrawn)
    case Destroyed => s
  }

  /** Two toggles bring a withdrawn window back to withdrawn, and a shown one back to shown with the cursor reset. */
  lemma ToggleTwice(s: Snapshot)
    ensures s.window == Withdrawn ==> Toggled(Toggled(s)) == Snapshot(Withdrawn, true, 0, 0.0)
    ensures s.window == Shown ==> Toggled(Toggled(s)) == Snapshot(Shown, true, 0, 0.0)
    ensures Toggled(s).window == Destroyed <==> s.window == Destroyed
  {
  }

  /** What clicking a card acts on: the window and what was started. */
  datatype Effects = Effects(window: WindowMode, launched: seq<Command>, ran: seq<Command>, refreshes: nat)

  /**
   * `on_card_click`: the card's `fn` is called; "hide" withdraws the window, a list is
   * handed to the command runner, whose `on_finish` refreshes the cards when the card is
   * tagged, and `None` does nothing more.
   */
  function Click(e: Effects, spec: CardSpec, nightState: Option<string>, succeeds: nat -> bool): (r: Effects)
    ensures r.launched == e.launched + (if spec.action.LaunchThenHide? || spec.action.LaunchOnly? then [spec.action.cmd] else [])
    ensures r.window == (if spec.action.LaunchThenHide? || spec.action.Back? then Withdrawn else e.window)
    ensures r.refreshes == e.refreshes + (if Tagged(spec) && (spec.action.Chain? || spec.action.ToggleNightLight?) then 1 else 0)
  {
    Apply(e, Perform(spec.action, nightState), Tagged(spec), succeeds)
  }

  /** What a card's outcome does to the window, the launched programs, the chains run and the refreshes. */
  function Apply(e: Effects, o: Outcome, tagged: bool, succeeds: nat -> bool): (r: Effects)
    ensures r.window == e.window || r.window == Withdrawn
    ensures o.result.Hide? ==> r.window == Withdrawn
    ensures !o.result.Hide? ==> r.window == e.window
    ensures r.launched == e.launched + (if o.launch.Some? then [o.launch.value] else [])
    ensures e.ran <= r.ran && e.refreshes <= r.refreshes <= e.refreshes + 1
    ensures o.result.RunChain? ==> r.ran == e.ran + o.result.cmds[..Attempts(succeeds, 0, |o.result.cmds|)]
    ensures r.refreshes > e.refreshes ==> tagged && o.result.RunChain?
    ensures r.ran != e.ran ==> o.result.RunChain?
  {
    var launched := e.launched + (if o.launch.Some? then [o.launch.value] else []);
    match o.result
    case Hide => e.(window := Withdrawn, launched := launched)
    case RunChain(cmds) =>
      e.(launched := launched,
         ran := e.ran + cmds[..Attempts(succeeds, 0, |cmds|)],
         refreshes := e.refreshes + if tagged then 1 else 0)
    case NoResult => e.(launched := launched)
  }

  /**
   * A card result withdraws the window exactly when it is "hide", and never destroys it: an
   * application card launches its program and withdraws, "back" only withdraws. A command
   * list leaves the window as it was and runs the chain up to its first success; the
   * night-light chain, a single command, always runs. The power cards, whose result is
   * `None`, only launch their command.
   */
  lemma ClickCases(e: Effects, spec: CardSpec, nightState: Option<string>, succeeds: nat -> bool)
    requires e.window != Destroyed
    ensures var r := Click(e, spec, nightState, succeeds);
      && r.window != Destroyed
      && (r.window != e.window ==> r.window == Withdrawn && (spec.action.LaunchThenHide? || spec.action.Back?))
      && (spec.action.LaunchThenHide? ==> r == e.(window := Withdrawn, launched := e.launched + [spec.action.cmd]))
      && (spec.action.Back? ==> r == e.(window := Withdrawn))
      && (spec.action.LaunchOnly? ==> r == e.(launched := e.launched + [spec.action.cmd]))
      && (spec.action.Chain? ==>
            && r.window == e.window && r.launched == e.launched
            && r.ran == e.ran + spec.action.cmds[..Attempts(succeeds, 0, |spec.action.cmds|)])
      && (spec.action.ToggleNightLight? ==>
            && r.window == e.window && r.launched == e.launched
            && r.ran == e.ran + Perform(ToggleNightLight, nightState).result.cmds)
  {
    if spec.action.ToggleNightLight? {
      var cmds := Perform(ToggleNightLight, nightState).result.cmds;
      assert Attempts(succeeds, 0, |cmds|) == 1;
      assert cmds[..1] == cmds;
    }
  }

  // ---------------------------------------------------------------------------
  // The cards and the application

  /** `DashboardCard`: the highlight flag, the colours it shows and the background of its switch, if it has one. */
  class Card {
    const spec: CardSpec
    var isSelected: bool
    var look: Look
    var switchBg: Option<Colour>

    /** The colours always follow the highlight flag; a switch takes the card's background. */
    ghost predicate Valid()
      reads this
    {
      && look == LookOf(isSelected, spec.danger)
      && switchBg == (if spec.switch then Some(look.bg) else None)
    }

    constructor (spec: CardSpec)
      ensures this.spec == spec
      ensures !isSelected && Valid()
    {
      this.spec := spec;
      isSelected := false;
      look := Look(CardBg, if spec.danger then Danger else TextMain, TextSec);
      switchBg := if spec.switch then Some(CardBg) else None;
    }

    /** `set_highlight`: nothing when the flag already has the requested value, otherwise set it and recolour. */
    method SetHighlight(active: bool)
      requires Valid()
      modifies this
      ensures isSelected == active && Valid()
      ensures old(isSelected) == active ==> look == old(look) && switchBg == old(switchBg)
    {
      if isSelected == active {
        return;
      }
      isSelected := active;
      var bg := if active then CardHover else CardBg;
      if active && spec.danger {
        bg := Danger;
      }
      look := Look(bg, if active then TextMain else (if spec.danger then Danger else TextMain),
                   if active then TextMain else TextSec);
      if spec.switch {
        switchBg := Some(bg);
      }
    }
  }

  /** The cards `_build_menu` creates: one new card per non-header entry, in menu order. */
  method BuildCards(entries: seq<MenuItem<CardSpec>>) returns (built: seq<Card>)
    ensures |built| == |CardsOf(entries)|
    ensures forall i :: 0 <= i < |built| ==> built[i].spec == CardsOf(entries)[i]
    ensures forall i :: 0 <= i < |built| ==> fresh(built[i]) && built[i].Valid()
    ensures forall i, j :: 0 <= i < j < |built| ==> built[i] != built[j]
  {
    built := [];
    var k := 0;
    while k < |entries|
      invariant 0 <= k <= |entries|
      invariant |built| == |CardsOf(entries[..k])|
      invariant forall i :: 0 <= i < |built| ==> built[i].spec == CardsOf(entries[..k])[i]
      invariant forall i :: 0 <= i < |built| ==> fresh(built[i]) && built[i].Valid()
      invariant forall i, j :: 0 <= i < j < |built| ==> built[i] != built[j]
    {
      CardsOfPrefix(entries, k);
      if entries[k].Item? {
        var c := new Card(entries[k].data);
        built := built + [c];
      }
      k := k + 1;
    }
    assert entries[..k] == entries;
  }

  /** `OverlayApp`: the cards, the cursor, the window, the scroll position and what the cards started. */
  class App {
    /** `WRAP_AROUND`. */
    const wrap: bool
    const cards: seq<Card>
    var idx: int
    var window: WindowMode
    var fullscreen: bool
    /** The scroll position, as the fraction `yview_moveto` takes. */
    var scroll: real
    /** Programs started in the background by `run_fast`. */
    var launched: seq<Command>
    /** Commands run by the command runner, in order. */
    var ran: seq<Command>
    /** Refreshes of the card texts requested when a tagged card's chain finished. */
    var refreshes: nat

    /** The cards are distinct objects, each showing the colours its highlight flag calls for. */
    ghost predicate CardsValid()
      reads cards
    {
      && (forall i, j :: 0 <= i < j < |cards| ==> cards[i] != cards[j])
      && (forall i :: 0 <= i < |cards| ==> cards[i].Valid())
    }

    ghost predicate Valid()
      reads this, cards
    {
      && CardsValid()
      && 0 <= idx
      && (idx < |cards| || idx == 0)
      && 0.0 <= scroll <= 1.0
    }

    /** Exactly the card under the cursor is highlighted. */
    ghost predicate HighlightsSelection()
      reads this, cards
    {
      forall i :: 0 <= i < |cards| ==> cards[i].isSelected == (i == idx)
    }

    function State(): Snapshot
      reads this
    {
      Snapshot(window, fullscreen, idx, scroll)
    }

    function Done(): Effects
      reads this
    {
      Effects(window, launched, ran, refreshes)
    }

    /**
     * The constructor with `_build_menu`: the window starts withdrawn, one card per
     * non-header entry, the cursor on the first card and that card highlighted.
     */
    constructor (wrap: bool, entries: seq<MenuItem<CardSpec>>)
      ensures Valid() && HighlightsSelection()
      ensures this.wrap == wrap
      ensures |cards| == |CardsOf(entries)|
      ensures forall i :: 0 <= i < |cards| ==> cards[i].spec == CardsOf(entries)[i]
      ensures State() == Snapshot(Withdrawn, false, 0, 0.0)
      ensures launched == [] && ran == [] && refreshes == 0
    {
      var built := BuildCards(entries);
      this.wrap := wrap;
      cards := built;
      idx := 0;
      window := Withdrawn;
      fullscreen := false;
      scroll := 0.0;
      launched := [];
      ran := [];
      refreshes := 0;
      new;
      UpdateVis();
    }

    /** `update_vis`: highlight the card under the cursor and no other. */
    method UpdateVis()
      requires Valid()
      modifies cards
      ensures Valid() && HighlightsSelection()
      ensures forall i :: 0 <= i < |cards| && old(cards[i].isSelected) == (i == idx) ==>
        cards[i].look == old(cards[i].look)
    {
      var i := 0;
      while i < |cards|
        invariant 0 <= i <= |cards|
        invariant Valid()
        invariant forall j :: 0 <= j < i ==> cards[j].isSelected == (j == idx)
        invariant forall j :: 0 <= j < i && old(cards[j].isSelected) == (j == idx) ==>
          cards[j].look == old(cards[j].look)
        invariant forall j :: i <= j < |cards| ==>
          cards[j].isSelected == old(cards[j].isSelected) && cards[j].look == old(cards[j].look)
      {
        cards[i].SetHighlight(i == idx);
        i := i + 1;
      }
    }

    /** `ensure_visible`: scroll so that the card under the cursor, measured as `g`, is in view. */
    method EnsureVisible(g: Geometry)
      requires Valid()
      modifies this
      ensures Valid()
      ensures scroll == (if |cards| > 0 && ScrollFraction(g).Some? then ScrollFraction(g).value else old(scroll))
      ensures State() == old(State()).(scroll := scroll) && Done() == old(Done())
    {
      if |cards| == 0 {
        return;
      }
      var f := ScrollFraction(g);
      if f.None? {
        return;
      }
      scroll := f.value;
    }

    /**
     * `move_sel`: with no cards, or when the cursor would not move, nothing changes; otherwise
     * the cursor moves (clamped, or wrapped), the highlight follows it and the list scrolls to
     * show it, as measured in `g`.
     */
    method MoveSel(d: int, g: Geometry)
      requires Valid()
      modifies this, cards
      ensures Valid()
      ensures |cards| == 0 ==> idx == old(idx)
      ensures |cards| > 0 ==> idx == NextIndex(wrap, old(idx), d, |cards|)
      ensures idx == old(idx) ==> scroll == old(scroll) && unchanged(cards)
      ensures idx != old(idx) ==>
        && HighlightsSelection()
        && scroll == (if ScrollFraction(g).Some? then ScrollFraction(g).value else old(scroll))
      ensures window == old(window) && fullscreen == old(fullscreen) && Done() == old(Done())
    {
      if |cards| == 0 {
        return;
      }
      var n := |cards|;
      var prev := idx;
      if wrap {
        idx := (idx + d) % n;
      } else {
        idx := Clamped(idx, d, n);
      }
      if idx == prev {
        return;
      }
      UpdateVis();
      EnsureVisible(g);
    }

    /** `initial_position`: the cursor back on the first card, highlighted, and the list at the top. */
    method InitialPosition()
      requires Valid()
      modifies this, cards
      ensures Valid() && HighlightsSelection()
      ensures State() == old(State()).(idx := 0, scroll := 0.0) && Done() == old(Done())
    {
      idx := 0;
      UpdateVis();
      scroll := 0.0;
    }

    /** `reveal_window` (with the `initial_position` it schedules): shown, full screen, cursor and list reset. */
    method RevealWindow()
      requires Valid() && window != Destroyed
      modifies this, cards
      ensures Valid() && HighlightsSelection()
      ensures State() == Snapshot(Shown, true, 0, 0.0) && Done() == old(Done()).(window := Shown)
    {
      window := Shown;
      fullscreen := true;
      InitialPosition();
    }

    /** `do_toggle`. */
    method DoToggle()
      requires Valid()
      modifies this, cards
      ensures Valid()
      ensures State() == Toggled(old(State()))
      ensures old(window) == Withdrawn ==> HighlightsSelection()
      ensures old(window) != Withdrawn ==> unchanged(cards)
      ensures launched == old(launched) && ran == old(ran) && refreshes == old(refreshes)
    {
      if window == Withdrawn {
        RevealWindow();
      } else if window == Shown {
        window := Withdrawn;
      }
    }

    /** A message on the control socket: a toggle happens only when it contains "toggle". */
    method ReceiveMessage(msg: string)
      requires Valid()
      modifies this, cards
      ensures Valid()
      ensures State() == (if Text.Contains(msg, "toggle") then Toggled(old(State())) else old(State()))
      ensures Text.Contains(msg, "toggle") && old(window) == Withdrawn ==> HighlightsSelection()
      ensures !Text.Contains(msg, "toggle") || old(window) != Withdrawn ==> unchanged(cards)
      ensures launched == old(launched) && ran == old(ran) && refreshes == old(refreshes)
    {
      if Text.Contains(msg, "toggle") {
        DoToggle();
      }
    }

    /**
     * `on_card_click` for card `i`, with the night-light state `gsettings` reports and the
     * outcome of each command of a chain.
     */
    method OnCardClick(i: int, nightState: Option<string>, succeeds: nat -> bool)
      requires Valid() && 0 <= i < |cards| && window != Destroyed
      modifies this
      ensures Valid()
      ensures Done() == Click(old(Done()), cards[i].spec, nightState, succeeds)
      ensures idx == old(idx) && scroll == old(scroll) && fullscreen == old(fullscreen)
    {
      var spec := cards[i].spec;
      ghost var before := Done();
      var o := Perform(spec.action, nightState);
      if o.launch.Some? {
        launched := launched + [o.launch.value];
      }
      match o.result {
        case Hide =>
          window := Withdrawn;
        case RunChain(cmds) =>
          var started, _, finishCalls := RunThreadedAction(cmds, succeeds, true);
          ran := ran + started;
          if Tagged(spec) {
            refreshes := refreshes + finishCalls;
          }
        case NoResult =>
      }
      assert Done() == Apply(before, o, Tagged(spec), succeeds);
    }

    /** `trigger` (Return): the card under the cursor is clicked; with no cards the indexing raises (`ok == false`). */
    method Trigger(nightState: Option<string>, succeeds: nat -> bool) returns (ok: bool)
      requires Valid() && window != Destroyed
      modifies this
      ensures Valid()
      ensures ok <==> |cards| > 0
      ensures ok ==> Done() == Click(old(Done()), cards[old(idx)].spec, nightState, succeeds)
      ensures !ok ==> Done() == old(Done())
      ensures idx == old(idx) && scroll == old(scroll) && fullscreen == old(fullscreen)
    {
      if |cards| == 0 {
        return false;
      }
      OnCardClick(idx, nightState, succeeds);
      ok := true;
    }

    /** The Escape binding: the window is destroyed. */
    method Escape()
      modifies this
      ensures State() == old(State()).(window := Destroyed)
      ensures launched == old(launched) && ran == old(ran) && refreshes == old(refreshes)
    {
      window := Destroyed;
    }

    /** The mouse entering (`active`) or leaving a card highlights or unhighlights that card alone. */
    method Hover(i: int, active: bool)
      requires Valid() && 0 <= i < |cards|
      modifies cards[i]
      ensures Valid()
      ensures cards[i].isSelected == active
    {
      cards[i].SetHighlight(active);
    }
  }

  // ---------------------------------------------------------------------------
  // The menu as configured

  const AppCards: seq<CardSpec> := [
    CardSpec("EmulationStation", Static("Volver al sistema principal"), LaunchThenHide(["es-de"]), None, false, false),
    CardSpec("Steam Mode", Static("Lanzar Big Picture"),
      LaunchThenHide(["flatpak", "run", "com.valvesoftware.Steam"]), None, false, false),
    CardSpec("Waydroid", Static("Contenedor Android"), LaunchThenHide(["waydroid", "show-full-ui"]), None, false, false),
    CardSpec("Xbox Cloud", Static("Juego en la nube"),
      LaunchThenHide(["flatpak", "run", "com.google.Chrome", "--kiosk", "https://www.xbox.com/play"]), None, false, false),
    CardSpec("YouTube", Static("Ver videos online"),
      LaunchThenHide(["flatpak", "run", "com.google.Chrome", "--kiosk", "https://www.youtube.com/tv"]), None, false, false),
    CardSpec("Explorador de Archivos", Static("Gestionar archivos"), LaunchThenHide(["nautilus"]), None, false, false)
  ]

  const SystemCards: seq<CardSpec> := [
    CardSpec("Volver al juego", Static("Ocultar menú"), Back, None, false, false),
    CardSpec("Subir Volumen", VolumeStatus,
      Chain([["pactl", "set-sink-volume", "@DEFAULT_SINK@", "+5%"]]), Some("volume"), false, false),
    CardSpec("Bajar Volumen", VolumeStatus,
      Chain([["pactl", "set-sink-volume", "@DEFAULT_SINK@", "-5%"]]), Some("volume"), false, false),
    CardSpec("Subir Brillo", BrightnessStatus,
      Chain([["brightnessctl", "set", "5%+"], ["light", "-A", "5"]]), Some("bright"), false, false),
    CardSpec("Bajar Brillo", BrightnessStatus,
      Chain([["brightnessctl", "set", "5%-"], ["light", "-U", "5"]]), Some("bright"), false, false),
    CardSpec("Filtro Luz Azul", Static("Descanso visual"), ToggleNightLight, Some("night"), false, true),
    CardSpec("Wi-Fi", WifiStatus, LaunchThenHide([Interpreter, SettingsScript, "wifi"]), None, false, false),
    CardSpec("Bluetooth", BluetoothStatus, LaunchThenHide([Interpreter, SettingsScript, "bluetooth"]), None, false, false),
    CardSpec("Discord", Static("Abrir chat de voz"),
      LaunchThenHide(["flatpak", "run", "com.discordapp.Discord"]), None, false, false)
  ]

  const PowerCards: seq<CardSpec> := [
    CardSpec("Reiniciar", Static("Reboot system"), LaunchOnly(["systemctl", "reboot"]), None, true, false),
    CardSpec("Apagar", Static("Shutdown system"), LaunchOnly(["systemctl", "poweroff"]), None, true, false)
  ]

  /** `MENU_ITEMS`: three sections, each a header followed by its cards. */
  const MenuItems: seq<MenuItem<CardSpec>> :=
    [Header("APLICACIONES")] + ItemsOf(AppCards)
    + [Header("SISTEMA")] + ItemsOf(SystemCards)
    + [Header("ENERGÍA")] + ItemsOf(PowerCards)

  /** The configured menu's cards are the three sections' cards, in order. */
  lemma MenuCards()
    ensures CardsOf(MenuItems) == AppCards + SystemCards + PowerCards
  {
    CardsOfSections("APLICACIONES", AppCards, "SISTEMA", SystemCards, "ENERGÍA", PowerCards);
  }

  /**
   * How a card's flags go together: only a danger card's action returns nothing, exactly the
   * cards whose action returns a command list are tagged, and only the night-light card has
   * a switch.
   */
  ghost predicate FlagsAgree(c: CardSpec, danger: bool) {
    && c.danger == danger
    && (c.action.LaunchOnly? <==> c.danger)
    && ((c.action.Chain? || c.action.ToggleNightLight?) <==> Tagged(c))
    && (c.switch <==> c.action.ToggleNightLight?)
  }

  lemma SectionFlags()
    ensures forall i :: 0 <= i < |AppCards| ==> FlagsAgree(AppCards[i], false)
    ensures forall i :: 0 <= i < |SystemCards| ==> FlagsAgree(SystemCards[i], false)
    ensures forall i :: 0 <= i < |PowerCards| ==> FlagsAgree(PowerCards[i], true)
  {
  }

  /**
   * The configured menu has seventeen cards. The last two, reboot and shutdown, are the
   * danger cards and the only ones whose action returns nothing; the cards whose action
   * returns a command list are exactly the tagged ones, so their texts are refreshed after
   * the chain; only the night-light card has a switch.
   */
  lemma ConfiguredMenu()
    ensures CardsOf(MenuItems) == AppCards + SystemCards + PowerCards
    ensures |CardsOf(MenuItems)| == 17
    ensures forall i :: 0 <= i < 17 ==> var c := CardsOf(MenuItems)[i];
      && (c.danger <==> i >= 15)
      && (c.action.LaunchOnly? <==> c.danger)
      && ((c.action.Chain? || c.action.ToggleNightLight?) <==> Tagged(c))
      && (c.switch <==> c.action.ToggleNightLight?)
  {
    MenuCards();
    SectionFlags();
    var all := AppCards + SystemCards + PowerCards;
    forall i | 0 <= i < 17
      ensures FlagsAgree(all[i], i >= 15)
    {
      if i < 6 {
        assert all[i] == AppCards[i];
      } else if i < 15 {
        assert all[i] == SystemCards[i - 6];
      } else {
        assert all[i] == PowerCards[i - 15];
      }
    }
  }
}
