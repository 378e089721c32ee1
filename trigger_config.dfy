/**
 * The daemon's configuration: `load_config` and the option defaulting at the top of `main`
 * in overlay_daemon.py. The document is what `json.loads` returned; the record is what the
 * event loop then uses.
 */
module TriggerConfig {
  import opened Wrappers
  import Text

  /** A decoded JSON document (numbers are limited to integers). */
  datatype Json =
    | JNull
    | JBool(b: bool)
    | JInt(i: int)
    | JStr(s: string)
    | JList(items: seq<Json>)
    | JObject(fields: map<string, Json>)

  /** What reading and decoding config.json produced: any failure is one outcome. */
  datatype ConfigFile = Unreadable | Decoded(doc: Json)

  /**
   * A configured value used as a member of the pressed set, as `key not in pressed` and
   * `tap_key in pressed` use it: a string names a key; a list or a dict is unhashable, so the
   * lookup raises TypeError; any other value is hashable but is never a key name.
   */
  datatype Member = Name(s: string) | NeverHeld | Unhashable

  /**
   * What `for key in hold_list` goes through: the entries of a list, in order, or the
   * one-character strings of a string; the keys of a dict, which are strings; or nothing,
   * because `null`, a boolean or a number is not iterable and the loop raises TypeError.
   */
  datatype Hold = Entries(items: seq<Member>) | DictKeys(keys: set<string>) | NotIterable

  /** One combo as `main` stores it: whether it is enabled, the hold value and the tap value. */
  datatype Combo = Combo(enabled: bool, hold: Hold, tap: Member)

  /** The options `main` reads out of the "trigger" section. */
  datatype TriggerSettings = TriggerSettings(cooldownMs: int, keyboard: Combo, joystick: Combo)

  /** The ways in which a decoded document makes `main` raise before it starts watching. */
  datatype ConfigError =
    | NotAnObject(section: string) // `.get` called on something that is not a dict
    | BadCooldown                  // `int(...)` of the cooldown raised

  const DefaultCooldownMs := 800
  const DefaultKeyboardTap := "KEY_M"
  const DefaultJoystickTap := "BTN_START"

  /** The record that an empty document yields. */
  const Defaults := TriggerSettings(
    DefaultCooldownMs,
    Combo(true, Entries([]), Name(DefaultKeyboardTap)),
    Combo(true, Entries([]), Name(DefaultJoystickTap)))

  /** `load_config`: the decoded document, or an empty dict when the file cannot be read or decoded. */
  function LoadConfig(f: ConfigFile): (doc: Json)
    ensures f.Unreadable? ==> doc == JObject(map[])
    ensures f.Decoded? ==> doc == f.doc
  {
    match f
    case Unreadable => JObject(map[])
    case Decoded(d) => d
  }

  /** `dict.get(key, default)`. */
  function Get(fields: map<string, Json>, key: string, default: Json): Json {
    if key in fields then fields[key] else default
  }

  /** Python truthiness of a decoded value. */
  predicate Truthy(v: Json) {
    match v
    case JNull => false
    case JBool(b) => b
    case JInt(i) => i != 0
    case JStr(s) => s != []
    case JList(items) => items != []
    case JObject(fields) => fields != map[]
  }

  /**
   * `int(v)`: integers as they are, booleans as 0 and 1, and strings holding an optionally
   * signed run of decimal digits with whitespace around it; anything else raises.
   */
  function IntOf(v: Json): (r: Result<int, ConfigError>)
    ensures v.JInt? ==> r == Ok(v.i)
    ensures v.JBool? ==> r == Ok(if v.b then 1 else 0)
    ensures v.JStr? ==> r == IntOfText(Text.Strip(v.s))
    ensures v.JNull? || v.JList? || v.JObject? ==> r == Err(BadCooldown)
  {
    match v
    case JInt(i) => Ok(i)
    case JBool(b) => Ok(if b then 1 else 0)
    case JStr(s) => IntOfText(Text.Strip(s))
    case _ => Err(BadCooldown)
  }

  /** `int()` of an already stripped string: digits, or a sign followed by digits. */
  function IntOfText(t: string): (r: Result<int, ConfigError>)
    ensures r.Ok? <==> Text.IsDigits(t) || (|t| > 1 && (t[0] == '+' || t[0] == '-') && Text.IsDigits(t[1..]))
    ensures Text.IsDigits(t) ==> r == Ok(Text.DecimalValue(t))
    ensures |t| > 1 && t[0] == '+' && Text.IsDigits(t[1..]) ==> r == Ok(Text.DecimalValue(t[1..]))
    ensures |t| > 1 && t[0] == '-' && Text.IsDigits(t[1..]) ==> r == Ok(0 - Text.DecimalValue(t[1..]))
  {
    if Text.IsDigits(t) then Ok(Text.DecimalValue(t))
    else if |t| > 1 && t[0] == '+' && Text.IsDigits(t[1..]) then Ok(Text.DecimalValue(t[1..]))
    else if |t| > 1 && t[0] == '-' && Text.IsDigits(t[1..]) then Ok(0 - Text.DecimalValue(t[1..]))
    else Err(BadCooldown)
  }

  /**
   * `int(s)` of a string: accepted exactly when the stripped text is digits or a sign and
   * digits, and then read as that decimal number with its sign.
   */
  lemma IntOfString(s: string)
    ensures var t := Text.Strip(s);
      && (IntOf(JStr(s)).Ok? <==> Text.IsDigits(t) || (|t| > 1 && (t[0] == '+' || t[0] == '-') && Text.IsDigits(t[1..])))
      && (Text.IsDigits(t) ==> IntOf(JStr(s)) == Ok(Text.DecimalValue(t)))
      && (|t| > 1 && t[0] == '+' && Text.IsDigits(t[1..]) ==> IntOf(JStr(s)) == Ok(Text.DecimalValue(t[1..])))
      && (|t| > 1 && t[0] == '-' && Text.IsDigits(t[1..]) ==> IntOf(JStr(s)) == Ok(0 - Text.DecimalValue(t[1..])))
  {
    var t := Text.Strip(s);
    assert IntOf(JStr(s)) == IntOfText(t);
  }

  /** `int(str(i)) == i`: a cooldown written as the decimal text of an integer reads as that integer. */
  lemma IntOfDecimalText(i: int)
    ensures IntOf(JStr(Text.IntToString(i))) == Ok(i)
  {
    var t := Text.IntToString(i);
    Text.IntToStringHasNoSpace(i);
    Text.StripOfNoSpace(t);
    if i < 0 {
      assert t[0] == '-';
    }
  }

  /** A configured value as a member of the pressed set. */
  function KeyOf(v: Json): (m: Member)
    ensures m.Name? <==> v.JStr?
    ensures m.Name? ==> m.s == v.s
    ensures m.Unhashable? <==> v.JList? || v.JObject?
  {
    match v
    case JStr(s) => Name(s)
    case JList(_) => Unhashable
    case JObject(_) => Unhashable
    case _ => NeverHeld
  }

  /** What iterating a hold value yields. */
  function HoldOf(v: Json): (h: Hold)
    ensures h.NotIterable? <==> v.JNull? || v.JBool? || v.JInt?
    ensures v.JList? ==>
      h.Entries? && |h.items| == |v.items| && forall i :: 0 <= i < |v.items| ==> h.items[i] == KeyOf(v.items[i])
    ensures v.JStr? ==> h.Entries? && |h.items| == |v.s| && forall i :: 0 <= i < |v.s| ==> h.items[i] == Name([v.s[i]])
    ensures v.JObject? ==> h == DictKeys(v.fields.Keys)
  {
    match v
    case JList(items) => Entries(seq(|items|, i requires 0 <= i < |items| => KeyOf(items[i])))
    case JStr(s) => Entries(seq(|s|, i requires 0 <= i < |s| => Name([s[i]])))
    case JObject(fields) => DictKeys(fields.Keys)
    case _ => NotIterable
  }

  /**
   * One combo section, named `name`: `enabled` defaults to true and is read by its
   * truthiness, the hold value defaults to an empty list, the tap value to `tap`. Only the
   * `.get` calls can raise here; the hold and tap values are stored as they are and only
   * looked at when the combo is tested.
   */
  function ComboOf(section: Json, name: string, holdKey: string, tapKey: string, tap: string): (r: Result<Combo, ConfigError>)
    ensures r.Ok? <==> section.JObject?
    ensures r.Err? ==> r.error == NotAnObject(name)
    ensures section == JObject(map[]) ==> r == Ok(Combo(true, Entries([]), Name(tap)))
    ensures r.Ok? ==> r.value.enabled == Truthy(Get(section.fields, "enabled", JBool(true)))
    ensures r.Ok? ==>
      r.value.hold == HoldOf(Get(section.fields, holdKey, JList([]))) && r.value.tap == KeyOf(Get(section.fields, tapKey, JStr(tap)))
  {
    if !section.JObject? then Err(NotAnObject(name))
    else
      var f := section.fields;
      Ok(Combo(Truthy(Get(f, "enabled", JBool(true))), HoldOf(Get(f, holdKey, JList([]))), KeyOf(Get(f, tapKey, JStr(tap)))))
  }

  /**
   * The option reading at the top of `main`, with its defaults. It raises exactly when the
   * document, the "trigger" section or a combo section is not a dict, or the cooldown is not
   * something `int()` accepts; hold and tap values never make it raise.
   */
  function ReadSettings(doc: Json): (r: Result<TriggerSettings, ConfigError>)
    ensures r.Ok? <==>
      && doc.JObject?
      && var t := Get(doc.fields, "trigger", JObject(map[]));
      && t.JObject?
      && IntOf(Get(t.fields, "cooldown_ms", JInt(DefaultCooldownMs))).Ok?
      && Get(t.fields, "keyboard", JObject(map[])).JObject?
      && Get(t.fields, "joystick", JObject(map[])).JObject?
  {
    if !doc.JObject? then Err(NotAnObject("config"))
    else
      var top := doc.fields;
      var trigger := Get(top, "trigger", JObject(map[]));
      if !trigger.JObject? then Err(NotAnObject("trigger"))
      else
        var t := trigger.fields;
        match IntOf(Get(t, "cooldown_ms", JInt(DefaultCooldownMs)))
        case Err(e) => Err(e)
        case Ok(cooldown) =>
          match ComboOf(Get(t, "keyboard", JObject(map[])), "keyboard", "hold_keys", "tap_key", DefaultKeyboardTap)
          case Err(e) => Err(e)
          case Ok(kb) =>
            match ComboOf(Get(t, "joystick", JObject(map[])), "joystick", "hold_buttons", "tap_button", DefaultJoystickTap)
            case Err(e) => Err(e)
            case Ok(js) => Ok(TriggerSettings(cooldown, kb, js))
  }

  /**
   * A missing or unreadable config.json starts the daemon with cooldown 800 ms, tap keys
   * KEY_M and BTN_START, both combos enabled and nothing to hold.
   */
  lemma UnreadableConfigGivesDefaults()
    ensures ReadSettings(LoadConfig(Unreadable)) == Ok(Defaults)
    ensures Defaults.cooldownMs == 800
    ensures Defaults.keyboard == Combo(true, Entries([]), Name("KEY_M"))
    ensures Defaults.joystick == Combo(true, Entries([]), Name("BTN_START"))
  {
  }

  /**
   * Each option that the "trigger" section leaves out takes its default; one it gives is
   * used: the cooldown as `int()` reads it, a combo section as `ComboOf` reads it.
   */
  lemma {:induction false} OptionsDefaultIndependently(top: map<string, Json>, t: map<string, Json>)
    requires "trigger" in top && top["trigger"] == JObject(t)
    requires ReadSettings(JObject(top)).Ok?
    ensures var s := ReadSettings(JObject(top)).value;
      && ("cooldown_ms" !in t ==> s.cooldownMs == DefaultCooldownMs)
      && ("cooldown_ms" in t && t["cooldown_ms"].JInt? ==> s.cooldownMs == t["cooldown_ms"].i)
      && ("cooldown_ms" in t ==> s.cooldownMs == IntOf(t["cooldown_ms"]).value)
      && ("keyboard" in t ==>
            s.keyboard == ComboOf(t["keyboard"], "keyboard", "hold_keys", "tap_key", DefaultKeyboardTap).value)
      && ("joystick" in t ==>
            s.joystick == ComboOf(t["joystick"], "joystick", "hold_buttons", "tap_button", DefaultJoystickTap).value)
      && ("keyboard" !in t ==> s.keyboard == Combo(true, Entries([]), Name(DefaultKeyboardTap)))
      && ("joystick" !in t ==> s.joystick == Combo(true, Entries([]), Name(DefaultJoystickTap)))
  {
  }

  /** A document without a "trigger" section yields the defaults, like an unreadable file. */
  lemma NoTriggerSectionGivesDefaults(top: map<string, Json>)
    requires "trigger" !in top
    ensures ReadSettings(JObject(top)) == Ok(Defaults)
  {
  }
}
