/**
 * The status texts of menu_overlay3.py: what the volume, Wi-Fi and brightness cards show,
 * and the night-light state, each computed from the output of a system command. The command
 * itself is not modelled: its output is a parameter, `None` when running it raised.
 */
module StatusText {
  import opened Wrappers
  import Text
  import opened Arithmetic

  // ---------------------------------------------------------------------------
  // Volume

  /** `s.replace("/", " ").replace(",", " ")`. */
  function Unseparated(s: string): (r: string)
    ensures |r| == |s|
    ensures forall k :: 0 <= k < |s| ==> r[k] == (if s[k] == '/' || s[k] == ',' then ' ' else s[k])
  {
    if s == [] then []
    else [if s[0] == '/' || s[0] == ',' then ' ' else s[0]] + Unseparated(s[1..])
  }

  /** A token the volume parser accepts: one or more digits followed by `%`. */
  predicate IsPercent(tok: string) {
    |tok| >= 1 && tok[|tok| - 1] == '%' && Text.IsDigits(tok[..|tok| - 1])
  }

  /** `toks[i]` is the first token the parser accepts. */
  predicate FirstQualifying(toks: seq<string>, i: int) {
    0 <= i < |toks| && IsPercent(toks[i]) && forall j :: 0 <= j < i ==> !IsPercent(toks[j])
  }

  /** The position of the first accepted token, if any. */
  function FirstPercent(toks: seq<string>): (r: Option<nat>)
    ensures r.Some? ==> r.value < |toks| && IsPercent(toks[r.value])
    ensures r.Some? ==> forall j :: 0 <= j < r.value ==> !IsPercent(toks[j])
    ensures r.None? <==> forall j :: 0 <= j < |toks| ==> !IsPercent(toks[j])
  {
    if toks == [] then None
    else if IsPercent(toks[0]) then Some(0)
    else
      match FirstPercent(toks[1..])
      case None => None
      case Some(k) => Some(k + 1)
  }

  /** The tokens the volume parser looks at, in order. */
  function VolumeTokens(out: string): seq<string> {
    Text.Split(Unseparated(out))
  }

  /** `get_volume_text`, given what `pactl get-sink-volume` printed (`None`: the command failed). */
  function VolumeText(out: Option<string>): (r: string)
    ensures out.None? ==> r == "Volumen: N/A"
    ensures out.Some? ==> var toks := VolumeTokens(out.value);
      && (r == "Volumen: --" <==> forall j :: 0 <= j < |toks| ==> !IsPercent(toks[j]))
      && (r != "Volumen: --" ==> exists i :: FirstQualifying(toks, i) && r == "Volumen: " + toks[i])
  {
    match out
    case None => "Volumen: N/A"
    case Some(s) =>
      var toks := VolumeTokens(s);
      match FirstPercent(toks)
      case None => "Volumen: --"
      case Some(i) =>
        assert ("Volumen: " + toks[i])[|"Volumen: " + toks[i]| - 1] == '%';
        "Volumen: " + toks[i]
  }

  /**
   * Every text the volume card shows is one of three: no data, no percentage found, or a
   * percentage made of digits.
   */
  lemma VolumeTextShape(out: Option<string>)
    ensures var r := VolumeText(out);
      || r == "Volumen: N/A"
      || r == "Volumen: --"
      || exists d :: Text.IsDigits(d) && r == "Volumen: " + d + "%"
  {
    var r := VolumeText(out);
    if out.Some? && r != "Volumen: --" {
      var toks := VolumeTokens(out.value);
      var i :| FirstQualifying(toks, i) && r == "Volumen: " + toks[i];
      var d := PercentDigits(toks[i]);
      assert r == "Volumen: " + d + "%";
    }
  }

  /** An accepted token is its digits followed by `%`. */
  function PercentDigits(tok: string): (d: string)
    requires IsPercent(tok)
    ensures Text.IsDigits(d) && tok == d + "%"
  {
    var d := tok[..|tok| - 1];
    assert tok == d + "%";
    d
  }

  /** Output without `/` or `,` is tokenised as it stands. */
  lemma UnseparatedKeeps(s: string)
    requires forall k :: 0 <= k < |s| ==> s[k] != '/' && s[k] != ','
    ensures Unseparated(s) == s
  {
    assert forall k :: 0 <= k < |s| ==> Unseparated(s)[k] == s[k];
  }

  lemma {:induction false} UnseparatedAppend(a: string, b: string)
    ensures Unseparated(a + b) == Unseparated(a) + Unseparated(b)
  {
    if a == [] {
      assert a + b == b;
    } else {
      assert (a + b)[0] == a[0] && (a + b)[1..] == a[1..] + b;
      UnseparatedAppend(a[1..], b);
    }
  }

  lemma SplitsIntoOne(tok: string)
    requires tok != [] && Text.NoSpace(tok)
    ensures Text.Split(tok) == [tok]
  {
    Text.SplitToken(tok, []);
    assert tok + [] == tok;
    assert Text.Split([]) == [];
  }

  /** A percentage token is digits and `%`; it contains no whitespace and no separator. */
  lemma PercentToken(d: string)
    requires Text.IsDigits(d)
    ensures var t := d + "%";
      && IsPercent(t) && t != [] && Text.NoSpace(t)
      && forall k :: 0 <= k < |t| ==> t[k] != '/' && t[k] != ','
  {
    var t := d + "%";
    assert t[..|t| - 1] == d;
    assert forall k :: 0 <= k < |d| ==> t[k] == d[k];
  }

  /** A bare `%` does not qualify. */
  lemma BarePercentIsSkipped()
    ensures VolumeText(Some("%")) == "Volumen: --"
  {
    UnseparatedKeeps("%");
    SplitsIntoOne("%");
    assert !IsPercent("%") by { assert "%"[..0] == []; }
  }

  /** The first accepted token is found wherever it is. */
  lemma {:induction false} FirstPercentFinds(toks: seq<string>, i: int)
    requires FirstQualifying(toks, i)
    ensures FirstPercent(toks) == Some(i)
  {
    if i > 0 {
      assert toks[1..][i - 1] == toks[i];
      assert forall j :: 0 <= j < i - 1 ==> toks[1..][j] == toks[j + 1];
      FirstPercentFinds(toks[1..], i - 1);
    }
  }

  /**
   * The parser returns at the first token it accepts: tokens before it that do not qualify,
   * such as a bare `%`, are passed over, and nothing after it matters.
   */
  lemma FirstPercentIsTaken(out: string, i: int)
    requires FirstQualifying(VolumeTokens(out), i)
    ensures VolumeText(Some(out)) == "Volumen: " + VolumeTokens(out)[i]
  {
    FirstPercentFinds(VolumeTokens(out), i);
  }

  /** A slash separates tokens: a percentage followed by `/` is taken, whatever comes after. */
  lemma SlashSeparates(d: string, rest: string)
    requires Text.IsDigits(d)
    ensures VolumeText(Some(d + "%/" + rest)) == "Volumen: " + d + "%"
  {
    var t := d + "%";
    var toks := VolumeTokens(d + "%/" + rest);
    TokensAfterSlash(d, rest);
    PercentToken(d);
    assert toks[0] == t;
    FirstPercentFinds(toks, 0);
  }

  /** A percentage followed by `/` is the first token, and the rest is tokenised on its own. */
  lemma TokensAfterSlash(d: string, rest: string)
    requires Text.IsDigits(d)
    ensures VolumeTokens(d + "%/" + rest) == [d + "%"] + Text.Split(Unseparated(rest))
  {
    var t := d + "%";
    var after := Unseparated(rest);
    SlashBecomesSpace(d, rest);
    PercentToken(d);
    Text.SplitToken(t, [' '] + after);
    Text.SplitSpace(' ', after);
  }

  /** Replacing the separators turns `d%/rest` into `d%`, a space, and `rest` replaced. */
  lemma SlashBecomesSpace(d: string, rest: string)
    requires Text.IsDigits(d)
    ensures Unseparated(d + "%/" + rest) == (d + "%") + ([' '] + Unseparated(rest))
  {
    var t := d + "%";
    var slash := "/";
    assert d + "%/" + rest == t + (slash + rest);
    UnseparatedAppend(t, slash + rest);
    UnseparatedAppend(slash, rest);
    PercentToken(d);
    UnseparatedKeeps(t);
    assert Unseparated(slash) == [' '];
  }

  // ---------------------------------------------------------------------------
  // Wi-Fi

  /** `res.split(":", 1)[1].strip() if ":" in res else ""`: the text after the first colon, stripped. */
  function SsidOf(res: string): (ssid: string)
    ensures ':' !in res ==> ssid == ""
  {
    match Text.IndexOf(res, ':')
    case None => ""
    case Some(k) => Text.Strip(res[k + 1..])
  }

  /** With its first colon at `k`, the SSID is what follows that colon, stripped. */
  lemma SsidAtFirstColon(res: string, k: int)
    requires 0 <= k < |res| && res[k] == ':' && forall j :: 0 <= j < k ==> res[j] != ':'
    ensures SsidOf(res) == Text.Strip(res[k + 1..])
  {
    Text.IndexOfFirst(res, ':', k);
  }

  /** The SSID is cut at the first colon only: colons inside the network name are kept. */
  lemma SsidAfterFirstColon(prefix: string, name: string)
    requires ':' !in prefix
    ensures SsidOf(prefix + ":" + name) == Text.Strip(name)
  {
    var res := prefix + ":" + name;
    assert res[|prefix|] == ':';
    assert res[|prefix| + 1..] == name;
    SsidAtFirstColon(res, |prefix|);
  }

  /** `get_wifi_text`, given what the `nmcli ... | grep '^yes'` pipeline printed (`None`: it failed or timed out). */
  function WifiText(out: Option<string>): (r: string)
    ensures out.None? ==> r == "Wi-Fi: Sin datos"
    ensures out.Some? ==> var ssid := SsidOf(Text.Strip(out.value));
      && (ssid == [] ==> r == "Wi-Fi: Desconectado")
      && (ssid != [] ==> r == "Conectado a: " + ssid)
  {
    match out
    case None => "Wi-Fi: Sin datos"
    case Some(s) =>
      var ssid := SsidOf(Text.Strip(s));
      if ssid != [] then "Conectado a: " + ssid else "Wi-Fi: Desconectado"
  }

  /** Without a colon in the (stripped) output the Wi-Fi card says "Desconectado". */
  lemma WifiWithoutColon(s: string)
    requires ':' !in Text.Strip(s)
    ensures WifiText(Some(s)) == "Wi-Fi: Desconectado"
  {
  }

  /**
   * With its first colon at `k`, the Wi-Fi card says "Desconectado" exactly when nothing but
   * whitespace follows that colon; otherwise it names the network that follows, stripped.
   */
  lemma WifiAfterFirstColon(s: string, k: int)
    requires var res := Text.Strip(s);
      0 <= k < |res| && res[k] == ':' && forall j :: 0 <= j < k ==> res[j] != ':'
    ensures var rest := Text.Strip(s)[k + 1..];
      && (WifiText(Some(s)) == "Wi-Fi: Desconectado" <==> Text.AllSpace(rest))
      && (!Text.AllSpace(rest) ==> WifiText(Some(s)) == "Conectado a: " + Text.Strip(rest))
  {
    var rest := Text.Strip(s)[k + 1..];
    SsidAtFirstColon(Text.Strip(s), k);
    assert ("Conectado a: " + Text.Strip(rest))[0] == 'C';
  }

  // ---------------------------------------------------------------------------
  // Brightness

  /** Python's `int(a / b)` for integers: the quotient truncated toward zero. */
  function TruncDiv(a: int, b: int): (q: int)
    requires b != 0
    ensures a >= 0 && b > 0 ==> q == a / b
  {
    var m := (if a < 0 then -a else a) / (if b < 0 then -b else b);
    if (a < 0) == (b < 0) || a == 0 then m else -m
  }

  /** What `brightnessctl g` and `brightnessctl m` printed, read as integers; `None` when either failed. */
  datatype BrightnessReading = BrightnessReading(current: int, maximum: int)

  /**
   * `get_brightness_text`: the percentage from brightnessctl, "--" when its maximum is zero,
   * otherwise the value of `light -G` (already truncated), otherwise a plain label.
   */
  function BrightnessText(primary: Option<BrightnessReading>, light: Option<int>): (r: string)
    ensures primary.Some? && primary.value.maximum == 0 ==> r == "Brillo: --"
    ensures primary.Some? && primary.value.maximum != 0 ==>
      r == "Brillo: " + Text.IntToString(TruncDiv(primary.value.current * 100, primary.value.maximum)) + "%"
    ensures primary.None? && light.Some? ==> r == "Brillo: " + Text.IntToString(light.value) + "%"
    ensures primary.None? && light.None? ==> r == "Nivel de Brillo"
  {
    match primary
    case Some(BrightnessReading(curr, maxB)) =>
      if maxB == 0 then "Brillo: --"
      else "Brillo: " + Text.IntToString(TruncDiv(curr * 100, maxB)) + "%"
    case None =>
      match light
      case Some(v) => "Brillo: " + Text.IntToString(v) + "%"
      case None => "Nivel de Brillo"
  }

  lemma PercentOfBounded(curr: int, maxB: int)
    requires maxB > 0 && 0 <= curr <= maxB
    ensures 0 <= (curr * 100) / maxB <= 100
  {
    var a := curr * 100;
    var q := a / maxB;
    assert a <= 100 * maxB;
    assert q * maxB <= a by {
      assert a == q * maxB + a % maxB;
    }
    assert (q - 100) * maxB == q * maxB - 100 * maxB;
    MulSign(q - 100, maxB);
  }

  lemma PercentOfMaximum(maxB: int)
    requires maxB > 0
    ensures (maxB * 100) / maxB == 100
  {
    ModShift(maxB * 100 - 100 * maxB, maxB, 0);
  }

  /** A current level between zero and the maximum shows a percentage between 0 and 100; the maximum shows 100. */
  lemma BrightnessPercentBounds(curr: int, maxB: int)
    requires maxB > 0 && 0 <= curr <= maxB
    ensures 0 <= TruncDiv(curr * 100, maxB) <= 100
    ensures TruncDiv(maxB * 100, maxB) == 100
  {
    PercentOfBounded(curr, maxB);
    PercentOfMaximum(maxB);
  }

  // ---------------------------------------------------------------------------
  // Night light

  /** `get_night_light_state`: the printed value, stripped, is `true`; a failure reads as off. */
  predicate NightLightOn(out: Option<string>) {
    out.Some? && Text.Strip(out.value) == "true"
  }

  /**
   * Whitespace around the printed value does not matter: `true` padded with whitespace reads
   * as on, `false` padded the same way as off, and a failed command as off.
   */
  lemma NightLightIgnoresPadding(a: string, b: string)
    requires Text.AllSpace(a) && Text.AllSpace(b)
    ensures NightLightOn(Some(a + "true" + b))
    ensures !NightLightOn(Some(a + "false" + b))
    ensures !NightLightOn(None)
  {
    Text.StripPadded(a, "true", b);
    Text.StripPadded(a, "false", b);
  }
}
