/**
 * The Python string operations that the status parsers and the toggle channel rely on:
 * `str.isspace`, `str.strip`, `str.split()` with no separator, `sub in s`, `str.isdigit`,
 * the first position of a character (what `":" in res` tests and `res.split(":", 1)` cuts at)
 * and `str(n)` of an integer.
 */
module Text {
  import opened Wrappers

  /** Python's `str.isspace()` for a single character. */
  predicate IsSpace(c: char) {
    || c == ' '
    || ('\t' <= c <= '\r')
    || ('\U{1C}' <= c <= '\U{1F}')
    || c == '\U{85}' || c == '\U{A0}' || c == '\U{1680}'
    || ('\U{2000}' <= c <= '\U{200A}')
    || c == '\U{2028}' || c == '\U{2029}' || c == '\U{202F}' || c == '\U{205F}' || c == '\U{3000}'
  }

  predicate AllSpace(s: string) {
    forall k :: 0 <= k < |s| ==> IsSpace(s[k])
  }

  predicate NoSpace(s: string) {
    forall k :: 0 <= k < |s| ==> !IsSpace(s[k])
  }

  /** The characters of `s` that are not whitespace, in order. */
  function RemoveSpaces(s: string): string {
    if s == [] then []
    else if IsSpace(s[0]) then RemoveSpaces(s[1..])
    else [s[0]] + RemoveSpaces(s[1..])
  }

  lemma {:induction false} RemoveSpacesAppend(a: string, b: string)
    ensures RemoveSpaces(a + b) == RemoveSpaces(a) + RemoveSpaces(b)
  {
    if a == [] {
      assert a + b == b;
    } else {
      assert (a + b)[0] == a[0] && (a + b)[1..] == a[1..] + b;
      RemoveSpacesAppend(a[1..], b);
    }
  }

  lemma {:induction false} RemoveSpacesOfAllSpace(s: string)
    requires AllSpace(s)
    ensures RemoveSpaces(s) == []
  {
    if s != [] {
      RemoveSpacesOfAllSpace(s[1..]);
    }
  }

  lemma {:induction false} RemoveSpacesOfNoSpace(s: string)
    requires NoSpace(s)
    ensures RemoveSpaces(s) == s
  {
    if s != [] {
      RemoveSpacesOfNoSpace(s[1..]);
    }
  }

  /** Number of whitespace characters at the front of `s`. */
  function LeadingSpaces(s: string): (n: nat)
    ensures n <= |s|
    ensures AllSpace(s[..n])
    ensures n < |s| ==> !IsSpace(s[n])
  {
    if s == [] || !IsSpace(s[0]) then 0
    else 1 + LeadingSpaces(s[1..])
  }

  /** Number of whitespace characters at the back of `s`. */
  function TrailingSpaces(s: string): (n: nat)
    ensures n <= |s|
    ensures forall k :: |s| - n <= k < |s| ==> IsSpace(s[k])
    ensures n < |s| ==> !IsSpace(s[|s| - n - 1])
  {
    if s == [] || !IsSpace(s[|s| - 1]) then 0
    else
      var m := TrailingSpaces(s[..|s| - 1]);
      1 + m
  }

  /** Number of non-whitespace characters at the front of `s`. */
  function TokenLength(s: string): (n: nat)
    ensures n <= |s|
    ensures NoSpace(s[..n])
    ensures n < |s| ==> IsSpace(s[n])
  {
    if s == [] || IsSpace(s[0]) then 0
    else 1 + TokenLength(s[1..])
  }

  /** Python's `s.strip()`: `s` without leading and trailing whitespace. */
  function Strip(s: string): (r: string)
    ensures exists i, j :: 0 <= i <= j <= |s| && r == s[i..j] && AllSpace(s[..i]) && AllSpace(s[j..])
    ensures r == [] <==> AllSpace(s)
    ensures r != [] ==> !IsSpace(r[0]) && !IsSpace(r[|r| - 1])
  {
    var i := LeadingSpaces(s);
    if i == |s| then
      assert s[..i] == s && s[i..i] == [] && s[i..] == [];
      []
    else
      var j := |s| - TrailingSpaces(s);
      assert i < j;
      assert AllSpace(s[..i]) && AllSpace(s[j..]);
      s[i..j]
  }

  /** `n` whitespace characters followed by another character: `n` leading spaces. */
  lemma {:induction false} LeadingSpacesIs(s: string, n: nat)
    requires n < |s| && AllSpace(s[..n]) && !IsSpace(s[n])
    ensures LeadingSpaces(s) == n
  {
    if n > 0 {
      assert IsSpace(s[..n][0]);
      assert s[1..][..n - 1] == s[..n][1..];
      LeadingSpacesIs(s[1..], n - 1);
    }
  }

  /** Another character followed by `n` whitespace characters: `n` trailing spaces. */
  lemma {:induction false} TrailingSpacesIs(s: string, n: nat)
    requires n < |s| && !IsSpace(s[|s| - n - 1])
    requires forall k :: |s| - n <= k < |s| ==> IsSpace(s[k])
    ensures TrailingSpaces(s) == n
  {
    if n > 0 {
      var front := s[..|s| - 1];
      assert front[|front| - (n - 1) - 1] == s[|s| - n - 1];
      TrailingSpacesIs(front, n - 1);
    }
  }

  /** Stripping a word padded with whitespace on both sides gives the word back. */
  lemma StripPadded(a: string, w: string, b: string)
    requires AllSpace(a) && AllSpace(b)
    requires w != [] && !IsSpace(w[0]) && !IsSpace(w[|w| - 1])
    ensures Strip(a + w + b) == w
  {
    var s := a + w + b;
    assert s[..|a|] == a && s[|a|] == w[0];
    LeadingSpacesIs(s, |a|);
    assert forall k :: |s| - |b| <= k < |s| ==> s[k] == b[k - (|s| - |b|)];
    assert s[|s| - |b| - 1] == w[|w| - 1];
    TrailingSpacesIs(s, |b|);
    assert s[|a|..|s| - |b|] == w;
  }

  /** A string without whitespace is its own `strip()`. */
  lemma StripOfNoSpace(s: string)
    requires NoSpace(s)
    ensures Strip(s) == s
  {
    if s != [] {
      assert LeadingSpaces(s) == 0 && TrailingSpaces(s) == 0;
      assert s[0..|s|] == s;
    }
  }

  lemma RemoveSpacesAt(s: string, k: nat)
    requires k <= |s|
    ensures RemoveSpaces(s) == RemoveSpaces(s[..k]) + RemoveSpaces(s[k..])
  {
    assert s == s[..k] + s[k..];
    RemoveSpacesAppend(s[..k], s[k..]);
  }

  /** Stripping removes whitespace only: every other character of `s` survives, in order. */
  lemma StripKeepsContent(s: string)
    ensures RemoveSpaces(Strip(s)) == RemoveSpaces(s)
  {
    var i, j :| 0 <= i <= j <= |s| && Strip(s) == s[i..j] && AllSpace(s[..i]) && AllSpace(s[j..]);
    RemoveSpacesAround(s, i, j);
  }

  /** Dropping a whitespace-only prefix and suffix keeps the non-whitespace characters. */
  lemma RemoveSpacesAround(s: string, i: nat, j: nat)
    requires i <= j <= |s| && AllSpace(s[..i]) && AllSpace(s[j..])
    ensures RemoveSpaces(s[i..j]) == RemoveSpaces(s)
  {
    var tail := s[i..];
    RemoveSpacesAt(s, i);
    RemoveSpacesAt(tail, j - i);
    assert tail[..j - i] == s[i..j] && tail[j - i..] == s[j..];
    RemoveSpacesOfAllSpace(s[..i]);
    RemoveSpacesOfAllSpace(s[j..]);
  }

  /**
   * Python's `s.split()` with no separator: the maximal runs of non-whitespace characters,
   * in order; leading, trailing and repeated whitespace produce no empty tokens.
   */
  function Split(s: string): (r: seq<string>)
    ensures forall t :: t in r ==> t != [] && NoSpace(t)
    decreases |s|
  {
    var i := LeadingSpaces(s);
    if i == |s| then []
    else
      var rest := s[i..];
      var n := TokenLength(rest);
      [rest[..n]] + Split(rest[n..])
  }

  function Concat(ts: seq<string>): string {
    if ts == [] then [] else ts[0] + Concat(ts[1..])
  }

  /** Splitting loses only whitespace: the tokens put back together are `s` without its whitespace. */
  lemma {:induction false} SplitKeepsContent(s: string)
    ensures Concat(Split(s)) == RemoveSpaces(s)
    decreases |s|
  {
    var i := LeadingSpaces(s);
    if i == |s| {
      assert s[..i] == s;
      RemoveSpacesOfAllSpace(s);
    } else {
      var rest := s[i..];
      var n := TokenLength(rest);
      var front, tok, post := s[..i], rest[..n], rest[n..];
      assert s == front + (tok + post);
      var r := Split(s);
      assert r == [tok] + Split(post);
      assert r[0] == tok && r[1..] == Split(post);
      assert Concat(r) == tok + Concat(Split(post));
      SplitKeepsContent(post);
      RemoveSpacesAppend(front, tok + post);
      RemoveSpacesAppend(tok, post);
      RemoveSpacesOfAllSpace(front);
      RemoveSpacesOfNoSpace(tok);
    }
  }

  lemma {:induction false} TokenLengthOf(tok: string, rest: string)
    requires NoSpace(tok) && (rest == [] || IsSpace(rest[0]))
    ensures TokenLength(tok + rest) == |tok|
  {
    if tok == [] {
      assert tok + rest == rest;
    } else {
      assert (tok + rest)[0] == tok[0] && (tok + rest)[1..] == tok[1..] + rest;
      TokenLengthOf(tok[1..], rest);
    }
  }

  /** A token followed by whitespace or by nothing is split off whole. */
  lemma SplitToken(tok: string, rest: string)
    requires tok != [] && NoSpace(tok) && (rest == [] || IsSpace(rest[0]))
    ensures Split(tok + rest) == [tok] + Split(rest)
  {
    var s := tok + rest;
    assert s[0] == tok[0];
    assert s[0..] == s;
    TokenLengthOf(tok, rest);
    assert s[..|tok|] == tok && s[|tok|..] == rest;
  }

  /** Leading whitespace produces no token. */
  lemma SplitSpace(c: char, rest: string)
    requires IsSpace(c)
    ensures Split([c] + rest) == Split(rest)
  {
    var s := [c] + rest;
    assert s[1..] == rest;
    var i := LeadingSpaces(s);
    if i < |s| {
      assert s[i..] == rest[i - 1..];
    }
  }

  /** `pat` occurs in `s` starting at position `i`. */
  predicate OccursAt(s: string, pat: string, i: int) {
    0 <= i <= |s| - |pat| && s[i..i + |pat|] == pat
  }

  /** Python's `pat in s` for strings: `pat` occurs in `s` as a contiguous substring. */
  function Contains(s: string, pat: string): (r: bool)
    ensures r <==> exists i :: OccursAt(s, pat, i)
    decreases |s|
  {
    if |s| < |pat| then false
    else if s[..|pat|] == pat then
      assert OccursAt(s, pat, 0);
      true
    else
      var r := Contains(s[1..], pat);
      assert r ==> exists i :: OccursAt(s, pat, i) by {
        if r {
          var j :| OccursAt(s[1..], pat, j);
          assert s[1..][j..j + |pat|] == s[j + 1..j + 1 + |pat|];
          assert OccursAt(s, pat, j + 1);
        }
      }
      assert (exists i :: OccursAt(s, pat, i)) ==> r by {
        if exists i :: OccursAt(s, pat, i) {
          var i :| OccursAt(s, pat, i);
          assert i != 0;
          assert s[1..][i - 1..i - 1 + |pat|] == s[i..i + |pat|];
          assert OccursAt(s[1..], pat, i - 1);
        }
      }
      r
  }

  /** Python's `s.isdigit()` restricted to the ASCII digits: non-empty and all of `0`-`9`. */
  predicate IsDigits(s: string) {
    |s| > 0 && forall k :: 0 <= k < |s| ==> '0' <= s[k] <= '9'
  }

  /**
   * Position of the first `c` in `s`, `None` when there is none: `c in s` holds exactly when
   * it is found, and `s.split(c, 1)` cuts there.
   */
  function IndexOf(s: string, c: char): (r: Option<nat>)
    ensures r.Some? <==> c in s
    ensures r.Some? ==> r.value < |s| && s[r.value] == c
    ensures r.Some? ==> forall k :: 0 <= k < r.value ==> s[k] != c
  {
    if s == [] then None
    else if s[0] == c then Some(0)
    else
      match IndexOf(s[1..], c)
      case None => None
      case Some(k) => Some(k + 1)
  }

  /** The index found is the first occurrence: a position holding `c` with no `c` before it. */
  lemma IndexOfFirst(s: string, c: char, k: nat)
    requires k < |s| && s[k] == c && forall j :: 0 <= j < k ==> s[j] != c
    ensures IndexOf(s, c) == Some(k)
  {
    assert s[k] == c;
  }

  function DigitChar(d: nat): (c: char)
    requires d < 10
    ensures '0' <= c <= '9'
  {
    ['0', '1', '2', '3', '4', '5', '6', '7', '8', '9'][d]
  }

  function DigitValue(c: char): nat
    requires '0' <= c <= '9'
  {
    (c as int) - ('0' as int)
  }

  /** The number a string of decimal digits denotes. */
  function DecimalValue(s: string): nat
    requires forall k :: 0 <= k < |s| ==> '0' <= s[k] <= '9'
  {
    if s == [] then 0 else 10 * DecimalValue(s[..|s| - 1]) + DigitValue(s[|s| - 1])
  }

  /** Python's `str(n)` for a natural number: decimal digits, no leading zero. */
  function NatToString(n: nat): (r: string)
    ensures IsDigits(r)
    ensures r[0] == '0' ==> r == "0"
  {
    if n < 10 then [DigitChar(n)] else NatToString(n / 10) + [DigitChar(n % 10)]
  }

  /** Reading back the digits of `str(n)` gives `n`. */
  lemma {:induction false} NatToStringRoundTrip(n: nat)
    ensures DecimalValue(NatToString(n)) == n
  {
    var r := NatToString(n);
    if n < 10 {
      assert r[..|r| - 1] == [];
      assert DigitValue(DigitChar(n)) == n by {
        assert DigitChar(n) as int == '0' as int + n;
      }
    } else {
      var p := NatToString(n / 10);
      assert r[..|r| - 1] == p;
      NatToStringRoundTrip(n / 10);
      assert DigitValue(DigitChar(n % 10)) == n % 10 by {
        assert DigitChar(n % 10) as int == '0' as int + n % 10;
      }
    }
  }

  lemma MinusThenDigits(d: string)
    requires IsDigits(d)
    ensures var r := ['-'] + d; |r| > 1 && r[0] == '-' && r[1..] == d
  {
    var r := ['-'] + d;
    assert r[1..] == d;
  }

  /** Python's `str(i)` (and the `{i}` of an f-string) for an integer. */
  function IntToString(i: int): (r: string)
    ensures i >= 0 ==> IsDigits(r) && DecimalValue(r) == i
    ensures i < 0 ==> |r| > 1 && r[0] == '-' && IsDigits(r[1..]) && DecimalValue(r[1..]) == -i
  {
    if i < 0 then
      NatToStringRoundTrip(-i);
      MinusThenDigits(NatToString(-i));
      ['-'] + NatToString(-i)
    else
      NatToStringRoundTrip(i);
      NatToString(i)
  }

  /** The text of an integer holds no whitespace. */
  lemma IntToStringHasNoSpace(i: int)
    ensures NoSpace(IntToString(i))
  {
    var r := IntToString(i);
    forall k | 0 <= k < |r|
      ensures !IsSpace(r[k])
    {
      assert r[k] == '-' || '0' <= r[k] <= '9';
    }
  }
}
