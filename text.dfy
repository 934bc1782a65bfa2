/** The pieces of Python's `str` behaviour the persistence layer relies on: `strip()`,
    `startswith`/`endswith`, `find`/`rfind`, `str(int)` and `int(str)`. */
module Text {
  import opened Wrappers

  /** The characters `str.isspace()` accepts, which are the ones `str.strip()` removes. */
  predicate IsSpace(c: char) {
    || c == ' ' || ('\t' <= c <= '\r') || ('\U{1C}' <= c <= '\U{1F}')
    || c == '\U{85}' || c == '\U{A0}' || c == '\U{1680}' || ('\U{2000}' <= c <= '\U{200A}')
    || c == '\U{2028}' || c == '\U{2029}' || c == '\U{202F}' || c == '\U{205F}' || c == '\U{3000}'
  }

  predicate AllSpace(s: string) {
    forall i :: 0 <= i < |s| ==> IsSpace(s[i])
  }

  /** `s == s.strip()`: no whitespace at either end. */
  predicate Trimmed(s: string) {
    s == [] || (!IsSpace(s[0]) && !IsSpace(s[|s| - 1]))
  }

  /** `str.lstrip()`: the suffix left after dropping the leading whitespace. */
  function LStrip(s: string): (r: string)
    ensures |r| <= |s|
    ensures r == [] || !IsSpace(r[0])
  {
    if s != [] && IsSpace(s[0]) then LStrip(s[1..]) else s
  }

  /** `str.rstrip()`: the prefix left after dropping the trailing whitespace. */
  function RStrip(s: string): (r: string)
    ensures |r| <= |s|
    ensures r == [] || !IsSpace(r[|r| - 1])
  {
    if s != [] && IsSpace(s[|s| - 1]) then RStrip(s[..|s| - 1]) else s
  }

  lemma {:induction false} LStripEmpty(s: string)
    ensures LStrip(s) == [] <==> AllSpace(s)
    decreases |s|
  {
    if s != [] && IsSpace(s[0]) {
      LStripEmpty(s[1..]);
      assert AllSpace(s) <==> AllSpace(s[1..]) by {
        if AllSpace(s[1..]) {
          forall i | 0 <= i < |s| ensures IsSpace(s[i]) {
            if i > 0 { assert s[i] == s[1..][i - 1]; }
          }
        }
      }
    }
  }

  lemma {:induction false} RStripKeepsFirst(l: string)
    requires l != [] && !IsSpace(l[0])
    ensures RStrip(l) != [] && RStrip(l)[0] == l[0]
    decreases |l|
  {
    if IsSpace(l[|l| - 1]) {
      RStripKeepsFirst(l[..|l| - 1]);
    }
  }

  /** `str.strip()` with no argument. */
  function Strip(s: string): (r: string)
    ensures Trimmed(r)
    ensures r == [] <==> AllSpace(s)
  {
    LStripEmpty(s);
    var l := LStrip(s);
    if l == [] then []
    else
      RStripKeepsFirst(l);
      RStrip(l)
  }

  lemma {:induction false} LStripSpacePrefix(w: string, x: string)
    requires AllSpace(w)
    ensures LStrip(w + x) == LStrip(x)
    decreases |w|
  {
    if w == [] {
      assert w + x == x;
    } else {
      assert (w + x)[1..] == w[1..] + x;
      LStripSpacePrefix(w[1..], x);
    }
  }

  lemma {:induction false} RStripSpaceSuffix(x: string, w: string)
    requires AllSpace(w)
    ensures RStrip(x + w) == RStrip(x)
    decreases |w|
  {
    if w == [] {
      assert x + w == x;
    } else {
      assert (x + w)[..|x + w| - 1] == x + w[..|w| - 1];
      RStripSpaceSuffix(x, w[..|w| - 1]);
    }
  }

  lemma {:induction false} LStripKeepsTail(x: string, w: string)
    requires !AllSpace(x)
    ensures LStrip(x + w) == LStrip(x) + w
    decreases |x|
  {
    if IsSpace(x[0]) {
      var i :| 0 <= i < |x| && !IsSpace(x[i]);
      assert i > 0 && x[1..][i - 1] == x[i];
      assert (x + w)[1..] == x[1..] + w;
      LStripKeepsTail(x[1..], w);
    }
  }

  /** Whitespace added around a text does not change what `strip()` returns. */
  lemma StripPadded(w1: string, x: string, w2: string)
    requires AllSpace(w1) && AllSpace(w2)
    ensures Strip(w1 + x + w2) == Strip(x)
  {
    assert w1 + x + w2 == w1 + (x + w2);
    LStripSpacePrefix(w1, x + w2);
    if AllSpace(x) {
      assert AllSpace(x + w2);
      assert Strip(x + w2) == [] && Strip(x) == [];
    } else {
      LStripKeepsTail(x, w2);
      RStripSpaceSuffix(LStrip(x), w2);
    }
  }

  /** A text with no whitespace at either end is its own `strip()`. */
  lemma StripTrimmed(s: string)
    requires Trimmed(s)
    ensures Strip(s) == s
  {
  }

  // ---------------------------------------------------------------- prefixes and search

  predicate StartsWith(s: string, p: string) {
    |p| <= |s| && s[..|p|] == p
  }

  predicate EndsWith(s: string, p: string) {
    |p| <= |s| && s[|s| - |p|..] == p
  }

  predicate OccursAt(s: string, p: string, i: int) {
    0 <= i && i + |p| <= |s| && s[i..i + |p|] == p
  }

  /** `s.find(p, i)`: the lowest index at or after `i` where `p` occurs, or -1. */
  function FindFrom(s: string, p: string, i: nat): (r: int)
    ensures r == -1 || (i <= r && OccursAt(s, p, r))
    ensures forall j :: i <= j && (r == -1 || j < r) ==> !OccursAt(s, p, j)
    decreases |s| - i
  {
    if i + |p| > |s| then -1
    else if s[i..i + |p|] == p then i
    else FindFrom(s, p, i + 1)
  }

  /** `s.find(p)`. */
  function Find(s: string, p: string): int {
    FindFrom(s, p, 0)
  }

  /** `p in s`. */
  predicate Contains(s: string, p: string) {
    Find(s, p) >= 0
  }

  /** `s.rfind(p)` restricted to indices at most `i`: the highest such index where `p` occurs, or -1. */
  function RFindUpTo(s: string, p: string, i: int): (r: int)
    ensures r == -1 || (r <= i && OccursAt(s, p, r))
    ensures forall j :: r < j <= i ==> !OccursAt(s, p, j)
    decreases i + 1
  {
    if i < 0 then -1
    else if OccursAt(s, p, i) then i
    else RFindUpTo(s, p, i - 1)
  }

  /** `s.rfind(p)`. */
  function RFind(s: string, p: string): int {
    RFindUpTo(s, p, |s| - |p|)
  }

  // ---------------------------------------------------------------- decimal numbers

  predicate IsDigit(c: char) {
    '0' <= c <= '9'
  }

  predicate AllDigits(s: string) {
    forall i :: 0 <= i < |s| ==> IsDigit(s[i])
  }

  function DigitValue(c: char): nat
    requires IsDigit(c)
  {
    (c as int) - ('0' as int)
  }

  function DigitChar(d: nat): (c: char)
    requires d < 10
    ensures IsDigit(c) && DigitValue(c) == d
  {
    ('0' as int + d) as char
  }

  /** The value of a run of decimal digits written most significant first. */
  function DigitsValue(s: string): nat
    requires AllDigits(s)
  {
    if s == [] then 0 else DigitsValue(s[..|s| - 1]) * 10 + DigitValue(s[|s| - 1])
  }

  /** `str(n)` for a non-negative int: the digits that read back as `n`. */
  function NatToString(n: nat): (r: string)
    ensures |r| > 0 && AllDigits(r)
    ensures DigitsValue(r) == n
  {
    if n < 10 then [DigitChar(n)]
    else
      var r := NatToString(n / 10) + [DigitChar(n % 10)];
      assert r[..|r| - 1] == NatToString(n / 10);
      r
  }

  /** `str(k)` for any int, as `json.dumps` writes an int dictionary key. */
  function IntToString(k: int): string {
    if k < 0 then "-" + NatToString(-k) else NatToString(k)
  }

  /** The longest prefix of `s` made of digits. */
  function DigitRun(s: string): (r: string)
    ensures |r| <= |s| && AllDigits(r)
  {
    if s != [] && IsDigit(s[0]) then
      var t := DigitRun(s[1..]);
      [s[0]] + t
    else []
  }

  lemma {:induction false} DigitRunStops(ds: string, c: char, rest: string)
    requires AllDigits(ds) && !IsDigit(c)
    ensures DigitRun(ds + [c] + rest) == ds
    decreases |ds|
  {
    if ds == [] {
    } else {
      assert (ds + [c] + rest)[1..] == ds[1..] + [c] + rest;
      DigitRunStops(ds[1..], c, rest);
    }
  }

  /** The digit groups `int()` accepts: digits, with single underscores between two digits (the first
      and last characters are digits and every underscore follows a digit). */
  predicate DigitGroups(s: string) {
    && |s| > 0 && IsDigit(s[0]) && IsDigit(s[|s| - 1])
    && (forall i :: 0 <= i < |s| ==> IsDigit(s[i]) || s[i] == '_')
    && (forall i :: 0 < i < |s| && s[i] == '_' ==> IsDigit(s[i - 1]))
  }

  function WithoutUnderscores(s: string): (r: string)
    ensures (forall i :: 0 <= i < |s| ==> IsDigit(s[i]) || s[i] == '_') ==> AllDigits(r)
    ensures AllDigits(s) ==> r == s
  {
    if s == [] then [] else (if s[0] == '_' then [] else [s[0]]) + WithoutUnderscores(s[1..])
  }

  function GroupsValue(s: string): nat
    requires DigitGroups(s)
  {
    DigitsValue(WithoutUnderscores(s))
  }

  /** `int(s)` on a `str`: `None` where Python raises `ValueError`.  Surrounding whitespace is
      ignored, one sign is allowed, and the digits may be grouped with underscores. */
  function ParseInt(s: string): Option<int> {
    var t := Strip(s);
    if |t| > 0 && (t[0] == '-' || t[0] == '+') then
      if DigitGroups(t[1..]) then
        var v: int := GroupsValue(t[1..]);
        Some(if t[0] == '-' then -v else v)
      else None
    else if DigitGroups(t) then Some(GroupsValue(t))
    else None
  }

  /** A key `json.dumps` wrote for an int reads back, through `int()`, as that same int. */
  lemma ParseIntOfIntToString(k: int)
    ensures ParseInt(IntToString(k)) == Some(k)
  {
    var s := IntToString(k);
    if k < 0 {
      var d := NatToString(-k);
      assert s == "-" + d && s[1..] == d;
      assert Trimmed(s) by { assert s[0] == '-' && s[|s| - 1] == d[|d| - 1]; }
      StripTrimmed(s);
      assert DigitGroups(d);
      assert GroupsValue(d) == -k;
    } else {
      var d := NatToString(k);
      assert Trimmed(d);
      StripTrimmed(d);
      assert DigitGroups(d);
    }
  }

  /** `sep.join(parts)` */
  function JoinWith(parts: seq<string>, sep: string): (r: string)
    ensures parts != [] ==> |r| >= |parts[0]|
  {
    if parts == [] then ""
    else if |parts| == 1 then parts[0]
    else parts[0] + sep + JoinWith(parts[1..], sep)
  }

  // ---------------------------------------------------------------- case

  /** `str.lower()` on ASCII letters. */
  function Lower(s: string): (r: string)
    ensures |r| == |s|
    ensures forall i :: 0 <= i < |s| ==> r[i] == (if 'A' <= s[i] <= 'Z' then (s[i] as int + 32) as char else s[i])
  {
    if s == [] then [] else [if 'A' <= s[0] <= 'Z' then (s[0] as int + 32) as char else s[0]] + Lower(s[1..])
  }
}
