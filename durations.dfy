/** The small text helpers the moderation commands use: `get_warning_level_emoji`
    (main.py:67-76), `format_duration_friendly` (main.py:78-100) and `parse_duration`
    (main.py:355-378).  A duration is counted in seconds. */
module Durations {
  import opened Wrappers
  import opened Text

  // ---------------------------------------------------------------- warning level

  const Green := "\U{1F7E2}"
  const Yellow := "\U{1F7E1}"
  const Orange := "\U{1F7E0}"
  const Red := "\U{1F534}"

  /** The emoji shown next to a warning count (main.py:67-76). */
  function WarningLevelEmoji(count: int): (r: string)
    ensures r in {Green, Yellow, Orange, Red}
  {
    if count == 0 then Green
    else if count == 1 then Yellow
    else if count == 2 then Orange
    else Red
  }

  /** Zero, one and two warnings each have their own colour; three or more, and any other count,
      share red. */
  lemma WarningLevels(count: int)
    ensures WarningLevelEmoji(count) == Red <==> count !in {0, 1, 2}
    ensures forall c :: c in {0, 1, 2} && c != count ==> WarningLevelEmoji(c) != WarningLevelEmoji(count)
  {
  }

  // ---------------------------------------------------------------- one "<digits><unit>" group

  /** The group `(\d+)<unit>` at the start of `s`: its value and what follows it.  A regular
      expression cannot end the digits early and still find the unit (the next character would be
      a digit), so the group is the whole leading digit run followed by the unit. */
  function Group(s: string, unit: char): (Option<nat>, string) {
    var ds := DigitRun(s);
    if 0 < |ds| < |s| && s[|ds|] == unit then (Some(DigitsValue(ds)), s[|ds| + 1..]) else (None, s)
  }

  function OrZero(v: Option<nat>): nat {
    if v.Some? then v.value else 0
  }

  /** A group as written: the digits of the value and the unit. */
  function GroupText(v: Option<nat>, unit: char): string {
    if v.Some? then NatToString(v.value) + [unit] else ""
  }

  lemma GroupOfText(n: nat, unit: char, rest: string)
    requires !IsDigit(unit)
    ensures Group(NatToString(n) + [unit] + rest, unit) == (Some(n), rest)
  {
    var s := NatToString(n) + [unit] + rest;
    DigitRunStops(NatToString(n), unit, rest);
    assert s[|NatToString(n)| + 1..] == rest;
  }

  lemma GroupOfOtherUnit(ds: string, unit: char, other: char, rest: string)
    requires AllDigits(ds) && !IsDigit(unit) && unit != other
    ensures Group(ds + [unit] + rest, other) == (None, ds + [unit] + rest)
  {
    DigitRunStops(ds, unit, rest);
  }

  // ---------------------------------------------------------------- parse_duration

  /** `re.fullmatch(r'(?:(\d+)d)?(?:(\d+)h)?(?:(\d+)m)?', ...)` with at least one group present:
      the three optional groups in that order and nothing else. */
  function MatchDuration(t: string): Option<(Option<nat>, Option<nat>, Option<nat>)> {
    var (d, afterDays) := Group(t, 'd');
    var (h, afterHours) := Group(afterDays, 'h');
    var (m, afterMinutes) := Group(afterHours, 'm');
    if afterMinutes == [] && (d.Some? || h.Some? || m.Some?) then Some((d, h, m)) else None
  }

  /** What `parse_duration` does: return a duration in seconds, return `None`, or raise the
      `OverflowError` of `timedelta` (main.py:366-370), which its callers do not catch. */
  datatype Parsed = Duration(seconds: nat) | NoDuration | Overflow

  /** The largest number of days a `timedelta` holds; a longer duration raises `OverflowError`. */
  const MaxDays := 999999999

  /** The first number of seconds that no `timedelta` holds. */
  const OverflowSeconds := (MaxDays + 1) * 86400

  /** `parse_duration` (main.py:355-378).  The text is lowered and stripped first.  The second
      pattern `(\d+)([dhm])` only matches what the first already matched, so it never decides
      the result (see `FallbackIsCovered`). */
  function ParseDuration(text: string): (r: Parsed)
    ensures text == [] ==> r == NoDuration
    ensures r.Duration? ==> r.seconds % 60 == 0 && r.seconds < OverflowSeconds
  {
    if text == [] then NoDuration else Seconds(MatchDuration(Strip(Lower(text))))
  }

  /** `timedelta(days=..., hours=..., minutes=...)` in seconds, absent groups counting 0, or the
      overflow once the total reaches `MaxDays + 1` days. */
  function Seconds(groups: Option<(Option<nat>, Option<nat>, Option<nat>)>): (r: Parsed)
    ensures groups.None? <==> r == NoDuration
    ensures r.Duration? ==> r.seconds % 60 == 0 && r.seconds < OverflowSeconds
  {
    match groups
    case None => NoDuration
    case Some((d, h, m)) =>
      var total := (OrZero(d) * 1440 + OrZero(h) * 60 + OrZero(m)) * 60;
      if total < OverflowSeconds then Duration(total) else Overflow
  }

  lemma SecondsOf(d: Option<nat>, h: Option<nat>, m: Option<nat>)
    ensures var total := OrZero(d) * 86400 + OrZero(h) * 3600 + OrZero(m) * 60;
      Seconds(Some((d, h, m))) == if total < OverflowSeconds then Duration(total) else Overflow
  {
  }

  /** Text already lowered and stripped is parsed as it stands. */
  lemma ParseClean(t: string)
    requires |t| > 0 && NoUpper(t) && Trimmed(t)
    ensures ParseDuration(t) == Seconds(MatchDuration(t))
  {
    LowerKeeps(t);
    StripTrimmed(t);
  }

  /** A duration written the way the commands document it: optional days, hours and minutes, in
      that order. */
  function DurationText(d: Option<nat>, h: Option<nat>, m: Option<nat>): string {
    GroupText(d, 'd') + GroupText(h, 'h') + GroupText(m, 'm')
  }

  predicate NoUpper(s: string) {
    forall i :: 0 <= i < |s| ==> !('A' <= s[i] <= 'Z')
  }

  lemma LowerKeeps(s: string)
    requires NoUpper(s)
    ensures Lower(s) == s
  {
  }

  /** Empty, or starting with a digit and ending with a lower-case letter. */
  predicate Shaped(g: string) {
    g == [] || (IsDigit(g[0]) && 'a' <= g[|g| - 1] <= 'z')
  }

  lemma GroupTextShape(v: Option<nat>, unit: char)
    requires 'a' <= unit <= 'z'
    ensures var g := GroupText(v, unit); NoUpper(g) && Shaped(g) && (g == [] <==> v.None?)
  {
    if v.Some? {
      var w := NatToString(v.value);
      assert GroupText(v, unit) == w + [unit];
      assert forall i :: 0 <= i < |w| ==> IsDigit(w[i]);
    }
  }

  lemma DurationTextShape(d: Option<nat>, h: Option<nat>, m: Option<nat>)
    requires d.Some? || h.Some? || m.Some?
    ensures var t := DurationText(d, h, m); |t| > 0 && NoUpper(t) && Trimmed(t) && IsDigit(t[0])
  {
    var a, b, c := GroupText(d, 'd'), GroupText(h, 'h'), GroupText(m, 'm');
    GroupTextShape(d, 'd');
    GroupTextShape(h, 'h');
    GroupTextShape(m, 'm');
    JoinedGroups(a, b, c);
    ShapedIsTrimmed(a + b + c);
  }

  lemma ShapedIsTrimmed(t: string)
    requires t != [] && Shaped(t)
    ensures Trimmed(t) && IsDigit(t[0])
  {
  }

  /** Three groups written one after the other. */
  lemma JoinedGroups(a: string, b: string, c: string)
    requires NoUpper(a) && NoUpper(b) && NoUpper(c)
    requires Shaped(a) && Shaped(b) && Shaped(c)
    ensures NoUpper(a + b + c) && Shaped(a + b + c)
  {
    var t := a + b + c;
    assert NoUpper(t);
    if t != [] {
      if a != [] { assert t[0] == a[0]; }
      else if b != [] { assert t[0] == b[0]; }
      else { assert t[0] == c[0]; }
      if c != [] { assert t[|t| - 1] == c[|c| - 1]; }
      else if b != [] { assert t[|t| - 1] == b[|b| - 1]; }
      else { assert t[|t| - 1] == a[|a| - 1]; }
    }
  }

  /** A written group is read back by the group of its own unit... */
  lemma GroupTextSame(v: Option<nat>, unit: char, rest: string)
    requires 'a' <= unit <= 'z'
    requires v.None? ==> Group(rest, unit).0.None?
    ensures Group(GroupText(v, unit) + rest, unit) == (v, rest)
  {
    if v.Some? {
      assert GroupText(v, unit) + rest == NatToString(v.value) + [unit] + rest;
      GroupOfText(v.value, unit, rest);
    } else {
      assert GroupText(v, unit) + rest == rest;
    }
  }

  /** ...and by no group of another unit. */
  lemma GroupTextOther(v: Option<nat>, unit: char, other: char, rest: string)
    requires 'a' <= unit <= 'z' && unit != other && v.Some?
    ensures Group(GroupText(v, unit) + rest, other).0.None?
  {
    assert GroupText(v, unit) + rest == NatToString(v.value) + [unit] + rest;
    GroupOfOtherUnit(NatToString(v.value), unit, other, rest);
  }

  /** The minutes group alone reads back with nothing left. */
  lemma MatchMinutes(m: Option<nat>)
    ensures Group(GroupText(m, 'm'), 'm') == (m, [])
  {
    var mm := GroupText(m, 'm');
    assert mm == mm + [];
    GroupTextSame(m, 'm', []);
  }

  /** The hours group reads back, leaving the minutes. */
  lemma MatchHours(h: Option<nat>, m: Option<nat>)
    ensures Group(GroupText(h, 'h') + GroupText(m, 'm'), 'h') == (h, GroupText(m, 'm'))
  {
    var mm := GroupText(m, 'm');
    if m.Some? {
      assert mm == mm + [];
      GroupTextOther(m, 'm', 'h', []);
    }
    GroupTextSame(h, 'h', mm);
  }

  /** The hours and minutes never start a days group. */
  lemma NoDaysAfterDays(h: Option<nat>, m: Option<nat>)
    ensures Group(GroupText(h, 'h') + GroupText(m, 'm'), 'd').0.None?
  {
    var mm := GroupText(m, 'm');
    var hm := GroupText(h, 'h') + mm;
    if h.Some? {
      GroupTextOther(h, 'h', 'd', mm);
    } else if m.Some? {
      assert hm == mm + [];
      GroupTextOther(m, 'm', 'd', []);
    } else {
      assert hm == [];
    }
  }

  /** The days group reads back, leaving the hours and minutes. */
  lemma MatchDays(d: Option<nat>, h: Option<nat>, m: Option<nat>)
    ensures Group(DurationText(d, h, m), 'd') == (d, GroupText(h, 'h') + GroupText(m, 'm'))
  {
    var hm := GroupText(h, 'h') + GroupText(m, 'm');
    NoDaysAfterDays(h, m);
    assert DurationText(d, h, m) == GroupText(d, 'd') + hm;
    GroupTextSame(d, 'd', hm);
  }

  lemma MatchDurationText(d: Option<nat>, h: Option<nat>, m: Option<nat>)
    requires d.Some? || h.Some? || m.Some?
    ensures MatchDuration(DurationText(d, h, m)) == Some((d, h, m))
  {
    MatchDays(d, h, m);
    MatchHours(h, m);
    MatchMinutes(m);
  }

  /** Every documented duration parses to its number of seconds, or overflows when that number
      reaches `MaxDays + 1` days. */
  lemma ParseDurationText(d: Option<nat>, h: Option<nat>, m: Option<nat>)
    requires d.Some? || h.Some? || m.Some?
    ensures var total := OrZero(d) * 86400 + OrZero(h) * 3600 + OrZero(m) * 60;
      ParseDuration(DurationText(d, h, m)) == if total < OverflowSeconds then Duration(total) else Overflow
  {
    var t := DurationText(d, h, m);
    DurationTextShape(d, h, m);
    ParseClean(t);
    MatchDurationText(d, h, m);
    SecondsOf(d, h, m);
  }

  /** One day more than a `timedelta` holds, written in digits ("1000000000d"), overflows, while
      one day fewer ("999999999d") is accepted. */
  lemma OverflowBound()
    ensures ParseDuration(NatToString(MaxDays + 1) + "d") == Overflow
    ensures ParseDuration(NatToString(MaxDays) + "d") == Duration(OverflowSeconds - 86400)
  {
    DaysAlone(MaxDays + 1);
    DaysAlone(MaxDays);
  }

  /** A count of days alone parses to that many days, or overflows. */
  lemma DaysAlone(n: nat)
    ensures ParseDuration(NatToString(n) + "d") == if n * 86400 < OverflowSeconds then Duration(n * 86400) else Overflow
  {
    assert DurationText(Some(n), None, None) == NatToString(n) + "d";
    ParseDurationText(Some(n), None, None);
  }

  /** Whatever the fallback pattern `(\d+)([dhm])` (main.py:371-376) accepts, the first
      pattern has already accepted, as the same single group. */
  lemma FallbackIsCovered(ds: string, unit: char)
    requires |ds| > 0 && AllDigits(ds) && unit in {'d', 'h', 'm'}
    ensures var v := Some(DigitsValue(ds));
      MatchDuration(ds + [unit]) ==
        Some((if unit == 'd' then v else None, if unit == 'h' then v else None, if unit == 'm' then v else None))
  {
    var t := ds + [unit];
    assert t == ds + [unit] + [];
    var v := Some(DigitsValue(ds));
    DigitRunStops(ds, unit, []);
    assert t[|ds| + 1..] == [];
    if unit == 'd' {
      assert Group(t, 'd') == (v, []);
    } else if unit == 'h' {
      assert Group(t, 'd') == (None, t);
      assert Group(t, 'h') == (v, []);
    } else {
      assert Group(t, 'd') == (None, t);
      assert Group(t, 'h') == (None, t);
      assert Group(t, 'm') == (v, []);
    }
  }

  /** No character of `s` is a decimal digit. */
  predicate DigitFree(s: string) {
    forall i :: 0 <= i < |s| ==> !IsDigit(s[i])
  }

  /** Text without digits holds no group: `(\d+)` needs a digit. */
  lemma NoDigitsNoGroup(s: string, unit: char)
    requires DigitFree(s)
    ensures Group(s, unit) == (None, s)
  {
    if s != [] {
      assert !IsDigit(s[0]);
    }
  }

  /** Lowering and stripping add no digits. */
  lemma CleanedHasNoDigits(text: string)
    requires DigitFree(text)
    ensures DigitFree(Strip(Lower(text)))
  {
    var l := Lower(text);
    assert DigitFree(l) by {
      forall k | 0 <= k < |l| ensures !IsDigit(l[k]) {
        assert !IsDigit(text[k]);
      }
    }
    StripKeepsDigitFree(l);
  }

  /** Text with no digits never parses. */
  lemma NoDigitsNoDuration(text: string)
    requires DigitFree(text)
    ensures ParseDuration(text) == NoDuration
  {
    if text != [] {
      var t := Strip(Lower(text));
      CleanedHasNoDigits(text);
      NoDigitsNoGroup(t, 'd');
      NoDigitsNoGroup(t, 'h');
      NoDigitsNoGroup(t, 'm');
    }
  }

  /** `str.strip()` adds no digits. */
  lemma StripKeepsDigitFree(s: string)
    requires DigitFree(s)
    ensures DigitFree(Strip(s))
  {
    LStripIsSuffix(s);
    var l := LStrip(s);
    assert DigitFree(l) by {
      forall k | 0 <= k < |l| ensures !IsDigit(l[k]) {
        assert l[k] == s[|s| - |l| + k];
      }
    }
    if l != [] {
      RStripIsPrefix(l);
      var r := RStrip(l);
      assert Strip(s) == r;
      forall k | 0 <= k < |r| ensures !IsDigit(r[k]) {
        assert r[k] == l[k];
      }
    }
  }

  lemma {:induction false} LStripIsSuffix(s: string)
    ensures LStrip(s) == s[|s| - |LStrip(s)|..]
    decreases |s|
  {
    if s != [] && IsSpace(s[0]) {
      LStripIsSuffix(s[1..]);
    }
  }

  lemma {:induction false} RStripIsPrefix(s: string)
    ensures RStrip(s) == s[..|RStrip(s)|]
    decreases |s|
  {
    if s != [] && IsSpace(s[|s| - 1]) {
      RStripIsPrefix(s[..|s| - 1]);
    }
  }

  // ---------------------------------------------------------------- format_duration_friendly

  /** `re.search(r'(\d+)<unit>', s)`: the value of the leftmost group. */
  function Search(s: string, unit: char): Option<nat>
    decreases |s|
  {
    if s == [] then None
    else
      match Group(s, unit).0
      case Some(n) => Some(n)
      case None => Search(s[1..], unit)
  }

  /** `f"{n} {word}{'s' if n > 1 else ''}"`, for a group that was found. */
  function Phrase(v: Option<nat>, word: string): seq<string> {
    if v.Some? then [NatToString(v.value) + " " + word + (if v.value > 1 then "s" else "")] else []
  }

  /** `format_duration_friendly` (main.py:78-100). */
  function FormatDurationFriendly(text: string): string {
    if text == "permanent" then "Permanent"
    else
      var low := Lower(text);
      var parts := Phrase(Search(low, 'd'), "day") + Phrase(Search(low, 'h'), "hour") + Phrase(Search(low, 'm'), "minute");
      if parts == [] then text else JoinWith(parts, ", ")
  }

  /** Past digits and a different unit, the search carries on after the unit. */
  lemma {:induction false} SearchSkipsGroup(ds: string, unit: char, other: char, rest: string)
    requires AllDigits(ds) && !IsDigit(unit) && unit != other
    ensures Search(ds + [unit] + rest, other) == Search(rest, other)
    decreases |ds|
  {
    var s := ds + [unit] + rest;
    GroupOfOtherUnit(ds, unit, other, rest);
    if ds == [] {
      assert s[1..] == rest;
    } else {
      assert s[1..] == ds[1..] + [unit] + rest;
      SearchSkipsGroup(ds[1..], unit, other, rest);
    }
  }

  lemma SearchFindsGroup(n: nat, unit: char, rest: string)
    requires !IsDigit(unit)
    ensures Search(NatToString(n) + [unit] + rest, unit) == Some(n)
  {
    GroupOfText(n, unit, rest);
  }

  lemma SearchGroupText(v: Option<nat>, unit: char, other: char, rest: string)
    requires unit in {'d', 'h', 'm'} && other in {'d', 'h', 'm'} && unit != other
    ensures Search(GroupText(v, unit) + rest, other) == Search(rest, other)
  {
    if v.Some? {
      assert GroupText(v, unit) + rest == NatToString(v.value) + [unit] + rest;
      SearchSkipsGroup(NatToString(v.value), unit, other, rest);
    } else {
      assert GroupText(v, unit) + rest == rest;
    }
  }

  lemma SearchGroupTextSame(v: Option<nat>, unit: char, rest: string)
    requires unit in {'d', 'h', 'm'} && (v.None? ==> Search(rest, unit).None?)
    ensures Search(GroupText(v, unit) + rest, unit) == v
  {
    if v.Some? {
      assert GroupText(v, unit) + rest == NatToString(v.value) + [unit] + rest;
      SearchFindsGroup(v.value, unit, rest);
    } else {
      assert GroupText(v, unit) + rest == rest;
    }
  }

  /** The three searches find the groups of a documented duration. */
  lemma SearchDurationText(d: Option<nat>, h: Option<nat>, m: Option<nat>)
    ensures var t := DurationText(d, h, m);
      Search(t, 'd') == d && Search(t, 'h') == h && Search(t, 'm') == m
  {
    var t := DurationText(d, h, m);
    var mm := GroupText(m, 'm');
    var hm := GroupText(h, 'h') + mm;
    assert t == GroupText(d, 'd') + hm;
    assert mm == GroupText(m, 'm') + [];
    assert Search(t, 'm') == m by {
      SearchGroupText(d, 'd', 'm', hm);
      SearchGroupText(h, 'h', 'm', mm);
      SearchGroupTextSame(m, 'm', []);
    }
    assert Search(t, 'h') == h by {
      SearchGroupText(d, 'd', 'h', hm);
      SearchGroupText(m, 'm', 'h', []);
      SearchGroupTextSame(h, 'h', mm);
    }
    assert Search(t, 'd') == d by {
      SearchGroupText(h, 'h', 'd', mm);
      SearchGroupText(m, 'm', 'd', []);
      SearchGroupTextSame(d, 'd', hm);
    }
  }

  /** For every documented duration the friendly text names exactly the groups `parse_duration`
      counts, in the same order, with their values. */
  lemma FriendlyNamesTheParsedGroups(d: Option<nat>, h: Option<nat>, m: Option<nat>)
    requires d.Some? || h.Some? || m.Some?
    ensures FormatDurationFriendly(DurationText(d, h, m)) ==
      JoinWith(Phrase(d, "day") + Phrase(h, "hour") + Phrase(m, "minute"), ", ")
  {
    var t := DurationText(d, h, m);
    assert Lower(t) == t && t != "permanent" by {
      DurationTextShape(d, h, m);
      LowerKeeps(t);
      assert IsDigit(t[0]);
    }
    SearchDurationText(d, h, m);
    FriendlyOfSearches(t, d, h, m);
  }

  /** A text that is not "permanent", is its own lower case and whose searches find the groups
      `d`, `h` and `m`, at least one of them, reads as their phrases. */
  lemma FriendlyOfSearches(t: string, d: Option<nat>, h: Option<nat>, m: Option<nat>)
    requires d.Some? || h.Some? || m.Some?
    requires Lower(t) == t && t != "permanent"
    requires Search(t, 'd') == d && Search(t, 'h') == h && Search(t, 'm') == m
    ensures FormatDurationFriendly(t) == JoinWith(Phrase(d, "day") + Phrase(h, "hour") + Phrase(m, "minute"), ", ")
  {
    var parts := Phrase(d, "day") + Phrase(h, "hour") + Phrase(m, "minute");
    assert parts != [] by {
      if d.Some? { assert parts[0] == Phrase(d, "day")[0]; }
      else if h.Some? { assert |parts| >= 1; }
      else { assert |Phrase(m, "minute")| == 1; }
    }
  }

  lemma {:induction false} NoDigitsNoMatch(s: string, unit: char)
    requires DigitFree(s)
    ensures Search(s, unit) == None
    decreases |s|
  {
    if s != [] {
      NoDigitsNoMatch(s[1..], unit);
    }
  }

  /** Text with no digits comes back unchanged, except "permanent". */
  lemma FriendlyWithoutDigits(text: string)
    requires DigitFree(text)
    ensures FormatDurationFriendly(text) == if text == "permanent" then "Permanent" else text
  {
    var low := Lower(text);
    assert DigitFree(low);
    NoDigitsNoMatch(low, 'd');
    NoDigitsNoMatch(low, 'h');
    NoDigitsNoMatch(low, 'm');
  }
}
