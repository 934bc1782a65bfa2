/** The wire format of a saved database (main.py, `save_database` and the parsing half of
    `load_database`): a document of at most 1900 characters goes out as one fenced message;
    a longer one is cut into 1900-character slices, each posted as "**Part i/n:**" followed
    by a fenced block.  The JSON text itself is produced elsewhere and is a plain string here. */
module Envelope {
  import opened Wrappers
  import opened Text

  /** Documents longer than this are split, and no slice is longer. */
  const ChunkSize: nat := 1900
  const JsonFence: string := "```json"
  const Fence: string := "```"

  function Min(a: int, b: int): int {
    if a <= b then a else b
  }

  /** ceil(n / 1900), the length of `range(0, n, 1900)`. */
  function ChunkCount(n: nat): nat {
    (n + 1899) / 1900
  }

  /** `[doc[i:i+1900] for i in range(0, len(doc), 1900)]`. */
  function Chunks(doc: string): seq<string> {
    seq(ChunkCount(|doc|), i requires 0 <= i < ChunkCount(|doc|) => doc[i * 1900 .. Min((i + 1) * 1900, |doc|)])
  }

  function Concat(ss: seq<string>): string {
    if ss == [] then [] else ss[0] + Concat(ss[1..])
  }

  lemma ChunksUnfold(doc: string)
    requires |doc| > 1900
    ensures Chunks(doc) == [doc[..1900]] + Chunks(doc[1900..])
  {
    var a, b := Chunks(doc), Chunks(doc[1900..]);
    assert |a| == 1 + |b|;
    forall i | 1 <= i < |a| ensures a[i] == b[i - 1] {
      assert doc[1900..][(i - 1) * 1900 .. Min(i * 1900, |doc| - 1900)]
          == doc[i * 1900 .. Min((i + 1) * 1900, |doc|)];
    }
  }

  lemma {:induction false} ChunksConcat(doc: string)
    ensures Concat(Chunks(doc)) == doc
    decreases |doc|
  {
    if |doc| > 1900 {
      ChunksUnfold(doc);
      ChunksConcat(doc[1900..]);
      var cs := Chunks(doc);
      assert cs[1..] == Chunks(doc[1900..]);
      assert doc == doc[..1900] + doc[1900..];
    } else if doc == [] {
      assert Chunks(doc) == [];
    } else {
      assert ChunkCount(|doc|) == 1;
      assert Chunks(doc)[0] == doc[0..|doc|] == doc;
      assert Chunks(doc) == [doc];
    }
  }

  /** main.py:317-319: a document is cut only when it is longer than 1900 characters; then there
      are ceil(len/1900) >= 2 slices, none empty, none longer than 1900, all but the last exactly
      1900 long, and together they spell the document. */
  lemma ChunkProperties(doc: string)
    requires |doc| > ChunkSize
    ensures var cs := Chunks(doc);
      && |cs| == (|doc| + ChunkSize - 1) / ChunkSize && |cs| >= 2
      && (forall i :: 0 <= i < |cs| ==> 0 < |cs[i]| <= ChunkSize)
      && (forall i :: 0 <= i < |cs| - 1 ==> |cs[i]| == ChunkSize)
      && Concat(cs) == doc
  {
    ChunksConcat(doc);
  }

  // ---------------------------------------------------------------- what a save posts

  /** The one message posted for a document of at most 1900 characters (main.py:338). */
  function SingleMessage(doc: string): string {
    JsonFence + "\n" + doc + "\n" + Fence
  }

  function PartHeader(i: nat, n: nat): string {
    "**Part " + NatToString(i + 1) + "/" + NatToString(n) + ":**\n"
  }

  /** The message for slice `i` (counted from 0) of `n` (main.py:332). */
  function PartMessage(i: nat, n: nat, chunk: string): string {
    PartHeader(i, n) + JsonFence + "\n" + chunk + "\n" + Fence
  }

  function PartMessages(chunks: seq<string>): (r: seq<string>)
    ensures |r| == |chunks|
  {
    seq(|chunks|, i requires 0 <= i < |chunks| => PartMessage(i, |chunks|, chunks[i]))
  }

  /** The texts a save posts, in order.  A multi-part save first posts an embed, which has
      no text; a single-message save posts its text together with the embed. */
  function SaveMessages(doc: string): seq<string> {
    if |doc| > ChunkSize then [""] + PartMessages(Chunks(doc)) else [SingleMessage(doc)]
  }

  // ---------------------------------------------------------------- reading a message back

  lemma EnvelopeLength(content: string)
    requires StartsWith(content, JsonFence) && EndsWith(content, Fence)
    ensures |content| >= 10
  {
    assert content[..7] == JsonFence;
    assert content[4] == 's' && content[5] == 'o' && content[6] == 'n';
    assert content[|content| - 3..] == Fence;
    assert content[|content| - 3] == '`';
  }

  /** main.py:145-147: a message that starts with "```json" and ends with "```" holds, between
      the two, a document; it is returned stripped of surrounding whitespace. */
  function SingleEnvelopeBody(content: string): Option<string> {
    if StartsWith(content, JsonFence) && EndsWith(content, Fence) then
      EnvelopeLength(content);
      Some(Strip(content[7..|content| - 3]))
    else None
  }

  /** The marker "Part a/b" at index `i`: "Part ", then the numbers part. */
  function MarkerAt(s: string, i: nat): Option<(nat, nat)> {
    if OccursAt(s, "Part ", i) then MarkerNumbers(s[i + 5..]) else None
  }

  /** The numbers of a marker at the start of `t`: a maximal run of digits, "/", a maximal run
      of digits. */
  function MarkerNumbers(t: string): Option<(nat, nat)> {
    var a := DigitRun(t);
    if |a| > 0 && |a| < |t| && t[|a|] == '/' then
      var b := DigitRun(t[|a| + 1..]);
      if |b| > 0 then Some((DigitsValue(a), DigitsValue(b))) else None
    else None
  }

  /** The leftmost marker at or after index `i`. */
  function SearchMarker(s: string, i: nat): Option<(nat, nat)>
    decreases |s| - i
  {
    if i >= |s| then None
    else if MarkerAt(s, i).Some? then MarkerAt(s, i)
    else SearchMarker(s, i + 1)
  }

  /** `re.search(r'Part (\d+)/(\d+)', s)` as (part number, total) (main.py:212-215). */
  function PartMarker(s: string): Option<(nat, nat)> {
    SearchMarker(s, 0)
  }

  /** main.py:217-220: the text from just after the first "```json" up to the last "```". */
  function ExtractFragment(content: string): Option<string> {
    var start := Find(content, JsonFence) + 7;
    var end := RFind(content, Fence);
    if start > 6 && end > start then Some(content[start..end]) else None
  }

  /** main.py:210-221: a message mentioning "Part" and "```json" that carries a marker and a
      fenced fragment yields its part number and the fragment.  The total is read but unused. */
  function PartOf(content: string): Option<(nat, string)> {
    if Contains(content, "Part") && Contains(content, JsonFence) then
      match PartMarker(content)
      case None => None
      case Some(marker) =>
        match ExtractFragment(content)
        case None => None
        case Some(f) => Some((marker.0, f))
    else None
  }

  // ---------------------------------------------------------------- the two formats read back

  /** The single-message envelope gives back the document whenever the document has no
      whitespace at either end (as `json.dumps` output never has). */
  lemma SingleMessageRoundTrip(doc: string)
    requires Trimmed(doc)
    ensures SingleEnvelopeBody(SingleMessage(doc)) == Some(doc)
  {
    var m := SingleMessage(doc);
    assert m[..7] == JsonFence;
    assert m[|m| - 3..] == Fence;
    assert m[7..|m| - 3] == "\n" + doc + "\n";
    StripPadded("\n", doc, "\n");
    StripTrimmed(doc);
  }

  /** A text starting with '*' does not start with "```json". */
  lemma StarIsNotSingle(m: string)
    requires m != [] && m[0] == '*'
    ensures SingleEnvelopeBody(m) == None
  {
    assert |m| >= 7 ==> m[..7][0] == '*';
  }

  /** A part message never passes the single-message test: it starts with "**Part". */
  lemma PartMessageIsNotSingle(i: nat, n: nat, chunk: string)
    ensures SingleEnvelopeBody(PartMessage(i, n, chunk)) == None
  {
    var h := PartHeader(i, n);
    HeaderStart(i, n);
    assert PartMessage(i, n, chunk) == h + (JsonFence + "\n" + chunk + "\n" + Fence);
    StarIsNotSingle(PartMessage(i, n, chunk));
  }

  predicate NoBacktick(s: string) {
    forall k :: 0 <= k < |s| ==> s[k] != '`'
  }

  /** No marker starts at a '*'. */
  lemma NoMarkerAtStar(s: string, i: nat)
    requires i < |s| && s[i] == '*'
    ensures MarkerAt(s, i).None?
  {
    if i + 5 <= |s| {
      assert s[i..i + 5][0] == s[i];
    }
  }

  /** Two digit runs separated by "/" and followed by ":" are the marker numbers. */
  lemma NumbersOfHeader(a: string, b: string, tail: string)
    requires |a| > 0 && |b| > 0 && AllDigits(a) && AllDigits(b)
    ensures MarkerNumbers(a + ['/'] + (b + [':'] + tail)) == Some((DigitsValue(a), DigitsValue(b)))
  {
    var t := a + ['/'] + (b + [':'] + tail);
    DigitRunStops(a, '/', b + [':'] + tail);
    assert t[|a|] == '/';
    assert t[|a| + 1..] == b + [':'] + tail;
    DigitRunStops(b, ':', tail);
  }

  /** A text whose first two characters are '*' and whose third starts a marker: the search
      finds that marker. */
  lemma SearchFindsThird(s: string)
    requires |s| > 2 && s[0] == '*' && s[1] == '*' && MarkerAt(s, 2).Some?
    ensures PartMarker(s) == MarkerAt(s, 2)
  {
    NoMarkerAtStar(s, 0);
    NoMarkerAtStar(s, 1);
    assert SearchMarker(s, 1) == SearchMarker(s, 2);
  }

  /** "Part " at index `i` hands what follows it to the number reading. */
  lemma MarkerAtPart(s: string, i: nat, t: string)
    requires OccursAt(s, "Part ", i) && s[i + 5..] == t
    ensures MarkerAt(s, i) == MarkerNumbers(t)
  {
  }

  /** The marker search on "**Part " followed by marker numbers finds those numbers. */
  lemma MarkerAfterStars(t: string)
    requires MarkerNumbers(t).Some?
    ensures PartMarker("**Part " + t) == MarkerNumbers(t)
  {
    var s := "**Part " + t;
    assert s[0] == '*' && s[1] == '*';
    assert s[2..7] == "Part " && s[7..] == t;
    MarkerAtPart(s, 2, t);
    SearchFindsThird(s);
  }

  /** The marker search on a text that starts "**Part a/b:" finds (a, b). */
  lemma MarkerOfHeader(a: string, b: string, tail: string)
    requires |a| > 0 && |b| > 0 && AllDigits(a) && AllDigits(b)
    ensures PartMarker("**Part " + a + "/" + b + ":" + tail) == Some((DigitsValue(a), DigitsValue(b)))
  {
    var t := a + ['/'] + (b + [':'] + tail);
    assert "**Part " + a + "/" + b + ":" + tail == "**Part " + t;
    NumbersOfHeader(a, b, tail);
    MarkerAfterStars(t);
  }

  lemma MarkerOfPartMessage(i: nat, n: nat, chunk: string)
    ensures PartMarker(PartMessage(i, n, chunk)) == Some((i + 1, n))
  {
    var a, b := NatToString(i + 1), NatToString(n);
    var tail := "**\n" + JsonFence + "\n" + chunk + "\n" + Fence;
    assert PartMessage(i, n, chunk) == "**Part " + a + "/" + b + ":" + tail;
    MarkerOfHeader(a, b, tail);
  }

  lemma HeaderHasNoBacktick(i: nat, n: nat)
    ensures NoBacktick(PartHeader(i, n))
  {
    var h := PartHeader(i, n);
    var a, b := NatToString(i + 1), NatToString(n);
    assert h == "**Part " + a + "/" + b + ":**\n";
    forall k | 0 <= k < |h| ensures h[k] != '`' {
      if 7 <= k < 7 + |a| {
        assert h[k] == a[k - 7];
      } else if 8 + |a| <= k < 8 + |a| + |b| {
        assert h[k] == b[k - 8 - |a|];
      }
    }
  }

  /** `find` of "```json" in a text whose first backtick opens that fence. */
  lemma FindAfterPlainText(h: string, rest: string)
    requires NoBacktick(h)
    ensures Find(h + JsonFence + rest, JsonFence) == |h|
  {
    var s := h + JsonFence + rest;
    assert s[|h|..|h| + 7] == JsonFence;
    assert OccursAt(s, JsonFence, |h|);
    forall j | 0 <= j < |h| ensures !OccursAt(s, JsonFence, j) {
      assert s[j] == h[j] != '`';
      if j + 7 <= |s| {
        assert s[j..j + 7][0] == s[j];
      }
    }
  }

  /** `rfind` of "```" in a text that ends with it. */
  lemma RFindAtEnd(x: string)
    ensures RFind(x + Fence, Fence) == |x|
  {
    var s := x + Fence;
    assert s[|x|..|x| + 3] == Fence;
    assert OccursAt(s, Fence, |s| - 3);
  }

  /** Extraction from text ahead of the fence, the fence, a non-empty body and the closing fence. */
  lemma FragmentBetween(h: string, body: string)
    requires NoBacktick(h) && body != []
    ensures ExtractFragment(h + JsonFence + body + Fence) == Some(body)
  {
    var s := h + JsonFence + body + Fence;
    assert s == h + JsonFence + (body + Fence);
    FindAfterPlainText(h, body + Fence);
    RFindAtEnd(h + JsonFence + body);
    assert s[|h| + 7 .. |s| - 3] == body;
  }

  lemma Regroup(a: string, b: string, c: string, d: string, e: string, f: string)
    ensures a + b + c + d + e + f == a + b + (c + d + e) + f
  {
  }

  lemma FragmentOfPartMessage(i: nat, n: nat, chunk: string)
    ensures ExtractFragment(PartMessage(i, n, chunk)) == Some("\n" + chunk + "\n")
  {
    var h, body := PartHeader(i, n), "\n" + chunk + "\n";
    HeaderHasNoBacktick(i, n);
    FragmentBetween(h, body);
    Regroup(h, JsonFence, "\n", chunk, "\n", Fence);
  }

  /** The header begins with "**Part ". */
  lemma HeaderStart(i: nat, n: nat)
    ensures |PartHeader(i, n)| >= 7 && PartHeader(i, n)[0] == '*' && PartHeader(i, n)[2..6] == "Part"
  {
    var a, b := NatToString(i + 1), NatToString(n);
    assert PartHeader(i, n) == "**Part " + (a + "/" + b + ":**\n");
  }

  /** A text that has "Part" at index 2, contains the fence, carries a marker and a fragment is
      read as that part. */
  lemma PartOfFound(s: string, marker: (nat, nat), f: string)
    requires OccursAt(s, "Part", 2) && Find(s, JsonFence) >= 0
    requires PartMarker(s) == Some(marker) && ExtractFragment(s) == Some(f)
    ensures PartOf(s) == Some((marker.0, f))
  {
  }

  /** A part message has "Part" at index 2 and contains "```json". */
  lemma PartMessageMentions(i: nat, n: nat, chunk: string)
    ensures OccursAt(PartMessage(i, n, chunk), "Part", 2) && Find(PartMessage(i, n, chunk), JsonFence) >= 0
  {
    var s, h := PartMessage(i, n, chunk), PartHeader(i, n);
    HeaderHasNoBacktick(i, n);
    HeaderStart(i, n);
    var rest := "\n" + chunk + "\n" + Fence;
    assert s == h + JsonFence + rest;
    FindAfterPlainText(h, rest);
    assert s[2..6] == h[2..6];
  }

  /** A part message yields its part number and its slice padded with the envelope's newlines
      (main.py:212-220 read against 332). */
  lemma PartOfPartMessage(i: nat, n: nat, chunk: string)
    ensures PartOf(PartMessage(i, n, chunk)) == Some((i + 1, "\n" + chunk + "\n"))
  {
    MarkerOfPartMessage(i, n, chunk);
    FragmentOfPartMessage(i, n, chunk);
    PartMessageMentions(i, n, chunk);
    PartOfFound(PartMessage(i, n, chunk), (i + 1, n), "\n" + chunk + "\n");
  }

  /** The embed posted ahead of the parts has no text, so neither test picks it up. */
  lemma EmptyMessageIsIgnored()
    ensures SingleEnvelopeBody("") == None && PartOf("") == None
  {
  }
}
