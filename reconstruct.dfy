/** What `load_database` (main.py:116-291) rebuilds from the database channel, stated as
    functions of what the channel returns: the bot's own messages among the last 50, newest
    first; the first of them holding a whole snapshot; failing that, every "Part" message,
    ordered by part number and joined; failing that, nothing.  `json.loads` is the parameter
    `parse`. */
module Reconstruct {
  import opened Wrappers
  import opened Text
  import opened JsonValue
  import opened Lists
  import opened Sorting
  import opened Envelope
  import opened SnapshotCodec

  /** A channel message as the loader sees it: author, creation time in seconds, text. */
  datatype Message = Message(author: int, createdAt: int, content: string)

  /** Reading the database channel: the channel is missing (main.py:122-127), the read raised
      (main.py:287-291), or `history(limit=50)` returned these messages, newest first. */
  datatype HistoryRead = ChannelMissing | ReadFailed | Fetched(recent: seq<Message>)

  const HistoryLimit: nat := 50

  /** `channel.history(limit=50)` over a channel log kept oldest first. */
  function RecentHistory(log: seq<Message>): (r: seq<Message>)
    ensures |r| == Min(HistoryLimit, |log|)
    ensures forall i :: 0 <= i < |r| ==> r[i] == log[|log| - 1 - i]
  {
    seq(Min(HistoryLimit, |log|), i requires 0 <= i < Min(HistoryLimit, |log|) => log[|log| - 1 - i])
  }

  function Mine(me: int): Message -> Option<Message> {
    (m: Message) => if m.author == me then Some(m) else None
  }

  /** main.py:135-137: the messages the bot itself wrote, in the order read. */
  function OwnMessages(recent: seq<Message>, me: int): seq<Message> {
    FilterMap(recent, Mine(me))
  }

  function NewestFirst(m: Message): int {
    -m.createdAt
  }

  /** main.py:139: the bot's messages sorted by creation time, newest first.  The sort is stable,
      so messages created at the same time keep the order they were read in. */
  function Candidates(recent: seq<Message>, me: int): seq<Message> {
    SortBy(OwnMessages(recent, me), NewestFirst)
  }

  /** main.py:153: a snapshot is a JSON object with a "warnings" key. */
  predicate IsSnapshot(d: Json) {
    d.JObj? && HasKey(d.fields, "warnings")
  }

  /** main.py:142-153: the snapshot a single message holds, if any.  An empty text, a text not
      fenced as "```json ... ```", an empty body, a body `json.loads` rejects and a value that
      is not a snapshot all yield nothing. */
  function SingleSnapshot(content: string, parse: string -> Option<Json>): Option<Json> {
    if content == "" then None
    else
      match SingleEnvelopeBody(content)
      case None => None
      case Some(body) =>
        if body == "" then None
        else
          match parse(body)
          case None => None
          case Some(d) => if IsSnapshot(d) then Some(d) else None
  }

  /** main.py:141-203: the first candidate, in order, that holds a snapshot. */
  function FirstSnapshot(c: seq<Message>, parse: string -> Option<Json>): (r: Option<Json>)
    ensures r.Some? ==> IsSnapshot(r.value)
  {
    if c == [] then None
    else
      match SingleSnapshot(c[0].content, parse)
      case Some(d) => Some(d)
      case None => FirstSnapshot(c[1..], parse)
  }

  function PartOfMessage(m: Message): Option<(nat, string)> {
    PartOf(m.content)
  }

  /** main.py:207-224: (part number, fragment) for every candidate that reads as a part, in
      candidate order; parts of different saves are not told apart. */
  function GatherParts(c: seq<Message>): seq<(nat, string)> {
    FilterMap(c, PartOfMessage)
  }

  function PartNumber(p: (nat, string)): int {
    p.0
  }

  function Fragments(parts: seq<(nat, string)>): (r: seq<string>)
    ensures |r| == |parts|
  {
    seq(|parts|, i requires 0 <= i < |parts| => parts[i].1)
  }

  /** main.py:227-228: the fragments joined in part-number order; equal numbers keep their
      candidate order (newest first). */
  function Reassemble(parts: seq<(nat, string)>): string {
    Concat(Fragments(SortBy(parts, PartNumber)))
  }

  /** A fragment without the newline the envelope adds at each end. */
  function Unpad(f: string): string {
    if |f| >= 2 && f[0] == '\n' && f[|f| - 1] == '\n' then f[1..|f| - 1] else f
  }

  function Unpadded(fs: seq<string>): (r: seq<string>)
    ensures |r| == |fs|
  {
    seq(|fs|, i requires 0 <= i < |fs| => Unpad(fs[i]))
  }

  /** The rejoining the save side calls for: the same order, the padding taken off. */
  function ReassembleUnpadded(parts: seq<(nat, string)>): string {
    Concat(Unpadded(Fragments(SortBy(parts, PartNumber))))
  }

  /** main.py:226-233: the snapshot the gathered parts hold, if any.  `corrected` selects the
      rejoining without padding; the code as written has it false. */
  function MultiPartSnapshot(c: seq<Message>, parse: string -> Option<Json>, corrected: bool): Option<Json> {
    var parts := GatherParts(c);
    if parts == [] then None
    else
      var text := if corrected then ReassembleUnpadded(parts) else Reassemble(parts);
      match parse(text)
      case None => None
      case Some(d) => if IsSnapshot(d) then Some(d) else None
  }

  function LoadWith(read: HistoryRead, me: int, parse: string -> Option<Json>, corrected: bool): Snapshot {
    match read
    case ChannelMissing => Empty
    case ReadFailed => Empty
    case Fetched(recent) => Located(Candidates(recent, me), parse, corrected)
  }

  /** The snapshot found among the candidates: the first one holding a whole snapshot, else the
      parts put back together, else nothing. */
  function Located(c: seq<Message>, parse: string -> Option<Json>, corrected: bool): Snapshot {
    match FirstSnapshot(c, parse)
    case Some(d) => DecodeSnapshot(d.fields)
    case None =>
      match MultiPartSnapshot(c, parse, corrected)
      case Some(d) => DecodeSnapshot(d.fields)
      case None => Empty
  }

  /** The three maps `load_database` leaves behind (main.py:116-291). */
  function LoadedSnapshot(read: HistoryRead, me: int, parse: string -> Option<Json>): Snapshot {
    LoadWith(read, me, parse, false)
  }

  /** The same loader with the padding taken off the fragments before they are joined. */
  function LoadedSnapshotCorrected(read: HistoryRead, me: int, parse: string -> Option<Json>): Snapshot {
    LoadWith(read, me, parse, true)
  }

  // ---------------------------------------------------------------- candidate selection

  /** Only messages by the bot are considered, and all of them. */
  lemma CandidatesAreOwn(recent: seq<Message>, me: int)
    ensures var c := Candidates(recent, me);
      && (forall i :: 0 <= i < |c| ==> c[i].author == me && c[i] in recent)
      && (forall m :: m in recent && m.author == me ==> m in c)
  {
    var own := OwnMessages(recent, me);
    var c := Candidates(recent, me);
    assert multiset(c) == multiset(own);
    forall i | 0 <= i < |c| ensures c[i].author == me && c[i] in recent {
      assert c[i] in multiset(own);
      assert c[i] in own;
      FilterMapFrom(recent, Mine(me), c[i]);
      var x :| x in recent && Mine(me)(x) == Some(c[i]);
    }
    forall m | m in recent && m.author == me ensures m in c {
      FilterMapKeeps(recent, Mine(me), m);
      assert m in multiset(own);
    }
  }

  /** Candidates come newest first. */
  lemma CandidatesNewestFirst(recent: seq<Message>, me: int)
    ensures var c := Candidates(recent, me);
      forall i, j :: 0 <= i < j < |c| ==> c[i].createdAt >= c[j].createdAt
  {
    var c := Candidates(recent, me);
    assert SortedBy(c, NewestFirst);
    forall i, j | 0 <= i < j < |c| ensures c[i].createdAt >= c[j].createdAt {
      assert NewestFirst(c[i]) <= NewestFirst(c[j]);
    }
  }

  /** Candidates created at the same time keep the order they were read in. */
  lemma CandidatesKeepReadOrder(recent: seq<Message>, me: int, t: int)
    ensures WithKey(Candidates(recent, me), NewestFirst, -t) == WithKey(OwnMessages(recent, me), NewestFirst, -t)
  {
    var own := OwnMessages(recent, me);
    assert Candidates(recent, me) == SortBy(own, NewestFirst);
    SortByStable(own, NewestFirst, -t);
  }

  /** The first candidate holding a snapshot is the one loaded. */
  lemma {:induction false} FirstSnapshotAt(c: seq<Message>, parse: string -> Option<Json>, i: nat)
    requires i < |c|
    requires forall j :: 0 <= j < i ==> SingleSnapshot(c[j].content, parse).None?
    requires SingleSnapshot(c[i].content, parse).Some?
    ensures FirstSnapshot(c, parse) == SingleSnapshot(c[i].content, parse)
    decreases i
  {
    if i > 0 {
      assert SingleSnapshot(c[0].content, parse).None?;
      FirstSnapshotAt(c[1..], parse, i - 1);
    }
  }

  /** No snapshot is found exactly when no candidate holds one. */
  lemma {:induction false} FirstSnapshotNone(c: seq<Message>, parse: string -> Option<Json>)
    ensures FirstSnapshot(c, parse).None? <==> forall i :: 0 <= i < |c| ==> SingleSnapshot(c[i].content, parse).None?
    decreases |c|
  {
    if c != [] {
      FirstSnapshotNone(c[1..], parse);
      if SingleSnapshot(c[0].content, parse).None? {
        forall i | 0 < i < |c| ensures c[i] == c[1..][i - 1] {}
      }
    }
  }

  /** Once a snapshot is found, no older message is consulted. */
  lemma {:induction false} FirstSnapshotIgnoresOlder(c: seq<Message>, older: seq<Message>, parse: string -> Option<Json>)
    requires FirstSnapshot(c, parse).Some?
    ensures FirstSnapshot(c + older, parse) == FirstSnapshot(c, parse)
    decreases |c|
  {
    var co := c + older;
    assert co[0] == c[0];
    if SingleSnapshot(c[0].content, parse).None? {
      assert co[1..] == c[1..] + older;
      assert FirstSnapshot(c, parse) == FirstSnapshot(c[1..], parse);
      FirstSnapshotIgnoresOlder(c[1..], older, parse);
      assert FirstSnapshot(co, parse) == FirstSnapshot(co[1..], parse);
    }
  }

  /** Any single-message snapshot among the candidates wins over every part message, however
      much newer the parts are. */
  lemma SingleSnapshotWins(recent: seq<Message>, me: int, parse: string -> Option<Json>, corrected: bool)
    requires FirstSnapshot(Candidates(recent, me), parse).Some?
    ensures LoadWith(Fetched(recent), me, parse, corrected)
      == DecodeSnapshot(FirstSnapshot(Candidates(recent, me), parse).value.fields)
  {
  }

  /** The three ways to end with nothing: no channel, a failed read, or no candidate that
      yields a snapshot. */
  lemma EmptyWhenNothingDecodes(read: HistoryRead, me: int, parse: string -> Option<Json>)
    requires read.Fetched? ==>
      FirstSnapshot(Candidates(read.recent, me), parse).None? &&
      MultiPartSnapshot(Candidates(read.recent, me), parse, false).None?
    ensures LoadedSnapshot(read, me, parse) == Empty
  {
  }

  // ---------------------------------------------------------------- reassembly

  /** The parts a multi-part save posts: slice i, padded, under number i + 1. */
  function Numbered(frags: seq<string>): (r: seq<(nat, string)>)
    ensures |r| == |frags|
  {
    seq(|frags|, i requires 0 <= i < |frags| => (i + 1, frags[i]))
  }

  /** Each slice as extraction returns it: with the envelope's newline at each end. */
  function Padded(chunks: seq<string>): (r: seq<string>)
    ensures |r| == |chunks|
  {
    seq(|chunks|, i requires 0 <= i < |chunks| => "\n" + chunks[i] + "\n")
  }

  lemma NumberedSorted(frags: seq<string>)
    ensures SortedBy(Numbered(frags), PartNumber) && DistinctKeys(Numbered(frags), PartNumber)
  {
  }

  /** Whatever order the parts were gathered in, they are joined in part-number order. */
  lemma ReassembleAnyOrder(parts: seq<(nat, string)>, frags: seq<string>)
    requires multiset(parts) == multiset(Numbered(frags))
    ensures SortBy(parts, PartNumber) == Numbered(frags)
    ensures Reassemble(parts) == Concat(frags)
    ensures ReassembleUnpadded(parts) == Concat(Unpadded(frags))
  {
    NumberedSorted(frags);
    SortedUnique(Numbered(frags), SortBy(parts, PartNumber), PartNumber);
    assert Fragments(Numbered(frags)) == frags;
  }

  /** Parts with the same number, from different saves, keep their candidate order. */
  lemma EqualNumbersKeepOrder(parts: seq<(nat, string)>, k: nat)
    ensures WithKey(SortBy(parts, PartNumber), PartNumber, k) == WithKey(parts, PartNumber, k)
  {
    SortByStable(parts, PartNumber, k);
  }

  /** A lone part is accepted: its number and the total are not checked. */
  lemma LonePartIsReassembled(p: (nat, string))
    ensures Reassemble([p]) == p.1
  {
    assert SortBy([p], PartNumber) == [p];
    assert Fragments([p]) == [p.1];
    assert [p.1][1..] == [];
    assert Concat([p.1]) == p.1 + Concat([]);
  }

  /** The total in the marker plays no part in what a part message yields. */
  lemma TotalIsIgnored(i: nat, n1: nat, n2: nat, chunk: string)
    ensures PartOf(PartMessage(i, n1, chunk)) == PartOf(PartMessage(i, n2, chunk))
  {
    PartOfPartMessage(i, n1, chunk);
    PartOfPartMessage(i, n2, chunk);
  }

  /** The messages of one multi-part save, read in the order posted, yield parts 1..n with the
      padded slices. */
  lemma {:induction false} GatherPosted(posted: seq<Message>, chunks: seq<string>)
    requires |posted| == |chunks| + 1 && posted[0].content == ""
    requires forall k :: 0 <= k < |chunks| ==> posted[k + 1].content == PartMessage(k, |chunks|, chunks[k])
    ensures GatherParts(posted) == Numbered(Padded(chunks))
  {
    GatherPrefix(posted, chunks, |chunks|);
    assert posted[..|chunks| + 1] == posted;
    assert Numbered(Padded(chunks))[..|chunks|] == Numbered(Padded(chunks));
  }

  lemma {:induction false} GatherPrefix(posted: seq<Message>, chunks: seq<string>, n: nat)
    requires |posted| == |chunks| + 1 && posted[0].content == ""
    requires forall k :: 0 <= k < |chunks| ==> posted[k + 1].content == PartMessage(k, |chunks|, chunks[k])
    requires n <= |chunks|
    ensures GatherParts(posted[..n + 1]) == Numbered(Padded(chunks))[..n]
  {
    if n == 0 {
      EmptyMessageIsIgnored();
      FilterMapSingle(posted[0], PartOfMessage);
      assert posted[..1] == [posted[0]];
    } else {
      GatherPrefix(posted, chunks, n - 1);
      var ms := posted[..n + 1];
      assert ms[..n] == posted[..n];
      assert ms[n].content == PartMessage(n - 1, |chunks|, chunks[n - 1]);
      GatherStep(ms, chunks, n);
    }
  }

  lemma GatherStep(ms: seq<Message>, chunks: seq<string>, n: nat)
    requires 0 < n <= |chunks| && |ms| == n + 1
    requires ms[n].content == PartMessage(n - 1, |chunks|, chunks[n - 1])
    requires GatherParts(ms[..n]) == Numbered(Padded(chunks))[..n - 1]
    ensures GatherParts(ms) == Numbered(Padded(chunks))[..n]
  {
    var p := (n, "\n" + chunks[n - 1] + "\n");
    assert PartOfMessage(ms[n]) == Some(p) by {
      PartOfPartMessage(n - 1, |chunks|, chunks[n - 1]);
    }
    assert GatherParts(ms) == GatherParts(ms[..n]) + [p] by {
      assert ms[..|ms| - 1] == ms[..n];
    }
    NumberedPrefix(chunks, n);
  }

  lemma NumberedPrefix(chunks: seq<string>, n: nat)
    requires 0 < n <= |chunks|
    ensures Numbered(Padded(chunks))[..n] == Numbered(Padded(chunks))[..n - 1] + [(n, "\n" + chunks[n - 1] + "\n")]
  {
  }

  // ---------------------------------------------------------------- the padding (as written)

  lemma {:induction false} PaddedLength(chunks: seq<string>)
    ensures |Concat(Padded(chunks))| == |Concat(chunks)| + 2 * |chunks|
    decreases |chunks|
  {
    if chunks != [] {
      PaddedLength(chunks[1..]);
      assert Padded(chunks)[1..] == Padded(chunks[1..]);
    }
  }

  /** As written, a multi-part save does not read back as the document it saved: every slice
      comes back with a newline added at each end. */
  lemma PaddedRejoinIsNotTheDocument(doc: string)
    requires |doc| > ChunkSize
    ensures |Concat(Padded(Chunks(doc)))| == |doc| + 2 * |Chunks(doc)|
    ensures Concat(Padded(Chunks(doc))) != doc
  {
    ChunkProperties(doc);
    PaddedLength(Chunks(doc));
  }

  lemma UnpadPadded(chunks: seq<string>)
    ensures Unpadded(Padded(chunks)) == chunks
  {
    forall i | 0 <= i < |chunks| ensures Unpad("\n" + chunks[i] + "\n") == chunks[i] {
      var f := "\n" + chunks[i] + "\n";
      assert f[1..|f| - 1] == chunks[i];
    }
  }

  /** Without the padding, the rejoined parts of a save are exactly the saved document. */
  lemma UnpaddedRejoinIsTheDocument(doc: string, parts: seq<(nat, string)>)
    requires |doc| > ChunkSize
    requires multiset(parts) == multiset(Numbered(Padded(Chunks(doc))))
    ensures ReassembleUnpadded(parts) == doc
  {
    ReassembleAnyOrder(parts, Padded(Chunks(doc)));
    UnpadPadded(Chunks(doc));
    ChunksConcat(doc);
  }

  // ---------------------------------------------------------------- save, then load

  /** The snapshot a parse result stands for, or the empty state. */
  function SnapshotOrEmpty(p: Option<Json>): Snapshot {
    match p
    case Some(d) => if IsSnapshot(d) then DecodeSnapshot(d.fields) else Empty
    case None => Empty
  }

  /** The last 50 messages after `posted` went out: the posted messages newest first, then
      the newest of what was there before. */
  lemma RecentAfterPosting(log: seq<Message>, posted: seq<Message>)
    requires |posted| <= HistoryLimit
    ensures RecentHistory(log + posted)
      == Reverse(posted) + RecentHistory(log)[..Min(HistoryLimit - |posted|, |log|)]
  {
    var w := RecentHistory(log + posted);
    var x := RecentHistory(log)[..Min(HistoryLimit - |posted|, |log|)];
    assert |w| == |Reverse(posted) + x|;
    forall i | 0 <= i < |w| ensures w[i] == (Reverse(posted) + x)[i] {
      if i >= |posted| {
        assert w[i] == log[|log| - 1 - (i - |posted|)];
      }
    }
  }

  lemma RecentIsFromLog(log: seq<Message>, m: Message)
    requires m in RecentHistory(log)
    ensures m in log
  {
    var i :| 0 <= i < |RecentHistory(log)| && RecentHistory(log)[i] == m;
    assert log[|log| - 1 - i] == m;
  }

  /** A single-message snapshot reads back as what was parsed from the document. */
  lemma SingleMessageHolds(doc: string, parse: string -> Option<Json>, d: Json)
    requires doc != [] && Trimmed(doc)
    requires parse(doc) == Some(d) && IsSnapshot(d)
    ensures SingleSnapshot(SingleMessage(doc), parse) == Some(d)
  {
    SingleMessageRoundTrip(doc);
  }

  /** A message newer than everything before it is the first candidate. */
  lemma NewestIsFirstCandidate(log: seq<Message>, latest: Message, me: int)
    requires latest.author == me
    requires forall m :: m in log ==> m.createdAt < latest.createdAt
    ensures var c := Candidates(RecentHistory(log + [latest]), me); c != [] && c[0] == latest
  {
    var x := RecentHistory(log)[..Min(HistoryLimit - 1, |log|)];
    var own := OwnMessages(RecentHistory(log + [latest]), me);
    assert own == [latest] + OwnMessages(x, me) by {
      RecentAfterPosting(log, [latest]);
      assert Reverse([latest]) == [latest];
      FilterMapConcat([latest], x, Mine(me));
      FilterMapSingle(latest, Mine(me));
    }
    forall y | y in own && y != latest ensures NewestFirst(latest) < NewestFirst(y) {
      EarlierOwn(log, HistoryLimit - 1, me, y);
    }
    SortedLeastFirst(Candidates(RecentHistory(log + [latest]), me), own, NewestFirst, latest);
  }

  /** A save of a short document, newer than every message already in the channel, is what
      the next load restores: the three maps come back exactly. */
  lemma SaveThenLoadSingle(log: seq<Message>, me: int, t: int, doc: string, parse: string -> Option<Json>,
                           s: Snapshot, o: KeyOrder, metadata: Json)
    requires 0 < |doc| <= ChunkSize && Trimmed(doc)
    requires Describes(o, s) && parse(doc) == Some(JObj(Serialised(s, o, metadata)))
    requires forall m :: m in log ==> m.createdAt < t
    ensures SaveMessages(doc) == [SingleMessage(doc)]
    ensures LoadedSnapshot(Fetched(RecentHistory(log + [Message(me, t, SingleMessage(doc))])), me, parse) == s
  {
    var latest := Message(me, t, SingleMessage(doc));
    var c := Candidates(RecentHistory(log + [latest]), me);
    DecodeSerialised(s, o, metadata);
    SingleMessageHolds(doc, parse, JObj(Serialised(s, o, metadata)));
    NewestIsFirstCandidate(log, latest, me);
    FirstSnapshotAt(c, parse, 0);
  }

  /** The messages a save posted, as read back: the bot wrote them, with the texts of
      `SaveMessages` in order. */
  predicate PostedSave(posted: seq<Message>, me: int, doc: string) {
    && |posted| == |SaveMessages(doc)|
    && forall k :: 0 <= k < |posted| ==> posted[k].author == me && posted[k].content == SaveMessages(doc)[k]
  }

  /** The bot's earlier messages in the channel hold neither a snapshot nor a part. */
  predicate QuietBefore(log: seq<Message>, me: int, parse: string -> Option<Json>) {
    forall m :: m in log && m.author == me ==> SingleSnapshot(m.content, parse).None? && PartOf(m.content).None?
  }

  lemma PostedHoldsNoSingle(posted: seq<Message>, me: int, doc: string, parse: string -> Option<Json>, m: Message)
    requires |doc| > ChunkSize && PostedSave(posted, me, doc) && m in posted
    ensures SingleSnapshot(m.content, parse).None?
  {
    var k :| 0 <= k < |posted| && posted[k] == m;
    if k > 0 {
      var cs := Chunks(doc);
      assert m.content == PartMessage(k - 1, |cs|, cs[k - 1]);
      PartMessageIsNotSingle(k - 1, |cs|, cs[k - 1]);
    }
  }

  lemma PostedParts(posted: seq<Message>, me: int, doc: string)
    requires |doc| > ChunkSize && PostedSave(posted, me, doc)
    ensures GatherParts(posted) == Numbered(Padded(Chunks(doc)))
  {
    var cs := Chunks(doc);
    forall k | 0 <= k < |cs| ensures posted[k + 1].content == PartMessage(k, |cs|, cs[k]) {
      assert SaveMessages(doc)[k + 1] == PartMessages(cs)[k];
    }
    GatherPosted(posted, cs);
  }

  /** The bot's own messages in the window after a multi-part save. */
  lemma OwnAfterPosting(log: seq<Message>, posted: seq<Message>, me: int, doc: string)
    requires |posted| <= HistoryLimit && PostedSave(posted, me, doc)
    ensures OwnMessages(RecentHistory(log + posted), me)
      == Reverse(posted) + OwnMessages(RecentHistory(log)[..Min(HistoryLimit - |posted|, |log|)], me)
  {
    RecentAfterPosting(log, posted);
    var x := RecentHistory(log)[..Min(HistoryLimit - |posted|, |log|)];
    FilterMapConcat(Reverse(posted), x, Mine(me));
    FilterMapKeepsAll(Reverse(posted), Mine(me));
  }

  /** An own message from before the save, still in the window. */
  lemma EarlierOwn(log: seq<Message>, n: nat, me: int, y: Message)
    requires n <= HistoryLimit
    requires y in OwnMessages(RecentHistory(log)[..Min(n, |log|)], me)
    ensures y in log && y.author == me
  {
    var x := RecentHistory(log)[..Min(n, |log|)];
    FilterMapFrom(x, Mine(me), y);
    var z :| z in x && Mine(me)(z) == Some(y);
    assert z in RecentHistory(log);
    RecentIsFromLog(log, z);
  }

  lemma OwnHoldsNoSingle(log: seq<Message>, posted: seq<Message>, me: int, doc: string, parse: string -> Option<Json>, y: Message)
    requires |doc| > ChunkSize && |posted| <= HistoryLimit && PostedSave(posted, me, doc)
    requires QuietBefore(log, me, parse)
    requires y in OwnMessages(RecentHistory(log + posted), me)
    ensures SingleSnapshot(y.content, parse).None?
  {
    OwnAfterPosting(log, posted, me, doc);
    if y in Reverse(posted) {
      var i :| 0 <= i < |posted| && Reverse(posted)[i] == y;
      assert y in posted;
      PostedHoldsNoSingle(posted, me, doc, parse, y);
    } else {
      EarlierOwn(log, HistoryLimit - |posted|, me, y);
    }
  }

  lemma NoSingleAfterParts(log: seq<Message>, posted: seq<Message>, me: int, doc: string, parse: string -> Option<Json>)
    requires |doc| > ChunkSize && |posted| <= HistoryLimit && PostedSave(posted, me, doc)
    requires QuietBefore(log, me, parse)
    ensures FirstSnapshot(Candidates(RecentHistory(log + posted), me), parse).None?
  {
    var own := OwnMessages(RecentHistory(log + posted), me);
    var c := Candidates(RecentHistory(log + posted), me);
    forall i | 0 <= i < |c| ensures SingleSnapshot(c[i].content, parse).None? {
      assert c[i] in multiset(own);
      OwnHoldsNoSingle(log, posted, me, doc, parse, c[i]);
    }
    FirstSnapshotNone(c, parse);
  }

  lemma EarlierHoldsNoParts(log: seq<Message>, n: nat, me: int, parse: string -> Option<Json>)
    requires n <= HistoryLimit && QuietBefore(log, me, parse)
    ensures GatherParts(OwnMessages(RecentHistory(log)[..Min(n, |log|)], me)) == []
  {
    var earlier := OwnMessages(RecentHistory(log)[..Min(n, |log|)], me);
    forall i | 0 <= i < |earlier| ensures PartOfMessage(earlier[i]).None? {
      EarlierOwn(log, n, me, earlier[i]);
    }
    FilterMapDropsAll(earlier, PartOfMessage);
  }

  /** After a save, the parts among the bot's messages are those of the posted messages. */
  lemma OwnPartsArePosted(log: seq<Message>, posted: seq<Message>, me: int, doc: string, parse: string -> Option<Json>)
    requires |doc| > ChunkSize && |posted| <= HistoryLimit && PostedSave(posted, me, doc)
    requires QuietBefore(log, me, parse)
    ensures GatherParts(OwnMessages(RecentHistory(log + posted), me)) == GatherParts(Reverse(posted))
  {
    var n := HistoryLimit - |posted|;
    var earlier := OwnMessages(RecentHistory(log)[..Min(n, |log|)], me);
    EarlierHoldsNoParts(log, n, me, parse);
    OwnAfterPosting(log, posted, me, doc);
    FilterMapConcat(Reverse(posted), earlier, PartOfMessage);
    assert GatherParts(Reverse(posted)) + [] == GatherParts(Reverse(posted));
  }

  lemma PartsAfterSave(log: seq<Message>, posted: seq<Message>, me: int, doc: string, parse: string -> Option<Json>)
    requires |doc| > ChunkSize && |posted| <= HistoryLimit && PostedSave(posted, me, doc)
    requires QuietBefore(log, me, parse)
    ensures multiset(GatherParts(Candidates(RecentHistory(log + posted), me))) == multiset(Numbered(Padded(Chunks(doc))))
  {
    var c := Candidates(RecentHistory(log + posted), me);
    var own := OwnMessages(RecentHistory(log + posted), me);
    assert multiset(GatherParts(c)) == multiset(GatherParts(own)) by {
      FilterMapPermutation(c, own, PartOfMessage);
    }
    OwnPartsArePosted(log, posted, me, doc, parse);
    assert multiset(GatherParts(Reverse(posted))) == multiset(GatherParts(posted)) by {
      ReverseMultiset(posted);
      FilterMapPermutation(Reverse(posted), posted, PartOfMessage);
    }
    PostedParts(posted, me, doc);
  }

  /** A multi-part save, read back with the bot's earlier messages holding nothing loadable,
      is parsed from the slices rejoined in part-number order WITH a newline added at both
      ends of each slice; with the padding taken off, the maps come back exactly. */
  lemma SaveThenLoadParts(log: seq<Message>, posted: seq<Message>, me: int, doc: string, parse: string -> Option<Json>,
                          s: Snapshot, o: KeyOrder, metadata: Json)
    requires |doc| > ChunkSize && |posted| <= HistoryLimit && PostedSave(posted, me, doc)
    requires QuietBefore(log, me, parse)
    requires Describes(o, s) && parse(doc) == Some(JObj(Serialised(s, o, metadata)))
    ensures LoadedSnapshot(Fetched(RecentHistory(log + posted)), me, parse)
      == SnapshotOrEmpty(parse(Concat(Padded(Chunks(doc)))))
    ensures LoadedSnapshotCorrected(Fetched(RecentHistory(log + posted)), me, parse) == s
  {
    var recent := RecentHistory(log + posted);
    var parts := GatherParts(Candidates(recent, me));
    var frags := Padded(Chunks(doc));
    NoSingleAfterParts(log, posted, me, doc, parse);
    assert Reassemble(parts) == Concat(frags) && ReassembleUnpadded(parts) == Concat(Unpadded(frags)) && parts != [] by {
      PartsAfterSave(log, posted, me, doc, parse);
      ChunkProperties(doc);
      assert |multiset(parts)| == |Chunks(doc)|;
      ReassembleAnyOrder(parts, frags);
    }
    LoadFromParts(recent, me, parse, false, Concat(frags));
    assert Concat(Unpadded(frags)) == doc by {
      UnpadPadded(Chunks(doc));
      ChunkProperties(doc);
    }
    LoadFromParts(recent, me, parse, true, doc);
    DecodeSerialised(s, o, metadata);
  }

  /** With no single-message snapshot among the candidates and some part messages, the loader
      decodes whatever their rejoined text parses to. */
  lemma LoadFromParts(recent: seq<Message>, me: int, parse: string -> Option<Json>, corrected: bool, text: string)
    requires FirstSnapshot(Candidates(recent, me), parse).None?
    requires GatherParts(Candidates(recent, me)) != []
    requires (if corrected then ReassembleUnpadded(GatherParts(Candidates(recent, me)))
              else Reassemble(GatherParts(Candidates(recent, me)))) == text
    ensures LoadWith(Fetched(recent), me, parse, corrected) == SnapshotOrEmpty(parse(text))
  {
  }
}
