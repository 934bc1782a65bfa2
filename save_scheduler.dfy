/** `batch_save_database` (main.py:102-114): a request sets the pending flag unless it is set
    already, sleeps, and then saves only if the last save is at least 30 seconds old; the flag
    is cleared whether or not a save ran.  The sleep is the point where other requests
    interleave, so a request and the wake-up after its sleep are two separate steps here. */
module SaveScheduler {
  import opened Envelope

  /** main.py:110: the least number of seconds between the end of one save and the next. */
  const SaveInterval := 30

  /** `pending_database_save`, `last_database_save` (main.py:42-43), and every message the saves
      have posted to the database channel. */
  datatype Saver = Saver(pending: bool, lastSave: int, posted: seq<string>)

  /** The messages of one save (main.py:317-347) that reached the channel: `save_database` stops
      at the first send that fails and posts nothing when the channel is missing. */
  function Delivered(doc: string, delivered: nat): (r: seq<string>)
    ensures |r| <= |SaveMessages(doc)|
    ensures delivered >= |SaveMessages(doc)| ==> r == SaveMessages(doc)
  {
    var msgs := SaveMessages(doc);
    msgs[..if delivered < |msgs| then delivered else |msgs|]
  }

  /** A request (main.py:106-107): the new state and whether it started a task. */
  function Requested(s: Saver): (Saver, bool) {
    if s.pending then (s, false) else (s.(pending := true), true)
  }

  /** Whether the pending save waking at `now` saves (main.py:110). */
  predicate Saves(s: Saver, now: int) {
    s.pending && now - s.lastSave >= SaveInterval
  }

  /** The pending save waking at `now`, saving `doc` (main.py:110-114); `finishedAt` is
      the clock read once the save is over.  With no task asleep nothing happens. */
  function Woken(s: Saver, now: int, doc: string, delivered: nat, finishedAt: int): (r: Saver)
    ensures !r.pending
    ensures Saves(s, now) ==> r.lastSave == finishedAt && r.posted == s.posted + Delivered(doc, delivered)
    ensures !Saves(s, now) ==> r.lastSave == s.lastSave && r.posted == s.posted
  {
    if !s.pending then s
    else if now - s.lastSave >= SaveInterval then Saver(false, finishedAt, s.posted + Delivered(doc, delivered))
    else s.(pending := false)
  }

  datatype Event = Request | Wake(now: int, doc: string, delivered: nat, finishedAt: int)

  /** A run of requests and wake-ups: the final state and, for every save that ran, its start
      and finish times. */
  function Run(s: Saver, events: seq<Event>): (Saver, seq<(int, int)>)
    decreases |events|
  {
    if events == [] then (s, [])
    else
      var prev := Run(s, events[..|events| - 1]);
      match events[|events| - 1]
      case Request => (Requested(prev.0).0, prev.1)
      case Wake(now, doc, delivered, finishedAt) =>
        (Woken(prev.0, now, doc, delivered, finishedAt),
         if Saves(prev.0, now) then prev.1 + [(now, finishedAt)] else prev.1)
  }

  /** A request made while a save is pending changes nothing and starts nothing. */
  lemma RequestWhilePending(s: Saver)
    requires s.pending
    ensures Requested(s) == (s, false)
  {
  }

  /** A request otherwise sets only the flag. */
  lemma RequestWhenIdle(s: Saver)
    requires !s.pending
    ensures Requested(s).1 && Requested(s).0.pending
    ensures Requested(s).0.lastSave == s.lastSave && Requested(s).0.posted == s.posted
  {
  }

  function Requests(k: nat): (r: seq<Event>)
    ensures |r| == k && forall i :: 0 <= i < k ==> r[i] == Request
  {
    seq(k, _ => Request)
  }

  /** Any number of requests in a row starts one task and saves nothing. */
  lemma {:induction false} RequestsCoalesce(s: Saver, k: nat)
    requires k > 0 && !s.pending
    ensures Run(s, Requests(k)) == (s.(pending := true), [])
  {
    if k > 1 {
      RequestsCoalesce(s, k - 1);
      assert Requests(k)[..k - 1] == Requests(k - 1);
    } else {
      assert Requests(1)[..0] == [];
    }
  }

  /** A burst of requests followed by the one wake-up writes at most one save, and exactly one
      when the last save is old enough. */
  lemma BurstSavesOnce(s: Saver, k: nat, now: int, doc: string, delivered: nat, finishedAt: int)
    requires k > 0 && !s.pending
    ensures var r := Run(s, Requests(k) + [Wake(now, doc, delivered, finishedAt)]);
      && !r.0.pending
      && (now - s.lastSave >= SaveInterval ==> r.1 == [(now, finishedAt)] && r.0.posted == s.posted + Delivered(doc, delivered))
      && (now - s.lastSave < SaveInterval ==> r.1 == [] && r.0.posted == s.posted && r.0.lastSave == s.lastSave)
  {
    var events := Requests(k) + [Wake(now, doc, delivered, finishedAt)];
    assert events[..|events| - 1] == Requests(k);
    RequestsCoalesce(s, k);
  }

  /** `last_database_save` is the finish time of the latest save, or the start value if none ran. */
  lemma {:induction false} LastSaveIsLatestFinish(s: Saver, events: seq<Event>)
    ensures var r := Run(s, events);
      r.0.lastSave == if r.1 == [] then s.lastSave else r.1[|r.1| - 1].1
    decreases |events|
  {
    if events != [] {
      LastSaveIsLatestFinish(s, events[..|events| - 1]);
    }
  }

  /** Every save starts at least 30 seconds after the previous one finished, and the first at
      least 30 seconds after the initial `last_database_save`. */
  lemma {:induction false} SavesAreSpaced(s: Saver, events: seq<Event>)
    ensures var saves := Run(s, events).1;
      && (saves != [] ==> saves[0].0 >= s.lastSave + SaveInterval)
      && (forall i :: 0 < i < |saves| ==> saves[i].0 >= saves[i - 1].1 + SaveInterval)
    decreases |events|
  {
    if events != [] {
      var init := events[..|events| - 1];
      SavesAreSpaced(s, init);
      LastSaveIsLatestFinish(s, init);
    }
  }

  /** The scheduler's two module-level globals and the channel it writes to. */
  class Scheduler {
    var pending: bool
    var lastSave: int
    var posted: seq<string>

    function State(): Saver
      reads this
    {
      Saver(pending, lastSave, posted)
    }

    /** Import time (main.py:42-43): nothing pending, last save "now". */
    constructor (start: int)
      ensures State() == Saver(false, start, [])
    {
      pending, lastSave, posted := false, start, [];
    }

    /** `batch_save_database` up to its sleep (main.py:106-108). */
    method RequestSave() returns (started: bool)
      modifies this
      ensures (State(), started) == Requested(old(State()))
    {
      if !pending {
        pending := true;
        started := true;
      } else {
        started := false;
      }
    }

    /** `batch_save_database` after its sleep (main.py:110-114). */
    method WakeAndSave(now: int, doc: string, delivered: nat, finishedAt: int)
      modifies this
      ensures State() == Woken(old(State()), now, doc, delivered, finishedAt)
    {
      if !pending {
        return;
      }
      if now - lastSave >= SaveInterval {
        posted := posted + Delivered(doc, delivered);
        lastSave := finishedAt;
      }
      pending := false;
    }
  }
}
