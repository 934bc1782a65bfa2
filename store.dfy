/** The in-memory moderation store of main.py: three module-level dicts (main.py:39-41), the
    helpers that update them (main.py:45-65, 1035-1037, 1062-1065), `load_database` filling
    them from the database channel (main.py:116-291) and the temporary-ban sweep that marks
    expired bans as lifted (main.py:1080-1138). */
module Store {
  import opened Wrappers
  import opened Text
  import opened JsonValue
  import opened Lists
  import opened Sorting
  import opened Envelope
  import opened SnapshotCodec
  import opened Reconstruct

  // ---------------------------------------------------------------- the state changes, as values

  /** A server's users, `{}` for an unknown server. */
  function UsersOf(w: map<int, map<int, seq<Json>>>, server: int): map<int, seq<Json>> {
    if server in w then w[server] else map[]
  }

  /** A user's warnings, `[]` when there is no entry. */
  function WarningsOf(w: map<int, map<int, seq<Json>>>, server: int, user: int): seq<Json> {
    if user in UsersOf(w, server) then UsersOf(w, server)[user] else []
  }

  function PunishmentsOf(p: map<int, seq<Json>>, server: int): seq<Json> {
    if server in p then p[server] else []
  }

  function SettingsOf(st: map<int, seq<(string, Json)>>, server: int): seq<(string, Json)> {
    if server in st then st[server] else []
  }

  /** The dict after `get_user_warnings` (main.py:47-50): both levels created when missing. */
  function WithUserEntry(w: map<int, map<int, seq<Json>>>, server: int, user: int): map<int, map<int, seq<Json>>> {
    w[server := UsersOf(w, server)[user := WarningsOf(w, server, user)]]
  }

  /** The dict after `add_warning` (main.py:55-59). */
  function WithWarning(w: map<int, map<int, seq<Json>>>, server: int, user: int, record: Json): map<int, map<int, seq<Json>>> {
    w[server := UsersOf(w, server)[user := WarningsOf(w, server, user) + [record]]]
  }

  /** The dict after `add_punishment` (main.py:63-65). */
  function WithPunishment(p: map<int, seq<Json>>, server: int, record: Json): map<int, seq<Json>> {
    p[server := PunishmentsOf(p, server) + [record]]
  }

  /** The dict after `/clearwarnings` (main.py:1035-1037): the user's entry is deleted; nothing
      happens when there is none. */
  function WithoutUser(w: map<int, map<int, seq<Json>>>, server: int, user: int): map<int, map<int, seq<Json>>> {
    if server in w && user in w[server] then w[server := w[server] - {user}] else w
  }

  /** The dict after `/setlogchannel` (main.py:1062-1065). */
  function WithLogChannel(st: map<int, seq<(string, Json)>>, server: int, channel: int): map<int, seq<(string, Json)>> {
    st[server := SetField(SettingsOf(st, server), "log_channel_id", JNum(channel))]
  }

  /** Creating the entries adds no warning anywhere. */
  lemma UserEntryChangesNoWarnings(w: map<int, map<int, seq<Json>>>, server: int, user: int)
    ensures var w' := WithUserEntry(w, server, user);
      && server in w' && user in w'[server]
      && forall s, u :: WarningsOf(w', s, u) == WarningsOf(w, s, u)
  {
  }

  /** A warning goes at the end of that user's list; every other list is unchanged. */
  lemma WarningAppended(w: map<int, map<int, seq<Json>>>, server: int, user: int, record: Json)
    ensures var w' := WithWarning(w, server, user, record);
      && WarningsOf(w', server, user) == WarningsOf(w, server, user) + [record]
      && (forall s, u :: (s, u) != (server, user) ==> WarningsOf(w', s, u) == WarningsOf(w, s, u))
      && w'.Keys == w.Keys + {server}
  {
  }

  /** A punishment goes at the end of that server's list; every other list is unchanged. */
  lemma PunishmentAppended(p: map<int, seq<Json>>, server: int, record: Json)
    ensures var p' := WithPunishment(p, server, record);
      && PunishmentsOf(p', server) == PunishmentsOf(p, server) + [record]
      && (forall s :: s != server ==> PunishmentsOf(p', s) == PunishmentsOf(p, s))
  {
  }

  /** Clearing removes that user's entry only; a later lookup finds an empty list. */
  lemma ClearRemovesOnlyThatUser(w: map<int, map<int, seq<Json>>>, server: int, user: int)
    ensures var w' := WithoutUser(w, server, user);
      && user !in UsersOf(w', server)
      && WarningsOf(w', server, user) == []
      && (forall s, u :: (s, u) != (server, user) ==> WarningsOf(w', s, u) == WarningsOf(w, s, u))
      && w'.Keys == w.Keys
  {
  }

  /** Setting the log channel sets that one key of that one server. */
  lemma LogChannelSet(st: map<int, seq<(string, Json)>>, server: int, channel: int)
    ensures var st' := WithLogChannel(st, server, channel);
      && Get(SettingsOf(st', server), "log_channel_id") == Some(JNum(channel))
      && (forall k :: k != "log_channel_id" ==> Get(SettingsOf(st', server), k) == Get(SettingsOf(st, server), k))
      && (forall s :: s != server ==> SettingsOf(st', s) == SettingsOf(st, s))
  {
  }

  // ---------------------------------------------------------------- the temporary-ban sweep, as values

  /** What `datetime.fromisoformat` makes of an "expires_at" text: an instant (in seconds), a
      text it rejects (`ValueError`), or a time without a timezone, which cannot be compared
      with the aware `now` (`TypeError`). */
  datatype Expiry = Instant(at: int) | Malformed | Naive

  /** How `guild.unban` ended: done, `NotFound`, `Forbidden`, another `HTTPException`, or an
      exception none of the handlers catch. */
  datatype UnbanOutcome = Unbanned | NotFound | Forbidden | HttpError | Crashed

  /** What the sweep does with one punishment record. */
  datatype Verdict = Skip | Resolve(requestSave: bool) | Abort

  predicate MarkedUnbanned(fields: seq<(string, Json)>) {
    match Get(fields, "unbanned")
    case Some(v) => Truthy(v)
    case None => false
  }

  /** main.py:1090-1136 for one record.  A record that is not an object, an "expires_at" that
      is not a string, a naive time and an unexpected exception from `unban` end the sweep. */
  function VerdictOf(record: Json, now: int, expiry: string -> Expiry, unban: (int, Json) -> UnbanOutcome, guild: int): Verdict {
    if !record.JObj? then Abort
    else
      var f := record.fields;
      if Get(f, "type") != Some(JStr("ban")) || !HasKey(f, "expires_at") || MarkedUnbanned(f) then Skip
      else
        match Get(f, "expires_at").value
        case JStr(text) =>
          (match expiry(text)
           case Malformed => Skip
           case Naive => Abort
           case Instant(at) =>
             if now < at then Skip
             else
               match Get(f, "user_id")
               case None => Skip
               case Some(id) =>
                 match unban(guild, id)
                 case Unbanned => Resolve(true)
                 case NotFound => Resolve(false)
                 case Forbidden => Skip
                 case HttpError => Skip
                 case Crashed => Abort)
        case _ => Abort
  }

  /** The verdicts of one sweep, for every server and record. */
  function Judge(now: int, expiry: string -> Expiry, unban: (int, Json) -> UnbanOutcome): (int, Json) -> Verdict {
    (guild: int, record: Json) => VerdictOf(record, now, expiry, unban, guild)
  }

  /** The record with "unbanned" set to true and "unbanned_at" to the time of the sweep. */
  function Resolved(record: Json, nowText: string): Json {
    if record.JObj? then JObj(SetField(SetField(record.fields, "unbanned", JBool(true)), "unbanned_at", JStr(nowText)))
    else record
  }

  /** The sweep of one server's list up to record `n`: the records so far, the number of saves
      requested, and whether the sweep has ended. */
  function SweepRecords(recs: seq<Json>, n: nat, judge: (int, Json) -> Verdict, nowText: string, guild: int): (r: (seq<Json>, nat, bool))
    requires n <= |recs|
    ensures |r.0| == |recs|
  {
    if n == 0 then (recs, 0, false)
    else SweepRecordStep(SweepRecords(recs, n - 1, judge, nowText, guild), recs[n - 1], n - 1, judge, nowText, guild)
  }

  /** Record `k`'s turn: it is judged unless the sweep has ended, and marked when resolved. */
  function SweepRecordStep(prev: (seq<Json>, nat, bool), record: Json, k: nat, judge: (int, Json) -> Verdict, nowText: string, guild: int): (r: (seq<Json>, nat, bool))
    requires k < |prev.0|
    ensures |r.0| == |prev.0|
  {
    if prev.2 then prev
    else
      match judge(guild, record)
      case Skip => prev
      case Abort => (prev.0, prev.1, true)
      case Resolve(save) => (prev.0[k := Resolved(record, nowText)], prev.1 + (if save then 1 else 0), false)
  }

  /** The sweep over the servers in `order` (main.py:1085-1089): servers the bot is no longer
      in are passed over. */
  function SweepServers(p: map<int, seq<Json>>, order: seq<int>, judge: (int, Json) -> Verdict, nowText: string, guilds: set<int>): (map<int, seq<Json>>, nat, bool)
    decreases |order|
  {
    if order == [] then (p, 0, false)
    else SweepServerStep(SweepServers(p, order[..|order| - 1], judge, nowText, guilds), order[|order| - 1], judge, nowText, guilds)
  }

  /** Server `g`'s turn in the sweep: its list is swept unless the sweep has ended or the
      server is gone. */
  function SweepServerStep(prev: (map<int, seq<Json>>, nat, bool), g: int, judge: (int, Json) -> Verdict, nowText: string, guilds: set<int>): (map<int, seq<Json>>, nat, bool) {
    if prev.2 || g !in prev.0 || g !in guilds then prev
    else
      var done := SweepRecords(prev.0[g], |prev.0[g]|, judge, nowText, g);
      (prev.0[g := done.0], prev.1 + done.1, done.2)
  }

  /** One more server in the order: the sweep so far, then that server's turn. */
  lemma SweepServersSnoc(p: map<int, seq<Json>>, order: seq<int>, g: int, judge: (int, Json) -> Verdict, nowText: string, guilds: set<int>)
    ensures SweepServers(p, order + [g], judge, nowText, guilds) ==
      SweepServerStep(SweepServers(p, order, judge, nowText, guilds), g, judge, nowText, guilds)
  {
    assert (order + [g])[..|order|] == order;
  }

  /** The sweep keeps the set of servers with punishments, and leaves alone the list of every
      server the bot is no longer in or that the order does not name. */
  lemma {:induction false} SweepKeepsServers(p: map<int, seq<Json>>, order: seq<int>, judge: (int, Json) -> Verdict, nowText: string, guilds: set<int>)
    ensures var r := SweepServers(p, order, judge, nowText, guilds).0;
      && r.Keys == p.Keys
      && forall g :: g in p && (g !in guilds || g !in order) ==> r[g] == p[g]
    decreases |order|
  {
    if order != [] {
      var init := order[..|order| - 1];
      SweepKeepsServers(p, init, judge, nowText, guilds);
      assert order == init + [order[|order| - 1]];
      SweepServersSnoc(p, init, order[|order| - 1], judge, nowText, guilds);
    }
  }

  /** Only bans that have expired are lifted, and a record once marked is left alone by every
      later sweep. */
  lemma OnlyExpiredBansResolve(record: Json, now: int, expiry: string -> Expiry, unban: (int, Json) -> UnbanOutcome, guild: int)
    requires VerdictOf(record, now, expiry, unban, guild).Resolve?
    ensures record.JObj? && Get(record.fields, "type") == Some(JStr("ban"))
    ensures !MarkedUnbanned(record.fields)
    ensures exists text :: Get(record.fields, "expires_at") == Some(JStr(text)) && expiry(text).Instant? && expiry(text).at <= now
  {
    var text := Get(record.fields, "expires_at").value.s;
    assert Get(record.fields, "expires_at") == Some(JStr(text));
  }

  lemma ResolvedStaysResolved(record: Json, nowText: string, now: int, expiry: string -> Expiry,
                              unban: (int, Json) -> UnbanOutcome, guild: int)
    requires record.JObj?
    ensures var r := Resolved(record, nowText);
      && r.JObj?
      && Get(r.fields, "unbanned") == Some(JBool(true))
      && Get(r.fields, "unbanned_at") == Some(JStr(nowText))
      && (forall k :: k != "unbanned" && k != "unbanned_at" ==> Get(r.fields, k) == Get(record.fields, k))
    ensures VerdictOf(Resolved(record, nowText), now, expiry, unban, guild) == Skip
  {
    assert MarkedUnbanned(Resolved(record, nowText).fields);
  }

  /** The records a sweep has not reached, or reached after it ended, are unchanged; the ones it
      changed were resolved. */
  lemma {:induction false} SweepRecordsChanges(recs: seq<Json>, n: nat, judge: (int, Json) -> Verdict, nowText: string, guild: int, i: nat)
    requires n <= |recs| && i < |recs|
    ensures var r := SweepRecords(recs, n, judge, nowText, guild).0;
      r[i] == recs[i] ||
      (i < n && judge(guild, recs[i]).Resolve? && r[i] == Resolved(recs[i], nowText))
    decreases n
  {
    if n > 0 {
      SweepRecordsChanges(recs, n - 1, judge, nowText, guild, i);
      var prev := SweepRecords(recs, n - 1, judge, nowText, guild);
      var r := SweepRecords(recs, n, judge, nowText, guild);
      if prev.2 || !judge(guild, recs[n - 1]).Resolve? {
        assert r.0 == prev.0;
      } else {
        assert r.0 == prev.0[n - 1 := Resolved(recs[n - 1], nowText)];
      }
    }
  }

  // ---------------------------------------------------------------- the store

  class ModerationState {
    var warnings: map<int, map<int, seq<Json>>>
    var punishments: map<int, seq<Json>>
    var serverSettings: map<int, seq<(string, Json)>>

    function State(): Snapshot
      reads this
    {
      Snapshot(warnings, punishments, serverSettings)
    }

    /** Start-up: all three dicts empty (main.py:39-41). */
    constructor ()
      ensures State() == Empty
    {
      warnings, punishments, serverSettings := map[], map[], map[];
    }

    /** `get_user_warnings` (main.py:45-51): never fails, creates the entries it looks up. */
    method GetUserWarnings(server: int, user: int) returns (r: seq<Json>)
      modifies this
      ensures r == WarningsOf(old(warnings), server, user)
      ensures warnings == WithUserEntry(old(warnings), server, user)
      ensures punishments == old(punishments) && serverSettings == old(serverSettings)
    {
      var users := if server in warnings then warnings[server] else map[];
      r := if user in users then users[user] else [];
      warnings := warnings[server := users[user := r]];
    }

    /** `add_warning` (main.py:53-59). */
    method AddWarning(server: int, user: int, record: Json)
      modifies this
      ensures warnings == WithWarning(old(warnings), server, user, record)
      ensures punishments == old(punishments) && serverSettings == old(serverSettings)
    {
      var users := if server in warnings then warnings[server] else map[];
      var list := if user in users then users[user] else [];
      warnings := warnings[server := users[user := list + [record]]];
    }

    /** `add_punishment` (main.py:61-65). */
    method AddPunishment(server: int, record: Json)
      modifies this
      ensures punishments == WithPunishment(old(punishments), server, record)
      ensures warnings == old(warnings) && serverSettings == old(serverSettings)
    {
      if server !in punishments {
        punishments := punishments[server := []];
      }
      punishments := punishments[server := punishments[server] + [record]];
    }

    /** `/clearwarnings` (main.py:1035-1037): the number of warnings cleared, or `None` when the
        user had no entry. */
    method ClearWarnings(server: int, user: int) returns (cleared: Option<nat>)
      modifies this
      ensures warnings == WithoutUser(old(warnings), server, user)
      ensures cleared == if server in old(warnings) && user in old(warnings)[server]
        then Some(|old(warnings)[server][user]|) else None
      ensures punishments == old(punishments) && serverSettings == old(serverSettings)
    {
      if server in warnings && user in warnings[server] {
        cleared := Some(|warnings[server][user]|);
        warnings := warnings[server := warnings[server] - {user}];
      } else {
        cleared := None;
      }
    }

    /** `/setlogchannel` (main.py:1062-1065). */
    method SetLogChannel(server: int, channel: int)
      modifies this
      ensures serverSettings == WithLogChannel(old(serverSettings), server, channel)
      ensures warnings == old(warnings) && punishments == old(punishments)
    {
      if server !in serverSettings {
        serverSettings := serverSettings[server := []];
      }
      var current := serverSettings[server];
      assert current == SettingsOf(old(serverSettings), server);
      serverSettings := serverSettings[server := SetField(current, "log_channel_id", JNum(channel))];
    }

    /** main.py:154-190 (and 234-270): fills the emptied dicts from a snapshot object, entry by
        entry, reading every key with `int()`. */
    method FillFrom(data: seq<(string, Json)>)
      requires State() == Empty
      modifies this
      ensures State() == DecodeSnapshot(data)
    {
      match Get(data, "warnings") {
        case Some(JObj(servers)) => FillWarnings(servers, ParseInt);
        case _ =>
      }
      match Get(data, "punishments") {
        case Some(JObj(lists)) => FillPunishments(lists, ParseInt);
        case _ =>
      }
      match Get(data, "server_settings") {
        case Some(JObj(objects)) => FillSettings(objects, ParseInt);
        case _ =>
      }
    }

    /** main.py:156-170: the "warnings" section, server by server. */
    method FillWarnings(servers: seq<(string, Json)>, key: string -> Option<int>)
      requires warnings == map[]
      modifies this
      ensures warnings == DecodeKeyed(servers, key, AsUsers)
      ensures punishments == old(punishments) && serverSettings == old(serverSettings)
    {
      for i := 0 to |servers|
        invariant warnings == DecodeKeyed(servers[..i], key, AsUsers)
        invariant punishments == old(punishments) && serverSettings == old(serverSettings)
      {
        DecodeStep(servers[..i], servers[i], key, AsUsers);
        assert servers[..i + 1] == servers[..i] + [servers[i]];
        var users := servers[i].1;
        ghost var before := warnings;
        match key(servers[i].0) {
          case Some(id) =>
            warnings := warnings[id := map[]];
            if users.JObj? {
              FillUsers(id, users.fields, ParseInt);
            }
            assert warnings == before[id := AsUsers(users).value];
          case None =>
        }
      }
      assert servers[..|servers|] == servers;
    }

    /** main.py:161-170: one server's users, stored under the server created just before. */
    method FillUsers(id: int, entries: seq<(string, Json)>, key: string -> Option<int>)
      requires id in warnings && warnings[id] == map[]
      modifies this
      ensures warnings == old(warnings)[id := DecodeKeyed(entries, key, AsList)]
      ensures punishments == old(punishments) && serverSettings == old(serverSettings)
    {
      for j := 0 to |entries|
        invariant warnings == old(warnings)[id := DecodeKeyed(entries[..j], key, AsList)]
        invariant punishments == old(punishments) && serverSettings == old(serverSettings)
      {
        DecodeStep(entries[..j], entries[j], key, AsList);
        assert entries[..j + 1] == entries[..j] + [entries[j]];
        match key(entries[j].0) {
          case Some(user) =>
            if entries[j].1.JArr? {
              warnings := warnings[id := warnings[id][user := entries[j].1.items]];
            }
          case None =>
        }
      }
      assert entries[..|entries|] == entries;
    }

    /** main.py:172-180: the "punishments" section. */
    method FillPunishments(lists: seq<(string, Json)>, key: string -> Option<int>)
      requires punishments == map[]
      modifies this
      ensures punishments == DecodeKeyed(lists, key, AsList)
      ensures warnings == old(warnings) && serverSettings == old(serverSettings)
    {
      for i := 0 to |lists|
        invariant punishments == DecodeKeyed(lists[..i], key, AsList)
        invariant warnings == old(warnings) && serverSettings == old(serverSettings)
      {
        DecodeStep(lists[..i], lists[i], key, AsList);
        assert lists[..i + 1] == lists[..i] + [lists[i]];
        match key(lists[i].0) {
          case Some(id) =>
            if lists[i].1.JArr? {
              punishments := punishments[id := lists[i].1.items];
            }
          case None =>
        }
      }
      assert lists[..|lists|] == lists;
    }

    /** main.py:182-190: the "server_settings" section. */
    method FillSettings(objects: seq<(string, Json)>, key: string -> Option<int>)
      requires serverSettings == map[]
      modifies this
      ensures serverSettings == DecodeKeyed(objects, key, AsObject)
      ensures warnings == old(warnings) && punishments == old(punishments)
    {
      for i := 0 to |objects|
        invariant serverSettings == DecodeKeyed(objects[..i], key, AsObject)
        invariant warnings == old(warnings) && punishments == old(punishments)
      {
        DecodeStep(objects[..i], objects[i], key, AsObject);
        assert objects[..i + 1] == objects[..i] + [objects[i]];
        match key(objects[i].0) {
          case Some(id) =>
            if objects[i].1.JObj? {
              serverSettings := serverSettings[id := objects[i].1.fields];
            }
          case None =>
        }
      }
      assert objects[..|objects|] == objects;
    }

    /** `load_database` (main.py:116-291). */
    method Load(read: HistoryRead, me: int, parse: string -> Option<Json>)
      modifies this
      ensures State() == LoadedSnapshot(read, me, parse)
    {
      warnings, punishments, serverSettings := map[], map[], map[];
      if !read.Fetched? {
        return;
      }
      ghost var c := Candidates(read.recent, me);
      assert LoadedSnapshot(read, me, parse) == Located(c, parse, false);
      var doc := LocateSnapshot(read.recent, me, parse);
      if doc.Some? {
        FillFrom(doc.value);
      }
    }

    /** `check_temporary_bans` (main.py:1080-1138): returns the order the servers were visited in
        (the dict's own order, which the map does not keep), the number of saves requested and
        whether an exception ended the sweep.  Such an exception also stops the `tasks.loop`, so
        no later sweep runs until `on_ready` starts it again (main.py:1156). */
    method SweepTemporaryBans(now: int, nowText: string, guilds: set<int>,
                              expiry: string -> Expiry, unban: (int, Json) -> UnbanOutcome)
      returns (order: seq<int>, saves: nat, aborted: bool)
      modifies this
      ensures Enumerates(order, old(punishments))
      ensures (punishments, saves, aborted) == SweepServers(old(punishments), order, Judge(now, expiry, unban), nowText, guilds)
      ensures warnings == old(warnings) && serverSettings == old(serverSettings)
    {
      order := KeysInSomeOrder(punishments);
      saves, aborted := SweepInOrder(order, Judge(now, expiry, unban), nowText, guilds);
    }

    /** The outer loop of `check_temporary_bans` (main.py:1085-1089), over the servers in `order`. */
    method SweepInOrder(order: seq<int>, judge: (int, Json) -> Verdict, nowText: string, guilds: set<int>)
      returns (saves: nat, aborted: bool)
      modifies this
      ensures (punishments, saves, aborted) == SweepServers(old(punishments), order, judge, nowText, guilds)
      ensures warnings == old(warnings) && serverSettings == old(serverSettings)
    {
      saves, aborted := 0, false;
      ghost var p0 := punishments;
      assert order[..0] == [];
      for i := 0 to |order|
        invariant var r := SweepServers(p0, order[..i], judge, nowText, guilds);
          punishments == r.0 && saves == r.1 && aborted == r.2
        invariant warnings == old(warnings) && serverSettings == old(serverSettings)
      {
        var g := order[i];
        assert order[..i + 1] == order[..i] + [g];
        SweepServersSnoc(p0, order[..i], g, judge, nowText, guilds);
        if !aborted && g in punishments && g in guilds {
          var serverSaves, serverAborted := SweepServer(g, judge, nowText);
          saves := saves + serverSaves;
          aborted := serverAborted;
        }
      }
      assert order[..|order|] == order;
    }

    /** The inner loop of `check_temporary_bans` (main.py:1089-1136) over one server's list;
        records are marked in place. */
    method SweepServer(g: int, judge: (int, Json) -> Verdict, nowText: string) returns (saves: nat, aborted: bool)
      requires g in punishments
      modifies this
      ensures var done := SweepRecords(old(punishments)[g], |old(punishments)[g]|, judge, nowText, g);
        punishments == old(punishments)[g := done.0] && saves == done.1 && aborted == done.2
      ensures warnings == old(warnings) && serverSettings == old(serverSettings)
    {
      ghost var before := punishments[g];
      var records := punishments[g];
      var j := 0;
      saves, aborted := 0, false;
      ghost var done := SweepRecords(before, 0, judge, nowText, g);
      while j < |records| && !aborted
        invariant 0 <= j <= |before| && |records| == |before|
        invariant done == SweepRecords(before, j, judge, nowText, g)
        invariant records == done.0 && saves == done.1 && aborted == done.2
        invariant aborted ==> 0 < j
        decreases |before| - j
      {
        var record := records[j];
        assert record == before[j] by {
          SweepRecordsChanges(before, j, judge, nowText, g, j);
        }
        ghost var next := SweepRecordStep(done, record, j, judge, nowText, g);
        assert SweepRecords(before, j + 1, judge, nowText, g) == next;
        match judge(g, record) {
          case Skip =>
          case Abort =>
            aborted := true;
          case Resolve(save) =>
            records := records[j := Resolved(record, nowText)];
            if save {
              saves := saves + 1;
            }
        }
        done := next;
        j := j + 1;
      }
      if aborted {
        AbortSticks(before, j, judge, nowText, g);
      }
      punishments := punishments[g := records];
    }
  }

  /** The keys of a map, each once, in an order of the method's choosing. */
  method KeysInSomeOrder<T>(m: map<int, T>) returns (order: seq<int>)
    ensures Enumerates(order, m)
  {
    order := [];
    var rest := m.Keys;
    while rest != {}
      invariant rest <= m.Keys
      invariant forall i :: 0 <= i < |order| ==> order[i] in m && order[i] !in rest
      invariant forall k :: k in m ==> k in rest || k in order
      invariant forall i, j :: 0 <= i < j < |order| ==> order[i] != order[j]
      decreases |rest|
    {
      NonEmptyHasMember(rest);
      var k :| k in rest;
      order := order + [k];
      rest := rest - {k};
    }
  }

  /** main.py:135-137: the bot's own messages among those read, in the order read. */
  method CollectOwn(recent: seq<Message>, me: int) returns (own: seq<Message>)
    ensures own == OwnMessages(recent, me)
  {
    own := [];
    for i := 0 to |recent|
      invariant own == OwnMessages(recent[..i], me)
    {
      assert recent[..i + 1] == recent[..i] + [recent[i]];
      FilterMapConcat(recent[..i], [recent[i]], Mine(me));
      FilterMapSingle(recent[i], Mine(me));
      if recent[i].author == me {
        own := own + [recent[i]];
      }
    }
    assert recent[..|recent|] == recent;
  }

  /** What `load_database` finds in the history it read (main.py:133-224): the fields of the
      snapshot it decodes, or none. */
  method LocateSnapshot(recent: seq<Message>, me: int, parse: string -> Option<Json>)
    returns (doc: Option<seq<(string, Json)>>)
    ensures Located(Candidates(recent, me), parse, false) == if doc.Some? then DecodeSnapshot(doc.value) else Empty
  {
    var own := CollectOwn(recent, me);
    var c := SortBy(own, NewestFirst);
    var found := ScanForSnapshot(c, parse);
    if found.Some? {
      return Some(found.value.fields);
    }
    var parts := CollectParts(c);
    doc := None;
    if parts != [] {
      match parse(Reassemble(parts)) {
        case Some(d) =>
          if IsSnapshot(d) {
            doc := Some(d.fields);
          }
        case None =>
      }
    }
  }

  /** main.py:141-200: the first candidate, newest first, that holds a whole snapshot. */
  method ScanForSnapshot(c: seq<Message>, parse: string -> Option<Json>) returns (found: Option<Json>)
    ensures found == FirstSnapshot(c, parse)
  {
    for i := 0 to |c|
      invariant forall j :: 0 <= j < i ==> SingleSnapshot(c[j].content, parse).None?
    {
      var d := SingleSnapshot(c[i].content, parse);
      if d.Some? {
        FirstSnapshotAt(c, parse, i);
        return d;
      }
    }
    FirstSnapshotNone(c, parse);
    return None;
  }

  /** main.py:202-224: the part messages among the candidates, in candidate order. */
  method CollectParts(c: seq<Message>) returns (parts: seq<(nat, string)>)
    ensures parts == GatherParts(c)
  {
    parts := [];
    for i := 0 to |c|
      invariant parts == GatherParts(c[..i])
    {
      assert c[..i + 1] == c[..i] + [c[i]];
      FilterMapConcat(c[..i], [c[i]], PartOfMessage);
      FilterMapSingle(c[i], PartOfMessage);
      match PartOf(c[i].content) {
        case Some(p) => parts := parts + [p];
        case None =>
      }
    }
    assert c[..|c|] == c;
  }

  /** A non-empty set has a member. */
  lemma NonEmptyHasMember(s: set<int>)
    requires s != {}
    ensures exists k :: k in s
  {
    if forall k :: k !in s {
      assert false;
    }
  }

  /** Once the sweep of a list has ended, later records change nothing. */
  lemma {:induction false} AbortSticks(recs: seq<Json>, n: nat, judge: (int, Json) -> Verdict, nowText: string, guild: int)
    requires 0 < n <= |recs|
    requires SweepRecords(recs, n, judge, nowText, guild).2
    ensures SweepRecords(recs, |recs|, judge, nowText, guild) == SweepRecords(recs, n, judge, nowText, guild)
    decreases |recs| - n
  {
    if n < |recs| {
      AbortSticks(recs, n + 1, judge, nowText, guild);
    }
  }
}
