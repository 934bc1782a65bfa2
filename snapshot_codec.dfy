/** The snapshot document: how `save_database` lays out the three maps as a JSON object
    (main.py:301-311) and how `load_database` reads them back, entry by entry, skipping
    what it cannot use (main.py:153-190, repeated verbatim at 233-270). */
module SnapshotCodec {
  import opened Wrappers
  import opened Text
  import opened JsonValue

  /** The three in-memory maps (main.py:39-41): per-server, per-user warning lists; per-server
      punishment lists; per-server settings objects. Warning and punishment records stay JSON
      values: the loader stores whatever list it finds. */
  datatype Snapshot = Snapshot(
    warnings: map<int, map<int, seq<Json>>>,
    punishments: map<int, seq<Json>>,
    settings: map<int, seq<(string, Json)>>)

  /** The state after a reset (main.py:124-126, 129-131, 283-285, 289-291). */
  const Empty := Snapshot(map[], map[], map[])

  /** One of the decode loops: entries are visited in document order; a key that `key` (the
      loader passes `int()`, i.e. `ParseInt`) rejects is skipped, a value `conv` rejects is
      skipped, and otherwise the value is stored under the parsed int, replacing what an
      earlier spelling of the same int stored. */
  function DecodeKeyed<T>(fields: seq<(string, Json)>, key: string -> Option<int>, conv: Json -> Option<T>): map<int, T>
  {
    if fields == [] then map[]
    else
      var acc := DecodeKeyed(fields[..|fields| - 1], key, conv);
      var entry := fields[|fields| - 1];
      match key(entry.0)
      case None => acc
      case Some(k) =>
        match conv(entry.1)
        case None => acc
        case Some(x) => acc[k := x]
  }

  /** An entry is kept when `int()` accepts its key and the value has the expected type. */
  predicate Usable<T>(entry: (string, Json), k: int, key: string -> Option<int>, conv: Json -> Option<T>) {
    key(entry.0) == Some(k) && conv(entry.1).Some?
  }

  /** `isinstance(value, list)` (main.py:165, 177). */
  function AsList(v: Json): Option<seq<Json>> {
    if v.JArr? then Some(v.items) else None
  }

  /** `isinstance(value, dict)` for a settings object (main.py:187). */
  function AsObject(v: Json): Option<seq<(string, Json)>> {
    if v.JObj? then Some(v.fields) else None
  }

  /** A server's entry under "warnings": the server is created before its value is looked at
      (main.py:159), so a value that is not an object still yields the server with no users. */
  function AsUsers(v: Json): Option<map<int, seq<Json>>> {
    Some(if v.JObj? then DecodeKeyed(v.fields, ParseInt, AsList) else map[])
  }

  /** `data.get(name, {})`, decoded only when it is an object (main.py:154-155, 172-173, 182-183). */
  function Section<T>(data: seq<(string, Json)>, name: string, conv: Json -> Option<T>): map<int, T> {
    match Get(data, name)
    case Some(JObj(fields)) => DecodeKeyed(fields, ParseInt, conv)
    case _ => map[]
  }

  /** The maps a snapshot object decodes to (main.py:154-190). */
  function DecodeSnapshot(data: seq<(string, Json)>): Snapshot {
    Snapshot(
      Section(data, "warnings", AsUsers),
      Section(data, "punishments", AsList),
      Section(data, "server_settings", AsObject))
  }

  /** Decoding one more entry. */
  lemma DecodeStep<T>(init: seq<(string, Json)>, entry: (string, Json), key: string -> Option<int>, conv: Json -> Option<T>)
    ensures DecodeKeyed(init + [entry], key, conv) ==
      if key(entry.0).Some? && conv(entry.1).Some?
      then DecodeKeyed(init, key, conv)[key(entry.0).value := conv(entry.1).value]
      else DecodeKeyed(init, key, conv)
  {
    assert (init + [entry])[..|init|] == init;
  }

  /** The keys of a decoded map are exactly the ints of the usable entries. */
  lemma {:induction false} DecodeKeyedKeys<T>(fields: seq<(string, Json)>, key: string -> Option<int>, conv: Json -> Option<T>, k: int)
    ensures k in DecodeKeyed(fields, key, conv) <==> exists i :: 0 <= i < |fields| && Usable(fields[i], k, key, conv)
    decreases |fields|
  {
    if fields != [] {
      var n := |fields|;
      var init := fields[..n - 1];
      assert fields == init + [fields[n - 1]];
      DecodeStep(init, fields[n - 1], key, conv);
      DecodeKeyedKeys(init, key, conv, k);
      if exists i :: 0 <= i < n && Usable(fields[i], k, key, conv) {
        var i :| 0 <= i < n && Usable(fields[i], k, key, conv);
        if i < n - 1 {
          assert Usable(init[i], k, key, conv);
        }
      }
      if exists i :: 0 <= i < n - 1 && Usable(init[i], k, key, conv) {
        var i :| 0 <= i < n - 1 && Usable(init[i], k, key, conv);
        assert Usable(fields[i], k, key, conv);
      }
    }
  }

  /** Each key maps to the value of the LAST usable entry that spells it: a later spelling of
      the same int ("7" then "07") overrides an earlier one. */
  lemma {:induction false} DecodeKeyedLastWins<T>(fields: seq<(string, Json)>, key: string -> Option<int>, conv: Json -> Option<T>, k: int, i: nat)
    requires i < |fields| && Usable(fields[i], k, key, conv)
    requires forall j :: i < j < |fields| ==> !Usable(fields[j], k, key, conv)
    ensures k in DecodeKeyed(fields, key, conv) && DecodeKeyed(fields, key, conv)[k] == conv(fields[i].1).value
    decreases |fields|
  {
    var n := |fields|;
    var init := fields[..n - 1];
    assert fields == init + [fields[n - 1]];
    DecodeStep(init, fields[n - 1], key, conv);
    if i < n - 1 {
      assert init[i] == fields[i];
      DecodeKeyedLastWins(init, key, conv, k, i);
    }
  }

  /** A single unusable entry is skipped without disturbing anything decoded so far. */
  lemma SkipsUnusable<T>(fields: seq<(string, Json)>, entry: (string, Json), key: string -> Option<int>, conv: Json -> Option<T>)
    requires key(entry.0).None? || conv(entry.1).None?
    ensures DecodeKeyed(fields + [entry], key, conv) == DecodeKeyed(fields, key, conv)
  {
    assert (fields + [entry])[..|fields|] == fields;
  }

  /** A map with its keys listed in some order: each key once, every key listed. */
  predicate Enumerates<T>(order: seq<int>, m: map<int, T>) {
    && (forall i :: 0 <= i < |order| ==> order[i] in m)
    && (forall k :: k in m ==> k in order)
    && (forall i, j :: 0 <= i < j < |order| ==> order[i] != order[j])
  }

  /** `json.dumps` of an int-keyed dict: the keys become decimal strings, in iteration order. */
  function Fields<T>(m: map<int, T>, order: seq<int>, enc: (int, T) -> Json): (r: seq<(string, Json)>)
    ensures |r| == |order|
  {
    seq(|order|, i requires 0 <= i < |order| =>
      (IntToString(order[i]), if order[i] in m then enc(order[i], m[order[i]]) else JNull))
  }

  /** The part of `m` whose keys are listed in `keys`. */
  function Restrict<T>(m: map<int, T>, keys: seq<int>): map<int, T> {
    map k | k in m && k in keys :: m[k]
  }

  lemma RestrictSnoc<T>(m: map<int, T>, keys: seq<int>, k: int)
    requires k in m
    ensures Restrict(m, keys + [k]) == Restrict(m, keys)[k := m[k]]
  {
    assert forall key :: key in keys + [k] <==> key in keys || key == k;
  }

  /** An object whose i-th entry reads back as key `order[i]` and value `m[order[i]]`. */
  ghost predicate ReadsAs<T>(f: seq<(string, Json)>, m: map<int, T>, order: seq<int>, key: string -> Option<int>, conv: Json -> Option<T>) {
    |f| == |order| &&
    forall i :: 0 <= i < |f| ==> order[i] in m && key(f[i].0) == Some(order[i]) && conv(f[i].1) == Some(m[order[i]])
  }

  lemma {:induction false} DecodePrefix<T>(f: seq<(string, Json)>, m: map<int, T>, order: seq<int>, key: string -> Option<int>, conv: Json -> Option<T>, n: nat)
    requires ReadsAs(f, m, order, key, conv)
    requires n <= |order|
    ensures DecodeKeyed(f[..n], key, conv) == Restrict(m, order[..n])
  {
    if n == 0 {
      assert f[..0] == [];
      assert Restrict(m, order[..0]) == map[];
    } else {
      DecodePrefix(f, m, order, key, conv, n - 1);
      assert f[..n] == f[..n - 1] + [f[n - 1]];
      DecodeStep(f[..n - 1], f[n - 1], key, conv);
      assert order[..n] == order[..n - 1] + [order[n - 1]];
      RestrictSnoc(m, order[..n - 1], order[n - 1]);
    }
  }

  /** Serialising an int-keyed map and decoding it gives the map back: int keys written as
      strings reload as the same ints. */
  lemma DecodeFields<T>(m: map<int, T>, order: seq<int>, enc: (int, T) -> Json, key: string -> Option<int>, conv: Json -> Option<T>)
    requires forall k :: key(IntToString(k)) == Some(k)
    requires Enumerates(order, m)
    requires forall k :: k in m ==> conv(enc(k, m[k])) == Some(m[k])
    ensures DecodeKeyed(Fields(m, order, enc), key, conv) == m
  {
    var f := Fields(m, order, enc);
    FieldsReadBack(m, order, enc, key, conv);
    DecodePrefix(f, m, order, key, conv, |order|);
    assert f[..|order|] == f;
    RestrictAll(m, order);
  }

  lemma FieldsReadBack<T>(m: map<int, T>, order: seq<int>, enc: (int, T) -> Json, key: string -> Option<int>, conv: Json -> Option<T>)
    requires forall k :: key(IntToString(k)) == Some(k)
    requires forall i :: 0 <= i < |order| ==> order[i] in m
    requires forall k :: k in m ==> conv(enc(k, m[k])) == Some(m[k])
    ensures ReadsAs(Fields(m, order, enc), m, order, key, conv)
  {
  }

  lemma RestrictAll<T>(m: map<int, T>, order: seq<int>)
    requires forall k :: k in m ==> k in order
    ensures Restrict(m, order[..|order|]) == m
  {
    assert order[..|order|] == order;
    assert forall k :: k in Restrict(m, order) <==> k in m;
  }

  /** The iteration order of each dict at the time of a save. */
  datatype KeyOrder = KeyOrder(servers: seq<int>, users: map<int, seq<int>>, punished: seq<int>, configured: seq<int>)

  function UserOrder(o: KeyOrder, server: int): seq<int> {
    if server in o.users then o.users[server] else []
  }

  predicate Describes(o: KeyOrder, s: Snapshot) {
    && Enumerates(o.servers, s.warnings)
    && (forall k :: k in s.warnings ==> Enumerates(UserOrder(o, k), s.warnings[k]))
    && Enumerates(o.punished, s.punishments)
    && Enumerates(o.configured, s.settings)
  }

  function ListJson(k: int, l: seq<Json>): Json { JArr(l) }
  function ObjectJson(k: int, f: seq<(string, Json)>): Json { JObj(f) }
  function UsersJson(o: KeyOrder): (int, map<int, seq<Json>>) -> Json {
    (k: int, users: map<int, seq<Json>>) => JObj(Fields(users, UserOrder(o, k), ListJson))
  }

  /** The document `save_database` serialises (main.py:301-311): the three maps, then the
      metadata object (timestamps and counts, which the loader ignores). */
  function Serialised(s: Snapshot, o: KeyOrder, metadata: Json): seq<(string, Json)> {
    [("warnings", JObj(Fields(s.warnings, o.servers, UsersJson(o)))),
     ("punishments", JObj(Fields(s.punishments, o.punished, ListJson))),
     ("server_settings", JObj(Fields(s.settings, o.configured, ObjectJson))),
     ("metadata", metadata)]
  }

  /** Every key `json.dumps` writes for an int reads back as that int. */
  lemma IntKeysReload()
    ensures forall k :: ParseInt(IntToString(k)) == Some(k)
  {
    forall k ensures ParseInt(IntToString(k)) == Some(k) {
      ParseIntOfIntToString(k);
    }
  }

  lemma SerialisedSections(s: Snapshot, o: KeyOrder, metadata: Json)
    ensures Get(Serialised(s, o, metadata), "warnings") == Some(JObj(Fields(s.warnings, o.servers, UsersJson(o))))
    ensures Get(Serialised(s, o, metadata), "punishments") == Some(JObj(Fields(s.punishments, o.punished, ListJson)))
    ensures Get(Serialised(s, o, metadata), "server_settings") == Some(JObj(Fields(s.settings, o.configured, ObjectJson)))
  {
    var d := Serialised(s, o, metadata);
    GetSingle(d, "warnings", 0);
    GetSingle(d, "punishments", 1);
    GetSingle(d, "server_settings", 2);
  }

  lemma UsersReload(s: Snapshot, o: KeyOrder)
    requires Describes(o, s)
    ensures forall k :: k in s.warnings ==> AsUsers(UsersJson(o)(k, s.warnings[k])) == Some(s.warnings[k])
  {
    IntKeysReload();
    forall k | k in s.warnings
      ensures AsUsers(UsersJson(o)(k, s.warnings[k])) == Some(s.warnings[k])
    {
      DecodeFields(s.warnings[k], UserOrder(o, k), ListJson, ParseInt, AsList);
    }
  }

  lemma WarningsReload(s: Snapshot, o: KeyOrder, metadata: Json)
    requires Describes(o, s)
    ensures Section(Serialised(s, o, metadata), "warnings", AsUsers) == s.warnings
  {
    SerialisedSections(s, o, metadata);
    IntKeysReload();
    UsersReload(s, o);
    DecodeFields(s.warnings, o.servers, UsersJson(o), ParseInt, AsUsers);
  }

  lemma PunishmentsReload(s: Snapshot, o: KeyOrder, metadata: Json)
    requires Describes(o, s)
    ensures Section(Serialised(s, o, metadata), "punishments", AsList) == s.punishments
  {
    SerialisedSections(s, o, metadata);
    IntKeysReload();
    DecodeFields(s.punishments, o.punished, ListJson, ParseInt, AsList);
  }

  lemma SettingsReload(s: Snapshot, o: KeyOrder, metadata: Json)
    requires Describes(o, s)
    ensures Section(Serialised(s, o, metadata), "server_settings", AsObject) == s.settings
  {
    SerialisedSections(s, o, metadata);
    IntKeysReload();
    DecodeFields(s.settings, o.configured, ObjectJson, ParseInt, AsObject);
  }

  /** Whatever the metadata, decoding a saved document restores the three maps exactly. */
  lemma DecodeSerialised(s: Snapshot, o: KeyOrder, metadata: Json)
    requires Describes(o, s)
    ensures HasKey(Serialised(s, o, metadata), "warnings")
    ensures DecodeSnapshot(Serialised(s, o, metadata)) == s
  {
    SerialisedSections(s, o, metadata);
    WarningsReload(s, o, metadata);
    PunishmentsReload(s, o, metadata);
    SettingsReload(s, o, metadata);
  }
}
