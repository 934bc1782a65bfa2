/** The JSON values `json.loads` produces, kept abstract: the model never parses JSON text
    itself.  A JSON object (a Python `dict` with string keys) is an association list in
    insertion order; as `json.loads` produces it, its keys are distinct. */
module JsonValue {
  import opened Wrappers

  datatype Json =
    | JNull
    | JBool(b: bool)
    | JNum(n: int)
    | JFloat(x: real)  // a Python float, taken as an exact real
    | JStr(s: string)
    | JArr(items: seq<Json>)
    | JObj(fields: seq<(string, Json)>)

  /** `d.get(key)`: the value stored under `key`; of repeated keys the last one counts. */
  function Get(fields: seq<(string, Json)>, key: string): (r: Option<Json>)
    ensures r.Some? <==> exists i :: 0 <= i < |fields| && fields[i].0 == key
    ensures r.Some? ==> exists i :: 0 <= i < |fields| && fields[i] == (key, r.value)
  {
    if fields == [] then None
    else if fields[|fields| - 1].0 == key then Some(fields[|fields| - 1].1)
    else
      var r := Get(fields[..|fields| - 1], key);
      assert forall i :: 0 <= i < |fields| - 1 ==> fields[..|fields| - 1][i] == fields[i];
      r
  }

  /** In an object where `key` occurs once, `get` finds that entry. */
  lemma {:induction false} GetSingle(fields: seq<(string, Json)>, key: string, i: nat)
    requires i < |fields| && fields[i].0 == key
    requires forall j :: 0 <= j < |fields| && j != i ==> fields[j].0 != key
    ensures Get(fields, key) == Some(fields[i].1)
  {
    var n := |fields|;
    if i < n - 1 {
      var init := fields[..n - 1];
      assert forall j :: 0 <= j < n - 1 ==> init[j] == fields[j];
      GetSingle(init, key, i);
    }
  }

  /** `key in d`. */
  predicate HasKey(fields: seq<(string, Json)>, key: string) {
    Get(fields, key).Some?
  }

  /** Python truthiness of a JSON value: `None`, `False`, `0`, `0.0`, `""`, `[]` and `{}` are false. */
  predicate Truthy(j: Json) {
    match j
    case JNull => false
    case JBool(b) => b
    case JNum(n) => n != 0
    case JFloat(x) => x != 0.0
    case JStr(s) => s != ""
    case JArr(items) => items != []
    case JObj(fields) => fields != []
  }

  /** `get` on an object with one more entry at the end. */
  lemma GetSnoc(init: seq<(string, Json)>, e: (string, Json))
    ensures forall k :: Get(init + [e], k) == if e.0 == k then Some(e.1) else Get(init, k)
  {
    assert (init + [e])[..|init|] == init;
  }

  /** Replaces the value of the last entry named `key`; the entry keeps its position. */
  function SetExisting(fields: seq<(string, Json)>, key: string, v: Json): (r: seq<(string, Json)>)
    requires HasKey(fields, key)
    ensures |r| == |fields|
    ensures Get(r, key) == Some(v)
    ensures forall k :: k != key ==> Get(r, k) == Get(fields, k)
  {
    var n := |fields|;
    var init, last := fields[..n - 1], fields[n - 1];
    assert fields == init + [last];
    GetSnoc(init, last);
    if last.0 == key then
      GetSnoc(init, (key, v));
      init + [(key, v)]
    else
      var r := SetExisting(init, key, v);
      GetSnoc(r, last);
      r + [last]
  }

  /** `d[key] = v`: an existing key keeps its place and gets the new value, a new key goes last.
      Every other key keeps its value. */
  function SetField(fields: seq<(string, Json)>, key: string, v: Json): (r: seq<(string, Json)>)
    ensures Get(r, key) == Some(v)
    ensures forall k :: k != key ==> Get(r, k) == Get(fields, k)
    ensures |r| == if HasKey(fields, key) then |fields| else |fields| + 1
  {
    if HasKey(fields, key) then SetExisting(fields, key, v)
    else
      GetSnoc(fields, (key, v));
      fields + [(key, v)]
  }
}
