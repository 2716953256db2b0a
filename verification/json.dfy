/** JSON values as the frontend and the backend exchange them.

    Numbers are integers (floating point is not modelled). Objects keep
    their members as an ordered list of pairs, in insertion order, which is
    the order `Object.entries` and Python's `dict` iterate in. */
module Json {
  import opened Base
  import opened Strings

  datatype Json =
    | JNull
    | JBool(b: bool)
    | JInt(n: int)
    | JStr(s: string)
    | JArr(items: seq<Json>)
    | JObj(members: seq<(string, Json)>)

  /** JavaScript truthiness (`ToBoolean`) of a JSON value: `null`, `false`,
      `0` and `""` are falsy; every array and object is truthy. */
  predicate Truthy(j: Json) {
    match j
    case JNull => false
    case JBool(b) => b
    case JInt(n) => n != 0
    case JStr(s) => s != ""
    case JArr(_) => true
    case JObj(_) => true
  }

  /** `typeof j === 'object'`: objects, arrays and `null`. */
  predicate IsObjectTyped(j: Json) {
    j.JNull? || j.JArr? || j.JObj?
  }

  /** The value of the last member named `key`; both `JSON.parse` and
      Python's `json.loads` keep the last of duplicated keys. */
  function Lookup(ps: seq<(string, Json)>, key: string): (r: Option<Json>)
    ensures r.None? <==> forall i :: 0 <= i < |ps| ==> ps[i].0 != key
    ensures r.Some? ==> exists i :: 0 <= i < |ps| && ps[i] == (key, r.value)
    decreases |ps|
  {
    if |ps| == 0 then None
    else if ps[|ps| - 1].0 == key then Some(ps[|ps| - 1].1)
    else
      var r := Lookup(ps[..|ps| - 1], key);
      assert forall i :: 0 <= i < |ps| - 1 ==> ps[..|ps| - 1][i] == ps[i];
      r
  }

  /** Appending a member answers its own key and leaves every other
      key's answer as it was. */
  lemma LookupSnoc(ps: seq<(string, Json)>, p: (string, Json), key: string)
    ensures Lookup(ps + [p], key) == if p.0 == key then Some(p.1) else Lookup(ps, key)
  {
    assert (ps + [p])[..|ps|] == ps;
  }

  /** The property read `j.key` for a named (non-index) key: a member of an
      object, `undefined` (`None`) on anything else. */
  function Get(j: Json, key: string): Option<Json> {
    if j.JObj? then Lookup(j.members, key) else None
  }

  /** `j.key` is present and truthy. */
  predicate HasTruthy(j: Json, key: string) {
    var v := Get(j, key);
    v.Some? && Truthy(v.value)
  }

  /** Python's `key in d` for a dict. */
  predicate HasKey(ps: seq<(string, Json)>, key: string) {
    exists i :: 0 <= i < |ps| && ps[i].0 == key
  }
}
