/**
 * JSON values as the Python side sees them after decoding: an object is a dict, kept
 * as its members in insertion order. A decoded dict never repeats a key
 * (`DistinctKeys`); lemmas that rely on that say so.
 */
module Json {
  import opened Wrappers

  datatype Json =
    | JNull
    | JBool(b: bool)
    | JNum(mantissa: int, exponent: int)  // mantissa * 10^exponent; only its zeroness is ever inspected
    | JStr(s: string)
    | JArr(items: seq<Json>)
    | JObj(members: seq<(string, Json)>)

  predicate DistinctKeys(members: seq<(string, Json)>)
  {
    forall i, j :: 0 <= i < j < |members| ==> members[i].0 != members[j].0
  }

  /** `d.get(key)`: the value stored under `key`, if the dict has that key. */
  function Get(members: seq<(string, Json)>, key: string): (r: Option<Json>)
    ensures r.Some? <==> exists i :: 0 <= i < |members| && members[i].0 == key
    ensures r.Some? ==> exists i :: 0 <= i < |members| && members[i] == (key, r.value)
    decreases |members|
  {
    if members == [] then None
    else if members[0].0 == key then Some(members[0].1)
    else
      var r := Get(members[1..], key);
      assert forall i :: 0 <= i < |members| - 1 ==> members[1..][i] == members[i + 1];
      r
  }

  /** `d.get(key, default)`. */
  function GetOr(members: seq<(string, Json)>, key: string, default: Json): Json
  {
    match Get(members, key)
    case Some(v) => v
    case None => default
  }

  /** In a dict, the value found under a member's key is that member's value. */
  lemma GetMember(members: seq<(string, Json)>, i: nat)
    requires DistinctKeys(members) && i < |members|
    ensures Get(members, members[i].0) == Some(members[i].1)
  {
  }

  /** Python truth value: None, False, zero, "", [] and {} are false. */
  predicate Truthy(j: Json)
  {
    match j
    case JNull => false
    case JBool(b) => b
    case JNum(m, _) => m != 0
    case JStr(s) => s != ""
    case JArr(items) => items != []
    case JObj(members) => members != []
  }
}
