/** A parsed JSON tree, as both the C++ loader (nlohmann::json) and the Python
    checker (json.loads) hand it to the code modelled here. Lexing is not
    modelled: the tree is the input. Numbers are integers only. An object is a
    list of members; nlohmann keeps them in a std::map, so a tree produced by
    it is `Canonical`: keys strictly increasing. */
module Json {
  import opened Wrappers
  import StringOrder

  datatype Json =
    | JNull
    | JBool(b: bool)
    | JNumber(n: int)
    | JString(s: string)
    | JArray(items: seq<Json>)
    | JObject(members: seq<(string, Json)>)

  /** The value of the first member named `key`, if any. */
  function Lookup(members: seq<(string, Json)>, key: string): (r: Option<Json>)
    ensures r.Some? <==> exists i :: 0 <= i < |members| && members[i].0 == key
    ensures r.Some? ==> exists i :: 0 <= i < |members| && members[i] == (key, r.value)
  {
    if members == [] then None
    else if members[0].0 == key then Some(members[0].1)
    else
      var r := Lookup(members[1..], key);
      assert forall i :: 0 <= i < |members| - 1 ==> members[1..][i] == members[i + 1];
      r
  }

  /** `j.contains(key)` in nlohmann, `key in d` in Python: false on non-objects. */
  predicate Has(j: Json, key: string) {
    j.JObject? && Lookup(j.members, key).Some?
  }

  /** The value of the last member named `key`: `json.loads` builds a dict,
      in which a repeated key keeps its last value. */
  function LookupLast(members: seq<(string, Json)>, key: string): (r: Option<Json>)
    ensures r.Some? <==> exists i :: 0 <= i < |members| && members[i].0 == key
    ensures r.Some? ==> exists i :: 0 <= i < |members| && members[i] == (key, r.value)
                                    && forall k :: i < k < |members| ==> members[k].0 != key
    decreases |members|
  {
    if members == [] then None
    else
      var n := |members| - 1;
      if members[n].0 == key then
        assert members[n] == (key, members[n].1);
        Some(members[n].1)
      else
        var init := members[..n];
        var r := LookupLast(init, key);
        assert forall i :: 0 <= i < n ==> init[i] == members[i];
        r
  }

  /** Python's `d.get(key, default)` on a dict from `json.loads`. */
  function Get(j: Json, key: string, default: Json): (r: Json)
    requires j.JObject?
    ensures (exists i :: 0 <= i < |j.members| && j.members[i].0 == key) || r == default
  {
    match LookupLast(j.members, key)
    case Some(v) => v
    case None => default
  }

  /** The keys of a dict from `json.loads`, each once, in the order of
      their first occurrence: what iterating over the dict yields. */
  function DistinctKeys(members: seq<(string, Json)>): (r: seq<string>)
    ensures forall k :: k in r <==> exists i :: 0 <= i < |members| && members[i].0 == k
    decreases |members|
  {
    if members == [] then []
    else
      var init := DistinctKeys(members[..|members| - 1]);
      var last := members[|members| - 1].0;
      assert forall i :: 0 <= i < |members| - 1 ==> members[..|members| - 1][i] == members[i];
      if last in init then init else init + [last]
  }

  /** Keys strictly increase in the lexicographic order of their characters,
      the order in which std::map<std::string, ...> keeps them. */
  predicate SortedMembers(members: seq<(string, Json)>) {
    forall i, j :: 0 <= i < j < |members| ==> StringOrder.Less(members[i].0, members[j].0)
  }

  predicate Canonical(j: Json) {
    match j
    case JArray(items) => forall i :: 0 <= i < |items| ==> Canonical(items[i])
    case JObject(members) =>
      SortedMembers(members) && forall i :: 0 <= i < |members| ==> Canonical(members[i].1)
    case _ => true
  }

  /** Python truthiness of a JSON value (`if not x`). */
  predicate Truthy(j: Json) {
    match j
    case JNull => false
    case JBool(b) => b
    case JNumber(n) => n != 0
    case JString(s) => s != ""
    case JArray(items) => items != []
    case JObject(members) => members != []
  }
}
