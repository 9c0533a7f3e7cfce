/**
 * JSON documents as the bridge and the switch exchange them, after parsing
 * and before serialisation. An object keeps its members in order, as a
 * Python dict built by `json.loads` does.
 */
module JsonData {
  import opened Wrappers

  datatype Json =
    | JNull
    | JBool(b: bool)
    | JNum(n: int)
    | JStr(s: string)
    | JArr(items: seq<Json>)
    | JObj(fields: seq<(string, Json)>)

  /**
   * `dict.get(key)` on an object decoded from `fields`: the last member with
   * that name, as a later duplicate overrides an earlier one in the dict.
   */
  function Get(fields: seq<(string, Json)>, key: string): (r: Option<Json>)
    ensures r.Some? ==> (key, r.value) in fields
  {
    if fields == [] then None
    else if fields[|fields| - 1].0 == key then Some(fields[|fields| - 1].1)
    else Get(fields[..|fields| - 1], key)
  }

  /** A missing name gives None; otherwise the value of the last member bearing the name. */
  lemma {:induction false} GetLastMember(fields: seq<(string, Json)>, key: string)
    ensures Get(fields, key).None? <==> forall i | 0 <= i < |fields| :: fields[i].0 != key
    ensures Get(fields, key).Some? ==> exists i | 0 <= i < |fields| ::
      fields[i] == (key, Get(fields, key).value) && forall j | i < j < |fields| :: fields[j].0 != key
  {
    if fields != [] && fields[|fields| - 1].0 != key {
      var init := fields[..|fields| - 1];
      GetLastMember(init, key);
      if Get(fields, key).Some? {
        var i :| 0 <= i < |init| && init[i] == (key, Get(init, key).value)
          && forall j | i < j < |init| :: init[j].0 != key;
        assert fields[i] == init[i];
      }
    }
  }

  /** Python truthiness of a decoded JSON value. */
  predicate Truthy(v: Json)
  {
    match v
    case JNull => false
    case JBool(b) => b
    case JNum(n) => n != 0
    case JStr(s) => s != ""
    case JArr(items) => items != []
    case JObj(fields) => fields != []
  }
}
