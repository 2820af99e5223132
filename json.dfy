/**
 * JSON values as `encoding/json` produces them for the handlers' responses.
 * Object members are kept in the order they are emitted: struct fields in
 * declaration order, map keys in sorted order. The byte encoding is not modelled.
 */
module Json {
  import opened Wrappers

  datatype Json =
    | JNull
    | JBool(b: bool)
    | JNumber(n: int)
    | JString(s: string)
    | JArray(items: seq<Json>)
    | JObject(members: seq<(string, Json)>)

  /** The keys of an object's members, in emitted order. */
  function Keys(members: seq<(string, Json)>): (ks: seq<string>)
    ensures |ks| == |members|
    ensures forall i :: 0 <= i < |members| ==> ks[i] == members[i].0
  {
    if members == [] then [] else [members[0].0] + Keys(members[1..])
  }

  /** The value of the first member named `key`, as a JSON decoder reading the object would see it. */
  function Lookup(members: seq<(string, Json)>, key: string): (v: Option<Json>)
    ensures v.None? <==> key !in Keys(members)
  {
    if members == [] then None
    else if members[0].0 == key then Some(members[0].1)
    else Lookup(members[1..], key)
  }

  /** A member whose key does not occur earlier is what a lookup of that key finds. */
  lemma {:induction false} LookupFindsFirst(members: seq<(string, Json)>, i: nat)
    requires i < |members|
    requires forall j :: 0 <= j < i ==> members[j].0 != members[i].0
    ensures Lookup(members, members[i].0) == Some(members[i].1)
  {
    if i > 0 {
      LookupFindsFirst(members[1..], i - 1);
    }
  }

  /** In an object whose keys are distinct, every member is what a lookup of its key finds. */
  lemma LookupDistinct(members: seq<(string, Json)>)
    requires forall i, j :: 0 <= i < j < |members| ==> members[i].0 != members[j].0
    ensures forall i :: 0 <= i < |members| ==> Lookup(members, members[i].0) == Some(members[i].1)
  {
    forall i | 0 <= i < |members| ensures Lookup(members, members[i].0) == Some(members[i].1) {
      LookupFindsFirst(members, i);
    }
  }

  /** `map[string]bool{"ok": true}`, the success envelope. */
  const OkEnvelope := JObject([("ok", JBool(true))])

  /**
   * `map[string]any{"ok": false, key: text}`, the failure envelope. Go emits map
   * keys sorted, and both keys the handlers use sort before "ok".
   */
  function FailureEnvelope(key: string, text: string): (j: Json)
    requires key == "error" || key == "message"
    ensures j.JObject? && Keys(j.members) == [key, "ok"]
    ensures Lookup(j.members, "ok") == Some(JBool(false))
    ensures Lookup(j.members, key) == Some(JString(text))
  {
    JObject([(key, JString(text)), ("ok", JBool(false))])
  }
}
