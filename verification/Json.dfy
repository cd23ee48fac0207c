/** JSON values as Python sees them: an object is a dictionary, so key order is not part of it. */
module Json {
  import opened Wrappers

  datatype Json =
    | JNull
    | JBool(b: bool)
    | JNumber(n: real)
    | JString(s: string)
    | JArray(items: seq<Json>)
    | JObject(fields: map<string, Json>)

  /** Rewrite every string value; keys stay. */
  function MapStrings(j: Json, f: string -> string): Json {
    match j
    case JString(s) => JString(f(s))
    case JArray(items) => JArray(seq(|items|, i requires 0 <= i < |items| => MapStrings(items[i], f)))
    case JObject(fields) => JObject(map k | k in fields :: MapStrings(fields[k], f))
    case _ => j
  }

  function MapFields(fields: map<string, Json>, f: string -> string): map<string, Json> {
    map k | k in fields :: MapStrings(fields[k], f)
  }

  function MapItems(items: seq<Json>, f: string -> string): seq<Json> {
    seq(|items|, i requires 0 <= i < |items| => MapStrings(items[i], f))
  }

  /** Apply a partial function to every element; fail if it fails on one. */
  function TryMap(items: seq<Json>, f: Json -> Option<Json>): Option<seq<Json>> {
    if forall x :: x in items ==> f(x).Some?
    then Some(seq(|items|, i requires 0 <= i < |items| && f(items[i]).Some? => f(items[i]).value))
    else None
  }

  /** How the rewriting acts on containers. */
  lemma MapStringsShape(fields: map<string, Json>, items: seq<Json>, f: string -> string)
    ensures MapStrings(JObject(fields), f) == JObject(MapFields(fields, f))
    ensures MapStrings(JArray(items), f) == JArray(MapItems(items, f))
    ensures MapItems([], f) == []
  {
  }

  lemma MapFieldsPut(fields: map<string, Json>, key: string, v: Json, f: string -> string)
    ensures MapFields(fields[key := v], f) == MapFields(fields, f)[key := MapStrings(v, f)]
  {
  }
}
