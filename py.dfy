/**
 * The Python runtime values the pipeline handles without knowing their shape:
 * the exceptions it raises and the JSON values `json.loads` returns.
 */
module Py {
  import opened Wrappers

  /** The exceptions the modelled code raises or lets through. */
  datatype PyError =
    | RuntimeError(message: string)
    | ValueError(message: string)
    | KeyError(key: string)
    | IndexError
    | TypeError
    | AttributeError
    | ServiceError        // an exception raised inside a remote call (OpenAI, KeyBERT, the database)

  /**
   * A JSON document as `json.loads` returns it: numbers are kept integral, and
   * an object is the resulting dict, whose keys are already distinct.
   */
  datatype Json =
    | JNull
    | JBool(b: bool)
    | JNum(n: int)
    | JStr(s: string)
    | JList(items: seq<Json>)
    | JObject(fields: seq<(string, Json)>)

  /** The empty dict `{}`, the sentinel of a failed batch. */
  const EmptyObject: Json := JObject([])

  /** Python truthiness of a JSON value. */
  predicate Truthy(v: Json) {
    match v
    case JNull => false
    case JBool(b) => b
    case JNum(n) => n != 0
    case JStr(s) => s != []
    case JList(items) => items != []
    case JObject(fields) => fields != []
  }

  /** `obj.get(key)` on a JSON object: the first field with that key. */
  function Field(fields: seq<(string, Json)>, key: string): (r: Option<Json>)
    ensures r.Some? ==> exists i :: 0 <= i < |fields| && fields[i] == (key, r.value)
    ensures r.None? ==> forall i :: 0 <= i < |fields| ==> fields[i].0 != key
  {
    if fields == [] then None
    else if fields[0].0 == key then Some(fields[0].1)
    else
      var r := Field(fields[1..], key);
      assert r.Some? ==> exists i :: 0 <= i < |fields| && fields[i] == (key, r.value) by {
        if r.Some? {
          var i :| 0 <= i < |fields[1..]| && fields[1..][i] == (key, r.value);
          assert fields[i + 1] == (key, r.value);
        }
      }
      r
  }
}
