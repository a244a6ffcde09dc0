/** Values shared by every layer: an optional value and the JSON-like
    Python values that travel in request and response bodies. */
module Values {

  datatype Option<T> = None | Some(value: T)
  {
    function GetOr(default: T): T {
      match this
      case Some(v) => v
      case None => default
    }
  }

  /** A request or response value, as the web framework parses or renders it. */
  datatype Json =
    | JNull
    | JBool(b: bool)
    | JInt(i: int)
    | JStr(s: string)
    | JList(items: seq<Json>)
    | JObject(fields: map<string, Json>)

  /** A Python dict with string keys: a response body, an error map, a data payload. */
  type Payload = map<string, Json>

  /** Python truthiness: None, False, 0, "" and empty containers are false. */
  predicate Truthy(j: Json) {
    match j
    case JNull => false
    case JBool(b) => b
    case JInt(i) => i != 0
    case JStr(s) => s != ""
    case JList(items) => items != []
    case JObject(fields) => fields != map[]
  }

  /** One field's error messages, rendered as the framework renders them: a list of strings. */
  function Messages(msgs: seq<string>): (j: Json)
    ensures j.JList? && |j.items| == |msgs|
    ensures forall i :: 0 <= i < |msgs| ==> j.items[i] == JStr(msgs[i])
  {
    JList(seq(|msgs|, i requires 0 <= i < |msgs| => JStr(msgs[i])))
  }
}
