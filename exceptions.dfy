/** The project-wide exception handler: it lets the framework's own handler
    build a response and then rewrites that response's body in place into the
    uniform error envelope. */
module ErrorHandling {
  import opened Values

  /** The framework's response object: the handler reassigns its `data`. */
  class Response {
    var statusCode: int
    var data: Json

    constructor (statusCode: int, data: Json)
      ensures this.statusCode == statusCode && this.data == data
    {
      this.statusCode := statusCode;
      this.data := data;
    }
  }

  /** The error text: the base body's `detail` entry as a string when there is
      one, otherwise the exception's own text (`excText`). `render` is Python's
      string conversion. */
  function ErrorText(original: Payload, excText: string, render: Json -> string): string {
    if "detail" in original then render(original["detail"]) else excText
  }

  /** The body the handler installs in place of the base body. */
  function HandledData(original: Payload, excText: string, render: Json -> string): (d: Payload)
    ensures d.Keys == {"success", "error", "message"}
    ensures d["success"] == JBool(false)
    ensures d["error"] == d["message"] == JStr(ErrorText(original, excText, render))
  {
    var error := ErrorText(original, excText, render);
    map["success" := JBool(false), "error" := JStr(error), "message" := JStr(error)]
  }

  /** `custom_exception_handler`. `base` is what the framework's own handler
      returned for the exception (null when it does not handle it). When the
      base body is not a dict, `.get` raises and the handler propagates that
      error (`raised`). */
  method CustomExceptionHandler(base: Response?, excText: string, render: Json -> string)
    returns (result: Response?, raised: bool)
    modifies base
    ensures raised <==> base != null && !old(base.data).JObject?
    ensures result == if raised then null else base
    ensures base != null ==> base.statusCode == old(base.statusCode)
    ensures base != null && !raised ==>
              base.data == JObject(HandledData(old(base.data).fields, excText, render))
    ensures raised ==> base.data == old(base.data)
  {
    if base == null {
      return null, false;
    }
    match base.data {
      case JObject(original) =>
        var error := if "detail" in original then render(original["detail"]) else excText;
        base.data := JObject(map["success" := JBool(false), "error" := JStr(error), "message" := JStr(error)]);
        // The `details` check reads the body just built, not the base body,
        // so the write it guards never runs.
        var current := base.data.fields;
        if "details" in current && current["details"].JObject? {
          assert false;
        }
        result, raised := base, false;
      case _ =>
        result, raised := null, true;
    }
  }

  /** Field-level details never reach the client through this handler, whatever
      the base body held, because the body it installs has no `details` key. */
  lemma DetailsNeverSurvive(original: Payload, excText: string, render: Json -> string)
    ensures "details" !in HandledData(original, excText, render)
  {
  }

  /** Two exceptions whose base bodies agree on `detail` (both carry the same one,
      or neither carries one) get the same envelope, whatever else they hold. */
  lemma OnlyDetailMatters(o1: Payload, o2: Payload, excText: string, render: Json -> string)
    requires "detail" in o1 <==> "detail" in o2
    requires "detail" in o1 ==> o1["detail"] == o2["detail"]
    ensures HandledData(o1, excText, render) == HandledData(o2, excText, render)
  {
  }
}
