/** The uniform response envelope `{success, data?, message?, error?, details?}`
    and the two helpers every handler answers through. */
module Envelope {
  import opened Values

  const HTTP_200_OK := 200
  const HTTP_201_CREATED := 201
  const HTTP_400_BAD_REQUEST := 400
  const HTTP_401_UNAUTHORIZED := 401
  const HTTP_403_FORBIDDEN := 403

  /** A response as a handler hands it to the framework: a status code and a body. */
  datatype Reply = Reply(status: int, body: Payload)

  /** The body of a success response with the given data and message. */
  function SuccessPayload(data: Json, message: string): Payload {
    var payload := map["success" := JBool(true), "data" := data];
    if message != "" then payload["message" := JStr(message)] else payload
  }

  /** The body of an error response with the given error kind, message and details. */
  function ErrorPayload(error: string, message: string, details: Json): Payload {
    var payload := map["success" := JBool(false), "error" := JStr(error), "message" := JStr(message)];
    if Truthy(details) then payload["details" := details] else payload
  }

  /** The keys the uniform envelope may hold, with the type each one must have. */
  predicate IsEnvelope(body: Payload) {
    && body.Keys <= {"success", "data", "message", "error", "details"}
    && "success" in body && body["success"].JBool?
    && ("message" in body ==> body["message"].JStr?)
    && ("error" in body ==> body["error"].JStr?)
  }

  /** `success_response`: builds the payload, adding `message` only when it is non-empty. */
  method SuccessResponse(data: Json := JNull, message: string := "", statusCode: int := HTTP_200_OK)
    returns (r: Reply)
    ensures r == Reply(statusCode, SuccessPayload(data, message))
  {
    var payload: Payload := map["success" := JBool(true), "data" := data];
    if message != "" {
      payload := payload["message" := JStr(message)];
    }
    r := Reply(statusCode, payload);
  }

  /** `error_response`: builds the payload, adding `details` only when it is truthy. */
  method ErrorResponse(error: string, message: string, details: Json := JNull,
                       statusCode: int := HTTP_400_BAD_REQUEST)
    returns (r: Reply)
    ensures r == Reply(statusCode, ErrorPayload(error, message, details))
  {
    var payload: Payload := map["success" := JBool(false), "error" := JStr(error), "message" := JStr(message)];
    if Truthy(details) {
      payload := payload["details" := details];
    }
    r := Reply(statusCode, payload);
  }

  /** A success body says success=true, always carries `data` (even when it is
      None), never carries `error` or `details`, and carries `message` exactly
      when the message is non-empty. */
  lemma SuccessPayloadShape(data: Json, message: string)
    ensures var p := SuccessPayload(data, message);
            && IsEnvelope(p)
            && p["success"] == JBool(true)
            && "data" in p && p["data"] == data
            && "error" !in p && "details" !in p
            && ("message" in p <==> message != "")
            && (message != "" ==> p["message"] == JStr(message))
  {
  }

  /** An error body says success=false, always carries `error` and `message`,
      never `data`, and carries `details` exactly when the details are truthy. */
  lemma ErrorPayloadShape(error: string, message: string, details: Json)
    ensures var p := ErrorPayload(error, message, details);
            && IsEnvelope(p)
            && p["success"] == JBool(false)
            && p["error"] == JStr(error) && p["message"] == JStr(message)
            && "data" !in p
            && ("details" in p <==> Truthy(details))
            && (Truthy(details) ==> p["details"] == details)
  {
  }

  /** The success flag tells the two kinds of envelope apart. */
  lemma SuccessFlagDecides(data: Json, message: string, error: string, message': string, details: Json)
    ensures SuccessPayload(data, message) != ErrorPayload(error, message', details)
  {
    assert SuccessPayload(data, message)["success"] != ErrorPayload(error, message', details)["success"];
  }

  /** With no arguments, `success_response` answers 200 with `{success: true, data: None}`;
      `error_response` without a status code answers 400. */
  method DefaultStatuses(error: string, message: string) returns (ok: Reply, err: Reply)
    ensures ok == Reply(200, map["success" := JBool(true), "data" := JNull])
    ensures err.status == 400 && "details" !in err.body
  {
    ok := SuccessResponse();
    err := ErrorResponse(error, message);
  }
}
