/**
 * `GlobalExceptionHandler`: each exception kind becomes an HTTP status and a
 * JSON error body. Spring's choice of the most specific handler is the `match`.
 */
module ExceptionHandler {
  import opened Wrappers
  import opened JavaText
  import opened Exceptions

  /** The values the handlers put into the body map. */
  datatype JsonValue = JBool(b: bool) | JText(s: string) | JNumber(n: int) | JNull

  datatype ErrorResponse = ErrorResponse(status: int, body: map<string, JsonValue>)

  const BadRequest: int := 400
  const InternalServerError: int := 500
  const ServiceUnavailable: int := 503

  const UnavailableMessage: string := "Payment service is temporarily unavailable"
  const UnreachableMessage: string := "Unable to reach payment service. Please try again later."
  const UnexpectedMessage: string := "An unexpected error occurred. Please try again later."

  /** A Java string as a map value: `null` stays null. */
  function Json(s: JString): JsonValue
  {
    match s
    case Some(v) => JText(v)
    case None => JNull
  }

  /** The five `@ExceptionHandler` methods as one function. */
  function HandleException(e: Exception): (r: ErrorResponse)
    ensures r.body.Keys == if e.HttpClientError? || e.HttpServerError?
                            then {"success", "message", "error_type", "status_code"}
                            else {"success", "message", "error_type"}
    ensures r.body["success"] == JBool(false)
    ensures e.PaystackException? ==>
      r.status == 400 && r.body["error_type"] == JText("PAYSTACK_ERROR") && r.body["message"] == Json(e.message)
    ensures e.HttpClientError? ==>
      && r.status == e.statusCode
      && r.body["error_type"] == JText("HTTP_CLIENT_ERROR")
      && r.body["status_code"] == JNumber(e.statusCode)
      && r.body["message"] == JText("Payment service error: " + Text(e.message))
    ensures e.HttpServerError? ==>
      && r.status == 503
      && r.body["error_type"] == JText("HTTP_SERVER_ERROR")
      && r.body["status_code"] == JNumber(e.statusCode)
      && r.body["message"] == JText(UnavailableMessage)
    ensures e.ResourceAccess? ==>
      r.status == 503 && r.body["error_type"] == JText("CONNECTION_ERROR") && r.body["message"] == JText(UnreachableMessage)
    ensures e.NullPointer? || e.OtherException? ==>
      r.status == 500 && r.body["error_type"] == JText("INTERNAL_ERROR") && r.body["message"] == JText(UnexpectedMessage)
  {
    match e
    case PaystackException(m) =>
      ErrorResponse(BadRequest,
        map["success" := JBool(false), "message" := Json(m), "error_type" := JText("PAYSTACK_ERROR")])
    case HttpClientError(code, m) =>
      ErrorResponse(code,
        map["success" := JBool(false), "message" := JText("Payment service error: " + Text(m)),
            "error_type" := JText("HTTP_CLIENT_ERROR"), "status_code" := JNumber(code)])
    case HttpServerError(code, _) =>
      ErrorResponse(ServiceUnavailable,
        map["success" := JBool(false), "message" := JText(UnavailableMessage),
            "error_type" := JText("HTTP_SERVER_ERROR"), "status_code" := JNumber(code)])
    case ResourceAccess(_) =>
      ErrorResponse(ServiceUnavailable,
        map["success" := JBool(false), "message" := JText(UnreachableMessage), "error_type" := JText("CONNECTION_ERROR")])
    case NullPointer =>
      ErrorResponse(InternalServerError,
        map["success" := JBool(false), "message" := JText(UnexpectedMessage), "error_type" := JText("INTERNAL_ERROR")])
    case OtherException(_) =>
      ErrorResponse(InternalServerError,
        map["success" := JBool(false), "message" := JText(UnexpectedMessage), "error_type" := JText("INTERNAL_ERROR")])
  }

  /**
   * The two remediation classes are kept apart: a 4xx from the gateway stays
   * a client error, while upstream 5xx and unreachable gateways become 503
   * whatever the upstream code, and nothing else answers 503.
   */
  lemma RemediationClasses(e: Exception)
    requires e.HttpClientError? ==> 400 <= e.statusCode < 500
    ensures var r := HandleException(e);
      && (e.HttpClientError? || e.PaystackException? ==> 400 <= r.status < 500)
      && (r.status == ServiceUnavailable <==> e.HttpServerError? || e.ResourceAccess?)
      && (r.status >= 500 <==> !(e.HttpClientError? || e.PaystackException?))
  {
  }
}
