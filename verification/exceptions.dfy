/**
 * The exceptions `GlobalExceptionHandler` names and the service meets: its own
 * `PaystackException`, the three `RestTemplate` failures it names, the
 * `NullPointerException` the service can raise itself, and any other.
 */
module Exceptions {
  import opened Wrappers
  import opened JavaText

  datatype Exception =
    | PaystackException(message: JString)
    | HttpClientError(statusCode: int, message: JString)    // HttpClientErrorException, a 4xx reply
    | HttpServerError(statusCode: int, message: JString)    // HttpServerErrorException, a 5xx reply
    | ResourceAccess(message: JString)                      // ResourceAccessException: I/O, timeout
    | NullPointer                                           // NullPointerException
    | OtherException(message: JString)                      // any other exception

  /** `getMessage()`. The detail text of a NullPointerException is not modelled: it reads as null. */
  function Message(e: Exception): JString
  {
    match e
    case NullPointer => None
    case _ => e.message
  }
}
