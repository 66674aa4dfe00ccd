/**
 * GlobalExceptionHandlerController: the table from the kind of an exception raised in a
 * controller to the status and plain-text body of the response, and the error-attribute map
 * with its "exception" entry removed.
 */
module GlobalExceptionHandler {
  import opened Wrappers
  import opened Exceptions

  /** ResponseEntity.status(status).body(message). */
  datatype ResponseEntity = ResponseEntity(status: int, body: string)

  function ErrorResponse(status: int, message: string): (r: ResponseEntity)
    ensures r.status == status && r.body == message
  {
    ResponseEntity(status, message)
  }

  /**
   * The handler Spring picks for e, the most specific declared one. UsernameNotFoundException
   * is an AuthenticationException but has its own handler; the AccessDeniedException handled is
   * java.nio.file's, so Spring Security's falls through to the general handler, as do the token
   * library's exceptions, NullPointerException, IllegalArgumentException and the store's errors.
   */
  function HandleException(e: Exception): (r: ResponseEntity)
    ensures e.CustomException? ==> r == ResponseEntity(e.httpStatus, e.message)
    ensures e.NoSuchElementException? || e.UsernameNotFoundException? ==> r == ResponseEntity(NOT_FOUND, e.message)
    ensures e.HttpServerErrorException? ==> r == ResponseEntity(FORBIDDEN, e.message)
    ensures e.AuthenticationException? ==> r == ResponseEntity(UNAUTHORIZED, "Authentication failed.")
    ensures e.FileAccessDeniedException? ==> r == ResponseEntity(FORBIDDEN, "Access denied.")
    ensures IsUnhandledKind(e) ==> r == ResponseEntity(INTERNAL_SERVER_ERROR, "Server cannot process the request")
  {
    match e
    case HttpServerErrorException(_, message) => ErrorResponse(FORBIDDEN, message)
    case NoSuchElementException(message) => ErrorResponse(NOT_FOUND, message)
    case UsernameNotFoundException(message) => ErrorResponse(NOT_FOUND, message)
    case AuthenticationException(_) => ErrorResponse(UNAUTHORIZED, "Authentication failed.")
    case FileAccessDeniedException(_) => ErrorResponse(FORBIDDEN, "Access denied.")
    case CustomException(status, message) => ErrorResponse(status, message)
    case _ => ErrorResponse(INTERNAL_SERVER_ERROR, "Server cannot process the request")
  }

  /** The kinds no specific handler declares. */
  predicate IsUnhandledKind(e: Exception) {
    !(e.CustomException? || e.NoSuchElementException? || e.UsernameNotFoundException?
      || e.HttpServerErrorException? || e.AuthenticationException? || e.FileAccessDeniedException?)
  }

  /** The general handler never echoes the exception's own message. */
  lemma UnhandledHidesMessage(e1: Exception, e2: Exception)
    requires IsUnhandledKind(e1) && IsUnhandledKind(e2)
    ensures HandleException(e1) == HandleException(e2)
  {
  }

  /** The status an HttpServerErrorException carries is ignored: it is always answered with 403. */
  lemma ServerErrorStatusIgnored(status1: int, status2: int, message: string)
    ensures HandleException(HttpServerErrorException(status1, message))
            == HandleException(HttpServerErrorException(status2, message))
    ensures HandleException(HttpServerErrorException(status1, message)).status == FORBIDDEN
  {
  }

  /** Spring Security's AccessDeniedException is not the handled one and becomes a 500. */
  lemma SecurityAccessDeniedIsServerError(message: string)
    ensures HandleException(SecurityAccessDeniedException(message)).status == INTERNAL_SERVER_ERROR
    ensures HandleException(FileAccessDeniedException(message)).status == FORBIDDEN
  {
  }

  /** Apart from a CustomException's own status, every response is 401, 403, 404 or 500. */
  lemma StatusesUsed(e: Exception)
    ensures !e.CustomException? ==>
              HandleException(e).status in {UNAUTHORIZED, FORBIDDEN, NOT_FOUND, INTERNAL_SERVER_ERROR}
  {
  }

  /** The error attributes: the default map with the "exception" entry removed and nothing else changed. */
  function ErrorAttributes<V>(defaults: map<string, V>): (r: map<string, V>)
    ensures "exception" !in r
    ensures forall k :: k in r <==> k in defaults && k != "exception"
    ensures forall k :: k in r ==> r[k] == defaults[k]
    ensures |r| == if "exception" in defaults then |defaults| - 1 else |defaults|
  {
    var r := defaults - {"exception"};
    assert r.Keys == defaults.Keys - {"exception"};
    r
  }

  /** Removing the entry twice is the same as removing it once. */
  lemma ErrorAttributesIdempotent<V>(defaults: map<string, V>)
    ensures ErrorAttributes(ErrorAttributes(defaults)) == ErrorAttributes(defaults)
  {
  }
}
