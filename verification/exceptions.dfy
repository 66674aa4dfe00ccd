/**
 * The exceptions the core throws or catches, one constructor per Java class that the code
 * distinguishes, and the HTTP status codes it uses.
 */
module Exceptions {

  const UNAUTHORIZED := 401
  const FORBIDDEN := 403
  const NOT_FOUND := 404
  const INTERNAL_SERVER_ERROR := 500

  /**
   * What io.jsonwebtoken's parser throws. ExpiredJwt is ExpiredJwtException; Signature,
   * Malformed and Unsupported are the other JwtException subclasses; IllegalArgument is the
   * IllegalArgumentException it throws for a null or blank token string.
   */
  datatype JwtFailure =
    | ExpiredJwt(message: string)
    | SignatureFailure(message: string)
    | MalformedJwt(message: string)
    | UnsupportedJwt(message: string)
    | IllegalArgument(message: string)

  datatype Exception =
      /** com.jt.tours.web.rest.exceptions.CustomException: an HTTP status and a message. */
    | CustomException(httpStatus: int, message: string)
    | NoSuchElementException(message: string)
      /** Spring Security's UsernameNotFoundException (an AuthenticationException). */
    | UsernameNotFoundException(message: string)
      /** Any other Spring Security AuthenticationException. */
    | AuthenticationException(message: string)
      /** org.springframework.web.client.HttpServerErrorException, which carries its own status. */
    | HttpServerErrorException(statusCode: int, message: string)
      /** java.nio.file.AccessDeniedException. */
    | FileAccessDeniedException(message: string)
      /** org.springframework.security.access.AccessDeniedException, a different class. */
    | SecurityAccessDeniedException(message: string)
      /** An exception of the token library, or its IllegalArgumentException. */
    | JwtException(failure: JwtFailure)
    | NullPointerException
      /** java.lang.IllegalArgumentException raised by a library precondition check. */
    | IllegalArgumentException(message: string)
      /** The store refuses a row whose not-null column holds null. */
    | NotNullViolation(column: string)
      /** A single-result repository query matched more than one row. */
    | IncorrectResultSize(expected: nat, actual: nat)
}
