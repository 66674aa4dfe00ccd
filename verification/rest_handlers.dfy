/**
 * The ApiResponse bodies of the two security handlers: RestAuthenticationEntryPoint, which
 * reports a failed authentication with the filter's recorded token error, and
 * RestAccessDeniedHandler. Writing the JSON to the response stream is not modelled.
 */
module RestHandlers {
  import opened Wrappers
  import opened Text
  import opened Exceptions
  import opened JwtProvider
  import opened JwtFilter

  /** HttpServletResponse.SC_UNAUTHORIZED. */
  const SC_UNAUTHORIZED := 401

  /** ApiResponse(status, message, result); the handlers never set result. */
  datatype ApiResponse = ApiResponse(status: int, message: Option<string>, result: Option<string>)

  /**
   * The local expiredMessage of commence, a possibly-null String: the jwt_error attribute of the
   * request when there is a request and it has that attribute, "" otherwise. It is never null.
   */
  function ExpiredMessage(request: Option<map<string, string>>): (m: Option<string>)
    ensures m.Some?
    ensures request.Some? && JWT_ERROR in request.value ==> m == Some(request.value[JWT_ERROR])
    ensures request.None? || JWT_ERROR !in request.value ==> m == Some("")
  {
    if request.Some? then
      if JWT_ERROR in request.value then Some(request.value[JWT_ERROR]) else Some("")
    else Some("")
  }

  /**
   * commence: status 401 with the token error as message; the "Unauthorized access." fallback
   * for a null message is unreachable, since the message is never null.
   */
  function Commence(request: Option<map<string, string>>): (r: ApiResponse)
    ensures r.status == UNAUTHORIZED
    ensures r.result.None?
    ensures r.message == ExpiredMessage(request)
    ensures r.message == Some("Unauthorized access.") ==>
              request.Some? && JWT_ERROR in request.value && request.value[JWT_ERROR] == "Unauthorized access."
  {
    var expiredMessage := ExpiredMessage(request);
    ApiResponse(SC_UNAUTHORIZED, if expiredMessage.Some? then expiredMessage else Some("Unauthorized access."), None)
  }

  /** handle: status 401 (not 403) and "Access Denied", whatever the request and the exception. */
  function HandleAccessDenied(request: Option<map<string, string>>, e: Exception): (r: ApiResponse)
    ensures r.status == UNAUTHORIZED && r.status != FORBIDDEN
    ensures r.message == Some("Access Denied")
    ensures r.result.None?
  {
    ApiResponse(SC_UNAUTHORIZED, Some("Access Denied"), None)
  }

  /** The access-denied response depends on neither the request nor the exception. */
  lemma AccessDeniedIgnoresInput(r1: Option<map<string, string>>, e1: Exception,
                                 r2: Option<map<string, string>>, e2: Exception)
    ensures HandleAccessDenied(r1, e1) == HandleAccessDenied(r2, e2)
  {
  }

  /**
   * The filter and the entry point together: when the filter could not read a token, the 401
   * response of the entry point carries the parser's message that the filter recorded.
   */
  lemma EntryPointReportsTokenError(p: JwtTokenProvider, codec: Codec, header: Option<string>, clock: Clock,
                                    s: RequestState, f: JwtFailure)
    requires GetBearerToken(header).Some?
    requires GetUserName(p, codec, GetBearerToken(header).value, clock.userNameAt) == Failure(f)
    ensures Commence(Some(DoFilter(p, codec, header, clock, s).state.attributes))
            == ApiResponse(UNAUTHORIZED, Some(f.message), None)
  {
    ExtractionFailureRecordsError(p, codec, header, clock, s, f);
  }

  /** Without a recorded token error (for instance no bearer header), the entry point's message is "". */
  lemma EntryPointWithoutTokenError(p: JwtTokenProvider, codec: Codec, header: Option<string>, clock: Clock,
                                    s: RequestState)
    requires header.None? || !StartsWith(header.value, BEARER)
    requires JWT_ERROR !in s.attributes
    ensures Commence(Some(DoFilter(p, codec, header, clock, s).state.attributes)) == ApiResponse(UNAUTHORIZED, Some(""), None)
  {
    NoBearerPassesThrough(p, codec, header, clock, s);
  }
}
