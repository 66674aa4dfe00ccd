/**
 * JwtTokenFilter: the per-request step that reads the Authorization header, records token
 * errors in the request attribute "jwt_error", clears the security context, installs a
 * pre-authenticated principal for a valid token, and forwards the request down the chain.
 *
 * The security context of the request's thread and the request's attributes are the fields of
 * a RequestContext object; a call of the filter chain is counted in chainCalls. The instants at
 * which the four parses of one request run are given by a Clock.
 */
module JwtFilter {
  import opened Wrappers
  import opened Text
  import opened Exceptions
  import opened Principals
  import opened JwtProvider
  import opened UserDetailsService

  const BEARER := "Bearer"
  const JWT_ERROR := "jwt_error"

  /** PreAuthenticatedAuthenticationToken(principal, credentials, authorities). */
  datatype Authentication = PreAuthenticatedAuthenticationToken(principal: UserDetails, credentials: string,
                                                                authorities: set<string>)

  /**
   * When each parse of one request happens: the username extraction, validateToken, and the
   * two reads of loadUserByJwtToken.
   */
  datatype Clock = Clock(userNameAt: int, validateAt: int, loadUserNameAt: int, loadGroupsAt: int)

  /** The request's observable state: the context's authentication, the attributes, chain calls. */
  datatype RequestState = RequestState(authentication: Option<Authentication>, attributes: map<string, string>,
                                       chainCalls: nat)

  /** The state after a step and the exception it threw, if any. */
  datatype FilterRun = FilterRun(state: RequestState, thrown: Option<Exception>)

  /**
   * getBearerToken: for a header starting with "Bearer" (case-sensitive, no space required),
   * the header with every "Bearer" occurrence removed and then trimmed; nothing otherwise.
   */
  function GetBearerToken(header: Option<string>): (r: Option<string>)
    ensures r.Some? <==> header.Some? && StartsWith(header.value, BEARER)
    ensures r.Some? ==> r.value == Trim(RemoveAll(header.value, BEARER))
    ensures r.Some? ==> IsTrimmed(r.value) && |r.value| <= |header.value| - |BEARER|
  {
    if header.Some? && StartsWith(header.value, BEARER) then
      var h := header.value;
      RemoveAllShorter(h[|BEARER|..], BEARER);
      TrimIsTrimmed(RemoveAll(h, BEARER));
      Some(Trim(RemoveAll(h, BEARER)))
    else None
  }

  /**
   * getUserNameFromToken as a function of the request state: the subject of the token when it
   * parses, and null after recording the parser's message under "jwt_error" when it does not;
   * in both cases the security context is cleared.
   */
  function UserNameFromToken(p: JwtTokenProvider, codec: Codec, token: string, at: int, s: RequestState)
    : (RequestState, Option<string>)
  {
    match GetUserName(p, codec, token, at)
    case Success(name) => (s.(authentication := None), name)
    case Failure(f) => (s.(authentication := None, attributes := s.attributes[JWT_ERROR := f.message]), None)
  }

  /**
   * processAuthentication: after extraction, a non-null username on an empty context leads to
   * validateToken, whose exception propagates; a valid token installs the token-path user with
   * credentials "" and its own authorities.
   */
  function ProcessAuthentication(p: JwtTokenProvider, codec: Codec, token: string, clock: Clock, s: RequestState)
    : FilterRun
  {
    var (s1, username) := UserNameFromToken(p, codec, token, clock.userNameAt, s);
    if username.Some? && s1.authentication.None? then
      match ValidateToken(p, codec, token, clock.validateAt)
      case Failure(e) => FilterRun(s1, Some(e))
      case Success(valid) =>
        if valid then
          match LoadUserByJwtToken(p, codec, token, clock.loadUserNameAt, clock.loadGroupsAt)
          case Failure(e) => FilterRun(s1, Some(e))
          case Success(None) => FilterRun(s1, None)
          case Success(Some(details)) =>
            FilterRun(s1.(authentication := Some(PreAuthenticatedAuthenticationToken(details, "", details.GetAuthorities()))), None)
        else FilterRun(s1, None)
    else FilterRun(s1, None)
  }

  /** doFilterInternal: process a bearer token if there is one, then forward unless something was thrown. */
  function DoFilter(p: JwtTokenProvider, codec: Codec, header: Option<string>, clock: Clock, s: RequestState)
    : FilterRun
  {
    var run := match GetBearerToken(header)
               case None => FilterRun(s, None)
               case Some(token) => ProcessAuthentication(p, codec, token, clock, s);
    if run.thrown.None? then FilterRun(run.state.(chainCalls := run.state.chainCalls + 1), None) else run
  }

  /** The per-request mutable state: the thread's security context and the request attributes. */
  class RequestContext {
    var authentication: Option<Authentication>
    var attributes: map<string, string>
    var chainCalls: nat

    constructor (authentication: Option<Authentication>, attributes: map<string, string>)
      ensures State() == RequestState(authentication, attributes, 0)
    {
      this.authentication := authentication;
      this.attributes := attributes;
      this.chainCalls := 0;
    }

    function State(): RequestState
      reads this
    {
      RequestState(authentication, attributes, chainCalls)
    }
  }

  class JwtTokenFilter {
    const provider: JwtTokenProvider
    const codec: Codec

    constructor (provider: JwtTokenProvider, codec: Codec)
      ensures this.provider == provider && this.codec == codec
    {
      this.provider := provider;
      this.codec := codec;
    }

    method DoFilterInternal(header: Option<string>, request: RequestContext, clock: Clock)
      returns (thrown: Option<Exception>)
      modifies request
      ensures FilterRun(request.State(), thrown) == DoFilter(provider, codec, header, clock, old(request.State()))
    {
      thrown := None;
      var token := GetBearerToken(header);
      if token.Some? {
        thrown := ProcessAuthenticationStep(token.value, request, clock);
      }
      if thrown.None? {
        request.chainCalls := request.chainCalls + 1;
      }
    }

    method ProcessAuthenticationStep(token: string, request: RequestContext, clock: Clock)
      returns (thrown: Option<Exception>)
      modifies request
      ensures FilterRun(request.State(), thrown) == ProcessAuthentication(provider, codec, token, clock, old(request.State()))
    {
      thrown := None;
      var username := GetUserNameFromToken(token, request, clock.userNameAt);
      var principal := request.authentication;
      if username.Some? && principal.None? {
        var valid := ValidateToken(provider, codec, token, clock.validateAt);
        if valid.Failure? {
          thrown := Some(valid.error);
        } else if valid.value {
          var details := LoadUserByJwtToken(provider, codec, token, clock.loadUserNameAt, clock.loadGroupsAt);
          if details.Failure? {
            thrown := Some(details.error);
          } else if details.value.Some? {
            var d := details.value.value;
            request.authentication := Some(PreAuthenticatedAuthenticationToken(d, "", d.GetAuthorities()));
          }
        }
      }
    }

    method GetUserNameFromToken(token: string, request: RequestContext, at: int) returns (username: Option<string>)
      modifies request
      ensures (request.State(), username) == UserNameFromToken(provider, codec, token, at, old(request.State()))
    {
      username := None;
      var name := GetUserName(provider, codec, token, at);
      if name.Success? {
        username := name.value;
      } else {
        request.attributes := request.attributes[JWT_ERROR := name.error.message];
      }
      request.authentication := None;
    }
  }

  /** Without a header starting with "Bearer", the request is forwarded once and nothing else changes. */
  lemma NoBearerPassesThrough(p: JwtTokenProvider, codec: Codec, header: Option<string>, clock: Clock, s: RequestState)
    requires header.None? || !StartsWith(header.value, BEARER)
    ensures DoFilter(p, codec, header, clock, s) == FilterRun(s.(chainCalls := s.chainCalls + 1), None)
  {
  }

  /** The chain is called exactly once when nothing is thrown, and not at all otherwise. */
  lemma ChainCalledOnceUnlessThrown(p: JwtTokenProvider, codec: Codec, header: Option<string>, clock: Clock, s: RequestState)
    ensures var run := DoFilter(p, codec, header, clock, s);
            run.state.chainCalls == if run.thrown.None? then s.chainCalls + 1 else s.chainCalls
  {
  }

  /**
   * With a bearer token, the context ends either empty or holding the principal built from the
   * token at this request: one that was there before never survives. It is installed only when
   * the username is non-null and validateToken answered true, with credentials "" and the
   * token-derived authorities.
   */
  lemma PrincipalOnlyFromToken(p: JwtTokenProvider, codec: Codec, header: Option<string>, clock: Clock, s: RequestState)
    requires GetBearerToken(header).Some?
    ensures var run := DoFilter(p, codec, header, clock, s);
            var token := GetBearerToken(header).value;
            run.state.authentication.Some? ==>
              GetUserName(p, codec, token, clock.userNameAt).Success?
              && GetUserName(p, codec, token, clock.userNameAt).value.Some?
              && ValidateToken(p, codec, token, clock.validateAt) == Success(true)
              && LoadUserByJwtToken(p, codec, token, clock.loadUserNameAt, clock.loadGroupsAt)
                 == Success(Some(run.state.authentication.value.principal))
              && run.state.authentication.value.credentials == ""
              && run.state.authentication.value.authorities == run.state.authentication.value.principal.GetAuthorities()
              && run.state.authentication.value.principal.TokenUser?
  {
  }

  /**
   * A token the parser refuses leaves the parser's message under "jwt_error", an empty context,
   * the other attributes as they were, and the request forwarded.
   */
  lemma ExtractionFailureRecordsError(p: JwtTokenProvider, codec: Codec, header: Option<string>, clock: Clock,
                                      s: RequestState, f: JwtFailure)
    requires GetBearerToken(header).Some?
    requires GetUserName(p, codec, GetBearerToken(header).value, clock.userNameAt) == Failure(f)
    ensures DoFilter(p, codec, header, clock, s)
            == FilterRun(RequestState(None, s.attributes[JWT_ERROR := f.message], s.chainCalls + 1), None)
  {
  }

  /** A rejected validateToken propagates its exception: the chain is not called and the context stays empty. */
  lemma ValidationFailureThrows(p: JwtTokenProvider, codec: Codec, header: Option<string>, clock: Clock,
                                s: RequestState, e: Exception)
    requires GetBearerToken(header).Some?
    requires GetUserName(p, codec, GetBearerToken(header).value, clock.userNameAt).Success?
    requires GetUserName(p, codec, GetBearerToken(header).value, clock.userNameAt).value.Some?
    requires ValidateToken(p, codec, GetBearerToken(header).value, clock.validateAt) == Failure(e)
    ensures DoFilter(p, codec, header, clock, s) == FilterRun(RequestState(None, s.attributes, s.chainCalls), Some(e))
  {
  }

  /** "Bearer " followed by a trimmed token with no "Bearer" inside it yields exactly the token. */
  lemma {:induction false} BearerHeaderToken(token: string)
    requires !Contains(token, BEARER) && IsTrimmed(token)
    ensures GetBearerToken(Some(BEARER + " " + token)) == Some(token)
  {
    var h := BEARER + " " + token;
    assert h[..|BEARER|] == BEARER;
    assert h[|BEARER|..] == " " + token;
    assert RemoveAll(h, BEARER) == RemoveAll(" " + token, BEARER);
    RemoveAllAbsent(token, BEARER);
    if |" " + token| >= |BEARER| {
      assert (" " + token)[..|BEARER|] != BEARER by {
        assert (" " + token)[..|BEARER|][0] == ' ';
      }
      assert (" " + token)[1..] == token;
    }
    assert RemoveAll(" " + token, BEARER) == " " + token;
    TrimLeadingSpace(token);
    TrimTrimmed(token);
  }

  /**
   * The request path end to end: a header "Bearer <t>" carrying a token the provider created for
   * a user with a non-empty name, read before it expires, installs that user with the token's
   * "ROLE_" authorities and credentials "", leaves the attributes alone and forwards the request.
   * The token must be trimmed and must not contain "Bearer", since the extraction removes every
   * occurrence.
   */
  lemma CreatedTokenAuthenticates(p: JwtTokenProvider, codec: Codec, username: string, groups: set<Principals.AuthUserGroup>,
                                  issuedAt: long, clock: Clock, s: RequestState)
    requires Lawful(codec)
    requires username != ""
    requires var t := codec.sign(BuildJws(p, username, groups, issuedAt));
             !Contains(t, BEARER) && IsTrimmed(t)
    requires clock.userNameAt <= ExpiresAt(p, issuedAt) && clock.validateAt <= ExpiresAt(p, issuedAt)
    requires clock.loadUserNameAt <= ExpiresAt(p, issuedAt) && clock.loadGroupsAt <= ExpiresAt(p, issuedAt)
    ensures var t := codec.sign(BuildJws(p, username, groups, issuedAt));
            var user := TokenUser(username, "", RoleAuthorities(groups), true, true, true, true);
            DoFilter(p, codec, Some(BEARER + " " + t), clock, s)
            == FilterRun(RequestState(Some(PreAuthenticatedAuthenticationToken(user, "", RoleAuthorities(groups))),
                                      s.attributes, s.chainCalls + 1), None)
  {
    var t := codec.sign(BuildJws(p, username, groups, issuedAt));
    BearerHeaderToken(t);
    UserNameRoundTrip(p, codec, username, groups, issuedAt, clock.userNameAt);
    ValidateCreatedToken(p, codec, username, groups, issuedAt, clock.validateAt);
    TokenPathOfCreatedToken(p, codec, username, groups, issuedAt, clock.loadUserNameAt, clock.loadGroupsAt);
  }

  /**
   * The same token presented after it expired is refused at extraction: the expiry message is
   * recorded, the context is empty, and the request goes on unauthenticated.
   */
  lemma ExpiredTokenRecordsError(p: JwtTokenProvider, codec: Codec, username: string, groups: set<Principals.AuthUserGroup>,
                                 issuedAt: long, clock: Clock, s: RequestState)
    requires Lawful(codec)
    requires var t := codec.sign(BuildJws(p, username, groups, issuedAt));
             !Contains(t, BEARER) && IsTrimmed(t)
    requires clock.userNameAt > ExpiresAt(p, issuedAt)
    ensures var t := codec.sign(BuildJws(p, username, groups, issuedAt));
            var run := DoFilter(p, codec, Some(BEARER + " " + t), clock, s);
            run.thrown.None? && run.state.authentication.None? && run.state.chainCalls == s.chainCalls + 1
            && JWT_ERROR in run.state.attributes
            && GetUserName(p, codec, t, clock.userNameAt).Failure?
            && GetUserName(p, codec, t, clock.userNameAt).error.ExpiredJwt?
            && run.state.attributes == s.attributes[JWT_ERROR := GetUserName(p, codec, t, clock.userNameAt).error.message]
  {
    var t := codec.sign(BuildJws(p, username, groups, issuedAt));
    var req := BuildJws(p, username, groups, issuedAt);
    BearerHeaderToken(t);
    var v := codec.parse(codec.sign(req), req.key, clock.userNameAt);
    assert v.Rejected? && v.failure.ExpiredJwt?;
  }

  /** Extraction needs no space after "Bearer". */
  lemma BearerWithoutSpace()
    ensures GetBearerToken(Some("BearerX")) == Some("X")
  {
    assert "BearerX"[..6] == BEARER && "BearerX"[6..] == "X";
  }

  /** Extraction removes "Bearer" from inside the token as well. */
  lemma BearerInsideTokenRemoved()
    ensures GetBearerToken(Some("Bearer abBearercd")) == Some("abcd")
  {
    var h := "Bearer abBearercd";
    assert h[..6] == BEARER && h[6..] == " abBearercd";
    assert " abBearercd"[..6] != BEARER && " abBearercd"[1..] == "abBearercd";
    assert "abBearercd"[..6] != BEARER && "abBearercd"[1..] == "bBearercd";
    assert "bBearercd"[..6] != BEARER && "bBearercd"[1..] == "Bearercd";
    assert "Bearercd"[..6] == BEARER && "Bearercd"[6..] == "cd";
    assert RemoveAll(h, BEARER) == " abcd";
    assert Trim(" abcd") == "abcd" by {
      assert " abcd"[1..] == "abcd";
    }
  }

  /** The prefix test is case-sensitive. */
  lemma BearerCaseSensitive()
    ensures GetBearerToken(Some("bearer x")) == None
  {
    FirstCharNotPrefix("bearer x", BEARER);
  }

  /** A bare "Bearer" header yields the empty token, which the parser refuses; its message is recorded. */
  lemma BareBearerHeader(p: JwtTokenProvider, codec: Codec, clock: Clock, s: RequestState)
    requires Lawful(codec)
    ensures DoFilter(p, codec, Some(BEARER), clock, s)
            == FilterRun(RequestState(None, s.attributes[JWT_ERROR := "JWT String argument cannot be null or empty."],
                                      s.chainCalls + 1), None)
  {
    assert BEARER[..6] == BEARER && BEARER[6..] == "";
    assert GetBearerToken(Some(BEARER)) == Some("");
    EmptyTokenInvalid(p, codec, clock.userNameAt);
  }
}
