/**
 * JwtTokenProvider: the claim set of a token (RFC 7519: "sub" section 4.1.2, "iat" section 4.1.6,
 * "exp" section 4.1.4, and the custom AUTH_GROUP claim), HS512 signing (section 3.2 of RFC 7518)
 * with the Base64-encoded secret, and the classification of what the parser reports.
 *
 * The jjwt builder and parser are not modelled: a Codec holds them as two function values, and
 * Lawful(codec) states, as a hypothesis of the lemmas that need it, the round trip the library
 * provides.
 */
module JwtProvider {
  import opened Wrappers
  import opened Text
  import opened Exceptions
  import Base64
  import opened AuthUserGroups
  import opened Principals
  import SetImages

  const AUTH_GROUP_KEY := "AUTH_GROUP"
  const ROLE_PREFIX := "ROLE_"

  datatype SignatureAlgorithm = HS256 | HS384 | HS512

  /** The claims the provider writes and reads; dates are milliseconds since the epoch. */
  datatype Claims = Claims(subject: Option<string>, authGroup: Option<set<string>>,
                           issuedAt: int, expiration: int)

  /** What the builder is given: the claims, the algorithm and the Base64 text of the key. */
  datatype JwsRequest = JwsRequest(claims: Claims, algorithm: SignatureAlgorithm, key: string)

  /** The parser either returns the claims of a valid token or throws one of its failures. */
  datatype Verdict = Verified(claims: Claims) | Rejected(failure: JwtFailure)

  /** The builder's compact() and the parser's parse(token) at a given instant, with a given key. */
  datatype Codec = Codec(sign: JwsRequest -> string, parse: (string, string, int) -> Verdict)

  /**
   * A date as a NumericDate claim carries it: whole seconds (Java's truncating division of the
   * milliseconds by 1000), read back as milliseconds.
   */
  function NumericDate(ms: int): (r: int)
    ensures r % 1000 == 0
    ensures ms >= 0 ==> 0 <= ms - r < 1000
    ensures ms < 0 ==> 0 <= r - ms < 1000
  {
    JavaDiv(ms, 1000) * 1000
  }

  /** The claims as the parser hands them back: the dates lose their milliseconds. */
  function AsParsed(c: Claims): Claims {
    c.(issuedAt := NumericDate(c.issuedAt), expiration := NumericDate(c.expiration))
  }

  /**
   * The round trip jjwt provides. A token built from a request parses, with the request's key,
   * to the request's claims as long as the current instant is not after the expiration, and is
   * rejected as expired once it is (no clock skew is configured). An empty token string is
   * refused with an IllegalArgumentException.
   */
  ghost predicate Lawful(codec: Codec) {
    (forall req: JwsRequest, now: int ::
       var v := codec.parse(codec.sign(req), req.key, now);
       if now > NumericDate(req.claims.expiration) then v.Rejected? && v.failure.ExpiredJwt?
       else v == Verified(AsParsed(req.claims)))
    && (forall key: string, now: int ::
          codec.parse("", key, now) == Rejected(IllegalArgument("JWT String argument cannot be null or empty.")))
  }

  /** The provider's two fields. */
  datatype JwtTokenProvider = JwtTokenProvider(secretKey: string, validityInMilliseconds: long)

  /**
   * The constructor. The secret-key annotation carries a ')' after its placeholder, so the string
   * injected is the configured property followed by ')'; its UTF-8 bytes are stored Base64-encoded
   * (section 4 of RFC 4648), and the stored text decodes back to exactly those bytes.
   */
  function NewJwtTokenProvider(property: string, validity: long): (p: JwtTokenProvider)
    ensures Base64.Decode(p.secretKey) == Some(GetBytes(property + ")"))
    ensures |p.secretKey| >= 4
    ensures p.validityInMilliseconds == validity
  {
    var bytes := GetBytes(property + ")");
    Base64.DecodeEncode(bytes);
    JwtTokenProvider(Base64.Encode(bytes), validity)
  }

  function RoleOf(g: AuthUserGroup): string {
    ROLE_PREFIX + g.authGroup.GetLabel()
  }

  /** The AUTH_GROUP claim: the "ROLE_"-prefixed label of each group, collected into a set. */
  function RoleAuthorities(groups: set<AuthUserGroup>): (r: set<string>)
    ensures forall a :: a in r <==> exists g :: g in groups && ROLE_PREFIX + g.authGroup.GetLabel() == a
    ensures forall a :: a in r ==> StartsWith(a, ROLE_PREFIX)
    ensures |r| <= |groups|
  {
    var r := set g | g in groups :: RoleOf(g);
    SetImages.ImageNoLarger(groups, RoleOf, r);
    assert forall g :: g in groups ==> (ROLE_PREFIX + g.authGroup.GetLabel())[..|ROLE_PREFIX|] == ROLE_PREFIX;
    r
  }

  /**
   * What createToken hands the builder for a user at instant now: subject the username,
   * AUTH_GROUP the role set, issued now, expiring validityInMilliseconds later in long
   * arithmetic, signed with HS512 under the stored key.
   */
  function BuildJws(p: JwtTokenProvider, username: string, groups: set<AuthUserGroup>, now: long): (req: JwsRequest)
    ensures req.claims.subject == Some(username)
    ensures req.claims.authGroup == Some(RoleAuthorities(groups))
    ensures req.claims.issuedAt == now
    ensures req.claims.expiration == WrapLong(now + p.validityInMilliseconds)
    ensures req.algorithm == HS512 && req.key == p.secretKey
  {
    var claims := Claims(Some(username), Some(RoleAuthorities(groups)), now, WrapLong(now + p.validityInMilliseconds));
    JwsRequest(claims, HS512, p.secretKey)
  }

  /** createToken: a null group set fails on the stream; otherwise the signed token of BuildJws. */
  function CreateToken(p: JwtTokenProvider, codec: Codec, username: string,
                       groups: Option<set<AuthUserGroup>>, now: long): (r: Result<string, Exception>)
    ensures groups.None? <==> r == Failure(NullPointerException)
    ensures groups.Some? ==> r == Success(codec.sign(BuildJws(p, username, groups.value, now)))
  {
    if groups.None? then Failure(NullPointerException)
    else Success(codec.sign(BuildJws(p, username, groups.value, now)))
  }

  /**
   * validateToken: true when the token parses; an expired token becomes a 401 CustomException
   * and every other failure a 500 one. It never answers false.
   */
  function ValidateToken(p: JwtTokenProvider, codec: Codec, token: string, now: int): (r: Result<bool, Exception>)
    ensures r != Success(false)
    ensures r.Success? <==> codec.parse(token, p.secretKey, now).Verified?
    ensures r.Failure? && codec.parse(token, p.secretKey, now).failure.ExpiredJwt? ==>
              r.error == CustomException(UNAUTHORIZED, "JWT token has expired.")
    ensures r.Failure? && !codec.parse(token, p.secretKey, now).failure.ExpiredJwt? ==>
              r.error == CustomException(INTERNAL_SERVER_ERROR, "Invalid JWT token.")
  {
    match codec.parse(token, p.secretKey, now)
    case Verified(_) => Success(true)
    case Rejected(ExpiredJwt(_)) => Failure(CustomException(UNAUTHORIZED, "JWT token has expired."))
    case Rejected(_) => Failure(CustomException(INTERNAL_SERVER_ERROR, "Invalid JWT token."))
  }

  /** getUserName: the subject of a valid token (null when it has none); the parser's failure otherwise. */
  function GetUserName(p: JwtTokenProvider, codec: Codec, token: string, now: int): (r: Result<Option<string>, JwtFailure>)
    ensures r.Success? <==> codec.parse(token, p.secretKey, now).Verified?
    ensures r.Success? ==> r.value == codec.parse(token, p.secretKey, now).claims.subject
    ensures r.Failure? ==> r.error == codec.parse(token, p.secretKey, now).failure
  {
    match codec.parse(token, p.secretKey, now)
    case Verified(claims) => Success(claims.subject)
    case Rejected(f) => Failure(f)
  }

  /**
   * getAuthGroups: the authorities named in the AUTH_GROUP claim of a valid token; a token
   * without the claim makes the stream fail on null.
   */
  function GetAuthGroups(p: JwtTokenProvider, codec: Codec, token: string, now: int): (r: Result<set<string>, Exception>)
    ensures r.Success? <==> codec.parse(token, p.secretKey, now).Verified? && codec.parse(token, p.secretKey, now).claims.authGroup.Some?
    ensures r.Success? ==> r.value == codec.parse(token, p.secretKey, now).claims.authGroup.value
    ensures codec.parse(token, p.secretKey, now).Rejected? ==>
              r == Failure(JwtException(codec.parse(token, p.secretKey, now).failure))
    ensures codec.parse(token, p.secretKey, now).Verified? && codec.parse(token, p.secretKey, now).claims.authGroup.None? ==>
              r == Failure(NullPointerException)
  {
    match codec.parse(token, p.secretKey, now)
    case Verified(claims) => if claims.authGroup.None? then Failure(NullPointerException) else Success(claims.authGroup.value)
    case Rejected(f) => Failure(JwtException(f))
  }

  /** The instant after which a token created at now is rejected as expired. */
  function ExpiresAt(p: JwtTokenProvider, now: long): int {
    NumericDate(WrapLong(now + p.validityInMilliseconds))
  }

  /** The username written into a token is read back from it until it expires. */
  lemma UserNameRoundTrip(p: JwtTokenProvider, codec: Codec, username: string, groups: set<AuthUserGroup>,
                          issuedAt: long, later: int)
    requires Lawful(codec)
    requires later <= ExpiresAt(p, issuedAt)
    ensures GetUserName(p, codec, codec.sign(BuildJws(p, username, groups, issuedAt)), later) == Success(Some(username))
  {
    var req := BuildJws(p, username, groups, issuedAt);
    assert codec.parse(codec.sign(req), req.key, later) == Verified(AsParsed(req.claims));
  }

  /** The role set written into a token is read back from it until it expires. */
  lemma AuthGroupsRoundTrip(p: JwtTokenProvider, codec: Codec, username: string, groups: set<AuthUserGroup>,
                            issuedAt: long, later: int)
    requires Lawful(codec)
    requires later <= ExpiresAt(p, issuedAt)
    ensures GetAuthGroups(p, codec, codec.sign(BuildJws(p, username, groups, issuedAt)), later) == Success(RoleAuthorities(groups))
  {
    var req := BuildJws(p, username, groups, issuedAt);
    assert codec.parse(codec.sign(req), req.key, later) == Verified(AsParsed(req.claims));
  }

  /** A created token validates until it expires, and afterwards is refused with the 401 CustomException. */
  lemma ValidateCreatedToken(p: JwtTokenProvider, codec: Codec, username: string, groups: set<AuthUserGroup>,
                             issuedAt: long, later: int)
    requires Lawful(codec)
    ensures later <= ExpiresAt(p, issuedAt) ==>
              ValidateToken(p, codec, codec.sign(BuildJws(p, username, groups, issuedAt)), later) == Success(true)
    ensures later > ExpiresAt(p, issuedAt) ==>
              ValidateToken(p, codec, codec.sign(BuildJws(p, username, groups, issuedAt)), later)
              == Failure(CustomException(UNAUTHORIZED, "JWT token has expired."))
  {
    var req := BuildJws(p, username, groups, issuedAt);
    var v := codec.parse(codec.sign(req), req.key, later);
    assert later > NumericDate(req.claims.expiration) ==> v.Rejected? && v.failure.ExpiredJwt?;
  }

  /**
   * Without overflow and with a validity of at least a second, a token is valid when it is
   * issued and for at least validity - 999 milliseconds after.
   */
  lemma FreshTokenValid(p: JwtTokenProvider, now: long)
    requires 0 <= now && p.validityInMilliseconds >= 1000
    requires now + p.validityInMilliseconds < 0x8000_0000_0000_0000
    ensures now < ExpiresAt(p, now)
    ensures now + p.validityInMilliseconds - 1000 < ExpiresAt(p, now) <= now + p.validityInMilliseconds
  {
  }

  /** When now + validity overflows a long the expiration wraps negative: the token is expired when issued. */
  lemma OverflowedValidityExpired(p: JwtTokenProvider, now: long)
    requires 0 < now && 0 < p.validityInMilliseconds
    requires now + p.validityInMilliseconds >= 0x8000_0000_0000_0000
    ensures WrapLong(now + p.validityInMilliseconds) < 0
    ensures ExpiresAt(p, now) < now
  {
  }

  /** The empty token string is refused by the parser, and validateToken reports it as invalid (500). */
  lemma EmptyTokenInvalid(p: JwtTokenProvider, codec: Codec, now: int)
    requires Lawful(codec)
    ensures GetUserName(p, codec, "", now) == Failure(IllegalArgument("JWT String argument cannot be null or empty."))
    ensures ValidateToken(p, codec, "", now) == Failure(CustomException(INTERNAL_SERVER_ERROR, "Invalid JWT token."))
  {
    assert codec.parse("", p.secretKey, now) == Rejected(IllegalArgument("JWT String argument cannot be null or empty."));
  }
}
