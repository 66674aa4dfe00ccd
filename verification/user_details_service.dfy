/**
 * CsrUserDetailsService: the two ways a principal is built. loadUserByUsername looks the user
 * up in the store and wraps it; loadUserByJwtToken builds a Spring Security User purely from
 * the claims of a token, without reading the store.
 */
module UserDetailsService {
  import opened Wrappers
  import opened Text
  import opened Exceptions
  import opened Principals
  import opened JwtProvider

  /**
   * The UserDetails a request can carry: the login path's CsrUserPrincipal, or the Spring
   * Security User that the token path builds (its fields as the builder receives them).
   */
  datatype UserDetails =
    | Principal(principal: CsrUserPrincipal)
    | TokenUser(username: string, password: string, authorities: set<string>,
                accountNonExpired: bool, accountNonLocked: bool, credentialsNonExpired: bool, enabled: bool)
  {
    function GetAuthorities(): set<string> {
      match this
      case Principal(p) => p.GetAuthorities()
      case TokenUser(_, _, authorities, _, _, _, _) => authorities
    }

    function GetUsername(): string {
      match this
      case Principal(p) => p.GetUsername()
      case TokenUser(username, _, _, _, _, _, _) => username
    }
  }

  /** The positions at or after i of the rows named username, in increasing order. */
  function NamedFrom(users: seq<User>, username: string, i: nat): (ks: seq<nat>)
    requires i <= |users|
    ensures forall j :: 0 <= j < |ks| ==> i <= ks[j] < |users| && users[ks[j]].username == username
    ensures forall k :: i <= k < |users| && users[k].username == username ==> k in ks
    ensures forall j1, j2 :: 0 <= j1 < j2 < |ks| ==> ks[j1] < ks[j2]
    decreases |users| - i
  {
    if i == |users| then []
    else if users[i].username == username then [i] + NamedFrom(users, username, i + 1)
    else NamedFrom(users, username, i + 1)
  }

  /** Two rows of the user table carry that username; the table has no unique constraint on it. */
  predicate Repeated(users: seq<User>, username: string) {
    exists j, k :: 0 <= j < k < |users| && users[j].username == username && users[k].username == username
  }

  /**
   * userRepository.findByUsername, a single-result query: the one row with that username, none
   * when there is no such row, and IncorrectResultSize when there are several.
   */
  function FindByUsername(users: seq<User>, username: string): (r: Result<Option<User>, Exception>)
    ensures r == Success(None) <==> forall k :: 0 <= k < |users| ==> users[k].username != username
    ensures r.Success? && r.value.Some? ==> r.value.value in users && r.value.value.username == username
    ensures r.Failure? <==> Repeated(users, username)
    ensures r.Failure? ==> r.error.IncorrectResultSize? && r.error.expected == 1 && r.error.actual >= 2
  {
    var ks := NamedFrom(users, username, 0);
    if |ks| == 0 then Success(None)
    else if |ks| == 1 then
      assert forall j, k :: 0 <= j < k < |users| && users[j].username == username && users[k].username == username ==>
        j in ks && k in ks;
      Success(Some(users[ks[0]]))
    else
      assert ks[0] < ks[1];
      Failure(IncorrectResultSize(1, |ks|))
  }

  /** When no other row shares its username, the lookup of a stored name finds exactly that row. */
  lemma FindStoredUser(users: seq<User>, i: int)
    requires 0 <= i < |users|
    requires forall k :: 0 <= k < |users| && users[k].username == users[i].username ==> k == i
    ensures FindByUsername(users, users[i].username) == Success(Some(users[i]))
  {
    var r := FindByUsername(users, users[i].username);
    assert !Repeated(users, users[i].username);
    var j :| 0 <= j < |users| && users[j] == r.value.value;
    assert j == i;
  }

  /** The message of the exception for a username that is not in the store. */
  function NotFoundMessage(username: string): string {
    "User " + username + " do not exist."
  }

  /**
   * loadUserByUsername: a principal wrapping the stored user and exactly its stored groups;
   * UsernameNotFoundException when no user has that name, and the lookup's IncorrectResultSize
   * when several do.
   */
  function LoadUserByUsername(users: seq<User>, username: string): (r: Result<UserDetails, Exception>)
    ensures r == Failure(UsernameNotFoundException(NotFoundMessage(username))) <==>
              forall k :: 0 <= k < |users| ==> users[k].username != username
    ensures r.Failure? && r.error.IncorrectResultSize? <==> Repeated(users, username)
    ensures r.Success? ==> r.value.Principal? && r.value.principal.user in users
                           && r.value.GetUsername() == username
                           && r.value.principal.authUserGroups == r.value.principal.user.authUserGroups
  {
    match FindByUsername(users, username)
    case Failure(e) => Failure(e)
    case Success(None) => Failure(UsernameNotFoundException(NotFoundMessage(username)))
    case Success(Some(u)) => Success(Principal(CsrUserPrincipal(u, u.authUserGroups)))
  }

  /**
   * loadUserByJwtToken: the subject and the AUTH_GROUP authorities of the token, read by two
   * separate parses at instants nameAt and groupsAt, become a User with password "" whose account
   * is neither expired, locked, credential-expired nor disabled. A parse failure propagates. The
   * Spring builder refuses a null username, and its constructor an empty one.
   */
  function LoadUserByJwtToken(p: JwtTokenProvider, codec: Codec, token: string, nameAt: int, groupsAt: int)
    : (r: Result<Option<UserDetails>, Exception>)
    ensures r.Success? ==> r.value.Some? && r.value.value.TokenUser?
    ensures r.Success? <==> GetUserName(p, codec, token, nameAt).Success?
                            && GetAuthGroups(p, codec, token, groupsAt).Success?
                            && GetUserName(p, codec, token, nameAt).value.Some?
                            && GetUserName(p, codec, token, nameAt).value.value != ""
    ensures r.Success? ==>
              var u := r.value.value;
              Some(u.username) == GetUserName(p, codec, token, nameAt).value
              && u.authorities == GetAuthGroups(p, codec, token, groupsAt).value
              && u.password == ""
              && u.accountNonExpired && u.accountNonLocked && u.credentialsNonExpired && u.enabled
    ensures GetUserName(p, codec, token, nameAt).Failure? ==>
              r == Failure(JwtException(GetUserName(p, codec, token, nameAt).error))
    ensures GetUserName(p, codec, token, nameAt).Success? && GetAuthGroups(p, codec, token, groupsAt).Failure? ==>
              r == Failure(GetAuthGroups(p, codec, token, groupsAt).error)
    ensures GetUserName(p, codec, token, nameAt) == Success(None) && GetAuthGroups(p, codec, token, groupsAt).Success? ==>
              r == Failure(IllegalArgumentException("username cannot be null"))
    ensures GetUserName(p, codec, token, nameAt) == Success(Some("")) && GetAuthGroups(p, codec, token, groupsAt).Success? ==>
              r == Failure(IllegalArgumentException("Cannot pass null or empty values to constructor"))
  {
    match GetUserName(p, codec, token, nameAt)
    case Failure(f) => Failure(JwtException(f))
    case Success(name) =>
      match GetAuthGroups(p, codec, token, groupsAt)
      case Failure(e) => Failure(e)
      case Success(authorities) =>
        if name.None? then Failure(IllegalArgumentException("username cannot be null"))
        else if name.value == "" then Failure(IllegalArgumentException("Cannot pass null or empty values to constructor"))
        else Success(Some(TokenUser(name.value, "", authorities, true, true, true, true)))
  }

  /**
   * The token path on a token the provider created for a user with a non-empty name: before
   * expiry it yields that user with the "ROLE_"-prefixed authorities. These differ from the
   * bare labels the login path gives the same user.
   */
  lemma TokenPathOfCreatedToken(p: JwtTokenProvider, codec: Codec, username: string, groups: set<Principals.AuthUserGroup>,
                                issuedAt: long, nameAt: int, groupsAt: int)
    requires Lawful(codec)
    requires username != ""
    requires nameAt <= ExpiresAt(p, issuedAt) && groupsAt <= ExpiresAt(p, issuedAt)
    ensures LoadUserByJwtToken(p, codec, codec.sign(BuildJws(p, username, groups, issuedAt)), nameAt, groupsAt)
            == Success(Some(TokenUser(username, "", RoleAuthorities(groups), true, true, true, true)))
  {
    UserNameRoundTrip(p, codec, username, groups, issuedAt, nameAt);
    AuthGroupsRoundTrip(p, codec, username, groups, issuedAt, groupsAt);
  }

  /** When no other row shares its username, the login path wraps exactly that user. */
  lemma LoginPathFindsStoredUser(users: seq<User>, i: int)
    requires 0 <= i < |users|
    requires forall k :: 0 <= k < |users| && users[k].username == users[i].username ==> k == i
    ensures LoadUserByUsername(users, users[i].username)
            == Success(Principal(CsrUserPrincipal(users[i], users[i].authUserGroups)))
  {
    FindStoredUser(users, i);
  }
}
