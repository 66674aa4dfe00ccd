/**
 * UserService: sign-in and registration over the user table. The password encoder and its
 * matcher are function values. Authentication follows the DAO provider Spring Security uses
 * with CsrUserDetailsService: the stored user is loaded by name, its account checks all pass,
 * and the raw password must match the stored encoding.
 */
module UserServices {
  import opened Wrappers
  import opened Text
  import opened Exceptions
  import opened AuthUserGroups
  import opened Principals
  import opened JwtProvider
  import opened UserDetailsService

  const CSR_USER_AUTH_GROUP := "CSR_USER"

  /** No two users share a username. */
  predicate DistinctUsernames(users: seq<User>) {
    forall j, k :: 0 <= j < k < |users| ==> users[j].username != users[k].username
  }

  /** The rows of the auth_user_group table whose group is g. */
  function RowsOfGroup(groups: seq<Principals.AuthUserGroup>, g: AuthUserGroupEnum): (rows: seq<Principals.AuthUserGroup>)
    ensures forall x :: x in rows <==> x in groups && x.authGroup == g
    ensures |rows| <= |groups|
    decreases |groups|
  {
    if |groups| == 0 then []
    else (if groups[0].authGroup == g then [groups[0]] else []) + RowsOfGroup(groups[1..], g)
  }

  /**
   * authUserGroupRepository.findByAuthGroup: the one row of that group, null when there is
   * none (and for a null argument), and IncorrectResultSize when there are several.
   */
  function FindByAuthGroup(groups: seq<Principals.AuthUserGroup>, g: Option<AuthUserGroupEnum>)
    : (r: Result<Option<Principals.AuthUserGroup>, Exception>)
    ensures g.None? ==> r == Success(None)
    ensures g.Some? ==> (r == Success(None) <==> forall x :: x in groups ==> x.authGroup != g.value)
    ensures r.Success? && r.value.Some? ==> r.value.value in groups && Some(r.value.value.authGroup) == g
    ensures r.Failure? ==> r.error.IncorrectResultSize? && r.error.actual > 1
  {
    if g.None? then Success(None)
    else
      var rows := RowsOfGroup(groups, g.value);
      if |rows| == 0 then Success(None)
      else if |rows| == 1 then
        assert rows[0] in rows;
        Success(Some(rows[0]))
      else Failure(IncorrectResultSize(1, |rows|))
  }

  /**
   * signin as a function of the store: no user of that name gives an empty result, and several
   * make the lookup throw IncorrectResultSize; a user whose password does not match gives the
   * 403 CustomException; otherwise the token createToken makes for the name and the stored groups.
   */
  function Signin(users: seq<User>, p: JwtTokenProvider, codec: Codec, matches: (string, string) -> bool,
                  username: string, password: string, now: long): (r: Result<Option<string>, Exception>)
    ensures r == Success(None) <==> forall k :: 0 <= k < |users| ==> users[k].username != username
    ensures r.Failure? && r.error.IncorrectResultSize? <==> Repeated(users, username)
  {
    match FindByUsername(users, username)
    case Failure(e) => Failure(e)
    case Success(None) => Success(None)
    case Success(Some(user)) =>
      if !matches(password, user.password) then Failure(CustomException(FORBIDDEN, "User authentication failed."))
      else
        match CreateToken(p, codec, username, user.authUserGroups, now)
        case Success(token) => Success(Some(token))
        case Failure(e) => Failure(e)
  }

  /** An unknown username signs in to nothing, without an exception and without a token. */
  lemma SigninUnknownUser(users: seq<User>, p: JwtTokenProvider, codec: Codec, matches: (string, string) -> bool,
                          username: string, password: string, now: long)
    requires forall k :: 0 <= k < |users| ==> users[k].username != username
    ensures Signin(users, p, codec, matches, username, password, now) == Success(None)
  {
  }

  /** A wrong password for a stored user is refused with the 403 CustomException. */
  lemma SigninWrongPassword(users: seq<User>, p: JwtTokenProvider, codec: Codec, matches: (string, string) -> bool,
                            i: int, password: string, now: long)
    requires 0 <= i < |users| && !matches(password, users[i].password)
    requires forall k :: 0 <= k < |users| && users[k].username == users[i].username ==> k == i
    ensures Signin(users, p, codec, matches, users[i].username, password, now)
            == Failure(CustomException(FORBIDDEN, "User authentication failed."))
  {
    LoginPathFindsStoredUser(users, i);
  }

  /** A matching password gives the token of the name and the user's stored groups. */
  lemma SigninMatchingPassword(users: seq<User>, p: JwtTokenProvider, codec: Codec, matches: (string, string) -> bool,
                               i: int, password: string, now: long)
    requires 0 <= i < |users| && matches(password, users[i].password) && users[i].authUserGroups.Some?
    requires forall k :: 0 <= k < |users| && users[k].username == users[i].username ==> k == i
    ensures Signin(users, p, codec, matches, users[i].username, password, now)
            == Success(Some(codec.sign(BuildJws(p, users[i].username, users[i].authUserGroups.value, now))))
  {
    LoginPathFindsStoredUser(users, i);
  }

  class UserService {
    /** The user table, in insertion order. */
    var users: seq<User>
    /** The auth_user_group table. */
    const groups: seq<Principals.AuthUserGroup>
    const provider: JwtTokenProvider
    const codec: Codec
    /** passwordEncoder.encode and passwordEncoder.matches. */
    const encode: string -> string
    const matches: (string, string) -> bool

    /** No two stored users share a name. The table does not enforce it, but register never breaks it. */
    ghost predicate NamesDistinct()
      reads this
    {
      DistinctUsernames(users)
    }

    constructor (users: seq<User>, groups: seq<Principals.AuthUserGroup>, provider: JwtTokenProvider, codec: Codec,
                 encode: string -> string, matches: (string, string) -> bool)
      ensures this.users == users && this.groups == groups && this.provider == provider && this.codec == codec
      ensures this.encode == encode && this.matches == matches
    {
      this.users := users;
      this.groups := groups;
      this.provider := provider;
      this.codec := codec;
      this.encode := encode;
      this.matches := matches;
    }

    /** signin; the store is only read. */
    method SignIn(username: string, password: string, now: long) returns (r: Result<Option<string>, Exception>)
      ensures r == Signin(users, provider, codec, matches, username, password, now)
    {
      var jwtToken: Option<string> := None;
      var foundUser := FindByUsername(users, username);
      if foundUser.Failure? {
        return Failure(foundUser.error);
      }
      if foundUser.value.Some? {
        if !matches(password, foundUser.value.value.password) {
          return Failure(CustomException(FORBIDDEN, "User authentication failed."));
        }
        var token := CreateToken(provider, codec, username, foundUser.value.value.authUserGroups, now);
        if token.Failure? {
          return Failure(token.error);
        }
        jwtToken := Some(token.value);
      }
      return Success(jwtToken);
    }

    /**
     * register: an existing username leaves the table as it is and gives an empty result, and a
     * username stored twice makes the lookup throw; otherwise one user is appended with the
     * encoded password and the CSR_USER group row. A missing CSR_USER row makes Set.of(null)
     * throw, and several rows make the group lookup throw; nothing is stored then.
     */
    method Register(username: string, password: string, firstName: string, lastName: string, email: string)
      returns (r: Result<Option<User>, Exception>)
      modifies this
      ensures old(NamesDistinct()) ==> NamesDistinct()
      ensures FindByUsername(old(users), username).Failure? ==>
                r == Failure(FindByUsername(old(users), username).error) && users == old(users)
      ensures FindByUsername(old(users), username).Success? && FindByUsername(old(users), username).value.Some? ==>
                r == Success(None) && users == old(users)
      ensures FindByUsername(old(users), username) == Success(None) ==>
                match FindByAuthGroup(groups, Some(CSR_USER))
                case Failure(e) => r == Failure(e) && users == old(users)
                case Success(None) => r == Failure(NullPointerException) && users == old(users)
                case Success(Some(g)) =>
                  var user := User(username, encode(password), firstName, lastName, email, Some({g}));
                  r == Success(Some(user)) && users == old(users) + [user]
                  && FindByUsername(users, username) == Success(Some(user))
    {
      var foundUser := FindByUsername(users, username);
      if foundUser.Failure? {
        return Failure(foundUser.error);
      }
      if foundUser.value.Some? {
        return Success(None);
      }
      FindCsrUserLabel();
      var authUserGroup := FindByAuthGroup(groups, FindByLabel(Some(CSR_USER_AUTH_GROUP)));
      if authUserGroup.Failure? {
        return Failure(authUserGroup.error);
      }
      if authUserGroup.value.None? {
        return Failure(NullPointerException);
      }
      var user := User(username, encode(password), firstName, lastName, email, Some({authUserGroup.value.value}));
      AppendNewUsername(users, user);
      users := users + [user];
      return Success(Some(user));
    }

    /**
     * getUser: the stored user of that name, if any, and IncorrectResultSize when several users
     * have it; the store is only read.
     */
    method GetUser(username: string) returns (r: Result<Option<User>, Exception>)
      ensures r == Success(None) <==> forall k :: 0 <= k < |users| ==> users[k].username != username
      ensures r.Success? && r.value.Some? ==> r.value.value in users && r.value.value.username == username
      ensures r.Failure? <==> Repeated(users, username)
      ensures r.Failure? ==> r.error.IncorrectResultSize? && r.error.actual >= 2
    {
      r := FindByUsername(users, username);
    }

    /** getAll: every stored user, in table order. */
    method GetAll() returns (r: seq<User>)
      ensures r == users
    {
      r := users;
    }
  }

  /** The CSR_USER constant is what findByLabel("CSR_USER") finds. */
  lemma FindCsrUserLabel()
    ensures FindByLabel(Some(CSR_USER_AUTH_GROUP)) == Some(CSR_USER)
  {
    FindByOwnLabel(CSR_USER);
  }

  /**
   * Appending a user whose name is not yet stored makes it the one found by that name, and keeps
   * names distinct when they were.
   */
  lemma AppendNewUsername(users: seq<User>, user: User)
    requires FindByUsername(users, user.username) == Success(None)
    ensures FindByUsername(users + [user], user.username) == Success(Some(user))
    ensures DistinctUsernames(users) ==> DistinctUsernames(users + [user])
  {
    var all := users + [user];
    assert all[|users|] == user;
    assert forall k :: 0 <= k < |users| ==> all[k] == users[k];
    FindStoredUser(all, |users|);
  }

  /**
   * Registration followed by sign-in: a newly registered user who presents the raw password
   * (which the matcher accepts against its own encoding) receives the token for the name and
   * the single CSR_USER group, whose AUTH_GROUP claim is {"ROLE_CSR_USER"}.
   */
  lemma RegisterThenSignin(users: seq<User>, p: JwtTokenProvider, codec: Codec, encode: string -> string,
                           matches: (string, string) -> bool, g: Principals.AuthUserGroup,
                           username: string, password: string, firstName: string, lastName: string, email: string,
                           now: long)
    requires FindByUsername(users, username) == Success(None)
    requires matches(password, encode(password))
    requires g.authGroup == CSR_USER
    ensures var user := User(username, encode(password), firstName, lastName, email, Some({g}));
            Signin(users + [user], p, codec, matches, username, password, now)
            == Success(Some(codec.sign(BuildJws(p, username, {g}, now))))
    ensures RoleAuthorities({g}) == {"ROLE_CSR_USER"}
  {
    var user := User(username, encode(password), firstName, lastName, email, Some({g}));
    AppendNewUsername(users, user);
    assert RoleOf(g) == "ROLE_CSR_USER";
    assert RoleAuthorities({g}) == {RoleOf(g)};
  }
}
