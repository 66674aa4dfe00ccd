/**
 * The user entities and the login-path principal: User and AuthUserGroup rows as values, and
 * CsrUserPrincipal, the UserDetails built around a stored user.
 */
module Principals {
  import opened Wrappers
  import opened Text
  import opened AuthUserGroups
  import SetImages

  /** A row of auth_user_group: a generated id, the group constant and its description. */
  datatype AuthUserGroup = AuthUserGroup(id: int, authGroup: AuthUserGroupEnum, description: string)

  /** A row of user; its group set is null until one is assigned. The generated id is left out. */
  datatype User = User(username: string, password: string, firstName: string, lastName: string,
                       email: string, authUserGroups: Option<set<AuthUserGroup>>)

  /** The three group labels, the only texts a login-path authority can hold. */
  predicate IsGroupLabel(a: string) {
    a == "CSR_ADMIN" || a == "CSR_USER" || a == "VIEWER"
  }

  function GroupLabel(g: AuthUserGroup): string {
    g.authGroup.GetLabel()
  }

  datatype CsrUserPrincipal = CsrUserPrincipal(user: User, authUserGroups: Option<set<AuthUserGroup>>) {

    /**
     * getAuthorities: no authorities for a null group set; otherwise one authority per distinct
     * group label, the bare label with no "ROLE_" prefix.
     */
    function GetAuthorities(): (r: set<string>)
      ensures authUserGroups.None? ==> r == {}
      ensures authUserGroups.Some? ==>
                forall a :: a in r <==> exists g :: g in authUserGroups.value && g.authGroup.GetLabel() == a
      ensures authUserGroups.Some? ==> |r| <= |authUserGroups.value|
      ensures forall a :: a in r ==> IsGroupLabel(a) && !StartsWith(a, "ROLE_")
      ensures |r| <= 3
    {
      if authUserGroups.None? then {}
      else
        var r := set g | g in authUserGroups.value :: GroupLabel(g);
        SetImages.ImageNoLarger(authUserGroups.value, GroupLabel, r);
        assert forall a :: a in r ==> IsGroupLabel(a);
        SetImages.SubsetNoLarger(r, {"CSR_ADMIN", "CSR_USER", "VIEWER"});
        FirstCharNotPrefix("CSR_ADMIN", "ROLE_");
        FirstCharNotPrefix("CSR_USER", "ROLE_");
        FirstCharNotPrefix("VIEWER", "ROLE_");
        r
    }

    function GetPassword(): string {
      user.password
    }

    function GetUsername(): string {
      user.username
    }

    /** The four account-status checks of UserDetails all pass for every stored user. */
    function IsAccountNonExpired(): (b: bool)
      ensures b
    {
      true
    }

    function IsAccountNonLocked(): (b: bool)
      ensures b
    {
      true
    }

    function IsCredentialsNonExpired(): (b: bool)
      ensures b
    {
      true
    }

    function IsEnabled(): (b: bool)
      ensures b
    {
      true
    }
  }

  /** The principal's name and password are those of the user it wraps. */
  lemma CredentialsOfUser(user: User, groups: Option<set<AuthUserGroup>>)
    ensures CsrUserPrincipal(user, groups).GetUsername() == user.username
    ensures CsrUserPrincipal(user, groups).GetPassword() == user.password
  {
  }

  /** Groups of the same constant collapse to one authority. */
  lemma SameGroupTwice(user: User, a: AuthUserGroup, b: AuthUserGroup)
    requires a != b && a.authGroup == b.authGroup
    ensures |CsrUserPrincipal(user, Some({a, b})).GetAuthorities()| == 1
  {
    var r := CsrUserPrincipal(user, Some({a, b})).GetAuthorities();
    assert GroupLabel(a) in r;
    assert r == {GroupLabel(a)};
  }
}
