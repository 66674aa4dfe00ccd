/** AuthUserGroupEnum: the authority groups a user can belong to, each with its label. */
module AuthUserGroups {
  import opened Wrappers
  import opened Text
  import Labels

  datatype AuthUserGroupEnum = CSR_ADMIN | CSR_USER | VIEWER {
    function GetLabel(): string {
      match this
      case CSR_ADMIN => "CSR_ADMIN"
      case CSR_USER => "CSR_USER"
      case VIEWER => "VIEWER"
    }

    /** ordinal(): the position in the declaration. */
    function Ordinal(): nat {
      match this
      case CSR_ADMIN => 0
      case CSR_USER => 1
      case VIEWER => 2
    }
  }

  /** AuthUserGroupEnum.values(): the constants in declaration order. */
  function Values(): (vs: seq<AuthUserGroupEnum>)
    ensures |vs| == 3
    ensures forall g: AuthUserGroupEnum :: g.Ordinal() < |vs| && vs[g.Ordinal()] == g
  {
    [CSR_ADMIN, CSR_USER, VIEWER]
  }

  function LabelOf(g: AuthUserGroupEnum): string {
    g.GetLabel()
  }

  /** The first constant, in declaration order, whose label equals the argument ignoring case. */
  function FindByLabel(s: Option<string>): (r: Option<AuthUserGroupEnum>)
    ensures r.Some? ==> s.Some? && EqualsIgnoreCase(r.value.GetLabel(), s.value)
    ensures r.None? <==> s.None? || forall g: AuthUserGroupEnum :: !EqualsIgnoreCase(g.GetLabel(), s.value)
    ensures r.Some? ==> forall g: AuthUserGroupEnum :: g.Ordinal() < r.value.Ordinal() ==>
                          !EqualsIgnoreCase(g.GetLabel(), s.value)
  {
    Labels.FindFirst(Values(), LabelOf, s)
  }

  /** The three labels differ even ignoring case: at most one constant ever matches. */
  lemma LabelsDistinct()
    ensures Labels.DistinctIgnoringCase(Values(), LabelOf)
  {
    assert |"CSR_ADMIN"| == 9 && |"CSR_USER"| == 8 && |"VIEWER"| == 6;
  }

  /** findByLabel(g.getLabel()) == g for every constant. */
  lemma FindByOwnLabel(g: AuthUserGroupEnum)
    ensures FindByLabel(Some(g.GetLabel())) == Some(g)
  {
    LabelsDistinct();
    Labels.FindOwnLabel(Values(), LabelOf, g.Ordinal());
  }

  /** Matching ignores case: "csr_user" finds CSR_USER; null finds nothing. */
  lemma FindByLabelExamples()
    ensures FindByLabel(Some("csr_user")) == Some(CSR_USER)
    ensures FindByLabel(Some("Viewer")) == Some(VIEWER)
    ensures FindByLabel(Some("ROLE_CSR_USER")) == None
    ensures FindByLabel(None) == None
  {
    assert EqualsIgnoreCase("CSR_USER", "csr_user");
    assert !EqualsIgnoreCase("CSR_ADMIN", "csr_user");
    assert EqualsIgnoreCase("VIEWER", "Viewer");
    assert |"ROLE_CSR_USER"| == 13;
  }
}
