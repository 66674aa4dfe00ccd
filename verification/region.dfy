/** RegionEnum: the region of a tour; the labels hold a space where the constant names hold '_'. */
module Regions {
  import opened Wrappers
  import opened Text
  import Labels

  datatype RegionEnum = Central_Coast | East_Coast | West_Coast {
    function GetLabel(): string {
      match this
      case Central_Coast => "Central Coast"
      case East_Coast => "East Coast"
      case West_Coast => "West Coast"
    }

    /** ordinal(): the position in the declaration. */
    function Ordinal(): nat {
      match this
      case Central_Coast => 0
      case East_Coast => 1
      case West_Coast => 2
    }
  }

  /** RegionEnum.values(): the constants in declaration order. */
  function Values(): (vs: seq<RegionEnum>)
    ensures |vs| == 3
    ensures forall r: RegionEnum :: r.Ordinal() < |vs| && vs[r.Ordinal()] == r
  {
    [Central_Coast, East_Coast, West_Coast]
  }

  function LabelOf(r: RegionEnum): string {
    r.GetLabel()
  }

  /** The first constant, in declaration order, whose label equals the argument ignoring case. */
  function FindByLabel(s: Option<string>): (r: Option<RegionEnum>)
    ensures r.Some? ==> s.Some? && EqualsIgnoreCase(r.value.GetLabel(), s.value)
    ensures r.None? <==> s.None? || forall g: RegionEnum :: !EqualsIgnoreCase(g.GetLabel(), s.value)
    ensures r.Some? ==> forall g: RegionEnum :: g.Ordinal() < r.value.Ordinal() ==>
                          !EqualsIgnoreCase(g.GetLabel(), s.value)
  {
    Labels.FindFirst(Values(), LabelOf, s)
  }

  /** The three labels differ even ignoring case: at most one constant ever matches. */
  lemma LabelsDistinct()
    ensures Labels.DistinctIgnoringCase(Values(), LabelOf)
  {
    assert |"Central Coast"| == 13 && |"East Coast"| == 10;
    assert ToUpperAscii("East Coast"[0]) != ToUpperAscii("West Coast"[0]);
  }

  /** findByLabel(r.getLabel()) == r for every constant. */
  lemma FindByOwnLabel(r: RegionEnum)
    ensures FindByLabel(Some(r.GetLabel())) == Some(r)
  {
    LabelsDistinct();
    Labels.FindOwnLabel(Values(), LabelOf, r.Ordinal());
  }

  /** Matching ignores case: "west coast" finds West_Coast. */
  lemma FindByLabelIgnoresCase()
    ensures FindByLabel(Some("west coast")) == Some(West_Coast)
  {
    assert |"Central Coast"| != |"west coast"|;
    assert !EqualsIgnoreCase("East Coast", "west coast") by {
      assert ToUpperAscii("East Coast"[0]) != ToUpperAscii("west coast"[0]);
    }
    assert EqualsIgnoreCase("West Coast", "west coast");
  }

  /** A constant's own name is not its label: "East_Coast" finds nothing. */
  lemma FindByConstantName()
    ensures FindByLabel(Some("East_Coast")) == None
  {
    assert |"Central Coast"| != |"East_Coast"|;
    assert !EqualsIgnoreCase("East Coast", "East_Coast") by {
      assert ToUpperAscii("East Coast"[4]) != ToUpperAscii("East_Coast"[4]);
    }
    assert !EqualsIgnoreCase("West Coast", "East_Coast") by {
      assert ToUpperAscii("West Coast"[0]) != ToUpperAscii("East_Coast"[0]);
    }
  }

  lemma FindByLabelNull()
    ensures FindByLabel(None) == None
  {
  }
}
