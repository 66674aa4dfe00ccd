/** DifficultyEnum: the level of effort of a tour, each with its label. */
module Difficulties {
  import opened Wrappers
  import opened Text
  import Labels

  datatype DifficultyEnum = Easy | Medium | Hard | Varies {
    function GetLabel(): string {
      match this
      case Easy => "Easy"
      case Medium => "Medium"
      case Hard => "Hard"
      case Varies => "Varies"
    }

    /** ordinal(): the position in the declaration. */
    function Ordinal(): nat {
      match this
      case Easy => 0
      case Medium => 1
      case Hard => 2
      case Varies => 3
    }
  }

  /** DifficultyEnum.values(): the constants in declaration order. */
  function Values(): (vs: seq<DifficultyEnum>)
    ensures |vs| == 4
    ensures forall d: DifficultyEnum :: d.Ordinal() < |vs| && vs[d.Ordinal()] == d
  {
    [Easy, Medium, Hard, Varies]
  }

  function LabelOf(d: DifficultyEnum): string {
    d.GetLabel()
  }

  /** The first constant, in declaration order, whose label equals the argument ignoring case. */
  function FindByLabel(s: Option<string>): (r: Option<DifficultyEnum>)
    ensures r.Some? ==> s.Some? && EqualsIgnoreCase(r.value.GetLabel(), s.value)
    ensures r.None? <==> s.None? || forall d: DifficultyEnum :: !EqualsIgnoreCase(d.GetLabel(), s.value)
    ensures r.Some? ==> forall d: DifficultyEnum :: d.Ordinal() < r.value.Ordinal() ==>
                          !EqualsIgnoreCase(d.GetLabel(), s.value)
  {
    Labels.FindFirst(Values(), LabelOf, s)
  }

  /** The four labels differ even ignoring case: at most one constant ever matches. */
  lemma LabelsDistinct()
    ensures Labels.DistinctIgnoringCase(Values(), LabelOf)
  {
    // Easy/Hard and Medium/Varies have equal lengths and differ in their first letter.
    assert ToUpperAscii("Easy"[0]) != ToUpperAscii("Hard"[0]);
    assert ToUpperAscii("Medium"[0]) != ToUpperAscii("Varies"[0]);
  }

  /** findByLabel(d.getLabel()) == d for every constant. */
  lemma FindByOwnLabel(d: DifficultyEnum)
    ensures FindByLabel(Some(d.GetLabel())) == Some(d)
  {
    LabelsDistinct();
    Labels.FindOwnLabel(Values(), LabelOf, d.Ordinal());
  }

  /** Matching ignores case: "HARD" finds Hard. */
  lemma FindByLabelIgnoresCase()
    ensures FindByLabel(Some("HARD")) == Some(Hard)
  {
    assert !EqualsIgnoreCase("Easy", "HARD") by { assert ToUpperAscii("Easy"[0]) != ToUpperAscii("HARD"[0]); }
    assert |"Medium"| != |"HARD"|;
    assert EqualsIgnoreCase("Hard", "HARD");
  }

  /** A label that no constant has, and null, find nothing. */
  lemma FindByLabelUnknown()
    ensures FindByLabel(Some("Difficult")) == None
    ensures FindByLabel(None) == None
  {
    assert |"Difficult"| == 9;
  }
}
