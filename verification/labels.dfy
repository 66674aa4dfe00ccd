/**
 * The search shared by the three enums' findByLabel: walk the constants in declaration order
 * and return the first whose label equals the argument ignoring case; null when none does
 * (a null argument matches nothing).
 */
module Labels {
  import opened Wrappers
  import opened Text

  predicate Matches<E>(labelOf: E -> string, query: Option<string>, e: E) {
    query.Some? && EqualsIgnoreCase(labelOf(e), query.value)
  }

  /** The first of values whose label matches query. */
  function FindFirst<E>(values: seq<E>, labelOf: E -> string, query: Option<string>): (r: Option<E>)
    ensures r.None? <==> forall k :: 0 <= k < |values| ==> !Matches(labelOf, query, values[k])
    ensures r.Some? ==> exists i :: 0 <= i < |values| && values[i] == r.value
                                    && Matches(labelOf, query, values[i])
                                    && forall k :: 0 <= k < i ==> !Matches(labelOf, query, values[k])
    decreases |values|
  {
    if |values| == 0 then None
    else if Matches(labelOf, query, values[0]) then Some(values[0])
    else
      var r := FindFirst(values[1..], labelOf, query);
      assert forall k :: 1 <= k < |values| ==> values[k] == values[1..][k - 1];
      r
  }

  /** No two constants have labels that are equal ignoring case. */
  predicate DistinctIgnoringCase<E>(values: seq<E>, labelOf: E -> string) {
    forall i, j :: 0 <= i < |values| && 0 <= j < |values| && i != j ==>
      !EqualsIgnoreCase(labelOf(values[i]), labelOf(values[j]))
  }

  /** With distinct labels, a constant's own label finds that constant. */
  lemma FindOwnLabel<E>(values: seq<E>, labelOf: E -> string, i: int)
    requires DistinctIgnoringCase(values, labelOf)
    requires 0 <= i < |values|
    ensures FindFirst(values, labelOf, Some(labelOf(values[i]))) == Some(values[i])
  {
    var r := FindFirst(values, labelOf, Some(labelOf(values[i])));
    assert Matches(labelOf, Some(labelOf(values[i])), values[i]);
    var j :| 0 <= j < |values| && values[j] == r.value && Matches(labelOf, Some(labelOf(values[i])), values[j]);
    AtMostOneMatch(values, labelOf, Some(labelOf(values[i])), i, j);
  }

  /** With distinct labels, at most one constant matches any query. */
  lemma AtMostOneMatch<E>(values: seq<E>, labelOf: E -> string, query: Option<string>, i: int, j: int)
    requires DistinctIgnoringCase(values, labelOf)
    requires 0 <= i < |values| && 0 <= j < |values|
    requires Matches(labelOf, query, values[i]) && Matches(labelOf, query, values[j])
    ensures i == j
  {
    EqualsIgnoreCaseEquivalence(labelOf(values[j]), query.value, labelOf(values[i]));
    EqualsIgnoreCaseEquivalence(labelOf(values[i]), query.value, labelOf(values[j]));
  }
}
