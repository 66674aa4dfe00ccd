/** Cardinality facts about the image of a set, for the stream map/collect(toSet()) pipelines. */
module SetImages {

  /** A set whose every element is f of some element of s has no more elements than s. */
  lemma {:induction false} ImageNoLarger<T, U>(s: set<T>, f: T -> U, image: set<U>)
    requires forall y :: y in image ==> exists x :: x in s && f(x) == y
    ensures |image| <= |s|
    decreases |s|
  {
    if s != {} {
      var x :| x in s;
      var rest, restImage := s - {x}, image - {f(x)};
      forall y | y in restImage
        ensures exists x' :: x' in rest && f(x') == y
      {
        var w :| w in s && f(w) == y;
        assert w in rest;
      }
      ImageNoLarger(rest, f, restImage);
    } else {
      assert forall y :: y !in image;
      assert image == {};
    }
  }

  /** A subset has no more elements than its superset. */
  lemma {:induction false} SubsetNoLarger<T>(a: set<T>, b: set<T>)
    requires a <= b
    ensures |a| <= |b|
    decreases |b|
  {
    if a != {} {
      var x :| x in a;
      SubsetNoLarger(a - {x}, b - {x});
    }
  }
}
