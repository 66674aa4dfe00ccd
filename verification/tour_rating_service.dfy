/**
 * TourRatingService over the tour table (read only) and the tour_rating table, a sequence of
 * rows in insertion order. Every operation runs in one transaction: when it throws, the table
 * is left as it was. The store refuses a row with a null score (rating_score is NOT NULL).
 */
module TourRatingServices {
  import opened Wrappers
  import opened Text
  import opened Exceptions
  import opened TourRatings

  const RATING_SCORE := "rating_score"

  /** An operation's result and the rating table after it. */
  datatype Step<T> = Step(result: Result<T, Exception>, ratings: seq<TourRating>)

  /** The table holds no row with a null score. */
  predicate ScoresPresent(ratings: seq<TourRating>) {
    forall k :: 0 <= k < |ratings| ==> ratings[k].ratingScore.Some?
  }

  /** The tour table is keyed by id: findById(id) returns the tour whose id is id. */
  predicate ToursKeyed(tours: map<int, Tour>) {
    forall id :: id in tours ==> tours[id].id == id
  }

  function TourNotFound(tourId: int): Exception {
    NoSuchElementException("Tour does not exist " + IntToString(tourId))
  }

  function RatingNotFound(tourId: int, customerId: int): Exception {
    NoSuchElementException("Tour rating does not exist for tourId(" + IntToString(tourId)
                           + ") for customer( " + IntToString(customerId) + ")")
  }

  predicate IsRatingOf(r: TourRating, tourId: int, customerId: int) {
    r.tour.id == tourId && r.customerId == customerId
  }

  /** The positions at or after i of the rows for that tour and customer, in increasing order. */
  function MatchesFrom(ratings: seq<TourRating>, tourId: int, customerId: int, i: nat): (ks: seq<nat>)
    requires i <= |ratings|
    ensures forall j :: 0 <= j < |ks| ==> i <= ks[j] < |ratings| && IsRatingOf(ratings[ks[j]], tourId, customerId)
    ensures forall k :: i <= k < |ratings| && IsRatingOf(ratings[k], tourId, customerId) ==> k in ks
    ensures forall j1, j2 :: 0 <= j1 < j2 < |ks| ==> ks[j1] < ks[j2]
    decreases |ratings| - i
  {
    if i == |ratings| then []
    else if IsRatingOf(ratings[i], tourId, customerId) then [i] + MatchesFrom(ratings, tourId, customerId, i + 1)
    else MatchesFrom(ratings, tourId, customerId, i + 1)
  }

  /**
   * findTourRating: the position of the one row for that tour and customer; NoSuchElementException
   * when there is none, and IncorrectResultSize from the single-result query when there are several.
   */
  function FindTourRating(ratings: seq<TourRating>, tourId: int, customerId: int): (r: Result<nat, Exception>)
    ensures r.Success? ==> r.value < |ratings| && IsRatingOf(ratings[r.value], tourId, customerId)
    ensures r.Success? ==> forall k :: 0 <= k < |ratings| && IsRatingOf(ratings[k], tourId, customerId) ==> k == r.value
    ensures r == Failure(RatingNotFound(tourId, customerId)) <==>
              forall k :: 0 <= k < |ratings| ==> !IsRatingOf(ratings[k], tourId, customerId)
    ensures r.Failure? && r.error.IncorrectResultSize? ==>
              exists j, k :: 0 <= j < k < |ratings| && IsRatingOf(ratings[j], tourId, customerId)
                             && IsRatingOf(ratings[k], tourId, customerId)
    ensures r.Failure? ==> r == Failure(RatingNotFound(tourId, customerId)) || r.error.IncorrectResultSize?
  {
    var ks := MatchesFrom(ratings, tourId, customerId, 0);
    if |ks| == 0 then Failure(RatingNotFound(tourId, customerId))
    else if |ks| == 1 then Success(ks[0])
    else
      assert ks[0] < ks[1];
      Failure(IncorrectResultSize(1, |ks|))
  }

  /** createNewRating: an unknown tour throws; otherwise the built rating is appended, with no duplicate check. */
  function CreateNewRating(tours: map<int, Tour>, ratings: seq<TourRating>, tourId: int, customerId: int,
                           ratingScore: Option<int>, comment: Option<string>): (s: Step<TourRating>)
    ensures tourId !in tours ==> s == Step(Failure(TourNotFound(tourId)), ratings)
    ensures s.result.Failure? ==> s.ratings == ratings
    ensures s.result.Success? <==> tourId in tours && ratingScore.Some?
    ensures s.result.Success? ==>
              s.ratings == ratings + [s.result.value]
              && s.result.value.tour == tours[tourId] && s.result.value.customerId == customerId
              && s.result.value.ratingScore == ratingScore
              && s.result.value.comment == (if comment.Some? then comment else Some(ToComment(ratingScore.value)))
  {
    if tourId !in tours then Step(Failure(TourNotFound(tourId)), ratings)
    else
      match NewTourRating(tours[tourId], customerId, ratingScore, comment)
      case Failure(e) => Step(Failure(e), ratings)
      case Success(t) =>
        if t.ratingScore.None? then Step(Failure(NotNullViolation(RATING_SCORE)), ratings)
        else Step(Success(t), ratings + [t])
  }

  /** The ratings createNewRatings builds: one per customer, in order, with the score and its default comment. */
  function Batch(tour: Tour, customerIds: seq<int>, score: int): (b: seq<TourRating>)
    ensures |b| == |customerIds|
    ensures forall i :: 0 <= i < |b| ==> b[i] == TourRating(tour, customerIds[i], Some(score), Some(ToComment(score)))
  {
    seq(|customerIds|, i requires 0 <= i < |customerIds| =>
      TourRating(tour, customerIds[i], Some(score), Some(ToComment(score))))
  }

  /**
   * createNewRatings: an unknown tour gives an empty list and stores nothing, without an error;
   * a known tour stores Batch for the customers. A null score makes the first rating's default
   * comment throw, so nothing is stored.
   */
  function CreateNewRatings(tours: map<int, Tour>, ratings: seq<TourRating>, tourId: int, customerIds: seq<int>,
                            ratingScore: Option<int>): (s: Step<seq<TourRating>>)
    ensures tourId !in tours ==> s == Step(Success([]), ratings)
    ensures s.result.Failure? <==> tourId in tours && |customerIds| > 0 && ratingScore.None?
    ensures s.result.Failure? ==> s == Step(Failure(NullPointerException), ratings)
    ensures s.result.Success? ==> s.ratings == ratings + s.result.value && |s.result.value| == (if tourId in tours then |customerIds| else 0)
    ensures s.result.Success? && tourId in tours && ratingScore.Some? ==>
              s.result.value == Batch(tours[tourId], customerIds, ratingScore.value)
  {
    if tourId !in tours || |customerIds| == 0 then Step(Success([]), ratings)
    else if ratingScore.None? then Step(Failure(NullPointerException), ratings)
    else
      var b := Batch(tours[tourId], customerIds, ratingScore.value);
      Step(Success(b), ratings + b)
  }

  /**
   * updateRating: both the score and the comment of the one matching row are replaced (a null
   * comment stays null). A null score is refused when the row is written.
   */
  function UpdateRating(ratings: seq<TourRating>, tourId: int, customerId: int, ratingScore: Option<int>,
                        comment: Option<string>): (s: Step<TourRating>)
    ensures s.result.Failure? ==> s.ratings == ratings
    ensures FindTourRating(ratings, tourId, customerId).Failure? ==>
              s.result == Failure(FindTourRating(ratings, tourId, customerId).error)
    ensures s.result.Success? <==> FindTourRating(ratings, tourId, customerId).Success? && ratingScore.Some?
    ensures s.result.Success? ==>
              var k := FindTourRating(ratings, tourId, customerId).value;
              s.ratings == ratings[k := s.result.value]
              && s.result.value == ratings[k].(ratingScore := ratingScore, comment := comment)
  {
    match FindTourRating(ratings, tourId, customerId)
    case Failure(e) => Step(Failure(e), ratings)
    case Success(k) =>
      var target := ratings[k].(ratingScore := ratingScore, comment := comment);
      if target.ratingScore.None? then Step(Failure(NotNullViolation(RATING_SCORE)), ratings)
      else Step(Success(target), ratings[k := target])
  }

  /** The score updateSomeRating keeps: the new one only when it is non-null and positive. */
  function PatchedScore(current: Option<int>, ratingScore: Option<int>): Option<int> {
    if ratingScore.Some? && ratingScore.value > 0 then ratingScore else current
  }

  /** updateSomeRating: the score is replaced only by a positive one, the comment only by a non-null one. */
  function UpdateSomeRating(ratings: seq<TourRating>, tourId: int, customerId: int, ratingScore: Option<int>,
                            comment: Option<string>): (s: Step<TourRating>)
    ensures s.result.Failure? ==> s.ratings == ratings
    ensures FindTourRating(ratings, tourId, customerId).Failure? ==>
              s.result == Failure(FindTourRating(ratings, tourId, customerId).error)
    ensures s.result.Success? ==>
              var k := FindTourRating(ratings, tourId, customerId).value;
              s.ratings == ratings[k := s.result.value]
              && s.result.value.tour == ratings[k].tour && s.result.value.customerId == ratings[k].customerId
              && (ratingScore.Some? && ratingScore.value > 0 ==> s.result.value.ratingScore == ratingScore)
              && (!(ratingScore.Some? && ratingScore.value > 0) ==> s.result.value.ratingScore == ratings[k].ratingScore)
              && s.result.value.comment == (if comment.Some? then comment else ratings[k].comment)
    ensures FindTourRating(ratings, tourId, customerId).Success? ==>
              var k := FindTourRating(ratings, tourId, customerId).value;
              (s.result.Success? <==> PatchedScore(ratings[k].ratingScore, ratingScore).Some?)
              && (s.result.Failure? ==> s.result == Failure(NotNullViolation(RATING_SCORE)))
    ensures ScoresPresent(ratings) ==> (s.result.Success? <==> FindTourRating(ratings, tourId, customerId).Success?)
  {
    match FindTourRating(ratings, tourId, customerId)
    case Failure(e) => Step(Failure(e), ratings)
    case Success(k) =>
      var target := ratings[k].(ratingScore := PatchedScore(ratings[k].ratingScore, ratingScore),
                                comment := if comment.Some? then comment else ratings[k].comment);
      if target.ratingScore.None? then Step(Failure(NotNullViolation(RATING_SCORE)), ratings)
      else Step(Success(target), ratings[k := target])
  }

  /** delete: the one matching row is removed, and nothing else. */
  function Delete(ratings: seq<TourRating>, tourId: int, customerId: int): (s: Step<()>)
    ensures s.result.Failure? ==> s.ratings == ratings
    ensures s.result.Failure? <==> FindTourRating(ratings, tourId, customerId).Failure?
    ensures s.result.Failure? ==> s.result == Failure(FindTourRating(ratings, tourId, customerId).error)
    ensures s.result.Success? ==>
              var k := FindTourRating(ratings, tourId, customerId).value;
              s.ratings == ratings[..k] + ratings[k + 1..]
  {
    match FindTourRating(ratings, tourId, customerId)
    case Failure(e) => Step(Failure(e), ratings)
    case Success(k) => Step(Success(()), ratings[..k] + ratings[k + 1..])
  }

  /** The exact mean of a tour's scores, as a sum over a positive count. */
  datatype Average = Average(sum: int, count: nat)

  /** The scores of the rows of one tour, in table order. */
  function ScoresOf(ratings: seq<TourRating>, tourId: int): (s: seq<Option<int>>)
    ensures |s| <= |ratings|
    ensures |s| == 0 <==> forall k :: 0 <= k < |ratings| ==> ratings[k].tour.id != tourId
    ensures ScoresPresent(ratings) ==> forall j :: 0 <= j < |s| ==> s[j].Some?
    decreases |ratings|
  {
    if |ratings| == 0 then []
    else
      var rest := ScoresOf(ratings[1..], tourId);
      assert forall k :: 1 <= k < |ratings| ==> ratings[k] == ratings[1..][k - 1];
      if ratings[0].tour.id == tourId then [ratings[0].ratingScore] + rest else rest
  }

  function Sum(scores: seq<Option<int>>): int
    requires forall j :: 0 <= j < |scores| ==> scores[j].Some?
  {
    if |scores| == 0 then 0 else scores[0].value + Sum(scores[1..])
  }

  /**
   * getAverageRatingScore: null when the tour has no ratings, the mean of their scores
   * otherwise; it never looks the tour up. Unboxing a null score would throw.
   */
  function AverageRatingScore(ratings: seq<TourRating>, tourId: int): (r: Result<Option<Average>, Exception>)
    ensures r == Success(None) <==> forall k :: 0 <= k < |ratings| ==> ratings[k].tour.id != tourId
    ensures ScoresPresent(ratings) ==> r.Success?
    ensures r.Success? && r.value.Some? ==> r.value.value.count > 0
  {
    var scores := ScoresOf(ratings, tourId);
    if exists j :: 0 <= j < |scores| && scores[j].None? then Failure(NullPointerException)
    else if |scores| == 0 then Success(None)
    else Success(Some(Average(Sum(scores), |scores|)))
  }

  /** Scores between lo and hi give a mean between lo and hi. */
  lemma {:induction false} SumBounds(scores: seq<Option<int>>, lo: int, hi: int)
    requires forall j :: 0 <= j < |scores| ==> scores[j].Some? && lo <= scores[j].value <= hi
    ensures lo * |scores| <= Sum(scores) <= hi * |scores|
  {
    if |scores| > 0 {
      SumBounds(scores[1..], lo, hi);
    }
  }

  /** A rating created for a pair with no rating yet is the one findTourRating returns afterwards. */
  lemma CreateThenFind(tours: map<int, Tour>, ratings: seq<TourRating>, tourId: int, customerId: int,
                       ratingScore: Option<int>, comment: Option<string>)
    requires ToursKeyed(tours)
    requires forall k :: 0 <= k < |ratings| ==> !IsRatingOf(ratings[k], tourId, customerId)
    requires CreateNewRating(tours, ratings, tourId, customerId, ratingScore, comment).result.Success?
    ensures var s := CreateNewRating(tours, ratings, tourId, customerId, ratingScore, comment);
            FindTourRating(s.ratings, tourId, customerId) == Success(|ratings|)
  {
    var s := CreateNewRating(tours, ratings, tourId, customerId, ratingScore, comment);
    var t := s.ratings;
    assert t[|ratings|] == s.result.value;
    assert forall k :: 0 <= k < |ratings| ==> t[k] == ratings[k];
    assert IsRatingOf(t[|ratings|], tourId, customerId);
  }

  /**
   * createNewRating does not look for an existing rating: creating a second one for the same
   * tour and customer makes every later lookup of that pair fail with IncorrectResultSize.
   */
  lemma DuplicateCreateBreaksLookup(tours: map<int, Tour>, ratings: seq<TourRating>, tourId: int, customerId: int,
                                    ratingScore: Option<int>, comment: Option<string>, k: int)
    requires ToursKeyed(tours)
    requires 0 <= k < |ratings| && IsRatingOf(ratings[k], tourId, customerId)
    requires CreateNewRating(tours, ratings, tourId, customerId, ratingScore, comment).result.Success?
    ensures var s := CreateNewRating(tours, ratings, tourId, customerId, ratingScore, comment);
            FindTourRating(s.ratings, tourId, customerId).Failure?
            && FindTourRating(s.ratings, tourId, customerId).error.IncorrectResultSize?
  {
    var s := CreateNewRating(tours, ratings, tourId, customerId, ratingScore, comment);
    var t := s.ratings;
    assert t[k] == ratings[k] && t[|ratings|] == s.result.value;
    assert IsRatingOf(t[k], tourId, customerId) && IsRatingOf(t[|ratings|], tourId, customerId);
  }

  /** After a delete, the pair has no rating left, and every other row keeps its order. */
  lemma DeleteLeavesNoMatch(ratings: seq<TourRating>, tourId: int, customerId: int)
    requires Delete(ratings, tourId, customerId).result.Success?
    ensures var s := Delete(ratings, tourId, customerId);
            FindTourRating(s.ratings, tourId, customerId) == Failure(RatingNotFound(tourId, customerId))
            && |s.ratings| == |ratings| - 1
  {
    var k := FindTourRating(ratings, tourId, customerId).value;
    var t := Delete(ratings, tourId, customerId).ratings;
    assert forall j :: 0 <= j < |t| ==> t[j] == (if j < k then ratings[j] else ratings[j + 1]);
    forall j | 0 <= j < |t|
      ensures !IsRatingOf(t[j], tourId, customerId)
    {
      if j < k {
        assert t[j] == ratings[j];
      } else {
        assert t[j] == ratings[j + 1];
      }
    }
  }

  /** A rating row still belongs to the same tour and customer after updateSomeRating, so lookups still find it. */
  lemma UpdateSomeRatingKeepsLookup(ratings: seq<TourRating>, tourId: int, customerId: int,
                                    ratingScore: Option<int>, comment: Option<string>)
    requires UpdateSomeRating(ratings, tourId, customerId, ratingScore, comment).result.Success?
    ensures var s := UpdateSomeRating(ratings, tourId, customerId, ratingScore, comment);
            FindTourRating(s.ratings, tourId, customerId) == FindTourRating(ratings, tourId, customerId)
  {
    var s := UpdateSomeRating(ratings, tourId, customerId, ratingScore, comment);
    var k := FindTourRating(ratings, tourId, customerId).value;
    var t := s.ratings;
    assert IsRatingOf(t[k], tourId, customerId);
    assert forall j :: 0 <= j < |t| && j != k ==> t[j] == ratings[j];
  }

  /** updateSomeRating is idempotent: applying the same partial update twice is applying it once. */
  lemma UpdateSomeRatingIdempotent(ratings: seq<TourRating>, tourId: int, customerId: int,
                                   ratingScore: Option<int>, comment: Option<string>)
    requires UpdateSomeRating(ratings, tourId, customerId, ratingScore, comment).result.Success?
    ensures var once := UpdateSomeRating(ratings, tourId, customerId, ratingScore, comment);
            var twice := UpdateSomeRating(once.ratings, tourId, customerId, ratingScore, comment);
            twice == once
  {
    UpdateSomeRatingKeepsLookup(ratings, tourId, customerId, ratingScore, comment);
  }

  /** A partial update with neither a positive score nor a comment leaves a complete table as it was. */
  lemma EmptyPatchChangesNothing(ratings: seq<TourRating>, tourId: int, customerId: int, ratingScore: Option<int>)
    requires ScoresPresent(ratings)
    requires FindTourRating(ratings, tourId, customerId).Success?
    requires ratingScore.None? || ratingScore.value <= 0
    ensures UpdateSomeRating(ratings, tourId, customerId, ratingScore, None)
            == Step(Success(ratings[FindTourRating(ratings, tourId, customerId).value]), ratings)
  {
    var k := FindTourRating(ratings, tourId, customerId).value;
    assert ratings[k].ratingScore.Some?;
    assert ratings[k := ratings[k]] == ratings;
  }

  /** Every stored score lies between lo and hi. */
  predicate ScoresWithin(ratings: seq<TourRating>, lo: int, hi: int) {
    forall k :: 0 <= k < |ratings| ==> ratings[k].ratingScore.Some? && lo <= ratings[k].ratingScore.value <= hi
  }

  lemma {:induction false} ScoresOfWithin(ratings: seq<TourRating>, tourId: int, lo: int, hi: int)
    requires ScoresWithin(ratings, lo, hi)
    ensures forall j :: 0 <= j < |ScoresOf(ratings, tourId)| ==>
              ScoresOf(ratings, tourId)[j].Some? && lo <= ScoresOf(ratings, tourId)[j].value <= hi
    decreases |ratings|
  {
    if |ratings| > 0 {
      assert ScoresWithin(ratings[1..], lo, hi) by {
        assert forall k :: 0 <= k < |ratings| - 1 ==> ratings[1..][k] == ratings[k + 1];
      }
      ScoresOfWithin(ratings[1..], tourId, lo, hi);
    }
  }

  /** With every stored score between lo and hi, a tour's average lies between lo and hi. */
  lemma AverageWithinBounds(ratings: seq<TourRating>, tourId: int, lo: int, hi: int)
    requires ScoresWithin(ratings, lo, hi)
    requires exists k :: 0 <= k < |ratings| && ratings[k].tour.id == tourId
    ensures AverageRatingScore(ratings, tourId).Success?
    ensures var a := AverageRatingScore(ratings, tourId).value;
            a.Some? && lo * a.value.count <= a.value.sum <= hi * a.value.count
  {
    ScoresOfWithin(ratings, tourId, lo, hi);
    SumBounds(ScoresOf(ratings, tourId), lo, hi);
  }

  class TourRatingService {
    /** The tour table, by id. */
    const tours: map<int, Tour>
    /** The tour_rating table, in insertion order. */
    var ratings: seq<TourRating>

    ghost predicate Valid()
      reads this
    {
      ToursKeyed(tours) && ScoresPresent(ratings)
    }

    constructor (tours: map<int, Tour>, ratings: seq<TourRating>)
      requires ToursKeyed(tours) && ScoresPresent(ratings)
      ensures Valid() && this.tours == tours && this.ratings == ratings
    {
      this.tours := tours;
      this.ratings := ratings;
    }

    method CreateNewRatingOf(tourId: int, customerId: int, ratingScore: Option<int>, comment: Option<string>)
      returns (r: Result<TourRating, Exception>)
      requires Valid()
      modifies this
      ensures Valid()
      ensures Step(r, ratings) == CreateNewRating(tours, old(ratings), tourId, customerId, ratingScore, comment)
    {
      if tourId !in tours {
        return Failure(TourNotFound(tourId));
      }
      var built := NewTourRating(tours[tourId], customerId, ratingScore, comment);
      if built.Failure? {
        return Failure(built.error);
      }
      if built.value.ratingScore.None? {
        return Failure(NotNullViolation(RATING_SCORE));
      }
      ratings := ratings + [built.value];
      return Success(built.value);
    }

    method CreateNewRatingsOf(tourId: int, customerIds: seq<int>, ratingScore: Option<int>)
      returns (r: Result<seq<TourRating>, Exception>)
      requires Valid()
      modifies this
      ensures Valid()
      ensures Step(r, ratings) == CreateNewRatings(tours, old(ratings), tourId, customerIds, ratingScore)
    {
      var tourRatings: seq<TourRating> := [];
      if tourId in tours {
        var tour := tours[tourId];
        var i := 0;
        while i < |customerIds|
          invariant 0 <= i <= |customerIds|
          invariant i > 0 ==> ratingScore.Some?
          invariant ratingScore.Some? ==> tourRatings == Batch(tour, customerIds[..i], ratingScore.value)
          invariant ratingScore.None? ==> tourRatings == []
          invariant ratings == old(ratings) + tourRatings
          invariant Valid()
        {
          var built := NewTourRating(tour, customerIds[i], ratingScore, None);
          if built.Failure? {
            return Failure(built.error);
          }
          ratings := ratings + [built.value];
          tourRatings := tourRatings + [built.value];
          i := i + 1;
        }
        assert customerIds[..i] == customerIds;
      }
      return Success(tourRatings);
    }

    method UpdateRatingOf(tourId: int, customerId: int, ratingScore: Option<int>, comment: Option<string>)
      returns (r: Result<TourRating, Exception>)
      requires Valid()
      modifies this
      ensures Valid()
      ensures Step(r, ratings) == UpdateRating(old(ratings), tourId, customerId, ratingScore, comment)
    {
      var found := FindTourRating(ratings, tourId, customerId);
      if found.Failure? {
        return Failure(found.error);
      }
      var target := ratings[found.value];
      target := target.(ratingScore := ratingScore);
      target := target.(comment := comment);
      if target.ratingScore.None? {
        return Failure(NotNullViolation(RATING_SCORE));
      }
      ratings := ratings[found.value := target];
      return Success(target);
    }

    method UpdateSomeRatingOf(tourId: int, customerId: int, ratingScore: Option<int>, comment: Option<string>)
      returns (r: Result<TourRating, Exception>)
      requires Valid()
      modifies this
      ensures Valid()
      ensures Step(r, ratings) == UpdateSomeRating(old(ratings), tourId, customerId, ratingScore, comment)
    {
      var found := FindTourRating(ratings, tourId, customerId);
      if found.Failure? {
        return Failure(found.error);
      }
      var target := ratings[found.value];
      if ratingScore.Some? && ratingScore.value > 0 {
        target := target.(ratingScore := ratingScore);
      }
      if comment.Some? {
        target := target.(comment := comment);
      }
      if target.ratingScore.None? {
        return Failure(NotNullViolation(RATING_SCORE));
      }
      ratings := ratings[found.value := target];
      return Success(target);
    }

    method DeleteOf(tourId: int, customerId: int) returns (r: Result<(), Exception>)
      requires Valid()
      modifies this
      ensures Valid()
      ensures Step(r, ratings) == Delete(old(ratings), tourId, customerId)
    {
      var found := FindTourRating(ratings, tourId, customerId);
      if found.Failure? {
        return Failure(found.error);
      }
      ratings := ratings[..found.value] + ratings[found.value + 1..];
      return Success(());
    }

    /** getAverageRatingScore reads the table only; with no null scores stored it never throws. */
    method GetAverageRatingScore(tourId: int) returns (r: Result<Option<Average>, Exception>)
      requires Valid()
      ensures r.Success?
      ensures r.value.None? <==> forall k :: 0 <= k < |ratings| ==> ratings[k].tour.id != tourId
      ensures r == AverageRatingScore(ratings, tourId)
    {
      r := AverageRatingScore(ratings, tourId);
    }
  }
}
