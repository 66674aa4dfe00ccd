/**
 * The Tour and TourRating entities. A rating built without a comment gets one derived from
 * its score: a word for the scores 1 to 5, the score's decimal digits for any other.
 */
module TourRatings {
  import opened Wrappers
  import opened Text
  import opened Exceptions
  import opened Difficulties
  import opened Regions

  /** A row of tour, with the fields the rating logic uses; the generated id is kept as id. */
  datatype Tour = Tour(id: int, tourTitle: string, difficulty: DifficultyEnum, region: RegionEnum)

  /** A row of tour_rating: the rated tour, the customer, the score and the comment (both nullable in Java). */
  datatype TourRating = TourRating(tour: Tour, customerId: int, ratingScore: Option<int>, comment: Option<string>)

  /** toComment: the word for 1 to 5, Integer.toString for every other score. */
  function ToComment(score: int): (c: string)
    ensures 1 <= score <= 5 ==> c == ["Terrible", "Poor", "Fair", "Good", "Great"][score - 1]
    ensures !(1 <= score <= 5) ==> c == IntToString(score)
    ensures |c| > 0
  {
    match score
    case 1 => "Terrible"
    case 2 => "Poor"
    case 3 => "Fair"
    case 4 => "Good"
    case 5 => "Great"
    case _ => IntToString(score)
  }

  /** Different scores get different default comments. */
  lemma ToCommentInjective(a: int, b: int)
    requires ToComment(a) == ToComment(b)
    ensures a == b
  {
    if !(1 <= a <= 5) && !(1 <= b <= 5) {
      IntToStringInjective(a, b);
    } else if 1 <= a <= 5 && 1 <= b <= 5 {
      assert ToComment(a)[0] == ToComment(b)[0];
    } else if 1 <= a <= 5 {
      WordIsNotNumber(a, b);
    } else {
      WordIsNotNumber(b, a);
    }
  }

  /** No word for 1 to 5 is the decimal string of a number. */
  lemma WordIsNotNumber(word: int, number: int)
    requires 1 <= word <= 5
    ensures ToComment(word) != IntToString(number)
  {
    var s := IntToString(number);
    assert s[0] == '-' || IsDigit(s[0]);
    assert ToComment(word)[0] in {'T', 'P', 'F', 'G'};
  }

  /** Scores outside 1 to 5 are written out, e.g. 0 becomes "0" and 10 becomes "10". */
  lemma ToCommentExamples()
    ensures ToComment(3) == "Fair"
    ensures ToComment(0) == "0"
    ensures ToComment(10) == "10"
  {
  }

  /**
   * The builder constructor: tour, customer and score are stored as given; a non-null comment is
   * kept verbatim (even ""), and a null one is replaced by toComment(score), which cannot unbox a
   * null score and throws NullPointerException.
   */
  function NewTourRating(tour: Tour, customerId: int, ratingScore: Option<int>, comment: Option<string>)
    : (r: Result<TourRating, Exception>)
    ensures r.Failure? <==> comment.None? && ratingScore.None?
    ensures r.Failure? ==> r.error == NullPointerException
    ensures r.Success? ==> r.value.tour == tour && r.value.customerId == customerId && r.value.ratingScore == ratingScore
    ensures r.Success? && comment.Some? ==> r.value.comment == comment
    ensures r.Success? && comment.None? ==> r.value.comment == Some(ToComment(ratingScore.value))
    ensures r.Success? ==> r.value.comment.Some?
  {
    if comment.Some? then Success(TourRating(tour, customerId, ratingScore, comment))
    else if ratingScore.None? then Failure(NullPointerException)
    else Success(TourRating(tour, customerId, ratingScore, Some(ToComment(ratingScore.value))))
  }
}
