/** The Feedback document (models/feedback.model.ts). */
module FeedbackModel {
  import opened Wrappers
  import opened Documents

  /** The bounds the schema puts on `rating`. */
  const MinRating := 1
  const MaxRating := 5

  /** A customer's feedback on a product. */
  datatype Feedback = Feedback(userName: string, rating: int, feedback: string, approved: bool)

  /** The fields a caller supplies; a missing field is `None`. */
  datatype FeedbackDraft = FeedbackDraft(
    userName: Option<string>,
    rating: Option<int>,
    feedback: Option<string>,
    approved: Option<bool>)

  /** The rating is present and within the schema's `min`/`max` bounds. */
  predicate RatingValid(rating: Option<int>)
  {
    rating.Some? && MinRating <= rating.value <= MaxRating
  }

  /** The validators of the `rating` path fail: it is missing or out of bounds. */
  function RatingErrors(rating: Option<int>): (paths: seq<string>)
    ensures |paths| == 0 <==> RatingValid(rating)
  {
    match rating
    case None => ["rating"]
    case Some(v) => if v < MinRating || v > MaxRating then ["rating"] else []
  }

  /**
    Building and validating a new feedback document: user name, rating and text are
    required, the rating must lie in 1..5, and `approved` defaults to false.
  */
  function Create(d: FeedbackDraft): (r: Result<Feedback, ValidationError>)
    ensures r.Success? <==> HasText(d.userName) && RatingValid(d.rating) && HasText(d.feedback)
    ensures r.Failure? ==> ("rating" in r.error.paths <==> !RatingValid(d.rating))
    ensures r.Success? ==> MinRating <= r.value.rating <= MaxRating
    ensures r.Success? ==> r.value.approved == (d.approved == Some(true))
    ensures r.Success? ==> r.value.userName == d.userName.value && r.value.feedback == d.feedback.value
    ensures r.Success? ==> r.value.rating == d.rating.value
  {
    var errors := Missing("userName", HasText(d.userName)) + RatingErrors(d.rating)
      + Missing("feedback", HasText(d.feedback));
    if |errors| > 0 then Failure(ValidationError(errors))
    else Success(Feedback(d.userName.value, d.rating.value, d.feedback.value, d.approved.GetOr(false)))
  }
}
