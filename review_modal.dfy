/** The review dialog: the star picker, the checks made before sending, and
    the callbacks run after a review is saved. */
module ReviewModal {
  import opened Js

  const MissingMentor := "Missing mentor id."
  const NoRating := "Please choose a rating."
  const DefaultError := "Failed to submit review"

  /** The message that stops a submission, if any. A missing mentor is
      reported before a missing rating. */
  function Validate(mentorId: Value, rating: int): (r: Option<string>)
    ensures !Truthy(mentorId) ==> r == Some(MissingMentor)
    ensures Truthy(mentorId) && rating == 0 ==> r == Some(NoRating)
    ensures r.None? <==> Truthy(mentorId) && rating != 0
  {
    if !Truthy(mentorId) then Some(MissingMentor)
    else if rating == 0 then Some(NoRating)
    else None
  }

  /** Which of the five stars are lit: star `i + 1` when it is at most the
      rating. */
  function Stars(rating: int): (r: seq<bool>)
    ensures |r| == 5
    ensures forall i :: 0 <= i < 5 ==> (r[i] <==> i < rating)
  {
    seq(5, i => i + 1 <= rating)
  }

  /** After star `k` is clicked, the first `k` stars are lit and the rest
      are not. */
  lemma ClickedStarsLit(k: int)
    requires 1 <= k <= 5
    ensures Stars(k) == seq(k, _ => true) + seq(5 - k, _ => false)
  {
    var lit := seq(k, _ => true) + seq(5 - k, _ => false);
    forall i | 0 <= i < 5 ensures Stars(k)[i] == lit[i] {
      if i < k {
        assert lit[i] == seq(k, _ => true)[i];
      } else {
        assert lit[i] == seq(5 - k, _ => false)[i - k];
      }
    }
  }

  /** The body of `POST /reviews`. */
  datatype ReviewRequest = ReviewRequest(mentorId: Value, rating: int, comment: string)

  /** The parent's callbacks, in the order they are called. */
  datatype Callback = Saved | Close

  /** How the request ended. */
  datatype PostOutcome = Posted | PostFailed(err: Value)

  class ReviewForm {
    var rating: int
    var comment: string
    var busy: bool
    var err: Value

    constructor()
      ensures rating == 0 && comment == "" && !busy && err == Str("")
    {
      rating := 0;
      comment := "";
      busy := false;
      err := Str("");
    }

    /** One of the five star buttons. */
    method ClickStar(i: int)
      requires 1 <= i <= 5
      modifies this
      ensures rating == i && Stars(rating)[i - 1]
      ensures comment == old(comment) && busy == old(busy) && err == old(err)
    {
      rating := i;
    }

    method EditComment(text: string)
      modifies this
      ensures comment == text
      ensures rating == old(rating) && busy == old(busy) && err == old(err)
    {
      comment := text;
    }

    /** `submit`: a failed check shows its message and sends nothing; a
        sent review calls `onSaved`, when given, and then `onClose`; a failed
        request shows the server's message or the default text. */
    method Submit(mentorId: Value, hasOnSaved: bool, outcome: PostOutcome)
      returns (req: Option<ReviewRequest>, calls: seq<Callback>)
      modifies this
      ensures Validate(mentorId, old(rating)).Some? ==>
        req.None? && calls == [] && err == Str(Validate(mentorId, old(rating)).value) && busy == old(busy)
      ensures Validate(mentorId, old(rating)).None? ==> req == Some(ReviewRequest(mentorId, rating, comment)) && !busy
      ensures req.Some? && outcome.Posted? ==>
        calls == (if hasOnSaved then [Saved] else []) + [Close] && err == Str("")
      ensures req.Some? && outcome.PostFailed? ==> calls == [] && err == ErrorText(outcome.err, DefaultError)
      ensures rating == old(rating) && comment == old(comment)
    {
      err := Str("");
      calls := [];
      var problem := Validate(mentorId, rating);
      if problem.Some? {
        err := Str(problem.value);
        req := None;
        return;
      }
      busy := true;
      req := Some(ReviewRequest(mentorId, rating, comment));
      if outcome.Posted? {
        if hasOnSaved {
          calls := calls + [Saved];
        }
        calls := calls + [Close];
      } else {
        err := ErrorText(outcome.err, DefaultError);
      }
      busy := false;
    }
  }
}
