/**
 * The review form (src/components/ReviewModal.tsx): a star rating, a
 * comment and a `submitting` flag, changed by the star buttons, the text
 * input, submission and closing.
 */
module ReviewModal {
  import opened Wrappers
  import opened JsText
  import opened Api

  /** The `maxLength` of the comment input. */
  const MaxCommentLength: nat := 500

  /** What `reviewsService.createReview` is sent: one overall rating and the trimmed comment. */
  datatype ReviewRequest = ReviewRequest(reservationId: int, rating: int, comment: string)

  /** An `Alert.alert(title, message)` shown to the user. */
  datatype Alert = Alert(title: string, message: string)

  /** The first half of `handleSubmit`: a guard that stops it, or the request it sends. */
  datatype SubmitStart = Blocked(alert: Alert) | Sending(request: ReviewRequest)

  /** The second half: the success callback, or an error alert. */
  datatype SubmitEnd = CalledOnSuccess | ShowedError(alert: Alert)

  const RatingRequired: Alert := Alert("Rating Required", "Please select a rating")
  const CommentRequired: Alert := Alert("Comment Required", "Please write a comment about your experience")
  const SubmitFailedMessage: string := "Failed to submit review"

  /** The guards of `handleSubmit`, in order, and the request they let through. */
  function CheckSubmit(reservationId: int, rating: int, comment: string): (r: SubmitStart)
    ensures r.Sending? <==> rating != 0 && !AllSpace(comment)
    ensures rating == 0 ==> r == Blocked(RatingRequired)
    ensures rating != 0 && AllSpace(comment) ==> r == Blocked(CommentRequired)
    ensures r.Sending? ==> r.request == ReviewRequest(reservationId, rating, Trim(comment)) && Trim(comment) != []
  {
    TrimEmptyIffAllSpace(comment);
    if rating == 0 then Blocked(RatingRequired)
    else if Trim(comment) == [] then Blocked(CommentRequired)
    else Sending(ReviewRequest(reservationId, rating, Trim(comment)))
  }

  /** How a settled `createReview` call ends the submission. */
  function FinishOutcome(reply: Result<(), ApiError>): (r: SubmitEnd)
    ensures r == CalledOnSuccess <==> reply.Success?
    ensures reply.Failure? ==> r.alert.title == "Error" && r.alert.message != ""
    ensures reply.Failure? && reply.error.message != "" ==> r.alert.message == reply.error.message
    ensures reply.Failure? && reply.error.message == "" ==> r.alert.message == SubmitFailedMessage
  {
    match reply
    case Success(_) => CalledOnSuccess
    case Failure(e) => ShowedError(Alert("Error", if e.message != "" then e.message else SubmitFailedMessage))
  }

  /** `disabled={submitting || rating === 0 || !comment.trim()}`, negated. */
  function SubmitEnabled(submitting: bool, rating: int, comment: string): bool {
    !submitting && rating != 0 && Trim(comment) != []
  }

  /** The submit button is enabled exactly when no submission is running and the guards would let one through. */
  lemma SubmitEnabledIffGuardsPass(reservationId: int, submitting: bool, rating: int, comment: string)
    ensures SubmitEnabled(submitting, rating, comment) <==>
      !submitting && CheckSubmit(reservationId, rating, comment).Sending?
  {
    TrimEmptyIffAllSpace(comment);
  }

  /** The word under the stars: none for 0, one per star count. */
  function RatingLabel(rating: int): (r: Option<string>)
    ensures r.Some? <==> rating > 0
    ensures rating == 1 ==> r == Some("Poor")
    ensures rating == 2 ==> r == Some("Fair")
    ensures rating == 3 ==> r == Some("Good")
    ensures rating == 4 ==> r == Some("Very Good")
    ensures rating == 5 ==> r == Some("Excellent")
  {
    if rating <= 0 then None
    else
      var word :=
        (if rating == 1 then "Poor" else "") +
        (if rating == 2 then "Fair" else "") +
        (if rating == 3 then "Good" else "") +
        (if rating == 4 then "Very Good" else "") +
        (if rating == 5 then "Excellent" else "");
      assert forall x: string :: "" + x == x && x + "" == x;
      Some(word)
  }

  /** Different star counts get different labels. */
  lemma RatingLabelsDistinct(a: int, b: int)
    requires 1 <= a <= 5 && 1 <= b <= 5 && a != b
    ensures RatingLabel(a) != RatingLabel(b)
  {
  }

  class ReviewForm {
    const reservationId: int
    var rating: int
    var comment: string
    var submitting: bool

    /** The rating stays in 0..5 and the comment within the input's length cap. */
    ghost predicate Valid()
      reads this
    {
      0 <= rating <= 5 && |comment| <= MaxCommentLength
    }

    constructor (reservationId: int)
      ensures Valid() && this.reservationId == reservationId
      ensures rating == 0 && comment == [] && !submitting
    {
      this.reservationId := reservationId;
      rating := 0;
      comment := [];
      submitting := false;
    }

    /** A star button: `setRating(star)`, disabled while submitting. */
    method PressStar(star: int)
      requires Valid() && 1 <= star <= 5
      modifies this
      ensures Valid()
      ensures rating == if old(submitting) then old(rating) else star
      ensures comment == old(comment) && submitting == old(submitting)
    {
      if !submitting {
        rating := star;
      }
    }

    /** The comment input: not editable while submitting, and capped at 500 characters. */
    method EditComment(text: string)
      requires Valid()
      modifies this
      ensures Valid()
      ensures comment == if old(submitting) then old(comment)
                         else if |text| <= MaxCommentLength then text else text[..MaxCommentLength]
      ensures rating == old(rating) && submitting == old(submitting)
    {
      if !submitting {
        comment := if |text| <= MaxCommentLength then text else text[..MaxCommentLength];
      }
    }

    /** `handleSubmit` up to the service call: either a guard alert and no change, or `submitting` set. */
    method BeginSubmit() returns (start: SubmitStart)
      requires Valid()
      modifies this
      ensures Valid()
      ensures start == CheckSubmit(reservationId, old(rating), old(comment))
      ensures rating == old(rating) && comment == old(comment)
      ensures submitting == if start.Sending? then true else old(submitting)
    {
      start := CheckSubmit(reservationId, rating, comment);
      if start.Sending? {
        submitting := true;
      }
    }

    /**
     * `handleSubmit` after `createReview` answers: the reply passes through
     * the client's response interceptor (so a 401 clears the stored
     * session), then the form resets on success and keeps its input on
     * failure; `submitting` is cleared either way. The created review in a
     * successful reply is discarded, so its body is `()`.
     */
    method FinishSubmit(client: ApiClient, reply: HttpOutcome<()>) returns (end: SubmitEnd)
      requires Valid()
      modifies this, client.store
      ensures Valid()
      ensures end == FinishOutcome(Settle(reply))
      ensures client.store.items == AfterResponse(old(client.store.items), reply)
      ensures reply.Received? ==> rating == 0 && comment == []
      ensures reply.Failed? ==> rating == old(rating) && comment == old(comment)
      ensures !submitting
    {
      var settled := client.InterceptResponse(reply);
      end := FinishOutcome(settled);
      if settled.Success? {
        rating := 0;
        comment := [];
      }
      submitting := false;
    }

    /** `handleClose`: ignored while submitting; otherwise resets the form and calls `onClose`. */
    method HandleClose() returns (closed: bool)
      requires Valid()
      modifies this
      ensures Valid()
      ensures closed == !old(submitting)
      ensures closed ==> rating == 0 && comment == []
      ensures !closed ==> rating == old(rating) && comment == old(comment)
      ensures submitting == old(submitting)
    {
      closed := !submitting;
      if closed {
        rating := 0;
        comment := [];
      }
    }
  }
}
