/** The Review document: a required user, a required rating between 1
    and 5, a required comment of 5 to 500 characters and a moderation
    status that defaults to pending. */
module ReviewSchema {
  import opened Common

  const Statuses: set<string> := {"pending", "approved", "rejected"}
  const DefaultStatus: string := "pending"
  const MinRating: int := 1
  const MaxRating: int := 5
  const MinCommentLength: nat := 5
  const MaxCommentLength: nat := 500

  datatype Review = Review(
    id: Id,
    user: Id,
    partner: Option<Id>,
    booking: Option<Id>,
    subService: Option<Id>,
    rating: int,
    status: string,
    comment: string,
    createdAt: int)

  predicate WellFormed(r: Review)
  {
    && MinRating <= r.rating <= MaxRating
    && r.status in Statuses
    && MinCommentLength <= |r.comment| <= MaxCommentLength
  }

  datatype ReviewInput = ReviewInput(
    user: Option<Id>,
    partner: Option<Id>,
    booking: Option<Id>,
    subService: Option<Id>,
    rating: Option<int>,
    status: Option<string>,
    comment: Option<string>,
    createdAt: Option<int>)

  function Violations(input: ReviewInput): set<string>
  {
    (if input.user.None? then {"user"} else {})
    + (if !(input.rating.Some? && MinRating <= input.rating.value <= MaxRating) then {"rating"} else {})
    + (if input.status.Some? && input.status.value !in Statuses then {"status"} else {})
    + (if !(input.comment.Some? && MinCommentLength <= |input.comment.value| <= MaxCommentLength)
       then {"comment"} else {})
  }

  /** Validation on save, with `status` defaulting to pending and
      `createdAt` to the clock reading `now`. */
  function Validate(id: Id, input: ReviewInput, now: int): (r: Result<Review, set<string>>)
    ensures r.Ok? <==> Violations(input) == {}
    ensures r.Err? ==> r.error == Violations(input) && r.error != {}
    ensures r.Ok? ==> WellFormed(r.value) && r.value.id == id
    ensures r.Ok? && input.status.None? ==> r.value.status == DefaultStatus
    ensures r.Ok? && input.createdAt.None? ==> r.value.createdAt == now
    ensures r.Ok? ==> r.value.partner == input.partner && r.value.booking == input.booking
                      && r.value.subService == input.subService
  {
    var paths := Violations(input);
    if paths != {} then Err(paths)
    else
      Ok(Review(id, input.user.value, input.partner, input.booking, input.subService,
                input.rating.value,
                if input.status.Some? then input.status.value else DefaultStatus,
                input.comment.value,
                if input.createdAt.Some? then input.createdAt.value else now))
  }

  function AsInput(r: Review): ReviewInput
  {
    ReviewInput(Some(r.user), r.partner, r.booking, r.subService, Some(r.rating),
                Some(r.status), Some(r.comment), Some(r.createdAt))
  }

  /** A stored review re-validates to itself exactly when it is well formed. */
  lemma ValidateRoundTrip(r: Review, now: int)
    ensures WellFormed(r) <==> Validate(r.id, AsInput(r), now).Ok?
    ensures WellFormed(r) ==> Validate(r.id, AsInput(r), now) == Ok(r)
  {
  }

  /** The comment bounds are inclusive at both ends. */
  lemma CommentBounds(input: ReviewInput, id: Id, now: int)
    requires input.user.Some? && input.rating == Some(3) && input.status.None?
    ensures input.comment.Some? && |input.comment.value| == 4 ==> Validate(id, input, now).Err?
    ensures input.comment.Some? && |input.comment.value| == 5 ==> Validate(id, input, now).Ok?
    ensures input.comment.Some? && |input.comment.value| == 500 ==> Validate(id, input, now).Ok?
    ensures input.comment.Some? && |input.comment.value| == 501 ==> Validate(id, input, now).Err?
  {
  }
}
