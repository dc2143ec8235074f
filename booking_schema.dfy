/** The Booking document: required fields, the three string enumerations
    with their defaults, the embedded location and the bounds on the
    review rating. Enumerated fields are stored as the strings the
    database holds; `WellFormed` says which of them the schema admits. */
module BookingSchema {
  import opened Common

  const Statuses: set<string> :=
    {"pending", "confirmed", "in_progress", "completed", "cancelled", "accepted", "rejected", "paused"}
  const PaymentStatuses: set<string> := {"pending", "completed", "failed", "refunded"}
  const PaymentModes: set<string> := {"credit card", "cash", "paypal", "bank transfer"}
  const DefaultStatus: string := "pending"
  const DefaultPaymentStatus: string := "pending"

  datatype Location = Location(address: string, landmark: string, pincode: Option<string>)

  /** The nested `review` path; every part of it is optional. */
  datatype BookingReview = BookingReview(rating: Option<int>, comment: Option<string>, createdAt: Option<int>)

  datatype PauseDetails = PauseDetails(nextScheduledDate: Option<int>, nextScheduledTime: Option<string>,
                                       pauseReason: Option<string>, pausedAt: Option<int>)

  datatype Booking = Booking(
    id: Id,
    user: Id,
    subService: Id,
    service: Option<Id>,
    subCategory: Option<Id>,
    category: Option<Id>,
    scheduledDate: int,
    scheduledTime: string,
    location: Location,
    amount: int,
    paymentMode: string,
    status: string,
    paymentStatus: string,
    cancellationReason: Option<string>,
    cancellationTime: Option<int>,
    review: BookingReview,
    partner: Option<Id>,
    acceptedAt: Option<int>,
    completedAt: Option<int>,
    pauseDetails: PauseDetails,
    photos: seq<string>,
    videos: seq<string>,
    createdAt: int,
    updatedAt: int)

  /** What the schema's validators admit of a stored booking. */
  predicate WellFormed(b: Booking)
  {
    && b.status in Statuses
    && b.paymentStatus in PaymentStatuses
    && b.paymentMode in PaymentModes
    && b.scheduledTime != ""
    && b.location.address != ""
    && (b.review.rating.Some? ==> 1 <= b.review.rating.value <= 5)
  }

  datatype LocationInput = LocationInput(address: Option<string>, landmark: Option<string>, pincode: Option<string>)

  /** The fields of a document handed to `new Booking(...)`: anything may be missing. */
  datatype BookingInput = BookingInput(
    user: Option<Id>,
    subService: Option<Id>,
    service: Option<Id>,
    subCategory: Option<Id>,
    category: Option<Id>,
    scheduledDate: Option<int>,
    scheduledTime: Option<string>,
    location: Option<LocationInput>,
    amount: Option<int>,
    paymentMode: Option<string>,
    status: Option<string>,
    paymentStatus: Option<string>,
    cancellationReason: Option<string>,
    cancellationTime: Option<int>,
    review: BookingReview,
    partner: Option<Id>,
    acceptedAt: Option<int>,
    completedAt: Option<int>,
    pauseDetails: PauseDetails,
    photos: seq<string>,
    videos: seq<string>)

  /** An enumerated field that may be omitted (a default then applies). */
  predicate OptionalIn(v: Option<string>, allowed: set<string>)
  {
    v.None? || v.value in allowed
  }

  /** The paths whose validator fails, as a validation error names them. */
  function Violations(input: BookingInput): (paths: set<string>)
  {
    (if input.user.None? then {"user"} else {})
    + (if input.subService.None? then {"subService"} else {})
    + (if input.scheduledDate.None? then {"scheduledDate"} else {})
    + (if !Present(input.scheduledTime) then {"scheduledTime"} else {})
    + (if input.location.None? then {"location"} else {})
    + (if input.location.Some? && !Present(input.location.value.address) then {"location.address"} else {})
    + (if input.amount.None? then {"amount"} else {})
    + (if !(input.paymentMode.Some? && input.paymentMode.value in PaymentModes) then {"paymentMode"} else {})
    + (if !OptionalIn(input.status, Statuses) then {"status"} else {})
    + (if !OptionalIn(input.paymentStatus, PaymentStatuses) then {"paymentStatus"} else {})
    + (if input.review.rating.Some? && !(1 <= input.review.rating.value <= 5) then {"review.rating"} else {})
  }

  function Default(v: Option<string>, d: string): string
  {
    if v.Some? then v.value else d
  }

  /** Validation on save: either every validator passes and the document
      is built with its defaults and timestamps, or the failing paths. */
  function Validate(id: Id, input: BookingInput, now: int): (r: Result<Booking, set<string>>)
    ensures r.Ok? <==> Violations(input) == {}
    ensures r.Err? ==> r.error == Violations(input) && r.error != {}
    ensures r.Ok? ==> WellFormed(r.value) && r.value.id == id
    ensures r.Ok? ==> r.value.status == Default(input.status, DefaultStatus)
    ensures r.Ok? ==> r.value.paymentStatus == Default(input.paymentStatus, DefaultPaymentStatus)
    ensures r.Ok? ==> r.value.location.landmark == Default(input.location.value.landmark, "")
    ensures r.Ok? ==> r.value.createdAt == now && r.value.updatedAt == now
  {
    var paths := Violations(input);
    if paths != {} then Err(paths)
    else
      var loc := input.location.value;
      Ok(Booking(
        id, input.user.value, input.subService.value, input.service, input.subCategory, input.category,
        input.scheduledDate.value, input.scheduledTime.value,
        Location(loc.address.value, Default(loc.landmark, ""), loc.pincode),
        input.amount.value, input.paymentMode.value,
        Default(input.status, DefaultStatus), Default(input.paymentStatus, DefaultPaymentStatus),
        input.cancellationReason, input.cancellationTime, input.review, input.partner,
        input.acceptedAt, input.completedAt, input.pauseDetails, input.photos, input.videos,
        now, now))
  }

  /** The fields of a stored booking, as they would be handed back to the model. */
  function AsInput(b: Booking): BookingInput
  {
    BookingInput(
      Some(b.user), Some(b.subService), b.service, b.subCategory, b.category,
      Some(b.scheduledDate), Some(b.scheduledTime),
      Some(LocationInput(Some(b.location.address), Some(b.location.landmark), b.location.pincode)),
      Some(b.amount), Some(b.paymentMode), Some(b.status), Some(b.paymentStatus),
      b.cancellationReason, b.cancellationTime, b.review, b.partner,
      b.acceptedAt, b.completedAt, b.pauseDetails, b.photos, b.videos)
  }

  /** Every well-formed booking passes validation again unchanged (apart
      from the timestamps of the new save), and only those do. */
  lemma ValidateRoundTrip(b: Booking, now: int)
    ensures WellFormed(b) <==> Validate(b.id, AsInput(b), now).Ok?
    ensures WellFormed(b) ==> Validate(b.id, AsInput(b), now) == Ok(b.(createdAt := now, updatedAt := now))
  {
  }

  /** Validation succeeds only when every required field was supplied. */
  lemma RequiredFields(id: Id, input: BookingInput, now: int)
    requires Validate(id, input, now).Ok?
    ensures input.user.Some? && input.subService.Some? && input.scheduledDate.Some?
    ensures Present(input.scheduledTime) && input.amount.Some? && input.paymentMode.Some?
    ensures input.location.Some? && Present(input.location.value.address)
  {
  }
}
