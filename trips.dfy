/** Trip pricing and the trip records of the trip routes: creation, reading
    the stored points back, the status update, cancellation and rating.

    The database is not modelled: a handler receives the row its query matched
    (`None` when no row matched) and returns the row it writes. The haversine
    distance between pickup and destination is a given non-negative number of
    kilometres, and `now` is a parameter. */
module Trips {
  import opened Wrappers
  import opened JsMath
  import opened Wkt

  /** A point in time, in milliseconds. */
  type Time = int

  const BasePriceDA: int := 100
  const PricePerKmDA: int := 50
  const AverageSpeedKmh: int := 20

  /** `calculatePrice`: base price plus price per kilometre, rounded. */
  function CalculatePrice(distanceKm: real): (price: int)
    ensures distanceKm == 0.0 ==> price == BasePriceDA
    ensures distanceKm >= 0.0 ==> price >= BasePriceDA
    ensures -0.5 < price as real - (BasePriceDA as real + distanceKm * PricePerKmDA as real) <= 0.5
  {
    Round(BasePriceDA as real + distanceKm * PricePerKmDA as real)
  }

  /** `calculateDuration`: minutes at the average speed, rounded. */
  function CalculateDuration(distanceKm: real): (minutes: int)
    ensures distanceKm == 0.0 ==> minutes == 0
    ensures distanceKm >= 0.0 ==> minutes >= 0
  {
    Round(distanceKm / AverageSpeedKmh as real * 60.0)
  }

  /** A longer trip never costs less and never takes less time. */
  lemma PricingMonotone(d1: real, d2: real)
    requires d1 <= d2
    ensures CalculatePrice(d1) <= CalculatePrice(d2)
    ensures CalculateDuration(d1) <= CalculateDuration(d2)
  {
    RoundMonotone(BasePriceDA as real + d1 * PricePerKmDA as real, BasePriceDA as real + d2 * PricePerKmDA as real);
    RoundMonotone(d1 / AverageSpeedKmh as real * 60.0, d2 / AverageSpeedKmh as real * 60.0);
  }

  datatype Status = Pending | Accepted | InProgress | Completed | Cancelled

  function StatusName(s: Status): string {
    match s
    case Pending => "pending"
    case Accepted => "accepted"
    case InProgress => "in_progress"
    case Completed => "completed"
    case Cancelled => "cancelled"
  }

  const ValidStatuses: seq<string> := ["pending", "accepted", "in_progress", "completed", "cancelled"]

  /** `validStatuses.includes(status)`, giving the status named. */
  function ParseStatus(text: string): (r: Option<Status>)
    ensures r.Some? <==> text in ValidStatuses
    ensures r.Some? ==> StatusName(r.value) == text
  {
    if text == "pending" then Some(Pending)
    else if text == "accepted" then Some(Accepted)
    else if text == "in_progress" then Some(InProgress)
    else if text == "completed" then Some(Completed)
    else if text == "cancelled" then Some(Cancelled)
    else None
  }

  /** Every status name is accepted, and names that status. */
  lemma ParseStatusName(s: Status)
    ensures ParseStatus(StatusName(s)) == Some(s)
  {
  }

  /** The row of the `trips` table as the routes write it. */
  datatype TripRow = TripRow(
    userId: string,
    riderId: Option<string>,
    pickupLocation: string,
    pickupAddress: string,
    destinationLocation: string,
    destinationAddress: string,
    distanceKm: real,
    estimatedDurationMinutes: int,
    priceDA: int,
    status: Status,
    updatedAt: Option<Time>,
    startedAt: Option<Time>,
    completedAt: Option<Time>)

  /** Two rows describe the same booking: everything but the status and the
      timestamps agrees. */
  predicate SameBooking(a: TripRow, b: TripRow) {
    && a.userId == b.userId && a.riderId == b.riderId
    && a.pickupLocation == b.pickupLocation && a.pickupAddress == b.pickupAddress
    && a.destinationLocation == b.destinationLocation && a.destinationAddress == b.destinationAddress
    && a.distanceKm == b.distanceKm && a.estimatedDurationMinutes == b.estimatedDurationMinutes
    && a.priceDA == b.priceDA
  }

  /** `value || null` for an optional text: the empty text is dropped too. */
  function OrNull(s: Option<string>): (r: Option<string>)
    ensures r.None? <==> (s.None? || s.value == "")
    ensures r.Some? ==> r == s
  {
    if s.Some? && s.value != "" then s else None
  }

  /** Reading a stored point back, as the trip list and trip details do: a
      missing or empty text gives `null`, any other text is decoded. */
  function DecodeStoredLocation(text: Option<string>): (r: Option<Location>)
    ensures r.Some? <==> text.Some? && text.value != ""
    ensures r.Some? ==> r.value == DecodeCoords(text.value)
  {
    if text.Some? && text.value != "" then Some(DecodeCoords(text.value)) else None
  }

  /** A stored point reads back as the position it was written from. */
  lemma StoredLocationRoundTrip(c: Coordinate)
    ensures DecodeStoredLocation(Some(EncodePoint(c))) == Some(Location(Fixed(c.latitude), Fixed(c.longitude)))
  {
    DecodeEncode(c);
  }

  /** The row inserted for a new trip. */
  function CreateTrip(userId: string, riderId: Option<string>,
                      pickup: Coordinate, pickupAddress: string,
                      destination: Coordinate, destinationAddress: string,
                      distanceKm: real): (row: TripRow)
    ensures row.status == Pending
    ensures row.userId == userId
    ensures row.riderId.None? <==> (riderId.None? || riderId.value == "")
    ensures row.riderId.Some? ==> row.riderId == riderId
    ensures row.pickupAddress == pickupAddress && row.destinationAddress == destinationAddress
    ensures row.priceDA == CalculatePrice(distanceKm)
    ensures row.estimatedDurationMinutes == CalculateDuration(distanceKm)
    ensures distanceKm - 0.005 < row.distanceKm <= distanceKm + 0.005 && IsHundredths(row.distanceKm)
    ensures DecodeStoredLocation(Some(row.pickupLocation))
         == Some(Location(Fixed(pickup.latitude), Fixed(pickup.longitude)))
    ensures DecodeStoredLocation(Some(row.destinationLocation))
         == Some(Location(Fixed(destination.latitude), Fixed(destination.longitude)))
    ensures row.updatedAt.None? && row.startedAt.None? && row.completedAt.None?
  {
    StoredLocationRoundTrip(pickup);
    StoredLocationRoundTrip(destination);
    TripRow(
      userId := userId,
      riderId := OrNull(riderId),
      pickupLocation := EncodePoint(pickup),
      pickupAddress := pickupAddress,
      destinationLocation := EncodePoint(destination),
      destinationAddress := destinationAddress,
      distanceKm := RoundHundredths(distanceKm),
      estimatedDurationMinutes := CalculateDuration(distanceKm),
      priceDA := CalculatePrice(distanceKm),
      status := Pending,
      updatedAt := None,
      startedAt := None,
      completedAt := None)
  }

  /** Price and duration come from the unrounded distance: a trip of 1.009 km
      is stored as 1.01 km and costs 150 DA, while 1.01 km would cost 151 DA. */
  lemma PriceUsesUnroundedDistance()
    ensures RoundHundredths(1.009) == 1.01
    ensures CalculatePrice(1.009) == 150
    ensures CalculatePrice(RoundHundredths(1.009)) == 151
  {
    assert Round(1.009 * 100.0) == 101;
  }

  datatype TripError =
    | InvalidStatus      // 400 'Invalid status'
    | InvalidRating      // 400 'Invalid rating'
    | TripNotFound       // 404 'Trip not found'
    | TripNotCompleted   // 400 'Trip not completed'
    | DatabaseError      // 500 'Database error'

  /** The HTTP status each error answers with. */
  function HttpStatus(e: TripError): int {
    match e
    case TripNotFound => 404
    case DatabaseError => 500
    case _ => 400
  }

  /** The `updateData` object of the status update. */
  datatype UpdateData = UpdateData(status: Status, updatedAt: Time, startedAt: Option<Time>, completedAt: Option<Time>)

  /** Builds `updateData`: the status and `updated_at`, plus `started_at` for
      `in_progress` or `completed_at` for `completed`. */
  function StatusUpdateData(text: string, now: Time): (r: Result<UpdateData, TripError>)
    ensures r.Err? <==> text !in ValidStatuses
    ensures r.Err? ==> r.error == InvalidStatus
    ensures r.Ok? ==> StatusName(r.value.status) == text && r.value.updatedAt == now
    ensures r.Ok? ==> r.value.startedAt == (if text == "in_progress" then Some(now) else None)
    ensures r.Ok? ==> r.value.completedAt == (if text == "completed" then Some(now) else None)
  {
    match ParseStatus(text)
    case None => Err(InvalidStatus)
    case Some(s) =>
      Ok(UpdateData(s, now,
                    if s == InProgress then Some(now) else None,
                    if s == Completed then Some(now) else None))
  }

  /** The database's partial write: the fields present in `u` replace the row's. */
  function ApplyUpdate(row: TripRow, u: UpdateData): TripRow {
    row.(status := u.status,
         updatedAt := Some(u.updatedAt),
         startedAt := if u.startedAt.Some? then u.startedAt else row.startedAt,
         completedAt := if u.completedAt.Some? then u.completedAt else row.completedAt)
  }

  /** `PATCH /:tripId/status`: any listed status replaces any current status;
      `row` is the caller's trip, `None` when the update matched no row. */
  function UpdateTripStatus(row: Option<TripRow>, text: string, now: Time): (r: Result<TripRow, TripError>)
    ensures r.Ok? <==> text in ValidStatuses && row.Some?
    ensures text !in ValidStatuses ==> r == Err(InvalidStatus)
    ensures r.Ok? ==> StatusName(r.value.status) == text && r.value.updatedAt == Some(now)
    ensures r.Ok? ==> SameBooking(r.value, row.value)
    ensures r.Ok? ==> r.value.startedAt == (if text == "in_progress" then Some(now) else row.value.startedAt)
    ensures r.Ok? ==> r.value.completedAt == (if text == "completed" then Some(now) else row.value.completedAt)
  {
    match StatusUpdateData(text, now)
    case Err(e) => Err(e)
    case Ok(u) =>
      if row.None? then Err(DatabaseError) else Ok(ApplyUpdate(row.value, u))
  }

  /** No order is enforced between statuses: from any status, every status
      can be set, a finished or cancelled trip included. */
  lemma NoTransitionOrder(row: TripRow, s: Status, now: Time)
    ensures UpdateTripStatus(Some(row), StatusName(s), now).Ok?
    ensures UpdateTripStatus(Some(row), StatusName(s), now).value.status == s
  {
    ParseStatusName(s);
  }

  /** `DELETE /:tripId`: the trip is cancelled whatever its status. */
  function CancelTrip(row: Option<TripRow>, now: Time): (r: Result<TripRow, TripError>)
    ensures r.Ok? <==> row.Some?
    ensures r.Ok? ==> r.value.status == Cancelled && r.value.updatedAt == Some(now)
    ensures r.Ok? ==> SameBooking(r.value, row.value)
    ensures r.Ok? ==> r.value.startedAt == row.value.startedAt && r.value.completedAt == row.value.completedAt
  {
    if row.None? then Err(DatabaseError)
    else Ok(row.value.(status := Cancelled, updatedAt := Some(now)))
  }

  /** The row inserted into `ratings`. */
  datatype RatingRow = RatingRow(tripId: string, userId: string, riderId: Option<string>, rating: int, comment: Option<string>)

  /** `POST /:tripId/rating`. `rating` is the submitted number (`None` when
      absent); `trip` is the caller's trip, `None` when it was not found. */
  function RateTrip(tripId: string, userId: string, rating: Option<real>, comment: Option<string>,
                    trip: Option<TripRow>): (r: Result<RatingRow, TripError>)
    ensures r.Ok? <==> rating.Some? && 1.0 <= rating.value <= 5.0 && trip.Some? && trip.value.status == Completed
    ensures (rating.None? || rating.value < 1.0 || rating.value > 5.0) ==> r == Err(InvalidRating)
    ensures rating.Some? && 1.0 <= rating.value <= 5.0 && trip.None? ==> r == Err(TripNotFound)
    ensures rating.Some? && 1.0 <= rating.value <= 5.0 && trip.Some? && trip.value.status != Completed
            ==> r == Err(TripNotCompleted)
    ensures r.Ok? ==> 1 <= r.value.rating <= 5 && r.value.rating as real <= rating.value < r.value.rating as real + 1.0
    ensures r.Ok? ==> r.value.riderId == trip.value.riderId
    ensures r.Ok? ==> r.value.tripId == tripId && r.value.userId == userId
    ensures r.Ok? ==> r.value.comment == OrNull(comment)
  {
    if rating.None? || rating.value == 0.0 || rating.value < 1.0 || rating.value > 5.0 then Err(InvalidRating)
    else if trip.None? then Err(TripNotFound)
    else if trip.value.status != Completed then Err(TripNotCompleted)
    else Ok(RatingRow(tripId, userId, trip.value.riderId, rating.value.Floor, OrNull(comment)))
  }

  /** The status update answers 400 for an unlisted status and 500 when no
      trip row comes back. */
  lemma UpdateTripStatusCode(row: Option<TripRow>, text: string, now: Time)
    ensures var r := UpdateTripStatus(row, text, now);
      r.Err? ==> HttpStatus(r.error) == (if text in ValidStatuses then 500 else 400)
  {
  }

  /** Cancelling fails only with 500, when no trip row comes back. */
  lemma CancelTripCode(row: Option<TripRow>, now: Time)
    ensures var r := CancelTrip(row, now);
      && (r.Err? <==> row.None?)
      && (r.Err? ==> HttpStatus(r.error) == 500)
  {
  }

  /** Rating answers 404 exactly for a valid rating of a missing trip, and 400
      for every other refusal. */
  lemma RateTripCode(tripId: string, userId: string, rating: Option<real>, comment: Option<string>,
                     trip: Option<TripRow>)
    ensures var r := RateTrip(tripId, userId, rating, comment, trip);
      r.Err? ==> HttpStatus(r.error) == (if rating.Some? && 1.0 <= rating.value <= 5.0 && trip.None? then 404 else 400)
  {
  }
}
