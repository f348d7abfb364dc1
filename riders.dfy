/** The rider routes: reading a rider's stored point, the nearby-riders
    pipeline, the single-rider lookup with its fixed fallback point, the
    location update text and the ratings average.

    The haversine distance from the passenger to a point is a given function
    `distanceKm`; the riders and ratings are the rows the database returned. */
module Riders {
  import opened Wrappers
  import opened Text
  import opened JsMath
  import opened Wkt
  import opened Sorting

  /** `parseLocation`: `null` for a missing or empty text and for a text not
      starting with `POINT(`; otherwise the decoded point, whose parts may be NaN. */
  function ParseLocation(text: Option<string>): (r: Option<Location>)
    ensures r.Some? <==> text.Some? && StartsWith(text.value, "POINT(")
    ensures r.Some? ==> r.value == DecodeCoords(text.value)
  {
    if text.None? || text.value == "" then None
    else if StartsWith(text.value, "POINT(") then Some(DecodeCoords(text.value))
    else None
  }

  /** `parseLocation` reads back the point the location update writes. */
  lemma ParseLocationRoundTrip(c: Coordinate)
    ensures ParseLocation(Some(EncodePoint(c))) == Some(Location(Fixed(c.latitude), Fixed(c.longitude)))
  {
    DecodeEncode(c);
  }

  /** A row of `motards`; `None` stands for `null`. */
  datatype RiderRow = RiderRow(
    id: string,
    nomComplet: string,
    numTel: string,
    ratingAverage: Option<real>,
    currentLocation: Option<string>,
    status: string,
    vehicleType: Option<string>,
    licensePlate: string)

  const DefaultRating: real := 4.5
  const DefaultVehicle: string := "motorcycle"
  const DefaultRadiusKm: real := 50.0
  /** The fixed point near Lakhdaria used by the single-rider lookup. */
  const FallbackLocation: Location := Location(Fixed(36564400), Fixed(3589200))

  /** `rider.rating_average || 4.5`. */
  function RatingOrDefault(r: Option<real>): (x: real)
    ensures (r.None? || r.value == 0.0) ==> x == DefaultRating
    ensures r.Some? && r.value != 0.0 ==> x == r.value
  {
    if r.Some? && r.value != 0.0 then r.value else DefaultRating
  }

  /** `rider.vehicle_type || 'motorcycle'`. */
  function VehicleOrDefault(v: Option<string>): (x: string)
    ensures x != ""
    ensures (v.None? || v.value == "") ==> x == DefaultVehicle
    ensures v.Some? && v.value != "" ==> x == v.value
  {
    if v.Some? && v.value != "" then v.value else DefaultVehicle
  }

  /** A distance as JavaScript computes it: NaN when a part of the point is NaN. */
  datatype Measure = NaNDistance | Km(km: real)

  /** One entry of the nearby answer. */
  datatype NearbyRider = NearbyRider(
    id: string,
    nomComplet: string,
    numTel: string,
    ratingAverage: real,
    currentLocation: Location,
    distanceKm: Measure,
    status: string,
    vehicleType: string,
    licensePlate: string)

  /** The distance from the passenger, rounded to two decimals. */
  function MeasureTo(loc: Location, distanceKm: Coordinate -> real): (m: Measure)
    ensures m.Km? <==> loc.latitude.Fixed? && loc.longitude.Fixed?
    ensures m.Km? ==> var d := distanceKm(Coordinate(loc.latitude.micro, loc.longitude.micro));
      d - 0.005 < m.km <= d + 0.005 && IsHundredths(m.km)
  {
    if loc.latitude.Fixed? && loc.longitude.Fixed? then
      Km(RoundHundredths(distanceKm(Coordinate(loc.latitude.micro, loc.longitude.micro))))
    else NaNDistance
  }

  /** The `map` step for a rider whose point parsed. */
  function Annotate(row: RiderRow, loc: Location, distanceKm: Coordinate -> real): (r: NearbyRider)
    ensures r.currentLocation == loc && r.distanceKm == MeasureTo(loc, distanceKm)
    ensures r.ratingAverage == RatingOrDefault(row.ratingAverage) && r.vehicleType == VehicleOrDefault(row.vehicleType)
    ensures (r.id, r.nomComplet, r.numTel, r.status, r.licensePlate)
         == (row.id, row.nomComplet, row.numTel, row.status, row.licensePlate)
  {
    NearbyRider(row.id, row.nomComplet, row.numTel, RatingOrDefault(row.ratingAverage), loc,
                MeasureTo(loc, distanceKm), row.status, VehicleOrDefault(row.vehicleType), row.licensePlate)
  }

  predicate Locatable(row: RiderRow) {
    ParseLocation(row.currentLocation).Some?
  }

  /** The `map` step for a rider whose point parsed. */
  function Located(row: RiderRow, distanceKm: Coordinate -> real): NearbyRider
    requires Locatable(row)
  {
    Annotate(row, ParseLocation(row.currentLocation).value, distanceKm)
  }

  /** The `map` step over the whole pool, when every point parsed. */
  function AnnotateAll(pool: seq<RiderRow>, distanceKm: Coordinate -> real): (r: seq<NearbyRider>)
    requires forall i :: 0 <= i < |pool| ==> Locatable(pool[i])
    ensures |r| == |pool|
    ensures forall i :: 0 <= i < |pool| ==> r[i] == Located(pool[i], distanceKm)
  {
    if pool == [] then []
    else [Located(pool[0], distanceKm)] + AnnotateAll(pool[1..], distanceKm)
  }

  /** `rider.distanceKm <= radiusKm`; NaN compares false. */
  predicate WithinRadius(r: NearbyRider, radiusKm: real) {
    r.distanceKm.Km? && r.distanceKm.km <= radiusKm
  }

  /** The `filter` step. */
  function KeepWithin(s: seq<NearbyRider>, radiusKm: real): (r: seq<NearbyRider>)
    ensures |r| <= |s|
  {
    if s == [] then []
    else
      assert s == [s[0]] + s[1..];
      (if WithinRadius(s[0], radiusKm) then [s[0]] else []) + KeepWithin(s[1..], radiusKm)
  }

  /** The filter works rider by rider: it keeps each one within the radius,
      drops each one outside, and keeps their order. */
  lemma {:induction false} KeepWithinConcat(a: seq<NearbyRider>, b: seq<NearbyRider>, radiusKm: real)
    ensures KeepWithin(a + b, radiusKm) == KeepWithin(a, radiusKm) + KeepWithin(b, radiusKm)
  {
    if a == [] {
      assert a + b == b;
    } else {
      var head := if WithinRadius(a[0], radiusKm) then [a[0]] else [];
      var ab := a + b;
      assert ab != [] && ab[0] == a[0];
      assert ab[1..] == a[1..] + b;
      calc {
        KeepWithin(ab, radiusKm);
        head + KeepWithin(a[1..] + b, radiusKm);
        { KeepWithinConcat(a[1..], b, radiusKm); }
        head + (KeepWithin(a[1..], radiusKm) + KeepWithin(b, radiusKm));
        (head + KeepWithin(a[1..], radiusKm)) + KeepWithin(b, radiusKm);
        KeepWithin(a, radiusKm) + KeepWithin(b, radiusKm);
      }
    }
  }

  /** The filter keeps exactly the riders within the radius and adds none. */
  lemma {:induction false} KeepWithinMembers(s: seq<NearbyRider>, radiusKm: real)
    ensures forall x :: x in KeepWithin(s, radiusKm) <==> x in s && WithinRadius(x, radiusKm)
    ensures multiset(KeepWithin(s, radiusKm)) <= multiset(s)
  {
    if s != [] {
      KeepWithinMembers(s[1..], radiusKm);
      assert s == [s[0]] + s[1..];
    }
  }

  lemma KeepWithinOne(x: NearbyRider, radiusKm: real)
    ensures KeepWithin([x], radiusKm) == if WithinRadius(x, radiusKm) then [x] else []
  {
    assert [x][1..] == [];
  }

  /** The sort key: `a.distanceKm - b.distanceKm`. */
  function DistanceKey(r: NearbyRider): real {
    if r.distanceKm.Km? then r.distanceKm.km else 0.0
  }

  /** `radius = 50` when the query has none, then `parseFloat`. */
  function RadiusOrDefault(radius: Option<real>): (km: real)
    ensures radius.None? ==> km == DefaultRadiusKm
    ensures radius.Some? ==> km == radius.value
  {
    if radius.Some? then radius.value else DefaultRadiusKm
  }

  datatype RiderError =
    | FetchNearbyFailed   // 500 'Internal server error', 'Failed to fetch nearby riders'
    | RiderNotFound       // 404 'Rider not found'
    | InvalidCoordinates  // 400 'Invalid coordinates'

  /** `GET /nearby`. A rider whose point does not parse makes the handler
      assign to the `const location`, which throws: the whole request then
      fails, and no fallback point is ever used. Otherwise the riders are
      annotated, kept when within the radius, and sorted by distance. */
  function Nearby(pool: seq<RiderRow>, radius: Option<real>, distanceKm: Coordinate -> real): (r: Result<seq<NearbyRider>, RiderError>)
    ensures r.Err? <==> exists i :: 0 <= i < |pool| && !Locatable(pool[i])
    ensures r.Err? ==> r.error == FetchNearbyFailed
  {
    if exists i :: 0 <= i < |pool| && !Locatable(pool[i]) then Err(FetchNearbyFailed)
    else Ok(SortByKey(KeepWithin(AnnotateAll(pool, distanceKm), RadiusOrDefault(radius)), DistanceKey))
  }

  /** The steps of `/nearby` once every point parsed. */
  lemma NearbyPipeline(pool: seq<RiderRow>, radius: Option<real>, distanceKm: Coordinate -> real)
    requires Nearby(pool, radius, distanceKm).Ok?
    ensures forall i :: 0 <= i < |pool| ==> Locatable(pool[i])
    ensures Nearby(pool, radius, distanceKm).value
         == SortByKey(KeepWithin(AnnotateAll(pool, distanceKm), RadiusOrDefault(radius)), DistanceKey)
  {
  }

  /** What `/nearby` answers: riders within the radius, closest first, no more
      than the pool holds. */
  lemma NearbyWithinRadiusSorted(pool: seq<RiderRow>, radius: Option<real>, distanceKm: Coordinate -> real)
    requires Nearby(pool, radius, distanceKm).Ok?
    ensures var rs := Nearby(pool, radius, distanceKm).value;
      && (forall i :: 0 <= i < |rs| ==> WithinRadius(rs[i], RadiusOrDefault(radius)))
      && SortedBy(rs, DistanceKey)
      && |rs| <= |pool|
  {
    NearbyPipeline(pool, radius, distanceKm);
    var kept := KeepWithin(AnnotateAll(pool, distanceKm), RadiusOrDefault(radius));
    var rs := SortByKey(kept, DistanceKey);
    KeepWithinMembers(AnnotateAll(pool, distanceKm), RadiusOrDefault(radius));
    SortByKeySorted(kept, DistanceKey);
    forall i | 0 <= i < |rs| ensures WithinRadius(rs[i], RadiusOrDefault(radius)) {
      assert rs[i] in multiset(rs);
      assert rs[i] in kept;
    }
    assert |rs| == |kept| by {
      assert |multiset(rs)| == |multiset(kept)|;
    }
  }

  /** The answer holds exactly the pool's riders that are within the radius,
      each with its own parsed point: no fallback point is ever used. */
  lemma NearbyMembers(pool: seq<RiderRow>, radius: Option<real>, distanceKm: Coordinate -> real)
    requires Nearby(pool, radius, distanceKm).Ok?
    ensures forall i :: 0 <= i < |pool| ==> Locatable(pool[i])
    ensures var rs := Nearby(pool, radius, distanceKm).value;
      && (forall x :: x in rs ==> exists i :: 0 <= i < |pool| && x == Located(pool[i], distanceKm))
      && (forall i :: 0 <= i < |pool| && WithinRadius(Located(pool[i], distanceKm), RadiusOrDefault(radius))
                      ==> Located(pool[i], distanceKm) in rs)
  {
    NearbyPipeline(pool, radius, distanceKm);
    var all := AnnotateAll(pool, distanceKm);
    var kept := KeepWithin(all, RadiusOrDefault(radius));
    var rs := SortByKey(kept, DistanceKey);
    KeepWithinMembers(all, RadiusOrDefault(radius));
    forall x | x in rs ensures exists i :: 0 <= i < |pool| && x == Located(pool[i], distanceKm) {
      assert x in multiset(rs);
      assert x in all;
      var i :| 0 <= i < |all| && all[i] == x;
    }
    forall i | 0 <= i < |pool| && WithinRadius(Located(pool[i], distanceKm), RadiusOrDefault(radius))
      ensures Located(pool[i], distanceKm) in rs
    {
      assert all[i] in kept;
      assert all[i] in multiset(kept);
    }
  }

  /** Riders at the same distance keep their pool order. */
  lemma NearbyStable(pool: seq<RiderRow>, radius: Option<real>, distanceKm: Coordinate -> real, k: real)
    requires Nearby(pool, radius, distanceKm).Ok?
    ensures WithKey(Nearby(pool, radius, distanceKm).value, DistanceKey, k)
         == WithKey(KeepWithin(AnnotateAll(pool, distanceKm), RadiusOrDefault(radius)), DistanceKey, k)
  {
    SortByKeyStable(KeepWithin(AnnotateAll(pool, distanceKm), RadiusOrDefault(radius)), DistanceKey, k);
  }

  /** The pool holds at most 50 riders (the query's limit), so the answer does too. */
  lemma NearbyAtMostFifty(pool: seq<RiderRow>, radius: Option<real>, distanceKm: Coordinate -> real)
    requires |pool| <= 50 && Nearby(pool, radius, distanceKm).Ok?
    ensures |Nearby(pool, radius, distanceKm).value| <= 50
  {
    NearbyWithinRadiusSorted(pool, radius, distanceKm);
  }

  /** The point shown by `GET /:riderId`: the parsed point, or the fixed
      fallback exactly when parsing fails. */
  function RiderLocation(row: RiderRow): (loc: Location)
    ensures Locatable(row) ==> loc == ParseLocation(row.currentLocation).value
    ensures !Locatable(row) ==> loc == FallbackLocation
  {
    match ParseLocation(row.currentLocation)
    case Some(l) => l
    case None => FallbackLocation
  }

  /** `PATCH /:riderId/location`: both parts must be truthy (so a latitude or
      longitude of exactly 0 is refused), and the stored text is the POINT
      that `parseLocation` reads back. */
  function LocationUpdateText(latitude: Option<int>, longitude: Option<int>): (r: Result<string, RiderError>)
    ensures r.Ok? <==> latitude.Some? && latitude.value != 0 && longitude.Some? && longitude.value != 0
    ensures r.Err? ==> r.error == InvalidCoordinates
    ensures r.Ok? ==> ParseLocation(Some(r.value)) == Some(Location(Fixed(latitude.value), Fixed(longitude.value)))
  {
    if latitude.None? || latitude.value == 0 || longitude.None? || longitude.value == 0 then Err(InvalidCoordinates)
    else
      var c := Coordinate(latitude.value, longitude.value);
      ParseLocationRoundTrip(c);
      Ok(EncodePoint(c))
  }

  /** `ratings.reduce((sum, r) => sum + r.rating, 0)`. */
  function Sum(ratings: seq<int>): int {
    if ratings == [] then 0 else Sum(ratings[..|ratings| - 1]) + ratings[|ratings| - 1]
  }

  predicate AllInRange(ratings: seq<int>, lo: int, hi: int) {
    forall i :: 0 <= i < |ratings| ==> lo <= ratings[i] <= hi
  }

  lemma {:induction false} SumBounds(ratings: seq<int>, lo: int, hi: int)
    requires AllInRange(ratings, lo, hi)
    ensures lo * |ratings| <= Sum(ratings) <= hi * |ratings|
  {
    if ratings != [] {
      var n := |ratings|;
      SumBounds(ratings[..n - 1], lo, hi);
      assert lo * n == lo * (n - 1) + lo;
      assert hi * n == hi * (n - 1) + hi;
    }
  }

  /** The average of `GET /:riderId/ratings`: 0 without ratings, otherwise the
      mean rounded to one decimal. */
  function AverageRating(ratings: seq<int>): (avg: real)
    ensures ratings == [] ==> avg == 0.0
    ensures ratings != [] ==> var mean := Sum(ratings) as real / |ratings| as real;
      mean - 0.05 < avg <= mean + 0.05
    ensures IsTenths(avg)
  {
    if ratings == [] then 0.0
    else Round(Sum(ratings) as real / |ratings| as real * 10.0) as real / 10.0
  }

  /** A total between `lo·n` and `hi·n` has its mean between `lo` and `hi`. */
  lemma MeanBounds(total: real, n: real, lo: real, hi: real)
    requires n > 0.0 && lo * n <= total <= hi * n
    ensures lo <= total / n <= hi
  {
    var q := total / n;
    assert q * n == total;
  }

  /** Ratings between 1 and 5 average between 1 and 5. */
  lemma AverageRatingInRange(ratings: seq<int>)
    requires ratings != [] && AllInRange(ratings, 1, 5)
    ensures 1.0 <= AverageRating(ratings) <= 5.0
  {
    var n := |ratings|;
    SumBounds(ratings, 1, 5);
    var mean := Sum(ratings) as real / n as real;
    MeanBounds(Sum(ratings) as real, n as real, 1.0, 5.0);
    RoundMonotone(10.0, mean * 10.0);
    RoundMonotone(mean * 10.0, 50.0);
    RoundOfInteger(10);
    RoundOfInteger(50);
  }

  /** The answer of `GET /:riderId/ratings`. */
  datatype RatingsSummary = RatingsSummary(ratings: seq<int>, averageRating: real, totalRatings: nat)

  function RatingsAnswer(ratings: seq<int>): (r: RatingsSummary)
    ensures r.totalRatings == |ratings| && r.ratings == ratings
    ensures r.averageRating == AverageRating(ratings)
    ensures ratings == [] ==> r.averageRating == 0.0
    ensures ratings != [] && AllInRange(ratings, 1, 5) ==> 1.0 <= r.averageRating <= 5.0
  {
    if ratings != [] && AllInRange(ratings, 1, 5) then
      AverageRatingInRange(ratings);
      RatingsSummary(ratings, AverageRating(ratings), |ratings|)
    else RatingsSummary(ratings, AverageRating(ratings), |ratings|)
  }
}
