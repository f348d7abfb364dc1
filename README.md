# Moto-taxi booking API — verified model of its rules

This project models, in Dafny, the decision logic of an Express back end for
booking motorcycle rides in Algeria: trip pricing and the trip record, trip
status changes and ratings, promotion validity, eligibility and discounts,
the rider location format and the nearby-riders ranking, Algerian phone
number normalisation and validation, the request validator tables, the place
icon classifier, reverse-geocoding address assembly, search suggestions,
HTML tag stripping in route steps, and the error middleware.

Each route handler is a function from its inputs to a `Result`. The inputs are
the request fields, the rows the database returned (an `Option` where `None`
means that no row matched) and the current time. The `Result` holds either the
row written or the answer given, or an error that maps to the handler's HTTP
status.

Modules, one per source file, plus shared helpers:

- `Trips`: `routes/trips.js`.
- `Promotions`: `routes/promotions.js`.
- `Riders`: `routes/riders.js`.
- `Auth`: `routes/auth.js`.
- `Validation`: `middleware/validation.js`.
- `Location`: `routes/location.js`.
- `ErrorHandler`: `middleware/errorHandler.js`.
- Helpers:
  - `Wrappers`: `Option` and `Result`.
  - `JsMath`: `Math.round`.
  - `Text`: the JavaScript string operations the code uses, such as `split`, `substring`, `trim`, `toLowerCase`, `includes` and `startsWith`.
  - `Wkt`: the `POINT(lng lat)` text of section 7 of OGC 06-103r4, Simple Feature Access Part 1. Coordinates in it are exact multiples of a millionth of a degree.
  - `Sorting`: the stable sort `Array.prototype.sort` performs with a key comparator.

Where the code and its documentation differ, the model follows the code:

- A status update enforces no order between statuses. Any of the five statuses replaces any current one.
- Cancelling is unconditional.
- On `/nearby`, a rider whose stored point does not parse makes the handler assign to a `const`. That throws, so the request answers 500. The random fallback point is never produced.

The location routes validate coordinates with `body(...)` rules while `/reverse` reads them from the query string. `Validation.CoordinatesErrors` states the rules on the values they inspect.

## Model

| member | source | states |
|---|---|---|
| `Trips.CalculatePrice` | routes/trips.js:21-25 | price is 100 DA at distance 0, at least 100 DA for any non-negative distance, and within half a dinar of 100 + 50·d |
| `Trips.CalculateDuration` | routes/trips.js:28-31 | duration is 0 minutes at distance 0 and never negative for a non-negative distance |
| `Trips.PricingMonotone` | routes/trips.js:21-31 | a longer trip never costs less or takes fewer minutes |
| `Trips.ParseStatus` | routes/trips.js:287-293 | a status text is accepted exactly when it is one of the five listed names, and the accepted status carries that name |
| `Trips.ParseStatusName` | routes/trips.js:287-288 | every status's name is accepted as that status |
| `Trips.OrNull` | routes/trips.js:62 | `x \|\| null` is null exactly for a missing or empty text, and otherwise the text itself |
| `Trips.DecodeStoredLocation` | routes/trips.js:144-158 | a stored point is decoded exactly when it is present and non-empty, and then it is the decoded text |
| `Trips.StoredLocationRoundTrip` | routes/trips.js:144-150 | the list view reads back the position that trip creation wrote |
| `Trips.CreateTrip` | routes/trips.js:47-71 | a new trip is `pending`, belongs to the user, has the given rider id or none when `riderId` is falsy, keeps both addresses as given, has price and duration from the unrounded distance, stores the distance as a whole number of hundredths of a kilometre within 0.005 km of it, and both points decode to the given positions |
| `Trips.PriceUsesUnroundedDistance` | routes/trips.js:54-67 | a 1.009 km trip is stored as 1.01 km yet priced at 150 DA, not the 151 DA of 1.01 km |
| `JsMath.Round` | routes/trips.js:24 | `Math.round(x)` is the one integer in (x − 0.5, x + 0.5], so halves round up |
| `JsMath.RoundHundredths` | routes/trips.js:67 | `Math.round(x * 100) / 100` is a whole number of hundredths within 0.005 of x |
| `Trips.StatusUpdateData` | routes/trips.js:287-305 | an unlisted status is refused; otherwise `updated_at` is set, `started_at` only for `in_progress` and `completed_at` only for `completed` |
| `Trips.UpdateTripStatus` | routes/trips.js:287-320 | the update succeeds exactly for a listed status and an existing trip; the new row has that status and the new timestamps and keeps the rest of the booking |
| `Trips.UpdateTripStatusCode` | routes/trips.js:287-320 | a refused update answers 400 for an unlisted status and 500 when no trip row comes back |
| `Trips.NoTransitionOrder` | routes/trips.js:307-313 | from any current status, every listed status can be set |
| `Trips.CancelTrip` | routes/trips.js:348-364 | an existing trip is cancelled whatever its status, with `updated_at` set and nothing else of the booking changed |
| `Trips.CancelTripCode` | routes/trips.js:348-364 | cancelling fails exactly when no trip row comes back, and then answers 500 |
| `Trips.RateTrip` | routes/trips.js:391-429 | a rating is stored exactly when it lies in [1, 5] and the trip exists and is completed; the rating is checked first, then existence; a valid rating on an existing trip that is not completed is refused as not completed; the stored rating is the whole part and `rider_id` comes from the trip |
| `Trips.RateTripCode` | routes/trips.js:391-429 | a refused rating answers 404 exactly for a valid rating of a missing trip, and 400 otherwise |
| `Wkt.FormatNumber` | routes/trips.js:63 | a printed coordinate is non-empty and made of digits, `-` and `.` |
| `Wkt.NumberRoundTrip` | routes/trips.js:146-147 | `Number` of a printed coordinate gives back the same coordinate |
| `Wkt.EncodePoint` | routes/trips.js:63 | the stored text starts with `POINT(` and ends with `)` |
| `Wkt.DecodeEncode` | routes/trips.js:146-148 | decoding the stored text gives latitude from the second number and longitude from the first, the position written |
| `Wkt.DecodeCoords` | routes/trips.js:146-148 | a text with no space between the parentheses decodes to the longitude it holds and a latitude that is not a number |
| `Promotions.CurrentlyValid` | routes/promotions.js:121 | a promotion is usable exactly when active and `validFrom ≤ now ≤ validUntil` |
| `Promotions.CompletedCount` | routes/promotions.js:147-148 | the count is exactly the number of trips whose status is `completed`: at most the number of trips, and 0 exactly when none is completed |
| `Promotions.TitleRules` | routes/promotions.js:142-161 | eligible exactly when neither the first-ride rule (title says "first ride", some completed trip) nor the loyalty rule (title says "loyalty", fewer than 10 completed) fires; the loyalty reason overrides the first-ride reason |
| `Promotions.LoyaltyReason` | routes/promotions.js:159 | the loyalty reason is `Complete `, then the decimal digits of 10 minus the completed count, then ` more trips to unlock this promotion` |
| `Promotions.EvaluateTitleRules` | routes/promotions.js:142-161 | overwriting `eligible` and `reason` rule by rule yields `TitleRules` |
| `Promotions.CheckEligibility` | routes/promotions.js:109-166 | a missing promotion is 404; an inactive one is not eligible with its own reason; otherwise eligible exactly when valid and no title rule fires; a valid but ineligible one carries the reason of the last rule that fired, and an eligible one the eligible reason |
| `Promotions.CheckEligibilityCode` | routes/promotions.js:109-114 | the eligibility check fails only for a missing promotion, with 404 |
| `Promotions.FirstRideBonusExample` | routes/promotions.js:146-151 | the title match ignores case: "First Ride Bonus" is refused after one completed trip and granted before |
| `Promotions.DiscountAmount` | routes/promotions.js:224-230 | a truthy percentage gives `Math.round(price · percentage / 100)`; otherwise a truthy amount gives the smaller of the amount and the price; neither gives 0; a percentage in (0, 100] of a non-negative price lies between 0 and the price |
| `Promotions.ComputeDiscount` | routes/promotions.js:224-230 | reassigning `discountAmount` as the handler does yields `DiscountAmount` |
| `Promotions.PercentageWithinPrice` | routes/promotions.js:227 | a rounded percentage in [0, 100] of a non-negative price lies between 0 and the price |
| `Promotions.FinalPrice` | routes/promotions.js:232 | the final price is `max(0, price − discount)`: price minus discount when the discount does not exceed the price, 0 when it does; never negative, and never above the price for a non-negative discount |
| `Promotions.ApplyPromotion` | routes/promotions.js:190-244 | a missing or non-positive price is refused as invalid before anything else; then a missing promotion is not found and one not currently valid is not valid; on success the answer carries the promotion's id, the original price, and the `DiscountAmount` and `FinalPrice` for them |
| `Promotions.ApplyPromotionCode` | routes/promotions.js:190-221 | a refused application answers 404 exactly for a missing promotion with a valid price, and 400 for a bad price or a promotion out of its window |
| `Promotions.ApplyIgnoresTitle` | routes/promotions.js:211-232 | applying never depends on the title, so the eligibility rules are not enforced |
| `Promotions.FixedAmountSplitsPrice` | routes/promotions.js:228-232 | a non-negative fixed amount splits the price into discount plus final price |
| `Promotions.PercentageSplitsPrice` | routes/promotions.js:226-232 | a percentage in (0, 100] splits the price into discount plus final price |
| `Promotions.TwentyPercentExample` | routes/promotions.js:226-232 | 20 % of 1000 DA is 200 DA off and 800 DA to pay |
| `Riders.ParseLocation` | routes/riders.js:21-31 | a point is returned exactly for a present text starting with `POINT(`, and it is the decoded pair |
| `Riders.ParseLocationRoundTrip` | routes/riders.js:24-27 | `parseLocation` reads back the position the location update writes |
| `Riders.RatingOrDefault` | routes/riders.js:78 | a missing or zero rating becomes 4.5, any other is kept |
| `Riders.VehicleOrDefault` | routes/riders.js:82 | a missing or empty vehicle type becomes `motorcycle`, any other is kept |
| `Riders.MeasureTo` | routes/riders.js:69-80 | a rider has a distance exactly when both coordinates of its point are numbers, and then it is a whole number of hundredths of a kilometre within 0.005 km of the great-circle distance |
| `Riders.Annotate` | routes/riders.js:74-84 | each annotated rider keeps its id, name, phone, status and plate, shows its parsed point and that point's distance, a 4.5 rating for a missing or zero one and `motorcycle` for a missing vehicle type |
| `Riders.RadiusOrDefault` | routes/riders.js:36-39 | the search radius is 50 km when none is given, and the given one otherwise |
| `Riders.AnnotateAll` | routes/riders.js:57-85 | the map step annotates each rider, in order, with its own parsed point |
| `Riders.KeepWithin` | routes/riders.js:86 | the filter never returns more riders than it is given |
| `Riders.KeepWithinMembers` | routes/riders.js:86 | a rider is kept exactly when it is in the input and its distance is at most the radius; no rider is added or duplicated |
| `Riders.KeepWithinConcat` | routes/riders.js:86 | filtering a concatenation is concatenating the filtered parts, so the filter keeps the input order |
| `Riders.KeepWithinOne` | routes/riders.js:86 | a single rider is kept exactly when its distance is at most the radius; a NaN distance is dropped |
| `Riders.Nearby` | routes/riders.js:56-101 | the request fails exactly when some rider's point does not parse |
| `Riders.NearbyWithinRadiusSorted` | routes/riders.js:80-87 | every answer is within the radius, the answers ascend by distance, and there are no more than the pool held |
| `Riders.NearbyMembers` | routes/riders.js:56-87 | the answer holds exactly the pool's riders within the radius, each at its own parsed point |
| `Riders.NearbyStable` | routes/riders.js:87 | riders at equal distance keep their pool order |
| `Riders.NearbyAtMostFifty` | routes/riders.js:42-46 | with the pool limited to 50, so is the answer |
| `Riders.RiderLocation` | routes/riders.js:129-132 | the single-rider view shows the parsed point, or the fixed point (36.5644, 3.5892) exactly when parsing fails |
| `Riders.LocationUpdateText` | routes/riders.js:163-173 | an update is refused exactly when a coordinate is missing or 0, and the stored text reads back as the given position |
| `Riders.SumBounds` | routes/riders.js:220 | the sum of n ratings in [lo, hi] lies in [lo·n, hi·n] |
| `Riders.AverageRating` | routes/riders.js:219-226 | no ratings average to 0; otherwise the answer is a whole number of tenths within 0.05 of the arithmetic mean of the ratings |
| `Riders.AverageRatingInRange` | routes/riders.js:219-226 | ratings in [1, 5] average, after rounding to one decimal, to a value in [1, 5] |
| `Riders.RatingsAnswer` | routes/riders.js:219-228 | `totalRatings` is the number of ratings returned, `ratings` the ratings themselves and `averageRating` their rounded mean (`AverageRating`): 0 without ratings and in [1, 5] for ratings in that range |
| `Auth.CleanPhone` | routes/auth.js:10 | the cleaned phone has no whitespace, `-`, `(` or `)`, is no longer than the input, and equals an input that has none of them; a single separator is removed and any other single character kept |
| `Auth.CleanPhoneConcat` | routes/auth.js:10 | cleaning distributes over concatenation; with the one-character case of `CleanPhone`, it removes exactly the separators and keeps every other character, in order |
| `Auth.FormatPhoneNumber` | routes/auth.js:9-23 | the formatted phone always starts with `+213` and contains no separator; a cleaned phone starting with `+213` is returned as it is, one starting with `213` gets a `+` in front, and one starting with `0` has the `0` replaced by `+213` |
| `Auth.FormatPhoneOtherwise` | routes/auth.js:18-22 | with no `+213`, `213` or `0` prefix, the result is `+213` followed by the cleaned phone; the nine-digit branch agrees with the last one |
| `Auth.FormatPhoneIdempotent` | routes/auth.js:10-13 | formatting a formatted phone changes nothing |
| `Validation.ValidateAlgerianPhone` | middleware/validation.js:15-26 | a phone is accepted exactly when its cleaned form matches `0[567]\d{8}`, `[567]\d{8}` or `\+213[567]\d{8}`; an accepted phone then cleans to 10, 9 or 13 characters, all digits but a leading `+`, ending in 5, 6 or 7 and eight digits |
| `Validation.MatchedShape` | middleware/validation.js:19-25 | text matching `0[567]\d{8}`, `[567]\d{8}` or `\+213[567]\d{8}` has that length, those digits and that subscriber number |
| `Validation.InternationalKept` | routes/auth.js:12-13 | a phone matching `+213[567]\d{8}` takes the first branch and is `+213` plus its last nine characters |
| `Validation.LocalPrefixed` | routes/auth.js:16-17 | a phone matching `0[567]\d{8}` takes the `0` branch, and what follows the `0` is its last nine characters |
| `Validation.ShortUnprefixed` | routes/auth.js:18-22 | a phone matching `[567]\d{8}` takes none of the prefix branches |
| `Validation.AcceptedPhoneFormatsInternationally` | middleware/validation.js:19-25 | every accepted phone formats to 13 characters: `+213`, then 5, 6 or 7, then eight digits, the last nine characters of the cleaned input; the result is accepted too |
| `Validation.RequestOtpErrors` | middleware/validation.js:29-35 | an OTP request passes exactly when the phone is accepted |
| `Validation.VerifyOtpErrors` | middleware/validation.js:38-50 | an OTP check passes exactly when the phone is accepted and the code has exactly 6 characters |
| `Validation.UpdateProfileErrors` | middleware/validation.js:52-59 | a profile update passes exactly when the display name has 2 to 50 characters |
| `Validation.CoordinatesErrors` | middleware/validation.js:63-71 | coordinates pass exactly when latitude is a number in [-90, 90] and longitude in [-180, 180] |
| `Validation.SearchErrors` | middleware/validation.js:73-80 | a search passes exactly when the query has at least 3 characters |
| `Validation.TripCreateErrors` | middleware/validation.js:84-104 | a trip request passes exactly when both points are in range and both addresses are non-empty |
| `Validation.NearbyErrors` | middleware/validation.js:108-120 | a nearby request passes exactly when the position is in range and the radius is absent or in [1, 100] |
| `Validation.HandleValidationErrors` | middleware/validation.js:3-12 | the request goes on exactly when no rule failed, and otherwise answers 400 with every failure |
| `Location.GetLocationIcon` | routes/location.js:21-43 | the icon is the first category in priority order with one of its types present, and the generic `location` exactly when none is |
| `Location.IconRankNotAfter` | routes/location.js:21-43 | with more types present the icon can only move earlier in the priority order |
| `Location.IconDependsOnPresence` | routes/location.js:21-43 | the icon depends only on which types are present, not on their order |
| `Location.ComponentField` | routes/location.js:174-185 | a component sets at most one field, the first in the order street number, route, locality, region, country whose type it carries |
| `Location.LastNameForUnset` | routes/location.js:167-186 | a field no component sets stays `''` |
| `Location.LastNameForSet` | routes/location.js:173-186 | a field some component sets ends with the name of the last component that sets it |
| `Location.ExtractAddressComponents` | routes/location.js:166-186 | the loop leaves each field holding the last name assigned to it, as `LastNameFor` defines |
| `Location.ShortAddress` | routes/location.js:188 | the short address is never empty: the trimmed street line if it has text, else the locality if non-empty, else `Unknown Location` |
| `Location.SearchOrigin` | routes/location.js:49-50 | the search centre defaults to Algiers (36.7538, 3.0588) for each coordinate not given |
| `Location.ToSuggestion` | routes/location.js:80-98 | each suggestion copies the name, position, address and place id, has its distance rounded to whole metres, `''` for a missing business status, a null rating for a falsy one and the place's own rating otherwise, `[]` for missing types, and the icon of its types |
| `Location.ToSuggestions` | routes/location.js:80-99 | the map keeps the results' order and number |
| `Location.SearchSuggestions` | routes/location.js:77-102 | at most 8 suggestions, none when the answer has no results, ascending by distance, and exactly the suggestions of the first 8 results |
| `Location.SearchSuggestionsStable` | routes/location.js:101-102 | suggestions at equal distance keep the order of their results |
| `Location.StripTags` | routes/location.js:326 | stripping tags never lengthens the text |
| `Location.StripTagsDeletes` | routes/location.js:326 | stripping tags only deletes: the output is no longer and uses no new character |
| `Location.StripTagsKeepsPlainPrefix` | routes/location.js:326 | text before the first `<` is copied unchanged |
| `Location.StripTagsDropsTag` | routes/location.js:326 | a `<`, text without `>`, and a `>` are removed together |
| `Location.StripTagsLeavesNoTag` | routes/location.js:326 | the output has no `>` after a `<` |
| `Location.StripTagsKeepsPlainText` | routes/location.js:326 | text with no tag passes unchanged |
| `Location.StripTagsIdempotent` | routes/location.js:326 | stripping twice is stripping once |
| `ErrorHandler.Classify` | middleware/errorHandler.js:4-61 | the status is one of the error's own, 400, 401, 404, 409 or 500; details appear only for a `ValidationError`; the token errors and validation override any code; `PGRST116` is 404, `PGRST301` 409, other codes 500; without code or special name, the error's status and message or 500 and `Internal Server Error` |
| `ErrorHandler.HandleError` | middleware/errorHandler.js:1-62 | reassigning the local `error` rule by rule, in source order, answers as `Classify`, where the last rule that applies wins |

## Left out

- Database queries are not modelled. Their results are inputs: `None` for no row, and the pool, the ratings or the trips as returned. That includes filters, ordering, limits and pagination.
- The map service HTTP calls and their status checks are not modelled; suggestions and address components are inputs.
- The haversine distance is a function parameter (`distanceKm`), since it is floating-point trigonometry.
- Clocks are not modelled: `new Date()` and `toISOString()` become a `now` parameter of type `Time`.
- The OTP, session, profile and sign-out handlers of the auth routes are not modelled, because they only call the authentication service.
- Logging and the Express request and response wiring are not modelled.
- `Math.random` in the nearby fallback is not modelled, because it is unreachable: the `const` assignment throws first.
- Text-to-number conversion is modelled only for `-?digits(.digits)?` with up to six decimals, plus `""` as 0. Any other text (exponents, `+`, hexadecimal, spaces, finer fractions) decodes to NaN in the model.
- `parseFloat` and express-validator's `isFloat` and `isNumeric` are not modelled. Validators and handlers receive numbers already read (`Missing`, `Malformed` or a value).
- Validation.VerifyOtpErrors: does not model the `isNumeric` rule on the OTP code, because the validator library's numeric test is not part of this model.
- Text.Lower: lower-cases ASCII letters only, not the full Unicode case mapping of `toLowerCase`.
- Riders.Nearby: the in-place `sort` of the mapped array is modelled as a value (a stable sort of a sequence), not as an update of the array.
- Location.SearchSuggestions: the in-place `sort` of the suggestions is modelled as a value, not as an update of the array.
- Trips.RateTrip: takes the rating as a number; a rating sent as text, and `parseInt` on text, are not modelled.
- Promotions.ApplyPromotion: takes prices and discount amounts as whole dinars; fractional prices are not modelled.
- Promotions.DiscountAmount: bounds the percentage discount only for percentages in (0, 100] and non-negative prices; other percentages are computed but not bounded.
- Trips.CalculateDuration: states only the values at 0 and the sign, and monotonicity (in `Trips.PricingMonotone`); the exact rounding of d/20·60 is not restated.
- Numbers are exact reals, not binary doubles. Where a double product rounds to the other side of a half, the routes and the model differ by one unit in the last kept place: `Math.round(1.005 * 100) / 100` is 1 in JavaScript, whose product is 100.49999999999999, and 1.01 in the model; the other way round, the double nearest 1.045 lies just below it, so the routes store 1.05 km for it while the model, given that double's exact value, stores 1.04. This touches `JsMath.RoundHundredths` (stored trip distances, rider distances), the one-decimal average rating, `100 + d · 50` in the price and `price · percentage / 100` in the discount.
- Wkt.DecodeCoords: with no second piece the routes' latitude is `undefined`, so the key is left out of the JSON answer; the model gives NaN, which JSON writes as `null`.
- Positions written into points are whole millionths of a degree, so a coordinate with finer precision is not modelled.
- The place-details and route endpoints are modelled only through `GetLocationIcon` and `StripTags`. Their other fields are copied from the map service answer.
