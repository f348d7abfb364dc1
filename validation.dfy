/** The request validators: the Algerian phone check, the range and length
    rules of each route's validator table, and the gate that answers 400
    when any rule failed. Values reach the rules already read: a number is
    `Missing`, `Malformed` (not a float) or its value; a text is the text
    (`""` when missing). */
module Validation {
  import opened Text
  import opened Auth

  /** `[567]\d{8}`. */
  predicate IsSubscriberNumber(s: string) {
    |s| == 9 && IsSubscriberLead(s[0]) && AllDigits(s[1..])
  }

  /** `^0[567]\d{8}$`. */
  predicate MatchesLocal(s: string) {
    |s| == 10 && s[0] == '0' && IsSubscriberNumber(s[1..])
  }

  /** `^[567]\d{8}$`. */
  predicate MatchesShort(s: string) {
    IsSubscriberNumber(s)
  }

  /** `^\+213[567]\d{8}$`. */
  predicate MatchesInternational(s: string) {
    |s| == 13 && s[..4] == "+213" && IsSubscriberNumber(s[4..])
  }

  /** Digits only, save for a `+` in front. */
  predicate DigitsWithOptionalPlus(s: string) {
    forall i :: 0 <= i < |s| ==> IsDigit(s[i]) || (i == 0 && s[i] == '+')
  }

  /** The three patterns, tried in order. */
  predicate MatchesAny(c: string) {
    MatchesLocal(c) || MatchesShort(c) || MatchesInternational(c)
  }

  /** 10, 9 or 13 characters, all digits but a leading `+`, ending with a
      subscriber number. */
  predicate AcceptedShape(c: string) {
    && (|c| == 10 || |c| == 9 || |c| == 13)
    && DigitsWithOptionalPlus(c)
    && IsSubscriberNumber(c[|c| - 9..])
  }

  /** What each pattern means for the matched text. */
  lemma MatchedShape(c: string)
    requires MatchesAny(c)
    ensures AcceptedShape(c)
  {
    if MatchesLocal(c) {
      assert c[|c| - 9..] == c[1..];
      forall i | 2 <= i < |c| ensures IsDigit(c[i]) {
        assert c[i] == c[1..][1..][i - 2];
      }
    } else if MatchesShort(c) {
      assert c[|c| - 9..] == c;
      forall i | 1 <= i < |c| ensures IsDigit(c[i]) {
        assert c[i] == c[1..][i - 1];
      }
    } else {
      assert c[|c| - 9..] == c[4..];
      assert c[..4] == "+213";
      forall i | 1 <= i < 4 ensures IsDigit(c[i]) {
        assert c[i] == c[..4][i];
      }
      forall i | 5 <= i < |c| ensures IsDigit(c[i]) {
        assert c[i] == c[4..][1..][i - 5];
      }
    }
  }

  /** `validateAlgerianPhone`: the cleaned phone matches one of the three
      patterns. An accepted phone then cleans to 10, 9 or 13 characters, all
      digits but a leading `+`, ending with 5, 6 or 7 and eight digits. */
  function ValidateAlgerianPhone(phone: string): (ok: bool)
    ensures ok <==> MatchesLocal(CleanPhone(phone)) || MatchesShort(CleanPhone(phone)) || MatchesInternational(CleanPhone(phone))
    ensures ok ==> AcceptedShape(CleanPhone(phone))
    ensures !ok ==> !MatchesLocal(CleanPhone(phone)) && !MatchesShort(CleanPhone(phone)) && !MatchesInternational(CleanPhone(phone))
  {
    var c := CleanPhone(phone);
    if MatchesAny(c) then
      MatchedShape(c);
      true
    else false
  }

  /** The cleaned form of an international number is kept as it is. */
  lemma InternationalKept(c: string)
    requires MatchesInternational(c)
    ensures StartsWith(c, "+213") && c == CountryCode + c[|c| - 9..]
  {
    assert c[..4] == "+213";
    assert c == c[..4] + c[4..];
  }

  /** The leading 0 of a local number is replaced by `+213`. */
  lemma LocalPrefixed(c: string)
    requires MatchesLocal(c)
    ensures !StartsWith(c, "+213") && !StartsWith(c, "213") && StartsWith(c, "0")
    ensures c[1..] == c[|c| - 9..]
  {
  }

  /** A short number starts with none of the prefixes the formatter looks for. */
  lemma ShortUnprefixed(c: string)
    requires MatchesShort(c)
    ensures !StartsWith(c, "+213") && !StartsWith(c, "213") && !StartsWith(c, "0")
    ensures c == c[|c| - 9..]
  {
  }

  /** Every phone the validator accepts is formatted by the auth routes as
      `+213`, then 5, 6 or 7, then eight digits: the last nine characters of
      the cleaned input. The formatted phone is itself accepted. */
  lemma AcceptedPhoneFormatsInternationally(phone: string)
    requires ValidateAlgerianPhone(phone)
    ensures var f, c := FormatPhoneNumber(phone), CleanPhone(phone);
      && |f| == 13 && MatchesInternational(f)
      && f == CountryCode + c[|c| - 9..]
    ensures ValidateAlgerianPhone(FormatPhoneNumber(phone))
  {
    var c := CleanPhone(phone);
    var f := FormatPhoneNumber(phone);
    var subscriber := c[|c| - 9..];
    if MatchesInternational(c) {
      InternationalKept(c);
    } else if MatchesLocal(c) {
      LocalPrefixed(c);
    } else {
      ShortUnprefixed(c);
    }
    assert f == CountryCode + subscriber;
    assert f[..4] == "+213" && f[4..] == subscriber;
    assert MatchesInternational(f);
    assert CleanPhone(f) == f;
  }

  /** One failed rule of a validator table. */
  datatype FieldError = FieldError(field: string, message: string)

  /** A number as the validators receive it. */
  datatype NumericParam = Missing | Malformed | Value(x: real)

  /** `isFloat({ min, max })`, both bounds included. */
  predicate IsFloatIn(p: NumericParam, lo: real, hi: real) {
    p.Value? && lo <= p.x <= hi
  }

  /** One rule: no error when it holds, its message otherwise. */
  function Rule(holds: bool, field: string, message: string): seq<FieldError> {
    if holds then [] else [FieldError(field, message)]
  }

  /** `authValidation.requestOTP`. */
  function RequestOtpErrors(phoneNumber: string): (errs: seq<FieldError>)
    ensures errs == [] <==> ValidateAlgerianPhone(phoneNumber)
  {
    Rule(phoneNumber != "", "phoneNumber", "Phone number is required")
    + Rule(ValidateAlgerianPhone(phoneNumber), "phoneNumber", "Invalid Algerian phone number format")
  }

  /** `authValidation.verifyOTP`: the phone rules and a code of exactly six characters. */
  function VerifyOtpErrors(phoneNumber: string, otpCode: string): (errs: seq<FieldError>)
    ensures errs == [] <==> ValidateAlgerianPhone(phoneNumber) && |otpCode| == 6
  {
    RequestOtpErrors(phoneNumber)
    + Rule(6 <= |otpCode| <= 6, "otpCode", "OTP code must be 6 digits")
  }

  /** `authValidation.updateProfile`: a display name of 2 to 50 characters. */
  function UpdateProfileErrors(displayName: string): (errs: seq<FieldError>)
    ensures errs == [] <==> 2 <= |displayName| <= 50
  {
    Rule(displayName != "", "displayName", "Display name is required")
    + Rule(2 <= |displayName| <= 50, "displayName", "Display name must be between 2 and 50 characters")
  }

  /** `locationValidation.coordinates`. */
  function CoordinatesErrors(latitude: NumericParam, longitude: NumericParam): (errs: seq<FieldError>)
    ensures errs == [] <==> IsFloatIn(latitude, -90.0, 90.0) && IsFloatIn(longitude, -180.0, 180.0)
  {
    Rule(IsFloatIn(latitude, -90.0, 90.0), "latitude", "Invalid latitude")
    + Rule(IsFloatIn(longitude, -180.0, 180.0), "longitude", "Invalid longitude")
  }

  /** `locationValidation.search`: a query of at least three characters. */
  function SearchErrors(query: string): (errs: seq<FieldError>)
    ensures errs == [] <==> |query| >= 3
  {
    Rule(query != "", "query", "Search query is required")
    + Rule(|query| >= 3, "query", "Search query must be at least 3 characters")
  }

  /** `tripValidation.create`. */
  function TripCreateErrors(pickupLatitude: NumericParam, pickupLongitude: NumericParam,
                            destinationLatitude: NumericParam, destinationLongitude: NumericParam,
                            pickupAddress: string, destinationAddress: string): (errs: seq<FieldError>)
    ensures errs == [] <==>
      && IsFloatIn(pickupLatitude, -90.0, 90.0) && IsFloatIn(pickupLongitude, -180.0, 180.0)
      && IsFloatIn(destinationLatitude, -90.0, 90.0) && IsFloatIn(destinationLongitude, -180.0, 180.0)
      && pickupAddress != "" && destinationAddress != ""
  {
    Rule(IsFloatIn(pickupLatitude, -90.0, 90.0), "pickupLocation.latitude", "Invalid pickup latitude")
    + Rule(IsFloatIn(pickupLongitude, -180.0, 180.0), "pickupLocation.longitude", "Invalid pickup longitude")
    + Rule(IsFloatIn(destinationLatitude, -90.0, 90.0), "destinationLocation.latitude", "Invalid destination latitude")
    + Rule(IsFloatIn(destinationLongitude, -180.0, 180.0), "destinationLocation.longitude", "Invalid destination longitude")
    + Rule(pickupAddress != "", "pickupAddress", "Pickup address is required")
    + Rule(destinationAddress != "", "destinationAddress", "Destination address is required")
  }

  /** `riderValidation.nearby`: the radius is optional, and when given lies in [1, 100]. */
  function NearbyErrors(latitude: NumericParam, longitude: NumericParam, radius: NumericParam): (errs: seq<FieldError>)
    ensures errs == [] <==>
      && IsFloatIn(latitude, -90.0, 90.0) && IsFloatIn(longitude, -180.0, 180.0)
      && (radius.Missing? || IsFloatIn(radius, 1.0, 100.0))
  {
    Rule(IsFloatIn(latitude, -90.0, 90.0), "latitude", "Invalid latitude")
    + Rule(IsFloatIn(longitude, -180.0, 180.0), "longitude", "Invalid longitude")
    + (if radius.Missing? then []
       else Rule(IsFloatIn(radius, 1.0, 100.0), "radius", "Radius must be between 1 and 100 km"))
  }

  /** What `handleValidationErrors` does: go on, or answer 400. */
  datatype Gate = Next | Reject(status: int, error: string, details: seq<FieldError>)

  /** `handleValidationErrors`: `next()` exactly when no rule failed;
      otherwise 400 with every failure as details. */
  function HandleValidationErrors(errs: seq<FieldError>): (g: Gate)
    ensures g.Next? <==> errs == []
    ensures g.Reject? ==> g.status == 400 && g.details == errs
  {
    if errs == [] then Next else Reject(400, "Validation failed", errs)
  }
}
