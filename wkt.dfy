/** The point text the routes store in the geography columns and read back:
    `POINT(<longitude> <latitude>)`, the Well-Known Text point of section 7 of
    OGC 06-103r4 (Simple Feature Access, Part 1), longitude first.

    A coordinate is held as a whole number of millionths of a degree, so that
    writing and reading are exact. A number read back is that, or NaN when
    JavaScript's `Number` would not produce a value. */
module Wkt {
  import opened Wrappers
  import opened Text

  const FractionDigits: nat := 6
  /** Millionths of a degree per degree. */
  const Scale: nat := Pow10(FractionDigits)

  /** A JavaScript number as the codec sees it: NaN, or `micro` millionths. */
  datatype Num = NaN | Fixed(micro: int)

  /** A position given as millionths of a degree. */
  datatype Coordinate = Coordinate(latitude: int, longitude: int)

  /** `{ latitude, longitude }` as decoded; either part may be NaN. */
  datatype Location = Location(latitude: Num, longitude: Num)

  /** Drops the trailing zeros of a `k`-digit fraction `v`, keeping at least one digit. */
  function TrimZeros(v: nat, k: nat): (r: (nat, nat))
    requires 1 <= k && v < Pow10(k)
    ensures 1 <= r.1 <= k && r.0 < Pow10(r.1) && r.0 * Pow10(k - r.1) == v
  {
    if k > 1 && v % 10 == 0 then
      var r := TrimZeros(v / 10, k - 1);
      assert Pow10(k - r.1) == 10 * Pow10(k - 1 - r.1);
      r
    else (v, k)
  }

  /** The decimal part of `frac` millionths as JavaScript prints it: nothing
      for zero, otherwise a point and the digits without trailing zeros. */
  function FractionText(frac: nat): string
    requires frac < Scale
  {
    if frac == 0 then ""
    else
      var (v, k) := TrimZeros(frac, FractionDigits);
      "." + PadDigits(v, k)
  }

  /** `${x}` for the number x of `n` millionths. */
  function FormatNumber(n: int): (s: string)
    ensures s != []
    ensures forall i :: 0 <= i < |s| ==> IsDigit(s[i]) || s[i] == '-' || s[i] == '.'
  {
    var m: nat := if n < 0 then -n else n;
    (if n < 0 then "-" else "") + NatToDigits(m / Scale) + FractionText(m % Scale)
  }

  /** The millionths denoted by `whole.frac` where `frac` has `k` digits. */
  function FixedValue(whole: nat, frac: nat, k: nat): nat
    requires k <= FractionDigits
  {
    whole * Scale + frac * Pow10(FractionDigits - k)
  }

  /** `Number(s)` for unsigned decimal text with at most six decimals. */
  function ParseUnsigned(s: string): Option<nat>
  {
    var parts := Split(s, '.');
    if |parts| == 1 then
      if parts[0] != [] && AllDigits(parts[0]) then Some(DigitsValue(parts[0]) * Scale) else None
    else if |parts| == 2 then
      var whole, frac := parts[0], parts[1];
      if whole != [] && AllDigits(whole) && 1 <= |frac| <= FractionDigits && AllDigits(frac) then
        Some(FixedValue(DigitsValue(whole), DigitsValue(frac), |frac|))
      else None
    else None
  }

  /** `Number(s)`: 0 for the empty string, the value of `-?digits(.digits)?`,
      NaN for any other text. */
  function ParseNumber(s: string): Num
  {
    if s == [] then Fixed(0)
    else if s[0] == '-' then
      match ParseUnsigned(s[1..])
      case Some(m) => Fixed(-(m as int))
      case None => NaN
    else
      match ParseUnsigned(s)
      case Some(m) => Fixed(m)
      case None => NaN
  }

  lemma WholeRoundTrip(w: nat)
    ensures ParseUnsigned(NatToDigits(w)) == Some(w * Scale)
  {
    var whole := NatToDigits(w);
    DigitsValueOfNatToDigits(w);
    SplitWithoutSeparator(whole, '.');
    assert Split(whole, '.')[0] == whole;
  }

  /** The two-piece branch of `ParseUnsigned`, on its own. */
  lemma ParseTwoPieces(s: string, whole: string, frac: string)
    requires Split(s, '.') == [whole, frac]
    requires whole != [] && AllDigits(whole) && 1 <= |frac| <= FractionDigits && AllDigits(frac)
    ensures ParseUnsigned(s) == Some(FixedValue(DigitsValue(whole), DigitsValue(frac), |frac|))
  {
  }

  lemma FractionRoundTrip(w: nat, f: nat)
    requires 0 < f < Scale
    ensures ParseUnsigned(NatToDigits(w) + FractionText(f)) == Some(w * Scale + f)
  {
    var whole := NatToDigits(w);
    DigitsValueOfNatToDigits(w);
    var r := TrimZeros(f, FractionDigits);
    var p := PadDigits(r.0, r.1);
    DigitsValueOfPadDigits(r.0, r.1);
    assert FractionText(f) == ['.'] + p;
    assert '.' !in whole && '.' !in p;
    SplitWithoutSeparator(p, '.');
    SplitAtFirstSeparator(whole, p, '.');
    assert whole + FractionText(f) == whole + ['.'] + p;
    ParseTwoPieces(whole + FractionText(f), whole, p);
  }

  lemma UnsignedRoundTrip(m: nat)
    ensures ParseUnsigned(NatToDigits(m / Scale) + FractionText(m % Scale)) == Some(m)
  {
    var w, f := m / Scale, m % Scale;
    assert w * Scale + f == m;
    if f == 0 {
      assert FractionText(f) == "";
      assert NatToDigits(w) + FractionText(f) == NatToDigits(w);
      WholeRoundTrip(w);
    } else {
      FractionRoundTrip(w, f);
    }
  }

  /** Reading a printed number gives it back exactly. */
  lemma NumberRoundTrip(n: int)
    ensures ParseNumber(FormatNumber(n)) == Fixed(n)
  {
    var m: nat := if n < 0 then -n else n;
    var body := NatToDigits(m / Scale) + FractionText(m % Scale);
    UnsignedRoundTrip(m);
    if n < 0 {
      assert FormatNumber(n) == "-" + body;
      assert FormatNumber(n)[1..] == body;
    } else {
      assert FormatNumber(n) == body;
      assert body[0] == NatToDigits(m / Scale)[0];
    }
  }

  /** The text written for a position: `POINT(${longitude} ${latitude})`. */
  function EncodePoint(c: Coordinate): (s: string)
    ensures StartsWith(s, "POINT(") && s[|s| - 1] == ')'
  {
    "POINT(" + FormatNumber(c.longitude) + " " + FormatNumber(c.latitude) + ")"
  }

  /** The routes' decoder: `substring(6, length - 1)`, `split(' ')`,
      `map(Number)`, then the first number is the longitude and the second the
      latitude. With no second piece the routes' latitude is `undefined`; the
      model folds that into NaN, which is not a number either. */
  function DecodeCoords(s: string): (r: Location)
    ensures var body := JsSubstring(s, 6, |s| - 1);
      ' ' !in body ==> r == Location(latitude := NaN, longitude := ParseNumber(body))
  {
    var body := JsSubstring(s, 6, |s| - 1);
    assert ' ' !in body ==> Split(body, ' ') == [body] by {
      if ' ' !in body {
        SplitWithoutSeparator(body, ' ');
      }
    }
    var parts := Split(body, ' ');
    Location(latitude := if |parts| >= 2 then ParseNumber(parts[1]) else NaN,
             longitude := ParseNumber(parts[0]))
  }

  /** Decoding an encoded position gives back the same position. */
  lemma DecodeEncode(c: Coordinate)
    ensures DecodeCoords(EncodePoint(c)) == Location(Fixed(c.latitude), Fixed(c.longitude))
  {
    var lng, lat := FormatNumber(c.longitude), FormatNumber(c.latitude);
    var s := EncodePoint(c);
    assert s == "POINT(" + (lng + [' '] + lat) + ")";
    assert JsSubstring(s, 6, |s| - 1) == lng + [' '] + lat;
    assert ' ' !in lng;
    assert ' ' !in lat;
    SplitAtFirstSeparator(lng, lat, ' ');
    SplitWithoutSeparator(lat, ' ');
    NumberRoundTrip(c.longitude);
    NumberRoundTrip(c.latitude);
  }
}
