/** JavaScript's `Math.round`. Numbers are exact reals here, not the
    rounded binary doubles JavaScript computes with. */
module JsMath {

  /** `Math.round(x)`: the nearest integer, halves rounded up (towards +infinity). */
  function Round(x: real): (r: int)
    ensures x - 0.5 < r as real <= x + 0.5
  {
    (x + 0.5).Floor
  }

  /** Rounding never reverses the order of two numbers. */
  lemma RoundMonotone(x: real, y: real)
    requires x <= y
    ensures Round(x) <= Round(y)
  {
  }

  /** Rounding an integer gives it back. */
  lemma RoundOfInteger(n: int)
    ensures Round(n as real) == n
  {
  }

  /** A whole number of hundredths. */
  predicate IsHundredths(x: real) {
    (x * 100.0).Floor as real == x * 100.0
  }

  /** A whole number of tenths. */
  predicate IsTenths(x: real) {
    (x * 10.0).Floor as real == x * 10.0
  }

  /** `Math.round(x * 100) / 100`: x rounded to two decimals, the whole
      number of hundredths nearest to x. */
  function RoundHundredths(x: real): (r: real)
    ensures x - 0.005 < r <= x + 0.005
    ensures IsHundredths(r)
  {
    Round(x * 100.0) as real / 100.0
  }
}
