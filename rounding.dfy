/** The numeric conversions of fix-activity-type.js, over exact reals.
    JavaScript's Math.round rounds to the nearest integer and sends halves
    towards +infinity, which is Floor(x + 0.5). */
module Rounding {

  /** Math.round: the integer nearest to x, halves rounded up. */
  function MathRound(x: real): (n: int)
    ensures n as real - 0.5 <= x < n as real + 0.5
  {
    (x + 0.5).Floor
  }

  /** x is a whole number of hundredths. */
  predicate IsHundredth(x: real) {
    (x * 100.0).Floor as real == x * 100.0
  }

  /** Math.round(x * 100) / 100: x rounded to two decimals. */
  function RoundToHundredths(x: real): (r: real)
    ensures IsHundredth(r)
    ensures r - 0.005 <= x < r + 0.005
  {
    MathRound(x * 100.0) as real / 100.0
  }

  /** getAverageSpeedKmph: metres per second to kilometres per hour,
      rounded to two decimals. */
  function AverageSpeedKmph(metresPerSecond: real): (kmh: real)
    ensures IsHundredth(kmh)
    ensures kmh - 0.005 <= metresPerSecond * 3.6 < kmh + 0.005
  {
    RoundToHundredths(metresPerSecond * 3.6)
  }

  /** The number in getDistanceKmStr: metres rounded to the nearest ten
      metres and then scaled to kilometres. */
  function DistanceKm(metres: real): (km: real)
    ensures IsHundredth(km)
    ensures km - 0.005 <= metres / 1000.0 < km + 0.005
  {
    MathRound(metres / 10.0) as real / 100.0
  }

  /** Math.round returns the one integer within half a unit below and
      strictly less than half a unit above its argument. */
  lemma MathRoundUnique(x: real, n: int)
    requires n as real - 0.5 <= x < n as real + 0.5
    ensures MathRound(x) == n
  {
  }

  /** Rounding to hundredths returns the one hundredth h with
      h - 0.005 <= x < h + 0.005. */
  lemma RoundToHundredthsUnique(x: real, h: real)
    requires IsHundredth(h)
    requires h - 0.005 <= x < h + 0.005
    ensures RoundToHundredths(x) == h
  {
    var n := (h * 100.0).Floor;
    MathRoundUnique(x * 100.0, n);
  }

  /** Rounding ten-metre steps and then scaling is the same as rounding the
      kilometre value to two decimals: over exact reals the two formulas of
      getDistanceKmStr agree on every input. */
  lemma DistanceKmIsRoundedKm(metres: real)
    ensures DistanceKm(metres) == RoundToHundredths(metres / 1000.0)
  {
  }

  /** Two distinct hundredths are at least 0.01 apart. */
  lemma HundredthsApart(a: real, b: real)
    requires IsHundredth(a) && IsHundredth(b) && a < b
    ensures a + 0.01 <= b
  {
    var m, n := (a * 100.0).Floor, (b * 100.0).Floor;
    assert m < n;
  }

  /** A rounded value lies above a threshold given in hundredths exactly
      when the exact value reaches half a hundredth above it. */
  lemma {:induction false} RoundedAboveIff(x: real, t: real)
    requires IsHundredth(t)
    ensures RoundToHundredths(x) > t <==> x >= t + 0.005
  {
    var r := RoundToHundredths(x);
    if r > t {
      HundredthsApart(t, r);
    }
  }

  /** A rounded value lies below a threshold given in hundredths exactly
      when the exact value lies more than half a hundredth below it. */
  lemma {:induction false} RoundedBelowIff(x: real, t: real)
    requires IsHundredth(t)
    ensures RoundToHundredths(x) < t <==> x < t - 0.005
  {
    var r := RoundToHundredths(x);
    if r < t {
      HundredthsApart(r, t);
    }
  }
}
