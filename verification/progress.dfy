/** The progress-bar helper (app.js:57-61): the fraction is clamped to [0, 1] and
    written as a whole-number width percentage. Exact reals stand in for the
    source's floating-point numbers. */
module Progress {

  /** `Math.max(0, Math.min(1, value))`. */
  function Clamp(v: real): (c: real)
    ensures 0.0 <= c <= 1.0
    ensures 0.0 <= v <= 1.0 ==> c == v
    ensures v < 0.0 ==> c == 0.0
    ensures v > 1.0 ==> c == 1.0
  {
    if v < 0.0 then 0.0 else if v > 1.0 then 1.0 else v
  }

  /** `Math.round(x)`: the nearest integer, halves rounded upwards. */
  function RoundHalfUp(x: real): (n: int)
    ensures n as real - 0.5 <= x < n as real + 0.5
  {
    (x + 0.5).Floor
  }

  /** The bar width, in percent, that `setProgress` writes for the value `v`. */
  function Percent(v: real): (p: int)
    ensures 0 <= p <= 100
    ensures p as real - 0.5 <= 100.0 * Clamp(v) < p as real + 0.5
  {
    RoundHalfUp(100.0 * Clamp(v))
  }

  /** The integer nearest to `x` (halves upwards) is the only one within that bound. */
  lemma RoundHalfUpUnique(x: real, n: int)
    requires n as real - 0.5 <= x < n as real + 0.5
    ensures RoundHalfUp(x) == n
  {
  }

  /** Out-of-range values saturate: at most 0 gives an empty bar, at least 1 a full one,
      and a value inside [0, 1] gives its own rounded percentage. */
  lemma PercentSaturates(v: real)
    ensures v <= 0.0 ==> Percent(v) == 0
    ensures v >= 1.0 ==> Percent(v) == 100
    ensures 0.0 <= v <= 1.0 ==> Percent(v) == RoundHalfUp(100.0 * v)
  {
    if v <= 0.0 {
      RoundHalfUpUnique(100.0 * Clamp(v), 0);
    } else if v >= 1.0 {
      RoundHalfUpUnique(100.0 * Clamp(v), 100);
    }
  }

  /** A fuller bar never shows a smaller width. */
  lemma PercentMonotonic(v: real, w: real)
    requires v <= w
    ensures Percent(v) <= Percent(w)
  {
  }

}
