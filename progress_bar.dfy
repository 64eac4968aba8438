/**
 * The progress bar (components/ui/progress-bar.tsx): the filled width is
 * the value clamped to the percentage range 0..100.
 */
module ProgressBar {

  /** `Math.max` of two numbers. */
  function Max(a: real, b: real): (m: real)
    ensures m >= a && m >= b
    ensures m == a || m == b
  {
    if a >= b then a else b
  }

  /** `Math.min` of two numbers. */
  function Min(a: real, b: real): (m: real)
    ensures m <= a && m <= b
    ensures m == a || m == b
  {
    if a <= b then a else b
  }

  /** `Math.min(Math.max(value, 0), 100)`: the width of the filled part, in percent. */
  function Width(value: real): (w: real)
    ensures 0.0 <= w <= 100.0
    ensures 0.0 <= value <= 100.0 ==> w == value
    ensures value < 0.0 ==> w == 0.0
    ensures value > 100.0 ==> w == 100.0
  {
    Min(Max(value, 0.0), 100.0)
  }

  /** Clamping a width again leaves it as it is. */
  lemma WidthIdempotent(value: real)
    ensures Width(Width(value)) == Width(value)
  {
  }

  /** A larger value never gives a narrower bar. */
  lemma WidthMonotone(a: real, b: real)
    requires a <= b
    ensures Width(a) <= Width(b)
  {
  }

  /** The width is the point of 0..100 nearest to the value. */
  lemma WidthIsNearest(value: real, x: real)
    requires 0.0 <= x <= 100.0
    ensures (if Width(value) >= value then Width(value) - value else value - Width(value))
         <= (if x >= value then x - value else value - x)
  {
  }
}
