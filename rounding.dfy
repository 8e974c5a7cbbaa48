/** `Math.round` on exact rationals, and the percentage `Math.round(part / whole * 100)`
    that every score display of the application computes. */
module Rounding {

  /** `Math.round(x)`: the nearest integer, halves rounded up. */
  function RoundHalfUp(x: real): (r: int)
    ensures r as real - 0.5 <= x < r as real + 0.5
  {
    (x + 0.5).Floor
  }

  /** `Math.round((part / whole) * 100)` for a positive `whole`. */
  function RoundedPercent(part: real, whole: real): (r: int)
    requires whole > 0.0
    ensures r as real - 0.5 <= part / whole * 100.0 < r as real + 0.5
  {
    RoundHalfUp(part / whole * 100.0)
  }

  /** A part between nothing and the whole rounds to a percentage between 0 and 100. */
  lemma PercentInRange(part: real, whole: real)
    requires whole > 0.0 && 0.0 <= part <= whole
    ensures 0 <= RoundedPercent(part, whole) <= 100
  {
    var q := part / whole;
    assert q * whole == part;
    assert 0.0 <= q <= 1.0;
  }

  /** A larger part never yields a smaller percentage. */
  lemma PercentMonotone(part: real, part': real, whole: real)
    requires whole > 0.0 && part <= part'
    ensures RoundedPercent(part, whole) <= RoundedPercent(part', whole)
  {
    var q, q' := part / whole, part' / whole;
    assert q * whole == part && q' * whole == part';
    assert q <= q';
  }
}
