/**
 * The progress percentage that the budget and goal cards compute as
 * `(part / whole) * 100`, and the bar width `Math.min(progress, 100)` they draw it
 * with. The whole (a budget amount or a goal target) is positive.
 */
module Progress {
  import opened Records

  /** `(part / whole) * 100`. */
  function Percent(part: nat, whole: PositiveCents): real {
    part as real / whole as real * 100.0
  }

  /** `Math.min(progress, 100)`. */
  function BarWidth(progress: real): real {
    if progress < 100.0 then progress else 100.0
  }

  /** The percentage exceeds (reaches) `p` exactly when `100 * part` exceeds (reaches) `p * whole`. */
  lemma PercentAbove(part: nat, whole: PositiveCents, p: nat)
    ensures Percent(part, whole) > p as real <==> 100 * part > p * whole
    ensures Percent(part, whole) >= p as real <==> 100 * part >= p * whole
  {
    var x := part as real / whole as real * 100.0;
    assert x * whole as real == 100.0 * part as real;
    if x > p as real {
      assert x * whole as real > p as real * whole as real;
    } else {
      assert x * whole as real <= p as real * whole as real;
    }
    if x >= p as real {
      assert x * whole as real >= p as real * whole as real;
    } else {
      assert x * whole as real < p as real * whole as real;
    }
  }

  /**
   * The bar never overflows: its width is the percentage capped at 100, equal to it
   * up to the whole, and full exactly when the part reaches the whole.
   */
  lemma BarWidthSpec(part: nat, whole: PositiveCents)
    ensures 0.0 <= BarWidth(Percent(part, whole)) <= 100.0
    ensures part <= whole ==> BarWidth(Percent(part, whole)) == Percent(part, whole)
    ensures BarWidth(Percent(part, whole)) == 100.0 <==> part >= whole
  {
    PercentAbove(part, whole, 100);
    PercentAbove(part, whole, 0);
  }
}
