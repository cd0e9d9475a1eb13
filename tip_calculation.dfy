/**
 * The calculation functions of the tip-and-split screen: the tip percentage
 * chosen by the service-rating slider, the tip, the (optionally rounded-up)
 * total and the per-person share.
 *
 * Kotlin `Double` values are modelled as exact `real`s, so none of the
 * properties below depend on floating-point rounding.
 */
module TipCalculation {

  /** The three tiers of the service-rating scale, in percent. */
  const DefaultTipPercent: real := 15.0
  const GoodTipPercent: real := 18.0
  const ExcellentTipPercent: real := 20.0

  /**
   * `calculateTipPercent`: slider value 3 selects 20 %, 2 selects 18 %, and
   * every other value (including the initial 0) falls back to 15 %.
   */
  function TipPercent(sliderValue: int): (r: real)
    ensures r == DefaultTipPercent || r == GoodTipPercent || r == ExcellentTipPercent
    ensures r == ExcellentTipPercent <==> sliderValue == 3
    ensures r == GoodTipPercent <==> sliderValue == 2
    ensures r == DefaultTipPercent <==> sliderValue != 2 && sliderValue != 3
  {
    if sliderValue == 3 then ExcellentTipPercent
    else if sliderValue == 2 then GoodTipPercent
    else DefaultTipPercent
  }

  /**
   * `calculateTip`: `tipPercent` percent of `amount`. The tip is zero exactly
   * when the amount or the percentage is zero, it is non-negative for
   * non-negative inputs, and a percentage of at most 100 never tips more
   * than the bill.
   */
  function Tip(amount: real, tipPercent: real := DefaultTipPercent): (r: real)
    ensures r == 0.0 <==> amount == 0.0 || tipPercent == 0.0
    ensures amount >= 0.0 && tipPercent >= 0.0 ==> r >= 0.0
    ensures amount >= 0.0 && 0.0 <= tipPercent <= 100.0 ==> r <= amount
  {
    tipPercent / 100.0 * amount
  }

  /**
   * `kotlin.math.ceil` on a finite value: the least integer not below `x`.
   */
  function Ceiling(x: real): (c: int)
    ensures x <= c as real < x + 1.0
  {
    -((-x).Floor)
  }

  /**
   * On the slider's range 1..3 a higher rating never selects a lower
   * percentage, and each of the three tiers is selected by some rating.
   */
  lemma TipTiersReachable()
    ensures forall s1, s2 :: 1 <= s1 <= s2 <= 3 ==> TipPercent(s1) <= TipPercent(s2)
    ensures exists s :: 1 <= s <= 3 && TipPercent(s) == DefaultTipPercent
    ensures exists s :: 1 <= s <= 3 && TipPercent(s) == GoodTipPercent
    ensures exists s :: 1 <= s <= 3 && TipPercent(s) == ExcellentTipPercent
  {
    assert TipPercent(1) == DefaultTipPercent;
    assert TipPercent(2) == GoodTipPercent;
    assert TipPercent(3) == ExcellentTipPercent;
  }

  /** A real is whole when it equals an integer. */
  predicate IsWhole(x: real) {
    x == x.Floor as real
  }

  /**
   * `calculateTotal`: the bill plus the tip, divided by `people`, and taken
   * up to the next whole value when `roundUp` is set. Without rounding the
   * result times `people` gives back `amount + tip`; with rounding it is a
   * whole value at most one above that quotient.
   */
  function Total(amount: real, tip: real, people: int := 1, roundUp: bool := false): (r: real)
    requires people != 0
    ensures !roundUp ==> r * people as real == amount + tip
    ensures roundUp ==> IsWhole(r)
    ensures roundUp ==> (amount + tip) / people as real <= r < (amount + tip) / people as real + 1.0
  {
    var total := (amount + tip) / people as real;
    if roundUp then Ceiling(total) as real else total
  }

  /**
   * The value of a Kotlin `Double` division `x / n` where `n` is an `Int`:
   * a finite quotient, or for a zero divisor positive infinity, negative
   * infinity or NaN, by the sign of `x`.
   */
  datatype Quotient = Finite(value: real) | PositiveInfinity | NegativeInfinity | NotANumber

  /**
   * The numeric part of `calculatePersonTotal`: the grand total divided by
   * the number of people. Nothing guards the division, so a people count of
   * zero yields a non-finite value.
   */
  function PersonTotal(grandTotal: real, people: int): (q: Quotient)
    ensures q.Finite? <==> people != 0
    ensures q.Finite? ==> q.value * people as real == grandTotal
    ensures people == 0 && grandTotal > 0.0 ==> q.PositiveInfinity?
    ensures people == 0 && grandTotal < 0.0 ==> q.NegativeInfinity?
    ensures people == 0 && grandTotal == 0.0 ==> q.NotANumber?
  {
    if people != 0 then Finite(grandTotal / people as real)
    else if grandTotal > 0.0 then PositiveInfinity
    else if grandTotal < 0.0 then NegativeInfinity
    else NotANumber
  }

  /** The ceiling of a value is the only integer in `[x, x + 1)`. */
  lemma CeilingUnique(x: real, c: int)
    requires x <= c as real < x + 1.0
    ensures Ceiling(x) == c
  {
  }

  /** The ceiling is the least integer not below `x`. */
  lemma CeilingLeast(x: real, n: int)
    requires x <= n as real
    ensures Ceiling(x) <= n
  {
  }

  /** The ceiling leaves a whole value unchanged and changes every other one. */
  lemma CeilingFixesWhole(x: real)
    ensures Ceiling(x) as real == x <==> IsWhole(x)
  {
    if IsWhole(x) {
      CeilingUnique(x, x.Floor);
    }
  }

  /** Round-up never lowers the total, and raises it by less than one. */
  lemma RoundUpNeverLowers(amount: real, tip: real, people: int)
    requires people != 0
    ensures Total(amount, tip, people, false) <= Total(amount, tip, people, true)
    ensures Total(amount, tip, people, true) < Total(amount, tip, people, false) + 1.0
  {
  }

  /**
   * Round-up is idempotent: the rounded total is already whole, so taking
   * its ceiling again changes nothing; and it changes the unrounded total
   * exactly when that total has a fractional part.
   */
  lemma RoundUpIdempotent(amount: real, tip: real, people: int)
    requires people != 0
    ensures Ceiling(Total(amount, tip, people, true)) as real == Total(amount, tip, people, true)
    ensures Total(amount, tip, people, true) == Total(amount, tip, people, false)
            <==> IsWhole(Total(amount, tip, people, false))
  {
    CeilingFixesWhole(Total(amount, tip, people, true));
    var exact := Total(amount, tip, people, false);
    assert exact == (amount + tip) / people as real by {
      assert exact * people as real == amount + tip;
    }
    CeilingFixesWhole(exact);
  }

  /** With the default of one person, the unrounded total is the bill plus the tip. */
  lemma SinglePersonTotal(amount: real, tip: real)
    ensures Total(amount, tip) == amount + tip
    ensures PersonTotal(amount + tip, 1) == Finite(amount + tip)
  {
  }

  /** Multiplying by a non-negative factor keeps an order; by a positive one, a strict order. */
  lemma ScaleMonotone(x: real, y: real, k: real)
    requires x <= y && k >= 0.0
    ensures x * k <= y * k
    ensures x < y && k > 0.0 ==> x * k < y * k
  {
  }

  /** A value in `[e / n, e / n + 1)` times a positive `n` lies in `[e, e + n)`. */
  lemma QuotientBounds(e: real, n: real, r: real)
    requires n > 0.0 && e / n <= r < e / n + 1.0
    ensures e <= r * n < e + n
  {
    var q := e / n;
    ScaleMonotone(q, r, n);
    ScaleMonotone(r, q + 1.0, n);
    calc {
      r * n;
    <
      (q + 1.0) * n;
    ==
      q * n + n;
    ==
      e + n;
    }
  }

  /** For a non-negative percentage, a larger amount never gives a smaller tip. */
  lemma TipMonotone(a1: real, a2: real, tipPercent: real)
    requires a1 <= a2 && tipPercent >= 0.0
    ensures Tip(a1, tipPercent) <= Tip(a2, tipPercent)
  {
    ScaleMonotone(a1, a2, tipPercent / 100.0);
  }

  /**
   * Round-up is applied to the per-person quotient, so when every one of
   * `people` pays the rounded total the bill and tip are covered, with less
   * than one unit per person left over.
   */
  lemma RoundedSharesCoverBill(amount: real, tip: real, people: int)
    requires people > 0
    ensures Total(amount, tip, people, true) * people as real >= amount + tip
    ensures Total(amount, tip, people, true) * people as real < amount + tip + people as real
  {
    QuotientBounds(amount + tip, people as real, Total(amount, tip, people, true));
  }

  /** Dividing by a positive divisor keeps an order. */
  lemma DivideMonotone(x: real, y: real, n: real)
    requires x <= y && n > 0.0
    ensures x / n <= y / n
  {
    ScaleMonotone(x, y, 1.0 / n);
    assert x / n == x * (1.0 / n) && y / n == y * (1.0 / n);
  }

  /**
   * For a positive number of people and a non-negative percentage, a
   * larger bill never gives a smaller total, rounded or not.
   */
  lemma TotalMonotoneInAmount(a1: real, a2: real, tipPercent: real, people: int, roundUp: bool)
    requires a1 <= a2 && tipPercent >= 0.0 && people > 0
    ensures Total(a1, Tip(a1, tipPercent), people, roundUp)
            <= Total(a2, Tip(a2, tipPercent), people, roundUp)
  {
    TipMonotone(a1, a2, tipPercent);
    var e1, e2 := a1 + Tip(a1, tipPercent), a2 + Tip(a2, tipPercent);
    var n := people as real;
    DivideMonotone(e1, e2, n);
    if roundUp {
      CeilingLeast(e1 / n, Ceiling(e2 / n));
    }
  }
}
