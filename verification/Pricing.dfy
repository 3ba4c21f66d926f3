/**
 The displayed YES price: a fair coin bent towards the side the market price is
 on, the more so the less time is left.  Over reals, before the final rounding;
 tanh and sqrt are parameters of which only their shape is used.
 */
module Pricing {
  import opened Commitment

  const BASE_VOLATILITY := 0.0015
  const REFERENCE_BPS := 10.0
  const LEAST_UNCERTAINTY := 0.000001

  /** A midpoint of the offset range, relative to the one the base volatility was tuned for. */
  function DurationVolatility(d: Duration): real
  {
    var range := OffsetRange(d);
    BASE_VOLATILITY * (((range.low + range.high) as real / 2.0) / REFERENCE_BPS)
  }

  function Uncertainty(sqrt: real -> real, remaining: real, length: real, d: Duration): (u: real)
    ensures u >= LEAST_UNCERTAINTY
  {
    var whole := if length <= 0.0 then 60.0 else length;
    var left := if remaining < 0.0 then 0.0 else remaining;
    var u := DurationVolatility(d) * sqrt(left / whole);
    if u < LEAST_UNCERTAINTY then LEAST_UNCERTAINTY else u
  }

  /** Signed distance from the target, as a fraction of it. */
  function Gap(current: real, target: real): real
  {
    (current - target) / (if target == 0.0 then 1.0 else target)
  }

  function Clamped(x: real): real
  {
    if x < 0.01 then 0.01 else if x > 0.99 then 0.99 else x
  }

  function YesPrice(tanh: real -> real, sqrt: real -> real, current: real, target: real, remaining: real, length: real,
                    d: Duration): real
  {
    Clamped(0.5 + 0.48 * tanh(Gap(current, target) / Uncertainty(sqrt, remaining, length, d)))
  }

  ghost predicate LikeTanh(tanh: real -> real)
  {
    && (forall x :: -1.0 <= tanh(x) <= 1.0)
    && (forall x :: tanh(-x) == -tanh(x))
    && (forall x, y :: x <= y ==> tanh(x) <= tanh(y))
  }

  ghost predicate LikeSqrt(sqrt: real -> real)
  {
    (forall x :: x >= 0.0 ==> sqrt(x) >= 0.0) && (forall x, y :: 0.0 <= x <= y ==> sqrt(x) <= sqrt(y))
  }

  /** The clamp to [0.01, 0.99] never binds: the curve itself stays within [0.02, 0.98]. */
  lemma ClampNeverBinds(tanh: real -> real, sqrt: real -> real, current: real, target: real, remaining: real,
                        length: real, d: Duration)
    requires LikeTanh(tanh)
    ensures YesPrice(tanh, sqrt, current, target, remaining, length, d)
            == 0.5 + 0.48 * tanh(Gap(current, target) / Uncertainty(sqrt, remaining, length, d))
    ensures 0.02 <= YesPrice(tanh, sqrt, current, target, remaining, length, d) <= 0.98
  {
    var x := Gap(current, target) / Uncertainty(sqrt, remaining, length, d);
    assert -1.0 <= tanh(x) <= 1.0;
  }

  /** The formula in full, while there is a target, a length, and enough time left for it to matter. */
  lemma PriceInFull(tanh: real -> real, sqrt: real -> real, current: real, target: real, remaining: real,
                    length: real, d: Duration)
    requires LikeTanh(tanh) && target > 0.0 && length > 0.0 && remaining >= 0.0
    requires sqrt(remaining / length) >= 0.001
    ensures var volatility := if d == FiveMinutes then 0.0015 else 0.004125;
            YesPrice(tanh, sqrt, current, target, remaining, length, d)
            == 0.5 + 0.48 * tanh((current - target) / target / (volatility * sqrt(remaining / length)))
  {
    ClampNeverBinds(tanh, sqrt, current, target, remaining, length, d);
    var volatility := if d == FiveMinutes then 0.0015 else 0.004125;
    assert DurationVolatility(d) == volatility;
  }

  /** And at the very end the uncertainty is one millionth, no less. */
  lemma LastUncertainty(sqrt: real -> real, length: real, d: Duration)
    requires sqrt(0.0) == 0.0 && length > 0.0
    ensures Uncertainty(sqrt, 0.0, length, d) == 0.000001
  {
    assert 0.0 / length == 0.0;
  }

  lemma DivideOrder(x: real, y: real, u: real)
    requires u > 0.0 && x <= y
    ensures x / u <= y / u
  {
    assert y / u - x / u == (y - x) / u;
  }

  lemma SmallerDivisor(x: real, u: real, v: real)
    requires x >= 0.0 && 0.0 < u <= v
    ensures x / v <= x / u
  {
    assert x / u - x / v == x * (v - u) / (u * v);
  }

  /** A higher market price never lowers the YES price. */
  lemma RisesWithTheMarket(tanh: real -> real, sqrt: real -> real,
                           low: real, high: real, target: real, remaining: real, length: real, d: Duration)
    requires LikeTanh(tanh) && target > 0.0 && low <= high
    ensures YesPrice(tanh, sqrt, low, target, remaining, length, d)
            <= YesPrice(tanh, sqrt, high, target, remaining, length, d)
  {
    var u := Uncertainty(sqrt, remaining, length, d);
    DivideOrder(low - target, high - target, target);
    DivideOrder(Gap(low, target), Gap(high, target), u);
    ClampNeverBinds(tanh, sqrt, low, target, remaining, length, d);
    ClampNeverBinds(tanh, sqrt, high, target, remaining, length, d);
  }

  lemma UncertaintyShrinks(sqrt: real -> real, less: real, more: real, length: real, d: Duration)
    requires LikeSqrt(sqrt) && less <= more
    ensures Uncertainty(sqrt, less, length, d) <= Uncertainty(sqrt, more, length, d)
  {
    var whole := if length <= 0.0 then 60.0 else length;
    var x := if less < 0.0 then 0.0 else less;
    var y := if more < 0.0 then 0.0 else more;
    DivideOrder(x, y, whole);
    DivideOrder(0.0, x, whole);
    assert 0.0 / whole == 0.0;
    assert sqrt(x / whole) <= sqrt(y / whole);
    ScaleUp(DurationVolatility(d), sqrt(x / whole), sqrt(y / whole));
  }

  lemma ScaleUp(c: real, x: real, y: real)
    requires c >= 0.0 && x <= y
    ensures c * x <= c * y
  {
  }

  lemma AboveSharpens(tanh: real -> real, g: real, u: real, v: real)
    requires LikeTanh(tanh) && g >= 0.0 && 0.0 < u <= v
    ensures 0.0 <= tanh(g / v) <= tanh(g / u)
  {
    SmallerDivisor(g, u, v);
    DivideOrder(0.0, g, v);
    Ordered(tanh, g / v, g / u);
  }

  lemma Ordered(tanh: real -> real, x: real, y: real)
    requires LikeTanh(tanh) && 0.0 <= x <= y
    ensures 0.0 <= tanh(x) <= tanh(y)
  {
    assert tanh(-0.0) == -tanh(0.0);
    assert tanh(0.0) <= tanh(x);
  }

  lemma BelowSharpens(tanh: real -> real, g: real, u: real, v: real)
    requires LikeTanh(tanh) && g <= 0.0 && 0.0 < u <= v
    ensures tanh(g / u) <= tanh(g / v) <= 0.0
  {
    AboveSharpens(tanh, -g, u, v);
    Mirror(tanh, g, u);
    Mirror(tanh, g, v);
  }

  lemma NegatedQuotient(g: real, u: real)
    requires u > 0.0
    ensures (-g) / u == -(g / u)
  {
    var q := g / u;
    assert -g == (-q) * u;
  }

  lemma Mirror(tanh: real -> real, g: real, u: real)
    requires LikeTanh(tanh) && u > 0.0
    ensures tanh((-g) / u) == -tanh(g / u)
  {
    NegatedQuotient(g, u);
    assert tanh(-(g / u)) == -tanh(g / u);
  }

  /** As time runs out the YES price moves away from one half, on the side the market price is on. */
  lemma SharpensWithTime(tanh: real -> real, sqrt: real -> real,
                         current: real, target: real, less: real, more: real, length: real, d: Duration)
    requires LikeTanh(tanh) && LikeSqrt(sqrt) && target > 0.0 && less <= more
    ensures var late := YesPrice(tanh, sqrt, current, target, less, length, d);
            var early := YesPrice(tanh, sqrt, current, target, more, length, d);
            && (current >= target ==> 0.5 <= early <= late)
            && (current <= target ==> late <= early <= 0.5)
  {
    var u, v := Uncertainty(sqrt, less, length, d), Uncertainty(sqrt, more, length, d);
    var g := Gap(current, target);
    UncertaintyShrinks(sqrt, less, more, length, d);
    ClampNeverBinds(tanh, sqrt, current, target, less, length, d);
    ClampNeverBinds(tanh, sqrt, current, target, more, length, d);
    if current >= target {
      DivideOrder(0.0, current - target, target);
      AboveSharpens(tanh, g, u, v);
    }
    if current <= target {
      DivideOrder(current - target, 0.0, target);
      BelowSharpens(tanh, g, u, v);
    }
  }
}
