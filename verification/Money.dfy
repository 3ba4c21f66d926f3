/**
 Fixed-point money.  Prices are integers in 1e-4 (the scale of the price
 columns), sizes integers in 1e-18, and every amount of BI2XUSD an integer
 number of "grains" of 1e-27, the scale at which a fee on price * size is
 still exact.  One raw unit of the wallet backend is 1e-6, so 1e21 grains.
 */
module Money {
  import opened Types
  import opened Sums

  const ONE := 10_000
  const GRAINS_PER_SHARE := 1_000_000_000
  const GRAINS_PER_COST := 100_000
  const GRAINS_PER_RAW := 1_000_000_000_000_000_000_000
  const MAKER_FEE := 15
  const TAKER_FEE := 45

  /** Shift by six decimals and drop the rest: truncation toward zero. */
  function ToRawUnits(grains: int): int
  {
    if grains >= 0 then grains / GRAINS_PER_RAW else -((-grains) / GRAINS_PER_RAW)
  }

  /** What one share costs the holder of an order, in price units. */
  function Rate(side: Side, price: int): int
  {
    if side == No then ONE - price else price
  }

  /** The hold taken for `size` shares of an order, and the refund of a remainder. */
  function HoldGrains(side: Side, price: int, size: int): int
  {
    Rate(side, price) * size * GRAINS_PER_COST
  }

  function HoldRaw(side: Side, price: int, size: int): int
  {
    ToRawUnits(HoldGrains(side, price, size))
  }

  function ShareGrains(size: int): int
  {
    size * GRAINS_PER_SHARE
  }

  /** The four amounts one match moves. */
  datatype Split = Split(makerCost: int, takerCost: int, makerFee: int, takerFee: int)

  function SplitOf(makerSide: Side, execPrice: int, size: int): Split
  {
    var yes := execPrice * size;
    var no := (ONE - execPrice) * size;
    var maker := if makerSide == No then no else yes;
    var taker := if makerSide == No then yes else no;
    Split(maker * GRAINS_PER_COST, taker * GRAINS_PER_COST, maker * MAKER_FEE, taker * TAKER_FEE)
  }

  /** Raw debits minus raw fees: what the pool gains from one match. */
  function RawPooled(s: Split): int
  {
    ToRawUnits(s.makerCost + s.makerFee) + ToRawUnits(s.takerCost + s.takerFee)
    - ToRawUnits(s.makerFee) - ToRawUnits(s.takerFee)
  }

  // ---------------------------------------------------------------- truncation

  lemma RawOfSum(a: int, b: int)
    requires a >= 0 && b >= 0
    ensures ToRawUnits(a) + ToRawUnits(b) <= ToRawUnits(a + b) <= ToRawUnits(a) + ToRawUnits(b) + 1
  {
  }

  lemma RawMonotone(a: int, b: int)
    requires a <= b
    ensures ToRawUnits(a) <= ToRawUnits(b)
  {
  }

  function RawEach(xs: seq<int>): (ys: seq<int>)
    ensures |ys| == |xs|
  {
    seq(|xs|, i requires 0 <= i < |xs| => ToRawUnits(xs[i]))
  }

  /** Truncating parts one by one loses less than one unit a part. */
  lemma {:induction false} RawEachBounds(xs: seq<int>)
    requires forall i :: 0 <= i < |xs| ==> xs[i] >= 0
    ensures Sum(xs) >= 0
    ensures Sum(RawEach(xs)) <= ToRawUnits(Sum(xs))
    ensures |xs| > 0 ==> ToRawUnits(Sum(xs)) <= Sum(RawEach(xs)) + |xs| - 1
    ensures |xs| == 0 ==> Sum(RawEach(xs)) == ToRawUnits(Sum(xs)) == 0
  {
    if |xs| > 0 {
      var front := xs[..|xs| - 1];
      RawEachBounds(front);
      assert RawEach(xs)[..|xs| - 1] == RawEach(front);
      RawOfSum(Sum(front), xs[|xs| - 1]);
    }
  }

  // ---------------------------------------------------------------- one match

  lemma SplitNonNegative(makerSide: Side, execPrice: int, size: int)
    requires 0 < execPrice < ONE && size > 0
    ensures var s := SplitOf(makerSide, execPrice, size);
            s.makerCost > 0 && s.takerCost > 0 && s.makerFee > 0 && s.takerFee > 0
  {
    assert execPrice * size > 0;
    assert (ONE - execPrice) * size > 0;
  }

  /** The two costs of a match add up to exactly one unit of BI2XUSD a share. */
  lemma SplitConserves(makerSide: Side, execPrice: int, size: int)
    ensures var s := SplitOf(makerSide, execPrice, size);
            s.makerCost + s.takerCost == ShareGrains(size)
  {
    assert execPrice * size + (ONE - execPrice) * size == ONE * size;
  }

  /**
   Who pays what for a match, in full: the YES side its price and the NO side the rest
   of the share, and on top of that the maker 0.015% and the taker 0.045% of its cost.
   */
  lemma CostsAndFees(makerSide: Side, execPrice: int, size: int)
    ensures var s := SplitOf(makerSide, execPrice, size);
            && s.makerCost == (if makerSide == Yes then execPrice else 10_000 - execPrice) * size * 100_000
            && s.takerCost == (if makerSide == Yes then 10_000 - execPrice else execPrice) * size * 100_000
            && 100_000 * s.makerFee == 15 * s.makerCost
            && 100_000 * s.takerFee == 45 * s.takerCost
  {
  }

  /** A hold in full: the same price a share, truncated to 1e-6. */
  lemma HoldInFull(side: Side, price: int, size: int)
    requires 0 < price < 10_000 && size >= 0
    ensures HoldRaw(side, price, size)
            == (if side == Yes then price else 10_000 - price) * size * 100_000 / 1_000_000_000_000_000_000_000
  {
    assert (if side == Yes then price else 10_000 - price) * size >= 0;
  }

  /** The maker pays exactly the share of its hold that the fill consumes. */
  lemma MakerPaysItsHold(makerSide: Side, execPrice: int, size: int)
    ensures SplitOf(makerSide, execPrice, size).makerCost == HoldGrains(makerSide, execPrice, size)
  {
  }

  lemma ScaleOrder(a: int, b: int, k: int)
    requires k > 0
    ensures a * k <= b * k <==> a <= b
  {
    AtLeastOnce(a - b, k);
    AtLeastOnce(b - a, k);
    assert (a - b) * k == a * k - b * k;
    assert (b - a) * k == b * k - a * k;
  }

  /**
   A taker holds Rate(its own side, its own price) a share but pays the
   complement of the maker's rate.  The hold covers the cost exactly when the
   YES order of the pair is priced no lower than the NO order.
   */
  lemma TakerHoldCoversCostIff(takerSide: Side, takerPrice: int, makerPrice: int, size: int)
    requires size > 0
    ensures var yesPrice := if takerSide == Yes then takerPrice else makerPrice;
            var noPrice := if takerSide == Yes then makerPrice else takerPrice;
            SplitOf(Opposite(takerSide), makerPrice, size).takerCost <= HoldGrains(takerSide, takerPrice, size)
            <==> noPrice <= yesPrice
  {
    var cost := if takerSide == Yes then makerPrice else ONE - makerPrice;
    var hold := Rate(takerSide, takerPrice);
    ScaleOrder(cost, hold, size);
    assert SplitOf(Opposite(takerSide), makerPrice, size).takerCost == (cost * size) * GRAINS_PER_COST;
    assert HoldGrains(takerSide, takerPrice, size) == (hold * size) * GRAINS_PER_COST;
  }

  /** A compatible pair whose taker pays more than it holds. */
  lemma TakerHoldCanFallShort()
    ensures 3_000 + 8_000 >= ONE
    ensures HoldRaw(Yes, 3_000, 1_000_000_000_000_000_000) == 300_000
    ensures ToRawUnits(SplitOf(No, 8_000, 1_000_000_000_000_000_000).takerCost) == 800_000
  {
  }

  /** After truncation a match pools its size to within -1 and +2 raw units. */
  lemma RawPooledBounds(makerSide: Side, execPrice: int, size: int)
    requires 0 < execPrice < ONE && size > 0
    ensures var raw := ToRawUnits(ShareGrains(size));
            raw - 1 <= RawPooled(SplitOf(makerSide, execPrice, size)) <= raw + 2
  {
    SplitNonNegative(makerSide, execPrice, size);
    SplitConserves(makerSide, execPrice, size);
    var s := SplitOf(makerSide, execPrice, size);
    RawOfSum(s.makerCost, s.makerFee);
    RawOfSum(s.takerCost, s.takerFee);
    RawOfSum(s.makerCost, s.takerCost);
  }

  /** Both ends of RawPooledBounds are reached. */
  lemma RawPooledBoundsAreTight()
    ensures RawPooled(SplitOf(Yes, 100, 1_000_000_000_000)) == ToRawUnits(ShareGrains(1_000_000_000_000)) - 1
    ensures RawPooled(SplitOf(Yes, 3_000, 3_082_900_000_000_000))
            == ToRawUnits(ShareGrains(3_082_900_000_000_000)) + 2
  {
  }

  /** Sizes in whole cents lose nothing: every cost is a whole raw unit. */
  lemma CentSizesPoolExactly(makerSide: Side, execPrice: int, cents: int)
    requires 0 < execPrice < ONE && cents > 0
    ensures var size := cents * 10_000_000_000_000_000;
            RawPooled(SplitOf(makerSide, execPrice, size)) == ToRawUnits(ShareGrains(size))
  {
    var size := cents * 10_000_000_000_000_000;
    var s := SplitOf(makerSide, execPrice, size);
    SplitNonNegative(makerSide, execPrice, size);
    SplitConserves(makerSide, execPrice, size);
    var a := execPrice * cents;
    var b := (ONE - execPrice) * cents;
    assert execPrice * size == a * 10_000_000_000_000_000;
    assert (ONE - execPrice) * size == b * 10_000_000_000_000_000;
    WholeUnitsTruncateApart(if makerSide == No then b else a, s.makerFee);
    WholeUnitsTruncateApart(if makerSide == No then a else b, s.takerFee);
    WholeUnitsTruncateApart(a + b, 0);
  }

  lemma WholeUnitsTruncateApart(units: int, grains: int)
    requires units >= 0 && grains >= 0
    ensures ToRawUnits(units * GRAINS_PER_RAW + grains) == units + ToRawUnits(grains)
  {
  }

  // ---------------------------------------------------------------- holds and refunds

  /** Splitting an order into a consumed and a refunded part loses at most one raw unit. */
  lemma RefundConserves(side: Side, price: int, size: int, filled: int)
    requires 0 < price < ONE && 0 <= filled <= size
    ensures var lost := HoldRaw(side, price, size) - HoldRaw(side, price, size - filled) - HoldRaw(side, price, filled);
            0 <= lost <= 1
    ensures 0 <= HoldRaw(side, price, size - filled) <= HoldRaw(side, price, size)
  {
    var r := Rate(side, price);
    assert r * size == r * filled + r * (size - filled);
    assert r * filled >= 0 && r * (size - filled) >= 0;
    RawOfSum(HoldGrains(side, price, filled), HoldGrains(side, price, size - filled));
  }

  // ---------------------------------------------------------------- running average

  /** Rounding of a quotient half away from zero, the rule of a NUMERIC column. */
  function RoundDiv(n: int, d: int): int
    requires d > 0
  {
    if n >= 0 then (2 * n + d) / (2 * d) else -((d - 2 * n) / (2 * d))
  }

  /** The average after adding `add` shares at `price` to `shares` at `avg`, whatever sign the holding has. */
  function Blend(shares: int, avg: int, add: int, price: int): int
    requires shares + add != 0
  {
    var n := shares * avg + add * price;
    var d := shares + add;
    if d > 0 then RoundDiv(n, d) else RoundDiv(-n, -d)
  }

  lemma RoundUpNear(n: int, d: int)
    requires d > 0 && n >= 0
    ensures -d < 2 * ((2 * n + d) / (2 * d) * d - n) <= d
  {
    var q := (2 * n + d) / (2 * d);
    var r := (2 * n + d) % (2 * d);
    assert 2 * n + d == q * (2 * d) + r;
    assert q * (2 * d) == 2 * (q * d);
  }

  lemma RoundDivNear(n: int, d: int)
    requires d > 0
    ensures -d <= 2 * (RoundDiv(n, d) * d - n) <= d
    ensures n >= 0 ==> 2 * (RoundDiv(n, d) * d - n) != -d
    ensures n <= 0 ==> 2 * (RoundDiv(n, d) * d - n) != d
  {
    RoundUpNear(if n >= 0 then n else -n, d);
    assert n < 0 ==> (-RoundDiv(n, d)) * d == -(RoundDiv(n, d) * d);
  }

  lemma RoundDivWithin(n: int, d: int, lo: int, hi: int)
    requires d > 0 && lo * d <= n <= hi * d
    ensures lo <= RoundDiv(n, d) <= hi
  {
    var q := RoundDiv(n, d);
    RoundDivNear(n, d);
    AtLeastOnce(lo - q, d);
    AtLeastOnce(q - hi, d);
    assert (lo - q) * d == lo * d - q * d;
    assert (q - hi) * d == q * d - hi * d;
  }

  lemma AtLeastOnce(k: int, d: int)
    requires d > 0
    ensures k >= 1 ==> k * d >= d
  {
    if k >= 1 {
      assert (k - 1) * d >= 0;
    }
  }

  lemma Scaled(k: int, a: int, b: int)
    requires k >= 0 && a <= b
    ensures k * a <= k * b
  {
    assert k * (b - a) >= 0;
  }

  lemma WithinBounds(m: int, x: int, n: int, y: int, lo: int, hi: int)
    requires m >= 0 && n > 0 && m * lo <= x <= m * hi && n * lo <= y <= n * hi
    ensures lo <= RoundDiv(x + y, m + n) <= hi
  {
    assert lo * (m + n) == m * lo + n * lo;
    assert hi * (m + n) == m * hi + n * hi;
    RoundDivWithin(x + y, m + n, lo, hi);
  }

  lemma BlendWithin(shares: int, avg: int, add: int, price: int, lo: int, hi: int)
    requires shares >= 0 && add > 0 && lo <= avg <= hi && lo <= price <= hi
    ensures lo <= Blend(shares, avg, add, price) <= hi
  {
    Scaled(shares, lo, avg);
    Scaled(shares, avg, hi);
    Scaled(add, lo, price);
    Scaled(add, price, hi);
    WithinBounds(shares, shares * avg, add, add * price, lo, hi);
  }

  lemma DriftStep(n: nat, shares: int, avg: int, notional: int, add: int, price: int)
    requires shares >= 0 && add > 0
    requires -(n * shares) <= 2 * (avg * shares - notional) <= n * shares
    ensures var blended := Blend(shares, avg, add, price) * (shares + add) - (notional + add * price);
            -((n + 1) * (shares + add)) <= 2 * blended <= (n + 1) * (shares + add)
  {
    RoundDivNear(shares * avg + add * price, shares + add);
    assert n * add >= 0;
    assert (n + 1) * (shares + add) == n * shares + n * add + (shares + add);
  }

  /** The quotient n / d lies between lo and hi, multiplied out. */
  predicate QuotientWithin(n: int, d: int, lo: int, hi: int)
    requires d != 0
  {
    if d > 0 then lo * d <= n <= hi * d else hi * d <= n <= lo * d
  }

  lemma SignOf(a: int, b: int)
    ensures a > 0 && b > 0 ==> a * b > 0
    ensures a >= 0 && b >= 0 ==> a * b >= 0
    ensures a < 0 && b > 0 ==> a * b < 0
    ensures a < 0 && b < 0 ==> a * b > 0
    ensures a > 0 && b < 0 ==> a * b < 0
    ensures a >= 0 && b <= 0 ==> a * b <= 0
  {
  }

  /**
   Before rounding, the new average lies between the old one and the price if and
   only if the holding is not negative (or the two agree anyway).
   */
  lemma BlendLiesBetweenIff(shares: int, avg: int, add: int, price: int)
    requires add > 0 && shares + add != 0
    ensures var lo := if avg <= price then avg else price;
            var hi := if avg <= price then price else avg;
            QuotientWithin(shares * avg + add * price, shares + add, lo, hi) <==> shares >= 0 || avg == price
  {
    var n, d := shares * avg + add * price, shares + add;
    assert n - price * d == shares * (avg - price);
    assert n - avg * d == add * (price - avg);
    SignOf(shares, avg - price);
    SignOf(add, price - avg);
  }
}
