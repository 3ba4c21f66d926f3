/** The public order book: open remainders of one side, grouped by price. */
module Depth {
  import opened Types
  import opened Sums
  import opened Money
  import opened Book

  datatype Level = Level(price: int, size: int)

  /** Add an amount to its price level, keeping the best price first. */
  function AddTo(levels: seq<Level>, price: int, amount: int): seq<Level>
  {
    if |levels| == 0 || levels[0].price < price then [Level(price, amount)] + levels
    else if levels[0].price == price then [Level(price, levels[0].size + amount)] + levels[1..]
    else [levels[0]] + AddTo(levels[1..], price, amount)
  }

  function LevelsUpTo(orders: seq<Order>, side: Side, n: nat): seq<Level>
    requires n <= |orders|
  {
    if n == 0 then []
    else
      var levels := LevelsUpTo(orders, side, n - 1);
      var o := orders[n - 1];
      if OnBook(o, side) then AddTo(levels, o.price, Remainder(o)) else levels
  }

  function NonEmpty(levels: seq<Level>): seq<Level>
  {
    if |levels| == 0 then []
    else if levels[0].size > 0 then [levels[0]] + NonEmpty(levels[1..])
    else NonEmpty(levels[1..])
  }

  function AggregatedBook(orders: seq<Order>, side: Side): seq<Level>
  {
    NonEmpty(LevelsUpTo(orders, side, |orders|))
  }

  /** Total size quoted at or above a price. */
  function DepthFrom(levels: seq<Level>, minPrice: int): int
  {
    if |levels| == 0 then 0
    else (if levels[0].price >= minPrice then levels[0].size else 0) + DepthFrom(levels[1..], minPrice)
  }

  predicate StrictlyDescending(levels: seq<Level>)
  {
    forall j, k :: 0 <= j < k < |levels| ==> levels[j].price > levels[k].price
  }

  predicate AllPositive(levels: seq<Level>)
  {
    forall k :: 0 <= k < |levels| ==> levels[k].size > 0
  }

  predicate Below(levels: seq<Level>, price: int)
  {
    forall k :: 0 <= k < |levels| ==> levels[k].price < price
  }

  lemma {:induction false} AddToSorted(levels: seq<Level>, price: int, amount: int, bound: int)
    requires StrictlyDescending(levels) && Below(levels, bound) && price < bound && amount > 0 && AllPositive(levels)
    ensures StrictlyDescending(AddTo(levels, price, amount))
    ensures Below(AddTo(levels, price, amount), bound)
    ensures AllPositive(AddTo(levels, price, amount))
  {
    if |levels| > 0 && levels[0].price > price {
      AddToSorted(levels[1..], price, amount, levels[0].price);
    }
  }

  lemma {:induction false} AddToDepth(levels: seq<Level>, price: int, amount: int, minPrice: int)
    ensures DepthFrom(AddTo(levels, price, amount), minPrice)
            == DepthFrom(levels, minPrice) + if price >= minPrice then amount else 0
  {
    if |levels| == 0 || levels[0].price < price {
      assert ([Level(price, amount)] + levels)[1..] == levels;
    } else if levels[0].price == price {
      assert AddTo(levels, price, amount)[1..] == levels[1..];
    } else {
      AddToDepth(levels[1..], price, amount, minPrice);
      assert AddTo(levels, price, amount)[1..] == AddTo(levels[1..], price, amount);
    }
  }

  lemma {:induction false} LevelsSorted(orders: seq<Order>, side: Side, n: nat)
    requires TableOk(orders) && n <= |orders|
    ensures var levels := LevelsUpTo(orders, side, n);
            StrictlyDescending(levels) && AllPositive(levels) && Below(levels, ONE)
  {
    if n > 0 {
      LevelsSorted(orders, side, n - 1);
      var o := orders[n - 1];
      if OnBook(o, side) {
        AddToSorted(LevelsUpTo(orders, side, n - 1), o.price, Remainder(o), ONE);
      }
    }
  }

  lemma {:induction false} LevelsDepth(orders: seq<Order>, side: Side, minPrice: int, n: nat)
    requires TableOk(orders) && n <= |orders|
    ensures DepthFrom(LevelsUpTo(orders, side, n), minPrice) == Sum(OfferedEach(orders, side, minPrice)[..n])
  {
    if n > 0 {
      LevelsDepth(orders, side, minPrice, n - 1);
      var xs := OfferedEach(orders, side, minPrice);
      assert xs[..n] == xs[..n - 1] + [xs[n - 1]];
      SumPush(xs[..n - 1], xs[n - 1]);
      var o := orders[n - 1];
      if OnBook(o, side) {
        AddToDepth(LevelsUpTo(orders, side, n - 1), o.price, Remainder(o), minPrice);
      }
    }
  }

  lemma {:induction false} NonEmptyKeepsPositive(levels: seq<Level>)
    requires AllPositive(levels)
    ensures NonEmpty(levels) == levels
  {
    if |levels| > 0 {
      NonEmptyKeepsPositive(levels[1..]);
      assert levels == [levels[0]] + levels[1..];
    }
  }

  /**
   What the public sees is what the matcher will do: levels are strictly
   descending and positive, their depth from any price down is the open
   remainder of the table, and an incoming order fills exactly the smaller of
   its size and the opposite depth at 1 - p or better.
   */
  lemma PublicDepthAgreesWithMatcher(orders: seq<Order>, user: User, side: Side, price: int, size: int, minPrice: int)
    requires TableOk(orders) && 0 < price < ONE && size > 0
    ensures var levels := AggregatedBook(orders, Opposite(side));
            && StrictlyDescending(levels)
            && AllPositive(levels)
            && DepthFrom(levels, minPrice) == Liquidity(orders, Opposite(side), minPrice)
            && Place(orders, user, side, price, size)[|orders|].filled == Min(size, DepthFrom(levels, ONE - price))
  {
    var other := Opposite(side);
    LevelsSorted(orders, other, |orders|);
    NonEmptyKeepsPositive(LevelsUpTo(orders, other, |orders|));
    LevelsDepth(orders, other, minPrice, |orders|);
    LevelsDepth(orders, other, ONE - price, |orders|);
    assert OfferedEach(orders, other, minPrice)[..|orders|] == OfferedEach(orders, other, minPrice);
    assert OfferedEach(orders, other, ONE - price)[..|orders|] == OfferedEach(orders, other, ONE - price);
    TakesFacts(orders, side, price, size);
  }
}
