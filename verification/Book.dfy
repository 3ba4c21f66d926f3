/** The order table of one window, its two books, and price-time-priority matching. */
module Book {
  import opened Types
  import opened Sums
  import opened Money

  function Remainder(o: Order): int
  {
    o.size - o.filled
  }

  predicate OnBook(o: Order, side: Side)
  {
    o.side == side && o.status == Open
  }

  predicate Compatible(p: int, q: int)
  {
    p + q >= ONE
  }

  // ---------------------------------------------------------------- queries

  /** Price descending, then oldest first (ids grow with creation time). */
  predicate Before(orders: seq<Order>, i: nat, j: nat)
    requires i < |orders| && j < |orders|
  {
    orders[i].price > orders[j].price || (orders[i].price == orders[j].price && i < j)
  }

  predicate Ids(orders: seq<Order>, ids: seq<nat>)
  {
    forall k :: 0 <= k < |ids| ==> ids[k] < |orders|
  }

  /** What the book query promises: every open order of the side, in priority order. */
  predicate IsBook(orders: seq<Order>, side: Side, book: seq<nat>)
  {
    && Ids(orders, book)
    && (forall k :: 0 <= k < |book| ==> OnBook(orders[book[k]], side))
    && (forall i :: 0 <= i < |orders| && OnBook(orders[i], side) ==> i in book)
    && (forall j, k :: 0 <= j < k < |book| ==> Before(orders, book[j], book[k]))
  }

  function Insert(orders: seq<Order>, book: seq<nat>, i: nat): (r: seq<nat>)
    requires i < |orders| && Ids(orders, book)
    ensures Ids(orders, r)
    ensures multiset(r) == multiset(book) + multiset{i}
  {
    if |book| == 0 then [i]
    else if Before(orders, i, book[0]) then [i] + book
    else
      assert book == [book[0]] + book[1..];
      [book[0]] + Insert(orders, book[1..], i)
  }

  /** The opposing book read by the matcher, built row by row up to id n. */
  function BookUpTo(orders: seq<Order>, side: Side, n: nat): (book: seq<nat>)
    requires n <= |orders|
    ensures Ids(orders, book)
  {
    if n == 0 then []
    else
      var book := BookUpTo(orders, side, n - 1);
      if OnBook(orders[n - 1], side) then Insert(orders, book, n - 1) else book
  }

  function OpposingBook(orders: seq<Order>, side: Side): (book: seq<nat>)
    ensures Ids(orders, book)
  {
    BookUpTo(orders, side, |orders|)
  }

  lemma InsertMembers(orders: seq<Order>, book: seq<nat>, i: nat)
    requires i < |orders| && Ids(orders, book)
    ensures forall x :: x in Insert(orders, book, i) <==> x in book || x == i
  {
    forall x ensures x in Insert(orders, book, i) <==> x in book || x == i {
      assert x in Insert(orders, book, i) <==> x in multiset(Insert(orders, book, i));
    }
  }

  predicate Sorted(orders: seq<Order>, book: seq<nat>)
    requires Ids(orders, book)
  {
    forall j, k :: 0 <= j < k < |book| ==> Before(orders, book[j], book[k])
  }

  lemma {:induction false} InsertSorted(orders: seq<Order>, book: seq<nat>, i: nat)
    requires i < |orders| && Ids(orders, book) && Sorted(orders, book)
    requires i !in book
    ensures Sorted(orders, Insert(orders, book, i))
  {
    if |book| > 0 && !Before(orders, i, book[0]) {
      var rest := Insert(orders, book[1..], i);
      InsertSorted(orders, book[1..], i);
      InsertMembers(orders, book[1..], i);
      forall k | 0 <= k < |rest| ensures Before(orders, book[0], rest[k]) {
        assert rest[k] in rest;
      }
    }
  }

  lemma {:induction false} BookUpToMembers(orders: seq<Order>, side: Side, n: nat)
    requires n <= |orders|
    ensures forall i :: i in BookUpTo(orders, side, n) <==> 0 <= i < n && OnBook(orders[i], side)
  {
    if n > 0 {
      BookUpToMembers(orders, side, n - 1);
      if OnBook(orders[n - 1], side) {
        InsertMembers(orders, BookUpTo(orders, side, n - 1), n - 1);
      }
    }
  }

  lemma NewestNotYetListed(orders: seq<Order>, side: Side, n: nat)
    requires n < |orders|
    ensures n !in BookUpTo(orders, side, n)
  {
    BookUpToMembers(orders, side, n);
  }

  lemma {:induction false} BookUpToSorted(orders: seq<Order>, side: Side, n: nat)
    requires n <= |orders|
    ensures Sorted(orders, BookUpTo(orders, side, n))
  {
    if n > 0 {
      var book := BookUpTo(orders, side, n - 1);
      BookUpToSorted(orders, side, n - 1);
      NewestNotYetListed(orders, side, n - 1);
      if OnBook(orders[n - 1], side) {
        InsertSorted(orders, book, n - 1);
        assert BookUpTo(orders, side, n) == Insert(orders, book, n - 1);
      } else {
        assert BookUpTo(orders, side, n) == book;
      }
    }
  }

  /** The query result exists, and price-time priority leaves no choice about it. */
  lemma OpposingBookIsTheBook(orders: seq<Order>, side: Side, book: seq<nat>)
    ensures IsBook(orders, side, OpposingBook(orders, side))
    ensures IsBook(orders, side, book) ==> book == OpposingBook(orders, side)
    ensures var b := OpposingBook(orders, side);
            forall j, k :: 0 <= j < k < |b| ==>
              && orders[b[j]].price >= orders[b[k]].price
              && (orders[b[j]].price == orders[b[k]].price ==> b[j] < b[k])
  {
    BookUpToSorted(orders, side, |orders|);
    BookUpToMembers(orders, side, |orders|);
    var b := OpposingBook(orders, side);
    forall k | 0 <= k < |b| ensures OnBook(orders[b[k]], side) {
      assert b[k] in b;
    }
    if IsBook(orders, side, book) {
      SortedUnique(orders, book, b);
    }
    forall j, k | 0 <= j < k < |b|
      ensures orders[b[j]].price >= orders[b[k]].price && (orders[b[j]].price == orders[b[k]].price ==> b[j] < b[k])
    {
      assert Before(orders, b[j], b[k]);
    }
  }

  lemma {:induction false} SortedUnique(orders: seq<Order>, a: seq<nat>, b: seq<nat>)
    requires Ids(orders, a) && Ids(orders, b) && Sorted(orders, a) && Sorted(orders, b)
    requires forall i :: i in a <==> i in b
    ensures a == b
  {
    SameHead(orders, a, b);
    if |a| > 0 {
      forall i ensures i in a[1..] <==> i in b[1..] {
        TailMembers(orders, a, i);
        TailMembers(orders, b, i);
      }
      SortedUnique(orders, a[1..], b[1..]);
    }
  }

  lemma SameHead(orders: seq<Order>, a: seq<nat>, b: seq<nat>)
    requires Ids(orders, a) && Ids(orders, b) && Sorted(orders, a) && Sorted(orders, b)
    requires forall i :: i in a <==> i in b
    ensures |a| > 0 <==> |b| > 0
    ensures |a| > 0 ==> a[0] == b[0]
  {
    assert |a| > 0 ==> a[0] in a;
    assert |b| > 0 ==> b[0] in b;
    if |a| > 0 {
      HeadComesFirst(orders, a, b[0]);
      HeadComesFirst(orders, b, a[0]);
    }
  }

  lemma HeadComesFirst(orders: seq<Order>, a: seq<nat>, x: nat)
    requires Ids(orders, a) && Sorted(orders, a) && x in a
    ensures x < |orders| && (x == a[0] || Before(orders, a[0], x))
  {
  }

  lemma TailMembers(orders: seq<Order>, a: seq<nat>, i: nat)
    requires Ids(orders, a) && Sorted(orders, a) && |a| > 0
    ensures i in a[1..] <==> i in a && i != a[0]
  {
    if i in a[1..] {
      var k :| 0 <= k < |a[1..]| && a[1..][k] == i;
      assert Before(orders, a[0], a[k + 1]);
    }
    if i in a && i != a[0] {
      var k :| 0 <= k < |a| && a[k] == i;
      assert a[1..][k - 1] == i;
    }
  }

  // ---------------------------------------------------------------- open interest

  /** What an order offers a counterparty quoting at least `minPrice` on its side. */
  function Offered(o: Order, side: Side, minPrice: int): int
  {
    if OnBook(o, side) && o.price >= minPrice && Remainder(o) > 0 then Remainder(o) else 0
  }

  function OfferedEach(orders: seq<Order>, side: Side, minPrice: int): (xs: seq<int>)
    ensures |xs| == |orders|
  {
    seq(|orders|, i requires 0 <= i < |orders| => Offered(orders[i], side, minPrice))
  }

  /** Total open remainder on one side at or above a price: defined on the table, with no order. */
  function Liquidity(orders: seq<Order>, side: Side, minPrice: int): int
  {
    Sum(OfferedEach(orders, side, minPrice))
  }

  function BookLiquidity(orders: seq<Order>, book: seq<nat>, side: Side, minPrice: int): int
    requires Ids(orders, book)
  {
    if |book| == 0 then 0
    else Offered(orders[book[0]], side, minPrice) + BookLiquidity(orders, book[1..], side, minPrice)
  }

  lemma {:induction false} InsertLiquidity(orders: seq<Order>, book: seq<nat>, i: nat, side: Side, minPrice: int)
    requires i < |orders| && Ids(orders, book)
    ensures BookLiquidity(orders, Insert(orders, book, i), side, minPrice)
            == BookLiquidity(orders, book, side, minPrice) + Offered(orders[i], side, minPrice)
  {
    if |book| > 0 {
      if Before(orders, i, book[0]) {
        assert ([i] + book)[1..] == book;
      } else {
        InsertLiquidity(orders, book[1..], i, side, minPrice);
        assert ([book[0]] + Insert(orders, book[1..], i))[1..] == Insert(orders, book[1..], i);
      }
    }
  }

  lemma {:induction false} BookLiquidityUpTo(orders: seq<Order>, side: Side, minPrice: int, n: nat)
    requires n <= |orders|
    ensures BookLiquidity(orders, BookUpTo(orders, side, n), side, minPrice)
            == Sum(OfferedEach(orders, side, minPrice)[..n])
  {
    if n > 0 {
      BookLiquidityUpTo(orders, side, minPrice, n - 1);
      var xs := OfferedEach(orders, side, minPrice);
      assert xs[..n] == xs[..n - 1] + [xs[n - 1]];
      SumPush(xs[..n - 1], xs[n - 1]);
      if OnBook(orders[n - 1], side) {
        InsertLiquidity(orders, BookUpTo(orders, side, n - 1), n - 1, side, minPrice);
      }
    }
  }

  lemma OpposingBookHoldsTheLiquidity(orders: seq<Order>, side: Side, minPrice: int)
    ensures BookLiquidity(orders, OpposingBook(orders, side), side, minPrice) == Liquidity(orders, side, minPrice)
  {
    BookLiquidityUpTo(orders, side, minPrice, |orders|);
    var xs := OfferedEach(orders, side, minPrice);
    assert xs[..|orders|] == xs;
  }

  // ---------------------------------------------------------------- matching

  /** One maker consumed, and by how much. */
  datatype Take = Take(maker: nat, size: int)

  /** The matching loop: what an order at `price` wanting `want` takes from the rest of a book. */
  function Sweep(orders: seq<Order>, book: seq<nat>, price: int, want: int): (takes: seq<Take>)
    requires Ids(orders, book)
    ensures forall k :: 0 <= k < |takes| ==> takes[k].maker < |orders|
  {
    if |book| == 0 || want == 0 then []
    else
      var resting := orders[book[0]];
      if Remainder(resting) <= 0 || !Compatible(resting.price, price) then
        Sweep(orders, book[1..], price, want)
      else
        var size := Min(want, Remainder(resting));
        [Take(book[0], size)] + Sweep(orders, book[1..], price, want - size)
  }

  function TakenEach(takes: seq<Take>): (xs: seq<int>)
    ensures |xs| == |takes|
  {
    seq(|takes|, k requires 0 <= k < |takes| => takes[k].size)
  }

  function Taken(takes: seq<Take>): int
  {
    Sum(TakenEach(takes))
  }

  lemma TakenCons(t: Take, takes: seq<Take>)
    ensures Taken([t] + takes) == t.size + Taken(takes)
  {
    assert TakenEach([t] + takes) == [t.size] + TakenEach(takes);
    SumConcat([t.size], TakenEach(takes));
    SumPush([], t.size);
    assert [] + [t.size] == [t.size];
  }

  lemma TakenSnoc(takes: seq<Take>, t: Take)
    ensures Taken(takes + [t]) == Taken(takes) + t.size
  {
    assert TakenEach(takes + [t]) == TakenEach(takes) + [t.size];
    SumPush(TakenEach(takes), t.size);
  }

  /** A sweep fills the smaller of what is wanted and what the compatible makers offer. */
  lemma {:induction false} SweepTotal(orders: seq<Order>, side: Side, book: seq<nat>, price: int, want: int)
    requires Ids(orders, book) && want >= 0
    requires forall k :: 0 <= k < |book| ==> OnBook(orders[book[k]], side)
    ensures BookLiquidity(orders, book, side, ONE - price) >= 0
    ensures Taken(Sweep(orders, book, price, want)) == Min(want, BookLiquidity(orders, book, side, ONE - price))
  {
    if |book| > 0 {
      var resting := orders[book[0]];
      if want == 0 {
        SweepTotal(orders, side, book[1..], price, want);
      } else if Remainder(resting) <= 0 || !Compatible(resting.price, price) {
        SweepTotal(orders, side, book[1..], price, want);
      } else {
        var size := Min(want, Remainder(resting));
        SweepTotal(orders, side, book[1..], price, want - size);
        TakenCons(Take(book[0], size), Sweep(orders, book[1..], price, want - size));
      }
    }
  }

  /** The makers a sweep visits are the compatible ones at the head of the sorted book. */
  predicate Prefix(orders: seq<Order>, book: seq<nat>, takes: seq<Take>)
    requires Ids(orders, book)
  {
    && |takes| <= |book|
    && forall k :: 0 <= k < |takes| ==> takes[k].maker == book[k]
  }

  predicate TakesOk(orders: seq<Order>, price: int, takes: seq<Take>)
    requires forall k :: 0 <= k < |takes| ==> takes[k].maker < |orders|
  {
    forall k :: 0 <= k < |takes| ==>
                  && 0 < takes[k].size <= Remainder(orders[takes[k].maker])
                  && Compatible(orders[takes[k].maker].price, price)
  }

  /** The first n takes consume their makers whole. */
  predicate Whole(orders: seq<Order>, takes: seq<Take>, n: int)
    requires n <= |takes| && forall k :: 0 <= k < |takes| ==> takes[k].maker < |orders|
  {
    forall k :: 0 <= k < n ==> takes[k].size == Remainder(orders[takes[k].maker])
  }

  lemma {:induction false} SweepTakesOk(orders: seq<Order>, book: seq<nat>, price: int, want: int)
    requires Ids(orders, book) && want >= 0
    ensures TakesOk(orders, price, Sweep(orders, book, price, want))
  {
    if |book| > 0 && want > 0 {
      var resting := orders[book[0]];
      if Remainder(resting) <= 0 || !Compatible(resting.price, price) {
        SweepTakesOk(orders, book[1..], price, want);
      } else {
        SweepTakesOk(orders, book[1..], price, want - Min(want, Remainder(resting)));
      }
    }
  }

  /** All makers but the last touched are consumed whole, and all of them if want is left. */
  lemma {:induction false} SweepConsumesWhole(orders: seq<Order>, book: seq<nat>, price: int, want: int)
    requires Ids(orders, book) && want >= 0
    ensures var takes := Sweep(orders, book, price, want);
            && Whole(orders, takes, |takes| - 1)
            && (Taken(takes) < want ==> Whole(orders, takes, |takes|))
  {
    if |book| > 0 && want > 0 {
      var resting := orders[book[0]];
      if Remainder(resting) <= 0 || !Compatible(resting.price, price) {
        SweepConsumesWhole(orders, book[1..], price, want);
      } else {
        var size := Min(want, Remainder(resting));
        var rest := Sweep(orders, book[1..], price, want - size);
        SweepConsumesWhole(orders, book[1..], price, want - size);
        TakenCons(Take(book[0], size), rest);
        assert size == want ==> |rest| == 0 && Taken(rest) == 0;
      }
    }
  }

  /**
   On a sorted book of open orders the makers are consumed as a prefix of the
   priority order, and skipping an incompatible maker is the same as stopping there.
   */
  lemma {:induction false} SweepConsumesAPrefix(orders: seq<Order>, book: seq<nat>, price: int, want: int)
    requires Ids(orders, book) && Sorted(orders, book) && want >= 0
    requires forall k :: 0 <= k < |book| ==> Remainder(orders[book[k]]) > 0
    ensures var takes := Sweep(orders, book, price, want);
            && Prefix(orders, book, takes)
            && (Taken(takes) < want ==> forall k :: |takes| <= k < |book| ==> !Compatible(orders[book[k]].price, price))
  {
    if |book| > 0 && want > 0 {
      var resting := orders[book[0]];
      if !Compatible(resting.price, price) {
        forall k | 0 <= k < |book| ensures !Compatible(orders[book[k]].price, price) {
          assert k > 0 ==> Before(orders, book[0], book[k]);
        }
        NothingCompatible(orders, book, price, want);
      } else {
        var size := Min(want, Remainder(resting));
        SweepConsumesAPrefix(orders, book[1..], price, want - size);
        TakenCons(Take(book[0], size), Sweep(orders, book[1..], price, want - size));
      }
    } else {
      assert Taken([]) == 0;
    }
  }

  lemma {:induction false} NothingCompatible(orders: seq<Order>, book: seq<nat>, price: int, want: int)
    requires Ids(orders, book)
    requires forall k :: 0 <= k < |book| ==> !Compatible(orders[book[k]].price, price)
    ensures Sweep(orders, book, price, want) == []
  {
    if |book| > 0 {
      NothingCompatible(orders, book[1..], price, want);
    }
  }

  // ---------------------------------------------------------------- writing the table

  /** FillOrder: the status is what the caller decides from the new fill. */
  function Fill(o: Order, add: int): Order
  {
    o.(filled := o.filled + add, status := if o.filled + add >= o.size then Filled else Open)
  }

  function FillMakers(orders: seq<Order>, takes: seq<Take>): (r: seq<Order>)
    requires forall k :: 0 <= k < |takes| ==> takes[k].maker < |orders|
    ensures |r| == |orders|
  {
    if |takes| == 0 then orders
    else
      var last := takes[|takes| - 1];
      var front := FillMakers(orders, takes[..|takes| - 1]);
      front[last.maker := Fill(front[last.maker], last.size)]
  }

  /** The incoming order's row once matching is done. */
  function Incoming(user: User, side: Side, price: int, size: int, got: int): Order
  {
    Order(user, side, price, size, got, if size - got == 0 then Filled else Open)
  }

  function TakesFor(orders: seq<Order>, side: Side, price: int, size: int): (takes: seq<Take>)
    ensures forall k :: 0 <= k < |takes| ==> takes[k].maker < |orders|
  {
    Sweep(orders, OpposingBook(orders, Opposite(side)), price, size)
  }

  /** The order table after a placement. */
  function Place(orders: seq<Order>, user: User, side: Side, price: int, size: int): seq<Order>
  {
    var takes := TakesFor(orders, side, price, size);
    FillMakers(orders, takes) + [Incoming(user, side, price, size, Taken(takes))]
  }

  /** The pending-fill rows a placement inserts. */
  function MatchOf(orders: seq<Order>, t: Take, user: User, side: Side): Match
    requires t.maker < |orders|
  {
    var resting := orders[t.maker];
    Match(t.maker, |orders|, resting.user, user, resting.side, side, resting.price, t.size)
  }

  function MatchesFor(orders: seq<Order>, user: User, side: Side, price: int, size: int): (ms: seq<Match>)
  {
    var takes := TakesFor(orders, side, price, size);
    seq(|takes|, k requires 0 <= k < |takes| => MatchOf(orders, takes[k], user, side))
  }

  // ---------------------------------------------------------------- table invariant

  predicate OrderOk(o: Order)
  {
    && 0 < o.price < ONE
    && 0 < o.size
    && 0 <= o.filled <= o.size
    && (o.status == Open ==> o.filled < o.size)
  }

  predicate TableOk(orders: seq<Order>)
  {
    forall i :: 0 <= i < |orders| ==> OrderOk(orders[i])
  }

  /** No two open orders of opposite sides could trade with each other. */
  predicate Uncrossed(orders: seq<Order>)
  {
    forall i, j :: 0 <= i < |orders| && 0 <= j < |orders| && OnBook(orders[i], Yes) && OnBook(orders[j], No)
                   ==> !Compatible(orders[i].price, orders[j].price)
  }

  /** What a sweep does to the book of a well-formed table, in one place. */
  lemma TakesFacts(orders: seq<Order>, side: Side, price: int, size: int)
    requires TableOk(orders) && size > 0
    ensures var takes := TakesFor(orders, side, price, size);
            var book := OpposingBook(orders, Opposite(side));
            && IsBook(orders, Opposite(side), book)
            && Prefix(orders, book, takes)
            && (forall j, k :: 0 <= j < k < |takes| ==> takes[j].maker != takes[k].maker)
            && (forall k :: 0 <= k < |takes| ==> OnBook(orders[takes[k].maker], Opposite(side)))
            && (forall k :: 0 <= k < |takes| ==> 0 < takes[k].size <= Remainder(orders[takes[k].maker]))
            && (forall k :: 0 <= k < |takes| ==> Compatible(orders[takes[k].maker].price, price))
            && (forall k :: 0 <= k < |takes| - 1 ==> takes[k].size == Remainder(orders[takes[k].maker]))
            && 0 <= Taken(takes) <= size
            && Taken(takes) == Min(size, Liquidity(orders, Opposite(side), ONE - price))
            && (Taken(takes) < size ==>
                  && (forall k :: 0 <= k < |takes| ==> takes[k].size == Remainder(orders[takes[k].maker]))
                  && (forall k :: |takes| <= k < |book| ==> !Compatible(orders[book[k]].price, price)))
  {
    var book := OpposingBook(orders, Opposite(side));
    OpposingBookIsTheBook(orders, Opposite(side), book);
    SweepConsumesAPrefix(orders, book, price, size);
    SweepTakesOk(orders, book, price, size);
    SweepConsumesWhole(orders, book, price, size);
    SweepTotal(orders, Opposite(side), book, price, size);
    OpposingBookHoldsTheLiquidity(orders, Opposite(side), ONE - price);
    var takes := TakesFor(orders, side, price, size);
    forall j, k | 0 <= j < k < |takes| ensures takes[j].maker != takes[k].maker {
      assert Before(orders, book[j], book[k]);
    }
  }

  /** A batch of fills of distinct makers, read row by row. */
  lemma {:induction false} FillMakersAt(orders: seq<Order>, takes: seq<Take>, i: nat)
    requires i < |orders|
    requires forall k :: 0 <= k < |takes| ==> takes[k].maker < |orders|
    requires forall j, k :: 0 <= j < k < |takes| ==> takes[j].maker != takes[k].maker
    ensures (forall k :: 0 <= k < |takes| ==> takes[k].maker != i) ==> FillMakers(orders, takes)[i] == orders[i]
    ensures forall k :: 0 <= k < |takes| && takes[k].maker == i
                        ==> FillMakers(orders, takes)[i] == Fill(orders[i], takes[k].size)
  {
    if |takes| > 0 {
      var front := takes[..|takes| - 1];
      FillMakersAt(orders, front, i);
      forall k | 0 <= k < |takes| && takes[k].maker == i
        ensures FillMakers(orders, takes)[i] == Fill(orders[i], takes[k].size)
      {
        if k < |front| {
          assert front[k].maker == i;
        } else {
          assert forall j :: 0 <= j < |front| ==> front[j].maker != i;
        }
      }
      if forall k :: 0 <= k < |takes| ==> takes[k].maker != i {
        assert forall k :: 0 <= k < |front| ==> front[k].maker != i;
        assert takes[|takes| - 1].maker != i;
      }
    }
  }

  /**
   The table after a placement, order by order: a maker at place k of the takes
   gains exactly that take, every other row is untouched, and the new row holds
   the total.
   */
  lemma PlaceAt(orders: seq<Order>, user: User, side: Side, price: int, size: int, i: nat)
    requires TableOk(orders) && size > 0 && i < |orders|
    ensures var takes := TakesFor(orders, side, price, size);
            var after := Place(orders, user, side, price, size);
            && |after| == |orders| + 1
            && ((forall k :: 0 <= k < |takes| ==> takes[k].maker != i) ==> after[i] == orders[i])
            && (forall k :: 0 <= k < |takes| && takes[k].maker == i ==> after[i] == Fill(orders[i], takes[k].size))
  {
    TakesFacts(orders, side, price, size);
    FillMakersAt(orders, TakesFor(orders, side, price, size), i);
  }

  lemma PlaceKeepsTableOk(orders: seq<Order>, user: User, side: Side, price: int, size: int)
    requires TableOk(orders) && 0 < price < ONE && size > 0
    ensures TableOk(Place(orders, user, side, price, size))
  {
    var takes := TakesFor(orders, side, price, size);
    var after := Place(orders, user, side, price, size);
    TakesFacts(orders, side, price, size);
    forall i | 0 <= i < |after| ensures OrderOk(after[i]) {
      if i < |orders| {
        PlaceAt(orders, user, side, price, size, i);
        if k :| 0 <= k < |takes| && takes[k].maker == i {
        }
      }
    }
  }

  /** Whatever stays open after a placement was open before, at the same price, or is the new order. */
  lemma PlaceOpens(orders: seq<Order>, user: User, side: Side, price: int, size: int, i: nat)
    requires TableOk(orders) && size > 0 && i < |orders|
    ensures var after := Place(orders, user, side, price, size);
            && |after| == |orders| + 1
            && after[i].price == orders[i].price && after[i].side == orders[i].side
            && (after[i].status == Open ==> orders[i].status == Open)
  {
    PlaceAt(orders, user, side, price, size, i);
    TakesFacts(orders, side, price, size);
    var takes := TakesFor(orders, side, price, size);
    if k :| 0 <= k < |takes| && takes[k].maker == i {
      assert OnBook(orders[takes[k].maker], Opposite(side));
    }
  }

  /** If the incoming order rests, nothing compatible with it is left open. */
  lemma RestingOrderExhaustedTheBook(orders: seq<Order>, user: User, side: Side, price: int, size: int, i: nat)
    requires TableOk(orders) && size > 0 && i < |orders|
    requires Taken(TakesFor(orders, side, price, size)) < size
    requires OnBook(orders[i], Opposite(side)) && Compatible(orders[i].price, price)
    ensures Place(orders, user, side, price, size)[i].status == Filled
  {
    var takes := TakesFor(orders, side, price, size);
    var book := OpposingBook(orders, Opposite(side));
    TakesFacts(orders, side, price, size);
    PlaceAt(orders, user, side, price, size, i);
    assert i in book;
    var k :| 0 <= k < |book| && book[k] == i;
    assert k < |takes| && takes[k].maker == i;
  }

  /** Matching until nothing compatible is left keeps the two books apart. */
  lemma PlaceKeepsUncrossed(orders: seq<Order>, user: User, side: Side, price: int, size: int)
    requires TableOk(orders) && Uncrossed(orders) && size > 0
    ensures Uncrossed(Place(orders, user, side, price, size))
  {
    var after := Place(orders, user, side, price, size);
    var n := |orders|;
    TakesFacts(orders, side, price, size);
    forall i, j | 0 <= i < |after| && 0 <= j < |after| && OnBook(after[i], Yes) && OnBook(after[j], No)
      ensures !Compatible(after[i].price, after[j].price)
    {
      if i < n { PlaceOpens(orders, user, side, price, size, i); }
      if j < n { PlaceOpens(orders, user, side, price, size, j); }
      if i == n && Compatible(after[i].price, after[j].price) {
        RestingOrderExhaustedTheBook(orders, user, side, price, size, j);
      }
      if j == n && Compatible(after[i].price, after[j].price) {
        RestingOrderExhaustedTheBook(orders, user, side, price, size, i);
      }
    }
  }

  /** Taking orders off the book, in any way, never crosses it. */
  lemma ClosingKeepsUncrossed(orders: seq<Order>, i: nat, status: OrderStatus)
    requires TableOk(orders) && Uncrossed(orders) && i < |orders| && status != Open
    ensures TableOk(orders[i := orders[i].(status := status)])
    ensures Uncrossed(orders[i := orders[i].(status := status)])
  {
  }

  /** A row that took part in matching is off the book exactly when it is full. */
  predicate SettledStatus(o: Order)
  {
    && (o.status == Open <==> o.filled < o.size)
    && (o.status == Filled <==> o.filled == o.size)
  }

  /** What an existing row may become by a placement: as it was, or filled further on the same terms. */
  lemma PlaceFills(orders: seq<Order>, user: User, side: Side, price: int, size: int, i: nat)
    requires TableOk(orders) && size > 0 && i < |orders|
    ensures var o, t := orders[i], Place(orders, user, side, price, size)[i];
            && t.user == o.user && t.side == o.side && t.price == o.price && t.size == o.size
            && (t.filled != o.filled ==>
                  && OnBook(o, Opposite(side)) && o.price + price >= 10_000
                  && o.filled < t.filled <= t.size && SettledStatus(t))
            && (t.filled == o.filled ==> t == o)
  {
    var takes := TakesFor(orders, side, price, size);
    PlaceAt(orders, user, side, price, size, i);
    TakesFacts(orders, side, price, size);
    if k :| 0 <= k < |takes| && takes[k].maker == i {
      assert OnBook(orders[takes[k].maker], Opposite(side));
    }
  }

  lemma TakenPrecede(orders: seq<Order>, user: User, side: Side, price: int, size: int, i: nat, k: nat)
    requires TableOk(orders) && size > 0 && i < |orders| && OnBook(orders[i], Opposite(side))
    requires var takes := TakesFor(orders, side, price, size);
             k < |takes| && (var j := takes[k].maker;
               orders[i].price > orders[j].price || (orders[i].price == orders[j].price && i < j))
    ensures Place(orders, user, side, price, size)[i].filled == orders[i].size
  {
    var takes, book := TakesFor(orders, side, price, size), OpposingBook(orders, Opposite(side));
    TakesFacts(orders, side, price, size);
    OpposingBookIsTheBook(orders, Opposite(side), book);
    assert i in book;
    var j :| 0 <= j < |book| && book[j] == i;
    assert book[k] == takes[k].maker;
    assert j < k;
    PlaceAt(orders, user, side, price, size, i);
    assert takes[j].maker == i;
  }

  /** Price, then time: nobody trades while someone ahead in the queue has anything left. */
  lemma PlaceKeepsTheQueue(orders: seq<Order>, user: User, side: Side, price: int, size: int, i: nat, j: nat)
    requires TableOk(orders) && size > 0 && i < |orders| && j < |orders| && OnBook(orders[i], Opposite(side))
    requires Place(orders, user, side, price, size)[j].filled != orders[j].filled
    requires orders[i].price > orders[j].price || (orders[i].price == orders[j].price && i < j)
    ensures Place(orders, user, side, price, size)[i].filled == orders[i].size
  {
    var takes := TakesFor(orders, side, price, size);
    TakesFacts(orders, side, price, size);
    PlaceAt(orders, user, side, price, size, j);
    var k :| 0 <= k < |takes| && takes[k].maker == j;
    TakenPrecede(orders, user, side, price, size, i, k);
  }

  /** The new row: the order as submitted, filled by what the table offers, and resting unless that is all of it. */
  lemma NewRowIs(orders: seq<Order>, user: User, side: Side, price: int, size: int)
    requires TableOk(orders) && size > 0
    ensures var o := Place(orders, user, side, price, size)[|orders|];
            && o.user == user && o.side == side && o.price == price && o.size == size
            && o.filled == Min(size, Liquidity(orders, Opposite(side), ONE - price))
            && SettledStatus(o)
  {
    TakesFacts(orders, side, price, size);
  }

  /**
   The whole effect of one placement: how much it fills, whom it fills against,
   and what it leaves behind.
   */
  lemma PlacementMeetsItsSpecification(orders: seq<Order>, user: User, side: Side, price: int, size: int)
    requires TableOk(orders) && 0 < price < ONE && size > 0
    ensures var takes := TakesFor(orders, side, price, size);
            var book := OpposingBook(orders, Opposite(side));
            var after := Place(orders, user, side, price, size);
            // The fill is the smaller of the size and the compatible liquidity of the table.
            && after[|orders|].filled == Min(size, Liquidity(orders, Opposite(side), ONE - price))
            // The new row is the order submitted; it and every row it fills stay on the book until full.
            && after[|orders|].user == user && after[|orders|].side == side
            && after[|orders|].price == price && after[|orders|].size == size
            && SettledStatus(after[|orders|])
            && (forall i :: 0 <= i < |orders| && after[i].filled != orders[i].filled ==> SettledStatus(after[i]))
            // Makers are a prefix of the priority order, and only the last can be left partial.
            && Prefix(orders, book, takes)
            && (forall k :: 0 <= k < |takes| - 1 ==>
                  after[book[k]].filled == after[book[k]].size && after[book[k]].status == Filled)
            && (forall k :: |takes| <= k < |book| ==> after[book[k]] == orders[book[k]])
            // Orders that were not on the opposing book do not change at all.
            && (forall i :: 0 <= i < |orders| && !OnBook(orders[i], Opposite(side)) ==> after[i] == orders[i])
            // Every fill is at the maker's price, within the taker's limit.
            && (forall k :: 0 <= k < |takes| ==> orders[book[k]].price >= ONE - price)
  {
    var takes := TakesFor(orders, side, price, size);
    var book := OpposingBook(orders, Opposite(side));
    var after := Place(orders, user, side, price, size);
    TakesFacts(orders, side, price, size);
    NewRowIs(orders, user, side, price, size);
    forall i | 0 <= i < |orders| && after[i].filled != orders[i].filled ensures SettledStatus(after[i]) {
      PlaceFills(orders, user, side, price, size, i);
    }
    forall i | 0 <= i < |orders|
      ensures after[i] == orders[i]
              || exists k :: 0 <= k < |takes| && takes[k].maker == i && after[i] == Fill(orders[i], takes[k].size)
    {
      PlaceAt(orders, user, side, price, size, i);
    }
    forall k | |takes| <= k < |book| ensures after[book[k]] == orders[book[k]] {
      PlaceAt(orders, user, side, price, size, book[k]);
      forall j | 0 <= j < |takes| ensures takes[j].maker != book[k] {
        assert Before(orders, book[j], book[k]);
      }
    }
    forall k | 0 <= k < |takes| - 1
      ensures after[book[k]].filled == after[book[k]].size && after[book[k]].status == Filled
    {
      PlaceAt(orders, user, side, price, size, book[k]);
      assert takes[k].maker == book[k];
    }
  }

  // ---------------------------------------------------------------- the incoming row is already there

  lemma {:induction false} InsertIgnoresNewRow(orders: seq<Order>, o: Order, book: seq<nat>, i: nat)
    requires i < |orders| && Ids(orders, book)
    ensures Insert(orders + [o], book, i) == Insert(orders, book, i)
  {
    if |book| > 0 && !Before(orders, i, book[0]) {
      InsertIgnoresNewRow(orders, o, book[1..], i);
    }
  }

  lemma {:induction false} BookIgnoresNewRow(orders: seq<Order>, o: Order, side: Side, n: nat)
    requires n <= |orders|
    ensures BookUpTo(orders + [o], side, n) == BookUpTo(orders, side, n)
  {
    if n > 0 {
      BookIgnoresNewRow(orders, o, side, n - 1);
      InsertIgnoresNewRow(orders, o, BookUpTo(orders, side, n - 1), n - 1);
    }
  }

  lemma {:induction false} SweepIgnoresNewRow(orders: seq<Order>, o: Order, book: seq<nat>, price: int, want: int)
    requires Ids(orders, book)
    ensures Sweep(orders + [o], book, price, want) == Sweep(orders, book, price, want)
  {
    if |book| > 0 && want != 0 {
      var resting := orders[book[0]];
      if Remainder(resting) <= 0 || !Compatible(resting.price, price) {
        SweepIgnoresNewRow(orders, o, book[1..], price, want);
      } else {
        SweepIgnoresNewRow(orders, o, book[1..], price, want - Min(want, Remainder(resting)));
      }
    }
  }

  /** The incoming order's own row, already inserted, takes no part in its matching. */
  lemma TakesIgnoreNewRow(orders: seq<Order>, o: Order, side: Side, price: int, size: int)
    requires o.side == side
    ensures OpposingBook(orders + [o], Opposite(side)) == OpposingBook(orders, Opposite(side))
    ensures Sweep(orders + [o], OpposingBook(orders + [o], Opposite(side)), price, size)
            == TakesFor(orders, side, price, size)
  {
    BookIgnoresNewRow(orders, o, Opposite(side), |orders|);
    SweepIgnoresNewRow(orders, o, OpposingBook(orders, Opposite(side)), price, size);
  }

  lemma {:induction false} FillMakersIgnoresNewRow(orders: seq<Order>, o: Order, takes: seq<Take>)
    requires forall k :: 0 <= k < |takes| ==> takes[k].maker < |orders|
    ensures FillMakers(orders + [o], takes) == FillMakers(orders, takes) + [o]
  {
    if |takes| > 0 {
      FillMakersIgnoresNewRow(orders, o, takes[..|takes| - 1]);
    }
  }

  /**
   Why matching must commit together with the insert: an order that entered the
   table unmatched leaves the books uncrossed exactly when there was nothing for
   it to trade against.
   */
  lemma UnmatchedOrderCrossesIff(orders: seq<Order>, user: User, side: Side, price: int, size: int)
    requires TableOk(orders) && Uncrossed(orders) && 0 < price < ONE && size > 0
    ensures Uncrossed(orders + [Order(user, side, price, size, 0, Open)])
            <==> Liquidity(orders, Opposite(side), ONE - price) == 0
  {
    var o := Order(user, side, price, size, 0, Open);
    var after := orders + [o];
    var xs := OfferedEach(orders, Opposite(side), ONE - price);
    var zeros := seq(|xs|, i => 0);
    SumZero(zeros);
    if k :| 0 <= k < |orders| && xs[k] > 0 {
      SumLt(zeros, xs, k);
      assert Compatible(after[k].price, after[|orders|].price);
    } else {
      SumZero(xs);
      forall i, j | 0 <= i < |after| && 0 <= j < |after| && OnBook(after[i], Yes) && OnBook(after[j], No)
        ensures !Compatible(after[i].price, after[j].price)
      {
        var k := if i == |orders| then j else i;
        assert k < |orders| ==> xs[k] <= 0 && OrderOk(orders[k]);
      }
    }
  }
}
