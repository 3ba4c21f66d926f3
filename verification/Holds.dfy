/** Results over every run about the order table: the uncrossed book, the match ledger, holds and refunds. */
module Holds {
  import opened Types
  import opened Sums
  import opened Money
  import opened Book
  import opened Ledger
  import opened Market

  // ---------------------------------------------------------------- orders and matches

  /** After any run no open YES order and open NO order could trade with each other. */
  lemma BookIsNeverCrossed(s: State, i: nat, j: nat)
    requires Reachable(s)
    ensures var orders := s.orders;
            i < |orders| && j < |orders| && OnBook(orders[i], Yes) && OnBook(orders[j], No)
            ==> orders[i].price + orders[j].price < ONE && Remainder(orders[i]) > 0 && Remainder(orders[j]) > 0
  {
    ReachableInv(s);
  }

  /** Every order's fill is the sum of the matches naming it, and the two sides fill alike. */
  lemma FillsAreMatches(s: State, i: nat)
    requires Reachable(s)
    ensures (i < |s.orders| ==>
                  && s.orders[i].filled == MatchedFor(s.matches, i)
                  && 0 <= s.orders[i].filled <= s.orders[i].size
                  && (s.orders[i].status == Open ==> s.orders[i].filled < s.orders[i].size))
    ensures TotalFilled(s.orders, Yes) == TotalFilled(s.orders, No) == TotalMatched(s.matches)
  {
    ReachableInv(s);
  }

  /** Every match was within both limits: the pair is compatible and executes at the maker's price. */
  lemma MatchesRespectTheLimits(s: State, k: nat)
    requires Reachable(s)
    ensures k < |s.matches| ==>
              && RefsOk(s.orders, s.matches[k])
              && s.orders[s.matches[k].maker].price == s.matches[k].price
              && s.orders[s.matches[k].maker].price + s.orders[s.matches[k].taker].price >= ONE
  {
    ReachableInv(s);
  }

  // ---------------------------------------------------------------- leaving the book

  /** What the status of an order says about it. */
  predicate StatusMeans(o: Order, trading: bool)
  {
    && (o.status == Open ==> o.filled < o.size)
    && (o.status == Cancelled ==> o.filled < o.size)
    && (o.status == Filled ==> o.filled > 0 && (trading ==> o.filled == o.size))
  }

  /**
   An order leaves the book in one of three ways: it fills up, its owner withdraws it,
   or it is refunded after trading has stopped, and then it counts as filled if any of
   it ever filled and as cancelled if not.
   */
  lemma LeavesTheBook(s: State, e: Event, i: nat)
    requires Inv(s) && i < |s.orders| && s.orders[i].status == Open
    ensures i < |Apply(s, e).orders|
    ensures var o, t := s.orders[i], Apply(s, e).orders[i];
            t.status != Open ==>
              || (e.Submit? && t.status == Filled && t.filled == t.size)
              || (e.Withdraw? && e.order == i && e.user == o.user && t == o.(status := Cancelled))
              || (e.RefundRest? && e.order == i && e.outcome == Acked && !s.trading
                  && t == o.(status := if o.filled > 0 then Filled else Cancelled))
  {
    if e.Submit? && s.trading && 0 < e.price < ONE && e.size > 0 {
      PlaceFills(s.orders, e.user, e.side, e.price, e.size, i);
    }
  }

  /** An order off the book never changes again. */
  lemma OffTheBookStays(s: State, e: Event, i: nat)
    requires Inv(s) && i < |s.orders| && s.orders[i].status != Open
    ensures i < |Apply(s, e).orders| && Apply(s, e).orders[i] == s.orders[i]
  {
    if e.Submit? && s.trading && 0 < e.price < ONE && e.size > 0 {
      PlaceFills(s.orders, e.user, e.side, e.price, e.size, i);
    }
  }

  lemma StepKeepsStatus(s: State, e: Event, i: nat)
    requires Inv(s) && i < |Apply(s, e).orders|
    requires i < |s.orders| ==> StatusMeans(s.orders[i], s.trading)
    ensures StatusMeans(Apply(s, e).orders[i], Apply(s, e).trading)
  {
    if e.Submit? && s.trading && 0 < e.price < ONE && e.size > 0 {
      if i < |s.orders| {
        PlaceFills(s.orders, e.user, e.side, e.price, e.size, i);
      } else {
        NewRowIs(s.orders, e.user, e.side, e.price, e.size);
      }
    } else if e.RefundRest? || e.Withdraw? {
      assert OrderOk(s.orders[i]);
    }
  }

  lemma {:induction false} RunsKeepStatus(es: seq<Event>, i: nat)
    ensures i < |After(INIT, es).orders| ==> StatusMeans(After(INIT, es).orders[i], After(INIT, es).trading)
  {
    if |es| > 0 && i < |After(INIT, es).orders| {
      RunsKeepStatus(es[..|es| - 1], i);
      InitInv();
      RunsKeepInv(INIT, es[..|es| - 1]);
      StepKeepsStatus(After(INIT, es[..|es| - 1]), es[|es| - 1], i);
    }
  }

  /**
   In every reachable state: open and cancelled orders have something left, a filled one
   has filled something, and while trading all of it.
   */
  lemma StatusesAreTrue(s: State, i: nat)
    requires Reachable(s) && i < |s.orders|
    ensures StatusMeans(s.orders[i], s.trading)
    ensures s.orders[i].filled == s.orders[i].size ==> s.orders[i].status == Filled
  {
    var es :| s == End(INIT, es);
    ReachedIsAfter(INIT, es, s);
    RunsKeepStatus(es, i);
    ReachableInv(s);
    assert OrderOk(s.orders[i]);
  }

  // ---------------------------------------------------------------- releases

  /** How often an order's remainder has been released on an occasion. */
  function Releases(unlocks: seq<Unlock>, order: nat, occasion: Occasion): nat
  {
    if |unlocks| == 0 then 0
    else
      var n := |unlocks| - 1;
      Releases(unlocks[..n], order, occasion)
      + if unlocks[n].order == order && unlocks[n].occasion == occasion then 1 else 0
  }

  /** How often it has been released at all. */
  function AllReleases(unlocks: seq<Unlock>, order: nat): nat
  {
    Releases(unlocks, order, ByOwner) + Releases(unlocks, order, AtLock)
  }

  lemma ReleasesPush(unlocks: seq<Unlock>, u: Unlock, order: nat, occasion: Occasion)
    ensures Releases(unlocks + [u], order, occasion)
            == Releases(unlocks, order, occasion) + if u.order == order && u.occasion == occasion then 1 else 0
  {
    assert (unlocks + [u])[..|unlocks|] == unlocks;
  }

  lemma {:induction false} OncePerOccasion(unlocks: seq<Unlock>, order: nat, occasion: Occasion)
    requires forall j, k :: 0 <= j < k < |unlocks| && unlocks[j].occasion == unlocks[k].occasion ==>
               unlocks[j].order != unlocks[k].order
    ensures Releases(unlocks, order, occasion) <= 1
    ensures Releases(unlocks, order, occasion) == 0
            <==> forall k :: 0 <= k < |unlocks| && unlocks[k].occasion == occasion ==> unlocks[k].order != order
  {
    if |unlocks| > 0 {
      OncePerOccasion(unlocks[..|unlocks| - 1], order, occasion);
    }
  }

  /** The event cancels order i, and the release of its remainder arrives. */
  predicate CancelLands(s: State, e: Event, i: nat)
  {
    && e.Withdraw? && e.order == i && e.outcome != NeverArrived
    && i < |s.orders| && s.orders[i].user == e.user && s.orders[i].status == Open
  }

  /** The event is the visit of the refund loop to order i, and the release of its remainder arrives. */
  predicate RefundLands(s: State, e: Event, i: nat)
  {
    e.RefundRest? && e.order == i && e.outcome != NeverArrived && ToRefund(s, i)
  }

  predicate Lands(s: State, e: Event, i: nat, occasion: Occasion)
  {
    if occasion == ByOwner then CancelLands(s, e, i) else RefundLands(s, e, i)
  }

  /** Somewhere in the run the release of that occasion arrives. */
  ghost predicate LandedIn(es: seq<Event>, i: nat, occasion: Occasion)
  {
    |es| > 0 && (LandedIn(es[..|es| - 1], i, occasion) || Lands(After(INIT, es[..|es| - 1]), es[|es| - 1], i, occasion))
  }

  /** The releases after a step: one more if one landed, of that order and occasion. */
  lemma StepUnlocks(s: State, e: Event)
    ensures var after := Apply(s, e).unlocks;
            && (e.Withdraw? ==>
                  after == if CancelLands(s, e, e.order)
                           then s.unlocks + [Unlock(e.order, RefundRaw(s.orders[e.order]), ByOwner)] else s.unlocks)
            && (e.RefundRest? ==>
                  after == if RefundLands(s, e, e.order)
                           then s.unlocks + [Unlock(e.order, RefundRaw(s.orders[e.order]), AtLock)] else s.unlocks)
            && (!e.Withdraw? && !e.RefundRest? ==> after == s.unlocks)
  {
  }

  lemma StepReleases(s: State, e: Event, i: nat, occasion: Occasion)
    ensures Releases(Apply(s, e).unlocks, i, occasion)
            == Releases(s.unlocks, i, occasion) + if Lands(s, e, i, occasion) then 1 else 0
  {
    var before := s.unlocks;
    StepUnlocks(s, e);
    if e.Withdraw? && CancelLands(s, e, e.order) {
      ReleasesPush(before, Unlock(e.order, RefundRaw(s.orders[e.order]), ByOwner), i, occasion);
    } else if e.RefundRest? && RefundLands(s, e, e.order) {
      ReleasesPush(before, Unlock(e.order, RefundRaw(s.orders[e.order]), AtLock), i, occasion);
    }
  }

  lemma {:induction false} ReleasesAreLandings(es: seq<Event>, i: nat, occasion: Occasion)
    ensures Releases(After(INIT, es).unlocks, i, occasion) == if LandedIn(es, i, occasion) then 1 else 0
  {
    if |es| > 0 {
      ReleasesAreLandings(es[..|es| - 1], i, occasion);
      StepReleases(After(INIT, es[..|es| - 1]), es[|es| - 1], i, occasion);
      InitInv();
      RunsKeepInv(INIT, es);
      OncePerOccasion(After(INIT, es).unlocks, i, occasion);
    }
  }

  /**
   Over every run: an order's remainder is released at most twice, and twice
   exactly when both its refund at round lock and its owner's cancellation got
   their release through.
   */
  lemma ReleasedTwiceIff(es: seq<Event>, s: State, i: nat)
    requires Reached(INIT, es, s)
    ensures AllReleases(s.unlocks, i) <= 2
    ensures AllReleases(s.unlocks, i) == 2 <==> LandedIn(es, i, ByOwner) && LandedIn(es, i, AtLock)
    ensures AllReleases(s.unlocks, i) == 0 <==> !LandedIn(es, i, ByOwner) && !LandedIn(es, i, AtLock)
  {
    ReachedIsAfter(INIT, es, s);
    ReleasesAreLandings(es, i, ByOwner);
    ReleasesAreLandings(es, i, AtLock);
  }

  /** What a release leaves to be seen of its order. */
  lemma ReleasesShow(s: State, i: nat)
    requires Inv(s)
    ensures Releases(s.unlocks, i, ByOwner) <= 1 && Releases(s.unlocks, i, AtLock) <= 1
    ensures Releases(s.unlocks, i, ByOwner) > 0 ==> i < |s.orders| && s.orders[i].status == Cancelled
    ensures Releases(s.unlocks, i, AtLock) > 0 ==> s.listing.Listed? && i !in s.listing.left
  {
    OncePerOccasion(s.unlocks, i, ByOwner);
    OncePerOccasion(s.unlocks, i, AtLock);
    forall k | 0 <= k < |s.unlocks| ensures UnlockOk(s.unlocks[k], s.orders, s.trading, s.listing) {
    }
  }

  /**
   What the two callers could look at first.  A refund whose order is still open,
   and a cancellation whose order the refund loop has not passed yet, is the first
   release of that order; in any case no call is more than the second.
   */
  lemma FirstReleaseGuards(s: State, e: Event, i: nat)
    requires Reachable(s) && (CancelLands(s, e, i) || RefundLands(s, e, i))
    ensures AllReleases(Apply(s, e).unlocks, i) == AllReleases(s.unlocks, i) + 1 <= 2
    ensures RefundLands(s, e, i) && s.orders[i].status == Open ==> AllReleases(s.unlocks, i) == 0
    ensures CancelLands(s, e, i) && (s.listing.Unlisted? || i in s.listing.left) ==> AllReleases(s.unlocks, i) == 0
  {
    ReachableInv(s);
    StepReleases(s, e, i, ByOwner);
    StepReleases(s, e, i, AtLock);
    ReleasesShow(s, i);
  }

  lemma TwoStepReleases(s: State, e: Event, f: Event, i: nat)
    ensures AllReleases(After(s, [e, f]).unlocks, i)
            == AllReleases(s.unlocks, i)
               + (if CancelLands(s, e, i) || RefundLands(s, e, i) then 1 else 0)
               + (if CancelLands(Apply(s, e), f, i) || RefundLands(Apply(s, e), f, i) then 1 else 0)
  {
    ReachedInTwo(s, e, f);
    ReachedIsAfter(s, [e, f], Apply(Apply(s, e), f));
    StepReleases(s, e, i, ByOwner);
    StepReleases(s, e, i, AtLock);
    StepReleases(Apply(s, e), f, i, ByOwner);
    StepReleases(Apply(s, e), f, i, AtLock);
  }

  /** A refund, then a cancellation: two releases exactly when the refund's reply is lost and the other arrives. */
  lemma RefundThenCancel(s: State, i: nat, o1: Outcome, o2: Outcome)
    requires ToRefund(s, i) && s.orders[i].status == Open
    ensures var t := After(s, [RefundRest(i, o1), Withdraw(i, s.orders[i].user, o2)]);
            AllReleases(t.unlocks, i) == AllReleases(s.unlocks, i) + 2 <==> o1 == ReplyLost && o2 != NeverArrived
  {
    TwoStepReleases(s, RefundRest(i, o1), Withdraw(i, s.orders[i].user, o2), i);
  }

  /** A cancellation after the listing, then the refund: two releases exactly when both arrive, fault or no fault. */
  lemma CancelThenRefund(s: State, i: nat, o1: Outcome, o2: Outcome)
    requires ToRefund(s, i) && s.orders[i].status == Open
    ensures var t := After(s, [Withdraw(i, s.orders[i].user, o1), RefundRest(i, o2)]);
            AllReleases(t.unlocks, i) == AllReleases(s.unlocks, i) + 2 <==> o1 != NeverArrived && o2 != NeverArrived
  {
    TwoStepReleases(s, Withdraw(i, s.orders[i].user, o1), RefundRest(i, o2), i);
  }

  /** The refund loop alone never releases an order twice. */
  lemma RefundTwiceReleasesOnce(s: State, i: nat, o1: Outcome, o2: Outcome)
    ensures var t := After(s, [RefundRest(i, o1), RefundRest(i, o2)]);
            AllReleases(t.unlocks, i)
            == AllReleases(s.unlocks, i) + if RefundLands(s, RefundRest(i, o1), i) then 1 else 0
  {
    TwoStepReleases(s, RefundRest(i, o1), RefundRest(i, o2), i);
  }

  /** A refund is within the hold, and what it leaves is the filled part, give or take one raw unit. */
  predicate AccountsForTheHold(o: Order, refund: int)
  {
    var hold := HoldRaw(o.side, o.price, o.size);
    && 0 <= refund <= hold
    && 0 <= hold - refund - HoldRaw(o.side, o.price, o.filled) <= 1
  }

  lemma RefundAccountsForTheHold(o: Order)
    requires OrderOk(o)
    ensures AccountsForTheHold(o, RefundRaw(o))
  {
    RefundIsHoldOfRemainder(o);
    RefundConserves(o.side, o.price, o.size, o.filled);
  }

  /** The hold splits into the refund and the filled part, to within one raw unit. */
  lemma HoldIsRefundPlusFill(s: State, k: nat)
    requires Reachable(s)
    ensures k < |s.unlocks| ==>
              && s.unlocks[k].order < |s.orders|
              && AccountsForTheHold(s.orders[s.unlocks[k].order], s.unlocks[k].raw)
  {
    ReachableInv(s);
    if k < |s.unlocks| {
      assert UnlockOk(s.unlocks[k], s.orders, s.trading, s.listing);
      RefundAccountsForTheHold(s.orders[s.unlocks[k].order]);
    }
  }

  // ---------------------------------------------------------------- orders that only rested

  /** The fills an order made as maker. */
  function MakerFills(matches: seq<Match>, order: nat): seq<Match>
  {
    if |matches| == 0 then []
    else
      var n := |matches| - 1;
      var front := MakerFills(matches[..n], order);
      if matches[n].maker == order then front + [matches[n]] else front
  }

  /** Exact maker costs of a list of fills. */
  function CostEach(fills: seq<Match>): (xs: seq<int>)
    ensures |xs| == |fills|
  {
    seq(|fills|, i requires 0 <= i < |fills| => SplitOf(fills[i].makerSide, fills[i].price, fills[i].size).makerCost)
  }

  predicate OnlyMaker(matches: seq<Match>, order: nat)
  {
    forall k :: 0 <= k < |matches| ==> matches[k].taker != order
  }

  lemma {:induction false} MakerFillsAreAll(orders: seq<Order>, matches: seq<Match>, i: nat)
    requires i < |orders| && OnlyMaker(matches, i) && AllMatchesOk(matches) && AllRefsOk(orders, matches)
    ensures TotalMatched(MakerFills(matches, i)) == MatchedFor(matches, i)
    ensures forall k :: 0 <= k < |MakerFills(matches, i)| ==>
                          && MatchOk(MakerFills(matches, i)[k])
                          && MakerFills(matches, i)[k].makerSide == orders[i].side
                          && MakerFills(matches, i)[k].price == orders[i].price
  {
    if |matches| > 0 {
      var n := |matches| - 1;
      var front := MakerFills(matches[..n], i);
      MakerFillsAreAll(orders, matches[..n], i);
      assert MatchOk(matches[n]) && RefsOk(orders, matches[n]);
      assert MatchSizes(front + [matches[n]]) == MatchSizes(front) + [matches[n].size];
      SumPush(MatchSizes(front), matches[n].size);
    } else {
      assert TotalMatched([]) == 0;
    }
  }

  lemma CostIsScaledSize(side: Side, price: int, size: int)
    requires 0 < price < ONE && size > 0
    ensures SplitOf(side, price, size).makerCost == (Rate(side, price) * GRAINS_PER_COST) * size
    ensures SplitOf(side, price, size).makerCost >= 0
  {
    SplitNonNegative(side, price, size);
    var r := Rate(side, price);
    assert (r * GRAINS_PER_COST) * size == (r * size) * GRAINS_PER_COST;
  }

  /** Exact costs add up to the hold of the filled part. */
  lemma CostsAreTheHold(fills: seq<Match>, side: Side, price: int)
    requires forall k :: 0 <= k < |fills| ==> MatchOk(fills[k]) && fills[k].makerSide == side && fills[k].price == price
    ensures forall k :: 0 <= k < |fills| ==> CostEach(fills)[k] >= 0
    ensures Sum(CostEach(fills)) == HoldGrains(side, price, TotalMatched(fills))
  {
    var c := Rate(side, price) * GRAINS_PER_COST;
    forall k | 0 <= k < |fills| ensures CostEach(fills)[k] == c * MatchSizes(fills)[k] && CostEach(fills)[k] >= 0 {
      CostIsScaledSize(side, price, fills[k].size);
    }
    SumScale(MatchSizes(fills), CostEach(fills), c);
    Regroup(Rate(side, price), TotalMatched(fills));
  }

  lemma Regroup(rate: int, size: int)
    ensures (rate * GRAINS_PER_COST) * size == rate * size * GRAINS_PER_COST
  {
  }

  lemma HoldAdds(side: Side, price: int, a: int, b: int)
    ensures HoldGrains(side, price, a + b) == HoldGrains(side, price, a) + HoldGrains(side, price, b)
  {
    assert Rate(side, price) * (a + b) == Rate(side, price) * a + Rate(side, price) * b;
  }

  /** What is left of a hold after a refund and n truncated costs: at most one raw unit a cost. */
  predicate LeavesAtMost(hold: int, refund: int, paid: int, n: nat)
  {
    0 <= hold - refund - paid <= n
  }

  /**
   For an order filled n times, only as maker, and then released: what was held,
   less the refund, less the truncated cost of each fill, lies between 0 and n.
   */
  lemma RestingOrderAccount(s: State, k: nat)
    requires Reachable(s)
    requires k < |s.unlocks| && OnlyMaker(s.matches, s.unlocks[k].order)
    ensures s.unlocks[k].order < |s.orders|
    ensures var i := s.unlocks[k].order;
            var costs := CostEach(MakerFills(s.matches, i));
            LeavesAtMost(HoldRaw(s.orders[i].side, s.orders[i].price, s.orders[i].size), s.unlocks[k].raw,
                            Sum(RawEach(costs)), |costs|)
  {
    ReachableInv(s);
    assert UnlockOk(s.unlocks[k], s.orders, s.trading, s.listing);
    var i := s.unlocks[k].order;
    var fills := MakerFills(s.matches, i);
    MakerFillsAreAll(s.orders, s.matches, i);
    CostsAreTheHold(fills, s.orders[i].side, s.orders[i].price);
    PartsOfAHold(s.orders[i], CostEach(fills));
  }

  lemma PartsOfAHold(o: Order, costs: seq<int>)
    requires OrderOk(o) && (forall k :: 0 <= k < |costs| ==> costs[k] >= 0)
    requires Sum(costs) == HoldGrains(o.side, o.price, o.filled)
    ensures LeavesAtMost(HoldRaw(o.side, o.price, o.size), RefundRaw(o), Sum(RawEach(costs)), |costs|)
  {
    var rest := HoldGrains(o.side, o.price, Remainder(o));
    RefundIsHoldOfRemainder(o);
    HoldAdds(o.side, o.price, o.filled, Remainder(o));
    HoldNonNegative(o.side, o.price, Remainder(o));
    TruncatedParts(costs, rest, HoldGrains(o.side, o.price, o.size));
  }

  lemma HoldNonNegative(side: Side, price: int, size: int)
    requires 0 < price < ONE && size >= 0
    ensures HoldGrains(side, price, size) >= 0
  {
    assert Rate(side, price) * size >= 0;
  }

  lemma TruncatedParts(costs: seq<int>, rest: int, whole: int)
    requires rest >= 0 && forall k :: 0 <= k < |costs| ==> costs[k] >= 0
    requires whole == Sum(costs) + rest
    ensures LeavesAtMost(ToRawUnits(whole), ToRawUnits(rest), Sum(RawEach(costs)), |costs|)
  {
    RawEachBounds(costs);
    var cost, pieces := Sum(costs), Sum(RawEach(costs));
    if |costs| > 0 {
      LastPart(cost, rest, pieces, |costs|);
    } else {
      assert cost == 0 && pieces == 0;
    }
  }

  lemma LastPart(cost: int, rest: int, pieces: int, n: nat)
    requires cost >= 0 && rest >= 0 && pieces <= ToRawUnits(cost) <= pieces + n - 1
    ensures LeavesAtMost(ToRawUnits(cost + rest), ToRawUnits(rest), pieces, n)
  {
    RawOfSum(cost, rest);
  }
}
