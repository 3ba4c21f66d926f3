/**
 The manager's bookkeeping over one window's tables: the reconciliation sweep
 over stale pending rows, and the refund of open orders when the round locks.
 */
module Sweeper {
  import opened Types
  import opened Money
  import opened Book
  import opened Ledger
  import opened Market
  import opened Protocol
  import opened Tables
  import opened Funding
  import opened Matching
  import opened Payout

  /** An order after a round lock that refunded it. */
  function Refunded(o: Order): Order
  {
    if o.status == Open && Remainder(o) > 0 then o.(status := RefundedStatus(o)) else o
  }

  function RefundEach(orders: seq<Order>, n: nat): (r: seq<Order>)
    requires n <= |orders|
    ensures |r| == |orders|
    ensures forall i :: 0 <= i < |r| ==> r[i] == if i < n then Refunded(orders[i]) else orders[i]
  {
    seq(|orders|, i requires 0 <= i < |orders| => if i < n then Refunded(orders[i]) else orders[i])
  }

  /** The releases of an undisturbed refund loop over the first n orders. */
  ghost function ReleasesOf(orders: seq<Order>, n: nat): seq<Unlock>
    requires n <= |orders|
  {
    if n == 0 then []
    else
      var o := orders[n - 1];
      ReleasesOf(orders, n - 1)
      + if o.status == Open && Remainder(o) > 0 then [Unlock(n - 1, RefundRaw(o), AtLock)] else []
  }

  lemma LockReached(s: State)
    ensures Reached(s, [], s) && Reached(s, [LockRound], ApplyLock(s))
    ensures s.listing.Unlisted? ==>
              Reached(s, [LockRound, ListOpen], s.(trading := false, listing := Listed(OpenOrders(s.orders))))
  {
    ReachedInTwo(s, LockRound, ListOpen);
  }

  predicate IsLockRun(es: seq<Event>)
  {
    |es| >= 2 && es[..2] == [LockRound, ListOpen] && forall k :: 2 <= k < |es| ==> es[k].RefundRest?
  }

  /** How far the refund loop is: the orders ahead are untouched, and so far all went well or not. */
  ghost predicate RefundedSoFar(open: seq<Order>, i: nat, all: bool, orders: seq<Order>, released: seq<Unlock>)
  {
    && i <= |open| == |orders|
    && (forall j :: i <= j < |open| ==> orders[j] == open[j])
    && (all ==> orders == RefundEach(open, i) && released == ReleasesOf(open, i))
  }

  /** What a list of releases gives back to one user. */
  function ReleasedTo(released: seq<Unlock>, orders: seq<Order>, user: User): int
    requires forall k :: 0 <= k < |released| ==> released[k].order < |orders|
  {
    if |released| == 0 then 0
    else
      var n := |released| - 1;
      ReleasedTo(released[..n], orders, user) + if orders[released[n].order].user == user then released[n].raw else 0
  }

  /** Since `before`, every user's hold has gone down by what the releases gave back, and by nothing else. */
  ghost predicate HoldsWentDown(before: map<User, int>, after: map<User, int>, released: seq<Unlock>,
                                orders: seq<Order>)
  {
    && (forall k :: 0 <= k < |released| ==> released[k].order < |orders|)
    && forall u :: Held(after, u) == Held(before, u) - ReleasedTo(released, orders, u)
  }

  lemma OneMoreRelease(before: map<User, int>, held: map<User, int>, released: seq<Unlock>, orders: seq<Order>, i: nat,
                       outcome: Outcome)
    requires HoldsWentDown(before, held, released, orders) && i < |orders|
    ensures var o := orders[i];
            HoldsWentDown(before,
                          if outcome == NeverArrived then held else held[o.user := Held(held, o.user) - RefundRaw(o)],
                          released + Gone(o, i, outcome), orders)
  {
    if outcome == NeverArrived {
      assert released + [] == released;
    } else {
      assert (released + Gone(orders[i], i, outcome))[..|released|] == released;
    }
  }

  lemma SkipsOne(open: seq<Order>, i: nat, all: bool, orders: seq<Order>, released: seq<Unlock>)
    requires RefundedSoFar(open, i, all, orders, released) && i < |open|
    requires !(open[i].status == Open && Remainder(open[i]) > 0)
    ensures RefundedSoFar(open, i + 1, all, orders, released)
  {
    assert RefundEach(open, i + 1) == RefundEach(open, i);
  }

  /** The releases and the table after refunding listed order i. */
  ghost function Gone(o: Order, i: nat, outcome: Outcome): seq<Unlock>
  {
    if outcome == NeverArrived then [] else [Unlock(i, RefundRaw(o), AtLock)]
  }

  function Closed(orders: seq<Order>, i: nat, outcome: Outcome): seq<Order>
    requires i < |orders|
  {
    if outcome == Acked && orders[i].status == Open then orders[i := orders[i].(status := RefundedStatus(orders[i]))]
    else orders
  }

  lemma RefundsOne(open: seq<Order>, i: nat, all: bool, orders: seq<Order>, released: seq<Unlock>, outcome: Outcome)
    requires RefundedSoFar(open, i, all, orders, released) && i < |open|
    requires open[i].status == Open && Remainder(open[i]) > 0
    ensures RefundedSoFar(open, i + 1, all && outcome == Acked, Closed(orders, i, outcome),
                          released + Gone(open[i], i, outcome))
  {
    assert RefundEach(open, i + 1) == RefundEach(open, i)[i := Refunded(open[i])];
  }

  /** The first k rows have been swept without a fault. */
  ghost predicate SweptUpTo(start: State, stale: seq<nat>, k: nat, es: seq<Event>, qs: seq<Position>)
  {
    RecordedUpTo(start.positions, start.matches, stale, k, qs) && es == SweepCalls(|start.attempts|, stale[..k])
  }

  lemma SweptOneMore(start: State, stale: seq<nat>, k: nat, es: seq<Event>, qs: seq<Position>, call: seq<Event>)
    requires SweptUpTo(start, stale, k, es, qs) && k < |stale|
    requires Records(qs, start.matches[stale[k]]) && call == CleanCall(|start.attempts| + k, stale[k])
    ensures SweptUpTo(start, stale, k + 1, es + call, ApplyFill(qs, start.matches[stale[k]]))
  {
    NextCall(|start.attempts|, stale, k);
    OneMoreRecorded(start.positions, start.matches, stale, k, qs);
  }

  lemma WholeSweep(start: State, stale: seq<nat>, es: seq<Event>, t: State)
    requires SweptUpTo(start, stale, |stale|, es, t.positions) && Reached(start, es, t)
    ensures es == SweepCalls(|start.attempts|, stale) && AreRows(stale, start.matches) && Swept(start, t, stale)
  {
    assert stale[..|stale|] == stale;
    SweepEmptiesItsRows(start, stale, t);
  }

  /** What the refund loop makes of an open order: cancelled if nothing of it filled, filled otherwise, and no more. */
  predicate ClosedRightly(o: Order, t: Order)
  {
    && t.user == o.user && t.side == o.side && t.price == o.price && t.size == o.size && t.filled == o.filled
    && (t.status == Cancelled <==> o.filled <= 0)
    && (t.status == Filled <==> o.filled > 0)
  }

  /** Every order that was open with anything left has been closed so, and every other one is as it was. */
  predicate AllClosedRightly(before: seq<Order>, after: seq<Order>)
  {
    && |after| == |before|
    && (forall i :: 0 <= i < |before| && before[i].status == Open && before[i].filled < before[i].size ==>
          ClosedRightly(before[i], after[i]))
    && (forall i :: 0 <= i < |before| && !(before[i].status == Open && before[i].filled < before[i].size) ==>
          after[i] == before[i])
  }

  /** What an undisturbed settlement at `price` leaves behind. */
  predicate PaidOut(ps: seq<Position>, winner: Side, n: nat, paid: set<nat>, payments: seq<Payment>, total: int)
  {
    && n <= |ps|
    && paid == MarkedOf(ps, winner, n)
    && payments == PaymentsOf(ps, winner, n)
    && total == TotalOf(ps, winner, n)
  }

  /** Payments have only been added to, and each new one is due. */
  predicate OnlyDue(ps: seq<Position>, price: int, target: int, before: seq<Payment>, after: seq<Payment>)
  {
    before <= after && forall k :: |before| <= k < |after| ==> Owes(ps, price, target, after[k])
  }

  /** Every holder of a row of the side that won has been credited once. */
  predicate EachWinnerOnce(ps: seq<Position>, price: int, target: int, payments: seq<Payment>)
  {
    forall i :: 0 <= i < |ps| && ps[i].shares > 0 && (ps[i].side == Yes <==> price >= target) ==>
      TimesPaid(payments, i) == 1
  }

  lemma PaidOutMeans(ps: seq<Position>, price: int, target: int, paid: set<nat>, payments: seq<Payment>, total: int)
    requires PaidOut(ps, Winner(price, target), |ps|, paid, payments, total)
    ensures EachWinnerOnce(ps, price, target, payments)
    ensures total == Owed(ps, if price >= target then Yes else No)
  {
    forall i | 0 <= i < |ps| && ps[i].shares > 0 && (ps[i].side == Yes <==> price >= target)
      ensures TimesPaid(payments, i) == 1
    {
      WalkCreditsEachOnce(ps, price, target, |ps|, i);
    }
    UndisturbedPayout(ps, Winner(price, target));
  }

  class Manager {
    const matcher: Matcher
    // The window row's resolution, the paid_out column, the credits the backend applied, and the settlements table.
    var resolution: Resolution
    var paid: set<nat>
    var payments: seq<Payment>
    var settlements: seq<Settlement>
    ghost var passes: seq<Pass>

    constructor (m: Matcher)
      ensures matcher == m && resolution == Unresolved && paid == {} && payments == [] && settlements == []
              && passes == []
    {
      matcher := m;
      resolution, paid, payments, settlements, passes := Unresolved, {}, [], [], [];
    }

    ghost function WindowView(): Window
      reads this, matcher, matcher.repo, matcher.client
    {
      Window(matcher.View(), resolution, paid, payments, settlements, passes)
    }

    /**
     Retries every stale pending row, in order; a row that fails again stays for
     the next tick.  A sweep in which nothing fails erases all of them.
     */
    method ReconcilePendingFills(stale: seq<nat>, rows: seq<Match>) returns (all: bool, ghost es: seq<Event>)
      requires matcher.Valid() && RowsOf(stale, rows, matcher.repo.inserted)
      modifies matcher`attempts, matcher.client`movements, matcher.repo`positions, matcher.repo`fills,
               matcher.repo`settled,
               matcher.repo`pendingRows
      ensures matcher.Valid()
      ensures Reached(old(matcher.View()), es, matcher.View())
      ensures all ==> es == SweepCalls(old(|matcher.attempts|), stale)
      ensures all ==> matcher.repo.pendingRows.Keys == old(matcher.repo.pendingRows.Keys) - RowSet(stale)
      ensures all ==> matcher.repo.settled == old(matcher.repo.settled) + stale
    {
      ghost var start := matcher.View();
      var k := 0;
      all, es := true, [];
      ReachedIsAfter(start, [], start);
      assert stale[..0] == [];
      while k < |stale|
        invariant k <= |stale| && matcher.Valid()
        invariant matcher.repo.inserted == start.matches && |matcher.attempts| == |start.attempts| + k
        invariant Reached(start, es, matcher.View())
        invariant all ==> SweptUpTo(start, stale, k, es, matcher.repo.positions)
      {
        ghost var before := matcher.View();
        var ok;
        ghost var call;
        ok, call := matcher.SettleFillByPlan(stale[k], rows[k]);
        ReachedConcat(start, es, before, call, matcher.View());
        if all && ok {
          SweptOneMore(start, stale, k, es, before.positions, call);
        }
        all, es, k := all && ok, es + call, k + 1;
      }
      if all {
        WholeSweep(start, stale, es, matcher.View());
      }
    }

    /** Refunds what is left of a listed order, and closes it once the release was acknowledged. */
    method RefundOne(i: nat, o: Order, ghost start: State, ghost es: seq<Event>)
      returns (outcome: Outcome, ghost more: seq<Event>)
      requires matcher.Valid() && Reached(start, es, matcher.View())
      requires !matcher.repo.trading && matcher.listing.Listed? && i in matcher.listing.left
               && i < |matcher.repo.orders|
      requires o.(status := matcher.repo.orders[i].status) == matcher.repo.orders[i] && Remainder(o) > 0
      modifies matcher`listing, matcher`unlocks, matcher.client`held, matcher.repo`orders
      ensures matcher.Valid() && matcher.listing == Listed(old(matcher.listing.left) - {i})
      ensures Reached(start, more, matcher.View()) && more == es + [RefundRest(i, outcome)]
      ensures matcher.repo.orders == Closed(old(matcher.repo.orders), i, outcome)
      ensures outcome == Acked && old(matcher.repo.orders)[i].status == Open ==>
                ClosedRightly(o, matcher.repo.orders[i])
      ensures matcher.unlocks == old(matcher.unlocks) + Gone(old(matcher.repo.orders)[i], i, outcome)
      ensures matcher.client.held == if outcome == NeverArrived then old(matcher.client.held)
                                     else old(matcher.client.held)[
                                       o.user := Held(old(matcher.client.held), o.user) - RefundRaw(o)]
    {
      ghost var before := matcher.View();
      RefundIsHoldOfRemainder(o);
      var remaining := o.size - o.filled;
      var refund := o.price * remaining;
      if o.side == No {
        refund := (ONE - o.price) * remaining;
      }
      outcome := matcher.client.Unlock(o.user, ToRawUnits(refund * GRAINS_PER_COST));
      if outcome == Acked {
        var closing := matcher.repo.Commit();
        if closing == NeverArrived {
          outcome := ReplyLost;
        } else {
          var newStatus := if o.filled > 0 then Filled else Cancelled;
          matcher.repo.CloseRefundedOrder(i, newStatus);
        }
      }
      ghost var current := before.orders[i];
      if outcome != NeverArrived {
        matcher.unlocks := matcher.unlocks + [Unlock(i, RefundRaw(current), AtLock)];
      }
      matcher.listing := Listed(matcher.listing.left - {i});
      assert matcher.View() == ApplyRefund(before, i, outcome);
      ReachedPush(start, es, before, RefundRest(i, outcome));
      more := es + [RefundRest(i, outcome)];
    }

    /** The refund loop is at row i of its listing. */
    ghost predicate Refunding(open: seq<Order>, i: nat, all: bool,
                              start: State, es: seq<Event>, released: seq<Unlock>, held: map<User, int>)
      reads matcher, matcher.repo, matcher.client
    {
      && matcher.Valid() && !matcher.repo.trading && matcher.listing.Listed?
      && (forall j :: i <= j < |open| && open[j].status == Open ==> j in matcher.listing.left)
      && Reached(start, es, matcher.View()) && IsLockRun(es)
      && matcher.unlocks == start.unlocks + released
      && RefundedSoFar(open, i, all, matcher.repo.orders, released)
      && HoldsWentDown(held, matcher.client.held, released, open)
    }

    /** One turn of the refund loop. */
    method RefundTurn(i: nat, open: seq<Order>, all: bool,
                      ghost start: State, ghost es: seq<Event>, ghost released: seq<Unlock>, ghost held: map<User, int>)
      returns (all': bool, ghost more: seq<Event>, ghost released': seq<Unlock>)
      requires i < |open| && Refunding(open, i, all, start, es, released, held)
      modifies matcher`listing, matcher`unlocks, matcher.client`held, matcher.repo`orders
      ensures Refunding(open, i + 1, all', start, more, released', held)
    {
      all', more, released' := all, es, released;
      if open[i].status == Open && open[i].size - open[i].filled > 0 {
        ghost var before, orders := matcher.client.held, matcher.repo.orders;
        var outcome;
        outcome, more := RefundOne(i, open[i], start, es);
        RefundsOne(open, i, all, orders, released, outcome);
        OneMoreRelease(held, before, released, open, i, outcome);
        released' := released + Gone(open[i], i, outcome);
        all' := all && outcome == Acked;
      } else {
        SkipsOne(open, i, all, matcher.repo.orders, released);
      }
    }

    /**
     Locks an open round and refunds every open remainder; it goes no further than
     the lock unless it hears of it, and no further than the listing unless that
     answers.  Every user's hold goes down by what the recorded releases say; when
     every call goes through, each open order has left the book with its status
     decided by whether it ever filled, and each was released exactly once.
     */
    method LockAndRefund() returns (locked: Outcome, all: bool, ghost es: seq<Event>, ghost released: seq<Unlock>)
      requires matcher.Valid() && matcher.repo.trading && matcher.listing.Unlisted?
      modifies matcher`listing, matcher`unlocks, matcher.client`held, matcher.repo`orders, matcher.repo`trading
      ensures matcher.Valid() && Reached(old(matcher.View()), es, matcher.View())
      ensures locked == NeverArrived <==> es == []
      ensures locked == ReplyLost ==> es == [LockRound]
      ensures locked == Acked ==> es == [LockRound] || IsLockRun(es)
      ensures locked == Acked <== all
      ensures matcher.unlocks == old(matcher.unlocks) + released
      ensures HoldsWentDown(old(matcher.client.held), matcher.client.held, released, old(matcher.repo.orders))
      ensures all ==> matcher.repo.orders == RefundEach(old(matcher.repo.orders), |old(matcher.repo.orders)|)
      ensures all ==> AllClosedRightly(old(matcher.repo.orders), matcher.repo.orders)
      ensures all ==> released == ReleasesOf(old(matcher.repo.orders), |old(matcher.repo.orders)|)
    {
      ghost var start, held := matcher.View(), matcher.client.held;
      LockReached(start);
      all, es, released := false, [], [];
      locked := matcher.repo.Commit();
      if locked == NeverArrived {
        return;
      }
      matcher.repo.trading := false;
      es := [LockRound];
      var answer := matcher.repo.Commit();
      if locked == ReplyLost || answer != Acked {
        return;
      }
      var open := matcher.repo.orders;
      matcher.listing := Listed(OpenOrders(open));
      all, es := true, [LockRound, ListOpen];
      assert RefundEach(open, 0) == open;
      for i := 0 to |open|
        invariant Refunding(open, i, all, start, es, released, held)
      {
        all, es, released := RefundTurn(i, open, all, start, es, released, held);
      }
    }

    // -------------------------------------------------------------- settlement

    /** UPDATE … SET status = 'settled' WHERE status = 'locked': an update of no row is reported as an error. */
    method FlipToSettled(price: int) returns (outcome: Outcome)
      modifies this`resolution
      ensures outcome == NeverArrived || old(resolution).Resolved? || matcher.repo.trading
              ==> resolution == old(resolution)
      ensures outcome == Acked ==> !matcher.repo.trading && old(resolution).Unresolved?
      ensures outcome != NeverArrived
              ==> !matcher.repo.trading && old(resolution).Unresolved? && resolution == Resolved(price)
    {
      outcome := matcher.repo.Commit();
      if matcher.repo.trading || resolution.Resolved? {
        outcome := NeverArrived;
      }
      if outcome != NeverArrived {
        resolution := Resolved(price);
      }
    }

    /** UPDATE … SET paid_out = true WHERE paid_out = false, and whether that changed the row. */
    method MarkPositionPaid(row: nat) returns (outcome: Outcome, marked: bool)
      modifies this`paid
      ensures paid == if outcome == NeverArrived then old(paid) else old(paid) + {row}
      ensures marked <==> row !in old(paid)
    {
      outcome := matcher.repo.Commit();
      marked := row !in paid;
      if outcome != NeverArrived {
        paid := paid + {row};
      }
    }

    /** A credit without idempotency key. */
    method Credit(x: Payment) returns (outcome: Outcome)
      modifies this`payments
      ensures payments == if outcome == NeverArrived then old(payments) else old(payments) + [x]
    {
      outcome := matcher.client.Network();
      if outcome != NeverArrived {
        payments := payments + [x];
      }
    }

    /** The settlements table takes one row a window. */
    method CreateSettlement(s: Settlement) returns (outcome: Outcome)
      modifies this`settlements
      ensures settlements == if outcome == NeverArrived || |old(settlements)| > 0 then old(settlements) else [s]
    {
      outcome := matcher.repo.Commit();
      if outcome != NeverArrived && |settlements| == 0 {
        settlements := [s];
      }
    }

    /** Pass r is at row i of its listing. */
    ghost predicate At(r: nat, i: nat, listing: seq<Position>, listedPaid: set<nat>, price: int, total: int)
      reads this
    {
      && r < |passes| && passes[r].phase == Paying && passes[r].won
      && passes[r].next == i && passes[r].listing == listing && passes[r].listedPaid == listedPaid
      && passes[r].price == price && passes[r].total == total
    }

    /** One turn of the payout loop: mark the winner paid, then credit it. */
    method PayOne(i: nat, listing: seq<Position>, listedPaid: set<nat>, price: int, target: int, total: int,
                  ghost r: nat, ghost start: Window, ghost es: seq<Step>)
      returns (clean: bool, total': int, ghost more: seq<Step>)
      requires i < |listing| && At(r, i, listing, listedPaid, price, total) && EndOf(start, target, es) == WindowView()
      modifies this`paid, this`payments, this`passes
      ensures At(r, i + 1, listing, listedPaid, price, total') && EndOf(start, target, more) == WindowView()
      ensures clean && listedPaid == {} && PaidOut(listing, Winner(price, target), i, old(paid), old(payments), total)
              ==> PaidOut(listing, Winner(price, target), i + 1, paid, payments, total')
      ensures OnlyDue(listing, price, target, old(payments), payments)
    {
      ghost var before := WindowView();
      var winningSide := if price >= target then Yes else No;
      var p := listing[i];
      if p.shares > 0 {
        CreditIsRaw(p.shares);
      }
      clean, total' := true, total;
      var outcome, marked := Acked, false;
      if p.side == winningSide && p.shares > 0 {
        if i in listedPaid {
          total' := total + p.shares;
        } else {
          outcome, marked := MarkPositionPaid(i);
          clean := outcome == Acked && marked;
          if outcome == Acked && !marked {
            total' := total + p.shares;
          }
        }
      }
      passes := ApplyVisit(before, target, r, outcome).passes;
      more := es + [Visit(r, outcome)];
      EndOfPush(start, target, es, Visit(r, outcome));
      if outcome == Acked && marked {
        outcome, more := CreditOne(i, p, r, start, target, more);
        clean := outcome == Acked;
        if outcome == Acked {
          total' := total + p.shares;
        }
      }
    }

    /** The credit of a row just marked. */
    method CreditOne(i: nat, p: Position, ghost r: nat, ghost start: Window, target: int, ghost es: seq<Step>)
      returns (outcome: Outcome, ghost more: seq<Step>)
      requires EndOf(start, target, es) == WindowView() && p.shares > 0
      requires r < |passes| && passes[r].phase == Crediting && passes[r].next == i < |passes[r].listing|
      requires p == passes[r].listing[i]
      modifies this`payments, this`passes
      ensures EndOf(start, target, more) == WindowView()
      ensures passes == old(passes)[r := Advanced(old(passes)[r], outcome == Acked)]
      ensures payments == if outcome == NeverArrived then old(payments)
                          else old(payments) + [Payment(i, p.user, ToRawUnits(p.shares * GRAINS_PER_SHARE))]
    {
      ghost var mid := WindowView();
      outcome := Credit(Payment(i, p.user, ToRawUnits(p.shares * GRAINS_PER_SHARE)));
      passes := ApplyCredit(mid, r, outcome).passes;
      EndOfPush(start, target, es, Step.Credit(r, outcome));
      more := es + [Step.Credit(r, outcome)];
    }

    /** Begins a pass over the locked window and tries to flip it; `listing` is empty unless the pass may pay. */
    method ClaimWindow(price: int, target: int)
      returns (claimed: bool, listing: seq<Position>, listedPaid: set<nat>, ghost r: nat, ghost es: seq<Step>)
      requires IsLocked(WindowView())
      modifies this`resolution, this`passes
      ensures EndOf(old(WindowView()), target, es) == WindowView()
      ensures claimed ==> At(r, 0, listing, listedPaid, price, 0)
      ensures claimed ==> resolution == Resolved(price) && listing == matcher.repo.positions && listedPaid == paid
    {
      ghost var start := WindowView();
      r, listing, listedPaid, claimed := |passes|, [], {}, false;
      EndOfNothing(start, target);
      passes := passes + [Pass(price, false, Deciding, [], {}, 0, 0)];
      EndOfPush(start, target, [], Start(price));
      ghost var before := WindowView();
      var outcome := FlipToSettled(price);
      passes := ApplyDecide(before, r, outcome).passes;
      es := [] + [Start(price)];
      EndOfPush(start, target, es, Decide(r, outcome));
      es := es + [Decide(r, outcome)];
      if outcome == Acked {
        ghost var mid := WindowView();
        claimed := *;
        if claimed {
          listing, listedPaid := matcher.repo.positions, paid;
          passes := ApplyList(mid, r).passes;
          EndOfPush(start, target, es, List(r));
          es := es + [List(r)];
        } else {
          passes := passes[r := passes[r].(phase := Over)];
          EndOfPush(start, target, es, Halt(r));
          es := es + [Halt(r)];
        }
      }
    }

    /** The payout loop over the rows the pass has listed. */
    method PayListed(listing: seq<Position>, listedPaid: set<nat>, price: int, target: int,
                     ghost r: nat, ghost start: Window, ghost so: seq<Step>)
      returns (clean: bool, total: int, ghost es: seq<Step>)
      requires At(r, 0, listing, listedPaid, price, 0) && EndOf(start, target, so) == WindowView()
      modifies this`paid, this`payments, this`passes
      ensures At(r, |listing|, listing, listedPaid, price, total) && EndOf(start, target, es) == WindowView()
      ensures OnlyDue(listing, price, target, old(payments), payments)
      ensures clean && listedPaid == {} && old(paid) == {} && old(payments) == [] ==>
                PaidOut(listing, Winner(price, target), |listing|, paid, payments, total)
    {
      clean, total, es := true, 0, so;
      ghost var before := payments;
      for i := 0 to |listing|
        invariant At(r, i, listing, listedPaid, price, total) && EndOf(start, target, es) == WindowView()
        invariant OnlyDue(listing, price, target, before, payments)
        invariant clean && listedPaid == {} && old(paid) == {} && before == [] ==>
                    PaidOut(listing, Winner(price, target), i, paid, payments, total)
      {
        var ok;
        ok, total, es := PayOne(i, listing, listedPaid, price, target, total, r, start, es);
        clean := clean && ok;
      }
    }

    /** The settlement record, once the listing is walked. */
    method RecordSettlement(price: int, target: int, total: int, listing: seq<Position>, listedPaid: set<nat>,
                            ghost r: nat, ghost start: Window, ghost so: seq<Step>)
      returns (outcome: Outcome, ghost es: seq<Step>)
      requires At(r, |listing|, listing, listedPaid, price, total) && EndOf(start, target, so) == WindowView()
      modifies this`settlements, this`passes
      ensures EndOf(start, target, es) == WindowView()
      ensures settlements == if outcome == NeverArrived || |old(settlements)| > 0 then old(settlements)
                             else [Settlement(if price >= target then Yes else No, total)]
    {
      ghost var before := WindowView();
      outcome := CreateSettlement(Settlement(if price >= target then Yes else No, total));
      passes := ApplyConclude(before, target, r, outcome).passes;
      EndOfPush(start, target, so, Conclude(r, outcome));
      es := so + [Conclude(r, outcome)];
    }

    /**
     One pass of the settlement loop over a locked window.  Whatever fails, it credits
     only rows of the side that won, their owners, in full, and records no other side.
     Undisturbed, it credits every winner its truncated shares, once, and records the
     total of their shares.
     */
    method SettleWindow(price: int, target: int) returns (clean: bool, ghost es: seq<Step>)
      requires IsLocked(WindowView())
      modifies this`resolution, this`paid, this`payments, this`settlements, this`passes
      ensures EndOf(old(WindowView()), target, es) == WindowView()
      ensures clean && old(paid) == {} && old(payments) == [] && old(settlements) == [] ==>
                && resolution == Resolved(price) && |settlements| == 1 && settlements[0].winner == Winner(price, target)
                && PaidOut(matcher.repo.positions, Winner(price, target), |matcher.repo.positions|, paid, payments,
                           settlements[0].total)
                && EachWinnerOnce(matcher.repo.positions, price, target, payments)
                && settlements[0].total == Owed(matcher.repo.positions, if price >= target then Yes else No)
      ensures OnlyDue(matcher.repo.positions, price, target, old(payments), payments)
      ensures |old(settlements)| == 0 && |settlements| > 0 ==>
                |settlements| == 1 && (settlements[0].winner == Yes <==> price >= target)
    {
      ghost var start := WindowView();
      var claimed, listing, listedPaid;
      ghost var r;
      claimed, listing, listedPaid, r, es := ClaimWindow(price, target);
      clean := claimed;
      if claimed {
        var total, outcome;
        clean, total, es := PayListed(listing, listedPaid, price, target, r, start, es);
        if clean && listedPaid == {} && start.payments == [] {
          PaidOutMeans(listing, price, target, paid, payments, total);
        }
        outcome, es := RecordSettlement(price, target, total, listing, listedPaid, r, start, es);
        clean := clean && outcome == Acked;
      }
    }
  }
}
