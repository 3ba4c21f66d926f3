/**
 One window's money path as a state machine.  An event is one atomic step of
 the service together with what the network or the database made of it; an
 event that is not possible in a state leaves the state alone, so a run is any
 sequence of events at all: any interleaving of users, of settlement attempts,
 of failures and of crashes.
 */
module Market {
  import opened Types
  import opened Sums
  import opened Money
  import opened Book
  import opened Ledger

  /** What a release belongs to: a cancellation by the owner, or the refund at round lock. */
  datatype Occasion = ByOwner | AtLock

  /** A release of what was still held for an order. */
  datatype Unlock = Unlock(order: nat, raw: int, occasion: Occasion)

  /** The refund loop's listing of open orders: not made yet, or the orders it has still to visit. */
  datatype Listing = Unlisted | Listed(left: set<nat>)

  /**
   One call of the settlement routine for a pending row.  Stages 0 to 3 send the
   four remote movements, 4 commits the position transaction, 5 deletes the
   pending row, 6 has deleted it.  A call that failed or died stops running.
   */
  datatype Attempt = Attempt(row: nat, stage: nat, running: bool)

  const WRITE := 4
  const ERASE := 5
  const DONE := 6

  datatype State = State(
    trading: bool,
    orders: seq<Order>,
    listing: Listing,
    unlocks: seq<Unlock>,
    matches: seq<Match>,
    pending: set<nat>,
    log: seq<Key>,
    positions: seq<Position>,
    fills: seq<nat>,
    nettings: seq<Netting>,
    attempts: seq<Attempt>)

  datatype Event =
    | Submit(user: User, side: Side, price: int, size: int)
    | Withdraw(order: nat, user: User, outcome: Outcome)
    | LockRound
    | ListOpen
    | RefundRest(order: nat, outcome: Outcome)
    | Begin(row: nat)
    | Send(attempt: nat, outcome: Outcome)
    | Record(attempt: nat, outcome: Outcome)
    | Erase(attempt: nat, outcome: Outcome)
    | Crash(attempt: nat)
    | NetDown(user: User, amount: int)

  const INIT := State(true, [], Unlisted, [], [], {}, [], [], [], [], [])

  ghost predicate IsRelease(side: Side, price: int, size: int, raw: int)
  {
    forall r {:trigger Seen(r)} :: Seen(r) && r == HoldRaw(side, price, size) ==> raw == r
  }

  /** HoldRaw, chosen rather than computed so that it is not unfolded. */
  ghost function ReleaseRaw(side: Side, price: int, size: int): int
  {
    assert IsRelease(side, price, size, HoldRaw(side, price, size));
    var raw :| IsRelease(side, price, size, raw);
    raw
  }

  /** The refund of what is left of an order. */
  ghost function RefundRaw(o: Order): int
  {
    ReleaseRaw(o.side, o.price, Remainder(o))
  }

  lemma RefundIsHoldOfRemainder(o: Order)
    ensures RefundRaw(o) == HoldRaw(o.side, o.price, Remainder(o))
  {
    assert IsRelease(o.side, o.price, Remainder(o), RefundRaw(o));
    assert Seen(HoldRaw(o.side, o.price, Remainder(o)));
  }

  /** The terminal status of an order whose remainder was refunded at round lock. */
  function RefundedStatus(o: Order): OrderStatus
  {
    if o.filled > 0 then Filled else Cancelled
  }

  /** The ids given to `count` rows inserted after the first n. */
  function NewRows(n: nat, count: nat): (ids: set<nat>)
    ensures forall i :: i in ids <==> n <= i < n + count
  {
    if count == 0 then {} else NewRows(n, count - 1) + {n + count - 1}
  }

  function ApplySubmit(s: State, user: User, side: Side, price: int, size: int): State
  {
    if s.trading && 0 < price < ONE && size > 0 then
      var more := MatchesFor(s.orders, user, side, price, size);
      s.(orders := Place(s.orders, user, side, price, size),
         matches := s.matches + more,
         pending := s.pending + NewRows(|s.matches|, |more|))
    else s
  }

  /** The status flips first; the release may then be lost, and is never retried. */
  ghost function ApplyWithdraw(s: State, i: nat, user: User, outcome: Outcome): State
  {
    if i < |s.orders| && s.orders[i].user == user && s.orders[i].status == Open then
      var o := s.orders[i];
      s.(orders := s.orders[i := o.(status := Cancelled)],
         unlocks := if outcome == NeverArrived then s.unlocks else s.unlocks + [Unlock(i, RefundRaw(o), ByOwner)])
    else s
  }

  function ApplyLock(s: State): State
  {
    s.(trading := false)
  }

  function OpenOrders(orders: seq<Order>): set<nat>
  {
    set i: nat | i < |orders| && orders[i].status == Open
  }

  /** The orders to refund are listed once, after trading has stopped; cancellations may still follow. */
  function ApplyListOpen(s: State): State
  {
    if s.trading || s.listing.Listed? then s else s.(listing := Listed(OpenOrders(s.orders)))
  }

  /** The refund loop has order i still to visit. */
  predicate ToRefund(s: State, i: nat)
  {
    i < |s.orders| && !s.trading && s.listing.Listed? && i in s.listing.left && Remainder(s.orders[i]) > 0
  }

  /**
   Each listed order is visited once, whatever comes of it.  The release comes
   first, on the strength of the listing alone; the order is closed only once the
   release was acknowledged, and only if it is still open.
   */
  ghost function ApplyRefund(s: State, i: nat, outcome: Outcome): State
  {
    if ToRefund(s, i) then
      var o := s.orders[i];
      s.(listing := Listed(s.listing.left - {i}),
         orders := if outcome == Acked && o.status == Open then s.orders[i := o.(status := RefundedStatus(o))]
                   else s.orders,
         unlocks := if outcome == NeverArrived then s.unlocks else s.unlocks + [Unlock(i, RefundRaw(o), AtLock)])
    else s
  }

  predicate AtStage(s: State, a: nat, stage: nat)
  {
    a < |s.attempts| && s.attempts[a].running && s.attempts[a].stage == stage
  }

  function Advance(attempts: seq<Attempt>, a: nat, outcome: Outcome): seq<Attempt>
    requires a < |attempts|
  {
    var x := attempts[a];
    attempts[a := Attempt(x.row, if outcome == NeverArrived then x.stage else x.stage + 1, outcome == Acked)]
  }

  /** A remote call moves the attempt on only when its reply arrives. */
  function AfterSending(attempts: seq<Attempt>, a: nat, outcome: Outcome): seq<Attempt>
    requires a < |attempts|
  {
    var x := attempts[a];
    attempts[a := if outcome == Acked then Attempt(x.row, x.stage + 1, true) else Attempt(x.row, x.stage, false)]
  }

  function ApplySend(s: State, a: nat, outcome: Outcome): State
  {
    if a < |s.attempts| && s.attempts[a].running && s.attempts[a].stage < WRITE then
      var x := s.attempts[a];
      s.(log := if outcome == NeverArrived then s.log else Land(s.log, Key(x.row, PLAN[x.stage])),
         attempts := AfterSending(s.attempts, a, outcome))
    else s
  }

  /** The position transaction of the row commits, if the database can carry it out at all. */
  ghost function ApplyRecord(s: State, a: nat, outcome: Outcome): State
  {
    if AtStage(s, a, WRITE) then
      var row := s.attempts[a].row;
      var done := outcome != NeverArrived && row < |s.matches| && Records(s.positions, s.matches[row]);
      var s' := s.(attempts := Advance(s.attempts, a, if done then outcome else NeverArrived));
      if done then s'.(positions := ApplyFill(s.positions, s.matches[row]), fills := s.fills + [row]) else s'
    else s
  }

  function ApplyErase(s: State, a: nat, outcome: Outcome): State
  {
    if AtStage(s, a, ERASE) then
      s.(attempts := Advance(s.attempts, a, if outcome == NeverArrived then NeverArrived else ReplyLost),
         pending := if outcome == NeverArrived then s.pending else s.pending - {s.attempts[a].row})
    else s
  }

  function ApplyBegin(s: State, row: nat): State
  {
    if row < |s.matches| then s.(attempts := s.attempts + [Attempt(row, 0, true)]) else s
  }

  function ApplyCrash(s: State, a: nat): State
  {
    if a < |s.attempts| then s.(attempts := s.attempts[a := s.attempts[a].(running := false)]) else s
  }

  /** The user has a row on each side: a sale nets only once its hedge has filled, so it always has both. */
  predicate CanNet(s: State, user: User, amount: int)
  {
    amount > 0 && HasRow(s.positions, user, Yes) && HasRow(s.positions, user, No)
  }

  /** Netting subtracts from both rows, whether they hold that much or not. */
  function ApplyNetDown(s: State, user: User, amount: int): State
  {
    if CanNet(s, user, amount) then
      s.(positions := NetPositions(s.positions, user, amount), nettings := s.nettings + [Netting(user, amount)])
    else s
  }

  ghost function Apply(s: State, e: Event): State
  {
    match e
    case Submit(user, side, price, size) => ApplySubmit(s, user, side, price, size)
    case Withdraw(i, user, outcome) => ApplyWithdraw(s, i, user, outcome)
    case LockRound => ApplyLock(s)
    case ListOpen => ApplyListOpen(s)
    case RefundRest(i, outcome) => ApplyRefund(s, i, outcome)
    case Begin(row) => ApplyBegin(s, row)
    case Send(a, outcome) => ApplySend(s, a, outcome)
    case Record(a, outcome) => ApplyRecord(s, a, outcome)
    case Erase(a, outcome) => ApplyErase(s, a, outcome)
    case Crash(a) => ApplyCrash(s, a)
    case NetDown(user, amount) => ApplyNetDown(s, user, amount)
  }

  ghost function After(s: State, es: seq<Event>): State
  {
    if |es| == 0 then s else Apply(After(s, es[..|es| - 1]), es[|es| - 1])
  }

  lemma AfterPush(s: State, es: seq<Event>, e: Event)
    ensures After(s, es + [e]) == Apply(After(s, es), e)
  {
    assert (es + [e])[..|es|] == es;
  }

  lemma {:induction false} AfterConcat(s: State, a: seq<Event>, b: seq<Event>)
    ensures After(s, a + b) == After(After(s, a), b)
  {
    if |b| == 0 {
      assert a + b == a;
    } else {
      AfterConcat(s, a, b[..|b| - 1]);
      assert (a + b)[..|a + b| - 1] == a + b[..|b| - 1];
    }
  }

  ghost predicate IsEnd(s: State, es: seq<Event>, t: State)
  {
    forall u {:trigger Seen(u)} :: Seen(u) && u == After(s, es) ==> t == u
  }

  /** After, chosen rather than computed so that it is not unfolded. */
  ghost function End(s: State, es: seq<Event>): State
  {
    assert IsEnd(s, es, After(s, es));
    var t :| IsEnd(s, es, t);
    t
  }

  /** Run `es` leads from s to t. */
  ghost predicate Reached(s: State, es: seq<Event>, t: State)
  {
    t == End(s, es)
  }

  lemma ReachedIsAfter(s: State, es: seq<Event>, t: State)
    ensures Reached(s, es, t) <==> t == After(s, es)
  {
    assert IsEnd(s, es, End(s, es));
    assert Seen(After(s, es));
  }

  lemma ReachedOnce(s: State, es: seq<Event>, t: State, u: State)
    requires Reached(s, es, t) && Reached(s, es, u)
    ensures t == u
  {
    ReachedIsAfter(s, es, t);
    ReachedIsAfter(s, es, u);
  }

  lemma ReachedPush(s: State, es: seq<Event>, t: State, e: Event)
    requires Reached(s, es, t)
    ensures Reached(s, es + [e], Apply(t, e))
  {
    ReachedIsAfter(s, es, t);
    AfterPush(s, es, e);
    ReachedIsAfter(s, es + [e], Apply(t, e));
  }

  lemma ReachedConcat(s: State, a: seq<Event>, t: State, b: seq<Event>, u: State)
    requires Reached(s, a, t) && Reached(t, b, u)
    ensures Reached(s, a + b, u)
  {
    ReachedIsAfter(s, a, t);
    ReachedIsAfter(t, b, u);
    AfterConcat(s, a, b);
    ReachedIsAfter(s, a + b, u);
  }

  lemma ReachedInTwo(s: State, e: Event, f: Event)
    ensures Reached(s, [], s) && Reached(s, [e], Apply(s, e)) && Reached(s, [e, f], Apply(Apply(s, e), f))
  {
    ReachedIsAfter(s, [], s);
    ReachedPush(s, [], s, e);
    assert [] + [e] == [e];
    ReachedPush(s, [e], Apply(s, e), f);
    assert [e] + [f] == [e, f];
  }

  // ---------------------------------------------------------------- invariants

  /** A match names two different orders of the table, at the maker's price. */
  predicate RefsOk(orders: seq<Order>, m: Match)
  {
    && m.maker < |orders| && m.taker < |orders| && m.maker != m.taker
    && orders[m.maker].user == m.makerUser && orders[m.maker].side == m.makerSide && orders[m.maker].price == m.price
    && orders[m.taker].user == m.takerUser && orders[m.taker].side == m.takerSide
    && Compatible(m.price, orders[m.taker].price)
  }

  predicate AllRefsOk(orders: seq<Order>, matches: seq<Match>)
  {
    forall i :: 0 <= i < |matches| ==> RefsOk(orders, matches[i])
  }

  predicate FilledByMatches(orders: seq<Order>, matches: seq<Match>)
  {
    forall i :: 0 <= i < |orders| ==> orders[i].filled == MatchedFor(matches, i)
  }

  function FilledEach(orders: seq<Order>, side: Side): (xs: seq<int>)
    ensures |xs| == |orders|
  {
    seq(|orders|, i requires 0 <= i < |orders| => if orders[i].side == side then orders[i].filled else 0)
  }

  function TotalFilled(orders: seq<Order>, side: Side): int
  {
    Sum(FilledEach(orders, side))
  }

  predicate TradingInv(orders: seq<Order>, matches: seq<Match>)
  {
    && TableOk(orders)
    && Uncrossed(orders)
    && AllMatchesOk(matches)
    && AllRefsOk(orders, matches)
    && FilledByMatches(orders, matches)
    && TotalFilled(orders, Yes) == TotalMatched(matches)
    && TotalFilled(orders, No) == TotalMatched(matches)
  }

  ghost predicate UnlockOk(u: Unlock, orders: seq<Order>, trading: bool, listing: Listing)
  {
    && u.order < |orders|
    && u.raw == RefundRaw(orders[u.order])
    && (u.occasion == ByOwner ==> orders[u.order].status == Cancelled)
    && (u.occasion == AtLock ==> !trading && listing.Listed? && u.order !in listing.left)
  }

  /** Every release is of its order's remainder, and on each occasion an order is released at most once. */
  ghost predicate UnlocksInv(orders: seq<Order>, unlocks: seq<Unlock>, trading: bool, listing: Listing)
  {
    && (forall k :: 0 <= k < |unlocks| ==> UnlockOk(unlocks[k], orders, trading, listing))
    && (forall j, k :: 0 <= j < k < |unlocks| && unlocks[j].occasion == unlocks[k].occasion ==>
          unlocks[j].order != unlocks[k].order)
    && (listing.Listed? ==> !trading)
  }

  ghost predicate LogInv(log: seq<Key>, matches: seq<Match>)
  {
    KeysOk(log, matches) && forall row: nat :: RolesOf(log, row) <= PLAN
  }

  predicate AttemptOk(x: Attempt, matches: seq<Match>, log: seq<Key>, pending: set<nat>)
  {
    && x.row < |matches|
    && x.stage <= DONE
    && (x.stage == DONE ==> !x.running && x.row !in pending)
    && |RolesOf(log, x.row)| >= Min(x.stage, 4)
  }

  /** Attempts on a row that got past its position transaction. */
  function Written(attempts: seq<Attempt>, row: nat): nat
  {
    if |attempts| == 0 then 0
    else
      var n := |attempts| - 1;
      Written(attempts[..n], row) + if attempts[n].row == row && attempts[n].stage >= ERASE then 1 else 0
  }

  predicate RowOk(row: nat, log: seq<Key>, fills: seq<nat>, pending: set<nat>, attempts: seq<Attempt>)
  {
    && Times(fills, row) == Written(attempts, row)
    && (Times(fills, row) > 0 ==> RolesOf(log, row) == PLAN)
    && (row !in pending ==> Times(fills, row) > 0)
  }

  ghost predicate ProtocolInv(matches: seq<Match>, pending: set<nat>, log: seq<Key>, fills: seq<nat>,
                              attempts: seq<Attempt>)
  {
    && LogInv(log, matches)
    && FillsOk(fills, matches)
    && (forall row :: row in pending ==> row < |matches|)
    && (forall a :: 0 <= a < |attempts| ==> AttemptOk(attempts[a], matches, log, pending))
    && (forall row :: 0 <= row < |matches| ==> RowOk(row, log, fills, pending, attempts))
  }

  /** Holdings plus what was netted away are exactly the recorded fills, user by user and in total. */
  ghost predicate PositionsInv(matches: seq<Match>, positions: seq<Position>, fills: seq<nat>, nettings: seq<Netting>)
  {
    && AllMatchesOk(matches)
    && FillsOk(fills, matches)
    && UniqueRows(positions)
    && AllFit(positions)
    && NettingsOk(nettings, positions)
    && (forall u, side :: SharesOf(positions, u, side) + NettedOf(nettings, u) == FilledFor(fills, matches, u, side))
    && (forall side :: TotalShares(positions, side) + NettedTotal(nettings) == FillTotal(fills, matches))
  }

  ghost predicate Inv(s: State)
  {
    && TradingInv(s.orders, s.matches)
    && UnlocksInv(s.orders, s.unlocks, s.trading, s.listing)
    && ProtocolInv(s.matches, s.pending, s.log, s.fills, s.attempts)
    && PositionsInv(s.matches, s.positions, s.fills, s.nettings)
  }

  // ---------------------------------------------------------------- a placement keeps the ledger

  /** The new matches of a placement, one for each take. */
  predicate MatchesOf(orders: seq<Order>, takes: seq<Take>, user: User, side: Side, ms: seq<Match>)
  {
    && |ms| == |takes|
    && (forall k :: 0 <= k < |takes| ==> takes[k].maker < |orders|)
    && (forall k :: 0 <= k < |ms| ==> ms[k] == MatchOf(orders, takes[k], user, side))
  }

  /** They all name the new order as taker. */
  lemma {:induction false} MatchedAsTaker(orders: seq<Order>, takes: seq<Take>, user: User, side: Side, ms: seq<Match>)
    requires MatchesOf(orders, takes, user, side, ms)
    ensures MatchedFor(ms, |orders|) == Taken(takes)
  {
    if |ms| > 0 {
      var n := |ms| - 1;
      MatchedAsTaker(orders, takes[..n], user, side, ms[..n]);
      TakenSnoc(takes[..n], takes[n]);
      assert takes[..n] + [takes[n]] == takes;
    }
  }

  lemma {:induction false} NotMatched(orders: seq<Order>, takes: seq<Take>, user: User, side: Side, ms: seq<Match>,
                                      i: nat)
    requires MatchesOf(orders, takes, user, side, ms) && i < |orders|
    requires forall k :: 0 <= k < |takes| ==> takes[k].maker != i
    ensures MatchedFor(ms, i) == 0
  {
    if |ms| > 0 {
      NotMatched(orders, takes[..|ms| - 1], user, side, ms[..|ms| - 1], i);
    }
  }

  /** And each names its own maker, once. */
  lemma {:induction false} MatchedAsMaker(orders: seq<Order>, takes: seq<Take>, user: User, side: Side, ms: seq<Match>,
                                          k: nat)
    requires MatchesOf(orders, takes, user, side, ms) && k < |takes|
    requires forall j, k :: 0 <= j < k < |takes| ==> takes[j].maker != takes[k].maker
    ensures MatchedFor(ms, takes[k].maker) == takes[k].size
  {
    var n := |ms| - 1;
    if k == n {
      NotMatched(orders, takes[..n], user, side, ms[..n], takes[n].maker);
    } else {
      MatchedAsMaker(orders, takes[..n], user, side, ms[..n], k);
    }
  }

  lemma {:induction false} FillMakersTotal(orders: seq<Order>, takes: seq<Take>, side: Side, s: Side)
    requires forall k :: 0 <= k < |takes| ==> takes[k].maker < |orders| && orders[takes[k].maker].side == side
    ensures TotalFilled(FillMakers(orders, takes), s) == TotalFilled(orders, s) + if s == side then Taken(takes) else 0
    ensures forall i :: 0 <= i < |orders| ==> FillMakers(orders, takes)[i].side == orders[i].side
  {
    if |takes| > 0 {
      var n := |takes| - 1;
      var front := FillMakers(orders, takes[..n]);
      FillMakersTotal(orders, takes[..n], side, s);
      TakenSnoc(takes[..n], takes[n]);
      assert takes[..n] + [takes[n]] == takes;
      var i := takes[n].maker;
      var xs := FilledEach(front, s);
      var v := xs[i] + if s == side then takes[n].size else 0;
      assert FilledEach(FillMakers(orders, takes), s) == xs[i := v];
      SumUpdate(xs, i, v);
    }
  }

  lemma TakesTotal(orders: seq<Order>, takes: seq<Take>, user: User, side: Side, ms: seq<Match>)
    requires |ms| == |takes|
    requires forall k :: 0 <= k < |takes| ==> takes[k].maker < |orders|
    requires forall k :: 0 <= k < |ms| ==> ms[k] == MatchOf(orders, takes[k], user, side)
    ensures TotalMatched(ms) == Taken(takes)
  {
    assert MatchSizes(ms) == TakenEach(takes);
  }

  lemma OneMoreOrder(orders: seq<Order>, o: Order, s: Side)
    ensures TotalFilled(orders + [o], s) == TotalFilled(orders, s) + if o.side == s then o.filled else 0
  {
    var v := if o.side == s then o.filled else 0;
    assert FilledEach(orders + [o], s) == FilledEach(orders, s) + [v];
    SumPush(FilledEach(orders, s), v);
  }

  lemma PlaceTotals(orders: seq<Order>, user: User, side: Side, price: int, size: int, s: Side)
    requires TableOk(orders) && size > 0
    ensures TotalFilled(Place(orders, user, side, price, size), s)
            == TotalFilled(orders, s) + Taken(TakesFor(orders, side, price, size))
  {
    var takes := TakesFor(orders, side, price, size);
    TakesFacts(orders, side, price, size);
    FillMakersTotal(orders, takes, Opposite(side), s);
    OneMoreOrder(FillMakers(orders, takes), Incoming(user, side, price, size, Taken(takes)), s);
  }

  lemma PlaceMatchesOk(orders: seq<Order>, user: User, side: Side, price: int, size: int, k: nat)
    requires TableOk(orders) && size > 0 && k < |MatchesFor(orders, user, side, price, size)|
    ensures var m := MatchesFor(orders, user, side, price, size)[k];
            MatchOk(m) && RefsOk(Place(orders, user, side, price, size), m)
  {
    TakesFacts(orders, side, price, size);
    var t := TakesFor(orders, side, price, size)[k];
    PlaceOpens(orders, user, side, price, size, t.maker);
    PlaceAt(orders, user, side, price, size, t.maker);
  }

  lemma PlaceKeepsRefs(orders: seq<Order>, user: User, side: Side, price: int, size: int, m: Match)
    requires TableOk(orders) && size > 0 && RefsOk(orders, m)
    ensures RefsOk(Place(orders, user, side, price, size), m)
  {
    PlaceAt(orders, user, side, price, size, m.maker);
    PlaceAt(orders, user, side, price, size, m.taker);
  }

  lemma {:induction false} UnnamedIsUnmatched(orders: seq<Order>, matches: seq<Match>, i: nat)
    requires AllRefsOk(orders, matches) && i >= |orders|
    ensures MatchedFor(matches, i) == 0
  {
    if |matches| > 0 {
      UnnamedIsUnmatched(orders, matches[..|matches| - 1], i);
    }
  }

  lemma FilledAfterPlace(orders: seq<Order>, matches: seq<Match>, user: User, side: Side, price: int, size: int, i: nat)
    requires TableOk(orders) && size > 0 && AllRefsOk(orders, matches) && FilledByMatches(orders, matches)
             && i <= |orders|
    ensures var after := Place(orders, user, side, price, size);
            && |after| == |orders| + 1
            && after[i].filled == MatchedFor(matches, i) + MatchedFor(MatchesFor(orders, user, side, price, size), i)
  {
    var takes := TakesFor(orders, side, price, size);
    var ms := MatchesFor(orders, user, side, price, size);
    TakesFacts(orders, side, price, size);
    if i == |orders| {
      UnnamedIsUnmatched(orders, matches, i);
      MatchedAsTaker(orders, takes, user, side, ms);
    } else {
      PlaceAt(orders, user, side, price, size, i);
      if k :| 0 <= k < |takes| && takes[k].maker == i {
        MatchedAsMaker(orders, takes, user, side, ms, k);
      } else {
        NotMatched(orders, takes, user, side, ms, i);
      }
    }
  }

  lemma PlaceKeepsFilledByMatches(orders: seq<Order>, matches: seq<Match>, user: User, side: Side, price: int,
                                  size: int)
    requires TableOk(orders) && size > 0 && AllRefsOk(orders, matches) && FilledByMatches(orders, matches)
    ensures FilledByMatches(Place(orders, user, side, price, size),
                            matches + MatchesFor(orders, user, side, price, size))
  {
    var ms := MatchesFor(orders, user, side, price, size);
    var after := Place(orders, user, side, price, size);
    forall i | 0 <= i < |after| ensures after[i].filled == MatchedFor(matches + ms, i) {
      MatchedForConcat(matches, ms, i);
      FilledAfterPlace(orders, matches, user, side, price, size, i);
    }
  }

  lemma SubmitKeepsTrading(orders: seq<Order>, matches: seq<Match>, user: User, side: Side, price: int, size: int)
    requires TradingInv(orders, matches) && 0 < price < ONE && size > 0
    ensures TradingInv(Place(orders, user, side, price, size), matches + MatchesFor(orders, user, side, price, size))
  {
    var ms := MatchesFor(orders, user, side, price, size);
    var after := Place(orders, user, side, price, size);
    PlaceKeepsTableOk(orders, user, side, price, size);
    PlaceKeepsUncrossed(orders, user, side, price, size);
    PlaceKeepsFilledByMatches(orders, matches, user, side, price, size);
    PlaceTotals(orders, user, side, price, size, Yes);
    PlaceTotals(orders, user, side, price, size, No);
    TakesTotal(orders, TakesFor(orders, side, price, size), user, side, ms);
    TotalMatchedConcat(matches, ms);
    forall i | 0 <= i < |matches + ms| ensures MatchOk((matches + ms)[i]) && RefsOk(after, (matches + ms)[i]) {
      if i < |matches| {
        PlaceKeepsRefs(orders, user, side, price, size, matches[i]);
      } else {
        PlaceMatchesOk(orders, user, side, price, size, i - |matches|);
      }
    }
  }

  lemma CloseKeepsTrading(orders: seq<Order>, matches: seq<Match>, i: nat, status: OrderStatus)
    requires TradingInv(orders, matches) && i < |orders| && status != Open
    ensures TradingInv(orders[i := orders[i].(status := status)], matches)
  {
    var after := orders[i := orders[i].(status := status)];
    assert FilledEach(after, Yes) == FilledEach(orders, Yes);
    assert FilledEach(after, No) == FilledEach(orders, No);
    forall k | 0 <= k < |matches| ensures RefsOk(after, matches[k]) {
      assert RefsOk(orders, matches[k]);
    }
  }

  // ---------------------------------------------------------------- releases

  lemma SubmitKeepsUnlocks(orders: seq<Order>, unlocks: seq<Unlock>, listing: Listing, user: User, side: Side,
                           price: int, size: int)
    requires TableOk(orders) && 0 < price < ONE && size > 0 && UnlocksInv(orders, unlocks, true, listing)
    ensures UnlocksInv(Place(orders, user, side, price, size), unlocks, true, listing)
  {
    var after := Place(orders, user, side, price, size);
    forall k | 0 <= k < |unlocks| ensures UnlockOk(unlocks[k], after, true, listing) {
      assert UnlockOk(unlocks[k], orders, true, listing);
      PlacementMeetsItsSpecification(orders, user, side, price, size);
    }
  }

  lemma ReleaseKeepsUnlocks(orders: seq<Order>, unlocks: seq<Unlock>, trading: bool, listing: Listing, u: Unlock)
    requires UnlocksInv(orders, unlocks, trading, listing) && UnlockOk(u, orders, trading, listing)
    requires forall k :: 0 <= k < |unlocks| && unlocks[k].occasion == u.occasion ==> unlocks[k].order != u.order
    ensures UnlocksInv(orders, unlocks + [u], trading, listing)
  {
  }

  lemma CancelledKeepsUnlocks(orders: seq<Order>, unlocks: seq<Unlock>, trading: bool, listing: Listing, i: nat,
                              status: OrderStatus)
    requires UnlocksInv(orders, unlocks, trading, listing) && i < |orders| && orders[i].status == Open
    ensures UnlocksInv(orders[i := orders[i].(status := status)], unlocks, trading, listing)
    ensures forall k :: 0 <= k < |unlocks| && unlocks[k].occasion == ByOwner ==> unlocks[k].order != i
  {
    var after := orders[i := orders[i].(status := status)];
    forall k | 0 <= k < |unlocks|
      ensures UnlockOk(unlocks[k], after, trading, listing)
              && (unlocks[k].occasion == ByOwner ==> unlocks[k].order != i)
    {
      assert UnlockOk(unlocks[k], orders, trading, listing);
    }
  }

  lemma WithdrawKeepsUnlocks(orders: seq<Order>, unlocks: seq<Unlock>, trading: bool, listing: Listing, i: nat,
                             landed: bool)
    requires UnlocksInv(orders, unlocks, trading, listing) && i < |orders| && orders[i].status == Open
    ensures UnlocksInv(orders[i := orders[i].(status := Cancelled)],
                       if landed then unlocks + [Unlock(i, RefundRaw(orders[i]), ByOwner)] else unlocks,
                       trading, listing)
  {
    CancelledKeepsUnlocks(orders, unlocks, trading, listing, i, Cancelled);
    if landed {
      ReleaseKeepsUnlocks(orders[i := orders[i].(status := Cancelled)], unlocks, trading, listing,
                          Unlock(i, RefundRaw(orders[i]), ByOwner));
    }
  }

  lemma VisitKeepsUnlocks(orders: seq<Order>, unlocks: seq<Unlock>, left: set<nat>, i: nat)
    requires UnlocksInv(orders, unlocks, false, Listed(left)) && i in left
    ensures UnlocksInv(orders, unlocks, false, Listed(left - {i}))
    ensures forall k :: 0 <= k < |unlocks| && unlocks[k].occasion == AtLock ==> unlocks[k].order != i
  {
    forall k | 0 <= k < |unlocks|
      ensures UnlockOk(unlocks[k], orders, false, Listed(left - {i}))
              && (unlocks[k].occasion == AtLock ==> unlocks[k].order != i)
    {
      assert UnlockOk(unlocks[k], orders, false, Listed(left));
    }
  }

  lemma RefundKeepsUnlocks(orders: seq<Order>, unlocks: seq<Unlock>, left: set<nat>, i: nat, closes: bool, landed: bool)
    requires UnlocksInv(orders, unlocks, false, Listed(left)) && i < |orders| && i in left
    requires closes ==> orders[i].status == Open
    ensures UnlocksInv(if closes then orders[i := orders[i].(status := RefundedStatus(orders[i]))] else orders,
                       if landed then unlocks + [Unlock(i, RefundRaw(orders[i]), AtLock)] else unlocks,
                       false, Listed(left - {i}))
  {
    var after := if closes then orders[i := orders[i].(status := RefundedStatus(orders[i]))] else orders;
    VisitKeepsUnlocks(orders, unlocks, left, i);
    if closes {
      CancelledKeepsUnlocks(orders, unlocks, false, Listed(left - {i}), i, RefundedStatus(orders[i]));
    }
    if landed {
      ReleaseKeepsUnlocks(after, unlocks, false, Listed(left - {i}), Unlock(i, RefundRaw(orders[i]), AtLock));
    }
  }

  // ---------------------------------------------------------------- the protocol, event by event

  lemma {:induction false} NoFillsBeyond(fills: seq<nat>, matches: seq<Match>, row: nat)
    requires FillsOk(fills, matches) && row >= |matches|
    ensures Times(fills, row) == 0
  {
    if |fills| > 0 {
      NoFillsBeyond(fills[..|fills| - 1], matches, row);
    }
  }

  lemma {:induction false} NothingWrittenBeyond(attempts: seq<Attempt>, bound: nat, row: nat)
    requires row >= bound && forall a :: 0 <= a < |attempts| ==> attempts[a].row < bound
    ensures Written(attempts, row) == 0
  {
    if |attempts| > 0 {
      NothingWrittenBeyond(attempts[..|attempts| - 1], bound, row);
    }
  }

  lemma {:induction false} WrittenPositive(attempts: seq<Attempt>, a: nat)
    requires a < |attempts| && attempts[a].stage >= ERASE
    ensures Written(attempts, attempts[a].row) > 0
  {
    if a < |attempts| - 1 {
      WrittenPositive(attempts[..|attempts| - 1], a);
    }
  }

  lemma {:induction false} WrittenUpdate(attempts: seq<Attempt>, a: nat, x: Attempt, row: nat)
    requires a < |attempts| && x.row == attempts[a].row
    ensures Written(attempts[a := x], row)
            == Written(attempts, row)
               + (if x.row == row && x.stage >= ERASE then 1 else 0)
               - (if x.row == row && attempts[a].stage >= ERASE then 1 else 0)
  {
    var n := |attempts| - 1;
    if a == n {
      assert attempts[a := x][..n] == attempts[..n];
    } else {
      WrittenUpdate(attempts[..n], a, x, row);
      assert attempts[a := x][..n] == attempts[..n][a := x];
    }
  }

  lemma WrittenPush(attempts: seq<Attempt>, x: Attempt, row: nat)
    ensures Written(attempts + [x], row) == Written(attempts, row) + if x.row == row && x.stage >= ERASE then 1 else 0
  {
    assert (attempts + [x])[..|attempts|] == attempts;
  }

  lemma SubmitKeepsProtocol(s: State, more: seq<Match>)
    requires ProtocolInv(s.matches, s.pending, s.log, s.fills, s.attempts)
    ensures ProtocolInv(s.matches + more, s.pending + NewRows(|s.matches|, |more|), s.log, s.fills, s.attempts)
  {
    var matches := s.matches + more;
    var pending := s.pending + NewRows(|s.matches|, |more|);
    forall row | 0 <= row < |matches| ensures RowOk(row, s.log, s.fills, pending, s.attempts) {
      if row < |s.matches| {
        assert RowOk(row, s.log, s.fills, s.pending, s.attempts);
      } else {
        NoFillsBeyond(s.fills, s.matches, row);
        forall a | 0 <= a < |s.attempts| ensures s.attempts[a].row < |s.matches| {
          assert AttemptOk(s.attempts[a], s.matches, s.log, s.pending);
        }
        NothingWrittenBeyond(s.attempts, |s.matches|, row);
      }
    }
    forall a | 0 <= a < |s.attempts| ensures AttemptOk(s.attempts[a], matches, s.log, pending) {
      assert AttemptOk(s.attempts[a], s.matches, s.log, s.pending);
    }
  }

  lemma BeginKeepsProtocol(s: State, row: nat)
    requires ProtocolInv(s.matches, s.pending, s.log, s.fills, s.attempts) && row < |s.matches|
    ensures ProtocolInv(s.matches, s.pending, s.log, s.fills, s.attempts + [Attempt(row, 0, true)])
  {
    var attempts := s.attempts + [Attempt(row, 0, true)];
    forall r | 0 <= r < |s.matches| ensures RowOk(r, s.log, s.fills, s.pending, attempts) {
      assert RowOk(r, s.log, s.fills, s.pending, s.attempts);
      WrittenPush(s.attempts, Attempt(row, 0, true), r);
    }
    forall a | 0 <= a < |attempts| ensures AttemptOk(attempts[a], s.matches, s.log, s.pending) {
      assert a < |s.attempts| ==> AttemptOk(s.attempts[a], s.matches, s.log, s.pending);
    }
  }

  /** An attempt that stops keeps its stage, so nothing it promised is lost. */
  lemma StopKeepsProtocol(s: State, a: nat)
    requires ProtocolInv(s.matches, s.pending, s.log, s.fills, s.attempts) && a < |s.attempts|
    ensures ProtocolInv(s.matches, s.pending, s.log, s.fills, s.attempts[a := s.attempts[a].(running := false)])
  {
    var x := s.attempts[a].(running := false);
    var attempts := s.attempts[a := x];
    assert AttemptOk(s.attempts[a], s.matches, s.log, s.pending);
    forall r | 0 <= r < |s.matches| ensures RowOk(r, s.log, s.fills, s.pending, attempts) {
      assert RowOk(r, s.log, s.fills, s.pending, s.attempts);
      WrittenUpdate(s.attempts, a, x, r);
    }
    forall b | 0 <= b < |attempts| ensures AttemptOk(attempts[b], s.matches, s.log, s.pending) {
      assert AttemptOk(s.attempts[b], s.matches, s.log, s.pending);
    }
  }

  /** Movements land in plan order, and a repeated one changes nothing. */
  lemma LandKeepsLog(log: seq<Key>, matches: seq<Match>, row: nat, stage: nat)
    requires LogInv(log, matches) && row < |matches| && stage < 4 && |RolesOf(log, row)| >= stage
    ensures var after := Land(log, Key(row, PLAN[stage]));
            && LogInv(after, matches)
            && |RolesOf(after, row)| >= stage + 1
            && (forall r: nat :: RolesOf(log, r) <= RolesOf(after, r))
  {
    var key := Key(row, PLAN[stage]);
    var roles := RolesOf(log, row);
    RolesOfMembers(log, row, PLAN[stage]);
    forall r: nat ensures RolesOf(log, r) <= RolesOf(log + [key], r) {
      RolesOfPush(log, key, r);
    }
    if |roles| > stage {
      assert roles[stage] == PLAN[stage];
    } else {
      assert roles == PLAN[..stage];
      assert key !in log;
      forall r: nat ensures RolesOf(log + [key], r) <= PLAN {
        RolesOfPush(log, key, r);
        assert PLAN[..stage] + [PLAN[stage]] == PLAN[..stage + 1];
      }
      RolesOfPush(log, key, row);
    }
  }

  lemma SendKeepsProtocol(s: State, a: nat, outcome: Outcome)
    requires ProtocolInv(s.matches, s.pending, s.log, s.fills, s.attempts)
    ensures var t := ApplySend(s, a, outcome); ProtocolInv(t.matches, t.pending, t.log, t.fills, t.attempts)
  {
    if a < |s.attempts| && s.attempts[a].running && s.attempts[a].stage < WRITE {
      var x := s.attempts[a];
      var t := ApplySend(s, a, outcome);
      assert AttemptOk(x, s.matches, s.log, s.pending);
      LandKeepsLog(s.log, s.matches, x.row, x.stage);
      forall r | 0 <= r < |s.matches| ensures RowOk(r, t.log, s.fills, s.pending, t.attempts) {
        assert RowOk(r, s.log, s.fills, s.pending, s.attempts);
        WrittenUpdate(s.attempts, a, t.attempts[a], r);
        assert RolesOf(s.log, r) <= RolesOf(t.log, r) <= PLAN;
      }
      forall b | 0 <= b < |t.attempts| ensures AttemptOk(t.attempts[b], s.matches, t.log, s.pending) {
        assert AttemptOk(s.attempts[b], s.matches, s.log, s.pending);
        assert RolesOf(s.log, s.attempts[b].row) <= RolesOf(t.log, s.attempts[b].row);
      }
    }
  }

  /** Committing the position transaction adds one fill row and one written attempt. */
  lemma RecordKeepsProtocol(s: State, a: nat, running: bool)
    requires ProtocolInv(s.matches, s.pending, s.log, s.fills, s.attempts)
    requires AtStage(s, a, WRITE)
    ensures var row := s.attempts[a].row;
            && row < |s.matches|
            && ProtocolInv(s.matches, s.pending, s.log, s.fills + [row], s.attempts[a := Attempt(row, ERASE, running)])
  {
    var x := Attempt(s.attempts[a].row, ERASE, running);
    var attempts := s.attempts[a := x];
    var fills := s.fills + [x.row];
    assert AttemptOk(s.attempts[a], s.matches, s.log, s.pending);
    assert RolesOf(s.log, x.row) <= PLAN;
    forall r | 0 <= r < |s.matches| ensures RowOk(r, s.log, fills, s.pending, attempts) {
      assert RowOk(r, s.log, s.fills, s.pending, s.attempts);
      WrittenUpdate(s.attempts, a, x, r);
      TimesPush(s.fills, x.row, r);
    }
    forall b | 0 <= b < |attempts| ensures AttemptOk(attempts[b], s.matches, s.log, s.pending) {
      assert AttemptOk(s.attempts[b], s.matches, s.log, s.pending);
    }
  }

  lemma EraseKeepsProtocol(s: State, a: nat, outcome: Outcome)
    requires ProtocolInv(s.matches, s.pending, s.log, s.fills, s.attempts)
    ensures var t := ApplyErase(s, a, outcome); ProtocolInv(t.matches, t.pending, t.log, t.fills, t.attempts)
  {
    if AtStage(s, a, ERASE) {
      var x := s.attempts[a];
      var t := ApplyErase(s, a, outcome);
      assert AttemptOk(x, s.matches, s.log, s.pending);
      WrittenPositive(s.attempts, a);
      forall r | 0 <= r < |s.matches| ensures RowOk(r, s.log, s.fills, t.pending, t.attempts) {
        assert RowOk(r, s.log, s.fills, s.pending, s.attempts);
        WrittenUpdate(s.attempts, a, t.attempts[a], r);
      }
      forall b | 0 <= b < |t.attempts| ensures AttemptOk(t.attempts[b], s.matches, s.log, t.pending) {
        assert AttemptOk(s.attempts[b], s.matches, s.log, s.pending);
      }
    }
  }

  // ---------------------------------------------------------------- positions, event by event

  lemma SubmitKeepsPositions(s: State, more: seq<Match>)
    requires PositionsInv(s.matches, s.positions, s.fills, s.nettings) && AllMatchesOk(s.matches + more)
    ensures PositionsInv(s.matches + more, s.positions, s.fills, s.nettings)
  {
    FillTotalStable(s.fills, s.matches, more);
    forall u, side
      ensures SharesOf(s.positions, u, side) + NettedOf(s.nettings, u)
              == FilledFor(s.fills, s.matches + more, u, side)
    {
      FilledForStable(s.fills, s.matches, more, u, side);
    }
  }

  lemma ApplyFillEffect(ps: seq<Position>, m: Match, u: User, side: Side)
    requires UniqueRows(ps) && MatchOk(m)
    ensures var after := ApplyFill(ps, m);
            && UniqueRows(after)
            && SharesOf(after, u, side) == SharesOf(ps, u, side) + ShareOfMatch(m, u, side)
            && TotalShares(after, side) == TotalShares(ps, side) + m.size
  {
    var mid := Upsert(ps, m.makerUser, m.makerSide, m.size, m.price);
    ApplyFillIsBothUpserts(ps, m);
    UpsertKeepsRows(ps, m.makerUser, m.makerSide, m.size, m.price);
    UpsertKeepsRows(mid, m.takerUser, m.takerSide, m.size, TakerPrice(m));
    UpsertEffect(ps, m.makerUser, m.makerSide, m.size, m.price, u, side);
    UpsertEffect(mid, m.takerUser, m.takerSide, m.size, TakerPrice(m), u, side);
    UpsertTotal(ps, m.makerUser, m.makerSide, m.size, m.price, side);
    UpsertTotal(mid, m.takerUser, m.takerSide, m.size, TakerPrice(m), side);
  }

  lemma ApplyFillFits(ps: seq<Position>, m: Match)
    requires AllFit(ps) && MatchOk(m) && Records(ps, m)
    ensures AllFit(ApplyFill(ps, m))
  {
    ApplyFillIsBothUpserts(ps, m);
    RecordsIsBothAccepted(ps, m);
    MatchPricesFit(m);
    UpsertKeepsFit(ps, m.makerUser, m.makerSide, m.size, m.price);
    UpsertKeepsFit(Upsert(ps, m.makerUser, m.makerSide, m.size, m.price), m.takerUser, m.takerSide, m.size,
                   TakerPrice(m));
  }

  lemma RecordKeepsPositions(matches: seq<Match>, ps: seq<Position>, fills: seq<nat>, nettings: seq<Netting>, row: nat)
    requires PositionsInv(matches, ps, fills, nettings) && row < |matches| && Records(ps, matches[row])
    ensures PositionsInv(matches, ApplyFill(ps, matches[row]), fills + [row], nettings)
  {
    var after := ApplyFill(ps, matches[row]);
    FillTotalPush(fills, matches, row);
    forall u, side
      ensures SharesOf(after, u, side) + NettedOf(nettings, u) == FilledFor(fills + [row], matches, u, side)
    {
      ApplyFillEffect(ps, matches[row], u, side);
      FilledForPush(fills, matches, row, u, side);
    }
    forall side ensures TotalShares(after, side) + NettedTotal(nettings) == FillTotal(fills + [row], matches) {
      ApplyFillEffect(ps, matches[row], "", side);
    }
    ApplyFillEffect(ps, matches[row], "", Yes);
    ApplyFillFits(ps, matches[row]);
    FillKeepsNettings(nettings, ps, matches[row]);
  }

  lemma NetKeepsShares(matches: seq<Match>, ps: seq<Position>, fills: seq<nat>, nettings: seq<Netting>,
                       user: User, amount: int, u: User, side: Side)
    requires FillsOk(fills, matches) && UniqueRows(ps) && HasRow(ps, user, side)
    requires SharesOf(ps, u, side) + NettedOf(nettings, u) == FilledFor(fills, matches, u, side)
    ensures SharesOf(NetPositions(ps, user, amount), u, side) + NettedOf(nettings + [Netting(user, amount)], u)
            == FilledFor(fills, matches, u, side)
  {
    NetEffect(ps, user, amount, u, side);
    NettedPush(nettings, Netting(user, amount), u);
  }

  lemma NetKeepsTotal(ps: seq<Position>, nettings: seq<Netting>, user: User, amount: int, side: Side)
    requires UniqueRows(ps) && HasRow(ps, user, side)
    ensures TotalShares(NetPositions(ps, user, amount), side) + NettedTotal(nettings + [Netting(user, amount)])
            == TotalShares(ps, side) + NettedTotal(nettings)
  {
    NetTotal(ps, user, amount, side);
    NettedPush(nettings, Netting(user, amount), user);
  }

  lemma NetKeepsPositions(matches: seq<Match>, ps: seq<Position>, fills: seq<nat>, nettings: seq<Netting>, user: User,
                          amount: int)
    requires PositionsInv(matches, ps, fills, nettings)
    requires amount > 0 && HasRow(ps, user, Yes) && HasRow(ps, user, No)
    ensures PositionsInv(matches, NetPositions(ps, user, amount), fills, nettings + [Netting(user, amount)])
  {
    var after, more := NetPositions(ps, user, amount), nettings + [Netting(user, amount)];
    NetEffect(ps, user, amount, user, Yes);
    NetKeepsNettings(nettings, ps, user, amount);
    forall u, side ensures SharesOf(after, u, side) + NettedOf(more, u) == FilledFor(fills, matches, u, side) {
      assert SharesOf(ps, u, side) + NettedOf(nettings, u) == FilledFor(fills, matches, u, side);
      NetKeepsShares(matches, ps, fills, nettings, user, amount, u, side);
    }
    forall side ensures TotalShares(after, side) + NettedTotal(more) == FillTotal(fills, matches) {
      assert TotalShares(ps, side) + NettedTotal(nettings) == FillTotal(fills, matches);
      NetKeepsTotal(ps, nettings, user, amount, side);
    }
  }

  // ---------------------------------------------------------------- every run

  lemma InitInv()
    ensures Inv(INIT)
  {
  }

  lemma SubmitKeepsInv(s: State, user: User, side: Side, price: int, size: int)
    requires Inv(s)
    ensures Inv(ApplySubmit(s, user, side, price, size))
  {
    if s.trading && 0 < price < ONE && size > 0 {
      var more := MatchesFor(s.orders, user, side, price, size);
      SubmitKeepsTrading(s.orders, s.matches, user, side, price, size);
      SubmitKeepsUnlocks(s.orders, s.unlocks, s.listing, user, side, price, size);
      SubmitKeepsProtocol(s, more);
      SubmitKeepsPositions(s, more);
    }
  }

  lemma WithdrawKeepsInv(s: State, i: nat, user: User, outcome: Outcome)
    requires Inv(s)
    ensures Inv(ApplyWithdraw(s, i, user, outcome))
  {
    if i < |s.orders| && s.orders[i].status == Open {
      CloseKeepsTrading(s.orders, s.matches, i, Cancelled);
      WithdrawKeepsUnlocks(s.orders, s.unlocks, s.trading, s.listing, i, outcome != NeverArrived);
    }
  }

  lemma RefundKeepsInv(s: State, i: nat, outcome: Outcome)
    requires Inv(s)
    ensures Inv(ApplyRefund(s, i, outcome))
  {
    if ToRefund(s, i) {
      var closes := outcome == Acked && s.orders[i].status == Open;
      RefundKeepsUnlocks(s.orders, s.unlocks, s.listing.left, i, closes, outcome != NeverArrived);
      if closes {
        CloseKeepsTrading(s.orders, s.matches, i, RefundedStatus(s.orders[i]));
      }
    }
  }

  lemma LockKeepsInv(s: State)
    requires Inv(s)
    ensures Inv(ApplyLock(s))
  {
    forall k | 0 <= k < |s.unlocks| ensures UnlockOk(s.unlocks[k], s.orders, false, s.listing) {
      assert UnlockOk(s.unlocks[k], s.orders, s.trading, s.listing);
    }
  }

  lemma ListKeepsInv(s: State)
    requires Inv(s)
    ensures Inv(ApplyListOpen(s))
  {
    if !s.trading && s.listing.Unlisted? {
      var listing := Listed(OpenOrders(s.orders));
      forall k | 0 <= k < |s.unlocks| ensures UnlockOk(s.unlocks[k], s.orders, false, listing) {
        assert UnlockOk(s.unlocks[k], s.orders, s.trading, s.listing);
      }
    }
  }

  lemma BeginKeepsInv(s: State, row: nat)
    requires Inv(s)
    ensures Inv(ApplyBegin(s, row))
  {
    if row < |s.matches| {
      BeginKeepsProtocol(s, row);
    }
  }

  lemma SendKeepsInv(s: State, a: nat, outcome: Outcome)
    requires Inv(s)
    ensures Inv(ApplySend(s, a, outcome))
  {
    SendKeepsProtocol(s, a, outcome);
  }

  lemma EraseKeepsInv(s: State, a: nat, outcome: Outcome)
    requires Inv(s)
    ensures Inv(ApplyErase(s, a, outcome))
  {
    EraseKeepsProtocol(s, a, outcome);
  }

  lemma CrashKeepsInv(s: State, a: nat)
    requires Inv(s)
    ensures Inv(ApplyCrash(s, a))
  {
    if a < |s.attempts| {
      StopKeepsProtocol(s, a);
    }
  }

  lemma NetDownKeepsInv(s: State, user: User, amount: int)
    requires Inv(s)
    ensures Inv(ApplyNetDown(s, user, amount))
  {
    if CanNet(s, user, amount) {
      NetKeepsPositions(s.matches, s.positions, s.fills, s.nettings, user, amount);
    }
  }

  lemma RecordKeepsInv(s: State, a: nat, outcome: Outcome)
    requires Inv(s)
    ensures Inv(ApplyRecord(s, a, outcome))
  {
    if AtStage(s, a, WRITE) {
      var row := s.attempts[a].row;
      assert AttemptOk(s.attempts[a], s.matches, s.log, s.pending);
      if outcome == NeverArrived || !Records(s.positions, s.matches[row]) {
        StopKeepsProtocol(s, a);
      } else {
        RecordKeepsProtocol(s, a, outcome == Acked);
        RecordKeepsPositions(s.matches, s.positions, s.fills, s.nettings, row);
      }
    }
  }

  predicate IsSettlement(e: Event)
  {
    e.Begin? || e.Send? || e.Record? || e.Erase? || e.Crash?
  }

  lemma SettlementKeepsInv(s: State, e: Event)
    requires Inv(s) && IsSettlement(e)
    ensures Inv(Apply(s, e))
  {
    match e
    case Begin(row) => BeginKeepsInv(s, row);
    case Send(a, outcome) => SendKeepsInv(s, a, outcome);
    case Record(a, outcome) => RecordKeepsInv(s, a, outcome);
    case Erase(a, outcome) => EraseKeepsInv(s, a, outcome);
    case Crash(a) => CrashKeepsInv(s, a);
  }

  lemma TradingKeepsInv(s: State, e: Event)
    requires Inv(s) && !IsSettlement(e)
    ensures Inv(Apply(s, e))
  {
    match e
    case Submit(user, side, price, size) => SubmitKeepsInv(s, user, side, price, size);
    case Withdraw(i, user, outcome) => WithdrawKeepsInv(s, i, user, outcome);
    case LockRound => LockKeepsInv(s);
    case ListOpen => ListKeepsInv(s);
    case RefundRest(i, outcome) => RefundKeepsInv(s, i, outcome);
    case NetDown(user, amount) => NetDownKeepsInv(s, user, amount);
  }

  lemma EventKeepsInv(s: State, e: Event)
    requires Inv(s)
    ensures Inv(Apply(s, e))
  {
    if IsSettlement(e) {
      SettlementKeepsInv(s, e);
    } else {
      TradingKeepsInv(s, e);
    }
  }

  /** The invariant holds in every state of every run. */
  lemma {:induction false} RunsKeepInv(s: State, es: seq<Event>)
    requires Inv(s)
    ensures Inv(After(s, es))
  {
    if |es| > 0 {
      RunsKeepInv(s, es[..|es| - 1]);
      EventKeepsInv(After(s, es[..|es| - 1]), es[|es| - 1]);
    }
  }

  lemma ReachableAfter(s: State, es: seq<Event>, t: State)
    requires Reachable(s) && Reached(s, es, t)
    ensures Reachable(t)
  {
    var front :| s == End(INIT, front);
    ReachedConcat(INIT, front, s, es, t);
    assert t == End(INIT, front + es);
  }

  /** Some run leads here from the opening of the window. */
  ghost predicate Reachable(s: State)
  {
    exists es :: s == End(INIT, es)
  }

  lemma ReachableInv(s: State)
    requires Reachable(s)
    ensures Inv(s)
  {
    var es :| s == End(INIT, es);
    InitInv();
    ReachedKeepsInv(INIT, es, s);
  }

  lemma ReachedKeepsInv(s: State, es: seq<Event>, t: State)
    requires Inv(s) && Reached(s, es, t)
    ensures Inv(t)
  {
    RunsKeepInv(s, es);
    ReachedIsAfter(s, es, t);
  }
}
