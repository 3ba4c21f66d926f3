/**
 The matcher: placing, settling, cancelling and selling, over the tables and the
 wallet backend.  Each operation is proved to be a run of the state machine in
 Market, and an undisturbed one to be exactly the run its name promises.
 */
module Matching {
  import opened Types
  import opened Sums
  import opened Money
  import opened Book
  import opened Ledger
  import opened Market
  import opened Protocol
  import opened Funding
  import opened Selling
  import opened Tables

  /** The same step, whatever became of it. */
  predicate SameStep(e: Event, f: Event)
  {
    match f
    case Send(a, _) => e.Send? && e.attempt == a
    case Record(a, _) => e.Record? && e.attempt == a
    case Erase(a, _) => e.Erase? && e.attempt == a
    case _ => e == f
  }

  /** What a call of the settlement routine may look like: the plan, cut short by one failure. */
  predicate IsCall(es: seq<Event>, a: nat, row: nat)
  {
    && 1 <= |es| <= 7
    && (forall k :: 0 <= k < |es| - 1 ==> es[k] == CleanStep(a, row, k))
    && SameStep(es[|es| - 1], CleanStep(a, row, |es| - 1))
  }

  /** `more` is `es` and one remote call by attempt `a`, acknowledged or not. */
  predicate SentBy(es: seq<Event>, more: seq<Event>, a: nat, ok: bool)
  {
    && |more| == |es| + 1 && more[..|es|] == es
    && more[|es|].Send? && more[|es|].attempt == a && (ok <==> more[|es|].outcome == Acked)
  }

  lemma CallExtends(start: State, so: seq<Event>, es: seq<Event>, before: State, call: seq<Event>, end: State)
    requires Reached(start, so + es, before) && Reached(before, call, end)
    ensures Reached(start, so + (es + call), end)
  {
    ReachedConcat(start, so + es, before, call, end);
    assert so + es + call == so + (es + call);
  }

  lemma CallCounts(es: seq<Event>, call: seq<Event>, a: nat, rows: seq<nat>, k: nat, ok: bool)
    requires k < |rows| && es == SweepCalls(a, rows[..k])
    requires IsCall(call, a + k, rows[k]) && (ok <==> call == CleanCall(a + k, rows[k]))
    ensures ok ==> es + call == SweepCalls(a, rows[..k + 1])
    ensures !ok ==> GaveUpAt(es + call, a, rows, k, call)
  {
    NextCall(a, rows, k);
  }

  /** All calls before the n-th went through undisturbed; the n-th was cut short as `call`. */
  predicate GaveUpAt(es: seq<Event>, a: nat, rows: seq<nat>, n: nat, call: seq<Event>)
  {
    && n < |rows| && IsCall(call, a + n, rows[n]) && call != CleanCall(a + n, rows[n])
    && es == SweepCalls(a, rows[..n]) + call
  }

  lemma BeginReached(s: State, row: nat)
    requires row < |s.matches|
    ensures Reached(s, [Begin(row)], s.(attempts := s.attempts + [Attempt(row, 0, true)]))
  {
    ReachedIsAfter(s, [], s);
    ReachedPush(s, [], s, Begin(row));
    assert [] + [Begin(row)] == [Begin(row)];
  }

  lemma SubmitReached(s: State, user: User, side: Side, price: int, size: int)
    ensures Reached(s, [Submit(user, side, price, size)], ApplySubmit(s, user, side, price, size))
  {
    ReachedIsAfter(s, [], s);
    ReachedPush(s, [], s, Submit(user, side, price, size));
    assert [] + [Submit(user, side, price, size)] == [Submit(user, side, price, size)];
  }

  lemma CompleteCall(es: seq<Event>, a: nat, row: nat)
    requires IsCall(es, a, row)
    ensures es == CleanCall(a, row) <==> |es| == 7 && es[6] == Erase(a, Acked)
  {
  }

  lemma PlannedDebits(m: Match, row: nat, s: Split)
    requires s == SplitOf(m.makerSide, m.price, m.size)
    ensures IsPlanned(Movement(Key(row, MakerDebit), m.makerUser, -ToRawUnits(s.makerCost + s.makerFee)), m)
    ensures IsPlanned(Movement(Key(row, TakerDebit), m.takerUser, -ToRawUnits(s.takerCost + s.takerFee)), m)
  {
  }

  lemma PlannedFees(m: Match, row: nat, s: Split)
    requires s == SplitOf(m.makerSide, m.price, m.size)
    ensures IsPlanned(Movement(Key(row, MakerFee), m.makerUser, ToRawUnits(s.makerFee)), m)
    ensures IsPlanned(Movement(Key(row, TakerFee), m.takerUser, ToRawUnits(s.takerFee)), m)
  {
  }

  /** After an undisturbed call both parties have been charged and both fees paid on, in full. */
  lemma AllCharged(start: State, es: seq<Event>, row: nat, t: State, movements: seq<Movement>, inserted: seq<Match>)
    requires row < |start.matches| && es == CleanCall(|start.attempts|, row) && Reached(start, es, t)
    requires t.log == KeysOf(movements) && start.matches == inserted
    requires PaidAsPlanned(movements, inserted) && MatchOk(inserted[row])
    ensures ChargedInFull(movements, row, inserted[row])
  {
    CleanCallReaches(start, row);
    ReachedOnce(start, es, t, CallEnd(start, row));
    CallEndIs(start, row);
    forall role ensures Charged(movements, row, role, inserted[row]) {
      PlanLands(start.log, row, role);
      LandedIsCharged(movements, inserted, row, role);
    }
  }

  lemma RowsPush(first: nat, count: nat)
    ensures Rows(first, count + 1) == Rows(first, count) + [first + count]
    ensures NewRows(first, count + 1) == NewRows(first, count) + {first + count}
  {
  }

  /** The matching loop for an incoming order appended to a table. */
  datatype Loop = Loop(table: seq<Order>, o: Order) {

    function Book(): (book: seq<nat>)
      ensures Ids(table, book)
    {
      OpposingBook(table, Opposite(o.side))
    }

    function Want(): seq<Take>
    {
      TakesFor(table, o.side, o.price, o.size)
    }

    /**
     After k makers: what was taken and what the rest of the book will give make
     up the sweep, the table shows the takes, and the makers ahead are untouched.
     */
    predicate Midway(k: nat, remaining: int, done: seq<Take>, orders: seq<Order>, pending: seq<Match>)
    {
      && k <= |Book()|
      && done + Sweep(table, Book()[k..], o.price, remaining) == Want()
      && remaining == o.size - Taken(done)
      && (forall j :: 0 <= j < |done| ==> done[j].maker < |table|)
      && orders == FillMakers(table, done) + [o]
      && (forall j :: k <= j < |Book()| ==> orders[Book()[j]] == table[Book()[j]])
      && |pending| == |done| && (forall j :: 0 <= j < |done| ==> pending[j] == MatchOf(table, done[j], o.user, o.side))
    }

    /** Midway, unfolded only where a proof names k. */
    ghost predicate Inv(k: nat, remaining: int, done: seq<Take>, orders: seq<Order>, pending: seq<Match>)
    {
      forall x {:trigger Seen(x)} :: Seen(x) && x == k ==> Midway(x, remaining, done, orders, pending)
    }

    lemma Rests(k: nat, remaining: int, done: seq<Take>, orders: seq<Order>, pending: seq<Match>)
      requires Inv(k, remaining, done, orders, pending) && k < |Book()|
      ensures Book()[k] < |table| <= |orders| && orders[Book()[k]] == table[Book()[k]]
    {
      assert Seen(k);
    }

    lemma BookWithoutIt()
      ensures OpposingBook(table + [o], Opposite(o.side)) == Book()
    {
      TakesIgnoreNewRow(table, o, o.side, o.price, o.size);
    }

    lemma Starts()
      ensures Inv(0, o.size, [], table + [o], [])
    {
      assert Book()[0..] == Book();
      assert [] + Want() == Want();
      assert Taken([]) == 0;
    }

    lemma Skips(k: nat, remaining: int, done: seq<Take>, orders: seq<Order>, pending: seq<Match>)
      requires Inv(k, remaining, done, orders, pending) && k < |Book()| && remaining != 0 && Book()[k] < |orders|
      requires var resting := orders[Book()[k]]; Remainder(resting) <= 0 || !Compatible(resting.price, o.price)
      ensures Inv(k + 1, remaining, done, orders, pending)
    {
      assert Seen(k);
      assert Book()[k..][1..] == Book()[k + 1..];
    }

    lemma Takes(k: nat, remaining: int, done: seq<Take>, orders: seq<Order>, pending: seq<Match>)
      requires Inv(k, remaining, done, orders, pending) && k < |Book()| && remaining != 0 && Book()[k] < |orders|
      requires var resting := orders[Book()[k]]; Remainder(resting) > 0 && Compatible(resting.price, o.price)
      ensures var i := Book()[k];
              var t := Take(i, Min(remaining, Remainder(orders[i])));
              Inv(k + 1, remaining - t.size, done + [t], orders[i := Fill(orders[i], t.size)],
                  pending + [MatchOf(table, t, o.user, o.side)])
    {
      assert Seen(k);
      var book := Book();
      var i := book[k];
      var t := Take(i, Min(remaining, Remainder(orders[i])));
      var rest := Sweep(table, book[k + 1..], o.price, remaining - t.size);
      assert book[k..][1..] == book[k + 1..];
      assert Sweep(table, book[k..], o.price, remaining) == [t] + rest;
      assert done + ([t] + rest) == done + [t] + rest;
      TakenSnoc(done, t);
      assert (done + [t])[..|done|] == done;
      var front := FillMakers(table, done);
      assert FillMakers(table, done + [t]) == front[i := Fill(front[i], t.size)];
      assert (front + [o])[i := Fill(front[i], t.size)] == front[i := Fill(front[i], t.size)] + [o];
      BookUpToSorted(table, Opposite(o.side), |table|);
      forall j | k + 1 <= j < |book| ensures book[j] != i {
        assert Before(table, book[k], book[j]);
      }
    }

    /** The row of the incoming order once `remaining` is all that is left of it. */
    function Close(remaining: int): Order
    {
      o.(filled := o.filled + (o.size - remaining), status := if remaining == 0 then Filled else Open)
    }

    /** What the finished loop leaves for the incoming row's own update. */
    predicate Done(remaining: int, orders: seq<Order>, pending: seq<Match>)
    {
      && pending == MatchesFor(table, o.user, o.side, o.price, o.size)
      && remaining == o.size - Taken(TakesFor(table, o.side, o.price, o.size))
      && |orders| == |table| + 1 && orders[|table|] == o
      && (o.filled == 0 ==> orders[|table| := Close(remaining)] == Place(table, o.user, o.side, o.price, o.size))
    }

    lemma Ends(k: nat, remaining: int, done: seq<Take>, orders: seq<Order>, pending: seq<Match>)
      requires Inv(k, remaining, done, orders, pending) && (k == |Book()| || remaining == 0)
      ensures Done(remaining, orders, pending)
    {
      assert Seen(k);
      assert Sweep(table, Book()[k..], o.price, remaining) == [];
      assert done == done + [];
    }
  }

  /** How far a placement got before returning. */
  datatype Placement = NoUser | NoHold | NotInserted(undo: Outcome) | Placed(id: nat)

  /** Row ids together with the rows they name. */
  predicate RowsOf(rows: seq<nat>, pending: seq<Match>, inserted: seq<Match>)
  {
    |rows| == |pending| && forall k :: 0 <= k < |rows| ==> rows[k] < |inserted| && pending[k] == inserted[rows[k]]
  }

  /** A valid order submitted in state s fills this much at once. */
  predicate FilledOnEntry(s: State, side: Side, price: int, size: int, filled: int)
  {
    0 < price < ONE && size > 0 && filled == Taken(TakesFor(s.orders, side, price, size))
  }

  /** The rows a placement in state s inserts. */
  function NewMatchRows(s: State, user: User, side: Side, price: int, size: int): seq<nat>
  {
    Rows(|s.matches|, |MatchesFor(s.orders, user, side, price, size)|)
  }

  /**
   The settlement half of a placement: its rows in order, all of them or up to
   the first call that failed.
   */
  predicate SettledRows(calls: seq<Event>, s: State, rows: seq<nat>, settled: bool, n: nat, call: seq<Event>)
  {
    && (settled ==> calls == SweepCalls(|s.attempts|, rows))
    && (!settled ==> GaveUpAt(calls, |s.attempts|, rows, n, call))
  }

  /** How a sale ended. */
  datatype Sale = NoPosition | TooMuch | NotSettled | NotNetted | Sold(filled: int)

  /** The database took the position transactions of all the matches of a placement made in s. */
  ghost predicate PlacementRecords(s: State, user: User, side: Side, price: int, size: int)
  {
    AllRecord(s.positions, s.matches + MatchesFor(s.orders, user, side, price, size),
              NewMatchRows(s, user, side, price, size))
  }

  /** A settled hedge is exactly the hedge of the sale, so its netting has both rows to net. */
  lemma SaleMatchesItsEvents(s: State, user: User, side: Side, size: int, minPrice: int, calls: seq<Event>,
                             hedged: State)
    requires Reachable(s) && s.trading && 0 < minPrice < ONE && 0 < size <= SharesOf(s.positions, user, side)
    requires Reached(s, [Submit(user, Opposite(side), HedgePrice(side, minPrice), size)] + calls, hedged)
    requires calls == SweepCalls(|s.attempts|, NewMatchRows(s, user, Opposite(side), HedgePrice(side, minPrice), size))
    requires PlacementRecords(s, user, Opposite(side), HedgePrice(side, minPrice), size)
    ensures [Submit(user, Opposite(side), HedgePrice(side, minPrice), size)] + calls
            == HedgeEvents(s, user, side, size, minPrice)
    ensures SellEvents(s, user, side, size, minPrice)
            == HedgeEvents(s, user, side, size, minPrice)
               + [NetDown(user, Taken(TakesFor(s.orders, Opposite(side), HedgePrice(side, minPrice), size)))]
    ensures var filled := Taken(TakesFor(s.orders, Opposite(side), HedgePrice(side, minPrice), size));
            && (filled == 0 || CanNet(hedged, user, filled))
            && filled == TotalMatched(HedgeMatches(s, user, side, size, minPrice))
            && filled == Min(size, Liquidity(s.orders, side, WorstMaker(side, minPrice)))
  {
    ReachableInv(s);
    SaleHoldings(s, hedged, user, side, size, minPrice, TotalMatched(HedgeMatches(s, user, side, size, minPrice)));
    HedgeMatchesFacts(s, user, side, size, minPrice);
    TakesTotal(s.orders, TakesFor(s.orders, Opposite(side), HedgePrice(side, minPrice), size), user, Opposite(side),
               HedgeMatches(s, user, side, size, minPrice));
  }

  /** A hedge that did not settle: nothing at all, or the submission and its calls cut short at one. */
  predicate HedgeCutShort(es: seq<Event>, s: State, user: User, side: Side, size: int, minPrice: int, n: nat,
                          call: seq<Event>)
  {
    var submit := Submit(user, Opposite(side), HedgePrice(side, minPrice), size);
    || es == []
    || (|es| > 0 && es[0] == submit
        && GaveUpAt(es[1..], |s.attempts|, NewMatchRows(s, user, Opposite(side), HedgePrice(side, minPrice), size), n,
                    call))
  }

  /** Positions `qs` are `ps` with the first k rows of the list recorded, one by one. */
  ghost predicate RecordedUpTo(ps: seq<Position>, inserted: seq<Match>, rows: seq<nat>, k: nat, qs: seq<Position>)
  {
    && k <= |rows| && AreRows(rows, inserted)
    && AllRecord(ps, inserted, rows[..k]) && qs == FillAll(ps, inserted, rows[..k])
  }

  lemma OneMoreRecorded(ps: seq<Position>, inserted: seq<Match>, rows: seq<nat>, k: nat, qs: seq<Position>)
    requires RecordedUpTo(ps, inserted, rows, k, qs) && k < |rows| && Records(qs, inserted[rows[k]])
    ensures RecordedUpTo(ps, inserted, rows, k + 1, ApplyFill(qs, inserted[rows[k]]))
  {
    FillAllPush(ps, inserted, rows, k);
    AllRecordPush(ps, inserted, rows, k);
  }

  class Matcher {
    const repo: Repo
    const client: Backend
    ghost var attempts: seq<Attempt>
    ghost var listing: Listing
    ghost var unlocks: seq<Unlock>
    ghost var nettings: seq<Netting>

    constructor ()
      ensures fresh(repo) && fresh(client) && Valid() && View() == INIT
    {
      repo := new Repo();
      client := new Backend();
      attempts, listing, unlocks, nettings := [], Unlisted, [], [];
    }

    /** The tables and the backend as one state of the window's machine. */
    ghost function View(): State
      reads this, repo, client
    {
      State(repo.trading, repo.orders, listing, unlocks, repo.inserted, repo.pendingRows.Keys, KeysOf(client.movements),
            repo.positions, repo.settled, nettings, attempts)
    }

    /** The tables agree with each other, and the backend has moved only what was planned. */
    ghost predicate Valid()
      reads this, repo, client
    {
      repo.Valid() && PaidAsPlanned(client.movements, repo.inserted)
    }

    // -------------------------------------------------------------- settlement

    /** The next movement of attempt `a` is the planned one for its row and stage. */
    ghost predicate Due(a: nat, x: Movement)
      reads this, repo
    {
      && a < |attempts| && attempts[a].running && attempts[a].stage < WRITE
      && x.key == Key(attempts[a].row, PLAN[attempts[a].stage])
      && x.key.row < |repo.inserted|
      && IsPlanned(x, repo.inserted[x.key.row])
    }

    /** Books what became of a movement sent by attempt `a`. */
    ghost method NoteSent(x: Movement, outcome: Outcome, a: nat, before: State, log: seq<Movement>, start: State,
                          es: seq<Event>)
      returns (more: seq<Event>)
      requires a < |attempts| && attempts[a].running && attempts[a].stage < WRITE
      requires x.key == Key(attempts[a].row, PLAN[attempts[a].stage])
      requires client.movements == if outcome == NeverArrived || x.key in KeysOf(log) then log else log + [x]
      requires View().(log := KeysOf(log)) == before && Reached(start, es, before)
      modifies this`attempts
      ensures Reached(start, more, View())
      ensures SentBy(es, more, a, outcome == Acked)
      ensures attempts == AfterSending(old(attempts), a, outcome)
    {
      KeysOfPush(log, x);
      attempts := AfterSending(attempts, a, outcome);
      assert View() == Apply(before, Send(a, outcome));
      ReachedPush(start, es, before, Send(a, outcome));
      more := es + [Send(a, outcome)];
    }

    /** A debit sent on behalf of attempt `a`. */
    method SendDebit(user: User, amount: int, key: Key, ghost a: nat, ghost start: State, ghost es: seq<Event>)
      returns (ok: bool, ghost more: seq<Event>)
      requires Valid() && Due(a, Movement(key, user, amount))
      requires Reached(start, es, View())
      modifies this`attempts, client`movements
      ensures Valid() && Reached(start, more, View())
      ensures SentBy(es, more, a, ok) && |attempts| == old(|attempts|)
      ensures ok ==> attempts == old(attempts)[a := Attempt(key.row, old(attempts[a].stage) + 1, true)]
    {
      ghost var before, log := View(), client.movements;
      PaidPush(log, Movement(key, user, amount), repo.inserted);
      var outcome := client.CreditIdempotent(user, amount, key);
      more := NoteSent(Movement(key, user, amount), outcome, a, before, log, start, es);
      ok := outcome == Acked;
    }

    /** A fee sent on behalf of attempt `a`. */
    method SendFee(user: User, amount: int, key: Key, ghost a: nat, ghost start: State, ghost es: seq<Event>)
      returns (ok: bool, ghost more: seq<Event>)
      requires Valid() && Due(a, Movement(key, user, amount))
      requires Reached(start, es, View())
      modifies this`attempts, client`movements
      ensures Valid() && Reached(start, more, View())
      ensures SentBy(es, more, a, ok) && |attempts| == old(|attempts|)
      ensures ok ==> attempts == old(attempts)[a := Attempt(key.row, old(attempts[a].stage) + 1, true)]
    {
      ghost var before, log := View(), client.movements;
      PaidPush(log, Movement(key, user, amount), repo.inserted);
      var outcome := client.SettleFeeIdempotent(user, amount, key);
      more := NoteSent(Movement(key, user, amount), outcome, a, before, log, start, es);
      ok := outcome == Acked;
    }

    /** Both positions and the fill row of a match; an error rolls back what was written before it. */
    method WritePositions(pf: Match, s: Split, ghost row: nat) returns (ok: bool)
      requires Valid() && row < |repo.inserted| && pf == repo.inserted[row]
      requires s == SplitOf(pf.makerSide, pf.price, pf.size)
      modifies repo`positions, repo`fills, repo`settled
      ensures Valid()
      ensures ok <==> Records(old(repo.positions), pf)
      ensures repo.positions == if ok then ApplyFill(old(repo.positions), pf) else old(repo.positions)
      ensures repo.settled == if ok then old(repo.settled) + [row] else old(repo.settled)
    {
      var before := repo.positions;
      var takerPrice := if pf.takerSide == No then ONE - pf.price else pf.price;
      RecordsIsBothAccepted(before, pf);
      ApplyFillIsBothUpserts(before, pf);
      ok := repo.UpsertPosition(pf.makerUser, pf.makerSide, pf.size, pf.price);
      if ok {
        ok := repo.UpsertPosition(pf.takerUser, pf.takerSide, pf.size, takerPrice);
      }
      if ok {
        FillRowIs(Stored(FillRowOf(pf)), pf);
        repo.CreateFill(FillRow(pf.maker, pf.taker, pf.price, pf.size, s.makerFee, s.takerFee), row);
      } else {
        repo.positions := before;
      }
    }

    /** The position transaction: both positions and the fill row, or none of them. */
    method CommitFill(pf: Match, s: Split, ghost row: nat) returns (outcome: Outcome)
      requires Valid() && row < |repo.inserted| && pf == repo.inserted[row]
      requires s == SplitOf(pf.makerSide, pf.price, pf.size)
      modifies repo`positions, repo`fills, repo`settled
      ensures Valid()
      ensures outcome != NeverArrived ==> Records(old(repo.positions), pf)
      ensures repo.positions == if outcome == NeverArrived then old(repo.positions)
                                else ApplyFill(old(repo.positions), pf)
      ensures repo.settled == if outcome == NeverArrived then old(repo.settled) else old(repo.settled) + [row]
    {
      outcome := repo.Commit();
      if outcome != NeverArrived {
        var written := WritePositions(pf, s, row);
        outcome := if written then outcome else NeverArrived;
      }
    }

    /** That transaction on behalf of attempt `a`. */
    method RecordFill(pf: Match, s: Split, ghost a: nat, ghost start: State, ghost es: seq<Event>)
      returns (ok: bool, ghost more: seq<Event>)
      requires Valid() && AtStage(View(), a, WRITE)
      requires attempts[a].row < |repo.inserted| && pf == repo.inserted[attempts[a].row]
      requires s == SplitOf(pf.makerSide, pf.price, pf.size)
      requires Reached(start, es, View())
      modifies this`attempts, repo`positions, repo`fills, repo`settled
      ensures Valid() && Reached(start, more, View())
      ensures |more| == |es| + 1 && more[..|es|] == es && |attempts| == old(|attempts|)
      ensures more[|es|].Record? && more[|es|].attempt == a && (ok <==> more[|es|].outcome == Acked)
      ensures ok ==> attempts == old(attempts)[a := Attempt(old(attempts[a].row), ERASE, true)]
      ensures ok ==> Records(old(repo.positions), pf) && repo.positions == ApplyFill(old(repo.positions), pf)
    {
      ghost var before := View();
      var outcome := CommitFill(pf, s, attempts[a].row);
      ok, more := outcome == Acked, es + [Record(a, outcome)];
      attempts := ApplyRecord(before, a, outcome).attempts;
      assert View() == Apply(before, Record(a, outcome));
      ReachedPush(start, es, before, Record(a, outcome));
    }

    method EraseRow(row: nat, ghost a: nat, ghost start: State, ghost es: seq<Event>)
      returns (ok: bool, ghost more: seq<Event>)
      requires Valid() && AtStage(View(), a, ERASE) && attempts[a].row == row
      requires Reached(start, es, View())
      modifies this`attempts, repo`pendingRows
      ensures Valid() && Reached(start, more, View())
      ensures |more| == |es| + 1 && more[..|es|] == es && |attempts| == old(|attempts|)
      ensures more[|es|].Erase? && more[|es|].attempt == a && (ok <==> more[|es|].outcome == Acked)
    {
      ghost var before := View();
      var outcome := repo.DeletePendingFill(row);
      attempts := ApplyErase(before, a, outcome).attempts;
      assert View() == Apply(before, Erase(a, outcome));
      ReachedPush(start, es, before, Erase(a, outcome));
      ok, more := outcome == Acked, es + [Erase(a, outcome)];
    }

    /** What each side pays for a match, in its own side's terms, and the fees on it. */
    method CostsOf(pf: Match) returns (s: Split)
      ensures s == SplitOf(pf.makerSide, pf.price, pf.size)
      ensures s.makerCost == (if pf.makerSide == Yes then pf.price else 10_000 - pf.price) * pf.size * 100_000
      ensures s.takerCost == (if pf.makerSide == Yes then 10_000 - pf.price else pf.price) * pf.size * 100_000
      ensures 100_000 * s.makerFee == 15 * s.makerCost && 100_000 * s.takerFee == 45 * s.takerCost
    {
      var makerCost := pf.price * pf.size;
      var takerCost := (ONE - pf.price) * pf.size;
      if pf.makerSide == No {
        makerCost, takerCost := takerCost, makerCost;
      }
      s := Split(makerCost * GRAINS_PER_COST, takerCost * GRAINS_PER_COST, makerCost * MAKER_FEE,
                 takerCost * TAKER_FEE);
    }

    /** Both debits, the second sent only after the first was acknowledged. */
    method SendDebits(row: nat, pf: Match, s: Split, ghost a: nat, ghost start: State)
      returns (ok: bool, ghost es: seq<Event>)
      requires Valid() && row < |repo.inserted| && pf == repo.inserted[row]
               && s == SplitOf(pf.makerSide, pf.price, pf.size)
      requires a < |attempts| && attempts[a] == Attempt(row, 0, true)
      requires Reached(start, [Begin(row)], View())
      modifies this`attempts, client`movements
      ensures Valid() && Reached(start, es, View()) && |attempts| == old(|attempts|)
      ensures |es| <= 3 && IsCall(es, a, row) && es[|es| - 1].Send? && (ok <==> es[|es| - 1].outcome == Acked)
      ensures ok ==> |es| == 3 && a < |attempts| && attempts[a] == Attempt(row, 2, true)
    {
      PlannedDebits(pf, row, s);
      es := [Begin(row)];
      ok, es := SendDebit(pf.makerUser, -ToRawUnits(s.makerCost + s.makerFee), Key(row, MakerDebit), a, start, es);
      if ok {
        ok, es := SendDebit(pf.takerUser, -ToRawUnits(s.takerCost + s.takerFee), Key(row, TakerDebit), a, start, es);
      }
    }

    /** Both fees, likewise, once the debits are in. */
    method SendFees(row: nat, pf: Match, s: Split, ghost a: nat, ghost start: State, ghost so: seq<Event>)
      returns (ok: bool, ghost es: seq<Event>)
      requires Valid() && row < |repo.inserted| && pf == repo.inserted[row]
               && s == SplitOf(pf.makerSide, pf.price, pf.size)
      requires a < |attempts| && attempts[a] == Attempt(row, 2, true)
      requires Reached(start, so, View()) && |so| == 3 && IsCall(so, a, row) && so[2] == Send(a, Acked)
      modifies this`attempts, client`movements
      ensures Valid() && Reached(start, es, View()) && |attempts| == old(|attempts|)
      ensures |es| <= 5 && IsCall(es, a, row) && es[|es| - 1].Send? && (ok <==> es[|es| - 1].outcome == Acked)
      ensures ok ==> |es| == 5 && a < |attempts| && attempts[a] == Attempt(row, WRITE, true)
    {
      PlannedFees(pf, row, s);
      ok, es := SendFee(pf.makerUser, ToRawUnits(s.makerFee), Key(row, MakerFee), a, start, so);
      if ok {
        ok, es := SendFee(pf.takerUser, ToRawUnits(s.takerFee), Key(row, TakerFee), a, start, es);
      }
    }

    /** The body of the settlement routine, from the first debit to the delete. */
    method RunPlan(row: nat, pf: Match, ghost a: nat, ghost start: State) returns (ok: bool, ghost es: seq<Event>)
      requires Valid() && row < |repo.inserted| && pf == repo.inserted[row]
      requires a < |attempts| && attempts[a] == Attempt(row, 0, true)
      requires Reached(start, [Begin(row)], View())
      modifies this`attempts, client`movements, repo`positions, repo`fills, repo`settled, repo`pendingRows
      ensures Valid() && Reached(start, es, View()) && |attempts| == old(|attempts|)
      ensures IsCall(es, a, row) && |es| >= 2 && (ok <==> |es| == 7 && es[6] == Erase(a, Acked))
      ensures ok ==> Records(old(repo.positions), pf) && repo.positions == ApplyFill(old(repo.positions), pf)
    {
      var s := CostsOf(pf);
      ok, es := SendDebits(row, pf, s, a, start);
      if ok {
        ok, es := SendFees(row, pf, s, a, start, es);
      }
      if ok {
        ok, es := RecordFill(pf, s, a, start, es);
      }
      if ok {
        ok, es := EraseRow(row, a, start, es);
      }
    }

    /**
     Settles one pending row: four movements, then the position transaction, then
     the delete.  Whatever fails, what has happened is a run of the machine, and
     success is one undisturbed call whose position transaction the database took.
     */
    method SettleFillByPlan(row: nat, pf: Match) returns (ok: bool, ghost es: seq<Event>)
      requires Valid() && row < |repo.inserted| && pf == repo.inserted[row]
      modifies this`attempts, client`movements, repo`positions, repo`fills, repo`settled, repo`pendingRows
      ensures Valid()
      ensures Reached(old(View()), es, View())
      ensures IsCall(es, old(|attempts|), row)
      ensures ok <==> es == CleanCall(old(|attempts|), row)
      ensures ok && MatchOk(pf) ==> ChargedInFull(client.movements, row, pf)
      ensures ok ==> Records(old(repo.positions), pf) && repo.positions == ApplyFill(old(repo.positions), pf)
      ensures |attempts| == old(|attempts|) + 1
    {
      ghost var start := View();
      ghost var a := |attempts|;
      BeginReached(start, row);
      attempts := attempts + [Attempt(row, 0, true)];
      ok, es := RunPlan(row, pf, a, start);
      CompleteCall(es, a, row);
      if ok && MatchOk(pf) {
        AllCharged(start, es, row, View(), client.movements, repo.inserted);
      }
    }

    /** The k-th row of a list whose earlier rows have all been settled, from attempt a on. */
    method SettleNext(rows: seq<nat>, k: nat, pf: Match, ghost a: nat, ghost ps: seq<Position>,
                      ghost start: State, ghost so: seq<Event>, ghost es: seq<Event>)
      returns (ok: bool, ghost more: seq<Event>, ghost call: seq<Event>)
      requires Valid() && k < |rows| && rows[k] < |repo.inserted| && pf == repo.inserted[rows[k]]
      requires |attempts| == a + k && es == SweepCalls(a, rows[..k])
               && RecordedUpTo(ps, repo.inserted, rows, k, repo.positions)
      requires Reached(start, so + es, View())
      modifies this`attempts, client`movements, repo`positions, repo`fills, repo`settled, repo`pendingRows
      ensures Valid() && Reached(start, so + more, View())
      ensures |attempts| == a + k + 1
      ensures ok ==>
                more == SweepCalls(a, rows[..k + 1]) && RecordedUpTo(ps, repo.inserted, rows, k + 1, repo.positions)
      ensures !ok ==> GaveUpAt(more, a, rows, k, call)
    {
      ghost var before := View();
      ok, call := SettleFillByPlan(rows[k], pf);
      more := es + call;
      if ok {
        OneMoreRecorded(ps, repo.inserted, rows, k, before.positions);
      }
      CallExtends(start, so, es, before, call, View());
      CallCounts(es, call, a, rows, k, ok);
    }

    /** Settles freshly matched rows in order, giving up at the first failure. */
    method SettlePending(rows: seq<nat>, pending: seq<Match>, ghost start: State, ghost so: seq<Event>)
      returns (ok: bool, ghost es: seq<Event>, ghost n: nat, ghost call: seq<Event>)
      requires Valid() && RowsOf(rows, pending, repo.inserted)
      requires Reached(start, so, View())
      modifies this`attempts, client`movements, repo`positions, repo`fills, repo`settled, repo`pendingRows
      ensures Valid() && Reached(start, so + es, View())
      ensures ok ==>
                && es == SweepCalls(old(|attempts|), rows)
                && RecordedUpTo(old(repo.positions), repo.inserted, rows, |rows|, repo.positions)
      ensures !ok ==> GaveUpAt(es, old(|attempts|), rows, n, call)
    {
      var k := 0;
      es, ok, n, call := [], true, 0, [];
      ghost var a, ps := |attempts|, repo.positions;
      assert so + [] == so;
      assert rows[..0] == [];
      while k < |rows| && ok
        invariant k <= |rows| && Valid()
        invariant |attempts| == a + k && repo.inserted == old(repo.inserted)
        invariant ok ==> es == SweepCalls(a, rows[..k]) && RecordedUpTo(ps, repo.inserted, rows, k, repo.positions)
        invariant !ok ==> GaveUpAt(es, a, rows, n, call)
        invariant Reached(start, so + es, View())
      {
        n := k;
        ok, es, call := SettleNext(rows, k, pending[k], a, ps, start, so, es);
        k := k + 1;
      }
      if ok {
        assert rows[..k] == rows;
      }
    }

    // -------------------------------------------------------------- placement

    /** The rows inserted since the table of pending fills was as given. */
    ghost predicate InsertedSince(inserted: seq<Match>, keys: set<nat>, rows: seq<nat>, pending: seq<Match>)
      reads repo
    {
      && repo.inserted == inserted + pending
      && rows == Rows(|inserted|, |pending|)
      && repo.pendingRows.Keys == keys + NewRows(|inserted|, |pending|)
    }

    /** One match: its pending row, and the maker's new fill and status. */
    method MatchOne(id: nat, resting: nat, user: User, side: Side, fillSize: int, rows: seq<nat>, pending: seq<Match>,
                    ghost table: seq<Order>, ghost inserted: seq<Match>, ghost keys: set<nat>)
      returns (rows': seq<nat>, pending': seq<Match>)
      requires Valid() && id == |table| && resting < |table| <= |repo.orders|
      requires repo.orders[resting] == table[resting]
      requires InsertedSince(inserted, keys, rows, pending)
      modifies repo`orders, repo`pendingRows, repo`nextPending, repo`inserted
      ensures Valid()
      ensures pending' == pending + [MatchOf(table, Take(resting, fillSize), user, side)]
      ensures InsertedSince(inserted, keys, rows', pending')
      ensures repo.orders == old(repo.orders)[resting := Fill(old(repo.orders)[resting], fillSize)]
    {
      var maker := repo.orders[resting];
      var pf := Match(resting, id, maker.user, user, maker.side, side, maker.price, fillSize);
      var row := repo.CreatePendingFill(pf);
      rows', pending' := rows + [row], pending + [pf];
      RowsPush(|inserted|, |pending|);
      assert inserted + pending + [pf] == inserted + pending';
      var newFilled := maker.filled + fillSize;
      repo.FillOrder(resting, fillSize, if newFilled >= maker.size then Filled else Open);
    }

    /** The incoming order of `loop` meets the k-th maker of the book. */
    method Meet(maker: nat, ghost k: nat, remaining: int, rows: seq<nat>, pending: seq<Match>,
                loop: Loop, ghost done: seq<Take>, ghost inserted: seq<Match>, ghost keys: set<nat>)
      returns (remaining': int, rows': seq<nat>, pending': seq<Match>, ghost done': seq<Take>)
      requires Valid() && k < |loop.Book()| && maker == loop.Book()[k] && remaining != 0
      requires loop.Inv(k, remaining, done, repo.orders, pending)
      requires InsertedSince(inserted, keys, rows, pending)
      modifies repo`orders, repo`pendingRows, repo`nextPending, repo`inserted
      ensures Valid()
      ensures loop.Inv(k + 1, remaining', done', repo.orders, pending')
      ensures InsertedSince(inserted, keys, rows', pending')
    {
      loop.Rests(k, remaining, done, repo.orders, pending);
      var resting := repo.orders[maker];
      var restingRemaining := resting.size - resting.filled;
      remaining', rows', pending', done' := remaining, rows, pending, done;
      if restingRemaining <= 0 || resting.price + loop.o.price < ONE {
        loop.Skips(k, remaining, done, repo.orders, pending);
      } else {
        var fillSize := Min(remaining, restingRemaining);
        loop.Takes(k, remaining, done, repo.orders, pending);
        rows', pending' := MatchOne(|loop.table|, maker, loop.o.user, loop.o.side, fillSize, rows, pending, loop.table,
                                    inserted, keys);
        remaining', done' := remaining - fillSize, done + [Take(maker, fillSize)];
      }
    }

    /** The matching loop: best maker first, until the order is full or the book is done. */
    method SweepBook(loop: Loop, book: seq<nat>) returns (remaining: int, rows: seq<nat>, pending: seq<Match>)
      requires Valid() && repo.orders == loop.table + [loop.o] && book == loop.Book()
      modifies repo`orders, repo`pendingRows, repo`nextPending, repo`inserted
      ensures Valid()
      ensures loop.Done(remaining, repo.orders, pending)
      ensures InsertedSince(old(repo.inserted), old(repo.pendingRows.Keys), rows, pending)
    {
      loop.Starts();
      ghost var done: seq<Take> := [];
      remaining, rows, pending := loop.o.size, [], [];
      assert repo.inserted + [] == repo.inserted;
      var i := 0;
      while i < |book| && remaining != 0
        invariant i <= |book| && Valid()
        invariant loop.Inv(i, remaining, done, repo.orders, pending)
        invariant InsertedSince(old(repo.inserted), old(repo.pendingRows.Keys), rows, pending)
      {
        remaining, rows, pending, done := Meet(book[i], i, remaining, rows, pending, loop, done,
                                                 old(repo.inserted), old(repo.pendingRows.Keys));
        i := i + 1;
      }
      loop.Ends(i, remaining, done, repo.orders, pending);
    }

    /**
     Matches the order just inserted as the last row against the opposite book,
     in place: one pending row a match, both orders' fills and statuses updated.
     */
    method MatchIncoming(id: nat) returns (filled: int, rows: seq<nat>, pending: seq<Match>)
      requires Valid() && |repo.orders| == id + 1 && repo.orders[id].filled == 0
      modifies repo`orders, repo`pendingRows, repo`nextPending, repo`inserted
      ensures Valid()
      ensures var o := old(repo.orders)[id];
              var table := old(repo.orders)[..id];
              && repo.orders == Place(table, o.user, o.side, o.price, o.size)
              && pending == MatchesFor(table, o.user, o.side, o.price, o.size)
              && filled == Taken(TakesFor(table, o.side, o.price, o.size))
      ensures InsertedSince(old(repo.inserted), old(repo.pendingRows.Keys), rows, pending)
    {
      var o := repo.orders[id];
      var loop := Loop(repo.orders[..id], o);
      assert repo.orders == loop.table + [o];
      var book := OpposingBook(repo.orders, Opposite(o.side));
      loop.BookWithoutIt();
      var remaining;
      remaining, rows, pending := SweepBook(loop, book);
      filled := o.size - remaining;
      ghost var swept := repo.orders;
      repo.FillOrder(id, filled, if remaining == 0 then Filled else Open);
      assert repo.orders == swept[id := loop.Close(remaining)];
    }

    /** Inserts the order and matches it, the one step that must commit together. */
    method InsertAndMatch(user: User, side: Side, price: int, size: int)
      returns (ok: bool, id: nat, filled: int, rows: seq<nat>, pending: seq<Match>)
      requires Valid() && repo.trading
      modifies repo`orders, repo`pendingRows, repo`nextPending, repo`inserted
      ensures Valid()
      ensures !ok ==> View() == old(View())
      ensures ok ==> 0 < price < ONE && size > 0 && id == |old(repo.orders)|
      ensures ok ==> View() == ApplySubmit(old(View()), user, side, price, size)
      ensures ok ==> filled == Taken(TakesFor(old(repo.orders), side, price, size))
      ensures ok ==> rows == NewMatchRows(old(View()), user, side, price, size)
      ensures ok ==> RowsOf(rows, pending, repo.inserted)
    {
      ok, id := repo.CreateOrder(user, side, price, size);
      filled, rows, pending := 0, [], [];
      if ok {
        assert repo.orders[..id] == old(repo.orders);
        filled, rows, pending := MatchIncoming(id);
      }
    }

    /** Holds the order's cost, then inserts and matches it; a failed insert gives the hold back. */
    method HoldAndInsert(user: User, side: Side, price: int, size: int)
      returns (result: Placement, filled: int, rows: seq<nat>, pending: seq<Match>)
      requires Valid() && repo.trading
      modifies client`held, repo`orders, repo`pendingRows, repo`nextPending, repo`inserted
      ensures Valid()
      ensures forall u :: u != user ==> Held(client.held, u) == Held(old(client.held), u)
      ensures !result.Placed? ==> View() == old(View())
      ensures result.NoUser? ==> client.held == old(client.held)
      ensures result.NoHold? ==>
                Held(client.held, user) - Held(old(client.held), user) in {0, HoldRaw(side, price, size)}
      ensures result.NotInserted? && result.undo != NeverArrived
              ==> Held(client.held, user) == Held(old(client.held), user)
      ensures result.Placed? ==> result.id == |old(repo.orders)|
      ensures result.Placed? ==> Held(client.held, user) == Held(old(client.held), user) + HoldRaw(side, price, size)
      ensures result.Placed? ==> Reached(old(View()), [Submit(user, side, price, size)], View())
      ensures result.Placed? ==> FilledOnEntry(old(View()), side, price, size, filled)
      ensures result.Placed? ==> rows == NewMatchRows(old(View()), user, side, price, size)
      ensures result.Placed? ==> RowsOf(rows, pending, repo.inserted) && repo.positions == old(repo.positions)
      ensures result.Placed? ==>
                repo.inserted == old(repo.inserted) + MatchesFor(old(repo.orders), user, side, price, size)
    {
      result, filled, rows, pending := NoUser, 0, [], [];
      var known := client.Network();
      if known == Acked {
        var cost := price * size;
        if side == No {
          cost := (ONE - price) * size;
        }
        var rawCost := ToRawUnits(cost * GRAINS_PER_COST);
        var hold := client.Lock(user, rawCost);
        result := NoHold;
        if hold == Acked {
          var ok, id;
          ok, id, filled, rows, pending := InsertAndMatch(user, side, price, size);
          result := Placed(id);
          SubmitReached(old(View()), user, side, price, size);
          if !ok {
            var undo := client.Unlock(user, rawCost);
            result := NotInserted(undo);
          }
        }
      }
    }

    /**
     Places an order and settles its matches one by one, at once; a failed
     settlement leaves its rows to the sweep.
     */
    method PlaceOrder(user: User, side: Side, price: int, size: int)
      returns (result: Placement, settled: bool, filled: int,
               ghost calls: seq<Event>, ghost n: nat, ghost call: seq<Event>)
      requires Valid() && repo.trading
      modifies this`attempts, client, repo
      ensures Valid()
      ensures forall u :: u != user ==> Held(client.held, u) == Held(old(client.held), u)
      ensures !result.Placed? ==> View() == old(View())
      ensures result.NoUser? ==> client.held == old(client.held)
      ensures result.NoHold? ==>
                Held(client.held, user) - Held(old(client.held), user) in {0, HoldRaw(side, price, size)}
      ensures result.NotInserted? && result.undo != NeverArrived
              ==> Held(client.held, user) == Held(old(client.held), user)
      ensures result.Placed? ==> Held(client.held, user) == Held(old(client.held), user) + HoldRaw(side, price, size)
      ensures result.Placed? ==> FilledOnEntry(old(View()), side, price, size, filled)
      ensures result.Placed? ==> Reached(old(View()), [Submit(user, side, price, size)] + calls, View())
      ensures result.Placed? ==>
                SettledRows(calls, old(View()), NewMatchRows(old(View()), user, side, price, size), settled, n, call)
      ensures result.Placed? && settled ==> PlacementRecords(old(View()), user, side, price, size)
    {
      ghost var start := View();
      var rows, pending;
      result, filled, rows, pending := HoldAndInsert(user, side, price, size);
      settled, calls, n, call := false, [], 0, [];
      if result.Placed? {
        assert repo.positions == start.positions;
        settled, calls, n, call := SettlePending(rows, pending, start, [Submit(user, side, price, size)]);
        if settled {
          assert rows[..|rows|] == rows;
        }
      }
    }

    // -------------------------------------------------------------- cancelling and selling

    /**
     Cancels a resting order of its owner, then releases what was left of its hold;
     nothing is released unless the cancellation was heard of.
     */
    method CancelOrder(id: nat, user: User, side: Side, price: int) returns (cancelled: Outcome, released: Outcome)
      requires Valid()
      requires id < |repo.orders| ==> repo.orders[id].side == side && repo.orders[id].price == price
      modifies this`unlocks, client`held, repo`orders
      ensures Valid()
      ensures !(id < |old(repo.orders)| && old(repo.orders)[id].user == user && old(repo.orders)[id].status == Open)
              ==> cancelled == NeverArrived
      ensures cancelled == NeverArrived ==> View() == old(View())
      ensures cancelled != NeverArrived ==> View() == Apply(old(View()), Withdraw(id, user, released))
      ensures cancelled != Acked ==> released == NeverArrived
      ensures client.held == if released == NeverArrived then old(client.held)
                             else old(client.held)[
                               user := Held(old(client.held), user) - RefundRaw(old(repo.orders)[id])]
    {
      released := NeverArrived;
      var remaining;
      cancelled, remaining := repo.CancelUserOrder(id, user);
      if cancelled == Acked {
        var refund := price * remaining;
        if side == No {
          refund := (ONE - price) * remaining;
        }
        RefundIsHoldOfRemainder(old(repo.orders)[id]);
        released := client.Unlock(user, ToRawUnits(refund * GRAINS_PER_COST));
        unlocks := if released == NeverArrived then unlocks
                   else unlocks + [Unlock(id, RefundRaw(old(repo.orders)[id]), ByOwner)];
      }
    }

    /** Nets both of a user's positions by what a hedge filled. */
    method NetDownBoth(user: User, filled: int) returns (outcome: Outcome)
      requires Valid() && (filled == 0 || CanNet(View(), user, filled))
      modifies this`nettings, repo`positions
      ensures Valid()
      ensures View() == if outcome == NeverArrived then old(View()) else Apply(old(View()), NetDown(user, filled))
    {
      outcome := Acked;
      if filled > 0 {
        outcome := repo.Commit();
        if outcome != NeverArrived {
          repo.NetPositions(user, filled);
          nettings := nettings + [Netting(user, filled)];
        }
      }
    }

    /** Places and settles the hedge of a sale: settled, it is exactly the hedge run, and can be netted. */
    method Hedge(user: User, side: Side, size: int, minPrice: int)
      returns (settled: bool, filled: int, ghost es: seq<Event>, ghost n: nat, ghost call: seq<Event>)
      requires Valid() && repo.trading && Reachable(View()) && 0 < minPrice < ONE
               && 0 < size <= SharesOf(repo.positions, user, side)
      modifies this`attempts, client, repo
      ensures Valid() && Reached(old(View()), es, View())
      ensures !settled ==> HedgeCutShort(es, old(View()), user, side, size, minPrice, n, call)
      ensures settled ==> es == HedgeEvents(old(View()), user, side, size, minPrice)
      ensures settled ==> filled == 0 || CanNet(View(), user, filled)
      ensures settled ==> SellEvents(old(View()), user, side, size, minPrice) == es + [NetDown(user, filled)]
      ensures settled ==> filled == Min(size, Liquidity(old(repo.orders), side, WorstMaker(side, minPrice)))
    {
      ghost var start := View();
      var hedgePrice := minPrice;
      if side == Yes {
        hedgePrice := ONE - minPrice;
      }
      var result;
      ghost var calls;
      result, settled, filled, calls, n, call := PlaceOrder(user, Opposite(side), hedgePrice, size);
      settled := result.Placed? && settled;
      es := if result.Placed? then [Submit(user, Opposite(side), hedgePrice, size)] + calls else [];
      if settled {
        SaleMatchesItsEvents(start, user, side, size, minPrice, calls, View());
      } else if !result.Placed? {
        ReachedIsAfter(start, [], start);
      } else {
        assert es[1..] == calls;
      }
    }

    /**
     Sells up to `size` shares of a position: an order on the other side at the
     complementary limit, settled, then both sides netted by what it filled.
     However it ends, what has happened is a run of the machine, and which one.
     */
    method Sell(user: User, side: Side, size: int, minPrice: int)
      returns (sale: Sale, ghost es: seq<Event>, ghost n: nat, ghost call: seq<Event>)
      requires Valid() && repo.trading && Reachable(View()) && 0 < minPrice < ONE && size > 0
      modifies this`attempts, this`nettings, client, repo
      ensures Valid() && Reached(old(View()), es, View())
      ensures sale == NoPosition <==> !HasRow(old(repo.positions), user, side)
      ensures sale == TooMuch <==>
                HasRow(old(repo.positions), user, side) && size > SharesOf(old(repo.positions), user, side)
      ensures sale == NoPosition || sale == TooMuch ==> es == []
      ensures sale == NotSettled ==> HedgeCutShort(es, old(View()), user, side, size, minPrice, n, call)
      ensures sale == NotNetted ==> es == HedgeEvents(old(View()), user, side, size, minPrice)
                                    || es == SellEvents(old(View()), user, side, size, minPrice)
      ensures sale.Sold? ==> es == SellEvents(old(View()), user, side, size, minPrice)
      ensures sale.Sold? ==> sale.filled == Min(size, Liquidity(old(repo.orders), side, WorstMaker(side, minPrice)))
    {
      ghost var start := View();
      es, n, call := [], 0, [];
      ReachedIsAfter(start, [], start);
      var r := Find(repo.positions, user, side);
      if r == |repo.positions| {
        return NoPosition, [], 0, [];
      }
      if size > repo.positions[r].shares {
        return TooMuch, [], 0, [];
      }
      var settled, filled;
      settled, filled, es, n, call := Hedge(user, side, size, minPrice);
      sale := NotSettled;
      if settled {
        ReachedPush(start, es, View(), NetDown(user, filled));
        var outcome := NetDownBoth(user, filled);
        es := if outcome == NeverArrived then es else es + [NetDown(user, filled)];
        sale := if outcome == Acked then Sold(filled) else NotNetted;
      }
    }
  }

  /**
   Raw solvency of the tables and the wallet service themselves: in any state of the
   matcher that a run leads to, with no match written twice, crediting the holders of
   a side costs at most 2n - 1 raw units more, for n fills, than its movements have
   taken from users on balance, plus what the debts of that side come to.
   */
  lemma BackendCoversThePayout(matcher: Matcher, side: Side)
    requires matcher.Valid() && Reachable(matcher.View()) && OnceEach(matcher.View())
    ensures var n := |matcher.repo.settled|;
            RawPayout(matcher.repo.positions, side) + Sum(AmountsOf(matcher.client.movements))
            <= (if n == 0 then 0 else 2 * n - 1) + RawDebt(matcher.repo.positions, side)
  {
    MovementsAreThePool(matcher.client.movements, matcher.repo.inserted);
    RawShortfallBound(matcher.View(), side);
  }
}
