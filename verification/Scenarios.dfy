/** Concrete runs of the window's machine, where a bound or a hypothesis is met exactly. */
module Scenarios {
  import opened Types
  import opened Sums
  import opened Money
  import opened Book
  import opened Ledger
  import opened Market
  import opened Protocol
  import opened Debts
  import opened Funding
  import opened Holds
  import opened Selling

  /** Only order i is on the book, and it has enough: it is all an order of `size` takes. */
  lemma OnlyMakerTaken(orders: seq<Order>, i: nat, user: User, side: Side, price: int, size: int)
    requires i < |orders| && OnBook(orders[i], Opposite(side)) && Compatible(orders[i].price, price)
    requires forall j :: 0 <= j < |orders| && j != i ==> !OnBook(orders[j], Opposite(side))
    requires 0 < size <= Remainder(orders[i])
    ensures MatchesFor(orders, user, side, price, size) == [MatchOf(orders, Take(i, size), user, side)]
    ensures Place(orders, user, side, price, size)
            == orders[i := Fill(orders[i], size)] + [Incoming(user, side, price, size, size)]
  {
    var book := OpposingBook(orders, Opposite(side));
    OpposingBookIsTheBook(orders, Opposite(side), [i]);
    assert book == [i];
    assert Sweep(orders, book[1..], price, 0) == [];
    var takes := TakesFor(orders, side, price, size);
    assert takes == [Take(i, size)] + [];
    TakenSnoc([], Take(i, size));
    assert [] + [Take(i, size)] == takes;
    assert takes[..0] == [];
    assert FillMakers(orders, takes) == orders[i := Fill(orders[i], size)];
  }

  /** An order that meets an empty table rests. */
  lemma FirstOrderRests(user: User, side: Side, price: int, size: int)
    requires size > 0
    ensures MatchesFor([], user, side, price, size) == []
    ensures Place([], user, side, price, size) == [Order(user, side, price, size, 0, Open)]
  {
    assert TakesFor([], side, price, size) == [];
    assert Taken([]) == 0;
  }

  lemma SubmitGives(s: State, user: User, side: Side, price: int, size: int, orders: seq<Order>, ms: seq<Match>)
    requires s.trading && 0 < price < ONE && size > 0
    requires orders == Place(s.orders, user, side, price, size) && ms == MatchesFor(s.orders, user, side, price, size)
    ensures ApplySubmit(s, user, side, price, size)
            == s.(orders := orders, matches := s.matches + ms, pending := s.pending + NewRows(|s.matches|, |ms|))
  {
  }

  // ---------------------------------------------------------------- the raw bound is reached

  /** 0.0000015 shares: at one half, each side of it costs less than a raw unit. */
  const SLIVER := 1_500_000_000_000

  const RESTING := [Order("a", Yes, 5_000, 2 * SLIVER, 0, Open)]
  const HALF := [Order("a", Yes, 5_000, 2 * SLIVER, SLIVER, Open), Order("b", No, 5_000, SLIVER, SLIVER, Filled)]
  const FULL := [Order("a", Yes, 5_000, 2 * SLIVER, 2 * SLIVER, Filled), Order("b", No, 5_000, SLIVER, SLIVER, Filled),
                 Order("c", No, 5_000, SLIVER, SLIVER, Filled)]
  const FIRST := Match(0, 1, "a", "b", Yes, No, 5_000, SLIVER)
  const SECOND := Match(0, 2, "a", "c", Yes, No, 5_000, SLIVER)

  const SUBMITS := [Submit("a", Yes, 5_000, 2 * SLIVER), Submit("b", No, 5_000, SLIVER), Submit("c", No, 5_000, SLIVER)]

  const MATCHED := INIT.(orders := FULL, matches := [FIRST, SECOND], pending := {0, 1})

  lemma OneMaker()
    ensures ApplySubmit(INIT, "a", Yes, 5_000, 2 * SLIVER) == INIT.(orders := RESTING)
  {
    FirstOrderRests("a", Yes, 5_000, 2 * SLIVER);
  }

  lemma FirstTaker()
    ensures ApplySubmit(INIT.(orders := RESTING), "b", No, 5_000, SLIVER)
            == INIT.(orders := HALF, matches := [FIRST], pending := {0})
  {
    OnlyMakerTaken(RESTING, 0, "b", No, 5_000, SLIVER);
    SubmitGives(INIT.(orders := RESTING), "b", No, 5_000, SLIVER, HALF, [FIRST]);
    assert NewRows(0, 1) == {0};
  }

  lemma SecondTaker()
    ensures ApplySubmit(INIT.(orders := HALF, matches := [FIRST], pending := {0}), "c", No, 5_000, SLIVER) == MATCHED
  {
    OnlyMakerTaken(HALF, 0, "c", No, 5_000, SLIVER);
    SubmitGives(INIT.(orders := HALF, matches := [FIRST], pending := {0}), "c", No, 5_000, SLIVER, FULL, [SECOND]);
    assert NewRows(1, 1) == {1};
  }

  lemma MatchedIsReached()
    ensures Reached(INIT, SUBMITS, MATCHED)
  {
    OneMaker();
    FirstTaker();
    SecondTaker();
    ReachedInTwo(INIT, SUBMITS[0], SUBMITS[1]);
    ReachedPush(INIT, [SUBMITS[0], SUBMITS[1]], INIT.(orders := HALF, matches := [FIRST], pending := {0}), SUBMITS[2]);
    assert SUBMITS == [SUBMITS[0], SUBMITS[1]] + [SUBMITS[2]];
  }

  const ROWS: seq<nat> := [0, 1]

  const HELD := [Position("a", Yes, 2 * SLIVER, 5_000), Position("b", No, SLIVER, 5_000),
                 Position("c", No, SLIVER, 5_000)]

  lemma FirstFill()
    ensures ApplyFill([], FIRST) == [Position("a", Yes, SLIVER, 5_000), Position("b", No, SLIVER, 5_000)]
  {
    ApplyFillIsBothUpserts([], FIRST);
  }

  lemma SecondFill()
    ensures ApplyFill([Position("a", Yes, SLIVER, 5_000), Position("b", No, SLIVER, 5_000)], SECOND) == HELD
  {
    var ps := [Position("a", Yes, SLIVER, 5_000), Position("b", No, SLIVER, 5_000)];
    ApplyFillIsBothUpserts(ps, SECOND);
    NewAverageIsAveraged(ps[0], SLIVER, 5_000);
    var mid := [Position("a", Yes, 2 * SLIVER, 5_000), Position("b", No, SLIVER, 5_000)];
    assert Upsert(ps, "a", Yes, SLIVER, 5_000) == mid;
    assert Find(mid, "c", No) == |mid|;
  }

  lemma BothFills()
    ensures FillAll([], [FIRST, SECOND], ROWS) == HELD
  {
    FirstFill();
    SecondFill();
    assert ROWS[..1] == [0] && ROWS[..1][..0] == [];
    assert FillAll([], [FIRST, SECOND], ROWS[..1]) == ApplyFill([], FIRST);
  }

  lemma SliversPoolNothing(m: Match)
    requires m == FIRST || m == SECOND
    ensures SumRoles(m, PLAN[..4], true) == 0
  {
    PlanPrefixPools(m, 4);
  }

  lemma PayoutIsThree()
    ensures RawPayout(HELD, Yes) == 3
  {
    var xs := RawEach(GrainEach(HELD, Yes));
    assert OwedEach(HELD, Yes) == [2 * SLIVER, 0, 0];
    assert xs == [3, 0, 0];
    assert xs == [] + [3] + [0] + [0];
    SumPush([], 3);
    SumPush([] + [3], 0);
    SumPush([] + [3] + [0], 0);
  }

  lemma EachOnce(fills: seq<nat>)
    requires fills == [] + ROWS
    ensures Times(fills, 0) == 1 && Times(fills, 1) == 1
  {
    assert fills == [0] + [1] && [0] == [] + [0];
    TimesPush([0], 1, 0);
    TimesPush([0], 1, 1);
    TimesPush([], 0, 0);
    TimesPush([], 0, 1);
  }

  /** The bound of RawShortfallBound is reached: two fills, nothing pooled, three raw units to pay. */
  lemma RawShortfallBoundIsReached() returns (s: State)
    ensures Reachable(s) && OnceEach(s) && s.pending == {} && |s.fills| == 2 && Debt(s.positions, Yes) == 0
    ensures KeysOk(s.log, s.matches)
    ensures RawPayout(s.positions, Yes) - RawPool(s) == 2 * |s.fills| - 1
  {
    s := SweepEnd(MATCHED, ROWS);
    MatchedIsReached();
    InitInv();
    ReachedKeepsInv(INIT, SUBMITS, MATCHED);
    SweepReaches(MATCHED, ROWS);
    ReachedConcat(INIT, SUBMITS, MATCHED, SweepCalls(0, ROWS), s);
    ReachableInv(s);
    assert ROWS[..|ROWS|] == ROWS;
    NoDebtsAllRecord([], MATCHED.matches, ROWS, 2);
    SweepSettles(MATCHED, ROWS);
    BothFills();
    PayoutIsThree();
    HoldingsAreOwedLessDebt(s.positions, Yes);
    EachOnce(s.fills);
    NothingPooled(s);
  }

  lemma NothingPooled(s: State)
    requires Inv(s) && s.pending == {} && s.matches == [FIRST, SECOND]
    ensures RawPool(s) == 0
  {
    PoolByMatch(s.log, s.matches, true);
    var pooled := PooledEach(s.log, s.matches, true);
    forall i | 0 <= i < 2 ensures pooled[i] == 0 {
      RawPooledAt(s, i);
      SliversPoolNothing(s.matches[i]);
    }
    SumZero(pooled);
  }

  // ---------------------------------------------------------------- two overlapping sales

  /** One share. */
  const LOT := 1_000_000_000_000_000_000

  const BOUGHT := [Order("u", Yes, 5_000, LOT, LOT, Filled), Order("v", No, 5_000, LOT, LOT, Filled)]
  const OFFERED := BOUGHT + [Order("w", Yes, 5_000, 2 * LOT, 0, Open)]
  const OPENING := Match(0, 1, "u", "v", Yes, No, 5_000, LOT)

  const ASKED := INIT.(orders := [Order("u", Yes, 5_000, LOT, 0, Open)])
  const TRADED := INIT.(orders := BOUGHT, matches := [OPENING], pending := {0})

  /** u has bought one share, and w offers two more. */
  ghost function Holding(): State
  {
    Settled(TRADED, 0).(orders := OFFERED)
  }

  lemma HolderRests()
    ensures ApplySubmit(INIT, "u", Yes, 5_000, LOT) == ASKED
  {
    FirstOrderRests("u", Yes, 5_000, LOT);
  }

  lemma HolderTaken()
    ensures Place([Order("u", Yes, 5_000, LOT, 0, Open)], "v", No, 5_000, LOT) == BOUGHT
    ensures MatchesFor([Order("u", Yes, 5_000, LOT, 0, Open)], "v", No, 5_000, LOT) == [OPENING]
  {
    OnlyMakerTaken([Order("u", Yes, 5_000, LOT, 0, Open)], 0, "v", No, 5_000, LOT);
  }

  lemma HolderMatched()
    ensures ApplySubmit(ASKED, "v", No, 5_000, LOT) == TRADED
  {
    HolderTaken();
    SubmitGives(ASKED, "v", No, 5_000, LOT, BOUGHT, [OPENING]);
    assert NewRows(0, 1) == {0};
  }

  /** With no open order on the other side an order rests. */
  lemma UnopposedRests(orders: seq<Order>, user: User, side: Side, price: int, size: int)
    requires size > 0 && forall j :: 0 <= j < |orders| ==> !OnBook(orders[j], Opposite(side))
    ensures MatchesFor(orders, user, side, price, size) == []
    ensures Place(orders, user, side, price, size) == orders + [Order(user, side, price, size, 0, Open)]
  {
    OpposingBookIsTheBook(orders, Opposite(side), []);
    assert OpposingBook(orders, Opposite(side)) == [];
    assert TakesFor(orders, side, price, size) == [];
    assert Taken([]) == 0;
  }

  lemma OfferRests(s: State)
    requires s.trading && s.orders == BOUGHT
    ensures ApplySubmit(s, "w", Yes, 5_000, 2 * LOT) == s.(orders := OFFERED)
  {
    UnopposedRests(BOUGHT, "w", Yes, 5_000, 2 * LOT);
    assert s.matches + [] == s.matches;
    assert s.pending + NewRows(|s.matches|, 0) == s.pending;
  }

  const BUYS := [Submit("u", Yes, 5_000, LOT), Submit("v", No, 5_000, LOT)]

  lemma BoughtIsReached()
    ensures Reached(INIT, BUYS, TRADED)
  {
    HolderRests();
    HolderMatched();
    ReachedInTwo(INIT, BUYS[0], BUYS[1]);
    assert BUYS == [BUYS[0], BUYS[1]];
  }

  lemma OfferReached(es: seq<Event>, s: State)
    requires Reached(INIT, es, s) && s.trading && s.orders == BOUGHT
    ensures Reachable(s.(orders := OFFERED))
  {
    OfferRests(s);
    ReachedPush(INIT, es, s, Submit("w", Yes, 5_000, 2 * LOT));
    assert s.(orders := OFFERED) == End(INIT, es + [Submit("w", Yes, 5_000, 2 * LOT)]);
  }

  lemma HoldingIsReached()
    ensures Reachable(Holding())
  {
    BoughtIsReached();
    NoDebtsRecords([], OPENING);
    CallEndIs(TRADED, 0);
    CallReaches(INIT, BUYS, TRADED, 0, 0);
    OfferReached(BUYS + CleanCall(0, 0), Settled(TRADED, 0));
  }

  lemma HoldingIs(s: State)
    requires s == Holding()
    ensures s.orders == OFFERED && s.trading && NoDebts(s.positions) && SharesOf(s.positions, "u", Yes) == LOT
  {
    NoDebtsRecords([], OPENING);
    FillKeepsNoDebts([], OPENING);
    ApplyFillEffect([], OPENING, "u", Yes);
  }

  /** Selling one lot of YES hits the maker w, in the first sale as in the second. */
  lemma OfferTaken(orders: seq<Order>, more: seq<Order>, filled: int)
    requires orders == BOUGHT + [Order("w", Yes, 5_000, 2 * LOT, filled, Open)] + more && (filled == 0 || filled == LOT)
    requires forall j :: 0 <= j < |more| ==> !OnBook(more[j], Yes)
    ensures MatchesFor(orders, "u", No, 5_000, LOT) == [Match(2, |orders|, "w", "u", Yes, No, 5_000, LOT)]
    ensures Place(orders, "u", No, 5_000, LOT)
            == orders[2 := Order("w", Yes, 5_000, 2 * LOT, filled + LOT, if filled == 0 then Open else Filled)]
               + [Order("u", No, 5_000, LOT, LOT, Filled)]
  {
    assert orders[2] == Order("w", Yes, 5_000, 2 * LOT, filled, Open);
    forall j | 0 <= j < |orders| && j != 2 ensures !OnBook(orders[j], Yes) {
      assert j > 2 ==> orders[j] == more[j - 3];
      assert j < 2 ==> orders[j] == BOUGHT[j];
    }
    OnlyMakerTaken(orders, 2, "u", No, 5_000, LOT);
  }

  lemma OneMatchTotals(m: Match)
    requires m.makerUser != "u" && m.takerSide == No && m.size == LOT
    ensures TotalMatched([m]) == LOT && Gained([m], "u", Yes) == 0
  {
    assert MatchSizes([m]) == [] + [LOT];
    SumPush([], LOT);
    assert [m][..0] == [];
  }

  lemma FillOfExactlyTheDebt(ps: seq<Position>, m: Match)
    requires m.makerUser == "u" && m.makerSide == Yes && m.size == LOT && SharesOf(ps, "u", Yes) == -LOT
    ensures !Records(ps, m)
  {
    RecordsIsBothAccepted(ps, m);
    RejectedAtExactDebt(ps, "u", Yes, m.size, m.price);
  }

  lemma FirstSale(s: State, one: State)
    requires Inv(s) && s.trading && NoDebts(s.positions) && s.orders == OFFERED
    requires Reached(s, HedgeEvents(s, "u", Yes, LOT, 5_000), one)
    ensures TotalMatched(HedgeMatches(s, "u", Yes, LOT, 5_000)) == LOT
            && Gained(HedgeMatches(s, "u", Yes, LOT, 5_000), "u", Yes) == 0
    ensures one.orders
            == OFFERED[2 := Order("w", Yes, 5_000, 2 * LOT, LOT, Open)] + [Order("u", No, 5_000, LOT, LOT, Filled)]
  {
    OfferTaken(OFFERED, [], 0);
    OneMatchTotals(Match(2, 3, "w", "u", Yes, No, 5_000, LOT));
    HedgeRecordsWithoutDebts(s, "u", Yes, LOT, 5_000);
    HedgeReaches(s, "u", Yes, LOT, 5_000, one);
  }

  lemma SecondSale(one: State)
    requires one.orders
             == OFFERED[2 := Order("w", Yes, 5_000, 2 * LOT, LOT, Open)] + [Order("u", No, 5_000, LOT, LOT, Filled)]
    ensures TotalMatched(HedgeMatches(one, "u", Yes, LOT, 5_000)) == LOT
            && Gained(HedgeMatches(one, "u", Yes, LOT, 5_000), "u", Yes) == 0
  {
    var w := Order("w", Yes, 5_000, 2 * LOT, LOT, Open);
    assert OFFERED[2 := w] == BOUGHT + [w];
    OfferTaken(one.orders, [Order("u", No, 5_000, LOT, LOT, Filled)], LOT);
    OneMatchTotals(Match(2, 4, "w", "u", Yes, No, 5_000, LOT));
  }

  lemma BothSales(s: State, one: State, both: State)
    requires Inv(s) && s.trading && NoDebts(s.positions) && s.orders == OFFERED
             && SharesOf(s.positions, "u", Yes) == LOT
    requires Reached(s, HedgeEvents(s, "u", Yes, LOT, 5_000), one)
    requires Reached(one, HedgeEvents(one, "u", Yes, LOT, 5_000), both)
    ensures SharesOf(ApplyNetDown(ApplyNetDown(both, "u", LOT), "u", LOT).positions, "u", Yes) == -LOT
  {
    FirstSale(s, one);
    SecondSale(one);
    OverlappingSalesOverdrawIff(s, one, both, "u", Yes, LOT, LOT, 5_000);
  }

  /**
   A run without a single fault that overdraws: u holds one share and sells it twice,
   both sales checking before either nets, and ends one share short.  From there a
   match of u's for one share can never be recorded, however often it is retried.
   */
  lemma OverlappingSalesOverdraw() returns (s: State, one: State, both: State, t: State)
    ensures Reachable(s) && SharesOf(s.positions, "u", Yes) == LOT && NoDebts(s.positions)
    ensures Reached(s, HedgeEvents(s, "u", Yes, LOT, 5_000), one)
            && Reached(one, HedgeEvents(one, "u", Yes, LOT, 5_000), both)
    ensures Reached(both, [NetDown("u", LOT), NetDown("u", LOT)], t) && Reachable(t)
    ensures SharesOf(t.positions, "u", Yes) == -LOT
    ensures forall m: Match :: m.makerUser == "u" && m.makerSide == Yes && m.size == LOT ==> !Records(t.positions, m)
  {
    s := Holding();
    HoldingIs(s);
    HoldingIsReached();
    ReachableInv(s);
    one := End(s, HedgeEvents(s, "u", Yes, LOT, 5_000));
    both := End(one, HedgeEvents(one, "u", Yes, LOT, 5_000));
    t := ApplyNetDown(ApplyNetDown(both, "u", LOT), "u", LOT);
    BothSales(s, one, both);
    NettingsReach(s, one, both, t);
    NothingOfOneLotRecorded(t.positions);
  }

  lemma NothingOfOneLotRecorded(ps: seq<Position>)
    requires SharesOf(ps, "u", Yes) == -LOT
    ensures forall m: Match :: m.makerUser == "u" && m.makerSide == Yes && m.size == LOT ==> !Records(ps, m)
  {
    forall m: Match | m.makerUser == "u" && m.makerSide == Yes && m.size == LOT ensures !Records(ps, m) {
      FillOfExactlyTheDebt(ps, m);
    }
  }

  lemma NettingsReach(s: State, one: State, both: State, t: State)
    requires Reachable(s) && Reached(s, HedgeEvents(s, "u", Yes, LOT, 5_000), one)
    requires Reached(one, HedgeEvents(one, "u", Yes, LOT, 5_000), both)
    requires t == ApplyNetDown(ApplyNetDown(both, "u", LOT), "u", LOT)
    ensures Reached(both, [NetDown("u", LOT), NetDown("u", LOT)], t) && Reachable(t)
  {
    ReachableAfter(s, HedgeEvents(s, "u", Yes, LOT, 5_000), one);
    ReachableAfter(one, HedgeEvents(one, "u", Yes, LOT, 5_000), both);
    ReachedInTwo(both, NetDown("u", LOT), NetDown("u", LOT));
    ReachableAfter(both, [NetDown("u", LOT), NetDown("u", LOT)], t);
  }

  // ---------------------------------------------------------------- a match written twice

  /** The matched pair of TRADED with its money moved and its positions written, the row not yet erased. */
  lemma WrittenIsReached() returns (s: State)
    ensures Reached(INIT, BUYS + CleanCall(0, 0)[..6], s) && s == Recorded(TRADED, 0)
  {
    s := Recorded(TRADED, 0);
    BoughtIsReached();
    NoDebtsRecords([], OPENING);
    WriteArrives(TRADED, 0);
    ReachedConcat(INIT, BUYS, TRADED, CleanCall(0, 0)[..6], s);
  }

  lemma AgainIsTaken(ps: seq<Position>)
    requires ps == ApplyFill([], OPENING)
    ensures Records(ps, OPENING) && NoDebts(ps)
  {
    NoDebtsRecords([], OPENING);
    ApplyFillFits([], OPENING);
    FillKeepsNoDebts([], OPENING);
    NoDebtsRecords(ps, OPENING);
  }

  /** Written but not erased, then a crash and a clean retry: written twice, nothing pending, and short of funds. */
  lemma CrashedSettlementIsWrittenTwice() returns (s: State, t: State)
    ensures Reachable(s) && AtStage(s, 0, ERASE) && s.pending == {0}
    ensures Reached(s, [Crash(0)] + CleanCall(|s.attempts|, 0), t) && Reachable(t)
    ensures t.pending == {} && Times(t.fills, 0) == 2 && !OnceEach(t)
    ensures KeysOk(t.log, t.matches) && ExactPool(t) < Claims(t, Yes)
  {
    s := WrittenIsReached();
    assert s == End(INIT, BUYS + CleanCall(0, 0)[..6]);
    ReachableInv(s);
    AgainIsTaken(s.positions);
    var es := [Crash(0)] + CleanCall(|s.attempts|, 0);
    t := End(s, es);
    ReachedIsAfter(s, es, t);
    RetryAfterCrashWritesAgain(s, 0);
    TimesPush([], 0, 0);
    ReachableAfter(s, es, t);
    CrashBetweenWriteAndEraseLeavesPoolShort(s, 0, t);
  }

  /** The events after the first settler of TRADED has moved all the money and stalls there. */
  function Overtaken(): seq<Event>
  {
    CleanCall(1, 0) + [Record(0, Acked)]
  }

  lemma StalledIsReached(s: State)
    requires s == Sending(TRADED, 0, 4)
    ensures Reached(INIT, BUYS + CleanCall(0, 0)[..5], s) && Reachable(s)
    ensures Reached(s, CleanCall(1, 0), Settled(s, 0))
  {
    BoughtIsReached();
    SendsArrive(TRADED, 0, 4);
    ReachedConcat(INIT, BUYS, TRADED, CleanCall(0, 0)[..5], s);
    assert s == End(INIT, BUYS + CleanCall(0, 0)[..5]);
    NoDebtsRecords([], OPENING);
    CallEndIs(s, 0);
    CleanCallReaches(s, 0);
  }

  lemma LateWrite(mid: State, t: State)
    requires mid == Settled(Sending(TRADED, 0, 4), 0) && t == ApplyRecord(mid, 0, Acked)
    ensures t.pending == {} && t.matches == [OPENING] && t.fills == [0, 0]
  {
    AgainIsTaken(mid.positions);
  }

  lemma TwiceLeavesThePoolShort(t: State)
    requires Reachable(t) && t.pending == {} && t.matches == [OPENING] && t.fills == [0, 0]
    ensures Times(t.fills, 0) == 2 && !OnceEach(t)
    ensures KeysOk(t.log, t.matches) && ExactPool(t) < Claims(t, Yes)
  {
    assert t.fills == [] + [0] + [0];
    TimesPush([], 0, 0);
    TimesPush([] + [0], 0, 0);
    assert Times(t.fills, 0) == 2 && |t.matches| == 1;
    FundedAtRestIff(t, Yes);
  }

  lemma OvertakenReaches(s: State, mid: State, t: State)
    requires Reachable(s) && Reached(s, CleanCall(1, 0), mid) && t == ApplyRecord(mid, 0, Acked)
    ensures Reached(s, Overtaken(), t) && Reachable(t)
  {
    ReachedPush(s, CleanCall(1, 0), mid, Record(0, Acked));
    ReachableAfter(s, Overtaken(), t);
  }

  /** Two settlers of the row and no failure at all: one stalls before its write while the other does everything. */
  lemma StalledSettlementIsWrittenTwice() returns (s: State, t: State)
    ensures Reached(INIT, BUYS + CleanCall(0, 0)[..5], s)
    ensures Reached(s, Overtaken(), t) && Reachable(t)
    ensures t.pending == {} && Times(t.fills, 0) == 2 && !OnceEach(t)
    ensures KeysOk(t.log, t.matches) && ExactPool(t) < Claims(t, Yes)
  {
    s := Sending(TRADED, 0, 4);
    t := ApplyRecord(Settled(s, 0), 0, Acked);
    StalledIsReached(s);
    OvertakenReaches(s, Settled(s, 0), t);
    LateWrite(Settled(s, 0), t);
    TwiceLeavesThePoolShort(t);
  }

  // ---------------------------------------------------------------- an order released twice

  const LISTED := INIT.(trading := false, orders := [Order("a", Yes, 5_000, LOT, 0, Open)], listing := Listed({0}))

  const LISTING := [Submit("a", Yes, 5_000, LOT), LockRound, ListOpen]

  lemma ListedIsReached()
    ensures Reached(INIT, LISTING, LISTED)
  {
    FirstOrderRests("a", Yes, 5_000, LOT);
    SubmitGives(INIT, "a", Yes, 5_000, LOT, LISTED.orders, []);
    var rested := INIT.(orders := LISTED.orders);
    assert ApplySubmit(INIT, "a", Yes, 5_000, LOT) == rested;
    ReachedInTwo(INIT, LISTING[0], LISTING[1]);
    assert OpenOrders(LISTED.orders) == {0};
    ReachedPush(INIT, [LISTING[0], LISTING[1]], ApplyLock(rested), ListOpen);
    assert LISTING == [LISTING[0], LISTING[1]] + [ListOpen];
  }

  /** A run without a fault: the owner cancels between the listing and the refund, and the remainder goes back twice. */
  lemma ListedOrderIsReleasedTwice() returns (s: State, t: State)
    ensures Reached(INIT, LISTING, s) && ToRefund(s, 0) && s.orders[0].status == Open
    ensures Reached(s, [Withdraw(0, "a", Acked), RefundRest(0, Acked)], t)
    ensures AllReleases(t.unlocks, 0) == 2
  {
    s := LISTED;
    t := End(s, [Withdraw(0, "a", Acked), RefundRest(0, Acked)]);
    ListedIsReached();
    CancelThenRefund(s, 0, Acked, Acked);
    ReachedIsAfter(s, [Withdraw(0, "a", Acked), RefundRest(0, Acked)], t);
  }
}
