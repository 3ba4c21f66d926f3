/** The stored average entry price of a position, over every run. */
module Average {
  import opened Types
  import opened Money
  import opened Ledger
  import opened Market
  import opened Protocol
  import opened Debts

  /** The match updates the user's row on this side; never through both of its ends. */
  predicate Concerns(m: Match, user: User, side: Side)
  {
    (m.makerUser == user && m.makerSide == side) || (m.takerUser == user && m.takerSide == side)
  }

  /** The price at which a match enters the row: a maker's at the YES price, a taker's at that of its own side. */
  function EntryPrice(m: Match, user: User, side: Side): int
  {
    if (m.makerUser == user && m.makerSide == side) || side == Yes then m.price else 10_000 - m.price
  }

  predicate PricedWithin(fills: seq<nat>, matches: seq<Match>, user: User, side: Side, lo: int, hi: int)
    requires FillsOk(fills, matches)
  {
    forall k :: 0 <= k < |fills| && Concerns(matches[fills[k]], user, side)
                ==> lo <= EntryPrice(matches[fills[k]], user, side) <= hi
  }

  /** How many recorded fills updated the row, and their exact price-weighted size. */
  function Updates(fills: seq<nat>, matches: seq<Match>, user: User, side: Side): nat
    requires FillsOk(fills, matches)
  {
    if |fills| == 0 then 0
    else
      var n := |fills| - 1;
      Updates(fills[..n], matches, user, side) + if Concerns(matches[fills[n]], user, side) then 1 else 0
  }

  function Notional(fills: seq<nat>, matches: seq<Match>, user: User, side: Side): int
    requires FillsOk(fills, matches)
  {
    if |fills| == 0 then 0
    else
      var n := |fills| - 1;
      var m := matches[fills[n]];
      Notional(fills[..n], matches, user, side)
      + if Concerns(m, user, side) then m.size * EntryPrice(m, user, side) else 0
  }

  // ---------------------------------------------------------------- one row

  predicate Within(ps: seq<Position>, user: User, side: Side, lo: int, hi: int)
  {
    forall i :: 0 <= i < |ps| && ps[i].user == user && ps[i].side == side ==> lo <= ps[i].avgPrice <= hi
  }

  /** |avg * shares - notional| <= n * shares / 2: each update added at most half a unit of the last digit. */
  predicate Near(shares: int, avg: int, notional: int, n: nat)
  {
    -(n * shares) <= 2 * (avg * shares - notional) <= n * shares
  }

  predicate Drifted(ps: seq<Position>, user: User, side: Side, notional: int, n: nat)
  {
    var r := Find(ps, user, side);
    if r < |ps| then Near(ps[r].shares, ps[r].avgPrice, notional, n) else notional == 0 && n == 0
  }

  lemma UpsertStaysWithin(ps: seq<Position>, user: User, side: Side, add: int, price: int, u: User, s: Side, lo: int,
                          hi: int)
    requires add > 0 && Within(ps, u, s, lo, hi)
    requires user == u && side == s ==> SharesOf(ps, u, s) >= 0 && lo <= price <= hi
    ensures Within(Upsert(ps, user, side, add, price), u, s, lo, hi)
  {
    var r := Find(ps, user, side);
    if r < |ps| {
      NewAverageIsAveraged(ps[r], add, price);
      if user == u && side == s {
        BlendWithin(ps[r].shares, ps[r].avgPrice, add, price, lo, hi);
      }
    }
  }

  lemma NearStep(p: Position, add: int, price: int, notional: int, n: nat)
    requires p.shares >= 0 && add > 0 && Near(p.shares, p.avgPrice, notional, n)
    ensures Near(p.shares + add, NewAverage(p, add, price), notional + add * price, n + 1)
  {
    NewAverageIsAveraged(p, add, price);
    DriftStep(n, p.shares, p.avgPrice, notional, add, price);
    assert Blend(p.shares, p.avgPrice, add, price) == NewAverage(p, add, price);
  }

  lemma FirstIsExact(add: int, price: int)
    requires add > 0
    ensures Near(add, price, 0 + add * price, 1)
  {
  }

  lemma UpsertDrifts(ps: seq<Position>, user: User, side: Side, add: int, price: int, u: User, s: Side, notional: int,
                     n: nat)
    requires add > 0 && Drifted(ps, u, s, notional, n)
    requires user == u && side == s ==> SharesOf(ps, u, s) >= 0
    ensures var same := user == u && side == s;
            Drifted(Upsert(ps, user, side, add, price), u, s,
                    if same then notional + add * price else notional, if same then n + 1 else n)
  {
    var after := Upsert(ps, user, side, add, price);
    var r := Find(ps, u, s);
    FindInSameKeys(ps, after, u, s);
    if user == u && side == s {
      if r < |ps| {
        NearStep(ps[r], add, price, notional, n);
      } else {
        assert after[|ps|] == Position(u, s, add, price);
        assert Find(after, u, s) == |ps|;
        FirstIsExact(add, price);
      }
    } else if r == |ps| {
      assert Find(after, u, s) == |after|;
    }
  }

  // ---------------------------------------------------------------- every run

  lemma FillStaysWithin(ps: seq<Position>, m: Match, user: User, side: Side, lo: int, hi: int)
    requires SharesOf(ps, user, side) >= 0 && UniqueRows(ps) && MatchOk(m) && Within(ps, user, side, lo, hi)
    requires Concerns(m, user, side) ==> lo <= EntryPrice(m, user, side) <= hi
    ensures Within(ApplyFill(ps, m), user, side, lo, hi)
  {
    var mid := Upsert(ps, m.makerUser, m.makerSide, m.size, m.price);
    ApplyFillIsBothUpserts(ps, m);
    UpsertEffect(ps, m.makerUser, m.makerSide, m.size, m.price, user, side);
    UpsertStaysWithin(ps, m.makerUser, m.makerSide, m.size, m.price, user, side, lo, hi);
    UpsertStaysWithin(mid, m.takerUser, m.takerSide, m.size, TakerPrice(m), user, side, lo, hi);
  }

  lemma FillDrifts(ps: seq<Position>, m: Match, user: User, side: Side, notional: int, n: nat)
    requires SharesOf(ps, user, side) >= 0 && UniqueRows(ps) && MatchOk(m) && Drifted(ps, user, side, notional, n)
    ensures var hit := Concerns(m, user, side);
            Drifted(ApplyFill(ps, m), user, side,
                    if hit then notional + m.size * EntryPrice(m, user, side) else notional,
                    if hit then n + 1 else n)
  {
    var mid := Upsert(ps, m.makerUser, m.makerSide, m.size, m.price);
    var same := m.makerUser == user && m.makerSide == side;
    ApplyFillIsBothUpserts(ps, m);
    UpsertEffect(ps, m.makerUser, m.makerSide, m.size, m.price, user, side);
    UpsertDrifts(ps, m.makerUser, m.makerSide, m.size, m.price, user, side, notional, n);
    UpsertDrifts(mid, m.takerUser, m.takerSide, m.size, TakerPrice(m), user, side,
                 if same then notional + m.size * m.price else notional, if same then n + 1 else n);
  }

  lemma FillsOkAlways(es: seq<Event>)
    ensures FillsOk(After(INIT, es).fills, After(INIT, es).matches)
  {
    InitInv();
    RunsKeepInv(INIT, es);
  }

  /** The row whose position transaction an event commits, or the number of matches if it commits none. */
  ghost function RowWritten(s: State, e: Event): nat
  {
    if Commits(s, e) then s.attempts[e.attempt].row else |s.matches|
  }

  /** Averages are written by position transactions only; netting takes shares away and leaves them. */
  lemma OnlyRecordsWriteAverages(s: State, e: Event)
    ensures var t := Apply(s, e);
            var row := RowWritten(s, e);
            && s.matches <= t.matches
            && (row < |s.matches| ==>
                  && t.fills == s.fills + [row] && t.matches == s.matches
                  && t.positions == ApplyFill(s.positions, s.matches[row]) && t.nettings == s.nettings)
            && (row == |s.matches| ==>
                  && t.fills == s.fills
                  && ((t.positions == s.positions && t.nettings == s.nettings)
                      || (e.NetDown? && t.positions == NetPositions(s.positions, e.user, e.amount)
                          && t.nettings == s.nettings + [Netting(e.user, e.amount)])))
  {
  }

  lemma StepStaysWithin(s: State, e: Event, user: User, side: Side, lo: int, hi: int)
    requires Inv(s) && Within(s.positions, user, side, lo, hi) && SharesOf(s.positions, user, side) >= 0
    requires FillsOk(Apply(s, e).fills, Apply(s, e).matches)
    requires PricedWithin(Apply(s, e).fills, Apply(s, e).matches, user, side, lo, hi)
    ensures Within(Apply(s, e).positions, user, side, lo, hi)
  {
    var t := Apply(s, e);
    var row := RowWritten(s, e);
    OnlyRecordsWriteAverages(s, e);
    if row < |s.matches| {
      assert t.fills[|s.fills|] == row;
      FillStaysWithin(s.positions, s.matches[row], user, side, lo, hi);
    }
  }

  lemma EarlierFills(s: State, t: State, user: User, side: Side, lo: int, hi: int)
    requires FillsOk(s.fills, s.matches) && s.fills <= t.fills && s.matches <= t.matches
    requires FillsOk(t.fills, t.matches) && PricedWithin(t.fills, t.matches, user, side, lo, hi)
    ensures PricedWithin(s.fills, s.matches, user, side, lo, hi)
  {
    forall k | 0 <= k < |s.fills| && Concerns(s.matches[s.fills[k]], user, side)
      ensures lo <= EntryPrice(s.matches[s.fills[k]], user, side) <= hi
    {
      assert t.fills[k] == s.fills[k] && t.matches[s.fills[k]] == s.matches[s.fills[k]];
    }
  }

  lemma {:induction false} RunsStayWithin(es: seq<Event>, user: User, side: Side, lo: int, hi: int)
    requires CoveredRun(INIT, es, user)
    requires FillsOk(After(INIT, es).fills, After(INIT, es).matches)
    requires PricedWithin(After(INIT, es).fills, After(INIT, es).matches, user, side, lo, hi)
    ensures Within(After(INIT, es).positions, user, side, lo, hi)
  {
    if |es| > 0 {
      var front := es[..|es| - 1];
      var s := After(INIT, front);
      FillsOkAlways(front);
      HistoryGrows(s, es[|es| - 1]);
      EarlierFills(s, After(INIT, es), user, side, lo, hi);
      RunsStayWithin(front, user, side, lo, hi);
      NeverInDebtIffCovered(front, user);
      NoDebtAtTheEnd(front, user);
      InitInv();
      RunsKeepInv(INIT, front);
      StepStaysWithin(s, es[|es| - 1], user, side, lo, hi);
    }
  }

  /**
   As long as the user's nettings are covered, whatever else happens, a stored
   average stays within the prices of the row's own fills.
   */
  lemma StoredAverageStaysWithinFills(s: State, user: User, side: Side, lo: int, hi: int)
    requires CoveredReachable(s, user)
    requires FillsOk(s.fills, s.matches) && PricedWithin(s.fills, s.matches, user, side, lo, hi)
    ensures Within(s.positions, user, side, lo, hi)
  {
    var es :| s == End(INIT, es) && CoveredRun(INIT, es, user);
    ReachedIsAfter(INIT, es, s);
    RunsStayWithin(es, user, side, lo, hi);
  }

  lemma {:induction false} HistoryStable(fills: seq<nat>, matches: seq<Match>, more: seq<Match>, user: User, side: Side)
    requires FillsOk(fills, matches) && matches <= more
    ensures Updates(fills, more, user, side) == Updates(fills, matches, user, side)
    ensures Notional(fills, more, user, side) == Notional(fills, matches, user, side)
  {
    if |fills| > 0 {
      HistoryStable(fills[..|fills| - 1], matches, more, user, side);
    }
  }

  lemma HistoryPush(fills: seq<nat>, matches: seq<Match>, row: nat, user: User, side: Side)
    requires FillsOk(fills, matches) && row < |matches|
    ensures var m := matches[row];
            var hit := Concerns(m, user, side);
            && Updates(fills + [row], matches, user, side)
               == (if hit then Updates(fills, matches, user, side) + 1 else Updates(fills, matches, user, side))
            && Notional(fills + [row], matches, user, side)
               == (if hit then Notional(fills, matches, user, side) + m.size * EntryPrice(m, user, side)
                   else Notional(fills, matches, user, side))
  {
    assert (fills + [row])[..|fills|] == fills;
  }

  lemma OthersNetting(ps: seq<Position>, other: User, amount: int, user: User, side: Side, notional: int, n: nat)
    requires UniqueRows(ps) && other != user && Drifted(ps, user, side, notional, n)
    ensures Drifted(NetPositions(ps, other, amount), user, side, notional, n)
  {
    NetEffect(ps, other, amount, user, side);
  }

  /** The user's row has drifted no further than its history of fills allows. */
  predicate DriftOk(ps: seq<Position>, fills: seq<nat>, matches: seq<Match>, user: User, side: Side)
  {
    && FillsOk(fills, matches)
    && Drifted(ps, user, side, Notional(fills, matches, user, side), Updates(fills, matches, user, side))
  }

  lemma FillKeepsDrift(ps: seq<Position>, fills: seq<nat>, matches: seq<Match>, row: nat, user: User, side: Side)
    requires SharesOf(ps, user, side) >= 0 && UniqueRows(ps) && row < |matches| && MatchOk(matches[row])
    requires DriftOk(ps, fills, matches, user, side)
    ensures DriftOk(ApplyFill(ps, matches[row]), fills + [row], matches, user, side)
  {
    HistoryPush(fills, matches, row, user, side);
    FillDrifts(ps, matches[row], user, side, Notional(fills, matches, user, side), Updates(fills, matches, user, side));
  }

  lemma NettingKeepsDrift(ps: seq<Position>, fills: seq<nat>, matches: seq<Match>, other: User, amount: int, user: User,
                          side: Side)
    requires UniqueRows(ps) && other != user && DriftOk(ps, fills, matches, user, side)
    ensures DriftOk(NetPositions(ps, other, amount), fills, matches, user, side)
  {
    OthersNetting(ps, other, amount, user, side, Notional(fills, matches, user, side),
                  Updates(fills, matches, user, side));
  }

  lemma MoreMatchesKeepDrift(ps: seq<Position>, fills: seq<nat>, matches: seq<Match>, more: seq<Match>, user: User,
                             side: Side)
    requires DriftOk(ps, fills, matches, user, side) && matches <= more
    ensures DriftOk(ps, fills, more, user, side)
  {
    HistoryStable(fills, matches, more, user, side);
  }

  /** Who never netted holds what was filled for it. */
  lemma NoNettingNoDebt(s: State, user: User, side: Side)
    requires Inv(s) && NeverNets(s.nettings, user)
    ensures SharesOf(s.positions, user, side) >= 0
  {
    NettedNothing(s.nettings, user);
    HoldingsAreFills(s, user, side);
    FilledIsNotNegative(s, user, side);
  }

  lemma StepDrifts(s: State, e: Event, user: User, side: Side)
    requires Inv(s) && NeverNets(Apply(s, e).nettings, user)
    requires DriftOk(s.positions, s.fills, s.matches, user, side)
    ensures var t := Apply(s, e); DriftOk(t.positions, t.fills, t.matches, user, side)
  {
    var t := Apply(s, e);
    var row := RowWritten(s, e);
    OnlyRecordsWriteAverages(s, e);
    assert forall k :: 0 <= k < |s.nettings| ==> t.nettings[k] == s.nettings[k];
    NoNettingNoDebt(s, user, side);
    if row < |s.matches| {
      FillKeepsDrift(s.positions, s.fills, s.matches, row, user, side);
    } else {
      if t.positions != s.positions {
        assert t.nettings[|s.nettings|].user == e.user;
        NettingKeepsDrift(s.positions, s.fills, s.matches, e.user, e.amount, user, side);
      }
      MoreMatchesKeepDrift(t.positions, s.fills, s.matches, t.matches, user, side);
    }
  }

  lemma {:induction false} RunsDrift(es: seq<Event>, user: User, side: Side)
    requires NeverNets(After(INIT, es).nettings, user)
    ensures var s := After(INIT, es); DriftOk(s.positions, s.fills, s.matches, user, side)
  {
    if |es| > 0 {
      var front := es[..|es| - 1];
      var s := After(INIT, front);
      HistoryGrows(s, es[|es| - 1]);
      forall k | 0 <= k < |s.nettings| ensures s.nettings[k].user != user {
        assert After(INIT, es).nettings[k] == s.nettings[k];
      }
      RunsDrift(front, user, side);
      InitInv();
      RunsKeepInv(INIT, front);
      StepDrifts(s, es[|es| - 1], user, side);
    }
  }

  /**
   For a user who never netted, the stored average after n updates of the row is
   within n * 0.00005 of the exact size-weighted average of the recorded fills.
   */
  lemma StoredAverageDrift(s: State, user: User, side: Side)
    requires Reachable(s) && NeverNets(s.nettings, user)
    ensures DriftOk(s.positions, s.fills, s.matches, user, side)
  {
    var es :| s == End(INIT, es);
    ReachedIsAfter(INIT, es, s);
    RunsDrift(es, user, side);
  }

  // ---------------------------------------------------------------- against what was paid

  /** What the user paid for a match on this side, fees apart. */
  function CostOf(m: Match, user: User, side: Side): int
  {
    var s := SplitOf(m.makerSide, m.price, m.size);
    if m.makerUser == user && m.makerSide == side then s.makerCost else s.takerCost
  }

  /** What a match records for the user beyond what it paid: a NO maker is recorded at the YES price. */
  function Excess(m: Match, user: User, side: Side): int
  {
    if m.makerUser == user && m.makerSide == side && side == No then (2 * m.price - 10_000) * m.size * 100_000 else 0
  }

  function Paid(fills: seq<nat>, matches: seq<Match>, user: User, side: Side): int
    requires FillsOk(fills, matches)
  {
    if |fills| == 0 then 0
    else
      var n := |fills| - 1;
      var m := matches[fills[n]];
      Paid(fills[..n], matches, user, side) + if Concerns(m, user, side) then CostOf(m, user, side) else 0
  }

  function ExcessOf(fills: seq<nat>, matches: seq<Match>, user: User, side: Side): int
    requires FillsOk(fills, matches)
  {
    if |fills| == 0 then 0
    else
      var n := |fills| - 1;
      var m := matches[fills[n]];
      ExcessOf(fills[..n], matches, user, side) + if Concerns(m, user, side) then Excess(m, user, side) else 0
  }

  lemma RecordedIsPaidPlusExcess(m: Match, user: User, side: Side)
    requires MatchOk(m) && Concerns(m, user, side)
    ensures m.size * EntryPrice(m, user, side) * 100_000 == CostOf(m, user, side) + Excess(m, user, side)
    ensures Excess(m, user, side) == 0 <==> !(m.makerUser == user && m.makerSide == side == No) || m.price == 5_000
  {
    assert (2 * m.price - 10_000) * m.size == m.price * m.size - (10_000 - m.price) * m.size;
    NonZeroProduct(2 * m.price - 10_000, m.size);
  }

  lemma {:induction false} NotionalIsPaidPlusExcess(fills: seq<nat>, matches: seq<Match>, user: User, side: Side)
    requires FillsOk(fills, matches) && AllMatchesOk(matches)
    ensures Notional(fills, matches, user, side) * 100_000
            == Paid(fills, matches, user, side) + ExcessOf(fills, matches, user, side)
  {
    if |fills| > 0 {
      var n := |fills| - 1;
      NotionalIsPaidPlusExcess(fills[..n], matches, user, side);
      if Concerns(matches[fills[n]], user, side) {
        RecordedIsPaidPlusExcess(matches[fills[n]], user, side);
      }
    }
  }

  /** The user was never the maker of a recorded NO fill away from one half. */
  predicate NeverNoMaker(fills: seq<nat>, matches: seq<Match>, user: User)
    requires FillsOk(fills, matches)
  {
    forall k :: 0 <= k < |fills| && matches[fills[k]].makerUser == user && matches[fills[k]].makerSide == No ==>
      matches[fills[k]].price == 5_000
  }

  lemma {:induction false} NoExcess(fills: seq<nat>, matches: seq<Match>, user: User, side: Side)
    requires FillsOk(fills, matches) && AllMatchesOk(matches) && (side == Yes || NeverNoMaker(fills, matches, user))
    ensures ExcessOf(fills, matches, user, side) == 0
  {
    if |fills| > 0 {
      var n := |fills| - 1;
      NoExcess(fills[..n], matches, user, side);
      if Concerns(matches[fills[n]], user, side) {
        RecordedIsPaidPlusExcess(matches[fills[n]], user, side);
      }
    }
  }

  /** 2 * |avg * shares - paid - excess| <= n * shares, in grains of money. */
  predicate NearCost(p: Position, paid: int, excess: int, n: nat)
  {
    -(n * p.shares * 100_000) <= 2 * (p.avgPrice * p.shares * 100_000 - paid - excess) <= n * p.shares * 100_000
  }

  /**
   Against the money: the stored average of a user who never netted is within
   n * 0.00005 of what the user paid a share for its n recorded fills, plus what was
   recorded beyond that for NO fills it made; the latter is nothing on the YES side,
   and on the NO side if it made none away from one half.
   */
  lemma AverageTracksTheCost(s: State, user: User, side: Side)
    requires Reachable(s) && NeverNets(s.nettings, user)
    ensures FillsOk(s.fills, s.matches)
    ensures var paid, excess := Paid(s.fills, s.matches, user, side), ExcessOf(s.fills, s.matches, user, side);
            && (HasRow(s.positions, user, side) ==>
                  NearCost(s.positions[Find(s.positions, user, side)], paid, excess,
                           Updates(s.fills, s.matches, user, side)))
            && (!HasRow(s.positions, user, side) ==> paid + excess == 0)
            && (side == Yes || NeverNoMaker(s.fills, s.matches, user) ==> excess == 0)
  {
    ReachableInv(s);
    StoredAverageDrift(s, user, side);
    NotionalIsPaidPlusExcess(s.fills, s.matches, user, side);
    if side == Yes || NeverNoMaker(s.fills, s.matches, user) {
      NoExcess(s.fills, s.matches, user, side);
    }
    if HasRow(s.positions, user, side) {
      var p := s.positions[Find(s.positions, user, side)];
      ScaledNear(p, Notional(s.fills, s.matches, user, side), Updates(s.fills, s.matches, user, side));
    }
  }

  lemma ScaledNear(p: Position, notional: int, n: nat)
    requires Near(p.shares, p.avgPrice, notional, n)
    ensures NearCost(p, notional * 100_000, 0, n)
  {
  }
}
