/** Selling a position: a hedge order on the other side, then netting what it filled. */
module Selling {
  import opened Types
  import opened Sums
  import opened Money
  import opened Book
  import opened Ledger
  import opened Market
  import opened Protocol
  import opened Debts

  /** The price of the hedge order that closes a side at no worse than `minPrice`. */
  function HedgePrice(side: Side, minPrice: int): int
  {
    if side == Yes then ONE - minPrice else minPrice
  }

  /** The lowest maker price a sale may trade against, on the side being sold. */
  function WorstMaker(side: Side, minPrice: int): int
  {
    if side == Yes then minPrice else ONE - minPrice
  }

  function Rows(first: nat, count: nat): (rows: seq<nat>)
    ensures |rows| == count && forall k :: 0 <= k < count ==> rows[k] == first + k
  {
    seq(count, k requires 0 <= k < count => first + k)
  }

  function HedgeMatches(s: State, user: User, side: Side, size: int, minPrice: int): seq<Match>
  {
    MatchesFor(s.orders, user, Opposite(side), HedgePrice(side, minPrice), size)
  }

  /** Placing the hedge and settling its matches, undisturbed. */
  function HedgeEvents(s: State, user: User, side: Side, size: int, minPrice: int): seq<Event>
  {
    [Submit(user, Opposite(side), HedgePrice(side, minPrice), size)]
    + SweepCalls(|s.attempts|, Rows(|s.matches|, |HedgeMatches(s, user, side, size, minPrice)|))
  }

  /** The whole of a serial sale. */
  function SellEvents(s: State, user: User, side: Side, size: int, minPrice: int): seq<Event>
  {
    HedgeEvents(s, user, side, size, minPrice)
    + [NetDown(user, TotalMatched(HedgeMatches(s, user, side, size, minPrice)))]
  }

  /** Shares a batch of matches gives a user on a side. */
  function Gained(ms: seq<Match>, user: User, side: Side): int
  {
    if |ms| == 0 then 0
    else Gained(ms[..|ms| - 1], user, side) + ShareOfMatch(ms[|ms| - 1], user, side)
  }

  lemma GainedPush(ms: seq<Match>, n: nat, user: User, side: Side)
    requires 0 < n <= |ms|
    ensures Gained(ms[..n], user, side) == Gained(ms[..n - 1], user, side) + ShareOfMatch(ms[n - 1], user, side)
  {
    assert ms[..n][..n - 1] == ms[..n - 1];
  }

  lemma {:induction false} GainedIsFilled(fills: seq<nat>, matches: seq<Match>, more: seq<Match>, n: nat, user: User,
                                          side: Side)
    requires FillsOk(fills, matches) && n <= |more|
    ensures FillsOk(fills + Rows(|matches|, n), matches + more)
    ensures FilledFor(fills + Rows(|matches|, n), matches + more, user, side)
            == FilledFor(fills, matches, user, side) + Gained(more[..n], user, side)
  {
    if n == 0 {
      assert fills + Rows(|matches|, 0) == fills;
      FilledForStable(fills, matches, more, user, side);
    } else {
      var before := fills + Rows(|matches|, n - 1);
      var row := |matches| + n - 1;
      GainedIsFilled(fills, matches, more, n - 1, user, side);
      FilledForPush(before, matches + more, row, user, side);
      assert Rows(|matches|, n) == Rows(|matches|, n - 1) + [row];
      assert fills + Rows(|matches|, n) == before + [row];
      GainedPush(more, n, user, side);
    }
  }

  /** The taker of a batch gains all of it on its side; on the other only what it traded with itself. */
  lemma {:induction false} TakerGains(ms: seq<Match>, user: User, side: Side)
    requires forall k :: 0 <= k < |ms| ==> ms[k].takerUser == user && ms[k].takerSide == side && MatchOk(ms[k])
    ensures Gained(ms, user, side) == TotalMatched(ms)
    ensures 0 <= Gained(ms, user, Opposite(side)) <= TotalMatched(ms)
    ensures (forall k :: 0 <= k < |ms| ==> ms[k].makerUser != user) ==> Gained(ms, user, Opposite(side)) == 0
  {
    if |ms| > 0 {
      var n := |ms| - 1;
      TakerGains(ms[..n], user, side);
      TotalMatchedConcat(ms[..n], [ms[n]]);
      assert ms[..n] + [ms[n]] == ms;
      assert MatchSizes([ms[n]]) == [ms[n].size];
      SumPush([], ms[n].size);
      assert [] + [ms[n].size] == [ms[n].size];
    } else {
      assert TotalMatched([]) == 0;
    }
  }

  lemma HedgeMatchesFacts(s: State, user: User, side: Side, size: int, minPrice: int)
    requires Inv(s) && 0 < minPrice < ONE && size > 0
    ensures var ms := HedgeMatches(s, user, side, size, minPrice);
            && TotalMatched(ms) == Min(size, Liquidity(s.orders, side, WorstMaker(side, minPrice)))
            && 0 <= TotalMatched(ms) <= size
            && (forall k :: 0 <= k < |ms| ==>
                  && MatchOk(ms[k]) && ms[k].takerUser == user && ms[k].takerSide == Opposite(side)
                  && ms[k].makerSide == side && ms[k].price >= WorstMaker(side, minPrice)
                  && ms[k].price >= (if side == Yes then minPrice else 10_000 - minPrice))
            && TotalMatched(ms)
               == Min(size, Liquidity(s.orders, side, if side == Yes then minPrice else 10_000 - minPrice))
  {
    var price := HedgePrice(side, minPrice);
    var hedge := Opposite(side);
    TakesFacts(s.orders, hedge, price, size);
    TakesTotal(s.orders, TakesFor(s.orders, hedge, price, size), user, hedge,
               HedgeMatches(s, user, side, size, minPrice));
    forall k | 0 <= k < |HedgeMatches(s, user, side, size, minPrice)|
      ensures MatchOk(HedgeMatches(s, user, side, size, minPrice)[k])
    {
      PlaceMatchesOk(s.orders, user, hedge, price, size, k);
    }
  }

  /** The database takes the position transactions of all the hedge's matches. */
  ghost predicate HedgeRecords(s: State, user: User, side: Side, size: int, minPrice: int)
  {
    var more := HedgeMatches(s, user, side, size, minPrice);
    AllRecord(s.positions, s.matches + more, Rows(|s.matches|, |more|))
  }

  /** As it does when nobody is in debt. */
  lemma HedgeRecordsWithoutDebts(s: State, user: User, side: Side, size: int, minPrice: int)
    requires Inv(s) && NoDebts(s.positions) && 0 < minPrice < ONE && size > 0
    ensures HedgeRecords(s, user, side, size, minPrice)
  {
    var more := HedgeMatches(s, user, side, size, minPrice);
    var rows := Rows(|s.matches|, |more|);
    HedgeMatchesFacts(s, user, side, size, minPrice);
    NoDebtsAllRecord(s.positions, s.matches + more, rows, |rows|);
    assert rows[..|rows|] == rows;
  }

  lemma HedgeReaches(s: State, user: User, side: Side, size: int, minPrice: int, t: State)
    requires Inv(s) && s.trading && 0 < minPrice < ONE && size > 0 && HedgeRecords(s, user, side, size, minPrice)
    requires Reached(s, HedgeEvents(s, user, side, size, minPrice), t)
    ensures Inv(t)
    ensures var more := HedgeMatches(s, user, side, size, minPrice);
            && t.matches == s.matches + more
            && t.fills == s.fills + Rows(|s.matches|, |more|)
            && t.nettings == s.nettings
            && t.pending == s.pending && t.trading
            && t.orders == Place(s.orders, user, Opposite(side), HedgePrice(side, minPrice), size)
            && t.positions == FillAll(s.positions, s.matches + more, Rows(|s.matches|, |more|))
  {
    var submit := Submit(user, Opposite(side), HedgePrice(side, minPrice), size);
    var more := HedgeMatches(s, user, side, size, minPrice);
    var rows := Rows(|s.matches|, |more|);
    var mid := ApplySubmit(s, user, Opposite(side), HedgePrice(side, minPrice), size);
    ReachedKeepsInv(s, HedgeEvents(s, user, side, size, minPrice), t);
    ReachedIsAfter(s, [], s);
    ReachedPush(s, [], s, submit);
    assert [] + [submit] == [submit];
    SweepReaches(mid, rows);
    SweepSettles(mid, rows);
    ReachedConcat(s, [submit], mid, SweepCalls(|s.attempts|, rows), SweepEnd(mid, rows));
    ReachedOnce(s, HedgeEvents(s, user, side, size, minPrice), t, SweepEnd(mid, rows));
    HedgeErasesItsRows(s, |more|);
  }

  lemma HedgeErasesItsRows(s: State, count: nat)
    requires Inv(s)
    ensures (s.pending + NewRows(|s.matches|, count)) - RowSet(Rows(|s.matches|, count)) == s.pending
  {
    var rows := Rows(|s.matches|, count);
    forall row ensures row in RowSet(rows) <==> row in NewRows(|s.matches|, count) {
      if row in NewRows(|s.matches|, count) {
        assert rows[row - |s.matches|] == row;
      }
    }
  }

  /** What the settled hedge adds to the user's holding of a side. */
  lemma HoldingAfterHedge(s: State, user: User, side: Side, size: int, minPrice: int, t: State, which: Side)
    requires Inv(s) && s.trading && 0 < minPrice < ONE && size > 0 && HedgeRecords(s, user, side, size, minPrice)
    requires Reached(s, HedgeEvents(s, user, side, size, minPrice), t)
    ensures SharesOf(t.positions, user, which)
            == SharesOf(s.positions, user, which) + Gained(HedgeMatches(s, user, side, size, minPrice), user, which)
  {
    var more := HedgeMatches(s, user, side, size, minPrice);
    HedgeReaches(s, user, side, size, minPrice, t);
    assert more[..|more|] == more;
    GainedIsFilled(s.fills, s.matches, more, |more|, user, which);
    HoldingsAreFills(s, user, which);
    HoldingsAreFills(t, user, which);
  }

  /** Holdings just before netting: the hedge is in full, the sold side has not shrunk. */
  lemma HoldingsBeforeNetting(s: State, user: User, side: Side, size: int, minPrice: int, t: State)
    requires Inv(s) && s.trading && 0 < minPrice < ONE && size > 0 && HedgeRecords(s, user, side, size, minPrice)
    requires Reached(s, HedgeEvents(s, user, side, size, minPrice), t)
    ensures var more := HedgeMatches(s, user, side, size, minPrice);
            && SharesOf(t.positions, user, Opposite(side))
               == SharesOf(s.positions, user, Opposite(side)) + TotalMatched(more)
            && SharesOf(t.positions, user, side) == SharesOf(s.positions, user, side) + Gained(more, user, side)
            && Gained(more, user, side) >= 0
  {
    HoldingAfterHedge(s, user, side, size, minPrice, t, side);
    HoldingAfterHedge(s, user, side, size, minPrice, t, Opposite(side));
    HedgeMatchesFacts(s, user, side, size, minPrice);
    TakerGains(HedgeMatches(s, user, side, size, minPrice), user, Opposite(side));
  }

  /** Netting lowers both of the user's holdings by the amount. */
  lemma NetStep(s: State, user: User, amount: int, side: Side)
    requires Inv(s) && (amount == 0 || CanNet(s, user, amount))
    ensures var t := ApplyNetDown(s, user, amount);
            && Inv(t)
            && SharesOf(t.positions, user, side) == SharesOf(s.positions, user, side) - amount
            && SharesOf(t.positions, user, Opposite(side)) == SharesOf(s.positions, user, Opposite(side)) - amount
            && NettedTotal(t.nettings) == NettedTotal(s.nettings) + amount
  {
    NetDownKeepsInv(s, user, amount);
    if amount > 0 {
      NetEffect(s.positions, user, amount, user, side);
      NetEffect(s.positions, user, amount, user, Opposite(side));
      NettedPush(s.nettings, Netting(user, amount), user);
    }
  }

  /**
   The account of a sale from s, through `before` with its hedge settled, to t: it
   fills what the book offers at no worse than the user's price, its netting has
   both rows to net and is covered unless the user owed shares of the hedge side to
   begin with, the hedge side ends where it began, and the sold side ends smaller by
   the fill (less anything the user traded with itself).
   */
  ghost predicate ClosesWhatItFills(s: State, before: State, t: State, user: User, side: Side, size: int, minPrice: int)
  {
    var more := HedgeMatches(s, user, side, size, minPrice);
    var filled := TotalMatched(more);
    && filled == Min(size, Liquidity(s.orders, side, WorstMaker(side, minPrice)))
    && (forall k :: 0 <= k < |more| ==> more[k].makerSide == side && more[k].price >= WorstMaker(side, minPrice))
    && (filled > 0 ==> CanNet(before, user, filled))
    && (Covers(before.positions, user, filled) <==> SharesOf(s.positions, user, Opposite(side)) >= 0)
    && NettedTotal(t.nettings) == NettedTotal(s.nettings) + filled
    && SharesOf(t.positions, user, Opposite(side)) == SharesOf(s.positions, user, Opposite(side))
    && SharesOf(t.positions, user, side) == SharesOf(s.positions, user, side) - filled + Gained(more, user, side)
    && ((forall k :: 0 <= k < |more| ==> more[k].makerUser != user) ==> Gained(more, user, side) == 0)
  }

  /** The holdings' part of that account. */
  lemma SaleHoldings(s: State, before: State, user: User, side: Side, size: int, minPrice: int, filled: int)
    requires Inv(s) && s.trading && 0 < minPrice < ONE && 0 < size <= SharesOf(s.positions, user, side)
    requires HedgeRecords(s, user, side, size, minPrice)
    requires Reached(s, HedgeEvents(s, user, side, size, minPrice), before)
    requires filled == TotalMatched(HedgeMatches(s, user, side, size, minPrice))
    ensures Inv(before) && before.nettings == s.nettings && 0 <= filled <= size
    ensures filled > 0 ==> CanNet(before, user, filled)
    ensures Covers(before.positions, user, filled) <==> SharesOf(s.positions, user, Opposite(side)) >= 0
    ensures SharesOf(before.positions, user, Opposite(side)) == SharesOf(s.positions, user, Opposite(side)) + filled
    ensures SharesOf(before.positions, user, side)
            == SharesOf(s.positions, user, side) + Gained(HedgeMatches(s, user, side, size, minPrice), user, side)
  {
    HedgeMatchesFacts(s, user, side, size, minPrice);
    HoldingsBeforeNetting(s, user, side, size, minPrice, before);
    HedgeReaches(s, user, side, size, minPrice, before);
    HasBothRows(s, before, user, side, filled);
  }

  lemma SaleNets(s: State, before: State, user: User, side: Side, size: int, minPrice: int)
    requires Inv(s) && s.trading && 0 < minPrice < ONE && 0 < size <= SharesOf(s.positions, user, side)
    requires HedgeRecords(s, user, side, size, minPrice)
    requires Reached(s, HedgeEvents(s, user, side, size, minPrice), before)
    ensures var t := ApplyNetDown(before, user, TotalMatched(HedgeMatches(s, user, side, size, minPrice)));
            Inv(t) && ClosesWhatItFills(s, before, t, user, side, size, minPrice)
  {
    var more := HedgeMatches(s, user, side, size, minPrice);
    HedgeMatchesFacts(s, user, side, size, minPrice);
    SaleHoldings(s, before, user, side, size, minPrice, TotalMatched(more));
    TakerGains(more, user, Opposite(side));
    NetStep(before, user, TotalMatched(more), side);
  }

  /** A holder of the sold side whose other holding has grown by a positive amount has both rows. */
  lemma HasBothRows(s: State, before: State, user: User, side: Side, filled: int)
    requires Inv(s) && Inv(before) && s.nettings == before.nettings
    requires SharesOf(s.positions, user, side) > 0
             && SharesOf(before.positions, user, side) >= SharesOf(s.positions, user, side)
    requires SharesOf(before.positions, user, Opposite(side)) == SharesOf(s.positions, user, Opposite(side)) + filled
    ensures filled == 0 || filled < 0 || CanNet(before, user, filled)
  {
    FilledHasRow(before, user, side);
    FilledHasRow(before, user, Opposite(side));
    HoldingsAreFills(s, user, Opposite(side));
    HoldingsAreFills(before, user, Opposite(side));
    FilledIsNotNegative(s, user, Opposite(side));
  }

  lemma NetDownReached(s: State, es: seq<Event>, t: State, user: User, amount: int)
    requires Reached(s, es, t)
    ensures Reached(s, es + [NetDown(user, amount)], ApplyNetDown(t, user, amount))
  {
    ReachedPush(s, es, t, NetDown(user, amount));
  }

  /** A sale in one go of at most what is held closes exactly what it fills. */
  lemma SellClosesWhatItFills(s: State, before: State, t: State, user: User, side: Side, size: int, minPrice: int)
    requires Reachable(s) && s.trading && 0 < minPrice < ONE && 0 < size <= SharesOf(s.positions, user, side)
    requires HedgeRecords(s, user, side, size, minPrice)
    requires Reached(s, HedgeEvents(s, user, side, size, minPrice), before)
    requires Reached(s, SellEvents(s, user, side, size, minPrice), t)
    ensures ClosesWhatItFills(s, before, t, user, side, size, minPrice)
  {
    ReachableInv(s);
    var filled := TotalMatched(HedgeMatches(s, user, side, size, minPrice));
    NetDownReached(s, HedgeEvents(s, user, side, size, minPrice), before, user, filled);
    ReachedOnce(s, SellEvents(s, user, side, size, minPrice), t, ApplyNetDown(before, user, filled));
    SaleNets(s, before, user, side, size, minPrice);
  }

  lemma NetMovesBothSides(ps: seq<Position>, user: User, amount: int, u: User)
    requires UniqueRows(ps) && HasRow(ps, user, Yes) && HasRow(ps, user, No)
    ensures var qs := NetPositions(ps, user, amount);
            && SharesOf(qs, u, Yes) - SharesOf(qs, u, No) == SharesOf(ps, u, Yes) - SharesOf(ps, u, No)
            && TotalShares(qs, Yes) - TotalShares(qs, No) == TotalShares(ps, Yes) - TotalShares(ps, No)
  {
    NetTotal(ps, user, amount, Yes);
    NetTotal(ps, user, amount, No);
    NetEffect(ps, user, amount, u, Yes);
    NetEffect(ps, user, amount, u, No);
  }

  /**
   Netting keeps every user's YES minus NO and the balance of the two sides, and
   leaves a debt unless it is covered.
   */
  lemma NettingKeepsExposure(s: State, user: User, amount: int, u: User)
    requires Inv(s) && CanNet(s, user, amount)
    ensures var ps := s.positions;
            var qs := NetPositions(ps, user, amount);
            && SharesOf(qs, u, Yes) - SharesOf(qs, u, No) == SharesOf(ps, u, Yes) - SharesOf(ps, u, No)
            && TotalShares(qs, Yes) - TotalShares(qs, No) == TotalShares(ps, Yes) - TotalShares(ps, No)
            && (NoDebtOf(qs, user) <==> Covers(ps, user, amount))
  {
    NetMovesBothSides(s.positions, user, amount, u);
    NetEffect(s.positions, user, amount, user, Yes);
    NetEffect(s.positions, user, amount, user, No);
  }

  // ---------------------------------------------------------------- a sale among everything else

  function GainEach(ms: seq<Match>, user: User, side: Side): (xs: seq<int>)
    ensures |xs| == |ms|
  {
    seq(|ms|, i requires 0 <= i < |ms| => ShareOfMatch(ms[i], user, side))
  }

  lemma {:induction false} GainedIsSum(ms: seq<Match>, user: User, side: Side)
    ensures Gained(ms, user, side) == Sum(GainEach(ms, user, side))
  {
    if |ms| > 0 {
      var n := |ms| - 1;
      GainedIsSum(ms[..n], user, side);
      assert GainEach(ms, user, side)[..n] == GainEach(ms[..n], user, side);
    }
  }

  function FilledEachFor(fills: seq<nat>, matches: seq<Match>, user: User, side: Side): (xs: seq<int>)
    ensures |xs| == |matches|
  {
    seq(|matches|, i requires 0 <= i < |matches| => Times(fills, i) * ShareOfMatch(matches[i], user, side))
  }

  /** A user's fills counted match by match, with multiplicity. */
  lemma {:induction false} FilledForByMatch(fills: seq<nat>, matches: seq<Match>, user: User, side: Side)
    requires FillsOk(fills, matches)
    ensures FilledFor(fills, matches, user, side) == Sum(FilledEachFor(fills, matches, user, side))
  {
    if |fills| == 0 {
      SumZero(FilledEachFor(fills, matches, user, side));
    } else {
      var front, row := fills[..|fills| - 1], fills[|fills| - 1];
      var xs := FilledEachFor(front, matches, user, side);
      var share := ShareOfMatch(matches[row], user, side);
      FilledForByMatch(front, matches, user, side);
      assert (Times(front, row) + 1) * share == Times(front, row) * share + share;
      assert FilledEachFor(fills, matches, user, side) == xs[row := xs[row] + share];
      SumUpdate(xs, row, xs[row] + share);
    }
  }

  lemma {:induction false} TimesGrow(fills: seq<nat>, more: seq<nat>, n: nat, row: nat)
    requires fills <= more && |fills| <= n <= |more|
    ensures Times(more[..n], row) >= Times(fills, row)
  {
    if n == |fills| {
      assert more[..n] == fills;
    } else {
      TimesGrow(fills, more, n - 1, row);
      assert more[..n][..n - 1] == more[..n - 1];
    }
  }

  lemma ShareScales(a: nat, b: nat, m: Match, user: User, side: Side)
    requires MatchOk(m)
    ensures a <= b ==> a * ShareOfMatch(m, user, side) <= b * ShareOfMatch(m, user, side)
    ensures a == 0 && b >= 1 ==>
              a * ShareOfMatch(m, user, side) + ShareOfMatch(m, user, side) <= b * ShareOfMatch(m, user, side)
  {
    var share := ShareOfMatch(m, user, side);
    assert (b - a) * share == b * share - a * share;
    if a <= b {
      assert (b - a) * share >= 0;
    }
    if a == 0 && b >= 1 {
      assert (b - 1) * share >= 0 && b * share == (b - 1) * share + share;
    }
  }

  /** The `count` rows from `first` on are among the fills. */
  predicate AreFills(first: nat, count: nat, fills: seq<nat>)
  {
    forall row :: first <= row < first + count ==> row in fills
  }

  lemma BatchAt(fills: seq<nat>, later: seq<nat>, m: Match, i: nat, fresher: bool, user: User, side: Side)
    requires MatchOk(m) && fills <= later
    requires fresher ==> Times(fills, i) == 0 && i in later
    ensures Times(fills, i) * ShareOfMatch(m, user, side) + (if fresher then ShareOfMatch(m, user, side) else 0)
            <= Times(later, i) * ShareOfMatch(m, user, side)
  {
    TimesGrow(fills, later, |later|, i);
    assert later[..|later|] == later;
    TimesPositive(later, i);
    ShareScales(Times(fills, i), Times(later, i), m, user, side);
  }

  /** What each match gives the user, and the batch once more. */
  function WithBatch(fills: seq<nat>, all: seq<Match>, n: nat, b: nat, user: User, side: Side): (xs: seq<int>)
    ensures |xs| == |all|
  {
    seq(|all|, i requires 0 <= i < |all| =>
      Times(fills, i) * ShareOfMatch(all[i], user, side)
      + if n <= i < n + b then ShareOfMatch(all[i], user, side) else 0)
  }

  lemma BatchPointwise(fills: seq<nat>, matches: seq<Match>, b: nat, later: seq<nat>, all: seq<Match>, user: User,
                       side: Side)
    requires FillsOk(fills, matches) && AllMatchesOk(all) && fills <= later && AreFills(|matches|, b, later)
    ensures Sum(WithBatch(fills, all, |matches|, b, user, side)) <= Sum(FilledEachFor(later, all, user, side))
  {
    var n := |matches|;
    forall i | 0 <= i < |all|
      ensures WithBatch(fills, all, n, b, user, side)[i] <= FilledEachFor(later, all, user, side)[i]
    {
      NoFillsBeyondUnless(fills, matches, i);
      BatchAt(fills, later, all[i], i, n <= i < n + b, user, side);
    }
    SumLe(WithBatch(fills, all, n, b, user, side), FilledEachFor(later, all, user, side));
  }

  lemma BatchAdds(fills: seq<nat>, matches: seq<Match>, batch: seq<Match>, all: seq<Match>, user: User, side: Side)
    requires matches + batch <= all
    ensures Sum(WithBatch(fills, all, |matches|, |batch|, user, side))
            == Sum(FilledEachFor(fills, all, user, side)) + Gained(batch, user, side)
  {
    var n, b := |matches|, |batch|;
    var zs := seq(|all|, i requires 0 <= i < |all| => if n <= i < n + b then ShareOfMatch(all[i], user, side) else 0);
    SumDifference(FilledEachFor(fills, all, user, side), WithBatch(fills, all, n, b, user, side), zs);
    forall k | 0 <= k < b ensures all[n + k] == batch[k] {
      assert (matches + batch)[n + k] == batch[k];
    }
    BatchSum(all, n, batch, zs, user, side);
  }

  /** Matches of a batch that have been recorded since are in the user's fills by now. */
  lemma BatchIsRecorded(fills: seq<nat>, matches: seq<Match>, batch: seq<Match>, later: seq<nat>, all: seq<Match>,
                        user: User, side: Side)
    requires FillsOk(fills, matches) && FillsOk(later, all) && AllMatchesOk(all)
    requires fills <= later && matches + batch <= all && AreFills(|matches|, |batch|, later)
    ensures FilledFor(later, all, user, side) >= FilledFor(fills, matches, user, side) + Gained(batch, user, side)
  {
    BatchPointwise(fills, matches, |batch|, later, all, user, side);
    BatchAdds(fills, matches, batch, all, user, side);
    FilledForByMatch(fills, all, user, side);
    FilledForByMatch(later, all, user, side);
    assert all == matches + all[|matches|..];
    FilledForStable(fills, matches, all[|matches|..], user, side);
  }

  lemma NoFillsBeyondUnless(fills: seq<nat>, matches: seq<Match>, row: nat)
    requires FillsOk(fills, matches)
    ensures row >= |matches| ==> Times(fills, row) == 0
  {
    if row >= |matches| {
      NoFillsBeyond(fills, matches, row);
    }
  }

  lemma BatchSum(all: seq<Match>, n: nat, batch: seq<Match>, zs: seq<int>, user: User, side: Side)
    requires n + |batch| <= |all| == |zs| && forall k :: 0 <= k < |batch| ==> all[n + k] == batch[k]
    requires forall i :: 0 <= i < |all| ==>
               zs[i] == if n <= i < n + |batch| then ShareOfMatch(all[i], user, side) else 0
    ensures Sum(zs) == Gained(batch, user, side)
  {
    var before, after := zs[..n], zs[n + |batch|..];
    var within := GainEach(batch, user, side);
    assert zs == before + within + after;
    SumConcat(before + within, after);
    SumConcat(before, within);
    SumZero(before);
    SumZero(after);
    GainedIsSum(batch, user, side);
  }

  /** From the submission of the hedge to the netting: what the recorded hedge leaves the user with. */
  lemma HedgeAmongOthers(mid: State, more: seq<Event>, before: State, user: User, side: Side, size: int, minPrice: int)
    requires Inv(mid) && mid.trading && 0 < minPrice < ONE && size > 0 && LeavesAlone(more, user)
    requires Reached(ApplySubmit(mid, user, Opposite(side), HedgePrice(side, minPrice), size), more, before)
    requires AreFills(|mid.matches|, |HedgeMatches(mid, user, side, size, minPrice)|, before.fills)
    ensures Inv(before)
    ensures SharesOf(before.positions, user, side) >= SharesOf(mid.positions, user, side)
    ensures SharesOf(before.positions, user, Opposite(side))
            >= SharesOf(mid.positions, user, Opposite(side))
               + TotalMatched(HedgeMatches(mid, user, side, size, minPrice))
    ensures TotalMatched(HedgeMatches(mid, user, side, size, minPrice)) > 0
            ==> HasRow(before.positions, user, Opposite(side))
  {
    var hedged := ApplySubmit(mid, user, Opposite(side), HedgePrice(side, minPrice), size);
    var batch := HedgeMatches(mid, user, side, size, minPrice);
    SubmitKeepsInv(mid, user, Opposite(side), HedgePrice(side, minPrice), size);
    HoldingsGrow(hedged, more, before, user, side);
    HoldingsGrow(hedged, more, before, user, Opposite(side));
    HedgeMatchesFacts(mid, user, side, size, minPrice);
    TakerGains(batch, user, Opposite(side));
    ReachedIsAfter(hedged, more, before);
    NettedOnlyByOneself(hedged, more, user);
    FilledForStable(mid.fills, mid.matches, batch, user, Opposite(side));
    BatchIsRecorded(mid.fills, mid.matches, batch, before.fills, before.matches, user, Opposite(side));
    FilledIsNotNegative(mid, user, Opposite(side));
    FilledHasRow(before, user, Opposite(side));
  }

  /**
   A sale with anything at all going on around it.  The position was checked in s,
   the hedge submitted in mid, and all its matches are recorded by `before`; between
   the check and the netting the user nets nothing else.  Then the sale fills what
   the book offered in mid, its netting has both rows, the sold side ends with at
   least what was checked less the fill, and the hedge side with at least what it
   had; so the netting is covered unless the user owed hedge shares at the check.
   */
  lemma SaleAmongOthers(s: State, es: seq<Event>, mid: State, more: seq<Event>, before: State,
                        user: User, side: Side, size: int, minPrice: int)
    requires Inv(s) && Reached(s, es, mid) && LeavesAlone(es, user)
    requires mid.trading && 0 < minPrice < ONE && 0 < size <= SharesOf(s.positions, user, side)
    requires LeavesAlone(more, user)
    requires Reached(ApplySubmit(mid, user, Opposite(side), HedgePrice(side, minPrice), size), more, before)
    requires AreFills(|mid.matches|, |HedgeMatches(mid, user, side, size, minPrice)|, before.fills)
    ensures var filled := TotalMatched(HedgeMatches(mid, user, side, size, minPrice));
            && filled == Min(size, Liquidity(mid.orders, side, WorstMaker(side, minPrice)))
            && (filled > 0 ==> CanNet(before, user, filled))
            && (SharesOf(s.positions, user, Opposite(side)) >= 0 ==> Covers(before.positions, user, filled))
            && SharesOf(ApplyNetDown(before, user, filled).positions, user, side)
               >= SharesOf(s.positions, user, side) - filled >= 0
            && SharesOf(ApplyNetDown(before, user, filled).positions, user, Opposite(side))
               >= SharesOf(s.positions, user, Opposite(side))
  {
    HoldingsGrow(s, es, mid, user, side);
    HoldingsGrow(s, es, mid, user, Opposite(side));
    HedgeMatchesFacts(mid, user, side, size, minPrice);
    HedgeAmongOthers(mid, more, before, user, side, size, minPrice);
    FilledHasRow(before, user, side);
    NetStep(before, user, TotalMatched(HedgeMatches(mid, user, side, size, minPrice)), side);
  }

  // ---------------------------------------------------------------- two sales at once

  lemma HedgeLeavesNoDebts(s: State, user: User, side: Side, size: int, minPrice: int, t: State)
    requires Inv(s) && s.trading && NoDebts(s.positions) && 0 < minPrice < ONE && size > 0
    requires Reached(s, HedgeEvents(s, user, side, size, minPrice), t)
    ensures Inv(t) && t.trading && NoDebts(t.positions)
  {
    var more := HedgeMatches(s, user, side, size, minPrice);
    var rows := Rows(|s.matches|, |more|);
    HedgeRecordsWithoutDebts(s, user, side, size, minPrice);
    HedgeReaches(s, user, side, size, minPrice, t);
    NoDebtsAllRecord(s.positions, t.matches, rows, |rows|);
    assert rows[..|rows|] == rows;
  }

  /** Two nettings of a user that holds more than both on the other side. */
  lemma NetTwice(both: State, user: User, side: Side, a: int, b: int)
    requires Inv(both) && a >= 0 && b >= 0
    requires a > 0 ==> CanNet(both, user, a)
    requires b > 0 ==> CanNet(both, user, b)
    requires SharesOf(both.positions, user, Opposite(side)) >= a + b
    ensures var t := ApplyNetDown(ApplyNetDown(both, user, a), user, b);
            && Inv(t)
            && SharesOf(t.positions, user, side) == SharesOf(both.positions, user, side) - a - b
            && (NoDebtOf(t.positions, user) <==> a + b <= SharesOf(both.positions, user, side))
  {
    var mid := ApplyNetDown(both, user, a);
    NetStep(both, user, a, side);
    if a > 0 {
      NetEffect(both.positions, user, a, user, Yes);
      NetEffect(both.positions, user, a, user, No);
    }
    NetStep(mid, user, b, side);
  }

  /** What two overlapping sales leave, the second placed once the first has its hedge. */
  ghost function BothNetted(s: State, one: State, both: State, user: User, side: Side, a: int, b: int,
                            minPrice: int): State
  {
    ApplyNetDown(ApplyNetDown(both, user, TotalMatched(HedgeMatches(s, user, side, a, minPrice))),
                 user, TotalMatched(HedgeMatches(one, user, side, b, minPrice)))
  }

  /**
   Two sales of one user that both checked the position before either netted, each
   for no more than what is held, both hedges settled without a fault: the user is
   out of debt afterwards exactly when the two fills together are no more than what
   was held (and gained by trading with itself).
   */
  lemma OverlappingSalesOverdrawIff(s: State, one: State, both: State, user: User, side: Side, a: int, b: int,
                                    minPrice: int)
    requires Inv(s) && s.trading && NoDebts(s.positions) && 0 < minPrice < ONE
    requires 0 < a <= SharesOf(s.positions, user, side) && 0 < b <= SharesOf(s.positions, user, side)
    requires Reached(s, HedgeEvents(s, user, side, a, minPrice), one)
    requires Reached(one, HedgeEvents(one, user, side, b, minPrice), both)
    ensures var first, second := HedgeMatches(s, user, side, a, minPrice), HedgeMatches(one, user, side, b, minPrice);
            var t := BothNetted(s, one, both, user, side, a, b, minPrice);
            var held := SharesOf(s.positions, user, side) + Gained(first, user, side) + Gained(second, user, side);
            && SharesOf(t.positions, user, side) == held - TotalMatched(first) - TotalMatched(second)
            && (NoDebtOf(t.positions, user) <==> TotalMatched(first) + TotalMatched(second) <= held)
  {
    var first := TotalMatched(HedgeMatches(s, user, side, a, minPrice));
    var second := TotalMatched(HedgeMatches(one, user, side, b, minPrice));
    HedgeRecordsWithoutDebts(s, user, side, a, minPrice);
    HedgeLeavesNoDebts(s, user, side, a, minPrice, one);
    SaleHoldings(s, one, user, side, a, minPrice, first);
    HoldingsBeforeNetting(s, user, side, a, minPrice, one);
    HedgeRecordsWithoutDebts(one, user, side, b, minPrice);
    HedgeLeavesNoDebts(one, user, side, b, minPrice, both);
    SaleHoldings(one, both, user, side, b, minPrice, second);
    HoldingsBeforeNetting(one, user, side, b, minPrice, both);
    KeepsBothRows(one, both, user, first);
    NetTwice(both, user, side, first, second);
  }

  lemma KeepsBothRows(one: State, both: State, user: User, amount: int)
    requires amount > 0 ==> SharesOf(one.positions, user, Yes) > 0 && SharesOf(one.positions, user, No) > 0
    requires SharesOf(both.positions, user, Yes) >= SharesOf(one.positions, user, Yes)
    requires SharesOf(both.positions, user, No) >= SharesOf(one.positions, user, No)
    ensures amount > 0 ==> CanNet(both, user, amount)
  {
  }
}
