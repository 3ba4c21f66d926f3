/** What backs the shares: exact funding, its one failure, and the raw-unit bounds. */
module Funding {
  import opened Types
  import opened Sums
  import opened Money
  import opened Ledger
  import opened Market
  import opened Protocol
  import opened Debts

  /** Landed debits minus landed fees, exact. */
  function ExactPool(s: State): int
    requires KeysOk(s.log, s.matches)
  {
    Pool(s.log, s.matches, false)
  }

  function RawPool(s: State): int
    requires KeysOk(s.log, s.matches)
  {
    Pool(s.log, s.matches, true)
  }

  /** What the shares held on a side, debts deducted, and those netted away, are worth at resolution. */
  function Claims(s: State, side: Side): int
  {
    ShareGrains(TotalShares(s.positions, side) + NettedTotal(s.nettings))
  }

  function ClaimEach(fills: seq<nat>, matches: seq<Match>): (xs: seq<int>)
    ensures |xs| == |matches|
  {
    seq(|matches|, i requires 0 <= i < |matches| => GRAINS_PER_SHARE * (Times(fills, i) * matches[i].size))
  }

  lemma ClaimsByMatch(s: State, side: Side)
    requires Inv(s)
    ensures Claims(s, side) == Sum(ClaimEach(s.fills, s.matches))
  {
    FillTotalByMatch(s.fills, s.matches);
    SumScale(TimesSizes(s.fills, s.matches), ClaimEach(s.fills, s.matches), GRAINS_PER_SHARE);
    assert TotalShares(s.positions, side) + NettedTotal(s.nettings) == FillTotal(s.fills, s.matches);
  }

  lemma PooledAt(s: State, i: nat)
    requires Inv(s) && i < |s.matches|
    ensures var pooled := PooledEach(s.log, s.matches, false)[i];
            var value := ShareGrains(s.matches[i].size);
            && pooled >= 0
            && (Times(s.fills, i) > 0 || i !in s.pending ==> pooled == value)
  {
    assert RowOk(i, s.log, s.fills, s.pending, s.attempts);
    var roles := RolesOf(s.log, i);
    assert roles <= PLAN;
    assert roles == PLAN[..|roles|];
    PlanPrefixPools(s.matches[i], |roles|);
  }

  /** Grains claimed for a match that was written `times` times. */
  lemma ClaimAt(times: nat, size: int)
    requires size > 0
    ensures times == 0 ==> GRAINS_PER_SHARE * (times * size) == 0
    ensures times == 1 ==> GRAINS_PER_SHARE * (times * size) == ShareGrains(size)
    ensures times >= 2 ==> GRAINS_PER_SHARE * (times * size) > ShareGrains(size)
  {
    if times >= 2 {
      assert (times - 2) * size >= 0;
      assert times * size == (times - 2) * size + 2 * size;
    }
  }

  /**
   Funding before positions: in every reachable state, whatever failed and
   whatever is still in flight, the landed debits net of fees cover every share
   in the position table and every share netted away, provided no match was
   written twice.
   */
  lemma FundingPrecedesPositions(s: State)
    requires Reachable(s)
    requires OnceEach(s)
    ensures KeysOk(s.log, s.matches)
    ensures Claims(s, Yes) == Claims(s, No) <= ExactPool(s)
  {
    ReachableInv(s);
    ClaimsByMatch(s, Yes);
    ClaimsByMatch(s, No);
    PoolByMatch(s.log, s.matches, false);
    var pooled := PooledEach(s.log, s.matches, false);
    var claims := ClaimEach(s.fills, s.matches);
    forall i | 0 <= i < |s.matches| ensures claims[i] <= pooled[i] {
      PooledAt(s, i);
      ClaimAt(Times(s.fills, i), s.matches[i].size);
    }
    SumLe(claims, pooled);
  }

  lemma RestingMatch(s: State, i: nat)
    requires Reachable(s) && Inv(s) && i < |s.matches| && i !in s.pending
    ensures var pooled, claim := PooledEach(s.log, s.matches, false)[i], ClaimEach(s.fills, s.matches)[i];
            pooled == claim <==> Times(s.fills, i) <= 1
    ensures PooledEach(s.log, s.matches, false)[i] <= ClaimEach(s.fills, s.matches)[i]
  {
    PooledAt(s, i);
    PositionsWrittenOncePerWrittenAttempt(s, i);
    ClaimAt(Times(s.fills, i), s.matches[i].size);
  }

  /**
   At rest, with no pending row left, the pool equals the claims exactly when no
   match was written twice; and one written twice leaves it short.
   */
  lemma FundedAtRestIff(s: State, side: Side)
    requires Reachable(s)
    requires s.pending == {}
    ensures KeysOk(s.log, s.matches)
    ensures OnceEach(s) <==> ExactPool(s) == Claims(s, side)
    ensures OnceEach(s) <==> ExactPool(s) >= Claims(s, side)
  {
    ReachableInv(s);
    ClaimsByMatch(s, side);
    PoolByMatch(s.log, s.matches, false);
    var pooled := PooledEach(s.log, s.matches, false);
    var claims := ClaimEach(s.fills, s.matches);
    forall i | 0 <= i < |s.matches|
      ensures pooled[i] <= claims[i] && (pooled[i] == claims[i] <==> Times(s.fills, i) <= 1)
    {
      RestingMatch(s, i);
    }
    if OnceEach(s) {
      assert pooled == claims;
    } else {
      var k :| 0 <= k < |s.matches| && Times(s.fills, k) > 1;
      SumLt(pooled, claims, k);
    }
  }

  /**
   So a run that ends with nothing pending is exactly funded if and only if it never
   commits a position transaction for a row that is already filled, and is short
   otherwise.
   */
  lemma FundedAtRestIffNeverWrittenAgain(es: seq<Event>, s: State, side: Side)
    requires Reached(INIT, es, s) && s.pending == {}
    ensures KeysOk(s.log, s.matches)
    ensures NeverWritesAgain(INIT, es) <==> ExactPool(s) == Claims(s, side)
    ensures NeverWritesAgain(INIT, es) <==> ExactPool(s) >= Claims(s, side)
  {
    assert s == End(INIT, es);
    WrittenOnceIff(es, s);
    FundedAtRestIff(s, side);
  }

  /** Calm runs are funded throughout, and exactly so at rest. */
  lemma CalmRunsAreFunded(s: State)
    requires CalmlyReachable(s)
    ensures KeysOk(s.log, s.matches)
    ensures Claims(s, Yes) == Claims(s, No) <= ExactPool(s)
    ensures s.pending == {} ==> Claims(s, Yes) == ExactPool(s)
  {
    CalmlyReachableInv(s);
    forall row | 0 <= row < |s.matches| ensures Times(s.fills, row) <= 1 {
      CalmRunsWriteOnce(s, row);
    }
    FundingPrecedesPositions(s);
    if s.pending == {} {
      FundedAtRestIff(s, Yes);
    }
  }

  /**
   A crash between write and erase, retried until nothing is pending, leaves the
   pool below the claims on it: the hypothesis of FundingPrecedesPositions is
   not idle.
   */
  lemma CrashBetweenWriteAndEraseLeavesPoolShort(s: State, a: nat, t: State)
    requires Reachable(s) && AtStage(s, a, ERASE) && s.pending == {s.attempts[a].row}
    requires Reached(s, [Crash(a)] + CleanCall(|s.attempts|, s.attempts[a].row), t)
    ensures KeysOk(t.log, t.matches)
    ensures t.pending == {} <==> s.attempts[a].row < |s.matches| && Records(s.positions, s.matches[s.attempts[a].row])
    ensures t.pending == {} ==> ExactPool(t) < Claims(t, Yes)
  {
    var row := s.attempts[a].row;
    var more := [Crash(a)] + CleanCall(|s.attempts|, row);
    ReachableInv(s);
    assert AttemptOk(s.attempts[a], s.matches, s.log, s.pending);
    ReachedIsAfter(s, more, t);
    RetryAfterCrashWritesAgain(s, a);
    ReachableAfter(s, more, t);
    ReachableInv(t);
    if t.pending == {} {
      FundedAtRestIff(t, Yes);
    }
  }

  // ---------------------------------------------------------------- totals

  /**
   Both sides hold the same number of shares, debts deducted: the sum of the
   recorded matches less the shares netted away.
   */
  lemma BothSidesHoldTheSame(s: State)
    requires Reachable(s)
    ensures FillsOk(s.fills, s.matches)
    ensures TotalShares(s.positions, Yes) == TotalShares(s.positions, No)
    ensures TotalShares(s.positions, Yes) == FillTotal(s.fills, s.matches) - NettedTotal(s.nettings)
    ensures (forall u :: CoveredReachable(s, u)) ==> NoDebts(s.positions)
  {
    ReachableInv(s);
    assert TotalShares(s.positions, Yes) + NettedTotal(s.nettings) == FillTotal(s.fills, s.matches);
    assert TotalShares(s.positions, No) + NettedTotal(s.nettings) == FillTotal(s.fills, s.matches);
    if forall u :: CoveredReachable(s, u) {
      CoveredStatesHaveNoDebts(s);
    }
  }

  /** User by user, shares held and netted are the fills recorded for that user on that side. */
  lemma EveryPositionIsItsFills(s: State, user: User, side: Side)
    requires Reachable(s)
    ensures FillsOk(s.fills, s.matches)
    ensures SharesOf(s.positions, user, side) + NettedOf(s.nettings, user) == FilledFor(s.fills, s.matches, user, side)
    ensures CoveredReachable(s, user) ==> SharesOf(s.positions, user, side) >= 0
  {
    ReachableInv(s);
    if CoveredReachable(s, user) {
      CoveredHoldings(s, user, side);
    }
  }

  // ---------------------------------------------------------------- raw units

  /** What the holders of a side would be credited, in raw units, position by position. */
  function RawPayout(ps: seq<Position>, side: Side): int
  {
    Sum(RawEach(GrainEach(ps, side)))
  }

  /** Shares that pay if the side wins: those of every row above zero. */
  function OwedEach(ps: seq<Position>, side: Side): (xs: seq<int>)
    ensures |xs| == |ps|
  {
    seq(|ps|, i requires 0 <= i < |ps| => if ps[i].side == side && ps[i].shares > 0 then ps[i].shares else 0)
  }

  function Owed(ps: seq<Position>, side: Side): int
  {
    Sum(OwedEach(ps, side))
  }

  /** Shares that rows of the side are short of zero. */
  function DebtEach(ps: seq<Position>, side: Side): (xs: seq<int>)
    ensures |xs| == |ps|
  {
    seq(|ps|, i requires 0 <= i < |ps| => if ps[i].side == side && ps[i].shares < 0 then -ps[i].shares else 0)
  }

  function Debt(ps: seq<Position>, side: Side): int
  {
    Sum(DebtEach(ps, side))
  }

  function GrainEach(ps: seq<Position>, side: Side): (xs: seq<int>)
    ensures |xs| == |ps|
  {
    seq(|ps|, i requires 0 <= i < |ps| => ShareGrains(OwedEach(ps, side)[i]))
  }

  /** Holdings are what is owed less what is short; without debts nothing is short. */
  lemma HoldingsAreOwedLessDebt(ps: seq<Position>, side: Side)
    ensures TotalShares(ps, side) == Owed(ps, side) - Debt(ps, side)
    ensures Owed(ps, side) >= 0 && Debt(ps, side) >= 0
    ensures NoDebts(ps) ==> Debt(ps, side) == 0
  {
    SumDifference(ShareEach(ps, side), OwedEach(ps, side), DebtEach(ps, side));
    RawEachBounds(OwedEach(ps, side));
    RawEachBounds(DebtEach(ps, side));
    if NoDebts(ps) {
      SumZero(DebtEach(ps, side));
    }
  }

  function MatchGrains(matches: seq<Match>): (xs: seq<int>)
    ensures |xs| == |matches|
  {
    seq(|matches|, i requires 0 <= i < |matches| => ShareGrains(matches[i].size))
  }

  /** Raw units a match has pooled, by how many of its movements have landed. */
  lemma RawPrefixPools(m: Match, n: nat)
    requires MatchOk(m) && n <= 4
    ensures RawFloor(m, n) <= SumRoles(m, PLAN[..n], true) <= RawCeiling(m, n)
  {
    var s := SplitOf(m.makerSide, m.price, m.size);
    SplitNonNegative(m.makerSide, m.price, m.size);
    SplitConserves(m.makerSide, m.price, m.size);
    RawPooledBounds(m.makerSide, m.price, m.size);
    PlanSums(m, true);
    PlanPrefixPools(m, n);
    DebitsLessFees(s.makerCost, s.makerFee, s.takerCost, s.takerFee);
  }

  lemma DebitsLessFees(mc: int, mf: int, tc: int, tf: int)
    requires mc >= 0 && mf >= 0 && tc >= 0 && tf >= 0
    ensures ToRawUnits(mc + mf) >= ToRawUnits(mf) >= 0 && ToRawUnits(tc + tf) >= ToRawUnits(tf) >= 0
    ensures ToRawUnits(mc + tc) - 1 <= ToRawUnits(mc + mf) - ToRawUnits(mf) + (ToRawUnits(tc + tf) - ToRawUnits(tf))
    ensures ToRawUnits(mc + mf) + ToRawUnits(tc + tf) <= ToRawUnits(mc + tc + mf + tf)
  {
    RawOfSum(mc, mf);
    RawOfSum(tc, tf);
    RawOfSum(mc, tc);
    RawOfSum(mc + mf, tc + tf);
  }

  /** The least a match has pooled once n of its movements are in: with both debits its size, less one unit. */
  function RawFloor(m: Match, n: nat): int
  {
    var raw := ToRawUnits(ShareGrains(m.size));
    if n < 2 || raw == 0 then 0 else raw - 1
  }

  /** The most: all it debits before a fee is paid, two units above its size when all are in. */
  function RawCeiling(m: Match, n: nat): int
  {
    var s := SplitOf(m.makerSide, m.price, m.size);
    if n == 0 then 0 else if n < 4 then ToRawUnits(s.makerCost + s.takerCost + s.makerFee + s.takerFee)
    else ToRawUnits(ShareGrains(m.size)) + 2
  }

  function FloorEach(log: seq<Key>, matches: seq<Match>): (xs: seq<int>)
    ensures |xs| == |matches|
  {
    seq(|matches|, i requires 0 <= i < |matches| => RawFloor(matches[i], |RolesOf(log, i)|))
  }

  function CeilingEach(log: seq<Key>, matches: seq<Match>): (xs: seq<int>)
    ensures |xs| == |matches|
  {
    seq(|matches|, i requires 0 <= i < |matches| => RawCeiling(matches[i], |RolesOf(log, i)|))
  }

  lemma RawPooledAt(s: State, i: nat)
    requires Inv(s) && i < |s.matches|
    ensures var n := |RolesOf(s.log, i)|;
            && n <= 4 && MatchOk(s.matches[i])
            && PooledEach(s.log, s.matches, true)[i] == SumRoles(s.matches[i], PLAN[..n], true)
            && (Times(s.fills, i) > 0 || i !in s.pending ==> n == 4)
  {
    assert RowOk(i, s.log, s.fills, s.pending, s.attempts);
    var roles := RolesOf(s.log, i);
    assert roles <= PLAN;
    assert roles == PLAN[..|roles|];
  }

  /**
   Match by match, whatever is in flight, the raw pool lies between what the landed
   movements guarantee and what they allow.
   */
  lemma RawPoolBounds(s: State)
    requires Reachable(s)
    ensures KeysOk(s.log, s.matches)
    ensures Sum(FloorEach(s.log, s.matches)) <= RawPool(s) <= Sum(CeilingEach(s.log, s.matches))
  {
    ReachableInv(s);
    var pooled := PooledEach(s.log, s.matches, true);
    PoolByMatch(s.log, s.matches, true);
    forall i | 0 <= i < |s.matches|
      ensures FloorEach(s.log, s.matches)[i] <= pooled[i] <= CeilingEach(s.log, s.matches)[i]
    {
      RawPooledAt(s, i);
      RawPrefixPools(s.matches[i], |RolesOf(s.log, i)|);
    }
    SumLe(FloorEach(s.log, s.matches), pooled);
    SumLe(pooled, CeilingEach(s.log, s.matches));
  }

  lemma RestAt(s: State, i: nat)
    requires Inv(s) && i < |s.matches| && i !in s.pending
    ensures var raw := RawEach(MatchGrains(s.matches))[i];
            raw - 1 <= FloorEach(s.log, s.matches)[i] && CeilingEach(s.log, s.matches)[i] == raw + 2
  {
    RawPooledAt(s, i);
  }

  lemma PiecewiseBounds(lo: seq<int>, xs: seq<int>, hi: seq<int>, c: int, d: int)
    requires |lo| == |xs| == |hi| && forall i :: 0 <= i < |xs| ==> xs[i] + c <= lo[i] && hi[i] <= xs[i] + d
    ensures Sum(xs) + c * |xs| <= Sum(lo) && Sum(hi) <= Sum(xs) + d * |xs|
  {
    var below := seq(|xs|, i requires 0 <= i < |xs| => xs[i] + c);
    var above := seq(|xs|, i requires 0 <= i < |xs| => xs[i] + d);
    SumLe(below, lo);
    SumLe(hi, above);
    SumShift(xs, below, c);
    SumShift(xs, above, d);
  }

  /** At rest that is the truncated sizes, less one unit a match or two units more. */
  lemma RawPoolAtRest(s: State)
    requires Reachable(s) && s.pending == {}
    ensures KeysOk(s.log, s.matches)
    ensures var sizes := Sum(RawEach(MatchGrains(s.matches)));
            sizes - |s.matches| <= RawPool(s) <= sizes + 2 * |s.matches|
  {
    ReachableInv(s);
    var raw := RawEach(MatchGrains(s.matches));
    forall i | 0 <= i < |s.matches|
      ensures raw[i] - 1 <= FloorEach(s.log, s.matches)[i] && CeilingEach(s.log, s.matches)[i] <= raw[i] + 2
    {
      RestAt(s, i);
    }
    RawPoolBounds(s);
    PiecewiseBounds(FloorEach(s.log, s.matches), raw, CeilingEach(s.log, s.matches), -1, 2);
  }

  lemma GrainsOfSide(ps: seq<Position>, side: Side)
    ensures Sum(GrainEach(ps, side)) == ShareGrains(Owed(ps, side))
    ensures RawPayout(ps, side) <= ToRawUnits(ShareGrains(Owed(ps, side)))
  {
    SumScale(OwedEach(ps, side), GrainEach(ps, side), GRAINS_PER_SHARE);
    RawEachBounds(GrainEach(ps, side));
  }

  lemma GrainsOfMatches(matches: seq<Match>)
    requires AllMatchesOk(matches)
    ensures Sum(MatchGrains(matches)) == ShareGrains(TotalMatched(matches))
  {
    SumScale(MatchSizes(matches), MatchGrains(matches), GRAINS_PER_SHARE);
  }

  lemma NettedNonNegative(nettings: seq<Netting>)
    requires forall k :: 0 <= k < |nettings| ==> nettings[k].amount > 0
    ensures NettedTotal(nettings) >= 0
  {
    RawEachBounds(NettedEach(nettings));
  }

  /** Truncating only the parts that are there: ks counts them. */
  lemma {:induction false} RawCountedBounds(xs: seq<int>, ks: seq<int>)
    requires |xs| == |ks|
    requires forall i :: 0 <= i < |xs| ==> xs[i] >= 0 && ks[i] >= 0 && (ks[i] == 0 ==> xs[i] == 0)
    ensures Sum(xs) >= 0 && Sum(ks) >= 0
    ensures Sum(ks) == 0 ==> Sum(xs) == 0 && Sum(RawEach(xs)) == 0
    ensures ToRawUnits(Sum(xs)) <= Sum(RawEach(xs)) + if Sum(ks) == 0 then 0 else Sum(ks) - 1
  {
    if |xs| > 0 {
      var n := |xs| - 1;
      RawCountedBounds(xs[..n], ks[..n]);
      assert RawEach(xs)[..n] == RawEach(xs[..n]);
      RawOfSum(Sum(xs[..n]), xs[n]);
    }
  }

  function TimesEach(fills: seq<nat>, count: nat): (xs: seq<int>)
    ensures |xs| == count
  {
    seq(count, i requires 0 <= i < count => Times(fills, i))
  }

  /** Counted match by match, the fill rows are all there are. */
  lemma {:induction false} TimesTotal(fills: seq<nat>, matches: seq<Match>)
    requires FillsOk(fills, matches)
    ensures Sum(TimesEach(fills, |matches|)) == |fills|
  {
    if |fills| == 0 {
      SumZero(TimesEach(fills, |matches|));
    } else {
      var front, row := fills[..|fills| - 1], fills[|fills| - 1];
      TimesTotal(front, matches);
      var xs := TimesEach(front, |matches|);
      assert TimesEach(fills, |matches|) == xs[row := xs[row] + 1];
      SumUpdate(xs, row, xs[row] + 1);
    }
  }

  /** A match written at most once has pooled its claim, less one unit if it was written. */
  lemma ClaimIsPooled(s: State, i: nat)
    requires Inv(s) && i < |s.matches| && Times(s.fills, i) <= 1
    ensures PooledEach(s.log, s.matches, true)[i] >= ToRawUnits(ClaimEach(s.fills, s.matches)[i]) - Times(s.fills, i)
    ensures ClaimEach(s.fills, s.matches)[i] >= 0 && (Times(s.fills, i) == 0 ==> ClaimEach(s.fills, s.matches)[i] == 0)
  {
    RawPooledAt(s, i);
    RawPrefixPools(s.matches[i], |RolesOf(s.log, i)|);
    ClaimAt(Times(s.fills, i), s.matches[i].size);
    NothingIsNothing();
  }

  lemma NothingIsNothing()
    ensures ToRawUnits(0) == 0
  {
  }

  /** With every match written at most once, the raw pool is short of all claims by at most 2n - 1 for n fills. */
  lemma RawPoolCoversClaims(s: State)
    requires Inv(s) && OnceEach(s)
    ensures ToRawUnits(Sum(ClaimEach(s.fills, s.matches))) - RawPool(s)
            <= if |s.fills| == 0 then 0 else 2 * |s.fills| - 1
  {
    var claims, times := ClaimEach(s.fills, s.matches), TimesEach(s.fills, |s.matches|);
    var pooled := PooledEach(s.log, s.matches, true);
    forall i | 0 <= i < |s.matches|
      ensures RawEach(claims)[i] <= pooled[i] + times[i] && claims[i] >= 0 && (times[i] == 0 ==> claims[i] == 0)
    {
      ClaimIsPooled(s, i);
    }
    TimesTotal(s.fills, s.matches);
    RawCountedBounds(claims, times);
    var least := seq(|s.matches|, i requires 0 <= i < |s.matches| => RawEach(claims)[i] - times[i]);
    SumDifference(least, RawEach(claims), times);
    SumLe(least, pooled);
    PoolByMatch(s.log, s.matches, true);
  }

  /** What debts on a side can add to a payout, in raw units. */
  function RawDebt(ps: seq<Position>, side: Side): int
  {
    if Debt(ps, side) == 0 then 0 else ToRawUnits(ShareGrains(Debt(ps, side))) + 1
  }

  lemma RawOfFour(payout: int, owed: int, netted: int, filled: int, debt: int)
    requires owed + netted == filled + debt && owed >= 0 && netted >= 0 && filled >= 0 && debt >= 0
    requires payout <= ToRawUnits(owed)
    ensures payout + ToRawUnits(netted) <= ToRawUnits(filled) + if debt == 0 then 0 else ToRawUnits(debt) + 1
  {
    RawOfSum(owed, netted);
    RawOfSum(filled, debt);
  }

  /**
   Raw-unit solvency in every reachable state in which no match was written twice,
   whatever is pending or in flight: paying either side, truncated position by
   position, and what was netted away, together cost at most 2n - 1 raw units more
   than the pool holds, n the number of recorded fills, plus the side's debts.
   */
  lemma RawShortfallBound(s: State, side: Side)
    requires Reachable(s) && OnceEach(s)
    ensures KeysOk(s.log, s.matches)
    ensures RawPayout(s.positions, side) + ToRawUnits(ShareGrains(NettedTotal(s.nettings))) - RawPool(s)
            <= (if |s.fills| == 0 then 0 else 2 * |s.fills| - 1) + RawDebt(s.positions, side)
    ensures RawPayout(s.positions, side) - RawPool(s)
            <= (if |s.fills| == 0 then 0 else 2 * |s.fills| - 1) + RawDebt(s.positions, side)
  {
    ReachableInv(s);
    var owed, debt, netted := Owed(s.positions, side), Debt(s.positions, side), NettedTotal(s.nettings);
    NettedNonNegative(s.nettings);
    RawPoolCoversClaims(s);
    ClaimsByMatch(s, side);
    ClaimsNonNegative(s);
    GrainsOfSide(s.positions, side);
    HoldingsAreOwedLessDebt(s.positions, side);
    RawOfFour(RawPayout(s.positions, side), ShareGrains(owed), ShareGrains(netted),
              Sum(ClaimEach(s.fills, s.matches)), ShareGrains(debt));
    RawMonotone(0, ShareGrains(netted));
    NothingIsNothing();
  }

  lemma ClaimsNonNegative(s: State)
    requires Inv(s)
    ensures Sum(ClaimEach(s.fills, s.matches)) >= 0
  {
    var claims := ClaimEach(s.fills, s.matches);
    forall i | 0 <= i < |s.matches| ensures claims[i] >= 0 {
      assert MatchOk(s.matches[i]);
      ClaimAt(Times(s.fills, i), s.matches[i].size);
    }
    RawEachBounds(claims);
  }

  lemma OnceSizes(fills: seq<nat>, matches: seq<Match>)
    requires forall i :: 0 <= i < |matches| ==> Times(fills, i) == 1
    ensures TimesSizes(fills, matches) == MatchSizes(matches)
  {
  }

  /** At rest with every match written once, the fill rows are the matches. */
  lemma EachWrittenOnceTotals(s: State)
    requires Reachable(s)
    requires s.pending == {} && OnceEach(s)
    ensures FillsOk(s.fills, s.matches) && FillTotal(s.fills, s.matches) == TotalMatched(s.matches)
  {
    ReachableInv(s);
    forall i | 0 <= i < |s.matches| ensures Times(s.fills, i) == 1 {
      PositionsWrittenOncePerWrittenAttempt(s, i);
    }
    FillTotalByMatch(s.fills, s.matches);
    OnceSizes(s.fills, s.matches);
  }

  // ---------------------------------------------------------------- whole cents

  /** 0.01 shares. */
  const CENT := 10_000_000_000_000_000

  lemma {:induction false} FillsInCents(fills: seq<nat>, matches: seq<Match>, user: User, side: Side)
    requires FillsOk(fills, matches) && forall i :: 0 <= i < |matches| ==> matches[i].size % CENT == 0
    ensures FilledFor(fills, matches, user, side) % CENT == 0
  {
    if |fills| > 0 {
      FillsInCents(fills[..|fills| - 1], matches, user, side);
    }
  }

  lemma {:induction false} NettedInCents(nettings: seq<Netting>, user: User)
    requires forall k :: 0 <= k < |nettings| ==> nettings[k].amount % CENT == 0
    ensures NettedOf(nettings, user) % CENT == 0 && NettedTotal(nettings) % CENT == 0
  {
    if |nettings| > 0 {
      var n := |nettings| - 1;
      NettedInCents(nettings[..n], user);
      NettedPush(nettings[..n], nettings[n], user);
      assert nettings[..n] + [nettings[n]] == nettings;
    }
  }

  lemma {:induction false} WholeUnitsSum(xs: seq<int>)
    requires forall i :: 0 <= i < |xs| ==> xs[i] >= 0 && xs[i] % GRAINS_PER_RAW == 0
    ensures Sum(RawEach(xs)) * GRAINS_PER_RAW == Sum(xs)
  {
    if |xs| > 0 {
      WholeUnitsSum(xs[..|xs| - 1]);
      assert RawEach(xs)[..|xs| - 1] == RawEach(xs[..|xs| - 1]);
    }
  }

  lemma CentSharesAreWholeUnits(ps: seq<Position>, side: Side)
    requires forall i :: 0 <= i < |ps| ==> ps[i].shares % CENT == 0
    ensures RawPayout(ps, side) * GRAINS_PER_RAW == ShareGrains(Owed(ps, side))
    ensures Debt(ps, side) % CENT == 0
  {
    var xs := GrainEach(ps, side);
    GrainsOfSide(ps, side);
    forall i | 0 <= i < |xs| ensures xs[i] >= 0 && xs[i] % GRAINS_PER_RAW == 0 && DebtEach(ps, side)[i] % CENT == 0 {
      WholeCents(OwedEach(ps, side)[i]);
      MinusCents(ps[i].shares);
    }
    WholeUnitsSum(xs);
    CentsSum(DebtEach(ps, side));
  }

  lemma MinusCents(shares: int)
    requires shares % CENT == 0
    ensures (-shares) % CENT == 0
  {
  }

  lemma {:induction false} CentsSum(xs: seq<int>)
    requires forall i :: 0 <= i < |xs| ==> xs[i] % CENT == 0
    ensures Sum(xs) % CENT == 0
  {
    if |xs| > 0 {
      CentsSum(xs[..|xs| - 1]);
    }
  }

  lemma CentMatchAt(s: State, i: nat)
    requires Inv(s) && s.pending == {} && i < |s.matches| && s.matches[i].size % CENT == 0
    ensures PooledEach(s.log, s.matches, true)[i] == ToRawUnits(ShareGrains(s.matches[i].size))
    ensures ShareGrains(s.matches[i].size) >= 0 && ShareGrains(s.matches[i].size) % GRAINS_PER_RAW == 0
  {
    var m := s.matches[i];
    RawPooledAt(s, i);
    PlanPrefixPools(m, 4);
    WholeCents(m.size);
    CentSizesPoolExactly(m.makerSide, m.price, m.size / CENT);
  }

  lemma WholeCents(size: int)
    requires size % CENT == 0
    ensures size == (size / CENT) * CENT && ShareGrains(size) % GRAINS_PER_RAW == 0
  {
  }

  lemma CentMatchesPoolWholeUnits(s: State)
    requires Inv(s) && s.pending == {}
    requires forall i :: 0 <= i < |s.matches| ==> s.matches[i].size % CENT == 0
    ensures RawPool(s) * GRAINS_PER_RAW == ShareGrains(TotalMatched(s.matches))
  {
    var xs := MatchGrains(s.matches);
    forall i | 0 <= i < |xs|
      ensures PooledEach(s.log, s.matches, true)[i] == RawEach(xs)[i] && xs[i] >= 0 && xs[i] % GRAINS_PER_RAW == 0
    {
      CentMatchAt(s, i);
    }
    PoolByMatch(s.log, s.matches, true);
    assert PooledEach(s.log, s.matches, true) == RawEach(xs);
    GrainsOfMatches(s.matches);
    WholeUnitsSum(xs);
  }

  lemma CentRow(matches: seq<Match>, ps: seq<Position>, fills: seq<nat>, nettings: seq<Netting>, i: nat)
    requires PositionsInv(matches, ps, fills, nettings) && i < |ps|
    requires forall k :: 0 <= k < |matches| ==> matches[k].size % CENT == 0
    requires forall k :: 0 <= k < |nettings| ==> nettings[k].amount % CENT == 0
    ensures ps[i].shares % CENT == 0
  {
    var p := ps[i];
    FindIs(ps, i);
    assert SharesOf(ps, p.user, p.side) + NettedOf(nettings, p.user) == FilledFor(fills, matches, p.user, p.side);
    FillsInCents(fills, matches, p.user, p.side);
    NettedInCents(nettings, p.user);
  }

  lemma WholeDifference(pool: int, payout: int, matched: int, owed: int, netted: int, debt: int)
    requires pool * GRAINS_PER_RAW == ShareGrains(matched) && payout * GRAINS_PER_RAW == ShareGrains(owed)
    requires owed + netted == matched + debt && netted >= 0 && debt >= 0 && netted % CENT == 0 && debt % CENT == 0
    ensures pool + ToRawUnits(ShareGrains(debt)) == payout + ToRawUnits(ShareGrains(netted))
  {
    WholeCents(netted);
    WholeCents(debt);
  }

  /** Traded in whole cents, the raw pool and the debts of a side are exactly its payout and what was netted. */
  lemma CentRunsPayExactly(s: State, side: Side)
    requires Reachable(s)
    requires s.pending == {} && OnceEach(s)
    requires forall i :: 0 <= i < |s.matches| ==> s.matches[i].size % CENT == 0
    requires forall k :: 0 <= k < |s.nettings| ==> s.nettings[k].amount % CENT == 0
    ensures KeysOk(s.log, s.matches)
    ensures RawPool(s) + ToRawUnits(ShareGrains(Debt(s.positions, side)))
            == RawPayout(s.positions, side) + ToRawUnits(ShareGrains(NettedTotal(s.nettings)))
  {
    ReachableInv(s);
    NettedNonNegative(s.nettings);
    NettedInCents(s.nettings, "");
    EachWrittenOnceTotals(s);
    forall i | 0 <= i < |s.positions| ensures s.positions[i].shares % CENT == 0 {
      CentRow(s.matches, s.positions, s.fills, s.nettings, i);
    }
    CentSharesAreWholeUnits(s.positions, side);
    CentMatchesPoolWholeUnits(s);
    HoldingsAreOwedLessDebt(s.positions, side);
    assert TotalShares(s.positions, side) + NettedTotal(s.nettings) == FillTotal(s.fills, s.matches);
    WholeDifference(RawPool(s), RawPayout(s.positions, side), TotalMatched(s.matches),
                    Owed(s.positions, side), NettedTotal(s.nettings), Debt(s.positions, side));
  }
}
