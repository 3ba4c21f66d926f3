/**
 Holdings below zero.  The netting of a sale subtracts what its hedge filled from
 both of the user's rows, whatever they hold by then, so sales of one user that
 overlap can overdraw.  Here is exactly which runs keep a user out of debt, and
 that sales which do not overlap do.
 */
module Debts {
  import opened Types
  import opened Ledger
  import opened Market
  import opened Protocol

  predicate Covers(ps: seq<Position>, user: User, amount: int)
  {
    amount <= SharesOf(ps, user, Yes) && amount <= SharesOf(ps, user, No)
  }

  predicate NoDebtOf(ps: seq<Position>, user: User)
  {
    Covers(ps, user, 0)
  }

  lemma NobodyInDebt(ps: seq<Position>)
    requires UniqueRows(ps)
    ensures NoDebts(ps) <==> forall u :: NoDebtOf(ps, u)
  {
    if forall u :: NoDebtOf(ps, u) {
      forall i | 0 <= i < |ps| ensures ps[i].shares >= 0 {
        FindIs(ps, i);
        assert NoDebtOf(ps, ps[i].user);
      }
    }
  }

  /** If the event nets the user's positions, they hold what it nets. */
  predicate CoveredStep(s: State, e: Event, user: User)
  {
    e.NetDown? && e.user == user && CanNet(s, user, e.amount) ==> Covers(s.positions, user, e.amount)
  }

  ghost predicate CoveredRun(s: State, es: seq<Event>, user: User)
  {
    |es| == 0 || (CoveredRun(s, es[..|es| - 1], user) && CoveredStep(After(s, es[..|es| - 1]), es[|es| - 1], user))
  }

  /** The user is in debt in no state of the run. */
  ghost predicate NeverInDebt(s: State, es: seq<Event>, user: User)
  {
    && NoDebtOf(After(s, es).positions, user)
    && (|es| > 0 ==> NeverInDebt(s, es[..|es| - 1], user))
  }

  // ---------------------------------------------------------------- how holdings move

  lemma {:induction false} FilledForGrows(fills: seq<nat>, more: seq<nat>, matches: seq<Match>, n: nat, user: User,
                                          side: Side)
    requires FillsOk(more, matches) && AllMatchesOk(matches) && fills <= more && |fills| <= n <= |more|
    ensures FilledFor(more[..n], matches, user, side) >= FilledFor(fills, matches, user, side)
  {
    if n == |fills| {
      assert more[..n] == fills;
    } else {
      FilledForGrows(fills, more, matches, n - 1, user, side);
      assert more[..n][..n - 1] == more[..n - 1];
      assert MatchOk(matches[more[n - 1]]);
    }
  }

  /** No event of the run nets this user. */
  predicate LeavesAlone(es: seq<Event>, user: User)
  {
    forall k :: 0 <= k < |es| ==> !(es[k].NetDown? && es[k].user == user)
  }

  lemma OthersNetted(s: State, e: Event, user: User)
    requires !(e.NetDown? && e.user == user)
    ensures NettedOf(Apply(s, e).nettings, user) == NettedOf(s.nettings, user)
  {
    if e.NetDown? {
      NettedPush(s.nettings, Netting(e.user, e.amount), user);
    }
  }

  lemma {:induction false} NettedOnlyByOneself(s: State, es: seq<Event>, user: User)
    requires LeavesAlone(es, user)
    ensures NettedOf(After(s, es).nettings, user) == NettedOf(s.nettings, user)
    ensures s.matches <= After(s, es).matches && s.fills <= After(s, es).fills
  {
    if |es| > 0 {
      var n := |es| - 1;
      NettedOnlyByOneself(s, es[..n], user);
      OthersNetted(After(s, es[..n]), es[n], user);
      HistoryGrows(After(s, es[..n]), es[n]);
    }
  }

  /** What the recorded fills of a run gave a user on a side. */
  function Gain(s: State, t: State, user: User, side: Side): int
    requires FillsOk(s.fills, s.matches) && FillsOk(t.fills, t.matches)
  {
    FilledFor(t.fills, t.matches, user, side) - FilledFor(s.fills, s.matches, user, side)
  }

  lemma GainIsNotNegative(s: State, t: State, user: User, side: Side)
    requires Inv(s) && Inv(t) && s.matches <= t.matches && s.fills <= t.fills
    ensures Gain(s, t, user, side) >= 0
  {
    var more := t.matches[|s.matches|..];
    assert t.matches == s.matches + more;
    FilledForStable(s.fills, s.matches, more, user, side);
    FilledForGrows(s.fills, t.fills, t.matches, |t.fills|, user, side);
    assert t.fills[..|t.fills|] == t.fills;
  }

  /** Unless the user nets, its holdings change by what was filled for it, and so never shrink. */
  lemma HoldingsGrow(s: State, es: seq<Event>, t: State, user: User, side: Side)
    requires Inv(s) && Reached(s, es, t) && LeavesAlone(es, user)
    ensures Inv(t)
    ensures SharesOf(t.positions, user, side) == SharesOf(s.positions, user, side) + Gain(s, t, user, side)
    ensures Gain(s, t, user, side) >= 0
  {
    ReachedKeepsInv(s, es, t);
    ReachedIsAfter(s, es, t);
    NettedOnlyByOneself(s, es, user);
    GainIsNotNegative(s, t, user, side);
    HoldingsAreFills(s, user, side);
    HoldingsAreFills(t, user, side);
  }

  lemma HoldingsAreFills(s: State, user: User, side: Side)
    requires Inv(s)
    ensures FillsOk(s.fills, s.matches)
    ensures SharesOf(s.positions, user, side) + NettedOf(s.nettings, user) == FilledFor(s.fills, s.matches, user, side)
  {
  }

  lemma FilledIsNotNegative(s: State, user: User, side: Side)
    requires Inv(s)
    ensures FillsOk(s.fills, s.matches) && FilledFor(s.fills, s.matches, user, side) >= 0
  {
    FilledForGrows([], s.fills, s.matches, |s.fills|, user, side);
    assert s.fills[..|s.fills|] == s.fills;
  }

  lemma {:induction false} NettedIsNotNegative(nettings: seq<Netting>, user: User)
    requires forall k :: 0 <= k < |nettings| ==> nettings[k].amount > 0
    ensures NettedOf(nettings, user) >= 0
  {
    if |nettings| > 0 {
      NettedIsNotNegative(nettings[..|nettings| - 1], user);
    }
  }

  /** Whoever had anything filled has a row for it. */
  lemma FilledHasRow(s: State, user: User, side: Side)
    requires Inv(s)
    ensures FillsOk(s.fills, s.matches)
    ensures FilledFor(s.fills, s.matches, user, side) > 0 ==> HasRow(s.positions, user, side)
    ensures SharesOf(s.positions, user, side) > 0 ==> FilledFor(s.fills, s.matches, user, side) > 0
  {
    HoldingsAreFills(s, user, side);
    NettedIsNotNegative(s.nettings, user);
    if !HasRow(s.positions, user, side) {
      NettedNothing(s.nettings, user);
    }
  }

  lemma OneStepGrows(s: State, e: Event, user: User, side: Side)
    requires Inv(s) && !(e.NetDown? && e.user == user)
    ensures SharesOf(Apply(s, e).positions, user, side) >= SharesOf(s.positions, user, side)
  {
    ReachedIsAfter(s, [], s);
    ReachedPush(s, [], s, e);
    HoldingsGrow(s, [] + [e], Apply(s, e), user, side);
  }

  // ---------------------------------------------------------------- who is never in debt

  /** From a state without debt, one step leads into debt exactly when it nets more than is held. */
  lemma StepNoDebtIff(s: State, e: Event, user: User)
    requires Inv(s) && NoDebtOf(s.positions, user)
    ensures NoDebtOf(Apply(s, e).positions, user) <==> CoveredStep(s, e, user)
  {
    if e.NetDown? && e.user == user {
      if CanNet(s, user, e.amount) {
        NetEffect(s.positions, user, e.amount, user, Yes);
        NetEffect(s.positions, user, e.amount, user, No);
      }
    } else {
      OneStepGrows(s, e, user, Yes);
      OneStepGrows(s, e, user, No);
    }
  }

  /** Over every run: a user is never in debt if and only if each of its nettings was covered when it happened. */
  lemma {:induction false} NeverInDebtIffCovered(es: seq<Event>, user: User)
    ensures NeverInDebt(INIT, es, user) <==> CoveredRun(INIT, es, user)
  {
    if |es| > 0 {
      var front := es[..|es| - 1];
      NeverInDebtIffCovered(front, user);
      InitInv();
      RunsKeepInv(INIT, front);
      if NeverInDebt(INIT, front, user) {
        NoDebtAtTheEnd(front, user);
        StepNoDebtIff(After(INIT, front), es[|es| - 1], user);
      }
    }
  }

  lemma NoDebtAtTheEnd(es: seq<Event>, user: User)
    requires NeverInDebt(INIT, es, user)
    ensures NoDebtOf(After(INIT, es).positions, user)
  {
  }

  /** A run in which each netting of the user was covered leads here. */
  ghost predicate CoveredReachable(s: State, user: User)
  {
    exists es :: s == End(INIT, es) && CoveredRun(INIT, es, user)
  }

  /** In such states what the user holds is its recorded fills less its nettings, and never negative. */
  lemma CoveredHoldings(s: State, user: User, side: Side)
    requires CoveredReachable(s, user)
    ensures Reachable(s)
    ensures FillsOk(s.fills, s.matches)
    ensures 0 <= SharesOf(s.positions, user, side)
              == FilledFor(s.fills, s.matches, user, side) - NettedOf(s.nettings, user)
  {
    var es :| s == End(INIT, es) && CoveredRun(INIT, es, user);
    ReachableInv(s);
    ReachedIsAfter(INIT, es, s);
    NeverInDebtIffCovered(es, user);
    NoDebtAtTheEnd(es, user);
    HoldingsAreFills(s, user, side);
  }

  /** If that is so of everyone, no row is in debt. */
  lemma CoveredStatesHaveNoDebts(s: State)
    requires Reachable(s) && forall u :: CoveredReachable(s, u)
    ensures NoDebts(s.positions)
  {
    ReachableInv(s);
    forall u ensures NoDebtOf(s.positions, u) {
      CoveredHoldings(s, u, Yes);
      CoveredHoldings(s, u, No);
    }
    NobodyInDebt(s.positions);
  }

  // ---------------------------------------------------------------- sales that do not overlap

  /** Prefix of length k of a run from the opening of the window. */
  ghost function At(es: seq<Event>, k: nat): State
    requires k <= |es|
  {
    End(INIT, es[..k])
  }

  /**
   The netting at step k ends a sale that checked its position at step c: the
   sold side held the amount then, the hedge has been recorded since, and the
   user netted nothing else in between.
   */
  ghost predicate SaleFrom(es: seq<Event>, c: nat, k: nat, user: User, side: Side)
  {
    && c <= k < |es| && es[k].NetDown? && es[k].user == user
    && LeavesAlone(es[c..k], user)
    && es[k].amount <= SharesOf(At(es, c).positions, user, side)
    && FillsOk(At(es, c).fills, At(es, c).matches) && FillsOk(At(es, k).fills, At(es, k).matches)
    && es[k].amount <= Gain(At(es, c), At(es, k), user, Opposite(side))
  }

  /** Every netting of the user ends such a sale. */
  ghost predicate SalesOneByOne(es: seq<Event>, user: User)
  {
    forall k :: 0 <= k < |es| && es[k].NetDown? && es[k].user == user ==>
      exists c: nat, side :: SaleFrom(es, c, k, user, side)
  }

  lemma AtPrefix(es: seq<Event>, n: nat, k: nat)
    requires k <= n <= |es|
    ensures At(es[..n], k) == At(es, k)
  {
    assert es[..n][..k] == es[..k];
  }

  lemma SaleInPrefix(es: seq<Event>, n: nat, c: nat, k: nat, user: User, side: Side)
    requires k < n <= |es| && SaleFrom(es, c, k, user, side)
    ensures SaleFrom(es[..n], c, k, user, side)
  {
    AtPrefix(es, n, c);
    AtPrefix(es, n, k);
    assert es[..n][c..k] == es[c..k];
  }

  lemma SalesInPrefix(es: seq<Event>, n: nat, user: User)
    requires n <= |es| && SalesOneByOne(es, user)
    ensures SalesOneByOne(es[..n], user)
  {
    forall k | 0 <= k < n && es[..n][k].NetDown? && es[..n][k].user == user
      ensures exists c: nat, side :: SaleFrom(es[..n], c, k, user, side)
    {
      var c: nat, side :| SaleFrom(es, c, k, user, side);
      SaleInPrefix(es, n, c, k, user, side);
    }
  }

  lemma AtReached(es: seq<Event>, c: nat, k: nat)
    requires c <= k <= |es|
    ensures Inv(At(es, c)) && Reached(At(es, c), es[c..k], At(es, k))
  {
    InitInv();
    ReachedKeepsInv(INIT, es[..c], At(es, c));
    assert es[..k] == es[..c] + es[c..k];
    ReachedIsAfter(At(es, c), es[c..k], End(At(es, c), es[c..k]));
    ReachedConcat(INIT, es[..c], At(es, c), es[c..k], End(At(es, c), es[c..k]));
  }

  /** A sale whose user held no debt when it checked finds its netting covered. */
  lemma SaleIsCovered(es: seq<Event>, c: nat, k: nat, user: User, side: Side)
    requires SaleFrom(es, c, k, user, side) && NoDebtOf(At(es, c).positions, user)
    ensures Covers(At(es, k).positions, user, es[k].amount)
  {
    AtReached(es, c, k);
    HoldingsGrow(At(es, c), es[c..k], At(es, k), user, side);
    HoldingsGrow(At(es, c), es[c..k], At(es, k), user, Opposite(side));
  }

  lemma {:induction false} NeverInDebtBefore(es: seq<Event>, user: User, k: nat)
    requires NeverInDebt(INIT, es, user) && k <= |es|
    ensures NoDebtOf(At(es, k).positions, user)
  {
    if k == |es| {
      assert es[..k] == es;
      ReachedIsAfter(INIT, es, At(es, k));
      NoDebtAtTheEnd(es, user);
    } else {
      NeverInDebtBefore(es[..|es| - 1], user, k);
      AtPrefix(es, |es| - 1, k);
    }
  }

  /** A user whose sales follow one another is never in debt, whatever everyone else does. */
  lemma {:induction false} SerialSalesAreCovered(es: seq<Event>, user: User)
    requires SalesOneByOne(es, user)
    ensures CoveredRun(INIT, es, user)
  {
    if |es| > 0 {
      var n := |es| - 1;
      SalesInPrefix(es, n, user);
      SerialSalesAreCovered(es[..n], user);
      if es[n].NetDown? && es[n].user == user {
        var c: nat, side :| SaleFrom(es, c, n, user, side);
        NeverInDebtIffCovered(es[..n], user);
        NeverInDebtBefore(es[..n], user, c);
        AtPrefix(es, n, c);
        SaleIsCovered(es, c, n, user, side);
        ReachedIsAfter(INIT, es[..n], At(es, n));
      }
    }
  }

  // ---------------------------------------------------------------- what a debt does to the row

  /** Ten shares short at 0.5, a fill of 20 at 0.6 stores an average of 0.7. */
  lemma DebtDrivesAverageOutside()
    ensures Averaged(Position("u", Yes, -10, 5_000), 20, 6_000) == 7_000
  {
  }

  /** An update is rejected exactly at a zero divisor and at an average of 100 or more. */
  lemma RejectedIff(ps: seq<Position>, user: User, side: Side, add: int, price: int)
    ensures !Accepts(ps, user, side, add, price) <==>
              HasRow(ps, user, side)
              && (var p := ps[Find(ps, user, side)];
                  p.shares + add == 0 || !(-1_000_000 < Averaged(p, add, price) < 1_000_000))
  {
    if HasRow(ps, user, side) {
      NewAverageIsAveraged(ps[Find(ps, user, side)], add, price);
    }
  }

  /** An update that meets a debt of exactly its own size is rejected, every time it is retried. */
  lemma RejectedAtExactDebt(ps: seq<Position>, user: User, side: Side, add: int, price: int)
    requires add > 0 && SharesOf(ps, user, side) == -add
    ensures !Accepts(ps, user, side, add, price)
  {
  }
}
