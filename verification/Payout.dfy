/**
 Paying a settled window out.  The window's money path is joined by any number
 of settlement runs: a run reads the locked window, tries to flip it to settled,
 lists the positions, and walks the list marking each winner paid before
 crediting it.  Anything may fail or stop at any step, and trading state may
 still move underneath it (late settlements of pending fills, netting).
 */
module Payout {
  import opened Types
  import opened Sums
  import opened Money
  import opened Ledger
  import opened Market
  import opened Protocol
  import opened Debts
  import opened Funding

  /** A credit of a winner at the wallet backend; these calls carry no idempotency key. */
  datatype Payment = Payment(row: nat, user: User, raw: int)

  datatype Settlement = Settlement(winner: Side, total: int)

  datatype Phase = Deciding | Listing | Paying | Crediting | Over

  /** One pass of the settlement loop over the window; `won` says it saw its own flip to settled succeed. */
  datatype Pass = Pass(price: int, won: bool, phase: Phase, listing: seq<Position>, listedPaid: set<nat>, next: nat,
                       total: int)

  datatype Resolution = Unresolved | Resolved(price: int)

  datatype Window = Window(
    market: State,
    resolution: Resolution,
    paid: set<nat>,
    payments: seq<Payment>,
    settlements: seq<Settlement>,
    passes: seq<Pass>)

  datatype Step =
    | Trade(event: Event)
    | Start(price: int)
    | Decide(pass: nat, outcome: Outcome)
    | List(pass: nat)
    | Visit(pass: nat, outcome: Outcome)
    | Credit(pass: nat, outcome: Outcome)
    | Conclude(pass: nat, outcome: Outcome)
    | Halt(pass: nat)

  const OPENED := Window(INIT, Unresolved, {}, [], [], [])

  /** YES wins when the resolution price is at or above the target. */
  function Winner(price: int, target: int): Side
  {
    if price >= target then Yes else No
  }

  /** Locked: trading has stopped and no resolution is recorded. */
  predicate IsLocked(w: Window)
  {
    !w.market.trading && w.resolution.Unresolved?
  }

  function Winning(p: Position, winner: Side): bool
  {
    p.side == winner && p.shares > 0
  }

  function PaymentFor(listing: seq<Position>, row: nat): Payment
    requires row < |listing|
  {
    Payment(row, listing[row].user, ToRawUnits(ShareGrains(listing[row].shares)))
  }

  predicate InPhase(w: Window, r: nat, phase: Phase)
  {
    r < |w.passes| && w.passes[r].phase == phase
  }

  function Put(w: Window, r: nat, p: Pass): Window
    requires r < |w.passes|
  {
    w.(passes := w.passes[r := p])
  }

  /** The conditional flip; only a pass that hears of its own success goes on to pay. */
  function ApplyDecide(w: Window, r: nat, outcome: Outcome): Window
  {
    if InPhase(w, r, Deciding) then
      var p := w.passes[r];
      var flips := IsLocked(w) && outcome != NeverArrived;
      var won := flips && outcome == Acked;
      Put(w, r, p.(won := won, phase := if won then Listing else Over))
      .(resolution := if flips then Resolved(p.price) else w.resolution)
    else w
  }

  function ApplyList(w: Window, r: nat): Window
  {
    if InPhase(w, r, Listing) then
      Put(w, r, w.passes[r].(phase := Paying, listing := w.market.positions, listedPaid := w.paid))
    else w
  }

  function Advanced(p: Pass, counted: bool): Pass
    requires p.next < |p.listing|
  {
    p.(phase := Paying, next := p.next + 1, total := p.total + if counted then p.listing[p.next].shares else 0)
  }

  /** One turn of the loop, up to the marking of the position. */
  function ApplyVisit(w: Window, target: int, r: nat, outcome: Outcome): Window
  {
    if InPhase(w, r, Paying) && w.passes[r].next < |w.passes[r].listing| then
      var p := w.passes[r];
      if !Winning(p.listing[p.next], Winner(p.price, target)) then Put(w, r, Advanced(p, false))
      else if p.next in p.listedPaid then Put(w, r, Advanced(p, true))
      else if outcome == NeverArrived then Put(w, r, Advanced(p, false))
      else
        var marked := p.next !in w.paid;
        Put(w, r, if outcome == ReplyLost then Advanced(p, false)
                  else if marked then p.(phase := Crediting)
                  else Advanced(p, true))
        .(paid := w.paid + {p.next})
    else w
  }

  function ApplyCredit(w: Window, r: nat, outcome: Outcome): Window
  {
    if InPhase(w, r, Crediting) && w.passes[r].next < |w.passes[r].listing| then
      var p := w.passes[r];
      Put(w, r, Advanced(p, outcome == Acked))
      .(payments := if outcome == NeverArrived then w.payments else w.payments + [PaymentFor(p.listing, p.next)])
    else w
  }

  /** The settlement row is unique in the window. */
  function ApplyConclude(w: Window, target: int, r: nat, outcome: Outcome): Window
  {
    if InPhase(w, r, Paying) && w.passes[r].next >= |w.passes[r].listing| then
      var p := w.passes[r];
      Put(w, r, p.(phase := Over))
      .(settlements := if outcome == NeverArrived || |w.settlements| > 0 then w.settlements
                       else [Settlement(Winner(p.price, target), p.total)])
    else w
  }

  ghost function ApplyStep(w: Window, target: int, e: Step): Window
  {
    match e
    case Trade(event) => w.(market := Apply(w.market, event))
    case Start(price) =>
      if IsLocked(w) then w.(passes := w.passes + [Pass(price, false, Deciding, [], {}, 0, 0)]) else w
    case Decide(r, outcome) => ApplyDecide(w, r, outcome)
    case List(r) => ApplyList(w, r)
    case Visit(r, outcome) => ApplyVisit(w, target, r, outcome)
    case Credit(r, outcome) => ApplyCredit(w, r, outcome)
    case Conclude(r, outcome) => ApplyConclude(w, target, r, outcome)
    case Halt(r) => if r < |w.passes| then Put(w, r, w.passes[r].(phase := Over)) else w
  }

  ghost function AfterSteps(w: Window, target: int, es: seq<Step>): Window
  {
    if |es| == 0 then w else ApplyStep(AfterSteps(w, target, es[..|es| - 1]), target, es[|es| - 1])
  }

  ghost predicate IsEndOf(w: Window, target: int, es: seq<Step>, t: Window)
  {
    forall u {:trigger Seen(u)} :: Seen(u) && u == AfterSteps(w, target, es) ==> t == u
  }

  /** AfterSteps, chosen rather than computed so that it is not unfolded. */
  ghost function EndOf(w: Window, target: int, es: seq<Step>): Window
  {
    assert IsEndOf(w, target, es, AfterSteps(w, target, es));
    var t :| IsEndOf(w, target, es, t);
    t
  }

  lemma EndOfIsAfter(w: Window, target: int, es: seq<Step>)
    ensures EndOf(w, target, es) == AfterSteps(w, target, es)
  {
    assert IsEndOf(w, target, es, EndOf(w, target, es));
    assert Seen(AfterSteps(w, target, es));
  }

  lemma EndOfNothing(w: Window, target: int)
    ensures EndOf(w, target, []) == w
  {
    EndOfIsAfter(w, target, []);
  }

  lemma EndOfPush(w: Window, target: int, es: seq<Step>, e: Step)
    ensures EndOf(w, target, es + [e]) == ApplyStep(EndOf(w, target, es), target, e)
  {
    EndOfIsAfter(w, target, es);
    EndOfIsAfter(w, target, es + [e]);
    assert (es + [e])[..|es|] == es;
  }

  // ---------------------------------------------------------------- invariant

  /** Listed rows are still there, with the same owner and side. */
  predicate SameOwners(listing: seq<Position>, ps: seq<Position>)
  {
    && |listing| <= |ps|
    && forall i :: 0 <= i < |listing| ==> listing[i].user == ps[i].user && listing[i].side == ps[i].side
  }

  /** All payments are this pass's, in row order, each of a listed winner it has been past; so are all marks. */
  predicate PaidBy(p: Pass, target: int, payments: seq<Payment>, paid: set<nat>)
  {
    && (forall k :: 0 <= k < |payments| ==>
          && payments[k].row < p.next <= |p.listing| && payments[k].row in paid
          && payments[k] == PaymentFor(p.listing, payments[k].row)
          && Winning(p.listing[payments[k].row], Winner(p.price, target)))
    && (forall j, k :: 0 <= j < k < |payments| ==> payments[j].row < payments[k].row)
    && (forall row :: row in paid ==> row <= p.next && (row == p.next ==> p.phase == Crediting || p.phase == Over))
  }

  predicate PassOk(p: Pass, ps: seq<Position>)
  {
    && SameOwners(p.listing, ps)
    && p.next <= |p.listing| && p.listedPaid == {}
    && (p.phase == Deciding ==> !p.won)
    && (p.phase == Deciding || p.phase == Listing ==> p.listing == [])
    && (p.phase == Listing || p.phase == Paying || p.phase == Crediting ==> p.won)
    && (p.phase == Crediting ==> p.next < |p.listing|)
  }

  predicate WonOk(p: Pass, target: int, w: Window)
  {
    && w.resolution == Resolved(p.price)
    && PaidBy(p, target, w.payments, w.paid)
    && (p.phase == Listing ==> w.payments == [] && w.paid == {})
    && (p.phase == Crediting ==>
          p.next < |p.listing| && p.next in w.paid && Winning(p.listing[p.next], Winner(p.price, target)))
  }

  predicate PayoutInv(w: Window, target: int)
  {
    && (w.resolution.Resolved? ==> !w.market.trading)
    && (forall r :: 0 <= r < |w.passes| ==> PassOk(w.passes[r], w.market.positions))
    && (forall r :: 0 <= r < |w.passes| && w.passes[r].won ==> WonOk(w.passes[r], target, w))
    && (forall q, r :: 0 <= q < r < |w.passes| ==> !(w.passes[q].won && w.passes[r].won))
    && ((forall r :: 0 <= r < |w.passes| ==> !w.passes[r].won)
        ==> w.payments == [] && w.paid == {} && w.settlements == [])
    && |w.settlements| <= 1
    && (|w.settlements| == 1 ==>
          w.resolution.Resolved? && w.settlements[0].winner == Winner(w.resolution.price, target))
  }

  lemma UpsertKeepsOwners(ps: seq<Position>, user: User, side: Side, add: int, price: int)
    ensures SameOwners(ps, Upsert(ps, user, side, add, price))
  {
  }

  lemma ApplyFillKeepsOwners(ps: seq<Position>, m: Match)
    ensures SameOwners(ps, ApplyFill(ps, m))
  {
    ApplyFillIsBothUpserts(ps, m);
    UpsertKeepsOwners(ps, m.makerUser, m.makerSide, m.size, m.price);
    UpsertKeepsOwners(Upsert(ps, m.makerUser, m.makerSide, m.size, m.price), m.takerUser, m.takerSide, m.size,
                      TakerPrice(m));
  }

  /** Trading events never remove a position row or change whose it is. */
  lemma RowsStay(s: State, e: Event)
    ensures SameOwners(s.positions, Apply(s, e).positions)
  {
    if e.Record? && AtStage(s, e.attempt, WRITE) && s.attempts[e.attempt].row < |s.matches| {
      ApplyFillKeepsOwners(s.positions, s.matches[s.attempts[e.attempt].row]);
    }
  }

  lemma TradeKeepsPayout(w: Window, target: int, e: Event)
    requires PayoutInv(w, target)
    ensures PayoutInv(ApplyStep(w, target, Trade(e)), target)
  {
    var t := ApplyStep(w, target, Trade(e));
    RowsStay(w.market, e);
    forall r | 0 <= r < |t.passes| ensures PassOk(t.passes[r], t.market.positions) {
      assert PassOk(w.passes[r], w.market.positions);
    }
    forall r | 0 <= r < |t.passes| && t.passes[r].won ensures WonOk(t.passes[r], target, t) {
      assert WonOk(w.passes[r], target, w);
    }
  }

  lemma StartKeepsPayout(w: Window, target: int, price: int)
    requires PayoutInv(w, target)
    ensures PayoutInv(ApplyStep(w, target, Start(price)), target)
  {
    var t := ApplyStep(w, target, Start(price));
    forall r | 0 <= r < |t.passes| ensures PassOk(t.passes[r], t.market.positions) {
      assert r < |w.passes| ==> PassOk(w.passes[r], w.market.positions);
    }
    forall r | 0 <= r < |t.passes| && t.passes[r].won ensures WonOk(t.passes[r], target, t) {
      assert WonOk(w.passes[r], target, w);
    }
    if forall r :: 0 <= r < |t.passes| ==> !t.passes[r].won {
      forall r | 0 <= r < |w.passes| ensures !w.passes[r].won {
        assert t.passes[r] == w.passes[r];
      }
    }
  }

  /** A pass changes while the tables do too: what must hold of the new pass for the invariant to survive. */
  lemma PutKeepsPayout(w: Window, target: int, r: nat, p: Pass, t: Window)
    requires PayoutInv(w, target) && r < |w.passes|
    requires t.market == w.market && t.passes == w.passes[r := p]
    requires PassOk(p, w.market.positions)
    requires p.won ==> WonOk(p, target, t)
    requires w.passes[r].won ==> p.won && t.resolution == w.resolution
    requires !w.passes[r].won && p.won ==> w.resolution.Unresolved?
    requires !p.won ==> t.payments == w.payments && t.paid == w.paid && t.settlements == w.settlements
    requires !p.won && w.resolution.Resolved? ==> t.resolution == w.resolution
    requires t.resolution.Resolved? ==> !w.market.trading
    requires |t.settlements| <= 1
    requires |t.settlements| == 1
             ==> t.resolution.Resolved? && t.settlements[0].winner == Winner(t.resolution.price, target)
    ensures PayoutInv(t, target)
  {
    forall q | 0 <= q < |t.passes| ensures PassOk(t.passes[q], t.market.positions) {
      assert PassOk(w.passes[q], w.market.positions);
    }
    forall q | 0 <= q < |t.passes| && t.passes[q].won ensures WonOk(t.passes[q], target, t) {
      if q != r {
        assert WonOk(w.passes[q], target, w);
        assert !p.won;
      }
    }
    if forall q :: 0 <= q < |t.passes| ==> !t.passes[q].won {
      assert !t.passes[r].won;
      forall q | 0 <= q < |w.passes| ensures !w.passes[q].won {
        assert q != r ==> t.passes[q] == w.passes[q];
      }
    }
  }

  lemma NobodyHasWon(w: Window, target: int)
    requires PayoutInv(w, target) && w.resolution.Unresolved?
    ensures forall q :: 0 <= q < |w.passes| ==> !w.passes[q].won
    ensures w.payments == [] && w.paid == {}
  {
    forall q | 0 <= q < |w.passes| ensures !w.passes[q].won {
      assert w.passes[q].won ==> WonOk(w.passes[q], target, w);
    }
  }

  lemma DecideKeepsPayout(w: Window, target: int, r: nat, outcome: Outcome)
    requires PayoutInv(w, target)
    ensures PayoutInv(ApplyDecide(w, r, outcome), target)
  {
    if InPhase(w, r, Deciding) {
      var t := ApplyDecide(w, r, outcome);
      assert PassOk(w.passes[r], w.market.positions);
      if t.passes[r].won {
        NobodyHasWon(w, target);
      }
      PutKeepsPayout(w, target, r, t.passes[r], t);
    }
  }

  lemma ListKeepsPayout(w: Window, target: int, r: nat)
    requires PayoutInv(w, target)
    ensures PayoutInv(ApplyList(w, r), target)
  {
    if InPhase(w, r, Listing) {
      var t := ApplyList(w, r);
      assert PassOk(w.passes[r], w.market.positions) && WonOk(w.passes[r], target, w);
      PutKeepsPayout(w, target, r, t.passes[r], t);
    }
  }

  /** Moving past a row, or stopping at it to credit it, with its mark made or not. */
  lemma WonStaysOk(w: Window, target: int, p: Pass, q: Pass, t: Window)
    requires PassOk(p, w.market.positions) && WonOk(p, target, w) && p.phase == Paying && p.next < |p.listing|
    requires t.resolution == w.resolution && t.payments == w.payments
             && (t.paid == w.paid || t.paid == w.paid + {p.next})
    requires q == Advanced(p, false) || q == Advanced(p, true)
             || (q == p.(phase := Crediting) && p.next in t.paid && Winning(p.listing[p.next], Winner(p.price, target)))
    ensures PassOk(q, w.market.positions) && WonOk(q, target, t)
  {
  }

  lemma VisitKeepsPayout(w: Window, target: int, r: nat, outcome: Outcome)
    requires PayoutInv(w, target)
    ensures PayoutInv(ApplyVisit(w, target, r, outcome), target)
  {
    if InPhase(w, r, Paying) && w.passes[r].next < |w.passes[r].listing| {
      var t := ApplyVisit(w, target, r, outcome);
      assert PassOk(w.passes[r], w.market.positions) && WonOk(w.passes[r], target, w);
      WonStaysOk(w, target, w.passes[r], t.passes[r], t);
      PutKeepsPayout(w, target, r, t.passes[r], t);
    }
  }

  lemma CreditKeepsPayout(w: Window, target: int, r: nat, outcome: Outcome)
    requires PayoutInv(w, target)
    ensures PayoutInv(ApplyCredit(w, r, outcome), target)
  {
    if InPhase(w, r, Crediting) {
      var t := ApplyCredit(w, r, outcome);
      assert PassOk(w.passes[r], w.market.positions) && WonOk(w.passes[r], target, w);
      PutKeepsPayout(w, target, r, t.passes[r], t);
    }
  }

  lemma ConcludeKeepsPayout(w: Window, target: int, r: nat, outcome: Outcome)
    requires PayoutInv(w, target)
    ensures PayoutInv(ApplyConclude(w, target, r, outcome), target)
  {
    if InPhase(w, r, Paying) {
      var t := ApplyConclude(w, target, r, outcome);
      assert PassOk(w.passes[r], w.market.positions) && WonOk(w.passes[r], target, w);
      PutKeepsPayout(w, target, r, t.passes[r], t);
    }
  }

  lemma HaltKeepsPayout(w: Window, target: int, r: nat)
    requires PayoutInv(w, target)
    ensures PayoutInv(ApplyStep(w, target, Halt(r)), target)
  {
    if r < |w.passes| {
      var t := ApplyStep(w, target, Halt(r));
      assert PassOk(w.passes[r], w.market.positions);
      assert w.passes[r].won ==> WonOk(w.passes[r], target, w);
      PutKeepsPayout(w, target, r, t.passes[r], t);
    }
  }

  lemma StepKeepsPayout(w: Window, target: int, e: Step)
    requires PayoutInv(w, target)
    ensures PayoutInv(ApplyStep(w, target, e), target)
  {
    match e
    case Trade(event) => TradeKeepsPayout(w, target, event);
    case Start(price) => StartKeepsPayout(w, target, price);
    case Decide(r, outcome) => DecideKeepsPayout(w, target, r, outcome);
    case List(r) => ListKeepsPayout(w, target, r);
    case Visit(r, outcome) => VisitKeepsPayout(w, target, r, outcome);
    case Credit(r, outcome) => CreditKeepsPayout(w, target, r, outcome);
    case Conclude(r, outcome) => ConcludeKeepsPayout(w, target, r, outcome);
    case Halt(r) => HaltKeepsPayout(w, target, r);
  }

  lemma StepKeepsMarket(w: Window, target: int, e: Step)
    requires Inv(w.market)
    ensures Inv(ApplyStep(w, target, e).market)
  {
    if e.Trade? {
      EventKeepsInv(w.market, e.event);
    }
  }

  lemma {:induction false} RunsKeepPayout(target: int, es: seq<Step>)
    ensures Inv(AfterSteps(OPENED, target, es).market) && PayoutInv(AfterSteps(OPENED, target, es), target)
  {
    if |es| == 0 {
      InitInv();
    } else {
      var front := es[..|es| - 1];
      RunsKeepPayout(target, front);
      StepKeepsMarket(AfterSteps(OPENED, target, front), target, es[|es| - 1]);
      StepKeepsPayout(AfterSteps(OPENED, target, front), target, es[|es| - 1]);
    }
  }

  /** The trading part of a run. */
  function Trades(es: seq<Step>): seq<Event>
  {
    if |es| == 0 then []
    else
      var front := Trades(es[..|es| - 1]);
      if es[|es| - 1].Trade? then front + [es[|es| - 1].event] else front
  }

  /** Settlement does not touch the money path: what is proved of its runs holds here too. */
  lemma MarketIsReachable(target: int, es: seq<Step>)
    ensures Reachable(AfterSteps(OPENED, target, es).market)
  {
    MarketIsItsTrades(target, es);
    ReachedIsAfter(INIT, Trades(es), AfterSteps(OPENED, target, es).market);
  }

  lemma {:induction false} MarketIsItsTrades(target: int, es: seq<Step>)
    ensures AfterSteps(OPENED, target, es).market == After(INIT, Trades(es))
  {
    if |es| > 0 {
      var front := es[..|es| - 1];
      MarketIsItsTrades(target, front);
      if es[|es| - 1].Trade? {
        AfterPush(INIT, Trades(front), es[|es| - 1].event);
      }
    }
  }

  // ---------------------------------------------------------------- at most once

  /** How often a position has been credited. */
  function TimesPaid(payments: seq<Payment>, row: nat): nat
  {
    if |payments| == 0 then 0
    else TimesPaid(payments[..|payments| - 1], row) + if payments[|payments| - 1].row == row then 1 else 0
  }

  lemma {:induction false} RisingPaysOnce(payments: seq<Payment>, row: nat)
    requires forall j, k :: 0 <= j < k < |payments| ==> payments[j].row < payments[k].row
    ensures TimesPaid(payments, row) <= 1
    ensures (forall k :: 0 <= k < |payments| ==> payments[k].row != row) ==> TimesPaid(payments, row) == 0
  {
    if |payments| > 0 {
      RisingPaysOnce(payments[..|payments| - 1], row);
    }
  }

  lemma PaymentsArePasses(w: Window, target: int) returns (r: nat)
    requires PayoutInv(w, target) && (|w.payments| > 0 || |w.settlements| > 0)
    ensures r < |w.passes| && w.passes[r].won
    ensures PassOk(w.passes[r], w.market.positions) && WonOk(w.passes[r], target, w)
  {
    r :| 0 <= r < |w.passes| && w.passes[r].won;
  }

  /**
   Over any interleaving of settlement passes, trading, failures and crashes: a
   position is credited at most once, and only after its window left `locked`,
   only if it is on the side that won, and only once it is marked paid.
   */
  lemma PaidAtMostOnce(target: int, es: seq<Step>, row: nat)
    ensures var w := AfterSteps(OPENED, target, es);
            && TimesPaid(w.payments, row) <= 1
            && (TimesPaid(w.payments, row) > 0 ==>
                  && !w.market.trading && w.resolution.Resolved?
                  && row < |w.market.positions|
                  && w.market.positions[row].side == Winner(w.resolution.price, target)
                  && (w.market.positions[row].side == Yes <==> w.resolution.price >= target)
                  && row in w.paid)
  {
    RunsKeepPayout(target, es);
    var w := AfterSteps(OPENED, target, es);
    if |w.payments| > 0 {
      var r := PaymentsArePasses(w, target);
      RisingPaysOnce(w.payments, row);
      if k :| 0 <= k < |w.payments| && w.payments[k].row == row {
        assert w.passes[r].listing[row].side == w.market.positions[row].side;
      }
    }
  }

  /**
   Each credit in full: it goes to the owner of the row, whose side won, for the shares
   the settling pass listed, one BI2XUSD each truncated to 1e-6.
   */
  lemma CreditsAreOwed(target: int, es: seq<Step>, r: nat, k: nat)
    requires var w := AfterSteps(OPENED, target, es); r < |w.passes| && w.passes[r].won && k < |w.payments|
    ensures var w := AfterSteps(OPENED, target, es);
            var x, listing := w.payments[k], w.passes[r].listing;
            && x.row < |listing| <= |w.market.positions|
            && x.user == listing[x.row].user == w.market.positions[x.row].user
            && listing[x.row].side == w.market.positions[x.row].side
            && (listing[x.row].side == Yes <==> w.passes[r].price >= target)
            && listing[x.row].shares > 0
            && x.raw == listing[x.row].shares * 1_000_000_000 / 1_000_000_000_000_000_000_000
  {
    RunsKeepPayout(target, es);
    var w := AfterSteps(OPENED, target, es);
    assert PassOk(w.passes[r], w.market.positions) && WonOk(w.passes[r], target, w);
    CreditIsRaw(w.passes[r].listing[w.payments[k].row].shares);
  }

  lemma CreditIsRaw(shares: int)
    requires shares >= 0
    ensures ToRawUnits(ShareGrains(shares)) == shares * 1_000_000_000 / 1_000_000_000_000_000_000_000
  {
  }

  /** A window gets at most one settlement record, naming the side its resolution price decides. */
  lemma OneSettlement(target: int, es: seq<Step>)
    ensures var w := AfterSteps(OPENED, target, es);
            && |w.settlements| <= 1
            && (|w.settlements| == 1 ==>
                  && w.resolution.Resolved? && w.settlements[0].winner == Winner(w.resolution.price, target)
                  && (w.settlements[0].winner == Yes <==> w.resolution.price >= target))
  {
    RunsKeepPayout(target, es);
  }

  /** Once recorded, the resolution price never changes. */
  lemma ResolutionIsFinal(w: Window, target: int, e: Step)
    requires PayoutInv(w, target) && w.resolution.Resolved?
    ensures ApplyStep(w, target, e).resolution == w.resolution
  {
  }

  /**
   The branches that skip a position already paid by an earlier pass are never
   taken: no listing shows a paid position, and no marking finds one.
   */
  lemma NothingIsEverResumed(target: int, es: seq<Step>, r: nat)
    ensures var w := AfterSteps(OPENED, target, es);
            InPhase(w, r, Paying) ==> w.passes[r].listedPaid == {} && w.passes[r].next !in w.paid
  {
    RunsKeepPayout(target, es);
    var w := AfterSteps(OPENED, target, es);
    if InPhase(w, r, Paying) {
      assert PassOk(w.passes[r], w.market.positions) && WonOk(w.passes[r], target, w);
    }
  }

  // ---------------------------------------------------------------- how much is paid

  function RawOf(payments: seq<Payment>): (xs: seq<int>)
    ensures |xs| == |payments|
  {
    seq(|payments|, k requires 0 <= k < |payments| => payments[k].raw)
  }

  /** Payments in row order never exceed the winners' truncated holdings up to the last row paid. */
  lemma {:induction false} PaymentsWithinListing(payments: seq<Payment>, listing: seq<Position>, winner: Side, n: nat)
    requires n <= |listing|
    requires forall k :: 0 <= k < |payments| ==>
               && payments[k].row < n && payments[k] == PaymentFor(listing, payments[k].row)
               && Winning(listing[payments[k].row], winner)
    requires forall j, k :: 0 <= j < k < |payments| ==> payments[j].row < payments[k].row
    ensures 0 <= Sum(RawOf(payments)) <= Sum(RawEach(GrainEach(listing, winner))[..n])
    decreases n
  {
    var xs := RawEach(GrainEach(listing, winner));
    if n == 0 {
      NoPayments(payments);
    } else {
      assert xs[..n] == xs[..n - 1] + [xs[n - 1]];
      SumPush(xs[..n - 1], xs[n - 1]);
      RawNonNegative(OwedEach(listing, winner)[n - 1]);
      if |payments| > 0 && payments[|payments| - 1].row == n - 1 {
        var front := payments[..|payments| - 1];
        PaymentsWithinListing(front, listing, winner, n - 1);
        PaymentPush(front, payments[|payments| - 1]);
        assert payments == front + [payments[|payments| - 1]];
      } else {
        PaymentsWithinListing(payments, listing, winner, n - 1);
      }
    }
  }

  lemma NoPayments(payments: seq<Payment>)
    requires forall k :: 0 <= k < |payments| ==> payments[k].row < 0
    ensures Sum(RawOf(payments)) == 0
  {
  }

  lemma RawNonNegative(shares: int)
    requires shares >= 0
    ensures ToRawUnits(ShareGrains(shares)) >= 0
  {
  }

  /** All credits together never exceed the truncated holdings of the winners the settling pass listed. */
  lemma NeverMoreThanListed(target: int, es: seq<Step>, r: nat)
    requires var w := AfterSteps(OPENED, target, es); r < |w.passes| && w.passes[r].won
    ensures var w := AfterSteps(OPENED, target, es);
            0 <= Sum(RawOf(w.payments)) <= RawPayout(w.passes[r].listing, Winner(w.passes[r].price, target))
  {
    RunsKeepPayout(target, es);
    var w := AfterSteps(OPENED, target, es);
    var p := w.passes[r];
    var winner := Winner(p.price, target);
    assert PassOk(p, w.market.positions) && WonOk(p, target, w);
    PaymentsWithinListing(w.payments, p.listing, winner, |p.listing|);
    assert RawEach(GrainEach(p.listing, winner))[..|p.listing|] == RawEach(GrainEach(p.listing, winner));
  }

  // ---------------------------------------------------------------- what is recorded

  /** A turn of the loop goes on to credit exactly when it heard that it marked a winner nobody had marked. */
  lemma CreditFollowsMark(w: Window, target: int, r: nat, outcome: Outcome)
    requires InPhase(w, r, Paying) && w.passes[r].next < |w.passes[r].listing|
    ensures var p := w.passes[r];
            var x := p.listing[p.next];
            ApplyVisit(w, target, r, outcome).passes[r].phase == Crediting <==>
              && outcome == Acked && p.next !in w.paid && p.next !in p.listedPaid
              && x.shares > 0 && (x.side == Yes <==> p.price >= target)
  {
  }

  /**
   The window is resolved, at the price of the pass, exactly when a flip reaches it while
   it is locked; the pass goes on to pay exactly when it also hears so, and else is over.
   */
  lemma FlipsIff(w: Window, target: int, r: nat, outcome: Outcome)
    requires InPhase(w, r, Deciding)
    ensures var t := ApplyStep(w, target, Decide(r, outcome));
            var flips := !w.market.trading && w.resolution == Unresolved && outcome != NeverArrived;
            && (flips ==> t.resolution == Resolved(w.passes[r].price))
            && (!flips ==> t.resolution == w.resolution)
            && t.passes[r].phase == (if flips && outcome == Acked then Listing else Over)
  {
  }

  /** A credit is made once its request arrived, reply or no reply, and counted exactly when the reply came. */
  lemma CreditCountsIff(w: Window, target: int, r: nat, outcome: Outcome)
    requires InPhase(w, r, Crediting) && w.passes[r].next < |w.passes[r].listing|
    requires w.passes[r].listing[w.passes[r].next].shares > 0
    ensures var t, p := ApplyStep(w, target, Step.Credit(r, outcome)), w.passes[r];
            && (|t.payments| > |w.payments| <==> outcome != NeverArrived)
            && t.passes[r].total == p.total + (if outcome == Acked then p.listing[p.next].shares else 0)
  {
  }

  /** Shares of a listing that have been credited. */
  function SharesPaid(payments: seq<Payment>, listing: seq<Position>): int
  {
    if |payments| == 0 then 0
    else
      var n := |payments| - 1;
      SharesPaid(payments[..n], listing)
      + if payments[n].row < |listing| then listing[payments[n].row].shares else 0
  }

  lemma SharesPaidPush(payments: seq<Payment>, x: Payment, listing: seq<Position>)
    ensures SharesPaid(payments + [x], listing)
            == SharesPaid(payments, listing) + if x.row < |listing| then listing[x.row].shares else 0
  {
    assert (payments + [x])[..|payments|] == payments;
  }

  /** Nothing is counted as paid, or recorded, that was not credited. */
  predicate TotalOk(p: Pass, payments: seq<Payment>, settlements: seq<Settlement>)
  {
    && (p.phase == Deciding || p.phase == Listing ==> p.total == 0)
    && (p.won ==> p.total <= SharesPaid(payments, p.listing))
    && (p.won && |settlements| == 1 ==> settlements[0].total <= SharesPaid(payments, p.listing))
  }

  predicate TotalsOk(w: Window)
  {
    forall r :: 0 <= r < |w.passes| ==> TotalOk(w.passes[r], w.payments, w.settlements)
  }

  lemma DecideKeepsTotals(w: Window, target: int, r: nat, outcome: Outcome)
    requires PayoutInv(w, target) && TotalsOk(w)
    ensures TotalsOk(ApplyDecide(w, r, outcome))
  {
    if InPhase(w, r, Deciding) {
      var t := ApplyDecide(w, r, outcome);
      assert PassOk(w.passes[r], w.market.positions) && TotalOk(w.passes[r], w.payments, w.settlements);
      if t.passes[r].won {
        NobodyHasWon(w, target);
      }
      forall q | 0 <= q < |t.passes| ensures TotalOk(t.passes[q], t.payments, t.settlements) {
        assert TotalOk(w.passes[q], w.payments, w.settlements);
      }
    }
  }

  lemma ListKeepsTotals(w: Window, target: int, r: nat)
    requires PayoutInv(w, target) && TotalsOk(w)
    ensures TotalsOk(ApplyList(w, r))
  {
    if InPhase(w, r, Listing) {
      var t := ApplyList(w, r);
      assert PassOk(w.passes[r], w.market.positions) && WonOk(w.passes[r], target, w);
      forall q | 0 <= q < |t.passes| ensures TotalOk(t.passes[q], t.payments, t.settlements) {
        assert TotalOk(w.passes[q], w.payments, w.settlements);
      }
    }
  }

  lemma VisitKeepsTotals(w: Window, target: int, r: nat, outcome: Outcome)
    requires PayoutInv(w, target) && TotalsOk(w)
    ensures TotalsOk(ApplyVisit(w, target, r, outcome))
  {
    if InPhase(w, r, Paying) && w.passes[r].next < |w.passes[r].listing| {
      var t := ApplyVisit(w, target, r, outcome);
      assert PassOk(w.passes[r], w.market.positions) && WonOk(w.passes[r], target, w);
      assert t.passes[r].total == w.passes[r].total;
      forall q | 0 <= q < |t.passes| ensures TotalOk(t.passes[q], t.payments, t.settlements) {
        assert TotalOk(w.passes[q], w.payments, w.settlements);
      }
    }
  }

  lemma CreditKeepsTotals(w: Window, target: int, r: nat, outcome: Outcome)
    requires PayoutInv(w, target) && TotalsOk(w)
    ensures TotalsOk(ApplyCredit(w, r, outcome))
  {
    if InPhase(w, r, Crediting) {
      var t := ApplyCredit(w, r, outcome);
      var p := w.passes[r];
      assert PassOk(p, w.market.positions) && WonOk(p, target, w);
      SharesPaidPush(w.payments, PaymentFor(p.listing, p.next), p.listing);
      forall q | 0 <= q < |t.passes| ensures TotalOk(t.passes[q], t.payments, t.settlements) {
        assert TotalOk(w.passes[q], w.payments, w.settlements);
        assert q != r ==> !w.passes[q].won;
      }
    }
  }

  lemma ConcludeKeepsTotals(w: Window, target: int, r: nat, outcome: Outcome)
    requires PayoutInv(w, target) && TotalsOk(w)
    ensures TotalsOk(ApplyConclude(w, target, r, outcome))
  {
    if InPhase(w, r, Paying) {
      var t := ApplyConclude(w, target, r, outcome);
      assert PassOk(w.passes[r], w.market.positions) && TotalOk(w.passes[r], w.payments, w.settlements);
      forall q | 0 <= q < |t.passes| ensures TotalOk(t.passes[q], t.payments, t.settlements) {
        assert TotalOk(w.passes[q], w.payments, w.settlements);
        assert q != r ==> !w.passes[q].won;
      }
    }
  }

  lemma StepKeepsTotals(w: Window, target: int, e: Step)
    requires PayoutInv(w, target) && TotalsOk(w)
    ensures TotalsOk(ApplyStep(w, target, e))
  {
    match e
    case Trade(_) =>
    case Start(_) =>
    case Decide(r, outcome) => DecideKeepsTotals(w, target, r, outcome);
    case List(r) => ListKeepsTotals(w, target, r);
    case Visit(r, outcome) => VisitKeepsTotals(w, target, r, outcome);
    case Credit(r, outcome) => CreditKeepsTotals(w, target, r, outcome);
    case Conclude(r, outcome) => ConcludeKeepsTotals(w, target, r, outcome);
    case Halt(_) =>
  }

  lemma {:induction false} RunsKeepTotals(target: int, es: seq<Step>)
    ensures TotalsOk(AfterSteps(OPENED, target, es))
  {
    if |es| > 0 {
      RunsKeepTotals(target, es[..|es| - 1]);
      RunsKeepPayout(target, es[..|es| - 1]);
      StepKeepsTotals(AfterSteps(OPENED, target, es[..|es| - 1]), target, es[|es| - 1]);
    }
  }

  /** Over every run, a settlement record never claims more shares paid than were credited. */
  lemma RecordedWasCredited(target: int, es: seq<Step>, r: nat)
    requires var w := AfterSteps(OPENED, target, es); r < |w.passes| && w.passes[r].won && |w.settlements| == 1
    ensures var w := AfterSteps(OPENED, target, es);
            w.settlements[0].total <= SharesPaid(w.payments, w.passes[r].listing)
  {
    RunsKeepTotals(target, es);
    var w := AfterSteps(OPENED, target, es);
    assert TotalOk(w.passes[r], w.payments, w.settlements);
  }

  // ---------------------------------------------------------------- an interrupted payout

  /** The window is resolved and no pass that flipped it is still at work. */
  predicate Abandoned(w: Window)
  {
    w.resolution.Resolved? && forall r :: 0 <= r < |w.passes| && w.passes[r].won ==> w.passes[r].phase == Over
  }

  /** Passes that could still pay anything are the ones that flipped the window. */
  predicate Idle(w: Window)
  {
    forall r :: 0 <= r < |w.passes| ==> w.passes[r].phase == Over || (w.passes[r].phase == Deciding && !w.passes[r].won)
  }

  lemma AbandonedIsIdle(w: Window, target: int)
    requires PayoutInv(w, target) && Abandoned(w)
    ensures Idle(w)
  {
    forall r | 0 <= r < |w.passes|
      ensures w.passes[r].phase == Over || (w.passes[r].phase == Deciding && !w.passes[r].won)
    {
      assert PassOk(w.passes[r], w.market.positions);
    }
  }

  lemma IdleStays(w: Window, target: int, e: Step)
    requires w.resolution.Resolved? && Idle(w)
    ensures var t := ApplyStep(w, target, e);
            && t.resolution == w.resolution && Idle(t)
            && t.payments == w.payments && t.paid == w.paid && t.settlements == w.settlements
  {
    match e
    case Decide(r, outcome) =>
      assert InPhase(w, r, Deciding)
             ==> ApplyDecide(w, r, outcome).passes == w.passes[r := w.passes[r].(won := false, phase := Over)];
    case Trade(_) =>
    case Start(_) =>
    case List(_) =>
    case Visit(_, _) =>
    case Credit(_, _) =>
    case Conclude(_, _) =>
    case Halt(_) =>
  }

  lemma {:induction false} IdleRuns(w: Window, target: int, es: seq<Step>)
    requires w.resolution.Resolved? && Idle(w)
    ensures var t := AfterSteps(w, target, es);
            && t.resolution == w.resolution && Idle(t)
            && t.payments == w.payments && t.paid == w.paid && t.settlements == w.settlements
  {
    if |es| > 0 {
      IdleRuns(w, target, es[..|es| - 1]);
      IdleStays(AfterSteps(w, target, es[..|es| - 1]), target, es[|es| - 1]);
    }
  }

  /**
   Nobody resumes an interrupted payout: once the window is resolved and the pass
   that resolved it is gone, whatever happens next, not one more position is
   marked or credited and no settlement record is written.
   */
  lemma NobodyResumes(target: int, es: seq<Step>, more: seq<Step>)
    requires Abandoned(AfterSteps(OPENED, target, es))
    ensures var w := AfterSteps(OPENED, target, es);
            var t := AfterSteps(w, target, more);
            t.payments == w.payments && t.paid == w.paid && t.settlements == w.settlements
  {
    RunsKeepPayout(target, es);
    AbandonedIsIdle(AfterSteps(OPENED, target, es), target);
    IdleRuns(AfterSteps(OPENED, target, es), target, more);
  }

  // ---------------------------------------------------------------- an undisturbed payout

  /** The payments of an undisturbed walk over the first n positions. */
  function PaymentsOf(ps: seq<Position>, winner: Side, n: nat): seq<Payment>
    requires n <= |ps|
  {
    if n == 0 then []
    else PaymentsOf(ps, winner, n - 1) + if Winning(ps[n - 1], winner) then [PaymentFor(ps, n - 1)] else []
  }

  function MarkedOf(ps: seq<Position>, winner: Side, n: nat): set<nat>
    requires n <= |ps|
  {
    if n == 0 then {}
    else MarkedOf(ps, winner, n - 1) + if Winning(ps[n - 1], winner) then {n - 1} else {}
  }

  function TotalOf(ps: seq<Position>, winner: Side, n: nat): int
    requires n <= |ps|
  {
    if n == 0 then 0
    else TotalOf(ps, winner, n - 1) + if Winning(ps[n - 1], winner) then ps[n - 1].shares else 0
  }

  lemma {:induction false} WalkCountsEveryShare(ps: seq<Position>, winner: Side, n: nat)
    requires n <= |ps|
    ensures TotalOf(ps, winner, n) == Sum(OwedEach(ps, winner)[..n])
  {
    if n > 0 {
      var xs := OwedEach(ps, winner);
      WalkCountsEveryShare(ps, winner, n - 1);
      assert xs[..n] == xs[..n - 1] + [xs[n - 1]];
      SumPush(xs[..n - 1], xs[n - 1]);
    }
  }

  lemma RowDue(ps: seq<Position>, winner: Side, i: nat)
    requires i < |ps|
    ensures RawEach(GrainEach(ps, winner))[i] == if Winning(ps[i], winner) then PaymentFor(ps, i).raw else 0
  {
    if Winning(ps[i], winner) {
      assert GrainEach(ps, winner)[i] == ShareGrains(ps[i].shares);
    } else {
      NothingIsNothing();
    }
  }

  lemma {:induction false} WalkPaysEveryWinner(ps: seq<Position>, winner: Side, n: nat)
    requires n <= |ps|
    ensures Sum(RawOf(PaymentsOf(ps, winner, n))) == Sum(RawEach(GrainEach(ps, winner))[..n])
  {
    if n > 0 {
      var ys := RawEach(GrainEach(ps, winner));
      var front := PaymentsOf(ps, winner, n - 1);
      WalkPaysEveryWinner(ps, winner, n - 1);
      RowDue(ps, winner, n - 1);
      assert ys[..n] == ys[..n - 1] + [ys[n - 1]];
      SumPush(ys[..n - 1], ys[n - 1]);
      if Winning(ps[n - 1], winner) {
        PaymentPush(front, PaymentFor(ps, n - 1));
      } else {
        assert front + [] == front;
      }
    }
  }

  /** The payment is due: to the row's owner, on the side that won, for the row's shares. */
  predicate Owes(ps: seq<Position>, price: int, target: int, x: Payment)
  {
    && x.row < |ps| && x.user == ps[x.row].user
    && (ps[x.row].side == Yes <==> price >= target)
    && ps[x.row].shares > 0
    && x.raw == ps[x.row].shares * 1_000_000_000 / 1_000_000_000_000_000_000_000
  }

  lemma PaymentIsOwed(ps: seq<Position>, price: int, target: int, i: nat)
    requires i < |ps| && Winning(ps[i], Winner(price, target))
    ensures Owes(ps, price, target, PaymentFor(ps, i)) && PaymentFor(ps, i).row == i
  {
    CreditIsRaw(ps[i].shares);
  }

  lemma WinningIs(p: Position, price: int, target: int)
    ensures Winning(p, Winner(price, target)) <==> p.shares > 0 && (p.side == Yes <==> price >= target)
  {
  }

  lemma TimesPaidPush(payments: seq<Payment>, x: Payment, row: nat)
    ensures TimesPaid(payments + [x], row) == TimesPaid(payments, row) + if x.row == row then 1 else 0
  {
    assert (payments + [x])[..|payments|] == payments;
  }

  lemma WalkPush(ps: seq<Position>, winner: Side, n: nat)
    requires 0 < n <= |ps|
    ensures PaymentsOf(ps, winner, n)
            == if Winning(ps[n - 1], winner) then PaymentsOf(ps, winner, n - 1) + [PaymentFor(ps, n - 1)]
               else PaymentsOf(ps, winner, n - 1)
  {
  }

  /** An undisturbed walk credits only what is due. */
  lemma {:induction false} WalkCreditsOnlyDue(ps: seq<Position>, price: int, target: int, n: nat)
    requires n <= |ps|
    ensures var xs := PaymentsOf(ps, Winner(price, target), n);
            forall k :: 0 <= k < |xs| ==> Owes(ps, price, target, xs[k])
  {
    if n > 0 {
      WalkCreditsOnlyDue(ps, price, target, n - 1);
      WalkPush(ps, Winner(price, target), n);
      if Winning(ps[n - 1], Winner(price, target)) {
        PaymentIsOwed(ps, price, target, n - 1);
      }
    }
  }

  /** And it credits each row once if it holds shares of the side that won, and otherwise not at all. */
  lemma {:induction false} WalkCreditsEachOnce(ps: seq<Position>, price: int, target: int, n: nat, i: nat)
    requires n <= |ps|
    ensures TimesPaid(PaymentsOf(ps, Winner(price, target), n), i)
            == if i < n && ps[i].shares > 0 && (ps[i].side == Yes <==> price >= target) then 1 else 0
  {
    if n > 0 {
      WalkCreditsEachOnce(ps, price, target, n - 1, i);
      WalkPush(ps, Winner(price, target), n);
      WinningIs(ps[n - 1], price, target);
      if Winning(ps[n - 1], Winner(price, target)) {
        TimesPaidPush(PaymentsOf(ps, Winner(price, target), n - 1), PaymentFor(ps, n - 1), i);
      }
    }
  }

  lemma PaymentPush(payments: seq<Payment>, x: Payment)
    ensures Sum(RawOf(payments + [x])) == Sum(RawOf(payments)) + x.raw
  {
    assert RawOf(payments + [x]) == RawOf(payments) + [x.raw];
    SumPush(RawOf(payments), x.raw);
  }

  /**
   What an undisturbed settlement pays for a side, and records as paid: every row
   above zero, and nothing for debts.
   */
  lemma UndisturbedPayout(ps: seq<Position>, winner: Side)
    ensures TotalOf(ps, winner, |ps|) == Owed(ps, winner) == TotalShares(ps, winner) + Debt(ps, winner)
    ensures Sum(RawOf(PaymentsOf(ps, winner, |ps|))) == RawPayout(ps, winner)
  {
    WalkCountsEveryShare(ps, winner, |ps|);
    WalkPaysEveryWinner(ps, winner, |ps|);
    HoldingsAreOwedLessDebt(ps, winner);
    assert OwedEach(ps, winner)[..|ps|] == OwedEach(ps, winner);
    assert RawEach(GrainEach(ps, winner))[..|ps|] == RawEach(GrainEach(ps, winner));
  }

  /** The total a settlement records, undisturbed. */
  function RecordedTotal(s: State, winner: Side): int
  {
    TotalOf(s.positions, winner, |s.positions|)
  }

  /**
   After any run of the money path the recorded total is the sum of the recorded
   fills less what was netted away, plus the debts of the winning side; at rest, with
   every match written once, the fills are the matches.  So it does not depend on who
   wins exactly when both sides are equally in debt, as they are when nobody is.
   */
  lemma TotalPaidIsOutcomeIndependentIff(s: State, winner: Side)
    requires Reachable(s)
    ensures FillsOk(s.fills, s.matches)
    ensures RecordedTotal(s, winner)
            == FillTotal(s.fills, s.matches) - NettedTotal(s.nettings) + Debt(s.positions, winner)
    ensures s.pending == {} && OnceEach(s) ==>
              RecordedTotal(s, winner) == TotalMatched(s.matches) - NettedTotal(s.nettings) + Debt(s.positions, winner)
    ensures RecordedTotal(s, Yes) == RecordedTotal(s, No) <==> Debt(s.positions, Yes) == Debt(s.positions, No)
    ensures (forall u :: CoveredReachable(s, u))
            ==> Debt(s.positions, winner) == 0 && RecordedTotal(s, Yes) == RecordedTotal(s, No)
  {
    BothSidesHoldTheSame(s);
    UndisturbedPayout(s.positions, Yes);
    UndisturbedPayout(s.positions, No);
    HoldingsAreOwedLessDebt(s.positions, Yes);
    HoldingsAreOwedLessDebt(s.positions, No);
    if s.pending == {} && OnceEach(s) {
      EachWrittenOnceTotals(s);
    }
  }

  // ---------------------------------------------------------------- paid from the pool

  /** By how much a pool with n recorded fills may fall short of paying a side. */
  function Shortfall(s: State, winner: Side): int
  {
    (if |s.fills| == 0 then 0 else 2 * |s.fills| - 1) + RawDebt(s.positions, winner)
  }

  /**
   Winners are paid from the matched funds: in every state with no match written
   twice, whatever is still pending, an undisturbed payout costs at most 2n - 1 raw
   units more than the pool holds, for n recorded fills, whichever side wins, plus
   the debts of that side.
   */
  lemma PayoutComesFromThePool(s: State, winner: Side)
    requires Reachable(s) && OnceEach(s)
    ensures KeysOk(s.log, s.matches)
    ensures Sum(RawOf(PaymentsOf(s.positions, winner, |s.positions|))) <= RawPool(s) + Shortfall(s, winner)
  {
    UndisturbedPayout(s.positions, winner);
    RawShortfallBound(s, winner);
  }

  lemma ListingChanges(w: Window, target: int, e: Step, r: nat)
    requires r < |ApplyStep(w, target, e).passes|
    ensures var t := ApplyStep(w, target, e);
            || t.passes[r].listing == []
            || t.passes[r].listing == w.market.positions
            || (r < |w.passes| && t.passes[r].listing == w.passes[r].listing)
  {
  }

  /** What a pass works from is the position table as it stood at some moment of the run. */
  lemma {:induction false} ListingWasTheTable(target: int, es: seq<Step>, r: nat) returns (k: nat)
    requires r < |AfterSteps(OPENED, target, es).passes|
    ensures k <= |es|
    ensures AfterSteps(OPENED, target, es).passes[r].listing
            == AfterSteps(OPENED, target, es[..k]).market.positions
  {
    var n := |es| - 1;
    var w, listing := AfterSteps(OPENED, target, es[..n]), AfterSteps(OPENED, target, es).passes[r].listing;
    ListingChanges(w, target, es[n], r);
    k := n;
    if listing == [] {
      k := 0;
      assert es[..0] == [];
    } else if listing != w.market.positions {
      k := ListingWasTheTable(target, es[..n], r);
      assert es[..n][..k] == es[..k];
    }
  }

  /**
   Over every run, whatever the passes and the trading underneath do: at the moment
   the settling pass listed the positions, the pool held all it ever credits, to
   within the shortfall of that moment.
   */
  lemma CreditsComeFromThePool(target: int, es: seq<Step>, r: nat) returns (k: nat)
    requires var w := AfterSteps(OPENED, target, es); r < |w.passes| && w.passes[r].won
    ensures k <= |es|
    ensures var w, s := AfterSteps(OPENED, target, es), AfterSteps(OPENED, target, es[..k]).market;
            && Reachable(s) && KeysOk(s.log, s.matches) && w.passes[r].listing == s.positions
            && (OnceEach(s) ==> Sum(RawOf(w.payments)) <= RawPool(s) + Shortfall(s, Winner(w.passes[r].price, target)))
  {
    k := ListingWasTheTable(target, es, r);
    var s := AfterSteps(OPENED, target, es[..k]).market;
    MarketIsReachable(target, es[..k]);
    ReachableInv(s);
    NeverMoreThanListed(target, es, r);
    if OnceEach(s) {
      RawShortfallBound(s, Winner(AfterSteps(OPENED, target, es).passes[r].price, target));
    }
  }
}
