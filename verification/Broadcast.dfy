/**
 What the live feed says about the rounds.  It is read from a cache that mirrors
 each stream's last reported round for two minutes; the cache is written after a
 reveal, a lock, a settlement and a start, and any of those writes may be lost.
 */
module Broadcast {
  import opened Types
  import opened Commitment
  import R = Rounds

  const TTL := 120_000

  /** A cached round; targets are in 1e-22, and `writtenAt` stands for the expiry the store keeps. */
  datatype Entry = Entry(id: nat, status: R.Status, target: int, end: int, writtenAt: int)

  type Cache = map<R.Stream, Entry>

  datatype State = State(base: R.State, cache: Cache)

  /** One step of the manager, and whether the cache write that goes with it, if any, takes effect. */
  datatype Event = Event(step: R.Event, cached: bool)

  /** The target a table row shows. */
  function ColumnTarget(r: R.Round): int
  {
    if r.shown.Hidden? then 0 else r.shown.target * BPS
  }

  function EntryOf(id: nat, r: R.Round, target: int, now: int): Entry
  {
    Entry(id, r.status, target, r.end, now)
  }

  /** The newest round of a stream that is not settled, or the table length. */
  function Active(rounds: seq<R.Round>, stream: R.Stream): (k: nat)
    ensures k <= |rounds|
    ensures k < |rounds| ==> rounds[k].stream == stream && rounds[k].status != R.Settled
    ensures k == |rounds| <==> R.AllSettled(rounds, stream)
  {
    if |rounds| == 0 then 0
    else
      var n := |rounds| - 1;
      if rounds[n].stream == stream && rounds[n].status != R.Settled then n
      else
        var k := Active(rounds[..n], stream);
        assert forall i :: 0 <= i < n ==> rounds[..n][i] == rounds[i];
        if k == n then |rounds| else k
  }

  /** The cache after a step: which row is reported, if the step heard of its own success. */
  function Refreshed(s: State, e: R.Event): Cache
  {
    var t := R.Apply(s.base, e);
    match e
    case Advance(_) => s.cache
    case Ensure(stream, _, _) =>
      var k := Active(s.base.rounds, stream);
      if k < |s.base.rounds| then
        s.cache[stream := EntryOf(k, s.base.rounds[k], ColumnTarget(s.base.rounds[k]), s.base.clock)]
      else s.cache
    case Open(i, feed, outcome) =>
      if i < |s.base.rounds| && R.DueToOpen(s.base.rounds[i], feed, s.base.clock) && outcome == Acked then
        var target := ExactTarget(R.Read(feed).price, s.base.rounds[i].offset);
        s.cache[t.rounds[i].stream := EntryOf(i, t.rounds[i], target, s.base.clock)]
      else s.cache
    case Roll(i, locked, _, _, _) =>
      if i < |s.base.rounds| && R.DueToLock(s.base.rounds[i], s.base.clock) && locked == Acked then
        s.cache[t.rounds[i].stream := EntryOf(i, t.rounds[i], ColumnTarget(t.rounds[i]), s.base.clock)]
      else s.cache
    case Settle(i, feed, outcome) =>
      if i < |s.base.rounds| && R.DueToSettle(s.base.rounds[i], feed, s.base.clock) && outcome == Acked then
        s.cache[t.rounds[i].stream := EntryOf(i, t.rounds[i], ColumnTarget(t.rounds[i]), s.base.clock)]
      else s.cache
  }

  function Apply(s: State, e: Event): State
  {
    State(R.Apply(s.base, e.step), if e.cached then Refreshed(s, e.step) else s.cache)
  }

  function After(s: State, es: seq<Event>): State
  {
    if |es| == 0 then s else Apply(After(s, es[..|es| - 1]), es[|es| - 1])
  }

  lemma AfterPush(s: State, es: seq<Event>, e: Event)
    ensures After(s, es + [e]) == Apply(After(s, es), e)
  {
    assert (es + [e])[..|es|] == es;
  }

  lemma {:induction false} AfterConcat(s: State, a: seq<Event>, b: seq<Event>)
    ensures After(s, a + b) == After(After(s, a), b)
  {
    if |b| == 0 {
      assert a + b == a;
    } else {
      AfterConcat(s, a, b[..|b| - 1]);
      assert (a + b)[..|a + b| - 1] == a + b[..|b| - 1];
    }
  }

  /** A stream is announced while its entry is alive and says the round is trading. */
  predicate Announced(s: State, stream: R.Stream)
  {
    stream in s.cache && s.base.clock < s.cache[stream].writtenAt + TTL && s.cache[stream].status == R.Trading
  }

  // ---------------------------------------------------------------- soundness

  /** The target is the exact one, or the one the table stores. */
  predicate TargetOf(target: int, r: R.Round)
  {
    r.shown.Revealed? && (target == ExactTarget(r.shown.opening, r.offset) || target == r.shown.target * BPS)
  }

  /** An entry that says a round is trading: it was when the entry was written, and any lock came later. */
  predicate EntryOk(x: Entry, stream: R.Stream, s: R.State)
  {
    && x.writtenAt <= s.clock
    && (x.status == R.Trading ==>
          && x.id < |s.rounds|
          && s.rounds[x.id].stream == stream && s.rounds[x.id].end == x.end
          && TargetOf(x.target, s.rounds[x.id])
          && s.rounds[x.id].status != R.Committed
          && (s.rounds[x.id].status != R.Trading ==> x.writtenAt <= s.rounds[x.id].lockedAt <= s.clock))
  }

  predicate CacheInv(s: State)
  {
    R.Inv(s.base) && forall x :: x in s.cache ==> EntryOk(s.cache[x], x, s.base)
  }

  /** An entry that reports a row as it is now. */
  predicate Current(x: Entry, stream: R.Stream, s: R.State)
  {
    && x.id < |s.rounds| && x.writtenAt == s.clock
    && s.rounds[x.id].stream == stream && s.rounds[x.id].status == x.status && s.rounds[x.id].end == x.end
    && (x.status == R.Trading ==> TargetOf(x.target, s.rounds[x.id]))
  }

  /** A cache write reports a row as it is after the step, and touches that row's stream only. */
  lemma RefreshIsCurrent(s: State, e: R.Event, stream: R.Stream)
    requires R.Inv(s.base) && stream in Refreshed(s, e)
    ensures (stream in s.cache && Refreshed(s, e)[stream] == s.cache[stream])
            || Current(Refreshed(s, e)[stream], stream, R.Apply(s.base, e))
  {
    match e
    case Advance(_) =>
    case Ensure(x, _, _) =>
      var k := Active(s.base.rounds, x);
      assert k < |s.base.rounds| ==> R.RoundOk(s.base.rounds[k], s.base.clock);
    case Open(i, _, _) =>
    case Roll(i, _, _, _, _) =>
    case Settle(i, _, _) =>
  }

  lemma EntryStaysOk(x: Entry, stream: R.Stream, s: R.State, e: R.Event)
    requires R.Inv(s) && EntryOk(x, stream, s)
    ensures EntryOk(x, stream, R.Apply(s, e))
  {
    if x.status == R.Trading {
      assert R.RoundOk(s.rounds[x.id], s.clock);
    }
  }

  lemma StepKeepsCache(s: State, e: Event)
    requires CacheInv(s)
    ensures CacheInv(Apply(s, e))
  {
    var t := Apply(s, e);
    R.EventKeepsInv(s.base, e.step);
    forall x | x in t.cache ensures EntryOk(t.cache[x], x, t.base) {
      if x in s.cache {
        EntryStaysOk(s.cache[x], x, s.base, e.step);
      }
      if e.cached {
        RefreshIsCurrent(s, e.step, x);
      }
    }
  }

  lemma {:induction false} RunsKeepCache(now: int, es: seq<Event>)
    ensures CacheInv(After(State(R.State([], now), map[]), es))
  {
    if |es| > 0 {
      RunsKeepCache(now, es[..|es| - 1]);
      StepKeepsCache(After(State(R.State([], now), map[]), es[..|es| - 1]), es[|es| - 1]);
    }
  }

  /**
   Whatever was lost: an announced round exists and belongs to the stream, its
   target and end are right, and if it is no longer trading it stopped less than
   the two minutes of the entry's life ago.
   */
  lemma AnnouncementsAreRecent(now: int, es: seq<Event>, stream: R.Stream)
    ensures var s := After(State(R.State([], now), map[]), es);
            Announced(s, stream) ==>
              var x := s.cache[stream];
              && x.id < |s.base.rounds|
              && var r := s.base.rounds[x.id];
                 && r.stream == stream && r.end == x.end && TargetOf(x.target, r)
                 && (r.status == R.Trading || s.base.clock - 120_000 < r.lockedAt <= s.base.clock)
  {
    RunsKeepCache(now, es);
    var s := After(State(R.State([], now), map[]), es);
    if stream in s.cache {
      assert EntryOk(s.cache[stream], stream, s.base);
    }
  }

  /** An announced target is within half of the last stored digit of the exact one. */
  lemma AnnouncedTargetIsClose(target: int, r: R.Round, clock: int)
    requires R.RoundOk(r, clock) && TargetOf(target, r)
    ensures -(BPS / 2) <= target - ExactTarget(r.shown.opening, r.offset) <= BPS / 2
    ensures (r.shown.opening * r.offset) % BPS == 0 ==> target == ExactTarget(r.shown.opening, r.offset)
  {
    StoredTargetIsExactIff(r.shown.opening, r.offset);
  }

  // ---------------------------------------------------------------- no lost lock

  /** A lock that takes effect is heard of, and reported to the cache. */
  predicate Reports(s: State, e: Event)
  {
    && e.step.Roll? && e.step.id < |s.base.rounds|
    && R.DueToLock(s.base.rounds[e.step.id], s.base.clock) && e.step.locked != NeverArrived
    ==> e.step.locked == Acked && e.cached
  }

  predicate ReportingRun(s: State, es: seq<Event>)
  {
    |es| == 0 || (ReportingRun(s, es[..|es| - 1]) && Reports(After(s, es[..|es| - 1]), es[|es| - 1]))
  }

  predicate Truthful(s: State)
  {
    forall x :: x in s.cache && s.cache[x].status == R.Trading && s.cache[x].id < |s.base.rounds|
                ==> s.base.rounds[s.cache[x].id].status == R.Trading
  }

  /** A trading round stops trading by a roll-over of its own, and by nothing else. */
  lemma OnlyRollsStopTrading(s: R.State, e: R.Event, i: nat)
    requires i < |s.rounds| && s.rounds[i].status == R.Trading
    ensures i < |R.Apply(s, e).rounds|
    ensures R.Apply(s, e).rounds[i].status != R.Trading
            ==> e.Roll? && e.id == i && R.DueToLock(s.rounds[i], s.clock) && e.locked != NeverArrived
  {
  }

  lemma ReportReplacesEntry(s: State, e: Event, i: nat)
    requires i < |s.base.rounds| && e.cached
    requires e.step.Roll? && e.step.id == i && R.DueToLock(s.base.rounds[i], s.base.clock) && e.step.locked == Acked
    ensures var t := Apply(s, e);
            s.base.rounds[i].stream in t.cache && t.cache[s.base.rounds[i].stream].status == R.Locked
  {
  }

  lemma StepStaysTruthful(s: State, e: Event)
    requires CacheInv(s) && Truthful(s) && Reports(s, e)
    ensures Truthful(Apply(s, e))
  {
    var t := Apply(s, e);
    forall x | x in t.cache && t.cache[x].status == R.Trading && t.cache[x].id < |t.base.rounds|
      ensures t.base.rounds[t.cache[x].id].status == R.Trading
    {
      if e.cached {
        RefreshIsCurrent(s, e.step, x);
      }
      if x in s.cache && t.cache[x] == s.cache[x] {
        assert EntryOk(s.cache[x], x, s.base);
        var i := s.cache[x].id;
        OnlyRollsStopTrading(s.base, e.step, i);
        if t.base.rounds[i].status != R.Trading {
          ReportReplacesEntry(s, e, i);
        }
      }
    }
  }

  /** When no lock goes unreported, every announced round is trading in the table at that moment. */
  lemma {:induction false} ReportedLocksMakeTruthfulFeeds(now: int, es: seq<Event>, stream: R.Stream)
    requires ReportingRun(State(R.State([], now), map[]), es)
    ensures var s := After(State(R.State([], now), map[]), es);
            Truthful(s)
            && (Announced(s, stream) ==>
                  s.cache[stream].id < |s.base.rounds| && s.base.rounds[s.cache[stream].id].status == R.Trading)
  {
    RunsKeepCache(now, es);
    var s := After(State(R.State([], now), map[]), es);
    if stream in s.cache {
      assert EntryOk(s.cache[stream], stream, s.base);
    }
    if |es| > 0 {
      ReportedLocksMakeTruthfulFeeds(now, es[..|es| - 1], stream);
      RunsKeepCache(now, es[..|es| - 1]);
      StepStaysTruthful(After(State(R.State([], now), map[]), es[..|es| - 1]), es[|es| - 1]);
    }
  }

  /** And that is exact: a lock of the announced round silences the stream if and only if it is reported. */
  lemma LockSilencesIff(s: State, i: nat, locked: Outcome, goesOn: bool, draw: Draw, created: Outcome, cached: bool)
    requires CacheInv(s) && i < |s.base.rounds| && R.DueToLock(s.base.rounds[i], s.base.clock) && locked != NeverArrived
    requires Announced(s, s.base.rounds[i].stream) && s.cache[s.base.rounds[i].stream].id == i
    ensures !Announced(Apply(s, Event(R.Roll(i, locked, goesOn, draw, created), cached)), s.base.rounds[i].stream)
            <==> locked == Acked && cached
  {
  }

  /**
   A late settlement of round i silences its stream while round j trades: once it is
   acknowledged and reported its entry is the stream's, and if j was announced before,
   that is the only way it can silence j.
   */
  lemma LateSettlementHidesTheNextRound(s: State, i: nat, j: nat, feed: R.Feed, outcome: Outcome, cached: bool)
    requires CacheInv(s) && i < |s.base.rounds| && R.DueToSettle(s.base.rounds[i], feed, s.base.clock)
    requires j < |s.base.rounds| && s.base.rounds[j].status == R.Trading
    requires s.base.rounds[j].stream == s.base.rounds[i].stream
    ensures var stream := s.base.rounds[j].stream;
            var t := Apply(s, Event(R.Settle(i, feed, outcome), cached));
            && t.base.rounds[j].status == R.Trading
            && (outcome == Acked && cached ==> !Announced(t, stream))
            && (Announced(s, stream) && s.cache[stream].id == j ==>
                  (!Announced(t, stream) <==> outcome == Acked && cached))
  {
  }

  /** A trading round is announced, under its own id. */
  predicate Shown(s: State, j: nat)
  {
    && j < |s.base.rounds| && s.base.rounds[j].status == R.Trading
    && Announced(s, s.base.rounds[j].stream) && s.cache[s.base.rounds[j].stream].id == j
  }

  /**
   What can silence it: its entry expires, its own lock is reported, or the settlement
   of an earlier round of its stream is.
   */
  predicate Silences(s: State, e: Event, j: nat)
    requires Shown(s, j)
  {
    var stream := s.base.rounds[j].stream;
    match e.step
    case Advance(elapsed) => s.base.clock + elapsed >= s.cache[stream].writtenAt + 120_000
    case Ensure(_, _, _) => false
    case Open(_, _, _) => false
    case Roll(i, locked, _, _, _) =>
      e.cached && i == j && R.DueToLock(s.base.rounds[j], s.base.clock) && locked == Acked
    case Settle(i, feed, outcome) =>
      && e.cached && outcome == Acked && i < |s.base.rounds| && s.base.rounds[i].stream == stream
      && R.DueToSettle(s.base.rounds[i], feed, s.base.clock)
  }

  /** A start reports the round that trades. */
  lemma TradingIsActive(rounds: seq<R.Round>, clock: int, j: nat)
    requires R.Inv(R.State(rounds, clock)) && j < |rounds| && rounds[j].status == R.Trading
    ensures Active(rounds, rounds[j].stream) == j
  {
    assert R.Live(rounds[j]);
    assert !R.AllSettled(rounds, rounds[j].stream);
    NewestUnsettled(rounds, rounds[j].stream, j);
  }

  lemma {:induction false} NewestUnsettled(rounds: seq<R.Round>, stream: R.Stream, j: nat)
    requires j < |rounds| && rounds[j].stream == stream && rounds[j].status != R.Settled
    requires forall i :: j < i < |rounds| ==> rounds[i].stream != stream
    ensures Active(rounds, stream) == j
  {
    var n := |rounds| - 1;
    if j < n {
      NewestUnsettled(rounds[..n], stream, j);
    }
  }

  /** Exactly those: any other step leaves an announced trading round announced. */
  lemma SilencedIff(s: State, e: Event, j: nat)
    requires CacheInv(s) && Shown(s, j)
    ensures !Announced(Apply(s, e), s.base.rounds[j].stream) <==> Silences(s, e, j)
  {
    match e.step
    case Advance(_) =>
    case Ensure(x, _, _) => TradingIsActive(s.base.rounds, s.base.clock, j);
    case Open(i, _, _) =>
    case Roll(i, _, _, _, _) =>
    case Settle(i, _, _) =>
  }

  // ---------------------------------------------------------------- a run that hides the next round

  const STREAM := R.Stream(R.BTC, FiveMinutes)
  const DRAW := Draw(0, 1, "salt")
  const FRESH := R.Quote(50_000_000_000_000_000_000_000, 0, 0)

  const ROUND := R.NewRound(STREAM, 0, 0, DRAW)
  const NEXT := R.NewRound(STREAM, 300_000, 300_000, DRAW)

  /** The price service is silent for one tick after the lock, which is all that makes the settlement late. */
  const RUN: seq<R.Event> := [
    R.Ensure(STREAM, DRAW, Acked), R.Open(0, FRESH, Acked), R.Advance(300_000),
    R.Roll(0, Acked, true, DRAW, Acked), R.Settle(0, R.NoQuote, Acked), R.Advance(1_000),
    R.Open(1, FRESH, Acked), R.Settle(0, FRESH, Acked)]

  /** The first n steps, each with its cache write taking effect. */
  function Reported(n: nat): (es: seq<Event>)
    requires n <= |RUN|
    ensures |es| == n && forall k :: 0 <= k < n ==> es[k] == Event(RUN[k], true)
  {
    seq(n, k requires 0 <= k < n => Event(RUN[k], true))
  }

  const NOTHING := State(R.State([], 0), map[])
  const OPENED := R.OpenedWith(ROUND, FRESH)
  const LOCKED := R.LockedAt(OPENED, 300_000)
  const FIRST_ENTRY := EntryOf(0, OPENED, ExactTarget(FRESH.price, ROUND.offset), 0)
  const LOCK_ENTRY := EntryOf(0, LOCKED, ColumnTarget(LOCKED), 300_000)
  const NEXT_OPENED := R.OpenedWith(NEXT, FRESH)
  const NEXT_ENTRY := EntryOf(1, NEXT_OPENED, ExactTarget(FRESH.price, NEXT.offset), 301_000)

  /** The tables and the cache once the next round is open and announced. */
  const NEXT_SHOWN := State(R.State([LOCKED, NEXT_OPENED], 301_000), map[STREAM := NEXT_ENTRY])

  lemma OneMore(n: nat, s: State)
    requires n < |RUN| && s == After(NOTHING, Reported(n))
    ensures After(NOTHING, Reported(n + 1)) == Apply(s, Event(RUN[n], true))
  {
    assert Reported(n + 1) == Reported(n) + [Event(RUN[n], true)];
    AfterPush(NOTHING, Reported(n), Event(RUN[n], true));
  }

  lemma FirstOpens()
    ensures After(NOTHING, Reported(2)) == State(R.State([OPENED], 0), map[STREAM := FIRST_ENTRY])
  {
    var committed := State(R.State([ROUND], 0), map[]);
    assert After(NOTHING, Reported(0)) == NOTHING;
    OneMore(0, NOTHING);
    assert Apply(NOTHING, Event(RUN[0], true)) == committed;
    OneMore(1, committed);
  }

  lemma RollStep()
    ensures R.Apply(R.State([OPENED], 300_000), RUN[3]) == R.State([LOCKED, NEXT], 300_000)
  {
    assert [OPENED][0 := LOCKED] == [LOCKED];
    assert [LOCKED] + [NEXT] == [LOCKED, NEXT];
  }

  lemma LockStep(s: State)
    requires s == State(R.State([OPENED], 0), map[STREAM := FIRST_ENTRY])
    ensures Apply(Apply(s, Event(RUN[2], true)), Event(RUN[3], true))
            == State(R.State([LOCKED, NEXT], 300_000), map[STREAM := LOCK_ENTRY])
  {
    assert Apply(s, Event(RUN[2], true)) == State(R.State([OPENED], 300_000), map[STREAM := FIRST_ENTRY]);
    RollStep();
  }

  lemma FirstLocks()
    ensures After(NOTHING, Reported(4)) == State(R.State([LOCKED, NEXT], 300_000), map[STREAM := LOCK_ENTRY])
  {
    var s := State(R.State([OPENED], 0), map[STREAM := FIRST_ENTRY]);
    FirstOpens();
    LockStep(s);
    OneMore(2, s);
    OneMore(3, Apply(s, Event(RUN[2], true)));
  }

  lemma OpenStep()
    ensures R.Apply(R.State([LOCKED, NEXT], 301_000), RUN[6]) == R.State([LOCKED, NEXT_OPENED], 301_000)
  {
    assert [LOCKED, NEXT][1 := NEXT_OPENED] == [LOCKED, NEXT_OPENED];
  }

  lemma WaitForPrice(locked: State)
    requires locked == State(R.State([LOCKED, NEXT], 300_000), map[STREAM := LOCK_ENTRY])
    ensures Apply(Apply(locked, Event(RUN[4], true)), Event(RUN[5], true))
            == State(R.State([LOCKED, NEXT], 301_000), map[STREAM := LOCK_ENTRY])
  {
    assert Apply(locked, Event(RUN[4], true)) == locked;
  }

  lemma NextOpens()
    ensures After(NOTHING, Reported(7)) == NEXT_SHOWN
  {
    var locked := State(R.State([LOCKED, NEXT], 300_000), map[STREAM := LOCK_ENTRY]);
    FirstLocks();
    WaitForPrice(locked);
    OneMore(4, locked);
    OneMore(5, Apply(locked, Event(RUN[4], true)));
    OpenStep();
    OneMore(6, State(R.State([LOCKED, NEXT], 301_000), map[STREAM := LOCK_ENTRY]));
  }

  /**
   A run in which every statement and every cache write takes effect, and whose next
   round is announced until the settlement of the first one silences it.
   */
  lemma FaultFreeRunHidesTheNextRound()
    ensures Shown(After(NOTHING, Reported(7)), 1)
    ensures var t := After(NOTHING, Reported(8));
            |t.base.rounds| == 2 && t.base.rounds[1].status == R.Trading && !Announced(t, t.base.rounds[1].stream)
  {
    NextOpens();
    OneMore(7, NEXT_SHOWN);
    RunsKeepCache(0, Reported(7));
    SilencedIff(NEXT_SHOWN, Event(RUN[7], true), 1);
  }
}
