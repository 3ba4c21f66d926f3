/**
 The round lifecycle.  Six streams, one for each asset and duration, share one
 table of rounds; ids are places in the table.  A single manager reveals, locks,
 rolls over and settles rounds against the clock, and any of its statements may
 fail, take effect without a reply, or be followed by a crash and a restart.
 */
module Rounds {
  import opened Types
  import opened Commitment

  datatype Asset = BTC | ETH | SOL

  datatype Stream = Stream(asset: Asset, duration: Duration)

  datatype Status = Committed | Trading | Locked | Settled

  datatype Reveal = Hidden | Revealed(opening: int, target: int)

  /** A row of prediction_windows; times are milliseconds, `lockedAt` is when the lock took effect. */
  datatype Round = Round(stream: Stream, status: Status, committedAt: int, start: int, end: int,
                         offset: int, salt: string, sealed: string, shown: Reveal, lockedAt: int)

  const REVEAL_GRACE := 5_000
  const SETTLE_DEADLINE := 120_000

  function Length(d: Duration): int
  {
    match d
    case FiveMinutes => 300_000
    case FifteenMinutes => 900_000
  }

  /** The price service's entry for an asset, and how old it may be; an age not set means five seconds. */
  datatype Feed = NoQuote | Quote(price: int, age: int, maxAge: int)

  datatype Snapshot = Snapshot(price: int, recent: bool)

  const DEFAULT_MAX_AGE := 5_000

  /** An entry is fresh if its price is positive and it is no older than allowed; one from the future is not old. */
  function Read(feed: Feed): (s: Snapshot)
    ensures s.price > 0 <==> feed.Quote? && feed.price > 0
    ensures s.recent <==> s.price > 0 && (feed.age <= feed.maxAge || (feed.maxAge <= 0 && feed.age <= DEFAULT_MAX_AGE))
  {
    if feed.NoQuote? || feed.price <= 0 then Snapshot(0, false)
    else
      var age := if feed.age < 0 then 0 else feed.age;
      var maxAge := if feed.maxAge <= 0 then DEFAULT_MAX_AGE else feed.maxAge;
      Snapshot(feed.price, age <= maxAge)
  }

  /** A stale price will do once the grace period is over, no price never. */
  predicate Usable(feed: Feed, waited: int, patience: int)
  {
    Read(feed).recent || (waited >= patience && Read(feed).price > 0)
  }

  datatype State = State(rounds: seq<Round>, clock: int)

  datatype Event =
    | Advance(elapsed: nat)
    | Ensure(stream: Stream, draw: Draw, outcome: Outcome)
    | Open(id: nat, feed: Feed, outcome: Outcome)
    | Roll(id: nat, locked: Outcome, goesOn: bool, draw: Draw, created: Outcome)
    | Settle(id: nat, feed: Feed, outcome: Outcome)

  predicate Live(r: Round)
  {
    r.status == Committed || r.status == Trading
  }

  function NewRound(stream: Stream, now: int, start: int, draw: Draw): Round
  {
    var offset := OffsetOf(stream.duration, draw);
    Round(stream, Committed, now, start, start + Length(stream.duration),
          offset, draw.salt, PreImage(offset, draw.salt), Hidden, 0)
  }

  /** Creating a round: the draw must succeed, and the insert take effect. */
  function Create(rounds: seq<Round>, stream: Stream, now: int, start: int, draw: Draw, outcome: Outcome): seq<Round>
  {
    if Drawn(stream.duration, draw) && outcome != NeverArrived then rounds + [NewRound(stream, now, start, draw)]
    else rounds
  }

  predicate AllSettled(rounds: seq<Round>, stream: Stream)
  {
    forall i :: 0 <= i < |rounds| && rounds[i].stream == stream ==> rounds[i].status == Settled
  }

  predicate DueToOpen(r: Round, feed: Feed, now: int)
  {
    r.status == Committed && r.start <= now && Usable(feed, now - r.committedAt, REVEAL_GRACE)
  }

  function OpenedWith(r: Round, feed: Feed): Round
  {
    var price := Read(feed).price;
    r.(status := Trading, shown := Revealed(price, StoredTarget(price, r.offset)))
  }

  predicate DueToLock(r: Round, now: int)
  {
    r.status == Trading && r.end <= now
  }

  function LockedAt(r: Round, now: int): Round
  {
    r.(status := Locked, lockedAt := now)
  }

  predicate DueToSettle(r: Round, feed: Feed, now: int)
  {
    r.status == Locked && Usable(feed, now - r.end, SETTLE_DEADLINE)
  }

  /** Locking a round and, if nothing fails on the way, committing its successor from its end. */
  function ApplyRoll(s: State, i: nat, locked: Outcome, goesOn: bool, draw: Draw, created: Outcome): State
  {
    if i < |s.rounds| && DueToLock(s.rounds[i], s.clock) && locked != NeverArrived then
      var r := s.rounds[i];
      var rounds := s.rounds[i := LockedAt(r, s.clock)];
      s.(rounds := if locked == Acked && goesOn then Create(rounds, r.stream, s.clock, r.end, draw, created)
                   else rounds)
    else s
  }

  function ApplyOpen(s: State, i: nat, feed: Feed, outcome: Outcome): State
  {
    if i < |s.rounds| && DueToOpen(s.rounds[i], feed, s.clock) && outcome != NeverArrived
    then s.(rounds := s.rounds[i := OpenedWith(s.rounds[i], feed)]) else s
  }

  function ApplySettle(s: State, i: nat, feed: Feed, outcome: Outcome): State
  {
    if i < |s.rounds| && DueToSettle(s.rounds[i], feed, s.clock) && outcome != NeverArrived
    then s.(rounds := s.rounds[i := s.rounds[i].(status := Settled)]) else s
  }

  function Apply(s: State, e: Event): State
  {
    match e
    case Advance(elapsed) => s.(clock := s.clock + elapsed)
    case Ensure(stream, draw, outcome) =>
      if AllSettled(s.rounds, stream) then s.(rounds := Create(s.rounds, stream, s.clock, s.clock, draw, outcome))
      else s
    case Open(i, feed, outcome) => ApplyOpen(s, i, feed, outcome)
    case Roll(i, locked, goesOn, draw, created) => ApplyRoll(s, i, locked, goesOn, draw, created)
    case Settle(i, feed, outcome) => ApplySettle(s, i, feed, outcome)
  }

  function After(s: State, es: seq<Event>): State
  {
    if |es| == 0 then s else Apply(After(s, es[..|es| - 1]), es[|es| - 1])
  }

  /** An entry no older than allowed, or than five seconds if nothing is set, with a price. */
  predicate FreshQuote(feed: Feed)
  {
    feed.Quote? && feed.price > 0 && (feed.age <= feed.maxAge || (feed.maxAge <= 0 && feed.age <= 5_000))
  }

  /**
   A committed round opens exactly when its start has come, the statement takes effect,
   and the price is fresh or, five seconds after the commit, at least there; it opens
   at that price.
   */
  lemma OpensIff(s: State, i: nat, feed: Feed, outcome: Outcome)
    requires i < |s.rounds| && s.rounds[i].status == Committed
    ensures var r, t := s.rounds[i], Apply(s, Event.Open(i, feed, outcome)).rounds[i];
            && (t.status == Trading <==>
                  && r.start <= s.clock && outcome != NeverArrived
                  && (FreshQuote(feed) || (s.clock - r.committedAt >= 5_000 && feed.Quote? && feed.price > 0)))
            && (t.status == Trading ==> t.shown == Revealed(feed.price, StoredTarget(feed.price, r.offset)))
            && (t.status != Trading ==> t == r)
  {
  }

  /** The row of a round just committed, in full. */
  predicate CommittedNow(r: Round, stream: Stream, now: int, start: int, draw: Draw)
  {
    && r.stream == stream && r.status == Committed && r.shown == Hidden
    && r.committedAt == now && r.start == start
    && r.end == start + (if stream.duration == FiveMinutes then 300_000 else 900_000)
    && r.offset == OffsetOf(stream.duration, draw) && r.salt == draw.salt && r.sealed == PreImage(r.offset, r.salt)
  }

  /** A start commits a round from now exactly if the stream has none unsettled, the draw works and the insert lands. */
  lemma StartCommitsIff(s: State, stream: Stream, draw: Draw, outcome: Outcome)
    ensures var t := Apply(s, Ensure(stream, draw, outcome));
            && (t.rounds != s.rounds <==>
                  && (forall i :: 0 <= i < |s.rounds| && s.rounds[i].stream == stream ==> s.rounds[i].status == Settled)
                  && Drawn(stream.duration, draw) && outcome != NeverArrived)
            && (t.rounds != s.rounds ==>
                  && |t.rounds| == |s.rounds| + 1 && t.rounds[..|s.rounds|] == s.rounds
                  && CommittedNow(t.rounds[|s.rounds|], stream, s.clock, s.clock, draw))
  {
  }

  /** A roll-over that goes through commits the next round of the stream from the end of the one it locks. */
  lemma RollCommitsFromTheEnd(s: State, i: nat, locked: Outcome, goesOn: bool, draw: Draw, created: Outcome)
    requires i < |s.rounds| && s.rounds[i].status == Trading && s.rounds[i].end <= s.clock && locked != NeverArrived
    ensures var r, t := s.rounds[i], Apply(s, Roll(i, locked, goesOn, draw, created));
            && (|t.rounds| > |s.rounds| <==>
                  locked == Acked && goesOn && Drawn(r.stream.duration, draw) && created != NeverArrived)
            && (|t.rounds| > |s.rounds| ==>
                  |t.rounds| == |s.rounds| + 1 && CommittedNow(t.rounds[|s.rounds|], r.stream, s.clock, r.end, draw))
  {
  }

  /** A trading round locks exactly when its end has come and the statement takes effect. */
  lemma LocksIff(s: State, i: nat, locked: Outcome, goesOn: bool, draw: Draw, created: Outcome)
    requires i < |s.rounds| && s.rounds[i].status == Trading
    ensures var r, t := s.rounds[i], Apply(s, Roll(i, locked, goesOn, draw, created)).rounds[i];
            && (t.status == Locked <==> r.end <= s.clock && locked != NeverArrived)
            && (t.status == Locked ==> t.lockedAt == s.clock)
            && (t.status != Locked ==> t == r)
  {
  }

  /** A locked round settles exactly when the statement lands and the price is fresh or, two minutes late, there. */
  lemma SettlesIff(s: State, i: nat, feed: Feed, outcome: Outcome)
    requires i < |s.rounds| && s.rounds[i].status == Locked
    ensures var r, t := s.rounds[i], Apply(s, Settle(i, feed, outcome)).rounds[i];
            && (t.status == Settled <==>
                  && outcome != NeverArrived
                  && (FreshQuote(feed) || (s.clock - r.end >= 120_000 && feed.Quote? && feed.price > 0)))
            && (t.status != Settled ==> t == r)
  {
  }

  // ---------------------------------------------------------------- invariants

  predicate RoundOk(r: Round, clock: int)
  {
    && r.end == r.start + Length(r.stream.duration)
    && InRange(r.stream.duration, r.offset)
    && r.sealed == PreImage(r.offset, r.salt)
    && (r.status == Committed <==> r.shown.Hidden?)
    && (r.shown.Revealed? ==> r.shown.opening > 0 && r.shown.target == StoredTarget(r.shown.opening, r.offset))
    && (r.status == Locked || r.status == Settled ==> r.end <= clock)
  }

  /** Rounds of one stream follow one another in time, and only the newest can be live. */
  predicate Tiled(rounds: seq<Round>)
  {
    forall i, j :: 0 <= i < j < |rounds| && rounds[i].stream == rounds[j].stream
                   ==> rounds[i].end <= rounds[j].start && !Live(rounds[i])
  }

  predicate Inv(s: State)
  {
    && (forall i :: 0 <= i < |s.rounds| ==> RoundOk(s.rounds[i], s.clock))
    && Tiled(s.rounds)
  }

  lemma CreateKeepsInv(rounds: seq<Round>, clock: int, stream: Stream, start: int, draw: Draw, outcome: Outcome)
    requires Inv(State(rounds, clock))
    requires forall i :: 0 <= i < |rounds| && rounds[i].stream == stream ==> rounds[i].end <= start && !Live(rounds[i])
    ensures Inv(State(Create(rounds, stream, clock, start, draw, outcome), clock))
  {
  }

  lemma LockKeepsInv(rounds: seq<Round>, clock: int, i: nat)
    requires Inv(State(rounds, clock)) && i < |rounds| && DueToLock(rounds[i], clock)
    ensures var after := rounds[i := LockedAt(rounds[i], clock)];
            && Inv(State(after, clock))
            && (forall j :: 0 <= j < |after| && after[j].stream == rounds[i].stream ==>
                  after[j].end <= rounds[i].end && !Live(after[j]))
  {
    forall j | 0 <= j < |rounds| && rounds[j].stream == rounds[i].stream && j != i
      ensures rounds[j].end <= rounds[i].end && !Live(rounds[j])
    {
      assert RoundOk(rounds[i], clock);
    }
  }

  lemma EnsureKeepsInv(s: State, stream: Stream, draw: Draw, outcome: Outcome)
    requires Inv(s)
    ensures Inv(Apply(s, Ensure(stream, draw, outcome)))
  {
    if AllSettled(s.rounds, stream) {
      forall i | 0 <= i < |s.rounds| && s.rounds[i].stream == stream ensures s.rounds[i].end <= s.clock {
        assert RoundOk(s.rounds[i], s.clock);
      }
      CreateKeepsInv(s.rounds, s.clock, stream, s.clock, draw, outcome);
    }
  }

  lemma RollKeepsInv(s: State, i: nat, locked: Outcome, goesOn: bool, draw: Draw, created: Outcome)
    requires Inv(s)
    ensures Inv(ApplyRoll(s, i, locked, goesOn, draw, created))
  {
    if i < |s.rounds| && DueToLock(s.rounds[i], s.clock) {
      LockKeepsInv(s.rounds, s.clock, i);
      var r := s.rounds[i];
      CreateKeepsInv(s.rounds[i := LockedAt(r, s.clock)], s.clock, r.stream, r.end, draw, created);
    }
  }

  lemma OpenKeepsInv(s: State, i: nat, feed: Feed, outcome: Outcome)
    requires Inv(s)
    ensures Inv(ApplyOpen(s, i, feed, outcome))
  {
    if i < |s.rounds| {
      assert RoundOk(s.rounds[i], s.clock);
    }
  }

  lemma SettleKeepsInv(s: State, i: nat, feed: Feed, outcome: Outcome)
    requires Inv(s)
    ensures Inv(ApplySettle(s, i, feed, outcome))
  {
    if i < |s.rounds| {
      assert RoundOk(s.rounds[i], s.clock);
    }
  }

  lemma EventKeepsInv(s: State, e: Event)
    requires Inv(s)
    ensures Inv(Apply(s, e))
  {
    match e
    case Advance(_) =>
    case Ensure(stream, draw, outcome) => EnsureKeepsInv(s, stream, draw, outcome);
    case Open(i, feed, outcome) => OpenKeepsInv(s, i, feed, outcome);
    case Roll(i, locked, goesOn, draw, created) => RollKeepsInv(s, i, locked, goesOn, draw, created);
    case Settle(i, feed, outcome) => SettleKeepsInv(s, i, feed, outcome);
  }

  lemma {:induction false} RunsKeepInv(s: State, es: seq<Event>)
    requires Inv(s)
    ensures Inv(After(s, es))
  {
    if |es| > 0 {
      RunsKeepInv(s, es[..|es| - 1]);
      EventKeepsInv(After(s, es[..|es| - 1]), es[|es| - 1]);
    }
  }

  // ---------------------------------------------------------------- every run

  ghost predicate IsEnd(s: State, es: seq<Event>, t: State)
  {
    forall u {:trigger Seen(u)} :: Seen(u) && u == After(s, es) ==> t == u
  }

  /** After, chosen rather than computed so that it is not unfolded. */
  ghost function End(s: State, es: seq<Event>): State
  {
    assert IsEnd(s, es, After(s, es));
    var t :| IsEnd(s, es, t);
    t
  }

  lemma EndIsAfter(s: State, es: seq<Event>)
    ensures End(s, es) == After(s, es)
  {
    assert IsEnd(s, es, End(s, es));
    assert Seen(After(s, es));
  }

  /** Some run leads here from an empty table. */
  ghost predicate Reachable(s: State)
  {
    exists now, es :: s == End(State([], now), es)
  }

  lemma ReachableInv(s: State)
    requires Reachable(s)
    ensures Inv(s)
  {
    var now, es :| s == End(State([], now), es);
    EndIsAfter(State([], now), es);
    RunsKeepInv(State([], now), es);
  }

  /** A stream's rounds never overlap; at most one is committed or trading, and it is the newest. */
  lemma RoundsTileTheStream(s: State, i: nat, j: nat)
    requires Reachable(s) && i < |s.rounds| && j < |s.rounds| && s.rounds[i].stream == s.rounds[j].stream
    ensures s.rounds[i].end - s.rounds[i].start
            == if s.rounds[i].stream.duration == FiveMinutes then 300_000 else 900_000
    ensures i < j ==> s.rounds[i].start < s.rounds[i].end <= s.rounds[j].start
    ensures Live(s.rounds[i]) && Live(s.rounds[j]) ==> i == j
    ensures Live(s.rounds[i]) ==> j <= i
  {
    ReachableInv(s);
    assert RoundOk(s.rounds[i], s.clock);
  }

  function Rank(status: Status): nat
  {
    match status
    case Committed => 0
    case Trading => 1
    case Locked => 2
    case Settled => 3
  }

  /** What an existing row may become: further along, nothing fixed at commit or at reveal changed. */
  predicate Progresses(r: Round, t: Round)
  {
    && Rank(r.status) <= Rank(t.status)
    && t.stream == r.stream && t.start == r.start && t.end == r.end && t.committedAt == r.committedAt
    && t.offset == r.offset && t.salt == r.salt && t.sealed == r.sealed
    && (r.shown.Revealed? ==> t.shown == r.shown)
  }

  lemma {:induction false} RoundsOnlyProgress(s: State, es: seq<Event>)
    requires Inv(s)
    ensures var t := After(s, es);
            |s.rounds| <= |t.rounds| && forall i :: 0 <= i < |s.rounds| ==> Progresses(s.rounds[i], t.rounds[i])
  {
    if |es| > 0 {
      var mid := After(s, es[..|es| - 1]);
      RoundsOnlyProgress(s, es[..|es| - 1]);
      RunsKeepInv(s, es[..|es| - 1]);
      EventProgresses(mid, es[|es| - 1]);
    }
  }

  lemma EventProgresses(s: State, e: Event)
    requires Inv(s)
    ensures var t := Apply(s, e);
            |s.rounds| <= |t.rounds| && forall i :: 0 <= i < |s.rounds| ==> Progresses(s.rounds[i], t.rounds[i])
  {
    forall i | 0 <= i < |s.rounds| ensures RoundOk(s.rounds[i], s.clock) {
    }
  }

  /**
   Commitment integrity over every run: each round's published hash verifies for
   its own offset and salt and, under an injective hash, for nothing else; and a
   revealed target is the stored one, positive and off the opening price.
   */
  lemma EveryRoundVerifies(s: State, i: nat, hash: string -> string, offset: int, salt: string)
    requires Reachable(s) && i < |s.rounds| && Injective(hash)
    ensures VerifyCommitment(hash, offset, salt, hash(s.rounds[i].sealed))
            <==> offset == s.rounds[i].offset && salt == s.rounds[i].salt
    ensures InRange(s.rounds[i].stream.duration, s.rounds[i].offset)
    ensures s.rounds[i].shown.Revealed? ==> TargetFits(s.rounds[i].shown, s.rounds[i].offset)
  {
    ReachableInv(s);
    var r := s.rounds[i];
    assert RoundOk(r, s.clock);
    OnlyTheCommittedPairVerifies(hash, r.offset, r.salt, offset, salt);
    if r.shown.Revealed? {
      StoredTargetIsOffTheOpeningIff(r.stream.duration, r.shown.opening, r.offset);
    }
  }

  /**
   A revealed target: stored from the opening price and the offset, positive, and off
   the opening price unless that is so small that rounding swallows the distance.
   */
  predicate TargetFits(shown: Reveal, offset: int)
    requires shown.Revealed?
  {
    && shown.opening > 0
    && shown.target == StoredTarget(shown.opening, offset)
    && shown.target > 0
    && (shown.target != shown.opening <==> 2 * (shown.opening * offset) >= BPS || 2 * (shown.opening * offset) < -BPS)
    && (shown.opening > 1_000 ==> shown.target != shown.opening)
  }

  // ---------------------------------------------------------------- streams that stop

  predicate HasLive(rounds: seq<Round>, stream: Stream)
  {
    exists i :: 0 <= i < |rounds| && rounds[i].stream == stream && Live(rounds[i])
  }

  /** After a roll-over that took effect the stream goes on exactly when nothing failed on the way. */
  lemma RollKeepsTheStreamGoingIff(s: State, i: nat, locked: Outcome, goesOn: bool, draw: Draw, created: Outcome)
    requires Inv(s) && i < |s.rounds| && DueToLock(s.rounds[i], s.clock) && locked != NeverArrived
    ensures HasLive(ApplyRoll(s, i, locked, goesOn, draw, created).rounds, s.rounds[i].stream)
            <==> locked == Acked && goesOn && Drawn(s.rounds[i].stream.duration, draw) && created != NeverArrived
  {
    LockKeepsInv(s.rounds, s.clock, i);
    var t := ApplyRoll(s, i, locked, goesOn, draw, created);
    if |t.rounds| > |s.rounds| {
      assert Live(t.rounds[|s.rounds|]);
    }
  }

  /** A stream without a live round stays without one until the service is started again. */
  lemma {:induction false} StoppedStreamsStayStopped(s: State, es: seq<Event>, stream: Stream)
    requires !HasLive(s.rounds, stream)
    requires forall k :: 0 <= k < |es| ==> !(es[k].Ensure? && es[k].stream == stream)
    ensures !HasLive(After(s, es).rounds, stream)
  {
    if |es| > 0 {
      StoppedStreamsStayStopped(s, es[..|es| - 1], stream);
      StaysStopped(After(s, es[..|es| - 1]), es[|es| - 1], stream);
    }
  }

  lemma StaysStopped(s: State, e: Event, stream: Stream)
    requires !HasLive(s.rounds, stream) && !(e.Ensure? && e.stream == stream)
    ensures !HasLive(Apply(s, e).rounds, stream)
  {
    var t := Apply(s, e);
    forall i | 0 <= i < |t.rounds| && t.rounds[i].stream == stream ensures !Live(t.rounds[i]) {
      if i < |s.rounds| {
        assert !(s.rounds[i].stream == stream && Live(s.rounds[i]));
      }
    }
  }

  /** And a start revives it exactly when all its rounds are settled: a round left locked keeps it stopped. */
  lemma StartRevivesIff(s: State, stream: Stream, draw: Draw)
    requires Inv(s) && !HasLive(s.rounds, stream) && Drawn(stream.duration, draw)
    ensures HasLive(Apply(s, Ensure(stream, draw, Acked)).rounds, stream) <==> AllSettled(s.rounds, stream)
  {
    var t := Apply(s, Ensure(stream, draw, Acked));
    if AllSettled(s.rounds, stream) {
      assert Live(t.rounds[|s.rounds|]);
    }
  }
}
