/** The manager's tick with nothing failing: what it does to each stream, and how a late service catches up. */
module Ticks {
  import opened Types
  import opened Commitment
  import opened Rounds

  type Feeds = Asset -> Feed

  type Draws = Stream -> Draw

  /** Every price is recent and every draw succeeds. */
  ghost predicate Healthy(feeds: Feeds, draws: Draws)
  {
    && (forall a: Asset :: Read(feeds(a)).recent)
    && (forall x: Stream :: Drawn(x.duration, draws(x)))
  }

  /** The first n rounds revealed, if due. */
  function OpenFirst(s: State, feeds: Feeds, n: nat): (t: State)
    requires n <= |s.rounds|
    ensures |t.rounds| == |s.rounds| && t.clock == s.clock
  {
    if n == 0 then s else ApplyOpen(OpenFirst(s, feeds, n - 1), n - 1, feeds(s.rounds[n - 1].stream.asset), Acked)
  }

  /** The first n rounds locked and rolled over, if due. */
  function RollFirst(s: State, draws: Draws, n: nat): (t: State)
    requires n <= |s.rounds|
    ensures |t.rounds| >= |s.rounds| && t.clock == s.clock
  {
    if n == 0 then s
    else ApplyRoll(RollFirst(s, draws, n - 1), n - 1, Acked, true, draws(s.rounds[n - 1].stream), Acked)
  }

  /** The first n rounds settled, if due. */
  function SettleFirst(s: State, feeds: Feeds, n: nat): (t: State)
    requires n <= |s.rounds|
    ensures |t.rounds| == |s.rounds| && t.clock == s.clock
  {
    if n == 0 then s else ApplySettle(SettleFirst(s, feeds, n - 1), n - 1, feeds(s.rounds[n - 1].stream.asset), Acked)
  }

  /** One tick: open what is due, then lock and roll over what is due, then settle what is locked. */
  function Tick(s: State, feeds: Feeds, draws: Draws): (t: State)
    ensures t.clock == s.clock
  {
    var revealed := OpenFirst(s, feeds, |s.rounds|);
    var rolled := RollFirst(revealed, draws, |revealed.rounds|);
    SettleFirst(rolled, feeds, |rolled.rounds|)
  }

  lemma {:induction false} OpenAt(s: State, feeds: Feeds, n: nat, i: nat)
    requires n <= |s.rounds| && i < |s.rounds|
    ensures var r := s.rounds[i];
            OpenFirst(s, feeds, n).rounds[i]
            == if i < n && DueToOpen(r, feeds(r.stream.asset), s.clock) then OpenedWith(r, feeds(r.stream.asset)) else r
  {
    if n > 0 {
      OpenAt(s, feeds, n - 1, i);
    }
  }

  lemma {:induction false} RollAt(s: State, draws: Draws, n: nat, i: nat)
    requires n <= |s.rounds| && i < |s.rounds|
    ensures RollFirst(s, draws, n).rounds[i]
            == if i < n && DueToLock(s.rounds[i], s.clock) then LockedAt(s.rounds[i], s.clock) else s.rounds[i]
  {
    if n > 0 {
      RollAt(s, draws, n - 1, i);
    }
  }

  /** A round that is rolled over leaves a successor that starts where it ended. */
  lemma {:induction false} RollLeavesSuccessor(s: State, draws: Draws, n: nat, i: nat) returns (k: nat)
    requires i < n <= |s.rounds| && DueToLock(s.rounds[i], s.clock)
    requires Drawn(s.rounds[i].stream.duration, draws(s.rounds[i].stream))
    ensures var r := s.rounds[i];
            var t := RollFirst(s, draws, n);
            |s.rounds| <= k < |t.rounds| && t.rounds[k] == NewRound(r.stream, s.clock, r.end, draws(r.stream))
  {
    var mid := RollFirst(s, draws, n - 1);
    if i == n - 1 {
      RollAt(s, draws, n - 1, i);
      k := |mid.rounds|;
    } else {
      k := RollLeavesSuccessor(s, draws, n - 1, i);
    }
  }

  lemma {:induction false} SettleAt(s: State, feeds: Feeds, n: nat, i: nat)
    requires n <= |s.rounds| && i < |s.rounds|
    ensures var r := s.rounds[i];
            SettleFirst(s, feeds, n).rounds[i]
            == if i < n && DueToSettle(r, feeds(r.stream.asset), s.clock) then r.(status := Settled) else r
  {
    if n > 0 {
      SettleAt(s, feeds, n - 1, i);
    }
  }

  /** The round invariant, unfolded only where a proof names the state. */
  ghost predicate Sound(s: State)
  {
    forall u {:trigger Seen(u)} :: Seen(u) && u == s ==> Inv(u)
  }

  lemma SoundIsInv(s: State)
    ensures Sound(s) <==> Inv(s)
  {
    assert Seen(s);
  }

  lemma OpenKeepsSound(s: State, i: nat, feed: Feed)
    requires Sound(s)
    ensures Sound(ApplyOpen(s, i, feed, Acked))
  {
    SoundIsInv(s);
    OpenKeepsInv(s, i, feed, Acked);
  }

  lemma RollKeepsSound(s: State, i: nat, draw: Draw)
    requires Sound(s)
    ensures Sound(ApplyRoll(s, i, Acked, true, draw, Acked))
  {
    SoundIsInv(s);
    RollKeepsInv(s, i, Acked, true, draw, Acked);
  }

  lemma SettleKeepsSound(s: State, i: nat, feed: Feed)
    requires Sound(s)
    ensures Sound(ApplySettle(s, i, feed, Acked))
  {
    SoundIsInv(s);
    SettleKeepsInv(s, i, feed, Acked);
  }

  lemma {:induction false} OpenPhaseKeepsSound(s: State, feeds: Feeds, n: nat)
    requires n <= |s.rounds| && Sound(s)
    ensures Sound(OpenFirst(s, feeds, n))
  {
    if n > 0 {
      OpenPhaseKeepsSound(s, feeds, n - 1);
      OpenKeepsSound(OpenFirst(s, feeds, n - 1), n - 1, feeds(s.rounds[n - 1].stream.asset));
    }
  }

  lemma {:induction false} RollPhaseKeepsSound(s: State, draws: Draws, n: nat)
    requires n <= |s.rounds| && Sound(s)
    ensures Sound(RollFirst(s, draws, n))
  {
    if n > 0 {
      RollPhaseKeepsSound(s, draws, n - 1);
      RollKeepsSound(RollFirst(s, draws, n - 1), n - 1, draws(s.rounds[n - 1].stream));
    }
  }

  lemma {:induction false} SettlePhaseKeepsSound(s: State, feeds: Feeds, n: nat)
    requires n <= |s.rounds| && Sound(s)
    ensures Sound(SettleFirst(s, feeds, n))
  {
    if n > 0 {
      SettlePhaseKeepsSound(s, feeds, n - 1);
      SettleKeepsSound(SettleFirst(s, feeds, n - 1), n - 1, feeds(s.rounds[n - 1].stream.asset));
    }
  }

  /** A tick keeps the rounds of every stream tiled. */
  lemma TickKeepsInv(s: State, feeds: Feeds, draws: Draws)
    requires Inv(s)
    ensures Inv(Tick(s, feeds, draws))
  {
    var revealed := OpenFirst(s, feeds, |s.rounds|);
    var rolled := RollFirst(revealed, draws, |revealed.rounds|);
    SoundIsInv(s);
    OpenPhaseKeepsSound(s, feeds, |s.rounds|);
    RollPhaseKeepsSound(revealed, draws, |revealed.rounds|);
    SettlePhaseKeepsSound(rolled, feeds, |rolled.rounds|);
    SoundIsInv(Tick(s, feeds, draws));
  }

  /** The stream's one live round, in place k. */
  predicate OnlyLive(rounds: seq<Round>, stream: Stream, k: nat)
  {
    && k < |rounds| && rounds[k].stream == stream && Live(rounds[k])
    && forall j :: 0 <= j < |rounds| && rounds[j].stream == stream && Live(rounds[j]) ==> j == k
  }

  lemma LiveIsOnly(s: State, k: nat)
    requires Inv(s) && k < |s.rounds| && Live(s.rounds[k])
    ensures OnlyLive(s.rounds, s.rounds[k].stream, k)
  {
  }

  /**
   A healthy tick keeps every stream going: its one live round stays (and trades
   once started), or, if its time is over, is settled and replaced by exactly one
   round that starts at its end.
   */
  lemma TickRollsOver(s: State, feeds: Feeds, draws: Draws, i: nat) returns (k: nat)
    requires Inv(s) && Healthy(feeds, draws) && i < |s.rounds| && Live(s.rounds[i])
    ensures var t := Tick(s, feeds, draws);
            var r := s.rounds[i];
            && Inv(t) && OnlyLive(t.rounds, r.stream, k) && i < |t.rounds|
            && (r.end > s.clock ==>
                  k == i && t.rounds[i].end == r.end && (r.start <= s.clock ==> t.rounds[i].status == Trading))
            && (r.end <= s.clock ==>
                  && t.rounds[i].status == Settled
                  && t.rounds[k] == NewRound(r.stream, s.clock, r.end, draws(r.stream)))
  {
    var r := s.rounds[i];
    var revealed := OpenFirst(s, feeds, |s.rounds|);
    var rolled := RollFirst(revealed, draws, |revealed.rounds|);
    var t := Tick(s, feeds, draws);
    OpenAt(s, feeds, |s.rounds|, i);
    RollAt(revealed, draws, |revealed.rounds|, i);
    SettleAt(rolled, feeds, |rolled.rounds|, i);
    TickKeepsInv(s, feeds, draws);
    assert RoundOk(r, s.clock);
    assert Read(feeds(r.stream.asset)).recent;
    k := i;
    if r.end <= s.clock {
      assert Drawn(r.stream.duration, draws(r.stream));
      k := RollLeavesSuccessor(revealed, draws, |revealed.rounds|, i);
      SettleAt(rolled, feeds, |rolled.rounds|, k);
    }
    LiveIsOnly(t, k);
  }

  // ---------------------------------------------------------------- catching up

  lemma TickMovesTheEnd(s: State, feeds: Feeds, draws: Draws, stream: Stream, i: nat) returns (k: nat)
    requires Inv(s) && Healthy(feeds, draws) && OnlyLive(s.rounds, stream, i)
    ensures var t := Tick(s, feeds, draws);
            && Inv(t) && OnlyLive(t.rounds, stream, k)
            && t.rounds[k].end == if s.rounds[i].end <= s.clock then s.rounds[i].end + Length(stream.duration)
                                    else s.rounds[i].end
  {
    k := TickRollsOver(s, feeds, draws, i);
  }

  /** n ticks in a row, with the clock where it is. */
  function RunTicks(s: State, feeds: seq<Feeds>, draws: seq<Draws>, n: nat): (t: State)
    requires n <= |feeds| && n <= |draws|
    ensures t.clock == s.clock
  {
    if n == 0 then s else Tick(RunTicks(s, feeds, draws, n - 1), feeds[n - 1], draws[n - 1])
  }

  /** How many roll-overs a round ending at `end` is behind the clock. */
  function Behind(now: int, end: int, length: int): nat
    requires length > 0
  {
    if end <= now then (now - end) / length + 1 else 0
  }

  lemma Lengthens(a: int, b: int, length: int)
    requires length > 0
    ensures a <= b ==> a * length <= b * length
    ensures a > b ==> a * length >= b * length + length
  {
    if a <= b {
      assert (b - a) * length >= 0;
    } else {
      assert (a - b - 1) * length >= 0;
    }
  }

  lemma QuotientOf(a: int, length: int) returns (q: int, rest: int)
    requires length > 0 && a >= 0
    ensures q == a / length && a == q * length + rest && 0 <= rest < length && q >= 0
  {
    q, rest := a / length, a % length;
  }

  lemma BehindStep(now: int, end: int, length: int, n: nat)
    requires length > 0
    ensures end + n * length <= now <==> n < Behind(now, end, length)
  {
    if end <= now {
      var q, rest := QuotientOf(now - end, length);
      Lengthens(n, q, length);
    } else {
      Lengthens(0, n, length);
    }
  }

  lemma CountsOn(n: nat, length: int)
    requires n > 0
    ensures n * length == (n - 1) * length + length
  {
  }

  /** One more tick moves the end on if it is still behind, and otherwise leaves it. */
  lemma OneMoreTick(now: int, end: int, length: int, n: nat, before: int, after: int)
    requires length > 0 && n > 0
    requires before == end + Min(n - 1, Behind(now, end, length)) * length
    requires after == if before <= now then before + length else before
    ensures after == end + Min(n, Behind(now, end, length)) * length
  {
    var behind := Behind(now, end, length);
    BehindStep(now, end, length, Min(n - 1, behind));
    CountsOn(n, length);
  }

  /** State t has the stream of s's round i at its live round k, as many lengths on as n ticks allow. */
  predicate CaughtUp(s: State, i: nat, n: nat, t: State, k: nat)
    requires i < |s.rounds|
  {
    var r := s.rounds[i];
    var length := Length(r.stream.duration);
    && Inv(t) && t.clock == s.clock && OnlyLive(t.rounds, r.stream, k)
    && t.rounds[k].end == r.end + Min(n, Behind(s.clock, r.end, length)) * length
  }

  lemma CatchUpStep(s: State, i: nat, n: nat, mid: State, j: nat, feeds: Feeds, draws: Draws) returns (k: nat)
    requires i < |s.rounds| && n > 0 && CaughtUp(s, i, n - 1, mid, j) && Healthy(feeds, draws)
    ensures CaughtUp(s, i, n, Tick(mid, feeds, draws), k)
  {
    var r := s.rounds[i];
    k := TickMovesTheEnd(mid, feeds, draws, r.stream, j);
    OneMoreTick(s.clock, r.end, Length(r.stream.duration), n, mid.rounds[j].end, Tick(mid, feeds, draws).rounds[k].end);
  }

  /**
   Catching up: n healthy ticks move a stream's live round on by one length a
   tick, until it is past the clock, and not any further.
   */
  lemma {:induction false} CatchUp(s: State, feeds: seq<Feeds>, draws: seq<Draws>, i: nat, n: nat) returns (k: nat)
    requires Inv(s) && i < |s.rounds| && Live(s.rounds[i])
    requires n <= |feeds| && n <= |draws| && forall m :: 0 <= m < n ==> Healthy(feeds[m], draws[m])
    ensures CaughtUp(s, i, n, RunTicks(s, feeds, draws, n), k)
  {
    if n == 0 {
      k := i;
      LiveIsOnly(s, i);
    } else {
      var j := CatchUp(s, feeds, draws, i, n - 1);
      k := CatchUpStep(s, i, n, RunTicks(s, feeds, draws, n - 1), j, feeds[n - 1], draws[n - 1]);
    }
  }

  /** So a late stream is current after exactly floor((now - end) / length) + 1 ticks, and not before. */
  lemma CaughtUpIff(s: State, i: nat, n: nat, t: State, k: nat)
    requires i < |s.rounds| && RoundOk(s.rounds[i], s.clock) && CaughtUp(s, i, n, t, k)
    ensures s.clock < t.rounds[k].end
            <==> n >= if s.rounds[i].end <= s.clock
                      then (s.clock - s.rounds[i].end) / Length(s.rounds[i].stream.duration) + 1 else 0
    ensures s.rounds[i].start <= s.clock ==> t.rounds[k].start <= s.clock
  {
    var r := s.rounds[i];
    var length := Length(r.stream.duration);
    var behind := Behind(s.clock, r.end, length);
    BehindStep(s.clock, r.end, length, Min(n, behind));
    assert RoundOk(t.rounds[k], t.clock);
    if Min(n, behind) > 0 {
      BehindStep(s.clock, r.end, length, Min(n, behind) - 1);
      CountsOn(Min(n, behind), length);
    }
  }
}
