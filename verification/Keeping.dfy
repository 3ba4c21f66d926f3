/**
 The manager's loops over the table of rounds and the cache.  Each is proved to
 be a run of the round machine, whatever fails, and when nothing fails to be
 exactly the phase of the tick its name promises.
 */
module Keeping {
  import opened Types
  import opened Commitment
  import opened R = Rounds
  import opened Ticks
  import B = Broadcast

  lemma MoreRoundsStayUnsettled(a: seq<Round>, b: seq<Round>, stream: Stream)
    requires a <= b && !AllSettled(a, stream)
    ensures !AllSettled(b, stream)
  {
    var i :| 0 <= i < |a| && a[i].stream == stream && a[i].status != Settled;
    assert b[i] == a[i];
  }

  function PlaceOf(asset: Asset): nat
  {
    match asset
    case BTC => 0
    case ETH => 1
    case SOL => 2
  }

  class Keeper {
    var rounds: seq<Round>
    var clock: int
    var cache: B.Cache

    constructor (now: int)
      ensures View() == B.State(R.State([], now), map[])
    {
      rounds, clock, cache := [], now, map[];
    }

    ghost function View(): B.State
      reads this
    {
      B.State(R.State(rounds, clock), cache)
    }

    /** Whether a statement takes effect, and whether we hear of it. */
    method Commit() returns (outcome: Outcome)
    {
      var applied: bool := *;
      var replied: bool := *;
      outcome := if !applied then NeverArrived else if replied then Acked else ReplyLost;
    }

    /** Best effort: a failed write leaves the entry that was there. */
    method RefreshCache(id: nat, target: int) returns (cached: bool)
      requires id < |rounds|
      modifies this`cache
      ensures cache == if cached then old(cache)[rounds[id].stream := B.EntryOf(id, rounds[id], target, clock)]
                       else old(cache)
    {
      cached := *;
      if cached {
        var r := rounds[id];
        cache := cache[r.stream := B.Entry(id, r.status, target, r.end, clock)];
      }
    }

    /** Reveals one committed round at the price of the moment, if that is to be had. */
    method OpenOne(id: nat, feed: Feed) returns (outcome: Outcome, ghost e: B.Event)
      requires id < |rounds| && rounds[id].status == Committed && rounds[id].start <= clock
      modifies this`rounds, this`cache
      ensures View() == B.Apply(old(View()), e) && e.step == Event.Open(id, feed, outcome)
    {
      outcome := Acked;
      var cached := false;
      var w := rounds[id];
      var snap := R.Read(feed);
      if snap.recent || (clock - w.committedAt >= REVEAL_GRACE && snap.price > 0) {
        outcome := Commit();
        if outcome != NeverArrived {
          rounds := rounds[id := w.(status := Trading,
                                    shown := Revealed(snap.price, StoredTarget(snap.price, w.offset)))];
        }
        if outcome == Acked {
          cached := RefreshCache(id, snap.price * BPS + snap.price * w.offset);
        }
      }
      e := B.Event(Event.Open(id, feed, outcome), cached);
    }

    /** Reveals every committed round whose time has come. */
    method OpenDueCommits(feeds: Feeds) returns (clean: bool, ghost es: seq<B.Event>)
      modifies this`rounds, this`cache
      ensures View() == B.After(old(View()), es)
      ensures clean ==> View().base == OpenFirst(old(View()).base, feeds, |old(rounds)|)
    {
      ghost var start := View();
      var listed := rounds;
      clean, es := true, [];
      for i := 0 to |listed|
        invariant |rounds| == |listed| && clock == start.base.clock
        invariant forall j :: i <= j < |listed| ==> rounds[j] == listed[j]
        invariant View() == B.After(start, es)
        invariant clean ==> View().base == OpenFirst(start.base, feeds, i)
      {
        if listed[i].status == Committed && listed[i].start <= clock {
          var outcome;
          ghost var e;
          outcome, e := OpenOne(i, feeds(listed[i].stream.asset));
          B.AfterPush(start, es, e);
          es := es + [e];
          clean := clean && outcome == Acked;
        }
      }
    }

    /** Commits the next round of a stream: a fresh draw, its sealed text, and the insert. */
    method CommitNextWindow(stream: Stream, start: int, draw: Draw) returns (outcome: Outcome)
      modifies this`rounds
      ensures rounds == Create(old(rounds), stream, clock, start, draw, outcome)
      ensures outcome == Acked ==> Drawn(stream.duration, draw)
    {
      var range := OffsetRange(stream.duration);
      if draw.n >= range.high - range.low + 1 || draw.signBit >= 2 {
        return NeverArrived;
      }
      outcome := Commit();
      if outcome != NeverArrived {
        var offset := range.low + draw.n;
        if draw.signBit == 0 {
          offset := -offset;
        }
        rounds := rounds + [Round(stream, Committed, clock, start, start + Length(stream.duration), offset, draw.salt,
                                  PreImage(offset, draw.salt), Hidden, 0)];
      }
    }

    /** Locks one round whose time is over and, unless something fails on the way, commits the next from its end. */
    method RollOne(id: nat, draw: Draw) returns (clean: bool, ghost e: B.Event)
      requires id < |rounds| && DueToLock(rounds[id], clock)
      modifies this`rounds, this`cache
      ensures e.step.Roll? && e.step.id == id && e.step.draw == draw
      ensures clean ==> e.step == Roll(id, Acked, true, draw, Acked)
      ensures View() == B.Apply(old(View()), e)
    {
      var w := rounds[id];
      var cached, goesOn, created := false, false, NeverArrived;
      var locked := Commit();
      if locked != NeverArrived {
        rounds := rounds[id := LockedAt(w, clock)];
      }
      if locked == Acked {
        cached := RefreshCache(id, if w.shown.Hidden? then 0 else w.shown.target * BPS);
        // Listing the orders to refund may fail, and then the loop moves to the next round.
        goesOn := *;
        if goesOn {
          created := CommitNextWindow(w.stream, w.end, draw);
        }
      }
      clean := locked == Acked && goesOn && created == Acked;
      e := B.Event(Roll(id, locked, goesOn, draw, created), cached);
    }

    /** Locks and rolls over every round whose time is over. */
    method LockDueWindows(draws: Draws) returns (clean: bool, ghost es: seq<B.Event>)
      modifies this`rounds, this`cache
      ensures View() == B.After(old(View()), es)
      ensures clean ==> View().base == RollFirst(old(View()).base, draws, |old(rounds)|)
    {
      ghost var start := View();
      var listed := rounds;
      clean, es := true, [];
      for i := 0 to |listed|
        invariant |rounds| >= |listed| && clock == start.base.clock
        invariant forall j :: i <= j < |listed| ==> rounds[j] == listed[j]
        invariant View() == B.After(start, es)
        invariant clean ==> View().base == RollFirst(start.base, draws, i)
      {
        if listed[i].status == Trading && listed[i].end <= clock {
          var ok;
          ghost var e;
          ok, e := RollOne(i, draws(listed[i].stream));
          B.AfterPush(start, es, e);
          es := es + [e];
          clean := clean && ok;
        }
      }
    }

    /** Settles one locked round at the price of the moment, if that is to be had. */
    method SettleOne(id: nat, feed: Feed) returns (outcome: Outcome, ghost e: B.Event)
      requires id < |rounds| && rounds[id].status == Locked
      modifies this`rounds, this`cache
      ensures View() == B.Apply(old(View()), e) && e.step == Settle(id, feed, outcome)
    {
      outcome := Acked;
      var cached := false;
      var w := rounds[id];
      var snap := R.Read(feed);
      if snap.recent || (clock - w.end >= SETTLE_DEADLINE && snap.price > 0) {
        outcome := Commit();
        if outcome != NeverArrived {
          rounds := rounds[id := w.(status := Settled)];
        }
        if outcome == Acked {
          cached := RefreshCache(id, if w.shown.Hidden? then 0 else w.shown.target * BPS);
        }
      }
      e := B.Event(Settle(id, feed, outcome), cached);
    }

    /** Settles every locked round; the payout that follows each is the subject of Payout. */
    method SettleLockedWindows(feeds: Feeds) returns (clean: bool, ghost es: seq<B.Event>)
      modifies this`rounds, this`cache
      ensures View() == B.After(old(View()), es)
      ensures clean ==> View().base == SettleFirst(old(View()).base, feeds, |old(rounds)|)
    {
      ghost var start := View();
      var listed := rounds;
      clean, es := true, [];
      for i := 0 to |listed|
        invariant |rounds| == |listed| && clock == start.base.clock
        invariant forall j :: i <= j < |listed| ==> rounds[j] == listed[j]
        invariant View() == B.After(start, es)
        invariant clean ==> View().base == SettleFirst(start.base, feeds, i)
      {
        if listed[i].status == Locked {
          var outcome;
          ghost var e;
          outcome, e := SettleOne(i, feeds(listed[i].stream.asset));
          B.AfterPush(start, es, e);
          es := es + [e];
          clean := clean && outcome == Acked;
        }
      }
    }

    /** One tick of the manager: undisturbed, exactly the tick whose effect on every stream Ticks describes. */
    method Tick(feeds: Feeds, draws: Draws) returns (clean: bool, ghost es: seq<B.Event>)
      modifies this`rounds, this`cache
      ensures View() == B.After(old(View()), es)
      ensures clean ==> View().base == Ticks.Tick(old(View()).base, feeds, draws)
    {
      ghost var start := View();
      var revealed, rolled, settled;
      ghost var more;
      revealed, es := OpenDueCommits(feeds);
      rolled, more := LockDueWindows(draws);
      B.AfterConcat(start, es, more);
      es := es + more;
      settled, more := SettleLockedWindows(feeds);
      B.AfterConcat(start, es, more);
      es := es + more;
      clean := revealed && rolled && settled;
    }

    /** On a start: report the stream's newest unsettled round, or commit one from now if there is none. */
    method EnsureActiveWindow(stream: Stream, draw: Draw) returns (ok: bool, ghost e: B.Event)
      modifies this`rounds, this`cache
      ensures View() == B.Apply(old(View()), e)
      ensures e.step.Ensure? && e.step.stream == stream && e.step.draw == draw
      ensures old(rounds) <= rounds
      ensures ok ==> !AllSettled(rounds, stream)
    {
      var k := B.Active(rounds, stream);
      if k < |rounds| {
        var cached := RefreshCache(k, if rounds[k].shown.Hidden? then 0 else rounds[k].shown.target * BPS);
        e := B.Event(Ensure(stream, draw, Acked), cached);
        ok := true;
      } else {
        ghost var before := rounds;
        var outcome := CommitNextWindow(stream, clock, draw);
        e := B.Event(Ensure(stream, draw, outcome), false);
        ok := outcome == Acked;
        assert ok ==> rounds[|before|].stream == stream && rounds[|before|].status == Committed;
      }
    }

    /** A start: every stream is left with a round that is not settled, or the service does not start. */
    method Start(draws: Draws) returns (ok: bool, ghost es: seq<B.Event>)
      modifies this`rounds, this`cache
      ensures View() == B.After(old(View()), es)
      ensures ok ==> forall stream :: !AllSettled(rounds, stream)
    {
      ghost var start := View();
      var assets, durations := [BTC, ETH, SOL], [FiveMinutes, FifteenMinutes];
      ok, es := true, [];
      for a := 0 to |assets|
        invariant View() == B.After(start, es)
        invariant forall i, j :: 0 <= i < a && 0 <= j < 2 ==> !AllSettled(rounds, Stream(assets[i], durations[j]))
      {
        for d := 0 to |durations|
          invariant View() == B.After(start, es)
          invariant forall i, j :: 0 <= i < a && 0 <= j < 2 ==> !AllSettled(rounds, Stream(assets[i], durations[j]))
          invariant forall j :: 0 <= j < d ==> !AllSettled(rounds, Stream(assets[a], durations[j]))
        {
          ghost var before := rounds;
          ghost var e;
          ok, e := EnsureActiveWindow(Stream(assets[a], durations[d]), draws(Stream(assets[a], durations[d])));
          B.AfterPush(start, es, e);
          es := es + [e];
          if !ok {
            return;
          }
          forall x | !AllSettled(before, x) ensures !AllSettled(rounds, x) {
            MoreRoundsStayUnsettled(before, rounds, x);
          }
        }
      }
      forall stream: Stream ensures !AllSettled(rounds, stream) {
        assert stream == Stream(assets[PlaceOf(stream.asset)],
                                durations[if stream.duration == FiveMinutes then 0 else 1]);
      }
    }
  }
}
