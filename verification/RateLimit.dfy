/**
 Rate limiting by client address: a token bucket an address, 20 requests a second
 with a burst of 40, and a reaper that forgets addresses idle for ten minutes.
 Times and credit are nanoseconds: a token is what accrues in a twentieth of a second.
 */
module RateLimit {

  const TOKEN := 50_000_000
  const BURST := 40
  const CAP := BURST * TOKEN
  const IDLE := 600_000_000_000

  // ---------------------------------------------------------------- one bucket, never forgotten

  /** Credit available to a request at `now`, given the times of all requests before it. */
  function Credit(times: seq<int>, now: int): int
    decreases |times|, 1
  {
    if |times| == 0 then CAP
    else
      var accrued := CreditLeft(times) + now - times[|times| - 1];
      if accrued > CAP then CAP else accrued
  }

  /** Credit left once the last request has been answered: an admitted one costs a token. */
  function CreditLeft(times: seq<int>): int
    requires |times| > 0
    decreases |times|, 0
  {
    var n := |times| - 1;
    var c := Credit(times[..n], times[n]);
    if c >= TOKEN then c - TOKEN else c
  }

  predicate Admits(times: seq<int>, now: int)
  {
    Credit(times, now) >= TOKEN
  }

  predicate Rising(times: seq<int>)
  {
    forall i, j :: 0 <= i < j < |times| ==> times[i] <= times[j]
  }

  lemma {:induction false} CreditInRange(times: seq<int>, now: int)
    requires Rising(times) && (|times| > 0 ==> times[|times| - 1] <= now)
    ensures 0 <= Credit(times, now) <= CAP
    ensures |times| > 0 ==> 0 <= CreditLeft(times)
    decreases |times|
  {
    if |times| > 0 {
      var n := |times| - 1;
      CreditInRange(times[..n], times[n]);
    }
  }

  /** An address idle for ten minutes has its full burst back: it looks like a new one. */
  lemma IdleIsFull(times: seq<int>, now: int)
    requires Rising(times) && (|times| > 0 ==> times[|times| - 1] + 600_000_000_000 <= now)
    ensures Credit(times, now) == CAP == Credit([], now)
  {
    CreditInRange(times, now);
  }

  /** How many of the requests i to j - 1 were admitted. */
  function Admitted(times: seq<int>, i: nat, j: nat): nat
    requires i <= j <= |times|
  {
    if i == j then 0 else Admitted(times, i, j - 1) + if Admits(times[..j - 1], times[j - 1]) then 1 else 0
  }

  lemma {:induction false} CreditIsSpent(times: seq<int>, i: nat, j: nat)
    requires Rising(times) && i < j <= |times|
    ensures Admitted(times, i, j) * TOKEN + CreditLeft(times[..j]) <= CAP + times[j - 1] - times[i]
  {
    assert times[..j][..j - 1] == times[..j - 1];
    CreditInRange(times[..j - 1], times[j - 1]);
    if i == j - 1 {
      assert Admitted(times, i, i) == 0;
    } else {
      CreditIsSpent(times, i, j - 1);
    }
  }

  /** Any stretch of requests lasting t seconds admits at most 40 + 20 t of them. */
  lemma AdmissionsAreBounded(times: seq<int>, i: nat, j: nat)
    requires Rising(times) && i < j <= |times|
    ensures (Admitted(times, i, j) - 40) * 50_000_000 <= times[j - 1] - times[i]
  {
    CreditIsSpent(times, i, j);
    CreditInRange(times[..j], times[j - 1]);
  }

  lemma {:induction false} BurstCredit(times: seq<int>, n: nat)
    requires n <= |times| && forall k :: 0 <= k < |times| ==> times[k] == times[0]
    ensures |times| > 0 ==> Credit(times[..n], times[0]) == if n <= BURST then CAP - n * TOKEN else 0
    ensures Admitted(times, 0, n) == if n <= BURST then n else BURST
  {
    if n > 0 {
      BurstCredit(times, n - 1);
      assert times[..n][..n - 1] == times[..n - 1];
    }
  }

  /** And the bound is reached: of n simultaneous first requests exactly the smaller of n and 40 are admitted. */
  lemma BurstIsAdmitted(times: seq<int>)
    requires forall k :: 0 <= k < |times| ==> times[k] == times[0]
    ensures Admitted(times, 0, |times|) == if |times| <= 40 then |times| else 40
  {
    BurstCredit(times, |times|);
  }

  /** And an address that never sends two requests within 50 milliseconds is never refused. */
  lemma SteadyRequestsAreAdmitted(times: seq<int>, now: int)
    requires forall i, j :: 0 <= i < j < |times| ==> times[i] <= times[j]
    requires |times| > 0 ==> times[|times| - 1] + 50_000_000 <= now
    ensures Admits(times, now)
  {
    if |times| > 0 {
      CreditInRange(times, times[|times| - 1]);
    }
  }

  lemma AnotherRequest(times: seq<int>, now: int, left: int)
    requires Rising(times) && (|times| > 0 ==> times[|times| - 1] <= now)
    requires left == if Admits(times, now) then Credit(times, now) - TOKEN else Credit(times, now)
    ensures Rising(times + [now]) && CreditLeft(times + [now]) == left
  {
    assert (times + [now])[..|times|] == times;
  }

  // ---------------------------------------------------------------- the store

  /** An address's limiter, its credit as of `last`, and when it was last looked up. */
  datatype Entry = Entry(credit: int, last: int, lastSeen: int)

  /** The requests of one address so far. */
  predicate History(times: seq<int>, clock: int)
  {
    |times| > 0 && Rising(times) && times[|times| - 1] <= clock
  }

  predicate Remembers(x: Entry, times: seq<int>)
    requires |times| > 0
  {
    x.credit == CreditLeft(times) && x.last == x.lastSeen == times[|times| - 1]
  }

  /** A remembered address has its bucket; a forgotten one has been idle long enough. */
  predicate KeyOk(limiters: map<string, Entry>, key: string, times: seq<int>, clock: int)
  {
    && History(times, clock)
    && (if key in limiters then Remembers(limiters[key], times) else times[|times| - 1] + IDLE <= clock)
  }

  lemma OthersStayOk(before: map<string, Entry>, after: map<string, Entry>, key: string, times: seq<int>, earlier: int,
                     now: int)
    requires KeyOk(before, key, times, earlier) && earlier <= now
    requires key in before <==> key in after
    requires key in before ==> after[key] == before[key]
    ensures KeyOk(after, key, times, now)
  {
  }

  lemma ReapedStayOk(before: map<string, Entry>, after: map<string, Entry>, key: string, times: seq<int>, earlier: int,
                     now: int)
    requires KeyOk(before, key, times, earlier) && earlier <= now
    requires key in after <==> key in before && before[key].lastSeen >= now - IDLE
    requires key in after ==> after[key] == before[key]
    ensures KeyOk(after, key, times, now)
  {
  }

  /** The credit a store finds for an address, whether it remembers it or starts it afresh. */
  lemma FoundCredit(limiters: map<string, Entry>, key: string, times: seq<int>, clock: int, now: int)
    requires KeyOk(limiters, key, times, clock) && clock <= now
    ensures key in limiters ==>
              Credit(times, now)
              == (var c := limiters[key].credit + now - limiters[key].last; if c > CAP then CAP else c)
    ensures key !in limiters ==> Credit(times, now) == CAP
  {
    if key !in limiters {
      IdleIsFull(times, now);
    }
  }

  class LimiterStore {
    var limiters: map<string, Entry>
    // When requests arrived, by address, and the time of the latest call.
    ghost var requests: map<string, seq<int>>
    ghost var clock: int

    constructor ()
      ensures Valid() && limiters == map[] && requests == map[]
    {
      limiters := map[];
      requests := map[];
      clock := 0;
    }

    ghost function Times(key: string): seq<int>
      reads this
    {
      if key in requests then requests[key] else []
    }

    ghost predicate Valid()
      reads this
    {
      && limiters.Keys <= requests.Keys
      && forall key :: key in requests ==> KeyOk(limiters, key, requests[key], clock)
    }

    /** The answer depends on the address's own requests only: what was forgotten in between makes no difference. */
    method Allow(key: string, now: int) returns (allowed: bool)
      requires Valid() && now >= clock
      modifies this
      ensures Valid() && clock == now
      ensures allowed <==> Admits(old(Times(key)), now)
      ensures requests == old(requests)[key := old(Times(key)) + [now]]
    {
      ghost var times := Times(key);
      assert key in requests ==> KeyOk(limiters, key, times, clock);
      var credit := CAP;
      if key in limiters {
        credit := limiters[key].credit + now - limiters[key].last;
        if credit > CAP {
          credit := CAP;
        }
      }
      if key in requests {
        FoundCredit(limiters, key, times, clock, now);
      }
      allowed := credit >= TOKEN;
      if allowed {
        credit := credit - TOKEN;
      }
      Answered(key, now, times, credit);
    }

    /** Writes the bucket back after an answer. */
    method Answered(key: string, now: int, ghost times: seq<int>, credit: int)
      requires Valid() && now >= clock && times == Times(key)
      requires credit == if Admits(times, now) then Credit(times, now) - TOKEN else Credit(times, now)
      modifies this
      ensures Valid() && clock == now && requests == old(requests)[key := times + [now]]
    {
      ghost var before, history, earlier := limiters, requests, clock;
      assert key in history ==> KeyOk(before, key, times, earlier);
      AnotherRequest(times, now, credit);
      limiters := limiters[key := Entry(credit, now, now)];
      requests := requests[key := times + [now]];
      clock := now;
      forall k | k in requests ensures KeyOk(limiters, k, requests[k], now) {
        if k != key {
          OthersStayOk(before, limiters, k, history[k], earlier, now);
        }
      }
    }

    /** Forgets every address not seen for ten minutes, and only those. */
    method Reap(now: int)
      requires Valid() && now >= clock
      modifies this`limiters, this`clock
      ensures Valid() && clock == now
      ensures limiters == map key | key in old(limiters)
              && old(limiters)[key].lastSeen >= now - 600_000_000_000 :: old(limiters)[key]
    {
      ghost var before, earlier := limiters, clock;
      var cutoff := now - IDLE;
      var keys := limiters.Keys;
      while keys != {}
        invariant keys <= before.Keys && limiters.Keys <= before.Keys
        invariant forall key :: key in before ==> (key in limiters <==> key in keys || before[key].lastSeen >= cutoff)
        invariant forall key :: key in limiters ==> limiters[key] == before[key]
        decreases |keys|
      {
        var key :| key in keys;
        if limiters[key].lastSeen < cutoff {
          limiters := limiters - {key};
        }
        keys := keys - {key};
      }
      clock := now;
      forall key | key in requests ensures KeyOk(limiters, key, requests[key], now) {
        ReapedStayOk(before, limiters, key, requests[key], earlier, now);
      }
    }
  }
}
