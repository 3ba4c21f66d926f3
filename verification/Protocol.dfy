/**
 Crash-safe settlement, over every run: what the wallet backend has seen of a
 match, when its pending row may disappear, and how often its positions are
 written.
 */
module Protocol {
  import opened Types
  import opened Book
  import opened Ledger
  import opened Market

  // ---------------------------------------------------------------- exactly once at the backend

  lemma NextRoleIsNew(roles: seq<Role>, role: Role)
    requires roles + [role] <= PLAN
    ensures role !in roles
  {
    assert role == PLAN[|roles|];
    forall k | 0 <= k < |roles| ensures roles[k] != role {
      assert roles[k] == (roles + [role])[k] == PLAN[k];
    }
  }

  /** Prefixes of the plan name each role once, so no movement is in the log twice. */
  lemma {:induction false} MovementsAreDistinct(log: seq<Key>)
    requires forall row: nat :: RolesOf(log, row) <= PLAN
    ensures forall i, j :: 0 <= i < j < |log| ==> log[i] != log[j]
  {
    if |log| > 0 {
      var n := |log| - 1;
      var front := log[..n];
      forall row: nat ensures RolesOf(front, row) <= PLAN {
        assert RolesOf(log, row) <= PLAN;
      }
      MovementsAreDistinct(front);
      RolesOfMembers(front, log[n].row, log[n].role);
      assert RolesOf(log, log[n].row) == RolesOf(front, log[n].row) + [log[n].role];
      assert RolesOf(log, log[n].row) <= PLAN;
      NextRoleIsNew(RolesOf(front, log[n].row), log[n].role);
      forall i | 0 <= i < n ensures log[i] != log[n] {
        assert log[i] == front[i];
      }
    }
  }

  /** The movements a match has landed: a prefix of the plan, each at most once. */
  lemma EffectsLandInPlanOrderAtMostOnce(s: State, row: nat)
    requires Reachable(s)
    ensures RolesOf(s.log, row) <= [MakerDebit, TakerDebit, MakerFee, TakerFee]
    ensures forall i, j :: 0 <= i < j < |s.log| ==> s.log[i] != s.log[j]
  {
    ReachableInv(s);
    MovementsAreDistinct(s.log);
  }

  /** No committed match is ever lost: it is still pending, or all of it has happened. */
  lemma NoMatchIsLost(s: State, row: nat)
    requires Reachable(s)
    ensures row < |s.matches| ==> row in s.pending || (RolesOf(s.log, row) == PLAN && row in s.fills)
  {
    ReachableInv(s);
    if row < |s.matches| {
      assert RowOk(row, s.log, s.fills, s.pending, s.attempts);
      TimesPositive(s.fills, row);
    }
  }

  /** Positions are written only once both debits and both fees have landed. */
  lemma PositionsFollowTheMoney(s: State, row: nat)
    requires Reachable(s)
    ensures row in s.fills ==> RolesOf(s.log, row) == PLAN
  {
    ReachableInv(s);
    if row in s.fills {
      TimesPositive(s.fills, row);
      assert RowOk(row, s.log, s.fills, s.pending, s.attempts);
    }
  }

  /**
   A movement is in once its request arrived, whether or not the reply did, and the
   attempt goes on to the next exactly when it got the reply; otherwise it stops.
   */
  lemma SendLandsIff(s: State, a: nat, outcome: Outcome)
    requires a < |s.attempts| && s.attempts[a].running && s.attempts[a].stage < WRITE
    ensures var x, t := s.attempts[a], Apply(s, Send(a, outcome));
            var key := Key(x.row, PLAN[x.stage]);
            && (key in t.log <==> outcome != NeverArrived || key in s.log)
            && t.attempts[a] == (if outcome == Acked then Attempt(x.row, x.stage + 1, true)
                                 else Attempt(x.row, x.stage, false))
  {
  }

  /**
   The position transaction and the delete likewise: what took effect took effect,
   and the attempt goes on from the first exactly when it heard so.
   */
  lemma CommitsWhateverIsHeard(s: State, a: nat, outcome: Outcome)
    requires a < |s.attempts| && s.attempts[a].row < |s.matches|
    ensures AtStage(s, a, WRITE) && Records(s.positions, s.matches[s.attempts[a].row]) ==>
              var t := Apply(s, Record(a, outcome));
              && (t.fills != s.fills <==> outcome != NeverArrived)
              && (AtStage(t, a, ERASE) <==> outcome == Acked)
    ensures AtStage(s, a, ERASE) ==>
              (s.attempts[a].row in Apply(s, Erase(a, outcome)).pending
               <==> outcome == NeverArrived && s.attempts[a].row in s.pending)
  {
  }

  /** History is only ever appended to. */
  lemma HistoryGrows(s: State, e: Event)
    ensures var t := Apply(s, e);
            && s.matches <= t.matches && s.log <= t.log && s.fills <= t.fills && s.nettings <= t.nettings
            && s.unlocks <= t.unlocks && |s.orders| <= |t.orders| && |s.attempts| <= |t.attempts|
  {
  }

  // ---------------------------------------------------------------- a fault-free settlement

  /** All four movements of a row landed, whatever had landed before. */
  function LandPlan(log: seq<Key>, row: nat): seq<Key>
  {
    Land(Land(Land(Land(log, Key(row, PLAN[0])), Key(row, PLAN[1])), Key(row, PLAN[2])), Key(row, PLAN[3]))
  }

  lemma PlanLands(log: seq<Key>, row: nat, role: Role)
    ensures Key(row, role) in LandPlan(log, row)
  {
  }

  /** Step k of one undisturbed call of the settlement routine. */
  function CleanStep(a: nat, row: nat, k: nat): Event
  {
    if k == 0 then Begin(row)
    else if k <= 4 then Send(a, Acked)
    else if k == 5 then Record(a, Acked)
    else Erase(a, Acked)
  }

  /** The events of one undisturbed call: begin, four movements, write, erase. */
  function CleanCall(a: nat, row: nat): (es: seq<Event>)
    ensures |es| == 7 && forall k :: 0 <= k < 7 ==> es[k] == CleanStep(a, row, k)
  {
    seq(7, k requires 0 <= k < 7 => CleanStep(a, row, k))
  }

  ghost function Settled(s: State, row: nat): State
    requires row < |s.matches|
  {
    s.(log := LandPlan(s.log, row),
       positions := ApplyFill(s.positions, s.matches[row]),
       fills := s.fills + [row],
       pending := s.pending - {row},
       attempts := s.attempts + [Attempt(row, DONE, false)])
  }

  /** The money has moved, but the database rejects the position transaction. */
  function Stuck(s: State, row: nat): State
  {
    s.(log := LandPlan(s.log, row), attempts := s.attempts + [Attempt(row, WRITE, false)])
  }

  ghost function SettledOrStuck(s: State, row: nat): State
    requires row < |s.matches|
  {
    if Records(s.positions, s.matches[row]) then Settled(s, row) else Stuck(s, row)
  }

  ghost predicate IsCallEnd(s: State, row: nat, t: State)
    requires row < |s.matches|
  {
    && t.matches == s.matches && |t.attempts| == |s.attempts| + 1
    && forall u {:trigger Seen(u)} :: Seen(u) && u == SettledOrStuck(s, row) ==> t == u
  }

  /** What an undisturbed call leaves, chosen rather than computed. */
  ghost function CallEnd(s: State, row: nat): (t: State)
    requires row < |s.matches|
    ensures t.matches == s.matches && |t.attempts| == |s.attempts| + 1
  {
    assert IsCallEnd(s, row, SettledOrStuck(s, row));
    var t :| IsCallEnd(s, row, t);
    t
  }

  lemma CallEndIs(s: State, row: nat)
    requires row < |s.matches|
    ensures CallEnd(s, row) == if Records(s.positions, s.matches[row]) then Settled(s, row) else Stuck(s, row)
  {
    assert IsCallEnd(s, row, CallEnd(s, row));
    assert Seen(SettledOrStuck(s, row));
  }

  function Sending(s: State, row: nat, stage: nat): State
    requires stage <= 4
  {
    var l1 := if stage >= 1 then Land(s.log, Key(row, PLAN[0])) else s.log;
    var l2 := if stage >= 2 then Land(l1, Key(row, PLAN[1])) else l1;
    var l3 := if stage >= 3 then Land(l2, Key(row, PLAN[2])) else l2;
    var l4 := if stage >= 4 then Land(l3, Key(row, PLAN[3])) else l3;
    s.(log := l4, attempts := s.attempts + [Attempt(row, stage, true)])
  }

  lemma ReplaceLast(xs: seq<Attempt>, x: Attempt, y: Attempt)
    ensures (xs + [x])[|xs| := y] == xs + [y]
  {
  }

  lemma SendStep(s: State, row: nat, stage: nat)
    requires stage < 4
    ensures Apply(Sending(s, row, stage), Send(|s.attempts|, Acked)) == Sending(s, row, stage + 1)
  {
    ReplaceLast(s.attempts, Attempt(row, stage, true), Attempt(row, stage + 1, true));
  }

  ghost function Recorded(s: State, row: nat): State
    requires row < |s.matches|
  {
    s.(log := LandPlan(s.log, row),
       positions := ApplyFill(s.positions, s.matches[row]),
       fills := s.fills + [row],
       attempts := s.attempts + [Attempt(row, ERASE, true)])
  }

  /** The state after the position transaction of an undisturbed call. */
  ghost function AfterWrite(s: State, row: nat): State
    requires row < |s.matches|
  {
    if Records(s.positions, s.matches[row]) then Recorded(s, row) else Stuck(s, row)
  }

  lemma RecordStep(s: State, row: nat)
    requires row < |s.matches|
    ensures Apply(Sending(s, row, 4), Record(|s.attempts|, Acked)) == AfterWrite(s, row)
  {
    ReplaceLast(s.attempts, Attempt(row, WRITE, true), Attempt(row, ERASE, true));
    ReplaceLast(s.attempts, Attempt(row, WRITE, true), Attempt(row, WRITE, false));
    assert Sending(s, row, 4).log == LandPlan(s.log, row);
  }

  lemma EraseStep(s: State, row: nat)
    requires row < |s.matches|
    ensures Apply(AfterWrite(s, row), Erase(|s.attempts|, Acked)) == CallEnd(s, row)
  {
    CallEndIs(s, row);
    ReplaceLast(s.attempts, Attempt(row, ERASE, true), Attempt(row, DONE, false));
  }

  lemma CallPrefix(a: nat, row: nat, k: nat)
    requires k < 7
    ensures CleanCall(a, row)[..k + 1] == CleanCall(a, row)[..k] + [CleanStep(a, row, k)]
  {
  }

  lemma {:induction false} SendsArrive(s: State, row: nat, stage: nat)
    requires row < |s.matches| && stage <= 4
    ensures Reached(s, CleanCall(|s.attempts|, row)[..1 + stage], Sending(s, row, stage))
  {
    var es := CleanCall(|s.attempts|, row);
    CallPrefix(|s.attempts|, row, stage);
    if stage == 0 {
      assert es[..0] == [];
      ReachedIsAfter(s, [], s);
      ReachedPush(s, es[..0], s, Begin(row));
    } else {
      SendsArrive(s, row, stage - 1);
      SendStep(s, row, stage - 1);
      ReachedPush(s, es[..stage], Sending(s, row, stage - 1), Send(|s.attempts|, Acked));
    }
  }

  lemma WriteArrives(s: State, row: nat)
    requires row < |s.matches|
    ensures Reached(s, CleanCall(|s.attempts|, row)[..6], AfterWrite(s, row))
  {
    var a := |s.attempts|;
    SendsArrive(s, row, 4);
    RecordStep(s, row);
    CallPrefix(a, row, 5);
    ReachedPush(s, CleanCall(a, row)[..5], Sending(s, row, 4), Record(a, Acked));
  }

  /** An undisturbed call lands what is missing and, if the database takes the positions, erases the row. */
  lemma CleanCallReaches(s: State, row: nat)
    requires row < |s.matches|
    ensures Reached(s, CleanCall(|s.attempts|, row), CallEnd(s, row))
  {
    var a := |s.attempts|;
    WriteArrives(s, row);
    EraseStep(s, row);
    CallPrefix(a, row, 6);
    ReachedPush(s, CleanCall(a, row)[..6], AfterWrite(s, row), Erase(a, Acked));
    assert CleanCall(a, row)[..7] == CleanCall(a, row);
  }

  /**
   An undisturbed call settles a pending row exactly when the database takes its
   position transaction; otherwise the four movements are in and the row stays.
   */
  lemma CleanCallSettles(s: State, row: nat, t: State)
    requires row < |s.matches| && row in s.pending
    requires Reached(s, CleanCall(|s.attempts|, row), t)
    ensures Records(s.positions, s.matches[row]) ==> t == Settled(s, row)
    ensures !Records(s.positions, s.matches[row]) ==> t == Stuck(s, row)
    ensures row !in t.pending <==> Records(s.positions, s.matches[row])
  {
    CallEndIs(s, row);
    CleanCallReaches(s, row);
    ReachedOnce(s, CleanCall(|s.attempts|, row), t, CallEnd(s, row));
  }

  /** One undisturbed sweep over a list of rows, one settlement call after another. */
  function SweepCalls(a: nat, rows: seq<nat>): seq<Event>
  {
    if |rows| == 0 then []
    else
      var n := |rows| - 1;
      SweepCalls(a, rows[..n]) + CleanCall(a + n, rows[n])
  }

  lemma NextCall(a: nat, rows: seq<nat>, k: nat)
    requires k < |rows|
    ensures SweepCalls(a, rows[..k + 1]) == SweepCalls(a, rows[..k]) + CleanCall(a + k, rows[k])
  {
    assert rows[..k + 1][..k] == rows[..k];
  }

  function RowSet(rows: seq<nat>): (ids: set<nat>)
    ensures forall row :: row in ids <==> row in rows
  {
    if |rows| == 0 then {}
    else
      var n := |rows| - 1;
      assert rows == rows[..n] + [rows[n]];
      RowSet(rows[..n]) + {rows[n]}
  }

  predicate AreRows(rows: seq<nat>, matches: seq<Match>)
  {
    forall k :: 0 <= k < |rows| ==> rows[k] < |matches|
  }

  /** The positions after the fills of `rows`, one after another. */
  ghost function FillAll(ps: seq<Position>, matches: seq<Match>, rows: seq<nat>): seq<Position>
    requires AreRows(rows, matches)
  {
    if |rows| == 0 then ps else ApplyFill(FillAll(ps, matches, rows[..|rows| - 1]), matches[rows[|rows| - 1]])
  }

  /** The database takes the position transaction of each row when its turn comes. */
  ghost predicate AllRecord(ps: seq<Position>, matches: seq<Match>, rows: seq<nat>)
    requires AreRows(rows, matches)
  {
    forall k :: 0 <= k < |rows| ==> Records(FillAll(ps, matches, rows[..k]), matches[rows[k]])
  }

  lemma FillAllPush(ps: seq<Position>, matches: seq<Match>, rows: seq<nat>, k: nat)
    requires AreRows(rows, matches) && k < |rows|
    ensures FillAll(ps, matches, rows[..k + 1]) == ApplyFill(FillAll(ps, matches, rows[..k]), matches[rows[k]])
  {
    assert rows[..k + 1][..k] == rows[..k];
  }

  lemma AllRecordPush(ps: seq<Position>, matches: seq<Match>, rows: seq<nat>, k: nat)
    requires AreRows(rows, matches) && k < |rows|
    ensures AllRecord(ps, matches, rows[..k + 1])
            <==> AllRecord(ps, matches, rows[..k]) && Records(FillAll(ps, matches, rows[..k]), matches[rows[k]])
  {
    forall j | 0 <= j <= k ensures rows[..k + 1][..j] == rows[..j] && (j < k ==> rows[..k][..j] == rows[..j]) {
    }
    if AllRecord(ps, matches, rows[..k + 1]) {
      assert rows[..k + 1][k] == rows[k];
    }
  }

  /** Without debts every sweep can be recorded. */
  lemma {:induction false} NoDebtsAllRecord(ps: seq<Position>, matches: seq<Match>, rows: seq<nat>, k: nat)
    requires AreRows(rows, matches) && k <= |rows|
    requires AllFit(ps) && NoDebts(ps) && UniqueRows(ps) && AllMatchesOk(matches)
    ensures AllRecord(ps, matches, rows[..k])
    ensures var qs := FillAll(ps, matches, rows[..k]); AllFit(qs) && NoDebts(qs) && UniqueRows(qs)
  {
    if k > 0 {
      var qs := FillAll(ps, matches, rows[..k - 1]);
      var m := matches[rows[k - 1]];
      NoDebtsAllRecord(ps, matches, rows, k - 1);
      NoDebtsRecords(qs, m);
      AllRecordPush(ps, matches, rows, k - 1);
      FillAllPush(ps, matches, rows, k - 1);
      ApplyFillFits(qs, m);
      FillKeepsNoDebts(qs, m);
    }
  }

  lemma FillKeepsNoDebts(ps: seq<Position>, m: Match)
    requires UniqueRows(ps) && NoDebts(ps) && MatchOk(m)
    ensures UniqueRows(ApplyFill(ps, m)) && NoDebts(ApplyFill(ps, m))
  {
    ApplyFillIsBothUpserts(ps, m);
    UpsertKeepsRows(ps, m.makerUser, m.makerSide, m.size, m.price);
    UpsertKeepsRows(Upsert(ps, m.makerUser, m.makerSide, m.size, m.price), m.takerUser, m.takerSide, m.size,
                    TakerPrice(m));
  }

  /** What an undisturbed sweep leaves. */
  ghost function SweepEnd(s: State, rows: seq<nat>): (t: State)
    requires AreRows(rows, s.matches)
    ensures t.matches == s.matches && |t.attempts| == |s.attempts| + |rows|
  {
    if |rows| == 0 then s else CallEnd(SweepEnd(s, rows[..|rows| - 1]), rows[|rows| - 1])
  }

  lemma LastRow(rows: seq<nat>)
    requires |rows| > 0
    ensures rows == rows[..|rows| - 1] + [rows[|rows| - 1]]
  {
  }

  lemma CallReaches(s: State, es: seq<Event>, mid: State, a: nat, row: nat)
    requires Reached(s, es, mid) && row < |mid.matches| && a == |mid.attempts|
    ensures Reached(s, es + CleanCall(a, row), CallEnd(mid, row))
  {
    CleanCallReaches(mid, row);
    ReachedConcat(s, es, mid, CleanCall(a, row), CallEnd(mid, row));
  }

  lemma {:induction false} SweepReaches(s: State, rows: seq<nat>)
    requires AreRows(rows, s.matches)
    ensures Reached(s, SweepCalls(|s.attempts|, rows), SweepEnd(s, rows))
  {
    if |rows| == 0 {
      ReachedIsAfter(s, [], s);
    } else {
      var n := |rows| - 1;
      var mid, calls, a, row := SweepEnd(s, rows[..n]), SweepCalls(|s.attempts|, rows[..n]), |s.attempts| + n, rows[n];
      SweepReaches(s, rows[..n]);
      CallReaches(s, calls, mid, a, row);
    }
  }

  /** A sweep from s to t settled every one of its rows, once, and touched nothing else. */
  ghost predicate Swept(s: State, t: State, rows: seq<nat>)
    requires AreRows(rows, s.matches)
  {
    && t.pending == s.pending - RowSet(rows)
    && t.positions == FillAll(s.positions, s.matches, rows)
    && t.trading == s.trading && t.orders == s.orders && t.unlocks == s.unlocks
    && t.matches == s.matches && t.nettings == s.nettings
    && t.fills == s.fills + rows
    && |t.attempts| == |s.attempts| + |rows|
  }

  lemma NothingSwept(s: State)
    ensures Swept(s, s, [])
  {
    assert s.pending == s.pending - RowSet([]);
  }

  lemma SettledIsSwept(s: State, mid: State, rows: seq<nat>, row: nat)
    requires AreRows(rows, s.matches) && Swept(s, mid, rows) && row < |s.matches|
    ensures Swept(s, Settled(mid, row), rows + [row])
  {
    assert RowSet(rows + [row]) == RowSet(rows) + {row};
    assert (rows + [row])[..|rows|] == rows;
  }

  lemma {:induction false} SweepSettles(s: State, rows: seq<nat>)
    requires AreRows(rows, s.matches) && AllRecord(s.positions, s.matches, rows)
    ensures Swept(s, SweepEnd(s, rows), rows)
  {
    if |rows| == 0 {
      NothingSwept(s);
    } else {
      var n := |rows| - 1;
      LastRow(rows);
      assert rows[..n + 1] == rows;
      AllRecordPush(s.positions, s.matches, rows, n);
      SweepSettles(s, rows[..n]);
      CallEndIs(SweepEnd(s, rows[..n]), rows[n]);
      SettledIsSwept(s, SweepEnd(s, rows[..n]), rows[..n], rows[n]);
    }
  }

  /** A fault-free sweep the database takes in full erases every row it was given, and no other. */
  lemma SweepEmptiesItsRows(s: State, rows: seq<nat>, t: State)
    requires AreRows(rows, s.matches) && AllRecord(s.positions, s.matches, rows)
    requires Reached(s, SweepCalls(|s.attempts|, rows), t)
    ensures Swept(s, t, rows)
  {
    SweepSettles(s, rows);
    SweepReaches(s, rows);
    ReachedOnce(s, SweepCalls(|s.attempts|, rows), t, SweepEnd(s, rows));
  }

  /** As long as nobody is in debt it does. */
  lemma SweepWithoutDebts(s: State, rows: seq<nat>, t: State)
    requires Reachable(s) && AreRows(rows, s.matches) && NoDebts(s.positions)
    requires Reached(s, SweepCalls(|s.attempts|, rows), t)
    ensures Swept(s, t, rows)
  {
    ReachableInv(s);
    assert rows[..|rows|] == rows;
    NoDebtsAllRecord(s.positions, s.matches, rows, |rows|);
    SweepEmptiesItsRows(s, rows, t);
  }

  predicate Distinct(rows: seq<nat>)
  {
    forall i, j :: 0 <= i < j < |rows| ==> rows[i] != rows[j]
  }

  predicate NonePending(rows: seq<nat>, pending: set<nat>)
  {
    forall k :: 0 <= k < |rows| ==> rows[k] !in pending
  }

  lemma CallErasesIff(s: State, row: nat)
    requires row < |s.matches| && row in s.pending
    ensures row !in CallEnd(s, row).pending <==> Records(s.positions, s.matches[row])
    ensures forall r :: r != row ==> (r in CallEnd(s, row).pending <==> r in s.pending)
  {
    CallEndIs(s, row);
  }

  lemma {:induction false} OtherRowsStay(s: State, rows: seq<nat>, row: nat)
    requires AreRows(rows, s.matches) && row !in rows && row in s.pending
    ensures row in SweepEnd(s, rows).pending
  {
    if |rows| > 0 {
      LastRow(rows);
      OtherRowsStay(s, rows[..|rows| - 1], row);
      CallEndIs(SweepEnd(s, rows[..|rows| - 1]), rows[|rows| - 1]);
    }
  }

  lemma NonePendingPush(rows: seq<nat>, row: nat, before: set<nat>, after: set<nat>)
    requires row !in rows && forall r :: r != row ==> (r in after <==> r in before)
    ensures NonePending(rows + [row], after) <==> NonePending(rows, before) && row !in after
  {
    if NonePending(rows + [row], after) {
      assert (rows + [row])[|rows|] == row;
      forall k | 0 <= k < |rows| ensures rows[k] !in before {
        assert (rows + [row])[k] == rows[k];
      }
    }
  }

  lemma OneMoreErasesIff(s: State, front: seq<nat>, mid: State, row: nat)
    requires AreRows(front, s.matches) && row < |s.matches| && mid == SweepEnd(s, front)
    requires row !in front && row in s.pending
    requires NonePending(front, mid.pending) <==> AllRecord(s.positions, s.matches, front)
    ensures NonePending(front + [row], CallEnd(mid, row).pending)
            <==> AllRecord(s.positions, s.matches, front)
                 && Records(FillAll(s.positions, s.matches, front), s.matches[row])
  {
    OtherRowsStay(s, front, row);
    CallErasesIff(mid, row);
    NonePendingPush(front, row, mid.pending, CallEnd(mid, row).pending);
    if AllRecord(s.positions, s.matches, front) {
      SweepSettles(s, front);
    }
  }

  predicate DistinctPending(rows: seq<nat>, matches: seq<Match>, pending: set<nat>)
  {
    AreRows(rows, matches) && Distinct(rows) && forall k :: 0 <= k < |rows| ==> rows[k] in pending
  }

  lemma DistinctFront(rows: seq<nat>, matches: seq<Match>, pending: set<nat>)
    requires |rows| > 0 && DistinctPending(rows, matches, pending)
    ensures var n := |rows| - 1;
            && DistinctPending(rows[..n], matches, pending)
            && rows[n] < |matches| && rows[n] !in rows[..n] && rows[n] in pending
            && rows == rows[..n] + [rows[n]] && rows[..n + 1] == rows
  {
  }

  lemma {:induction false} SweepEndErasesIff(s: State, rows: seq<nat>)
    requires DistinctPending(rows, s.matches, s.pending)
    ensures NonePending(rows, SweepEnd(s, rows).pending) <==> AllRecord(s.positions, s.matches, rows)
  {
    if |rows| > 0 {
      var n := |rows| - 1;
      var front, row := rows[..n], rows[n];
      DistinctFront(rows, s.matches, s.pending);
      var mid := SweepEnd(s, front);
      SweepEndErasesIff(s, front);
      OneMoreErasesIff(s, front, mid, row);
      AllRecordPush(s.positions, s.matches, rows, n);
    }
  }

  /**
   And exactly then, for distinct pending rows: a fault-free sweep clears them all if
   and only if all are recorded.
   */
  lemma SweepErasesAllIff(s: State, rows: seq<nat>, t: State)
    requires DistinctPending(rows, s.matches, s.pending)
    requires Reached(s, SweepCalls(|s.attempts|, rows), t)
    ensures NonePending(rows, t.pending) <==> AllRecord(s.positions, s.matches, rows)
  {
    SweepEndErasesIff(s, rows);
    SweepReaches(s, rows);
    ReachedOnce(s, SweepCalls(|s.attempts|, rows), t, SweepEnd(s, rows));
  }

  // ---------------------------------------------------------------- how often positions are written

  /** The exact count, for every run: once per attempt that got past its position transaction. */
  lemma PositionsWrittenOncePerWrittenAttempt(s: State, row: nat)
    requires Reachable(s)
    ensures Times(s.fills, row) == Written(s.attempts, row)
    ensures row < |s.matches| && row !in s.pending ==> Times(s.fills, row) >= 1
  {
    ReachableInv(s);
    if row < |s.matches| {
      assert RowOk(row, s.log, s.fills, s.pending, s.attempts);
    } else {
      NoFillsBeyond(s.fills, s.matches, row);
      forall a | 0 <= a < |s.attempts| ensures s.attempts[a].row < |s.matches| {
        assert AttemptOk(s.attempts[a], s.matches, s.log, s.pending);
      }
      NothingWrittenBeyond(s.attempts, |s.matches|, row);
    }
  }

  predicate AllOnce(fills: seq<nat>, count: nat)
  {
    forall row :: 0 <= row < count ==> Times(fills, row) <= 1
  }

  /** Every match's position transaction has been committed at most once. */
  predicate OnceEach(s: State)
  {
    AllOnce(s.fills, |s.matches|)
  }

  /** The event commits the position transaction of the attempt it names. */
  ghost predicate Commits(s: State, e: Event)
  {
    && e.Record? && AtStage(s, e.attempt, WRITE) && e.outcome != NeverArrived
    && s.attempts[e.attempt].row < |s.matches| && Records(s.positions, s.matches[s.attempts[e.attempt].row])
  }

  /** It does so for a row that a fill already records, which a caller could look up first. */
  ghost predicate WritesAgain(s: State, e: Event)
  {
    Commits(s, e) && s.attempts[e.attempt].row in s.fills
  }

  ghost predicate NeverWritesAgain(s: State, es: seq<Event>)
  {
    |es| == 0 || (NeverWritesAgain(s, es[..|es| - 1]) && !WritesAgain(After(s, es[..|es| - 1]), es[|es| - 1]))
  }

  lemma FillsAreCommits(s: State, e: Event)
    ensures Apply(s, e).fills == if Commits(s, e) then s.fills + [s.attempts[e.attempt].row] else s.fills
    ensures s.matches <= Apply(s, e).matches && (Commits(s, e) ==> Apply(s, e).matches == s.matches)
  {
  }

  lemma OneMoreFill(fills: seq<nat>, count: nat, row: nat)
    requires row < count
    ensures AllOnce(fills + [row], count) <==> AllOnce(fills, count) && row !in fills
  {
    TimesPositive(fills, row);
    forall r: nat ensures Times(fills + [row], r) == Times(fills, r) + if row == r then 1 else 0 {
      TimesPush(fills, row, r);
    }
    if AllOnce(fills + [row], count) {
      forall r | 0 <= r < count ensures Times(fills, r) <= 1 {
        assert Times(fills + [row], r) <= 1;
      }
      assert Times(fills + [row], row) <= 1;
    }
  }

  lemma NewMatchesAreUnwritten(fills: seq<nat>, matches: seq<Match>, count: nat)
    requires FillsOk(fills, matches) && |matches| <= count
    ensures AllOnce(fills, count) <==> AllOnce(fills, |matches|)
  {
    forall row | |matches| <= row < count ensures Times(fills, row) == 0 {
      NoFillsBeyond(fills, matches, row);
    }
  }

  /** One step keeps every match written at most once exactly when it does not write one again. */
  lemma StepWritesOnceIff(s: State, e: Event)
    requires Inv(s)
    ensures OnceEach(Apply(s, e)) <==> OnceEach(s) && !WritesAgain(s, e)
  {
    var t := Apply(s, e);
    FillsAreCommits(s, e);
    NewMatchesAreUnwritten(s.fills, s.matches, |t.matches|);
    if Commits(s, e) {
      OneMoreFill(s.fills, |s.matches|, s.attempts[e.attempt].row);
    }
  }

  lemma {:induction false} RunWritesOnceIff(es: seq<Event>)
    ensures OnceEach(After(INIT, es)) <==> NeverWritesAgain(INIT, es)
  {
    if |es| > 0 {
      RunWritesOnceIff(es[..|es| - 1]);
      InitInv();
      RunsKeepInv(INIT, es[..|es| - 1]);
      StepWritesOnceIff(After(INIT, es[..|es| - 1]), es[|es| - 1]);
    }
  }

  /**
   Over every run: each match's positions were written at most once if and only if
   no position transaction was ever committed for a row that was already filled.
   */
  lemma WrittenOnceIff(es: seq<Event>, s: State)
    requires Reached(INIT, es, s)
    ensures OnceEach(s) <==> NeverWritesAgain(INIT, es)
  {
    RunWritesOnceIff(es);
    ReachedIsAfter(INIT, es, s);
  }

  /** So a retry of a pending row is safe exactly when the row is not filled yet, or the database rejects it. */
  lemma RetryIsSafeIff(s: State, row: nat, t: State)
    requires OnceEach(s) && row < |s.matches| && row in s.pending
    requires Reached(s, CleanCall(|s.attempts|, row), t)
    ensures OnceEach(t) <==> row !in s.fills || !Records(s.positions, s.matches[row])
  {
    CleanCallSettles(s, row, t);
    OneMoreFill(s.fills, |s.matches|, row);
  }

  lemma {:induction false} MoreFills(fills: seq<nat>, count: nat, rows: seq<nat>)
    requires AllOnce(fills, count) && Distinct(rows) && forall k :: 0 <= k < |rows| ==> rows[k] < count
    ensures AllOnce(fills + rows, count) <==> forall k :: 0 <= k < |rows| ==> rows[k] !in fills
  {
    if |rows| == 0 {
      assert fills + rows == fills;
    } else {
      var n := |rows| - 1;
      MoreFills(fills, count, rows[..n]);
      OneMoreFill(fills + rows[..n], count, rows[n]);
      assert fills + rows == fills + rows[..n] + [rows[n]];
    }
  }

  /** And a fault-free sweep that the database takes in full, when none of its rows is filled yet. */
  lemma SweepIsSafeIff(s: State, rows: seq<nat>, t: State)
    requires OnceEach(s) && DistinctPending(rows, s.matches, s.pending) && AllRecord(s.positions, s.matches, rows)
    requires Reached(s, SweepCalls(|s.attempts|, rows), t)
    ensures OnceEach(t) <==> forall k :: 0 <= k < |rows| ==> rows[k] !in s.fills
  {
    SweepEmptiesItsRows(s, rows, t);
    MoreFills(s.fills, |s.matches|, rows);
  }

  lemma RetryReaches(s: State, a: nat)
    requires a < |s.attempts| && s.attempts[a].row < |s.matches|
    ensures var row := s.attempts[a].row;
            Reached(s, [Crash(a)] + CleanCall(|s.attempts|, row), CallEnd(ApplyCrash(s, a), row))
  {
    var row := s.attempts[a].row;
    var mid := ApplyCrash(s, a);
    ReachedIsAfter(s, [], s);
    ReachedPush(s, [], s, Crash(a));
    assert [] + [Crash(a)] == [Crash(a)];
    CleanCallReaches(mid, row);
    ReachedConcat(s, [Crash(a)], mid, CleanCall(|s.attempts|, row), CallEnd(mid, row));
  }

  /**
   From any state in which an attempt has written the positions of a row but not
   yet erased it, a crash there followed by an undisturbed retry writes them again,
   unless the database rejects them this time, which leaves the row as it was.
   */
  lemma RetryAfterCrashWritesAgain(s: State, a: nat)
    requires Inv(s) && AtStage(s, a, ERASE)
    ensures var row := s.attempts[a].row;
            var t := After(s, [Crash(a)] + CleanCall(|s.attempts|, row));
            && row < |s.matches| && t.matches == s.matches
            && (Records(s.positions, s.matches[row]) ==>
                  t.pending == s.pending - {row} && Times(t.fills, row) == Times(s.fills, row) + 1 >= 2)
            && (!Records(s.positions, s.matches[row]) ==> t.pending == s.pending && t.fills == s.fills)
  {
    var row := s.attempts[a].row;
    assert AttemptOk(s.attempts[a], s.matches, s.log, s.pending);
    assert RowOk(row, s.log, s.fills, s.pending, s.attempts);
    WrittenPositive(s.attempts, a);
    TimesPush(s.fills, row, row);
    RetryReaches(s, a);
    CallEndIs(ApplyCrash(s, a), row);
    ReachedIsAfter(s, [Crash(a)] + CleanCall(|s.attempts|, row), CallEnd(ApplyCrash(s, a), row));
  }

  /** Rows are settled by one caller at a time, and no caller dies between write and erase. */
  predicate Calm(s: State, e: Event)
  {
    match e
    case Begin(row) =>
      && row in s.pending
      && forall a :: 0 <= a < |s.attempts| && s.attempts[a].row == row ==> !s.attempts[a].running
    case Record(a, outcome) => outcome != ReplyLost
    case Erase(a, outcome) => outcome != NeverArrived
    case Crash(a) => !AtStage(s, a, ERASE)
    case _ => true
  }

  ghost predicate CalmRun(s: State, es: seq<Event>)
  {
    |es| == 0 || (CalmRun(s, es[..|es| - 1]) && Calm(After(s, es[..|es| - 1]), es[|es| - 1]))
  }

  predicate CalmInv(attempts: seq<Attempt>, pending: set<nat>)
  {
    && (forall a :: 0 <= a < |attempts| && attempts[a].stage == ERASE ==> attempts[a].running)
    && (forall a :: 0 <= a < |attempts| && attempts[a].running ==>
          attempts[a].row in pending && attempts[a].stage < DONE)
    && (forall a :: 0 <= a < |attempts| && attempts[a].stage >= DONE ==> attempts[a].row !in pending)
    && (forall a, b :: 0 <= a < b < |attempts| && attempts[a].running && attempts[b].running ==>
          attempts[a].row != attempts[b].row)
    && (forall a, b :: 0 <= a < b < |attempts| && attempts[a].stage >= ERASE && attempts[b].stage >= ERASE
                       ==> attempts[a].row != attempts[b].row)
  }

  lemma CalmSubmit(s: State, count: nat)
    requires Inv(s) && CalmInv(s.attempts, s.pending)
    ensures CalmInv(s.attempts, s.pending + NewRows(|s.matches|, count))
  {
    forall a | 0 <= a < |s.attempts| ensures s.attempts[a].row < |s.matches| {
      assert AttemptOk(s.attempts[a], s.matches, s.log, s.pending);
    }
  }

  lemma CalmBegin(attempts: seq<Attempt>, pending: set<nat>, row: nat)
    requires CalmInv(attempts, pending) && row in pending
    requires forall a :: 0 <= a < |attempts| && attempts[a].row == row ==> !attempts[a].running
    ensures CalmInv(attempts + [Attempt(row, 0, true)], pending)
  {
  }

  lemma CalmSend(attempts: seq<Attempt>, pending: set<nat>, a: nat, stage: nat, running: bool)
    requires CalmInv(attempts, pending) && a < |attempts| && attempts[a].running && stage < ERASE
             && attempts[a].stage < ERASE
    ensures CalmInv(attempts[a := Attempt(attempts[a].row, stage, running)], pending)
  {
  }

  lemma CalmCrash(attempts: seq<Attempt>, pending: set<nat>, a: nat)
    requires CalmInv(attempts, pending) && a < |attempts| && !(attempts[a].running && attempts[a].stage == ERASE)
    ensures CalmInv(attempts[a := attempts[a].(running := false)], pending)
  {
  }

  lemma CalmSettlement(s: State, e: Event)
    requires Inv(s) && CalmInv(s.attempts, s.pending) && Calm(s, e) && IsSettlement(e)
    ensures CalmInv(Apply(s, e).attempts, Apply(s, e).pending)
  {
    match e
    case Begin(row) =>
      CalmBegin(s.attempts, s.pending, row);
    case Send(a, outcome) =>
      if a < |s.attempts| && s.attempts[a].running && s.attempts[a].stage < WRITE {
        var x := ApplySend(s, a, outcome).attempts[a];
        CalmSend(s.attempts, s.pending, a, x.stage, x.running);
      }
    case Record(a, outcome) =>
      CalmRecord(s, a, outcome);
    case Erase(a, outcome) =>
      CalmErase(s, a, outcome);
    case Crash(a) =>
      if a < |s.attempts| {
        CalmCrash(s.attempts, s.pending, a);
      }
  }

  lemma CalmStep(s: State, e: Event)
    requires Inv(s) && CalmInv(s.attempts, s.pending) && Calm(s, e)
    ensures CalmInv(Apply(s, e).attempts, Apply(s, e).pending)
  {
    if IsSettlement(e) {
      CalmSettlement(s, e);
    } else if e.Submit? {
      CalmSubmit(s, |MatchesFor(s.orders, e.user, e.side, e.price, e.size)|);
    }
  }

  lemma CalmRecord(s: State, a: nat, outcome: Outcome)
    requires CalmInv(s.attempts, s.pending) && outcome != ReplyLost
    ensures CalmInv(ApplyRecord(s, a, outcome).attempts, s.pending)
  {
    if AtStage(s, a, WRITE) {
      var t := ApplyRecord(s, a, outcome);
      forall b | 0 <= b < |t.attempts| && b != a && t.attempts[b].stage >= ERASE
        ensures t.attempts[b].row != t.attempts[a].row
      {
        assert t.attempts[b] == s.attempts[b];
      }
    }
  }

  lemma CalmErase(s: State, a: nat, outcome: Outcome)
    requires CalmInv(s.attempts, s.pending) && outcome != NeverArrived
    ensures CalmInv(ApplyErase(s, a, outcome).attempts, ApplyErase(s, a, outcome).pending)
  {
    if AtStage(s, a, ERASE) {
      var t := ApplyErase(s, a, outcome);
      forall b | 0 <= b < |t.attempts| && t.attempts[b].running ensures t.attempts[b].row in t.pending {
        assert t.attempts[b] == s.attempts[b];
      }
    }
  }

  lemma {:induction false} CalmRunsKeepCalmInv(es: seq<Event>)
    requires CalmRun(INIT, es)
    ensures CalmInv(After(INIT, es).attempts, After(INIT, es).pending)
  {
    if |es| > 0 {
      var front := es[..|es| - 1];
      CalmRunsKeepCalmInv(front);
      InitInv();
      RunsKeepInv(INIT, front);
      CalmStep(After(INIT, front), es[|es| - 1]);
    }
  }

  lemma {:induction false} DistinctWrittenOnce(attempts: seq<Attempt>, row: nat)
    requires forall a, b :: 0 <= a < b < |attempts| && attempts[a].stage >= ERASE && attempts[b].stage >= ERASE
                            ==> attempts[a].row != attempts[b].row
    ensures Written(attempts, row) <= 1
    ensures (forall a :: 0 <= a < |attempts| && attempts[a].stage >= ERASE ==> attempts[a].row != row)
            ==> Written(attempts, row) == 0
  {
    if |attempts| > 0 {
      DistinctWrittenOnce(attempts[..|attempts| - 1], row);
    }
  }

  /** A calm run leads here from the opening of the window. */
  ghost predicate CalmlyReachable(s: State)
  {
    exists es :: s == End(INIT, es) && CalmRun(INIT, es)
  }

  lemma CalmlyReachableInv(s: State)
    requires CalmlyReachable(s)
    ensures Reachable(s) && CalmInv(s.attempts, s.pending)
  {
    var es :| s == End(INIT, es) && CalmRun(INIT, es);
    ReachedIsAfter(INIT, es, s);
    CalmRunsKeepCalmInv(es);
  }

  /** With one caller at a time and no death between write and erase, positions are written once. */
  lemma CalmRunsWriteOnce(s: State, row: nat)
    requires CalmlyReachable(s)
    ensures Times(s.fills, row) <= 1
    ensures row < |s.matches| && row !in s.pending ==> Times(s.fills, row) == 1
  {
    CalmlyReachableInv(s);
    DistinctWrittenOnce(s.attempts, row);
    PositionsWrittenOncePerWrittenAttempt(s, row);
  }

  lemma {:induction false} WrittenBySome(attempts: seq<Attempt>, row: nat) returns (a: nat)
    requires Written(attempts, row) > 0
    ensures a < |attempts| && attempts[a].row == row && attempts[a].stage >= ERASE
  {
    var n := |attempts| - 1;
    if attempts[n].row == row && attempts[n].stage >= ERASE {
      a := n;
    } else {
      a := WrittenBySome(attempts[..n], row);
    }
  }

  /**
   In such runs, with the write and the erase seen together, pending rows and
   fill rows partition the matches: each match is in exactly one of the two.
   */
  lemma PendingAndFilledPartitionTheMatches(s: State, row: nat)
    requires CalmlyReachable(s) && forall a :: 0 <= a < |s.attempts| ==> s.attempts[a].stage != ERASE
    ensures row < |s.matches| ==> (row in s.pending <==> row !in s.fills)
  {
    CalmlyReachableInv(s);
    PositionsWrittenOncePerWrittenAttempt(s, row);
    TimesPositive(s.fills, row);
    if row < |s.matches| && row in s.fills {
      var a := WrittenBySome(s.attempts, row);
      ReachableInv(s);
      assert AttemptOk(s.attempts[a], s.matches, s.log, s.pending);
    }
  }
}
