/**
 The books kept about settled matches: movements landed at the wallet backend,
 fill rows, and position rows, with the sums that tie them together.
 */
module Ledger {
  import opened Types
  import opened Sums
  import opened Money

  /** The four remote movements of one match, in the order they are sent. */
  datatype Role = MakerDebit | TakerDebit | MakerFee | TakerFee

  const PLAN: seq<Role> := [MakerDebit, TakerDebit, MakerFee, TakerFee]

  /** Identity of a movement: the pending row's key plus the role suffix. */
  datatype Key = Key(row: nat, role: Role)

  /** Shares a user closed out by holding both sides. */
  datatype Netting = Netting(user: User, amount: int)

  predicate MatchOk(m: Match)
  {
    0 < m.price < ONE && m.size > 0 && m.takerSide == Opposite(m.makerSide)
  }

  predicate AllMatchesOk(matches: seq<Match>)
  {
    forall i :: 0 <= i < |matches| ==> MatchOk(matches[i])
  }

  // ---------------------------------------------------------------- remote movements

  /** The backend deduplicates on the key: a repeat is a no-op. */
  function Land(log: seq<Key>, key: Key): seq<Key>
  {
    if key in log then log else log + [key]
  }

  /** Signed effect of a movement on the pool: debits in, fees out; exact grains or raw units. */
  function Moved(m: Match, role: Role, raw: bool): int
  {
    var s := SplitOf(m.makerSide, m.price, m.size);
    match role
    case MakerDebit => if raw then ToRawUnits(s.makerCost + s.makerFee) else s.makerCost + s.makerFee
    case TakerDebit => if raw then ToRawUnits(s.takerCost + s.takerFee) else s.takerCost + s.takerFee
    case MakerFee => if raw then -ToRawUnits(s.makerFee) else -s.makerFee
    case TakerFee => if raw then -ToRawUnits(s.takerFee) else -s.takerFee
  }

  predicate KeysOk(log: seq<Key>, matches: seq<Match>)
  {
    forall k :: 0 <= k < |log| ==> log[k].row < |matches|
  }

  function MovedEach(log: seq<Key>, matches: seq<Match>, raw: bool): (xs: seq<int>)
    requires KeysOk(log, matches)
    ensures |xs| == |log|
  {
    seq(|log|, k requires 0 <= k < |log| => Moved(matches[log[k].row], log[k].role, raw))
  }

  /** Everything landed so far: debits minus fees. */
  function Pool(log: seq<Key>, matches: seq<Match>, raw: bool): int
    requires KeysOk(log, matches)
  {
    Sum(MovedEach(log, matches, raw))
  }

  /** The movements landed for one row, in order. */
  function RolesOf(log: seq<Key>, row: nat): seq<Role>
  {
    if |log| == 0 then []
    else
      var front := RolesOf(log[..|log| - 1], row);
      if log[|log| - 1].row == row then front + [log[|log| - 1].role] else front
  }

  lemma RolesOfPush(log: seq<Key>, key: Key, row: nat)
    ensures RolesOf(log + [key], row) == if key.row == row then RolesOf(log, row) + [key.role] else RolesOf(log, row)
  {
    assert (log + [key])[..|log|] == log;
  }

  lemma {:induction false} RolesOfMembers(log: seq<Key>, row: nat, role: Role)
    ensures role in RolesOf(log, row) <==> Key(row, role) in log
  {
    if |log| > 0 {
      var front := log[..|log| - 1];
      RolesOfMembers(front, row, role);
      assert log == front + [log[|log| - 1]];
    }
  }

  lemma {:induction false} NoRolesBeyond(log: seq<Key>, matches: seq<Match>, row: nat)
    requires KeysOk(log, matches) && row >= |matches|
    ensures RolesOf(log, row) == []
  {
    if |log| > 0 {
      NoRolesBeyond(log[..|log| - 1], matches, row);
    }
  }

  function SumRoles(m: Match, roles: seq<Role>, raw: bool): int
  {
    if |roles| == 0 then 0
    else SumRoles(m, roles[..|roles| - 1], raw) + Moved(m, roles[|roles| - 1], raw)
  }

  function PooledEach(log: seq<Key>, matches: seq<Match>, raw: bool): (xs: seq<int>)
    ensures |xs| == |matches|
  {
    seq(|matches|, i requires 0 <= i < |matches| => SumRoles(matches[i], RolesOf(log, i), raw))
  }

  lemma PooledPush(log: seq<Key>, key: Key, matches: seq<Match>, raw: bool)
    requires key.row < |matches|
    ensures var before := PooledEach(log, matches, raw);
            PooledEach(log + [key], matches, raw)
            == before[key.row := before[key.row] + Moved(matches[key.row], key.role, raw)]
  {
    var before := PooledEach(log, matches, raw);
    var after := PooledEach(log + [key], matches, raw);
    forall i | 0 <= i < |matches|
      ensures after[i] == before[key.row := before[key.row] + Moved(matches[key.row], key.role, raw)][i]
    {
      RolesOfPush(log, key, i);
      var roles := RolesOf(log, i);
      assert (roles + [key.role])[..|roles|] == roles;
    }
  }

  lemma PoolPush(log: seq<Key>, key: Key, matches: seq<Match>, raw: bool)
    requires KeysOk(log, matches) && key.row < |matches|
    ensures Pool(log + [key], matches, raw) == Pool(log, matches, raw) + Moved(matches[key.row], key.role, raw)
  {
    var moved := Moved(matches[key.row], key.role, raw);
    var a := MovedEach(log + [key], matches, raw);
    var b := MovedEach(log, matches, raw) + [moved];
    assert a == b;
    SumPush(MovedEach(log, matches, raw), moved);
  }

  lemma PoolByMatchPush(log: seq<Key>, key: Key, matches: seq<Match>, raw: bool)
    requires KeysOk(log, matches) && key.row < |matches|
    requires Pool(log, matches, raw) == Sum(PooledEach(log, matches, raw))
    ensures Pool(log + [key], matches, raw) == Sum(PooledEach(log + [key], matches, raw))
  {
    var before := PooledEach(log, matches, raw);
    PooledPush(log, key, matches, raw);
    SumUpdate(before, key.row, before[key.row] + Moved(matches[key.row], key.role, raw));
    PoolPush(log, key, matches, raw);
  }

  /** The pool is the sum over matches of what each one has landed. */
  lemma {:induction false} PoolByMatch(log: seq<Key>, matches: seq<Match>, raw: bool)
    requires KeysOk(log, matches)
    ensures Pool(log, matches, raw) == Sum(PooledEach(log, matches, raw))
  {
    if |log| == 0 {
      SumZero(PooledEach(log, matches, raw));
    } else {
      var front := log[..|log| - 1];
      assert log == front + [log[|log| - 1]];
      PoolByMatch(front, matches, raw);
      PoolByMatchPush(front, log[|log| - 1], matches, raw);
    }
  }

  lemma PlanSums(m: Match, raw: bool)
    ensures SumRoles(m, PLAN[..0], raw) == 0
    ensures SumRoles(m, PLAN[..1], raw) == Moved(m, MakerDebit, raw)
    ensures SumRoles(m, PLAN[..2], raw) == Moved(m, MakerDebit, raw) + Moved(m, TakerDebit, raw)
    ensures SumRoles(m, PLAN[..3], raw) == SumRoles(m, PLAN[..2], raw) + Moved(m, MakerFee, raw)
    ensures SumRoles(m, PLAN[..4], raw) == SumRoles(m, PLAN[..3], raw) + Moved(m, TakerFee, raw)
  {
    assert PLAN[..1][..0] == PLAN[..0] && PLAN[..2][..1] == PLAN[..1];
    assert PLAN[..3][..2] == PLAN[..2] && PLAN[..4][..3] == PLAN[..3];
  }

  /** Every prefix of the plan leaves the pool no poorer, and the whole plan pools the size. */
  lemma PlanPrefixPools(m: Match, n: nat)
    requires MatchOk(m) && n <= 4
    ensures SumRoles(m, PLAN[..n], false) >= 0
    ensures n >= 2 ==> SumRoles(m, PLAN[..n], false) >= ShareGrains(m.size)
    ensures n == 4 ==> SumRoles(m, PLAN[..n], false) == ShareGrains(m.size)
    ensures n == 4 ==> SumRoles(m, PLAN[..n], true) == RawPooled(SplitOf(m.makerSide, m.price, m.size))
  {
    SplitNonNegative(m.makerSide, m.price, m.size);
    SplitConserves(m.makerSide, m.price, m.size);
    PlanSums(m, false);
    PlanSums(m, true);
  }

  // ---------------------------------------------------------------- positions

  /** Index of a user's row for a side, or the table length if there is none. */
  function Find(ps: seq<Position>, user: User, side: Side): (r: nat)
    ensures r <= |ps|
    ensures r < |ps| ==> ps[r].user == user && ps[r].side == side
    ensures forall j :: 0 <= j < r ==> !(ps[j].user == user && ps[j].side == side)
  {
    if |ps| == 0 then 0
    else if ps[0].user == user && ps[0].side == side then 0
    else 1 + Find(ps[1..], user, side)
  }

  /** The user has a row on the side, whatever it holds. */
  predicate HasRow(ps: seq<Position>, user: User, side: Side)
  {
    Find(ps, user, side) < |ps|
  }

  function SharesOf(ps: seq<Position>, user: User, side: Side): int
  {
    var r := Find(ps, user, side);
    if r < |ps| then ps[r].shares else 0
  }

  /** An average outside this range does not fit its NUMERIC(6, 4) column. */
  const AVERAGE_LIMIT := 1_000_000

  /** The average an update computes; at a zero divisor the statement fails instead, see Accepts. */
  function Averaged(p: Position, add: int, price: int): int
  {
    if p.shares + add == 0 then p.avgPrice else Blend(p.shares, p.avgPrice, add, price)
  }

  ghost predicate IsAverage(p: Position, add: int, price: int, avg: int)
  {
    forall x {:trigger Seen(x)} :: Seen(x) && x == Averaged(p, add, price) ==> avg == x
  }

  /** The new stored average, chosen rather than computed. */
  ghost function NewAverage(p: Position, add: int, price: int): int
  {
    assert IsAverage(p, add, price, Averaged(p, add, price));
    var avg :| IsAverage(p, add, price, avg);
    avg
  }

  lemma NewAverageIsAveraged(p: Position, add: int, price: int)
    ensures NewAverage(p, add, price) == Averaged(p, add, price)
  {
    assert IsAverage(p, add, price, NewAverage(p, add, price));
    assert Seen(Averaged(p, add, price));
  }

  predicate Fits(avg: int)
  {
    -AVERAGE_LIMIT < avg < AVERAGE_LIMIT
  }

  predicate AllFit(ps: seq<Position>)
  {
    forall i :: 0 <= i < |ps| ==> Fits(ps[i].avgPrice)
  }

  /** The upsert succeeds: it neither divides by zero nor overflows the average's column. */
  ghost predicate Accepts(ps: seq<Position>, user: User, side: Side, add: int, price: int)
  {
    var r := Find(ps, user, side);
    r < |ps| ==> ps[r].shares + add != 0 && Fits(NewAverage(ps[r], add, price))
  }

  ghost function Upsert(ps: seq<Position>, user: User, side: Side, add: int, price: int): seq<Position>
  {
    var r := Find(ps, user, side);
    if r < |ps| then ps[r := ps[r].(shares := ps[r].shares + add, avgPrice := NewAverage(ps[r], add, price))]
    else ps + [Position(user, side, add, price)]
  }

  /** The price recorded for the taker's position. */
  function TakerPrice(m: Match): int
  {
    if m.takerSide == No then ONE - m.price else m.price
  }

  /** For a taker it is what a share cost it. */
  lemma TakerPriceIsPaid(m: Match)
    requires MatchOk(m)
    ensures TakerPrice(m) * m.size * 100_000 == SplitOf(m.makerSide, m.price, m.size).takerCost
    ensures TakerPrice(m) == if m.takerSide == Yes then m.price else 10_000 - m.price
  {
  }

  /** The maker is recorded at the YES price, which is what it paid exactly if it is on the YES side or at one half. */
  lemma MakerPriceIsPaidIff(m: Match)
    requires MatchOk(m)
    ensures m.price * m.size * 100_000 == SplitOf(m.makerSide, m.price, m.size).makerCost
            <==> m.makerSide == Yes || m.price == 5_000
  {
    assert (2 * m.price - 10_000) * m.size == m.price * m.size - (10_000 - m.price) * m.size;
    NonZeroProduct(2 * m.price - 10_000, m.size);
  }

  lemma NonZeroProduct(a: int, b: int)
    requires b > 0
    ensures a * b == 0 <==> a == 0
  {
    SignOf(a, b);
  }

  /** Both position updates of a settled match. */
  ghost function BothUpserts(ps: seq<Position>, m: Match): seq<Position>
  {
    Upsert(Upsert(ps, m.makerUser, m.makerSide, m.size, m.price), m.takerUser, m.takerSide, m.size, TakerPrice(m))
  }

  ghost predicate IsFilled(ps: seq<Position>, m: Match, qs: seq<Position>)
  {
    forall u {:trigger Seen(u)} :: Seen(u) && u == m ==> qs == BothUpserts(ps, u)
  }

  /** The positions after a match is recorded, chosen rather than computed. */
  ghost function ApplyFill(ps: seq<Position>, m: Match): seq<Position>
  {
    assert IsFilled(ps, m, BothUpserts(ps, m));
    var qs :| IsFilled(ps, m, qs);
    qs
  }

  lemma ApplyFillIsBothUpserts(ps: seq<Position>, m: Match)
    ensures ApplyFill(ps, m) == BothUpserts(ps, m)
  {
    assert IsFilled(ps, m, ApplyFill(ps, m));
    assert Seen(m);
  }

  /** The row a match gives a user who had none on that side. */
  lemma FirstFillIs(ps: seq<Position>, m: Match)
    requires MatchOk(m)
    ensures var qs := ApplyFill(ps, m);
            && (!HasRow(ps, m.makerUser, m.makerSide) ==>
                  Position(m.makerUser, m.makerSide, m.size, m.price) in qs)
            && (!HasRow(ps, m.takerUser, m.takerSide) ==>
                  Position(m.takerUser, m.takerSide, m.size,
                           if m.takerSide == Yes then m.price else 10_000 - m.price) in qs)
  {
    var mid := Upsert(ps, m.makerUser, m.makerSide, m.size, m.price);
    var qs := ApplyFill(ps, m);
    ApplyFillIsBothUpserts(ps, m);
    if !HasRow(ps, m.makerUser, m.makerSide) {
      assert mid[|ps|] == qs[|ps|] == Position(m.makerUser, m.makerSide, m.size, m.price);
    }
    if !HasRow(ps, m.takerUser, m.takerSide) {
      assert !HasRow(mid, m.takerUser, m.takerSide);
      assert qs[|mid|] == Position(m.takerUser, m.takerSide, m.size, TakerPrice(m));
    }
  }

  ghost predicate BothAccepted(ps: seq<Position>, m: Match)
  {
    && Accepts(ps, m.makerUser, m.makerSide, m.size, m.price)
    && Accepts(Upsert(ps, m.makerUser, m.makerSide, m.size, m.price), m.takerUser, m.takerSide, m.size, TakerPrice(m))
  }

  /** The position transaction of a match succeeds: both of its updates do. */
  ghost predicate Records(ps: seq<Position>, m: Match)
  {
    forall u {:trigger Seen(u)} :: Seen(u) && u == m ==> BothAccepted(ps, u)
  }

  lemma RecordsIsBothAccepted(ps: seq<Position>, m: Match)
    ensures Records(ps, m) <==> BothAccepted(ps, m)
  {
    assert Seen(m);
  }

  function NetPositions(ps: seq<Position>, user: User, amount: int): (r: seq<Position>)
    ensures |r| == |ps|
  {
    seq(|ps|, i requires 0 <= i < |ps| =>
      if ps[i].user == user then ps[i].(shares := ps[i].shares - amount) else ps[i])
  }

  predicate UniqueRows(ps: seq<Position>)
  {
    forall i, j :: 0 <= i < j < |ps| ==> !(ps[i].user == ps[j].user && ps[i].side == ps[j].side)
  }

  predicate NoDebts(ps: seq<Position>)
  {
    forall i :: 0 <= i < |ps| ==> ps[i].shares >= 0
  }

  lemma FindIs(ps: seq<Position>, r: nat)
    requires UniqueRows(ps) && r < |ps|
    ensures Find(ps, ps[r].user, ps[r].side) == r
  {
  }

  lemma UpsertKeepsRows(ps: seq<Position>, user: User, side: Side, add: int, price: int)
    requires UniqueRows(ps)
    ensures UniqueRows(Upsert(ps, user, side, add, price))
    ensures NoDebts(ps) && add >= 0 ==> NoDebts(Upsert(ps, user, side, add, price))
  {
    var r := Find(ps, user, side);
    var after := Upsert(ps, user, side, add, price);
    assert forall i :: 0 <= i < |ps| ==> after[i].user == ps[i].user && after[i].side == ps[i].side;
  }

  lemma UpsertKeepsFit(ps: seq<Position>, user: User, side: Side, add: int, price: int)
    requires AllFit(ps) && Fits(price) && Accepts(ps, user, side, add, price)
    ensures AllFit(Upsert(ps, user, side, add, price))
  {
  }

  lemma NoDebtIsAccepted(ps: seq<Position>, user: User, side: Side, add: int, price: int)
    requires AllFit(ps) && Fits(price) && add > 0 && SharesOf(ps, user, side) >= 0
    ensures Accepts(ps, user, side, add, price)
  {
    var r := Find(ps, user, side);
    if r < |ps| {
      NewAverageIsAveraged(ps[r], add, price);
      BlendWithin(ps[r].shares, ps[r].avgPrice, add, price, 1 - AVERAGE_LIMIT, AVERAGE_LIMIT - 1);
    }
  }

  lemma MatchPricesFit(m: Match)
    requires MatchOk(m)
    ensures Fits(m.price) && Fits(TakerPrice(m))
  {
  }

  /** Without debts a position transaction cannot fail. */
  lemma NoDebtsRecords(ps: seq<Position>, m: Match)
    requires AllFit(ps) && NoDebts(ps) && UniqueRows(ps) && MatchOk(m)
    ensures Records(ps, m)
  {
    var mid := Upsert(ps, m.makerUser, m.makerSide, m.size, m.price);
    RecordsIsBothAccepted(ps, m);
    MatchPricesFit(m);
    NoDebtIsAccepted(ps, m.makerUser, m.makerSide, m.size, m.price);
    UpsertKeepsFit(ps, m.makerUser, m.makerSide, m.size, m.price);
    UpsertKeepsRows(ps, m.makerUser, m.makerSide, m.size, m.price);
    NoDebtIsAccepted(mid, m.takerUser, m.takerSide, m.size, TakerPrice(m));
  }

  lemma FindInSameKeys(ps: seq<Position>, qs: seq<Position>, user: User, side: Side)
    requires |ps| <= |qs| && forall i :: 0 <= i < |ps| ==> qs[i].user == ps[i].user && qs[i].side == ps[i].side
    ensures Find(ps, user, side) < |ps| ==> Find(qs, user, side) == Find(ps, user, side)
    ensures Find(ps, user, side) == |ps| ==> Find(qs, user, side) >= |ps|
  {
  }

  /** Rows are never removed. */
  lemma UpsertHasRow(ps: seq<Position>, user: User, side: Side, add: int, price: int, u: User, s: Side)
    ensures HasRow(ps, u, s) ==> HasRow(Upsert(ps, user, side, add, price), u, s)
  {
    FindInSameKeys(ps, Upsert(ps, user, side, add, price), u, s);
  }

  lemma FillHasRow(ps: seq<Position>, m: Match, u: User, s: Side)
    ensures HasRow(ps, u, s) ==> HasRow(ApplyFill(ps, m), u, s)
  {
    var mid := Upsert(ps, m.makerUser, m.makerSide, m.size, m.price);
    ApplyFillIsBothUpserts(ps, m);
    UpsertHasRow(ps, m.makerUser, m.makerSide, m.size, m.price, u, s);
    UpsertHasRow(mid, m.takerUser, m.takerSide, m.size, TakerPrice(m), u, s);
  }

  lemma UpsertEffect(ps: seq<Position>, user: User, side: Side, add: int, price: int, u: User, s: Side)
    ensures SharesOf(Upsert(ps, user, side, add, price), u, s)
            == SharesOf(ps, u, s) + if u == user && s == side then add else 0
  {
    var after := Upsert(ps, user, side, add, price);
    FindInSameKeys(ps, after, u, s);
    if Find(ps, user, side) == |ps| {
      assert after == ps + [Position(user, side, add, price)];
      assert after[|ps|] == Position(user, side, add, price);
      var r, q := Find(ps, u, s), Find(after, u, s);
      assert r == |ps| && !(u == user && s == side) ==> q != |ps|;
    }
  }

  function ShareEach(ps: seq<Position>, side: Side): (xs: seq<int>)
    ensures |xs| == |ps|
  {
    seq(|ps|, i requires 0 <= i < |ps| => if ps[i].side == side then ps[i].shares else 0)
  }

  function TotalShares(ps: seq<Position>, side: Side): int
  {
    Sum(ShareEach(ps, side))
  }

  lemma UpsertTotal(ps: seq<Position>, user: User, side: Side, add: int, price: int, s: Side)
    ensures TotalShares(Upsert(ps, user, side, add, price), s) == TotalShares(ps, s) + if s == side then add else 0
  {
    var after := Upsert(ps, user, side, add, price);
    var r := Find(ps, user, side);
    var xs := ShareEach(ps, s);
    if r < |ps| {
      var v := xs[r] + if s == side then add else 0;
      assert ShareEach(after, s) == xs[r := v];
      SumUpdate(xs, r, v);
    } else {
      var v := if s == side then add else 0;
      assert ShareEach(after, s) == xs + [v];
      SumPush(xs, v);
    }
  }

  lemma NetEffect(ps: seq<Position>, user: User, amount: int, u: User, s: Side)
    requires UniqueRows(ps)
    ensures UniqueRows(NetPositions(ps, user, amount))
    ensures Find(NetPositions(ps, user, amount), u, s) == Find(ps, u, s)
    ensures Find(ps, u, s) < |ps| ==>
              SharesOf(NetPositions(ps, user, amount), u, s) == SharesOf(ps, u, s) - if u == user then amount else 0
  {
    var after := NetPositions(ps, user, amount);
    var r := Find(ps, u, s);
    if r < |ps| {
      FindIs(after, r);
    } else {
      assert Find(after, u, s) == |after|;
    }
  }

  lemma NetTotal(ps: seq<Position>, user: User, amount: int, s: Side)
    requires UniqueRows(ps) && Find(ps, user, s) < |ps|
    ensures TotalShares(NetPositions(ps, user, amount), s) == TotalShares(ps, s) - amount
  {
    var r := Find(ps, user, s);
    var xs := ShareEach(ps, s);
    assert ShareEach(NetPositions(ps, user, amount), s) == xs[r := xs[r] - amount];
    SumUpdate(xs, r, xs[r] - amount);
  }

  // ---------------------------------------------------------------- fill rows

  predicate FillsOk(fills: seq<nat>, matches: seq<Match>)
  {
    forall k :: 0 <= k < |fills| ==> fills[k] < |matches|
  }

  function FillSizes(fills: seq<nat>, matches: seq<Match>): (xs: seq<int>)
    requires FillsOk(fills, matches)
    ensures |xs| == |fills|
  {
    seq(|fills|, k requires 0 <= k < |fills| => matches[fills[k]].size)
  }

  /** Shares created on either side by all recorded fills. */
  function FillTotal(fills: seq<nat>, matches: seq<Match>): int
    requires FillsOk(fills, matches)
  {
    Sum(FillSizes(fills, matches))
  }

  /** Shares of one side that one match gives one user. */
  function ShareOfMatch(m: Match, user: User, side: Side): int
  {
    (if m.makerUser == user && m.makerSide == side then m.size else 0)
    + (if m.takerUser == user && m.takerSide == side then m.size else 0)
  }

  function FilledFor(fills: seq<nat>, matches: seq<Match>, user: User, side: Side): int
    requires FillsOk(fills, matches)
  {
    if |fills| == 0 then 0
    else
      var n := |fills| - 1;
      FilledFor(fills[..n], matches, user, side) + ShareOfMatch(matches[fills[n]], user, side)
  }

  lemma FilledForPush(fills: seq<nat>, matches: seq<Match>, row: nat, user: User, side: Side)
    requires FillsOk(fills, matches) && row < |matches|
    ensures FilledFor(fills + [row], matches, user, side)
            == FilledFor(fills, matches, user, side) + ShareOfMatch(matches[row], user, side)
  {
    assert (fills + [row])[..|fills|] == fills;
  }

  lemma FillTotalPush(fills: seq<nat>, matches: seq<Match>, row: nat)
    requires FillsOk(fills, matches) && row < |matches|
    ensures FillTotal(fills + [row], matches) == FillTotal(fills, matches) + matches[row].size
  {
    assert FillSizes(fills + [row], matches) == FillSizes(fills, matches) + [matches[row].size];
    SumPush(FillSizes(fills, matches), matches[row].size);
  }

  lemma {:induction false} FilledForStable(fills: seq<nat>, matches: seq<Match>, more: seq<Match>, user: User,
                                           side: Side)
    requires FillsOk(fills, matches)
    ensures FilledFor(fills, matches + more, user, side) == FilledFor(fills, matches, user, side)
  {
    if |fills| > 0 {
      FilledForStable(fills[..|fills| - 1], matches, more, user, side);
    }
  }

  lemma FillTotalStable(fills: seq<nat>, matches: seq<Match>, more: seq<Match>)
    requires FillsOk(fills, matches)
    ensures FillTotal(fills, matches + more) == FillTotal(fills, matches)
  {
    assert FillSizes(fills, matches + more) == FillSizes(fills, matches);
  }

  function NettedEach(nettings: seq<Netting>): (xs: seq<int>)
    ensures |xs| == |nettings|
  {
    seq(|nettings|, k requires 0 <= k < |nettings| => nettings[k].amount)
  }

  function NettedTotal(nettings: seq<Netting>): int
  {
    Sum(NettedEach(nettings))
  }

  function NettedOf(nettings: seq<Netting>, user: User): int
  {
    if |nettings| == 0 then 0
    else
      var n := |nettings| - 1;
      NettedOf(nettings[..n], user) + if nettings[n].user == user then nettings[n].amount else 0
  }

  lemma NettedPush(nettings: seq<Netting>, x: Netting, user: User)
    ensures NettedTotal(nettings + [x]) == NettedTotal(nettings) + x.amount
    ensures NettedOf(nettings + [x], user) == NettedOf(nettings, user) + if x.user == user then x.amount else 0
  {
    assert (nettings + [x])[..|nettings|] == nettings;
    assert NettedEach(nettings + [x]) == NettedEach(nettings) + [x.amount];
    SumPush(NettedEach(nettings), x.amount);
  }

  predicate NeverNets(nettings: seq<Netting>, user: User)
  {
    forall k :: 0 <= k < |nettings| ==> nettings[k].user != user
  }

  lemma {:induction false} NettedNothing(nettings: seq<Netting>, user: User)
    requires NeverNets(nettings, user)
    ensures NettedOf(nettings, user) == 0
  {
    if |nettings| > 0 {
      NettedNothing(nettings[..|nettings| - 1], user);
    }
  }

  /** Every netting was of a positive amount, by a user with a row on each side. */
  predicate NettingsOk(nettings: seq<Netting>, ps: seq<Position>)
  {
    forall k :: 0 <= k < |nettings| ==>
                  && nettings[k].amount > 0
                  && HasRow(ps, nettings[k].user, Yes) && HasRow(ps, nettings[k].user, No)
  }

  lemma FillKeepsNettings(nettings: seq<Netting>, ps: seq<Position>, m: Match)
    requires NettingsOk(nettings, ps)
    ensures NettingsOk(nettings, ApplyFill(ps, m))
  {
    forall k | 0 <= k < |nettings|
      ensures HasRow(ApplyFill(ps, m), nettings[k].user, Yes) && HasRow(ApplyFill(ps, m), nettings[k].user, No)
    {
      FillHasRow(ps, m, nettings[k].user, Yes);
      FillHasRow(ps, m, nettings[k].user, No);
    }
  }

  lemma NetKeepsNettings(nettings: seq<Netting>, ps: seq<Position>, user: User, amount: int)
    requires UniqueRows(ps) && NettingsOk(nettings, ps) && NettingsOk([Netting(user, amount)], ps)
    ensures NettingsOk(nettings + [Netting(user, amount)], NetPositions(ps, user, amount))
  {
    assert [Netting(user, amount)][0] == Netting(user, amount);
    var more := nettings + [Netting(user, amount)];
    forall k | 0 <= k < |more|
      ensures HasRow(NetPositions(ps, user, amount), more[k].user, Yes)
              && HasRow(NetPositions(ps, user, amount), more[k].user, No)
    {
      NetEffect(ps, user, amount, more[k].user, Yes);
      NetEffect(ps, user, amount, more[k].user, No);
    }
  }

  // ---------------------------------------------------------------- fills counted by match

  /** How often a match's position transaction has been committed. */
  function Times(fills: seq<nat>, row: nat): nat
  {
    if |fills| == 0 then 0
    else Times(fills[..|fills| - 1], row) + if fills[|fills| - 1] == row then 1 else 0
  }

  lemma TimesPush(fills: seq<nat>, x: nat, row: nat)
    ensures Times(fills + [x], row) == Times(fills, row) + if x == row then 1 else 0
  {
    assert (fills + [x])[..|fills|] == fills;
  }

  lemma {:induction false} TimesPositive(fills: seq<nat>, row: nat)
    ensures row in fills <==> Times(fills, row) > 0
  {
    if |fills| > 0 {
      TimesPositive(fills[..|fills| - 1], row);
      assert fills == fills[..|fills| - 1] + [fills[|fills| - 1]];
    }
  }

  function TimesSizes(fills: seq<nat>, matches: seq<Match>): (xs: seq<int>)
    ensures |xs| == |matches|
  {
    seq(|matches|, i requires 0 <= i < |matches| => Times(fills, i) * matches[i].size)
  }

  /** The fill rows summed in another order: match by match, with multiplicity. */
  lemma {:induction false} FillTotalByMatch(fills: seq<nat>, matches: seq<Match>)
    requires FillsOk(fills, matches)
    ensures FillTotal(fills, matches) == Sum(TimesSizes(fills, matches))
  {
    if |fills| == 0 {
      SumZero(TimesSizes(fills, matches));
    } else {
      var front := fills[..|fills| - 1];
      var row := fills[|fills| - 1];
      assert fills == front + [row];
      FillTotalByMatch(front, matches);
      FillTotalPush(front, matches, row);
      var xs := TimesSizes(front, matches);
      forall i | 0 <= i < |matches| ensures TimesSizes(fills, matches)[i] == xs[row := xs[row] + matches[row].size][i] {
        if i == row {
          assert (Times(front, i) + 1) * matches[i].size == Times(front, i) * matches[i].size + matches[i].size;
        }
      }
      assert TimesSizes(fills, matches) == xs[row := xs[row] + matches[row].size];
      SumUpdate(xs, row, xs[row] + matches[row].size);
    }
  }

  function MatchSizes(matches: seq<Match>): (xs: seq<int>)
    ensures |xs| == |matches|
  {
    seq(|matches|, i requires 0 <= i < |matches| => matches[i].size)
  }

  function TotalMatched(matches: seq<Match>): int
  {
    Sum(MatchSizes(matches))
  }

  /** Size matched by all matches naming an order, as maker or as taker. */
  function MatchedFor(matches: seq<Match>, order: nat): int
  {
    if |matches| == 0 then 0
    else
      var n := |matches| - 1;
      MatchedFor(matches[..n], order)
      + if matches[n].maker == order || matches[n].taker == order then matches[n].size else 0
  }

  lemma {:induction false} MatchedForConcat(a: seq<Match>, b: seq<Match>, order: nat)
    ensures MatchedFor(a + b, order) == MatchedFor(a, order) + MatchedFor(b, order)
  {
    if |b| == 0 {
      assert a + b == a;
    } else {
      MatchedForConcat(a, b[..|b| - 1], order);
      assert (a + b)[..|a + b| - 1] == a + b[..|b| - 1];
    }
  }

  lemma TotalMatchedConcat(a: seq<Match>, b: seq<Match>)
    ensures TotalMatched(a + b) == TotalMatched(a) + TotalMatched(b)
  {
    assert MatchSizes(a + b) == MatchSizes(a) + MatchSizes(b);
    SumConcat(MatchSizes(a), MatchSizes(b));
  }
}
