/**
 This service's tables for one window, and the wallet backend as it looks
 through an unreliable network.
 */
module Tables {
  import opened Types
  import opened Sums
  import opened Money
  import opened Book
  import opened Ledger

  /** A balance movement as the backend applied it: negative debits, positive fees. */
  datatype Movement = Movement(key: Key, user: User, amount: int)

  /** A row of prediction_fills. */
  datatype FillRow = FillRow(maker: nat, taker: nat, price: int, size: int, makerFee: int, takerFee: int)

  /** What is inserted for a match, its fees exact. */
  function FillRowOf(m: Match): FillRow
  {
    var s := SplitOf(m.makerSide, m.price, m.size);
    FillRow(m.maker, m.taker, m.price, m.size, s.makerFee, s.takerFee)
  }

  /** What the columns keep of it: fees rounded to 18 decimals. */
  function Stored(f: FillRow): FillRow
  {
    f.(makerFee := RoundDiv(f.makerFee, GRAINS_PER_SHARE), takerFee := RoundDiv(f.takerFee, GRAINS_PER_SHARE))
  }

  ghost predicate IsFillRow(f: FillRow, m: Match)
  {
    forall g {:trigger Seen(g)} :: Seen(g) && g == Stored(FillRowOf(m)) ==> f == g
  }

  lemma FillRowIs(f: FillRow, m: Match)
    ensures IsFillRow(f, m) <==> f == Stored(FillRowOf(m))
  {
    assert Seen(Stored(FillRowOf(m)));
  }

  /** A fill row names the match's orders, price and size; its fees are within half of their last digit. */
  lemma StoredFillIs(f: FillRow, m: Match)
    requires IsFillRow(f, m)
    ensures f.maker == m.maker && f.taker == m.taker && f.price == m.price && f.size == m.size
    ensures var s := SplitOf(m.makerSide, m.price, m.size);
            && -1_000_000_000 <= 2 * (f.makerFee * 1_000_000_000 - s.makerFee) <= 1_000_000_000
            && -1_000_000_000 <= 2 * (f.takerFee * 1_000_000_000 - s.takerFee) <= 1_000_000_000
  {
    var s := SplitOf(m.makerSide, m.price, m.size);
    FillRowIs(f, m);
    RoundDivNear(s.makerFee, GRAINS_PER_SHARE);
    RoundDivNear(s.takerFee, GRAINS_PER_SHARE);
  }

  /** Who pays what for each movement of a match. */
  function Planned(m: Match, row: nat, role: Role): Movement
  {
    var user := if role == MakerDebit || role == MakerFee then m.makerUser else m.takerUser;
    Movement(Key(row, role), user, -Moved(m, role, true))
  }

  ghost predicate IsPlanned(x: Movement, m: Match)
  {
    forall y {:trigger Seen(y)} :: Seen(y) && y == Planned(m, x.key.row, x.key.role) ==> x == y
  }

  lemma PlannedIs(x: Movement, m: Match)
    ensures IsPlanned(x, m) <==> x == Planned(m, x.key.row, x.key.role)
  {
    assert Seen(Planned(m, x.key.row, x.key.role));
  }

  /** A movement of a match written out: who is charged or paid on, and how much, truncated to 1e-6. */
  predicate InFull(x: Movement, m: Match)
  {
    var rate := if m.makerSide == Yes then m.price else 10_000 - m.price;
    match x.key.role
    case MakerDebit => x.user == m.makerUser && x.amount == -InRaw(rate * m.size * 100_000 + rate * m.size * 15)
    case TakerDebit =>
      x.user == m.takerUser && x.amount == -InRaw((10_000 - rate) * m.size * 100_000 + (10_000 - rate) * m.size * 45)
    case MakerFee => x.user == m.makerUser && x.amount == InRaw(rate * m.size * 15)
    case TakerFee => x.user == m.takerUser && x.amount == InRaw((10_000 - rate) * m.size * 45)
  }

  function InRaw(grains: int): int
  {
    grains / 1_000_000_000_000_000_000_000
  }

  lemma RawIsQuotient(grains: int)
    requires grains >= 0
    ensures ToRawUnits(grains) == InRaw(grains)
  {
  }

  lemma PlannedInFull(x: Movement, m: Match)
    requires IsPlanned(x, m) && MatchOk(m)
    ensures InFull(x, m)
  {
    var s := SplitOf(m.makerSide, m.price, m.size);
    var rate := if m.makerSide == Yes then m.price else 10_000 - m.price;
    PlannedIs(x, m);
    SplitNonNegative(m.makerSide, m.price, m.size);
    assert s.makerCost == rate * m.size * 100_000 && s.takerCost == (10_000 - rate) * m.size * 100_000;
    assert s.makerFee == rate * m.size * 15 && s.takerFee == (10_000 - rate) * m.size * 45;
    RawIsQuotient(s.makerCost + s.makerFee);
    RawIsQuotient(s.takerCost + s.takerFee);
    RawIsQuotient(s.makerFee);
    RawIsQuotient(s.takerFee);
  }

  /** The movement of that role is in, in full. */
  predicate Charged(movements: seq<Movement>, row: nat, role: Role, m: Match)
  {
    exists k :: 0 <= k < |movements| && movements[k].key == Key(row, role) && InFull(movements[k], m)
  }

  /** All four movements of a match are in, each in full. */
  predicate ChargedInFull(movements: seq<Movement>, row: nat, m: Match)
  {
    forall role :: Charged(movements, row, role, m)
  }

  lemma LandedIsCharged(movements: seq<Movement>, inserted: seq<Match>, row: nat, role: Role)
    requires PaidAsPlanned(movements, inserted) && row < |inserted| && MatchOk(inserted[row])
    requires Key(row, role) in KeysOf(movements)
    ensures Charged(movements, row, role, inserted[row])
  {
    var k :| 0 <= k < |movements| && KeysOf(movements)[k] == Key(row, role);
    PlannedInFull(movements[k], inserted[row]);
  }

  function KeysOf(movements: seq<Movement>): (log: seq<Key>)
    ensures |log| == |movements|
    ensures forall k :: 0 <= k < |log| ==> log[k] == movements[k].key
  {
    seq(|movements|, k requires 0 <= k < |movements| => movements[k].key)
  }

  /** What is on hold for a user. */
  function Held(held: map<User, int>, user: User): int
  {
    if user in held then held[user] else 0
  }

  /** The wallet backend, seen through an unreliable network. */
  class Backend {
    var movements: seq<Movement>
    var held: map<User, int>

    constructor ()
      ensures movements == [] && held == map[]
    {
      movements := [];
      held := map[];
    }

    /** Whether the request arrives and whether the reply does is up to the network. */
    method Network() returns (outcome: Outcome)
    {
      var arrives: bool := *;
      var replies: bool := *;
      outcome := if !arrives then NeverArrived else if replies then Acked else ReplyLost;
    }

    /** A keyed adjustment: applied at most once per key. */
    method CreditIdempotent(user: User, amount: int, key: Key) returns (outcome: Outcome)
      modifies this`movements
      ensures movements == if outcome == NeverArrived || key in KeysOf(old(movements)) then old(movements)
                           else old(movements) + [Movement(key, user, amount)]
    {
      outcome := Network();
      if outcome != NeverArrived && key !in KeysOf(movements) {
        movements := movements + [Movement(key, user, amount)];
      }
    }

    /** A keyed fee: the same contract on the other endpoint. */
    method SettleFeeIdempotent(user: User, amount: int, key: Key) returns (outcome: Outcome)
      modifies this`movements
      ensures movements == if outcome == NeverArrived || key in KeysOf(old(movements)) then old(movements)
                           else old(movements) + [Movement(key, user, amount)]
    {
      outcome := Network();
      if outcome != NeverArrived && key !in KeysOf(movements) {
        movements := movements + [Movement(key, user, amount)];
      }
    }

    method Lock(user: User, raw: int) returns (outcome: Outcome)
      modifies this`held
      ensures held == if outcome == NeverArrived then old(held) else old(held)[user := Held(old(held), user) + raw]
    {
      outcome := Network();
      if outcome != NeverArrived {
        held := held[user := Held(held, user) + raw];
      }
    }

    method Unlock(user: User, raw: int) returns (outcome: Outcome)
      modifies this`held
      ensures held == if outcome == NeverArrived then old(held) else old(held)[user := Held(old(held), user) - raw]
    {
      outcome := Network();
      if outcome != NeverArrived {
        held := held[user := Held(held, user) - raw];
      }
    }
  }

  /** This service's tables for one window. */
  class Repo {
    var trading: bool
    var orders: seq<Order>
    var pendingRows: map<nat, Match>
    var nextPending: nat
    var positions: seq<Position>
    var fills: seq<FillRow>
    // Every pending row ever inserted, and the pending row behind each fill row.
    ghost var inserted: seq<Match>
    ghost var settled: seq<nat>

    constructor ()
      ensures Valid() && trading && orders == [] && pendingRows == map[] && positions == [] && fills == []
      ensures inserted == [] && settled == []
    {
      trading := true;
      orders, pendingRows, nextPending, positions, fills := [], map[], 0, [], [];
      inserted, settled := [], [];
    }

    /** Live pending rows are inserted ones, and every fill row records one of those. */
    ghost predicate Valid()
      reads this
    {
      && nextPending == |inserted|
      && (forall id :: id in pendingRows ==> id < |inserted| && pendingRows[id] == inserted[id])
      && |fills| == |settled|
      && (forall k :: 0 <= k < |settled| ==> settled[k] < |inserted| && IsFillRow(fills[k], inserted[settled[k]]))
    }

    /** Whether a statement or a transaction takes effect, and whether we hear of it. */
    method Commit() returns (outcome: Outcome)
    {
      var applied: bool := *;
      var replied: bool := *;
      outcome := if !applied then NeverArrived else if replied then Acked else ReplyLost;
    }

    /** The insert fails on the table's own checks, or for reasons of the database's. */
    method CreateOrder(user: User, side: Side, price: int, size: int) returns (ok: bool, id: nat)
      modifies this`orders
      ensures ok ==> 0 < price < ONE && size > 0
      ensures ok ==> id == |old(orders)| && orders == old(orders) + [Order(user, side, price, size, 0, Open)]
      ensures !ok ==> orders == old(orders)
    {
      var up: bool := *;
      ok := up && 0 < price < ONE && size > 0;
      id := |orders|;
      if ok {
        orders := orders + [Order(user, side, price, size, 0, Open)];
      }
    }

    method FillOrder(id: nat, add: int, status: OrderStatus)
      requires id < |orders|
      modifies this`orders
      ensures orders == old(orders)[id := old(orders)[id].(filled := old(orders)[id].filled + add, status := status)]
    {
      orders := orders[id := orders[id].(filled := orders[id].filled + add, status := status)];
    }

    /**
     Flips an open order of its owner to cancelled and returns the unfilled remainder;
     no such order, and a statement that never took effect, look the same.
     */
    method CancelUserOrder(id: nat, user: User) returns (outcome: Outcome, remaining: int)
      modifies this`orders
      ensures !(id < |old(orders)| && old(orders)[id].user == user && old(orders)[id].status == Open)
              ==> outcome == NeverArrived
      ensures outcome == NeverArrived ==> orders == old(orders)
      ensures outcome != NeverArrived ==> orders == old(orders)[id := old(orders)[id].(status := Cancelled)]
      ensures outcome != NeverArrived ==> remaining == Remainder(old(orders)[id])
    {
      outcome, remaining := NeverArrived, 0;
      if id < |orders| && orders[id].user == user && orders[id].status == Open {
        outcome := Commit();
        if outcome != NeverArrived {
          remaining := orders[id].size - orders[id].filled;
          orders := orders[id := orders[id].(status := Cancelled)];
        }
      }
    }

    /** Takes a refunded order off the book, if it is still on it. */
    method CloseRefundedOrder(id: nat, newStatus: OrderStatus)
      requires id < |orders|
      modifies this`orders
      ensures orders == if old(orders)[id].status == Open then old(orders)[id := old(orders)[id].(status := newStatus)]
                        else old(orders)
    {
      if orders[id].status == Open {
        orders := orders[id := orders[id].(status := newStatus)];
      }
    }

    method CreatePendingFill(m: Match) returns (id: nat)
      requires Valid()
      modifies this`pendingRows, this`nextPending, this`inserted
      ensures Valid() && id == |old(inserted)|
      ensures inserted == old(inserted) + [m] && pendingRows == old(pendingRows)[id := m]
    {
      id := nextPending;
      nextPending := nextPending + 1;
      inserted := inserted + [m];
      pendingRows := pendingRows[id := m];
    }

    method DeletePendingFill(id: nat) returns (outcome: Outcome)
      requires Valid()
      modifies this`pendingRows
      ensures Valid()
      ensures pendingRows.Keys == if outcome == NeverArrived then old(pendingRows.Keys)
                                  else old(pendingRows.Keys) - {id}
    {
      outcome := Commit();
      if outcome != NeverArrived {
        pendingRows := pendingRows - {id};
      }
    }

    /** Inserts the row or adds to it; a zero divisor and an average too large for its column are errors. */
    method UpsertPosition(user: User, side: Side, add: int, price: int) returns (ok: bool)
      modifies this`positions
      ensures ok <==> Accepts(old(positions), user, side, add, price)
      ensures positions == if ok then Upsert(old(positions), user, side, add, price) else old(positions)
    {
      var r := Find(positions, user, side);
      if r == |positions| {
        positions := positions + [Position(user, side, add, price)];
        return true;
      }
      var p := positions[r];
      if p.shares + add == 0 {
        return false;
      }
      var avg := Averaged(p, add, price);
      NewAverageIsAveraged(p, add, price);
      ok := Fits(avg);
      if ok {
        positions := positions[r := p.(shares := p.shares + add, avgPrice := avg)];
      }
    }

    method CreateFill(f: FillRow, ghost row: nat)
      requires Valid() && row < |inserted| && IsFillRow(Stored(f), inserted[row])
      modifies this`fills, this`settled
      ensures Valid() && settled == old(settled) + [row] && fills == old(fills) + [Stored(f)]
    {
      fills := fills + [Stored(f)];
      settled := settled + [row];
    }

    /** Subtracts from every row the user holds in the window, whatever its side. */
    method NetPositions(user: User, amount: int)
      modifies this`positions
      ensures positions == Ledger.NetPositions(old(positions), user, amount)
    {
      ghost var before, after := positions, Ledger.NetPositions(positions, user, amount);
      var i := 0;
      while i < |positions|
        invariant i <= |positions| == |before|
        invariant forall j :: 0 <= j < i ==> positions[j] == after[j]
        invariant forall j :: i <= j < |before| ==> positions[j] == before[j]
      {
        if positions[i].user == user {
          positions := positions[i := positions[i].(shares := positions[i].shares - amount)];
        }
        i := i + 1;
      }
    }
  }

  lemma KeysOfPush(movements: seq<Movement>, x: Movement)
    ensures KeysOf(movements + [x]) == KeysOf(movements) + [x.key]
  {
  }

  /** Every movement applied is one that was due, to the right user and for the right amount. */
  ghost predicate PaidAsPlanned(movements: seq<Movement>, inserted: seq<Match>)
  {
    forall k :: 0 <= k < |movements| ==>
                  && movements[k].key.row < |inserted|
                  && IsPlanned(movements[k], inserted[movements[k].key.row])
  }

  lemma PaidPush(movements: seq<Movement>, x: Movement, inserted: seq<Match>)
    requires PaidAsPlanned(movements, inserted)
    requires x.key.row < |inserted| && IsPlanned(x, inserted[x.key.row])
    ensures PaidAsPlanned(movements + [x], inserted)
  {
  }

  function AmountsOf(movements: seq<Movement>): (xs: seq<int>)
    ensures |xs| == |movements|
  {
    seq(|movements|, k requires 0 <= k < |movements| => movements[k].amount)
  }

  /** So what the backend has moved, summed over all users, is exactly what the ledger calls the raw pool. */
  lemma MovementsAreThePool(movements: seq<Movement>, inserted: seq<Match>)
    requires PaidAsPlanned(movements, inserted)
    ensures KeysOk(KeysOf(movements), inserted)
    ensures -Sum(AmountsOf(movements)) == Pool(KeysOf(movements), inserted, true)
  {
    var log := KeysOf(movements);
    forall k | 0 <= k < |movements| ensures log[k].row < |inserted| {
      assert movements[k].key.row < |inserted|;
    }
    forall k | 0 <= k < |movements| ensures AmountsOf(movements)[k] == -1 * MovedEach(log, inserted, true)[k] {
      PlannedIs(movements[k], inserted[movements[k].key.row]);
    }
    SumScale(MovedEach(log, inserted, true), AmountsOf(movements), -1);
  }
}
