/**
 The mock carrier's update stream and what pushing it to the tracking service achieves:
 services/carrier-sync-service/internal/client/mock.go.
 */
module MockCarrier {
  import opened Outcomes
  import opened Lifecycle
  import opened Store
  import LastKnown

  const SECOND := 1_000_000_000

  const MOCK_ORDER_IDS: seq<string> := [
    "e1111111-1111-1111-1111-111111111111",
    "e2222222-2222-2222-2222-222222222222",
    "e3333333-3333-3333-3333-333333333333",
    "e4444444-4444-4444-4444-444444444444",
    "e5555555-5555-5555-5555-555555555555"
  ]

  const MOCK_STATUSES: seq<Status> := [Created, Assigned, InTransit, Delivered]

  /** The stream cycles through five orders, here `ids`, and four statuses. */
  function OrderAt(ids: seq<string>, cursor: nat): OrderId
    requires |ids| == 5
  {
    OrderId(ids[cursor % 5])
  }

  function StatusAt(cursor: nat): Status {
    MOCK_STATUSES[cursor % 4]
  }

  function UpdateAt(ids: seq<string>, cursor: nat, now: int): LastKnown.StatusUpdate
    requires |ids| == 5
  {
    LastKnown.StatusUpdate(ids[cursor % 5], StatusName(StatusAt(cursor)), now - (cursor % 120) * SECOND)
  }

  /** `n` consecutive updates from a cursor on. */
  function Stream(ids: seq<string>, cursor: nat, n: nat, now: int): (updates: seq<LastKnown.StatusUpdate>)
    requires |ids| == 5
    ensures |updates| == n && forall i :: 0 <= i < n ==> updates[i] == UpdateAt(ids, cursor + i, now)
  {
    seq(n, (i: nat) => UpdateAt(ids, cursor + i, now))
  }

  function ClampLimit(limit: int): (n: nat)
    ensures limit <= 0 ==> n == 1
    ensures 1 <= limit <= 20 ==> n == limit
    ensures limit > 20 ==> n == 20
  {
    if limit <= 0 then 1 else if limit > 20 then 20 else limit
  }

  /** An update names the order and the status whose turn it is and is dated up to two minutes back. */
  lemma UpdateIs(ids: seq<string>, cursor: nat, now: int)
    requires |ids| == 5
    ensures
      var u := UpdateAt(ids, cursor, now);
      && u.orderId == ids[cursor % 5]
      && u.externalStatus == ["created", "assigned", "in_transit", "delivered"][cursor % 4]
      && u.updatedAt == now - (cursor % 120) * 1_000_000_000
  {
  }

  class MockClient {
    var cursor: nat

    constructor ()
      ensures cursor == 0
    {
      cursor := 0;
    }

    method FetchStatusUpdates(limit: int, now: int, cancelled: bool)
      returns (r: Result<seq<LastKnown.StatusUpdate>, LastKnown.FetchError>)
      modifies this
      ensures cancelled ==> r.Failure? && cursor == old(cursor)
      ensures !cancelled ==>
        r == Success(Stream(MOCK_ORDER_IDS, old(cursor), ClampLimit(limit), now)) &&
        cursor == old(cursor) + ClampLimit(limit)
    {
      var n := limit;
      if n <= 0 { n := 1; }
      if n > 20 { n := 20; }
      if cancelled { return Failure(LastKnown.FetchError("context cancelled")); }
      var updates: seq<LastKnown.StatusUpdate> := [];
      for i := 0 to n
        invariant cursor == old(cursor) + i
        invariant updates == Stream(MOCK_ORDER_IDS, old(cursor), i, now)
      {
        var orderId := MOCK_ORDER_IDS[cursor % |MOCK_ORDER_IDS|];
        var status := MOCK_STATUSES[cursor % |MOCK_STATUSES|];
        updates := updates + [LastKnown.StatusUpdate(orderId, StatusName(status), now - (cursor % 120) * SECOND)];
        cursor := cursor + 1;
        assert updates == Stream(MOCK_ORDER_IDS, old(cursor), i + 1, now);
      }
      r := Success(updates);
    }
  }

  /** What happens beside the pushes: other clients' transactions before each push, and the push's start time. */
  datatype Around = Around(others: nat -> seq<Op>, at: nat -> nat)

  function Push(ids: seq<string>, cursor: nat, at: nat): Op
    requires |ids| == 5
  {
    Update(OrderAt(ids, cursor), StatusAt(cursor), CarrierSync, "", Json(StatusName(StatusAt(cursor))), at)
  }

  /** The database after `n` consecutive updates from `cursor` on have been pushed. */
  function Pushed(db: Db, ids: seq<string>, cursor: nat, n: nat, around: Around): Db
    requires |ids| == 5
    decreases n, 0
  {
    if n == 0 then db
    else After(BeforePush(db, ids, cursor, n - 1, around), Push(ids, cursor + n - 1, around.at(n - 1)))
  }

  function BeforePush(db: Db, ids: seq<string>, cursor: nat, n: nat, around: Around): Db
    requires |ids| == 5
    decreases n, 1
  {
    Replay(Pushed(db, ids, cursor, n, around), around.others(n))
  }

  predicate AtLeast(db: Db, id: OrderId, rank: nat) {
    id in db.orders && Rank(db.orders[id].status) >= rank
  }

  lemma AfterKeepsRank(db: Db, op: Op, id: OrderId, rank: nat)
    requires AtLeast(db, id, rank)
    ensures AtLeast(After(db, op), id, rank)
  {
    AfterAdvances(db, op);
    assert OrderAdvances(db, After(db, op), id);
  }

  lemma {:induction false} ReplayKeepsRank(db: Db, ops: seq<Op>, id: OrderId, rank: nat)
    requires AtLeast(db, id, rank)
    ensures AtLeast(Replay(db, ops), id, rank)
  {
    if ops != [] {
      ReplayKeepsRank(db, ops[..|ops| - 1], id, rank);
      AfterKeepsRank(Replay(db, ops[..|ops| - 1]), ops[|ops| - 1], id, rank);
    }
  }

  lemma {:induction false} PushesKeepRank(
      db: Db, ids: seq<string>, cursor: nat, n: nat, m: nat, around: Around, id: OrderId, rank: nat)
    requires |ids| == 5 && n <= m && AtLeast(Pushed(db, ids, cursor, n, around), id, rank)
    ensures AtLeast(Pushed(db, ids, cursor, m, around), id, rank)
    decreases m
  {
    if n < m {
      PushesKeepRank(db, ids, cursor, n, m - 1, around, id, rank);
      ReplayKeepsRank(Pushed(db, ids, cursor, m - 1, around), around.others(m - 1), id, rank);
      AfterKeepsRank(BeforePush(db, ids, cursor, m - 1, around), Push(ids, cursor + m - 1, around.at(m - 1)), id, rank);
    }
  }

  /** An update takes an order that is at most one step behind to the pushed status, or finds it beyond. */
  lemma UpdateReaches(db: Db, op: Op)
    requires op.Update? && op.next != Cancelled && Rank(op.next) > 0 && AtLeast(db, op.id, Rank(op.next) - 1)
    ensures AtLeast(After(db, op), op.id, Rank(op.next))
  {
  }

  /** The update at `cursor` pushes the order `id` to a status of this rank. */
  predicate Offers(ids: seq<string>, cursor: nat, id: OrderId, rank: nat)
    requires |ids| == 5
  {
    OrderAt(ids, cursor) == id && Rank(StatusAt(cursor)) == rank
  }

  lemma OfferReaches(db: Db, ids: seq<string>, cursor: nat, at: nat, id: OrderId, rank: nat)
    requires |ids| == 5 && Offers(ids, cursor, id, rank + 1) && AtLeast(db, id, rank)
    ensures AtLeast(After(db, Push(ids, cursor, at)), id, rank + 1)
  {
    UpdateReaches(db, Push(ids, cursor, at));
  }

  /** The `i`-th push brings its order to the pushed status or beyond, for good. */
  lemma VisitAdvances(db: Db, ids: seq<string>, cursor: nat, i: nat, m: nat, around: Around, id: OrderId, rank: nat)
    requires |ids| == 5 && i < m && Offers(ids, cursor + i, id, rank + 1)
    requires AtLeast(Pushed(db, ids, cursor, i, around), id, rank)
    ensures AtLeast(Pushed(db, ids, cursor, m, around), id, rank + 1)
  {
    var before := BeforePush(db, ids, cursor, i, around);
    ReplayKeepsRank(Pushed(db, ids, cursor, i, around), around.others(i), id, rank);
    OfferReaches(before, ids, cursor + i, around.at(i), id, rank);
    PushesKeepRank(db, ids, cursor, i + 1, m, around, id, rank + 1);
  }

  lemma Remainders(r: nat, q: int)
    requires r + 20 * q >= 0
    ensures (r + 20 * q) % 5 == r % 5 && (r + 20 * q) % 4 == r % 4
  {
    var x := r + 20 * q;
    var d, e := x / 5 - r / 5 - 4 * q, x / 4 - r / 4 - 5 * q;
    assert 5 * d == r % 5 - x % 5 && 4 * e == r % 4 - x % 4;
    assert d == 0 && e == 0;
  }

  /** At a cursor that is `r` modulo 20 the stream is where it is at `r`. */
  lemma OffersAt(ids: seq<string>, cursor: nat, r: nat, q: int)
    requires |ids| == 5 && cursor == r + 20 * q
    ensures Offers(ids, cursor, OrderId(ids[r % 5]), Rank(StatusAt(r)))
  {
    Remainders(r, q);
  }

  /** Within 20 updates each order is offered `assigned`; five and ten updates later, the next two statuses. */
  lemma FindVisit(ids: seq<string>, cursor: nat, k: nat) returns (i: nat)
    requires |ids| == 5 && k < 5
    ensures i < 20
    ensures Offers(ids, cursor + i, OrderId(ids[k]), 1)
    ensures Offers(ids, cursor + (i + 5), OrderId(ids[k]), 2)
    ensures Offers(ids, cursor + (i + 10), OrderId(ids[k]), 3)
  {
    var r := if k == 0 then 5 else if k == 1 then 1 else if k == 2 then 17 else if k == 3 then 13 else 9;
    i := (r - cursor) % 20;
    var q := -((r - cursor) / 20);
    OffersAt(ids, cursor + i, r, q);
    OffersAt(ids, cursor + (i + 5), r + 5, q);
    OffersAt(ids, cursor + (i + 10), r + 10, q);
  }

  lemma ThreeVisits(db: Db, ids: seq<string>, cursor: nat, a: nat, b: nat, c: nat, n: nat, around: Around, id: OrderId)
    requires |ids| == 5 && a < b < c < n && id in db.orders
    requires Offers(ids, cursor + a, id, 1) && Offers(ids, cursor + b, id, 2) && Offers(ids, cursor + c, id, 3)
    ensures AtLeast(Pushed(db, ids, cursor, n, around), id, 3)
  {
    PushesKeepRank(db, ids, cursor, 0, a, around, id, 0);
    VisitAdvances(db, ids, cursor, a, b, around, id, 0);
    VisitAdvances(db, ids, cursor, b, c, around, id, 1);
    VisitAdvances(db, ids, cursor, c, n, around, id, 2);
  }

  /**
   Any 30 or more consecutive updates pushed to the tracking service leave each existing order of the stream
   delivered or cancelled, from any statuses and with any other transactions in between.
   */
  lemma ThirtyUpdatesFinishEveryOrder(db: Db, ids: seq<string>, cursor: nat, n: nat, around: Around, k: nat)
    requires n >= 30 && |ids| == 5 && k < 5 && OrderId(ids[k]) in db.orders
    ensures
      var id, db' := OrderId(ids[k]), Pushed(db, ids, cursor, n, around);
      id in db'.orders && Terminal(db'.orders[id].status)
  {
    var i := FindVisit(ids, cursor, k);
    ThreeVisits(db, ids, cursor, i, i + 5, i + 10, n, around, OrderId(ids[k]));
  }

  lemma PushEffect(db: Db, ids: seq<string>, cursor: nat, at: nat)
    requires |ids| == 5 && (forall k :: 0 < k < 5 ==> ids[k] != ids[0]) && OrderId(ids[0]) in db.orders
    ensures
      var id, db' := OrderId(ids[0]), After(db, Push(ids, cursor, at));
      id in db'.orders &&
      db'.orders[id].status ==
        if cursor % 5 == 0 && CanMove(db.orders[id].status, StatusAt(cursor)) then StatusAt(cursor)
        else db.orders[id].status
  {
  }

  lemma VisitTimes(cursor: nat, i: nat)
    requires cursor == 6 && i < 29
    ensures (cursor + i) % 5 == 0 ==>
      || (i == 4 && StatusAt(cursor + i) == InTransit) || (i == 9 && StatusAt(cursor + i) == Delivered)
      || (i == 14 && StatusAt(cursor + i) == Created) || i == 19 || i == 24
    ensures i == 19 ==> (cursor + i) % 5 == 0 && StatusAt(cursor + i) == Assigned
    ensures i == 24 ==> (cursor + i) % 5 == 0 && StatusAt(cursor + i) == InTransit
  {
  }

  /** Without company, from this cursor on, the first order is still on the road after 29 updates. */
  lemma {:induction false} TwentyNineAreNotEnough(db: Db, ids: seq<string>, cursor: nat, n: nat, around: Around)
    requires |ids| == 5 && (forall k :: 0 < k < 5 ==> ids[k] != ids[0])
    requires cursor == 6 && n <= 29 && forall i :: around.others(i) == []
    requires OrderId(ids[0]) in db.orders && db.orders[OrderId(ids[0])].status == Created
    ensures
      var id, db' := OrderId(ids[0]), Pushed(db, ids, cursor, n, around);
      id in db'.orders &&
      db'.orders[id].status == if n < 20 then Created else if n < 25 then Assigned else InTransit
  {
    if n > 0 {
      var i := n - 1;
      TwentyNineAreNotEnough(db, ids, cursor, i, around);
      assert BeforePush(db, ids, cursor, i, around) == Pushed(db, ids, cursor, i, around);
      PushEffect(Pushed(db, ids, cursor, i, around), ids, cursor + i, around.at(i));
      VisitTimes(cursor, i);
    }
  }
}
