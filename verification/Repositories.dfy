/**
 The two repositories over one database, statement by statement with rollback:
 services/order-service/internal/repository/postgres/order_repository.go and
 services/tracking-service/internal/repository/postgres/tracking_repository.go.
 The driver may fail at any one statement, chosen by `faultAt`; a larger number means no failure.
 */
module Repositories {
  import opened Outcomes
  import opened Text
  import opened CreateInput
  import opened Lifecycle
  import opened Store
  import opened Timelines

  /** The cast `$1::uuid`: the database knows the lower-case spelling. */
  function Canonical(spelled: string): OrderId {
    OrderId(Lower(spelled))
  }

  /** The columns of `model.Order`. */
  datatype OrderView = OrderView(id: OrderId, customer: string, status: Status, createdAt: nat, updatedAt: nat)

  function ViewOf(id: OrderId, row: Order): OrderView {
    OrderView(id, row.customer, row.status, row.createdAt, row.updatedAt)
  }

  /** What `SELECT ... WHERE id = $1` answers. */
  function OrderAnswer(db: Db, id: OrderId): Result<OrderView, Error> {
    if id in db.orders then Success(ViewOf(id, db.orders[id])) else Failure(OrderNotFound)
  }

  /** What the timeline query with the existence check answers. */
  function TimelineAnswer(db: Db, id: OrderId, limit: nat): Result<seq<HistoryRow>, Error> {
    if Take(Timeline(db, id), limit) == [] && id !in db.orders then Failure(OrderNotFound)
    else Success(Take(Timeline(db, id), limit))
  }

  /** The same with a driver that fails at the query (0) or at the existence check (1) that an empty answer asks for. */
  function TimelineQuery(db: Db, id: OrderId, limit: nat, faultAt: nat): Result<seq<HistoryRow>, Error> {
    if faultAt == 0 || (faultAt == 1 && Take(Timeline(db, id), limit) == []) then Failure(Driver)
    else TimelineAnswer(db, id, limit)
  }

  class Database {
    var rows: Db
    var saved: Db

    constructor ()
      ensures rows == EMPTY
    {
      rows, saved := EMPTY, EMPTY;
    }

    method Begin()
      modifies this`saved
      ensures saved == rows
    {
      saved := rows;
    }

    method Rollback()
      modifies this`rows
      ensures rows == saved
    {
      rows := saved;
    }

    method SetStatus(id: OrderId, status: Status, now: nat)
      requires id in rows.orders
      modifies this`rows
      ensures rows == WithStatus(old(rows), id, status, now)
    {
      rows := rows.(orders := rows.orders[id := rows.orders[id].(status := status, updatedAt := now)]);
    }

    method InsertHistory(row: HistoryRow)
      modifies this`rows
      ensures rows == old(rows).(history := old(rows).history + [row])
    {
      rows := rows.(history := rows.history + [row]);
    }

    /** A duplicate key of `uq_assignments_order_id` is refused. */
    method InsertAssignment(id: OrderId, assignment: Assignment) returns (conflict: bool)
      modifies this`rows
      ensures conflict <==> id in old(rows).assignments
      ensures rows == if conflict then old(rows)
                      else old(rows).(assignments := old(rows).assignments[id := assignment])
    {
      conflict := id in rows.assignments;
      if !conflict {
        rows := rows.(assignments := rows.assignments[id := assignment]);
      }
    }

    /** `gen_random_uuid()` draws the address id; a repeated primary key is refused. */
    method InsertAddress(id: nat, address: Address) returns (conflict: bool)
      modifies this`rows
      ensures conflict <==> id in old(rows).addresses
      ensures rows == if conflict then old(rows) else old(rows).(addresses := old(rows).addresses[id := address])
    {
      conflict := id in rows.addresses;
      if !conflict {
        rows := rows.(addresses := rows.addresses[id := address]);
      }
    }

    method InsertOrder(id: OrderId, order: Order)
      requires id !in rows.orders && !HasKey(rows, order.key)
      modifies this`rows
      ensures rows == old(rows).(orders := old(rows).orders[id := order])
    {
      rows := rows.(orders := rows.orders[id := order]);
    }

    /** Transactions of other clients that commit meanwhile. */
    method Others(ops: seq<Op>)
      modifies this`rows
      ensures rows == Replay(old(rows), ops)
    {
      for i := 0 to |ops|
        invariant rows == Replay(old(rows), ops[..i])
      {
        assert ops[..i + 1][..i] == ops[..i];
        rows := After(rows, ops[i]);
      }
      assert ops[..|ops|] == ops;
    }

    method FindByKey(key: string) returns (found: Option<OrderId>)
      ensures found.Some? ==> found.value in rows.orders && rows.orders[found.value].key == key
      ensures found.None? ==> !HasKey(rows, key)
    {
      var left := rows.orders.Keys;
      while left != {}
        invariant left <= rows.orders.Keys
        invariant forall id :: id in rows.orders && id !in left ==> rows.orders[id].key != key
        decreases |left|
      {
        var id :| id in left;
        if rows.orders[id].key == key {
          return Some(id);
        }
        left := left - {id};
      }
      found := None;
    }
  }

  class TrackingRepository {
    const db: Database

    constructor (db: Database)
      ensures this.db == db
    {
      this.db := db;
    }

    method GetOrderTimeline(id: OrderId, limit: nat, faultAt: nat) returns (r: Result<seq<HistoryRow>, Error>)
      ensures r == TimelineQuery(db.rows, id, limit, faultAt)
    {
      if faultAt == 0 { return Failure(Driver); }
      var answer := Take(Timeline(db.rows, id), limit);
      var items := [];
      for i := 0 to |answer|
        invariant items == answer[..i]
      {
        items := items + [answer[i]];
      }
      assert items == answer;
      if |items| == 0 {
        if faultAt == 1 { return Failure(Driver); }
        if id !in db.rows.orders { return Failure(OrderNotFound); }
      }
      r := Success(items);
    }

    method UpdateOrderStatus(id: OrderId, next: Status, source: Source, comment: string, metadata: Metadata,
                             now: nat, faultAt: nat)
      returns (r: Result<HistoryRow, Error>)
      modifies db
      ensures
        var op := Update(id, next, source, comment, metadata, now);
        if r.Success? then faultAt >= 5 && Execute(old(db.rows), op) == Success(db.rows) && r.value == UpdateRow(op)
        else db.rows == old(db.rows) &&
             (Execute(old(db.rows), op) == Failure(r.error) || (r.error == Driver && faultAt < 5))
    {
      if faultAt == 0 { return Failure(Driver); }
      db.Begin();
      if faultAt == 1 { db.Rollback(); return Failure(Driver); }
      if id !in db.rows.orders { db.Rollback(); return Failure(OrderNotFound); }
      var current := db.rows.orders[id].status;
      ValidateDecidesTable(current, next);
      match ValidateStatusTransition(StatusName(current), StatusName(next)) {
        case Failure(e) =>
          db.Rollback();
          return Failure(if e.TransitionNotAllowed? then Error.TransitionNotAllowed else Error.InvalidStatus);
        case Success(_) =>
      }
      if faultAt == 2 { db.Rollback(); return Failure(Driver); }
      db.SetStatus(id, next, now);
      if faultAt == 3 { db.Rollback(); return Failure(Driver); }
      var row := HistoryRow(id, next, source, NullIfEmpty(comment), metadata, now);
      db.InsertHistory(row);
      if faultAt == 4 { db.Rollback(); return Failure(Driver); }
      r := Success(row);
    }
  }

  class OrderRepository {
    const db: Database

    constructor (db: Database)
      ensures this.db == db
    {
      this.db := db;
    }

    method GetOrderByID(id: OrderId, faultAt: nat) returns (r: Result<OrderView, Error>)
      ensures r == if faultAt == 0 then Failure(Driver) else OrderAnswer(db.rows, id)
    {
      if faultAt == 0 { return Failure(Driver); }
      if id !in db.rows.orders { return Failure(OrderNotFound); }
      r := Success(ViewOf(id, db.rows.orders[id]));
    }

    method GetOrderByIdempotencyKey(key: string, faultAt: nat) returns (r: Result<OrderView, Error>)
      ensures r.Success? ==>
        && faultAt > 0
        && r.value.id in db.rows.orders && db.rows.orders[r.value.id].key == key
        && OrderAnswer(db.rows, r.value.id) == r
      ensures r.Failure? ==>
        if faultAt == 0 then r.error == Driver else r.error == OrderNotFound && !HasKey(db.rows, key)
    {
      if faultAt == 0 { return Failure(Driver); }
      var found := db.FindByKey(key);
      match found {
        case None => r := Failure(OrderNotFound);
        case Some(id) => r := Success(ViewOf(id, db.rows.orders[id]));
      }
    }

    method AssignOrder(id: OrderId, courier: string, active: bool, assignedBy: string, comment: string,
                       now: nat, faultAt: nat)
      returns (r: Result<OrderView, Error>)
      modifies db
      ensures
        var op := Assign(id, courier, active, assignedBy, comment, now);
        if r.Success? then
          faultAt >= 7 && Execute(old(db.rows), op) == Success(db.rows) && r == OrderAnswer(db.rows, id)
        else db.rows == old(db.rows) &&
             (Execute(old(db.rows), op) == Failure(r.error) || (r.error == Driver && faultAt < 7))
    {
      if faultAt == 0 { return Failure(Driver); }
      db.Begin();
      if faultAt == 1 { db.Rollback(); return Failure(Driver); }
      if id !in db.rows.orders { db.Rollback(); return Failure(OrderNotFound); }
      var current := db.rows.orders[id].status;
      if current == Assigned { db.Rollback(); return Failure(AlreadyAssigned); }
      if current != Created { db.Rollback(); return Failure(AssignmentNotAllowed); }
      if faultAt == 2 { db.Rollback(); return Failure(Driver); }
      if !active { db.Rollback(); return Failure(CourierNotFound); }
      if faultAt == 3 { db.Rollback(); return Failure(Driver); }
      var assignment := Assignment(courier, NullIfEmpty(assignedBy), NullIfEmpty(comment), now);
      var conflict := db.InsertAssignment(id, assignment);
      if conflict { db.Rollback(); return Failure(AlreadyAssigned); }
      if faultAt == 4 { db.Rollback(); return Failure(Driver); }
      db.SetStatus(id, Assigned, now);
      var order := ViewOf(id, db.rows.orders[id]);
      if faultAt == 5 { db.Rollback(); return Failure(Driver); }
      db.InsertHistory(HistoryRow(id, Assigned, Source.Manager, NullIfEmpty(comment), CourierId(courier), now));
      if faultAt == 6 { db.Rollback(); return Failure(Driver); }
      r := Success(order);
    }

    /** `id`, `pickup` and `dropoff` are the ids that the database draws. */
    method CreateOrder(id: OrderId, key: string, input: CreateOrderInput, pickup: nat, dropoff: nat,
                       now: nat, faultAt: nat)
      returns (r: Result<OrderView, Error>)
      modifies db
      ensures
        var op := Create(id, key, input, pickup, dropoff, now);
        if r.Success? then
          faultAt >= 5 && Execute(old(db.rows), op) == Success(db.rows) && r == OrderAnswer(db.rows, id)
        else db.rows == old(db.rows) &&
             (Execute(old(db.rows), op) == Failure(r.error) || (r.error == Driver && faultAt < 5))
    {
      if faultAt == 0 { return Failure(Driver); }
      db.Begin();
      if faultAt == 1 { db.Rollback(); return Failure(Driver); }
      var refused := db.InsertAddress(pickup, AddressRow(input.pickup));
      if refused { db.Rollback(); return Failure(Driver); }
      if faultAt == 2 { db.Rollback(); return Failure(Driver); }
      refused := db.InsertAddress(dropoff, AddressRow(input.dropoff));
      if refused { db.Rollback(); return Failure(Driver); }
      if faultAt == 3 { db.Rollback(); return Failure(Driver); }
      var holder := db.FindByKey(key);
      if holder.Some? { db.Rollback(); return Failure(DuplicateIdempotency); }
      if id in db.rows.orders { db.Rollback(); return Failure(Driver); }
      db.InsertOrder(id, Order(Lower(input.customer), Created, key, pickup, dropoff,
                               input.weight, input.distance, input.serviceLevel, now, now));
      if faultAt == 4 { db.Rollback(); return Failure(Driver); }
      r := Success(ViewOf(id, db.rows.orders[id]));
    }
  }
}
