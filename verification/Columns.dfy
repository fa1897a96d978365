/**
 What the three writing transactions leave in which column, and when they answer what, spelled out field by field:
 the statements of services/order-service/internal/repository/postgres/order_repository.go and
 services/tracking-service/internal/repository/postgres/tracking_repository.go.
 */
module Columns {
  import opened Outcomes
  import opened Text
  import opened Lifecycle
  import opened CreateInput
  import opened Store
  import Concurrency
  import Guarantees

  /** Nothing but the status and the update time of one order changes. */
  predicate OnlyStatusChanges(db: Db, db': Db, id: OrderId, status: Status, at: nat)
    requires id in db.orders
  {
    && db'.orders.Keys == db.orders.Keys
    && (forall k :: k in db.orders && k != id ==> db'.orders[k] == db.orders[k])
    && db'.orders[id].status == status && db'.orders[id].updatedAt == at
    && db'.orders[id].customer == db.orders[id].customer
    && db'.orders[id].key == db.orders[id].key
    && db'.orders[id].pickup == db.orders[id].pickup
    && db'.orders[id].dropoff == db.orders[id].dropoff
    && db'.orders[id].weight == db.orders[id].weight
    && db'.orders[id].distance == db.orders[id].distance
    && db'.orders[id].serviceLevel == db.orders[id].serviceLevel
    && db'.orders[id].createdAt == db.orders[id].createdAt
    && db'.addresses == db.addresses
  }

  /** A successful update: the new status, one more history row with the given columns, nothing else. */
  lemma UpdateStores(db: Db, db': Db, op: Op)
    requires op.Update? && Execute(db, op) == Success(db')
    ensures op.id in db.orders && OnlyStatusChanges(db, db', op.id, op.next, op.at)
    ensures db'.assignments == db.assignments
    ensures |db'.history| == |db.history| + 1 && db'.history[..|db.history|] == db.history
    ensures
      var row := db'.history[|db.history|];
      && row.order == op.id && row.status == op.next && row.source == op.source && row.metadata == op.metadata
      && row.createdAt == op.at
      && row.comment == if op.comment == "" then None else Some(op.comment)
  {
  }

  /**
   When an update of an order succeeds: cancelling as long as the order is created or assigned, any other status if it
   is the next one on the way.
   */
  lemma UpdateOutcome(db: Db, op: Op)
    requires op.Update?
    ensures Execute(db, op) == Failure(OrderNotFound) <==> op.id !in db.orders
    ensures op.id in db.orders ==>
      var status := db.orders[op.id].status;
      && (Execute(db, op).Success? <==>
            if op.next == Cancelled then status == Created || status == Assigned
            else status != Cancelled && Rank(op.next) == Rank(status) + 1)
      && (Execute(db, op).Failure? ==> Execute(db, op) == Failure(Error.TransitionNotAllowed))
  {
    if op.id in db.orders { CanMoveIff(db.orders[op.id].status, op.next); }
  }

  /** A successful assignment: status `assigned`, one assignment row and one history row with the given columns. */
  lemma AssignStores(db: Db, db': Db, op: Op)
    requires op.Assign? && Execute(db, op) == Success(db')
    ensures op.id in db.orders && OnlyStatusChanges(db, db', op.id, Assigned, op.at)
    ensures op.id !in db.assignments && db'.assignments.Keys == db.assignments.Keys + {op.id}
    ensures forall k :: k in db.assignments ==> db'.assignments[k] == db.assignments[k]
    ensures
      var a := db'.assignments[op.id];
      && a.courier == op.courier && a.assignedAt == op.at
      && a.assignedBy == (if op.assignedBy == "" then None else Some(op.assignedBy))
      && a.comment == if op.comment == "" then None else Some(op.comment)
    ensures |db'.history| == |db.history| + 1 && db'.history[..|db.history|] == db.history
    ensures
      var row := db'.history[|db.history|];
      && row.order == op.id && row.status == Assigned && row.source == Source.Manager
      && row.metadata == CourierId(op.courier) && row.createdAt == op.at
      && row.comment == if op.comment == "" then None else Some(op.comment)
  {
  }

  /** When an assignment succeeds, and with which error it fails otherwise. */
  lemma AssignOutcome(db: Db, op: Op)
    requires op.Assign?
    ensures Execute(db, op) == Failure(OrderNotFound) <==> op.id !in db.orders
    ensures op.id in db.orders ==>
      var status, taken := db.orders[op.id].status, op.id in db.assignments;
      && (Execute(db, op).Success? <==> status == Created && op.active && !taken)
      && (Execute(db, op) == Failure(AlreadyAssigned) <==>
            status == Assigned || (status == Created && op.active && taken))
      && (Execute(db, op) == Failure(AssignmentNotAllowed) <==> status in {InTransit, Delivered, Cancelled})
      && (Execute(db, op) == Failure(CourierNotFound) <==> status == Created && !op.active)
  {
  }

  /** The row of an address has the input's columns; an empty apartment is none. */
  predicate StoresAddress(row: Address, a: AddressInput) {
    && row.city == a.city && row.street == a.street && row.house == a.house
    && row.lat == a.lat && row.lng == a.lng
    && row.apartment == if a.apartment == "" then None else Some(a.apartment)
  }

  /** A successful creation: one created order and its two addresses with the input's columns, nothing else. */
  lemma CreateStores(db: Db, db': Db, op: Op)
    requires op.Create? && Execute(db, op) == Success(db')
    ensures db'.history == db.history && db'.assignments == db.assignments
    ensures op.id !in db.orders && db'.orders.Keys == db.orders.Keys + {op.id}
    ensures forall k :: k in db.orders ==> db'.orders[k] == db.orders[k]
    ensures
      var o := db'.orders[op.id];
      && o.status == Created && o.key == op.key && o.createdAt == op.at && o.updatedAt == op.at
      && o.customer == Lower(op.input.customer)
      && o.weight == op.input.weight && o.distance == op.input.distance && o.serviceLevel == op.input.serviceLevel
      && o.pickup == op.pickup && o.dropoff == op.dropoff
      && o.pickup != o.dropoff && o.pickup !in db.addresses && o.dropoff !in db.addresses
      && db'.addresses.Keys == db.addresses.Keys + {o.pickup, o.dropoff}
      && (forall k :: k in db.addresses ==> db'.addresses[k] == db.addresses[k])
      && db'.addresses[o.pickup].city == op.input.pickup.city
      && db'.addresses[o.dropoff].city == op.input.dropoff.city
      && StoresAddress(db'.addresses[o.pickup], op.input.pickup)
      && StoresAddress(db'.addresses[o.dropoff], op.input.dropoff)
  {
  }

  /** When a creation succeeds, and with which error it fails otherwise. */
  lemma CreateOutcome(db: Db, op: Op)
    requires op.Create?
    ensures
      var drawn := op.pickup !in db.addresses && op.dropoff !in db.addresses && op.pickup != op.dropoff;
      var taken := exists id :: id in db.orders && db.orders[id].key == op.key;
      && (Execute(db, op).Success? <==> drawn && !taken && op.id !in db.orders)
      && (Execute(db, op) == Failure(DuplicateIdempotency) <==> drawn && taken)
      && (Execute(db, op) == Failure(Driver) <==> !drawn || (!taken && op.id in db.orders))
  {
  }

  // Every row of every reachable state has the columns of the call that wrote it.

  predicate WroteHistory(op: Op, row: HistoryRow) {
    match op
    case Update(id, next, source, comment, metadata, at) =>
      && row.order == id && row.status == next && row.source == source && row.metadata == metadata
      && row.createdAt == at && row.comment == if comment == "" then None else Some(comment)
    case Assign(id, courier, active, _, comment, at) =>
      && active
      && row.order == id && row.status == Assigned && row.source == Source.Manager
      && row.metadata == CourierId(courier)
      && row.createdAt == at && row.comment == if comment == "" then None else Some(comment)
    case Create(_, _, _, _, _, _) => false
  }

  predicate WroteAssignment(op: Op, id: OrderId, a: Assignment) {
    && op.Assign? && op.active && op.id == id && a.courier == op.courier && a.assignedAt == op.at
    && a.assignedBy == (if op.assignedBy == "" then None else Some(op.assignedBy))
    && a.comment == if op.comment == "" then None else Some(op.comment)
  }

  /** Of the columns of an order only the status and the update time can change later. */
  predicate WroteOrder(op: Op, id: OrderId, o: Order, addresses: map<nat, Address>) {
    && op.Create? && op.id == id && o.key == op.key && o.createdAt == op.at && o.customer == Lower(op.input.customer)
    && o.weight == op.input.weight && o.distance == op.input.distance && o.serviceLevel == op.input.serviceLevel
    && o.pickup in addresses && StoresAddress(addresses[o.pickup], op.input.pickup)
    && o.dropoff in addresses && StoresAddress(addresses[o.dropoff], op.input.dropoff)
  }

  ghost predicate HistoryFrom(db: Db, ops: seq<Op>) {
    forall i :: 0 <= i < |db.history| ==> SomeWrote(ops, db.history[i])
  }

  ghost predicate SomeWrote(ops: seq<Op>, row: HistoryRow) {
    exists j :: 0 <= j < |ops| && WroteHistory(ops[j], row)
  }

  ghost predicate AssignmentsFrom(db: Db, ops: seq<Op>) {
    forall id {:trigger db.assignments[id]} :: id in db.assignments ==>
      exists j :: 0 <= j < |ops| && WroteAssignment(ops[j], id, db.assignments[id])
  }

  ghost predicate OrdersFrom(db: Db, ops: seq<Op>) {
    forall id {:trigger db.orders[id]} :: id in db.orders ==>
      exists j :: 0 <= j < |ops| && WroteOrder(ops[j], id, db.orders[id], db.addresses)
  }

  lemma HistoryStep(db: Db, db': Db, ops: seq<Op>, op: Op)
    requires HistoryFrom(db, ops) && Execute(db, op) == Success(db')
    ensures HistoryFrom(db', ops + [op])
  {
    if op.Update? { UpdateStores(db, db', op); }
    if op.Assign? { AssignOutcome(db, op); AssignStores(db, db', op); }
    if op.Create? { CreateStores(db, db', op); }
    forall i | 0 <= i < |db'.history|
      ensures SomeWrote(ops + [op], db'.history[i])
    {
      if i < |db.history| {
        assert db'.history[i] == db.history[i] && SomeWrote(ops, db.history[i]);
        var j :| 0 <= j < |ops| && WroteHistory(ops[j], db.history[i]);
        assert (ops + [op])[j] == ops[j];
      } else {
        assert WroteHistory((ops + [op])[|ops|], db'.history[i]);
      }
    }
  }

  lemma AssignmentsStep(db: Db, db': Db, ops: seq<Op>, op: Op)
    requires AssignmentsFrom(db, ops) && Execute(db, op) == Success(db')
    ensures AssignmentsFrom(db', ops + [op])
  {
    if op.Assign? { AssignOutcome(db, op); AssignStores(db, db', op); }
    forall id | id in db'.assignments
      ensures exists j :: 0 <= j < |ops + [op]| && WroteAssignment((ops + [op])[j], id, db'.assignments[id])
    {
      if op.Assign? && id == op.id {
        assert WroteAssignment((ops + [op])[|ops|], id, db'.assignments[id]);
      } else {
        assert db'.assignments[id] == db.assignments[id];
        var j :| 0 <= j < |ops| && WroteAssignment(ops[j], id, db.assignments[id]);
        assert (ops + [op])[j] == ops[j];
      }
    }
  }

  lemma OldOrderStays(db: Db, db': Db, op: Op, id: OrderId, maker: Op)
    requires id in db.orders && WroteOrder(maker, id, db.orders[id], db.addresses) && Execute(db, op) == Success(db')
    ensures id in db'.orders && WroteOrder(maker, id, db'.orders[id], db'.addresses)
  {
    match op
    case Update(_, _, _, _, _, _) => UpdateStores(db, db', op);
    case Assign(_, _, _, _, _, _) => AssignStores(db, db', op);
    case Create(_, _, _, _, _, _) => CreateStores(db, db', op);
  }

  lemma OrdersStep(db: Db, db': Db, ops: seq<Op>, op: Op)
    requires OrdersFrom(db, ops) && Execute(db, op) == Success(db')
    ensures OrdersFrom(db', ops + [op])
  {
    forall id | id in db'.orders
      ensures exists j :: 0 <= j < |ops + [op]| && WroteOrder((ops + [op])[j], id, db'.orders[id], db'.addresses)
    {
      if id in db.orders {
        var j :| 0 <= j < |ops| && WroteOrder(ops[j], id, db.orders[id], db.addresses);
        OldOrderStays(db, db', op, id, ops[j]);
        assert (ops + [op])[j] == ops[j];
      } else {
        CreateStores(db, db', op);
        assert WroteOrder((ops + [op])[|ops|], id, db'.orders[id], db'.addresses);
      }
    }
  }

  lemma {:induction false} RowsComeFrom(ops: seq<Op>)
    requires Guarantees.AllSucceed(EMPTY, ops)
    ensures
      var db := Replay(EMPTY, ops);
      HistoryFrom(db, ops) && AssignmentsFrom(db, ops) && OrdersFrom(db, ops)
  {
    if ops != [] {
      var front, op := ops[..|ops| - 1], ops[|ops| - 1];
      assert forall i :: 0 <= i < |front| ==> front[..i] == ops[..i];
      RowsComeFrom(front);
      var db := Replay(EMPTY, front);
      assert ops[..|front|] == front;
      assert Execute(db, op).Success?;
      assert ops == front + [op];
      HistoryStep(db, After(db, op), front, op);
      AssignmentsStep(db, After(db, op), front, op);
      OrdersStep(db, After(db, op), front, op);
    }
  }

  /** In every reachable state each order, address, assignment and history row has the columns of a committed call. */
  lemma {:induction false} EveryRowHasItsCall(events: seq<Concurrency.Event>)
    ensures
      var db, ops := Concurrency.Run(Concurrency.START, events).db, Guarantees.Committed(Concurrency.START, events);
      && HistoryFrom(db, ops) && AssignmentsFrom(db, ops) && OrdersFrom(db, ops)
      && forall a :: a in db.addresses ==> exists id :: id in db.orders && Refers(db.orders[id], a)
  {
    Concurrency.StartInv();
    Guarantees.Serializable(Concurrency.START, events);
    RowsComeFrom(Guarantees.Committed(Concurrency.START, events));
    Guarantees.NoOrphans(events);
  }
}
