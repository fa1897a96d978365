/**
 The shared Postgres database and the meaning of the three writing transactions:
 `UpdateOrderStatus` of the tracking service, `AssignOrder` and `CreateOrder` of the order service.
 Each is a function from the committed rows to the committed rows, or an error that changes nothing.
 */
module Store {
  import opened Outcomes
  import opened Text
  import opened CreateInput
  import opened Lifecycle

  datatype OrderId = OrderId(text: string)

  datatype Metadata = NoMetadata | Json(text: string) | CourierId(courier: string)

  datatype HistoryRow = HistoryRow(
    order: OrderId, status: Status, source: Source, comment: Option<string>, metadata: Metadata, createdAt: nat)

  datatype Order = Order(
    customer: string, status: Status, key: string, pickup: nat, dropoff: nat,
    weight: real, distance: real, serviceLevel: string, createdAt: nat, updatedAt: nat)

  datatype Address = Address(
    city: string, street: string, house: string, apartment: Option<string>, lat: real, lng: real)

  datatype Assignment = Assignment(
    courier: string, assignedBy: Option<string>, comment: Option<string>, assignedAt: nat)

  /** `history` is in commit order; `created_at` columns hold the start time of the writing transaction. */
  datatype Db = Db(
    orders: map<OrderId, Order>,
    history: seq<HistoryRow>,
    assignments: map<OrderId, Assignment>,
    addresses: map<nat, Address>)

  const EMPTY := Db(map[], [], map[], map[])

  datatype Error =
    | OrderNotFound
    | InvalidStatus
    | TransitionNotAllowed
    | AlreadyAssigned
    | AssignmentNotAllowed
    | CourierNotFound
    | DuplicateIdempotency
    | Driver

  /** One writing transaction; `at` is its start time, `active` what the couriers table answers. */
  datatype Op =
    | Update(id: OrderId, next: Status, source: Source, comment: string, metadata: Metadata, at: nat)
    | Assign(id: OrderId, courier: string, active: bool, assignedBy: string, comment: string, at: nat)
    | Create(id: OrderId, key: string, input: CreateOrderInput, pickup: nat, dropoff: nat, at: nat)

  /** SQL `NULLIF(text, '')`. */
  function NullIfEmpty(text: string): Option<string> {
    if text == "" then None else Some(text)
  }

  function UpdateRow(op: Op): HistoryRow
    requires op.Update?
  {
    HistoryRow(op.id, op.next, op.source, NullIfEmpty(op.comment), op.metadata, op.at)
  }

  function AssignedRow(op: Op): HistoryRow
    requires op.Assign?
  {
    HistoryRow(op.id, Assigned, Source.Manager, NullIfEmpty(op.comment), CourierId(op.courier), op.at)
  }

  function NewOrder(op: Op): Order
    requires op.Create?
  {
    Order(Lower(op.input.customer), Created, op.key, op.pickup, op.dropoff,
          op.input.weight, op.input.distance, op.input.serviceLevel, op.at, op.at)
  }

  function AddressRow(a: AddressInput): Address {
    Address(a.city, a.street, a.house, NullIfEmpty(a.apartment), a.lat, a.lng)
  }

  function NewAssignment(op: Op): Assignment
    requires op.Assign?
  {
    Assignment(op.courier, NullIfEmpty(op.assignedBy), NullIfEmpty(op.comment), op.at)
  }

  predicate Matches(db: Db, id: OrderId, key: string) {
    id in db.orders && db.orders[id].key == key
  }

  predicate HasKey(db: Db, key: string) {
    exists id :: id in db.orders && db.orders[id].key == key
  }

  function WithStatus(db: Db, id: OrderId, status: Status, at: nat): Db
    requires id in db.orders
  {
    db.(orders := db.orders[id := db.orders[id].(status := status, updatedAt := at)])
  }

  function ExecuteUpdate(db: Db, op: Op): Result<Db, Error>
    requires op.Update?
  {
    if op.id !in db.orders then Failure(OrderNotFound)
    else if !CanMove(db.orders[op.id].status, op.next) then Failure(Error.TransitionNotAllowed)
    else Success(WithStatus(db, op.id, op.next, op.at).(history := db.history + [UpdateRow(op)]))
  }

  function ExecuteAssign(db: Db, op: Op): Result<Db, Error>
    requires op.Assign?
  {
    if op.id !in db.orders then Failure(OrderNotFound)
    else if db.orders[op.id].status == Assigned then Failure(AlreadyAssigned)
    else if db.orders[op.id].status != Created then Failure(AssignmentNotAllowed)
    else if !op.active then Failure(CourierNotFound)
    else if op.id in db.assignments then Failure(AlreadyAssigned)
    else Success(WithStatus(db, op.id, Assigned, op.at).(
      history := db.history + [AssignedRow(op)],
      assignments := db.assignments[op.id := NewAssignment(op)]))
  }

  function ExecuteCreate(db: Db, op: Op): Result<Db, Error>
    requires op.Create?
  {
    if op.pickup in db.addresses || op.dropoff in db.addresses || op.pickup == op.dropoff then Failure(Driver)
    else if HasKey(db, op.key) then Failure(DuplicateIdempotency)
    else if op.id in db.orders then Failure(Driver)
    else Success(db.(
      orders := db.orders[op.id := NewOrder(op)],
      addresses := db.addresses[op.pickup := AddressRow(op.input.pickup)][op.dropoff := AddressRow(op.input.dropoff)]))
  }

  function Execute(db: Db, op: Op): Result<Db, Error> {
    match op
    case Update(_, _, _, _, _, _) => ExecuteUpdate(db, op)
    case Assign(_, _, _, _, _, _) => ExecuteAssign(db, op)
    case Create(_, _, _, _, _, _) => ExecuteCreate(db, op)
  }

  /** The rows after one transaction; a failed one leaves them as they were. */
  function After(db: Db, op: Op): Db {
    match Execute(db, op)
    case Success(db') => db'
    case Failure(_) => db
  }

  function Replay(db: Db, ops: seq<Op>): Db {
    if ops == [] then db else After(Replay(db, ops[..|ops| - 1]), ops[|ops| - 1])
  }

  /** `SELECT ... FROM order_status_history WHERE order_id = id`, in commit order. */
  function Rows(history: seq<HistoryRow>, id: OrderId): seq<HistoryRow> {
    if history == [] then []
    else
      var rest := Rows(history[..|history| - 1], id);
      if history[|history| - 1].order == id then rest + [history[|history| - 1]] else rest
  }

  lemma RowsAppend(history: seq<HistoryRow>, row: HistoryRow, id: OrderId)
    ensures Rows(history + [row], id) == Rows(history, id) + if row.order == id then [row] else []
  {
    assert (history + [row])[..|history|] == history;
  }

  lemma {:induction false} RowsOfUnknownOrder(history: seq<HistoryRow>, id: OrderId)
    requires forall i :: 0 <= i < |history| ==> history[i].order != id
    ensures Rows(history, id) == []
  {
    if history != [] {
      RowsOfUnknownOrder(history[..|history| - 1], id);
    }
  }

  function Statuses(rows: seq<HistoryRow>): (ss: seq<Status>)
    ensures |ss| == |rows| && forall i :: 0 <= i < |rows| ==> ss[i] == rows[i].status
  {
    seq(|rows|, i requires 0 <= i < |rows| => rows[i].status)
  }

  /** The statuses an API-created order went through; `created` itself leaves no history row. */
  function Track(db: Db, id: OrderId): (path: seq<Status>)
    ensures |path| == |Rows(db.history, id)| + 1
  {
    [Created] + Statuses(Rows(db.history, id))
  }

  // What every committed state keeps.

  ghost predicate LifecycleInv(db: Db) {
    && (forall i :: 0 <= i < |db.history| ==> db.history[i].order in db.orders)
    && (forall id {:trigger OnTrack(db, id)} :: id in db.orders ==> OnTrack(db, id))
  }

  predicate OnTrack(db: Db, id: OrderId)
    requires id in db.orders
  {
    var path := Track(db, id);
    IsPath(path) && path[|path| - 1] == db.orders[id].status
  }

  /** The history row that an assignment row comes with. */
  predicate RecordsAssignment(row: HistoryRow, id: OrderId, a: Assignment) {
    row.order == id && row.status == Assigned && row.source == Source.Manager && row.metadata == CourierId(a.courier)
  }

  ghost predicate AssignmentInv(db: Db) {
    forall id :: id in db.assignments ==>
      && id in db.orders
      && db.orders[id].status != Created
      && exists i :: 0 <= i < |db.history| && RecordsAssignment(db.history[i], id, db.assignments[id])
  }

  ghost predicate KeyInv(db: Db) {
    forall a, b :: a in db.orders && b in db.orders && db.orders[a].key == db.orders[b].key ==> a == b
  }

  predicate Refers(o: Order, address: nat) {
    o.pickup == address || o.dropoff == address
  }

  predicate OwnsTwo(db: Db, id: OrderId)
    requires id in db.orders
  {
    var o := db.orders[id];
    o.pickup != o.dropoff && o.pickup in db.addresses && o.dropoff in db.addresses
  }

  predicate Owned(db: Db, address: nat) {
    exists id :: id in db.orders && Refers(db.orders[id], address)
  }

  predicate Disjoint(a: Order, b: Order) {
    !Refers(a, b.pickup) && !Refers(a, b.dropoff)
  }

  /** No orphan addresses, none shared: two per order. */
  ghost predicate AddressInv(db: Db) {
    EachOwnsTwo(db) && AllOwned(db) && NoneShared(db) && |db.addresses| == 2 * |db.orders|
  }

  ghost predicate EachOwnsTwo(db: Db) {
    forall id {:trigger OwnsTwo(db, id)} :: id in db.orders ==> OwnsTwo(db, id)
  }

  ghost predicate AllOwned(db: Db) {
    forall a {:trigger Owned(db, a)} :: a in db.addresses ==> Owned(db, a)
  }

  ghost predicate NoneShared(db: Db) {
    forall id, id' {:trigger Disjoint(db.orders[id], db.orders[id'])} ::
      (id in db.orders && id' in db.orders && id != id') ==> Disjoint(db.orders[id], db.orders[id'])
  }

  ghost predicate Inv(db: Db) {
    LifecycleInv(db) && AssignmentInv(db) && KeyInv(db) && AddressInv(db)
  }

  lemma EmptyInv()
    ensures Inv(EMPTY)
  {
  }

  lemma TrackAppend(db: Db, db': Db, row: HistoryRow, id: OrderId)
    requires db'.history == db.history + [row]
    ensures Track(db', id) == if row.order == id then Track(db, id) + [row.status] else Track(db, id)
  {
    RowsAppend(db.history, row, id);
  }

  /** Moving one order along the table and logging the move keeps every order on its track. */
  lemma MovePreservesLifecycle(db: Db, db': Db, id: OrderId, row: HistoryRow, at: nat)
    requires LifecycleInv(db) && id in db.orders && row.order == id
    requires CanMove(db.orders[id].status, row.status)
    requires db'.orders == WithStatus(db, id, row.status, at).orders && db'.history == db.history + [row]
    ensures LifecycleInv(db')
  {
    forall k | k in db'.orders ensures OnTrack(db', k) {
      assert k in db.orders && OnTrack(db, k);
      MoveStaysOnTrack(db, db', row, k, at);
    }
  }

  lemma MoveStaysOnTrack(db: Db, db': Db, row: HistoryRow, k: OrderId, at: nat)
    requires row.order in db.orders && k in db.orders && OnTrack(db, k)
    requires CanMove(db.orders[row.order].status, row.status)
    requires db'.orders == WithStatus(db, row.order, row.status, at).orders && db'.history == db.history + [row]
    ensures OnTrack(db', k)
  {
    TrackAppend(db, db', row, k);
    if k == row.order {
      PathGrows(Track(db, k), row.status);
      assert db'.orders[k].status == row.status;
    } else {
      assert db'.orders[k] == db.orders[k];
    }
  }

  lemma PathGrows(path: seq<Status>, next: Status)
    requires path != [] && IsPath(path) && CanMove(path[|path| - 1], next)
    ensures IsPath(path + [next])
  {
  }

  lemma MovePreservesKeys(db: Db, db': Db, id: OrderId, status: Status, at: nat)
    requires KeyInv(db) && id in db.orders
    requires db'.orders == WithStatus(db, id, status, at).orders
    ensures KeyInv(db')
  {
    forall a, b | a in db'.orders && b in db'.orders && db'.orders[a].key == db'.orders[b].key ensures a == b {
      assert db.orders[a].key == db.orders[b].key;
    }
  }

  lemma MovePreservesOwners(db: Db, db': Db, id: OrderId, status: Status, at: nat)
    requires EachOwnsTwo(db) && AllOwned(db) && id in db.orders
    requires db'.orders == WithStatus(db, id, status, at).orders && db'.addresses == db.addresses
    ensures EachOwnsTwo(db') && AllOwned(db')
  {
    forall k | k in db'.orders ensures OwnsTwo(db', k) {
      assert OwnsTwo(db, k);
    }
    forall a | a in db'.addresses ensures Owned(db', a) {
      assert Owned(db, a);
      var k :| k in db.orders && Refers(db.orders[k], a);
      assert k in db'.orders && Refers(db'.orders[k], a);
    }
  }

  lemma MovePreservesAddresses(db: Db, db': Db, id: OrderId, status: Status, at: nat)
    requires AddressInv(db) && id in db.orders
    requires db'.orders == WithStatus(db, id, status, at).orders && db'.addresses == db.addresses
    ensures AddressInv(db')
  {
    MovePreservesOwners(db, db', id, status, at);
    forall k, k' | k in db'.orders && k' in db'.orders && k != k' ensures Disjoint(db'.orders[k], db'.orders[k']) {
      assert Disjoint(db.orders[k], db.orders[k']);
    }
    assert db'.orders.Keys == db.orders.Keys;
    assert |db'.orders| == |db'.orders.Keys| == |db.orders|;
  }

  lemma MovePreservesAssignments(db: Db, db': Db, row: HistoryRow, id: OrderId, at: nat)
    requires AssignmentInv(db) && id in db.orders && row.status != Created
    requires db'.orders == WithStatus(db, id, row.status, at).orders && db'.history == db.history + [row]
    requires db'.assignments == db.assignments
    ensures AssignmentInv(db')
  {
    forall k | k in db'.assignments
      ensures exists i :: 0 <= i < |db'.history| && RecordsAssignment(db'.history[i], k, db'.assignments[k])
    {
      var i :| 0 <= i < |db.history| && RecordsAssignment(db.history[i], k, db.assignments[k]);
      assert db'.history[i] == db.history[i];
    }
  }

  /** The effect both status-changing transactions share: one allowed move, logged by one row. */
  ghost predicate Moves(db: Db, db': Db, row: HistoryRow) {
    && row.order in db.orders
    && CanMove(db.orders[row.order].status, row.status)
    && db'.orders == WithStatus(db, row.order, row.status, row.createdAt).orders
    && db'.history == db.history + [row]
    && db'.addresses == db.addresses
  }

  lemma UpdateMoves(db: Db, db': Db, op: Op)
    requires op.Update? && Execute(db, op) == Success(db')
    ensures Moves(db, db', UpdateRow(op)) && db'.assignments == db.assignments
  {
  }

  lemma AssignMoves(db: Db, db': Db, op: Op)
    requires op.Assign? && Execute(db, op) == Success(db')
    ensures Moves(db, db', AssignedRow(op)) && db'.assignments == db.assignments[op.id := NewAssignment(op)]
  {
  }

  lemma MovePreserves(db: Db, db': Db, row: HistoryRow)
    requires LifecycleInv(db) && KeyInv(db) && AddressInv(db) && Moves(db, db', row)
    ensures LifecycleInv(db') && KeyInv(db') && AddressInv(db')
  {
    MovePreservesLifecycle(db, db', row.order, row, row.createdAt);
    MovePreservesKeys(db, db', row.order, row.status, row.createdAt);
    MovePreservesAddresses(db, db', row.order, row.status, row.createdAt);
  }

  lemma UpdatePreserves(db: Db, db': Db, op: Op)
    requires Inv(db) && op.Update? && Execute(db, op) == Success(db')
    ensures Inv(db')
  {
    UpdateMoves(db, db', op);
    MovePreserves(db, db', UpdateRow(op));
    MovePreservesAssignments(db, db', UpdateRow(op), op.id, op.at);
  }

  lemma AssignPreserves(db: Db, db': Db, op: Op)
    requires Inv(db) && op.Assign? && Execute(db, op) == Success(db')
    ensures Inv(db')
  {
    AssignMoves(db, db', op);
    MovePreserves(db, db', AssignedRow(op));
    MovePreservesAssignments(db, db'.(assignments := db.assignments), AssignedRow(op), op.id, op.at);
    assert RecordsAssignment(db'.history[|db.history|], op.id, db'.assignments[op.id]);
  }

  lemma CreatePreserves(db: Db, db': Db, op: Op)
    requires Inv(db) && op.Create? && Execute(db, op) == Success(db')
    ensures Inv(db')
  {
    CreatePreservesTracks(db, db', op);
    CreatePreservesAddresses(db, db', op);
  }

  lemma CreatePreservesTracks(db: Db, db': Db, op: Op)
    requires LifecycleInv(db) && op.Create? && Execute(db, op) == Success(db')
    ensures LifecycleInv(db')
  {
    forall k | k in db'.orders ensures OnTrack(db', k) {
      if k == op.id {
        RowsOfUnknownOrder(db.history, k);
      } else {
        assert OnTrack(db, k);
      }
    }
  }

  lemma CreatePreservesOwners(db: Db, db': Db, op: Op)
    requires EachOwnsTwo(db) && AllOwned(db) && op.Create? && Execute(db, op) == Success(db')
    ensures EachOwnsTwo(db') && AllOwned(db')
  {
    forall k | k in db'.orders ensures OwnsTwo(db', k) {
      if k != op.id { assert OwnsTwo(db, k); }
    }
    forall a | a in db'.addresses ensures Owned(db', a) {
      if a in db.addresses {
        assert Owned(db, a);
        var k :| k in db.orders && Refers(db.orders[k], a);
        assert k in db'.orders && Refers(db'.orders[k], a);
      } else {
        assert op.id in db'.orders && Refers(db'.orders[op.id], a);
      }
    }
  }

  lemma CreateSharesNone(db: Db, db': Db, op: Op)
    requires EachOwnsTwo(db) && NoneShared(db) && op.Create? && Execute(db, op) == Success(db')
    ensures NoneShared(db')
  {
    forall k, k' | k in db'.orders && k' in db'.orders && k != k' ensures Disjoint(db'.orders[k], db'.orders[k']) {
      if k == op.id {
        assert OwnsTwo(db, k');
      } else if k' == op.id {
        assert OwnsTwo(db, k);
      } else {
        assert Disjoint(db.orders[k], db.orders[k']);
      }
    }
  }

  lemma CardinalityAfterInsert<K, V>(m: map<K, V>, k: K, v: V)
    requires k !in m
    ensures |m[k := v]| == |m| + 1
  {
    assert m[k := v].Keys == m.Keys + {k};
    assert |m| == |m.Keys| && |m[k := v]| == |m[k := v].Keys|;
  }

  lemma CreatePreservesAddresses(db: Db, db': Db, op: Op)
    requires AddressInv(db) && op.Create? && Execute(db, op) == Success(db')
    ensures AddressInv(db')
  {
    CreatePreservesOwners(db, db', op);
    CreateSharesNone(db, db', op);
    CardinalityAfterInsert(db.orders, op.id, NewOrder(op));
    var first := AddressRow(op.input.pickup);
    CardinalityAfterInsert(db.addresses, op.pickup, first);
    CardinalityAfterInsert(db.addresses[op.pickup := first], op.dropoff, AddressRow(op.input.dropoff));
  }

  lemma AfterPreserves(db: Db, op: Op)
    requires Inv(db)
    ensures Inv(After(db, op))
  {
    if Execute(db, op).Success? {
      match op
      case Update(_, _, _, _, _, _) => UpdatePreserves(db, After(db, op), op);
      case Assign(_, _, _, _, _, _) => AssignPreserves(db, After(db, op), op);
      case Create(_, _, _, _, _, _) => CreatePreserves(db, After(db, op), op);
    }
  }

  lemma {:induction false} ReplayPreserves(db: Db, ops: seq<Op>)
    requires Inv(db)
    ensures Inv(Replay(db, ops))
  {
    if ops != [] {
      ReplayPreserves(db, ops[..|ops| - 1]);
      AfterPreserves(Replay(db, ops[..|ops| - 1]), ops[|ops| - 1]);
    }
  }

  /** Nothing is taken back: orders stay, histories grow at the end, statuses climb, end states hold. */
  ghost predicate Advances(db: Db, db': Db) {
    && db.history <= db'.history
    && (forall id :: id in db.orders ==> OrderAdvances(db, db', id))
    && (forall id :: id in db.assignments ==> id in db'.assignments && db'.assignments[id] == db.assignments[id])
  }

  predicate OrderAdvances(db: Db, db': Db, id: OrderId)
    requires id in db.orders
  {
    && id in db'.orders
    && Rows(db.history, id) <= Rows(db'.history, id)
    && db'.orders[id].(status := db.orders[id].status, updatedAt := db.orders[id].updatedAt) == db.orders[id]
    && Rank(db.orders[id].status) <= Rank(db'.orders[id].status)
    && (|Rows(db.history, id)| == |Rows(db'.history, id)| ==> db'.orders[id].status == db.orders[id].status)
    && (|Rows(db.history, id)| < |Rows(db'.history, id)| ==>
          Rank(db.orders[id].status) < Rank(db'.orders[id].status) && !Terminal(db.orders[id].status))
  }

  lemma AdvancesTransitive(a: Db, b: Db, c: Db)
    requires Advances(a, b) && Advances(b, c)
    ensures Advances(a, c)
  {
    forall id | id in a.orders ensures OrderAdvances(a, c, id) {
      assert OrderAdvances(a, b, id) && OrderAdvances(b, c, id);
    }
  }

  lemma MoveAdvances(db: Db, db': Db, row: HistoryRow, id: OrderId)
    requires Moves(db, db', row) && id in db.orders
    ensures OrderAdvances(db, db', id)
  {
    RowsAppend(db.history, row, id);
  }

  lemma AfterAdvances(db: Db, op: Op)
    ensures Advances(db, After(db, op))
  {
    var db' := After(db, op);
    if Execute(db, op).Success? && !op.Create? {
      var row := if op.Update? then UpdateRow(op) else AssignedRow(op);
      if op.Update? { UpdateMoves(db, db', op); } else { AssignMoves(db, db', op); }
      forall id | id in db.orders ensures OrderAdvances(db, db', id) {
        MoveAdvances(db, db', row, id);
      }
    }
  }

  lemma {:induction false} ReplayAdvances(db: Db, ops: seq<Op>)
    ensures Advances(db, Replay(db, ops))
  {
    if ops != [] {
      var mid := Replay(db, ops[..|ops| - 1]);
      ReplayAdvances(db, ops[..|ops| - 1]);
      AfterAdvances(mid, ops[|ops| - 1]);
      AdvancesTransitive(db, mid, Replay(db, ops));
    }
  }

  lemma ReplayConcat(db: Db, xs: seq<Op>, ys: seq<Op>)
    ensures Replay(db, xs + ys) == Replay(Replay(db, xs), ys)
    decreases |ys|
  {
    if ys == [] {
      assert xs + ys == xs;
    } else {
      assert (xs + ys)[..|xs + ys| - 1] == xs + ys[..|ys| - 1];
      ReplayConcat(db, xs, ys[..|ys| - 1]);
    }
  }

  // Consequences for one committed state.

  lemma HistoryIsShortAndSimple(db: Db, id: OrderId)
    requires LifecycleInv(db) && id in db.orders
    ensures |Rows(db.history, id)| <= 3
    ensures forall i, j :: 0 <= i < j < |Rows(db.history, id)| ==>
      Rows(db.history, id)[i].status != Rows(db.history, id)[j].status
    ensures forall i :: 0 <= i < |Rows(db.history, id)| ==> Rows(db.history, id)[i].status != Created
  {
    var rows, path := Rows(db.history, id), Track(db, id);
    assert OnTrack(db, id);
    PathIsShortAndSimple(path);
    forall i | 0 <= i < |rows| ensures rows[i].status == path[i + 1] && path[i + 1] != path[0] {
    }
  }

  /** An order in status `created` has no history yet. */
  lemma NothingRecordedYet(db: Db, id: OrderId)
    requires LifecycleInv(db) && id in db.orders && db.orders[id].status == Created
    ensures Rows(db.history, id) == []
  {
    assert OnTrack(db, id);
    RankAlongPath(Track(db, id), 0, |Rows(db.history, id)|);
  }

  /** Where a row of the whole table sits among the rows of its order. */
  lemma {:induction false} RowPosition(history: seq<HistoryRow>, i: nat) returns (p: nat)
    requires i < |history|
    ensures p == |Rows(history[..i], history[i].order)|
    ensures p < |Rows(history, history[i].order)| && Rows(history, history[i].order)[p] == history[i]
    decreases |history|
  {
    var id, n := history[i].order, |history| - 1;
    p := |Rows(history[..i], id)|;
    if i < n {
      var front := history[..n];
      assert front[..i] == history[..i];
      var q := RowPosition(front, i);
      assert Rows(front, id) <= Rows(history, id);
    }
  }

  lemma {:induction false} RowsMonotone(history: seq<HistoryRow>, i: nat, j: nat, id: OrderId)
    requires i <= j <= |history|
    ensures Rows(history[..i], id) <= Rows(history[..j], id)
    decreases j
  {
    if i < j {
      RowsMonotone(history, i, j - 1, id);
      assert history[..j][..j - 1] == history[..j - 1];
    }
  }

  /** No order enters the same status twice: one history row per (order, status). */
  lemma OneRowPerStatus(db: Db, i: nat, j: nat)
    requires LifecycleInv(db) && i < |db.history| && j < |db.history|
    requires db.history[i].order == db.history[j].order && db.history[i].status == db.history[j].status
    ensures i == j
  {
    if i != j {
      var a, b := if i < j then i else j, if i < j then j else i;
      var id := db.history[a].order;
      var p := RowPosition(db.history, a);
      var q := RowPosition(db.history, b);
      assert db.history[..a + 1][..a] == db.history[..a];
      RowsMonotone(db.history, a + 1, b, id);
      assert p < q;
      HistoryIsShortAndSimple(db, id);
    }
  }
}
