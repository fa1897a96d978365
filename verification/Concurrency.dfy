/**
 Any number of clients of the two services, one database statement at a time.

 `UpdateOrderStatus` and `AssignOrder` lock the order row (`SELECT ... FOR UPDATE`), check, write and commit;
 `CreateOrder` looks its key up, inserts two addresses and an order, and looks again after a duplicate key.
 Writes are private until the commit, row and key locks are held to its end, and a fault can strike anywhere,
 also between the commit and its acknowledgement. An event that is not enabled (a blocked lock, say) changes
 nothing, so every sequence of events is a run.
 */
module Concurrency {
  import opened Outcomes
  import opened Lifecycle
  import opened Store

  type TxId = nat

  datatype Write =
    | PutStatus(id: OrderId, status: Status, at: nat)
    | PutHistory(row: HistoryRow)
    | PutAssignment(id: OrderId, assignment: Assignment)
    | PutAddress(key: nat, address: Address)
    | PutOrder(id: OrderId, order: Order)

  /** What a service call came to; `row` is the history row its transaction appended. */
  datatype Outcome =
    | Recorded(row: nat, notified: bool)
    | Answered(id: OrderId, created: bool)
    | Failed(error: Error)

  datatype Pc = Lookup | Open | Locked | Approved | Conflict | Returned(outcome: Outcome)

  datatype Tx = Tx(op: Op, pc: Pc, seen: Status, writes: seq<Write>)

  datatype State = State(
    db: Db, txs: map<TxId, Tx>, rowLock: map<OrderId, TxId>, keyLock: map<string, TxId>, now: nat, notified: seq<TxId>)

  datatype Event =
    | Call(t: TxId, op: Op)
    | Advance(t: TxId, found: OrderId)
    | Commit(t: TxId, acknowledged: bool)
    | Fault(t: TxId)
    | Notify(t: TxId)
    | Tick

  const START := State(EMPTY, map[], map[], map[], 0, [])

  /** The statements of a transaction after its reads and checks, in order. */
  function Plan(op: Op): seq<Write> {
    match op
    case Update(id, next, _, _, _, at) => [PutStatus(id, next, at), PutHistory(UpdateRow(op))]
    case Assign(id, _, _, _, _, at) =>
      [PutAssignment(id, NewAssignment(op)), PutStatus(id, Assigned, at), PutHistory(AssignedRow(op))]
    case Create(id, _, input, pickup, dropoff, _) =>
      [PutAddress(pickup, AddressRow(input.pickup)), PutAddress(dropoff, AddressRow(input.dropoff)),
       PutOrder(id, NewOrder(op))]
  }

  function Apply(db: Db, w: Write): Db {
    match w
    case PutStatus(id, status, at) => if id in db.orders then WithStatus(db, id, status, at) else db
    case PutHistory(row) => db.(history := db.history + [row])
    case PutAssignment(id, assignment) => db.(assignments := db.assignments[id := assignment])
    case PutAddress(key, address) => db.(addresses := db.addresses[key := address])
    case PutOrder(id, order) => db.(orders := db.orders[id := order])
  }

  function ApplyAll(db: Db, writes: seq<Write>): Db
    decreases |writes|
  {
    if writes == [] then db else ApplyAll(Apply(db, writes[0]), writes[1..])
  }

  /** `gen_random_uuid()` repeats neither a stored id nor one drawn by another transaction. */
  ghost predicate Fresh(s: State, op: Op) {
    op.Create? ==>
      && op.id !in s.db.orders && op.pickup !in s.db.addresses && op.dropoff !in s.db.addresses
      && op.pickup != op.dropoff
      && forall u :: u in s.txs ==> DrawsApart(op, s.txs[u].op)
  }

  predicate DrawsApart(a: Op, b: Op) {
    (a.Create? && b.Create?) ==>
      a.id != b.id && a.pickup != b.pickup && a.pickup != b.dropoff && a.dropoff != b.pickup && a.dropoff != b.dropoff
  }

  function Release<K>(locks: map<K, TxId>, t: TxId): map<K, TxId> {
    map k | k in locks && locks[k] != t :: locks[k]
  }

  function Goto(s: State, t: TxId, tx: Tx): State {
    s.(txs := s.txs[t := tx])
  }

  function StartedAt(op: Op, now: nat): Op {
    op.(at := now)
  }

  /** Roll back, dropping the private writes and the locks, and go on at `pc`. */
  function Rollback(s: State, t: TxId, pc: Pc): State
    requires t in s.txs
  {
    Goto(s, t, s.txs[t].(pc := pc, writes := [])).(
      rowLock := Release(s.rowLock, t), keyLock := Release(s.keyLock, t))
  }

  /** `GetOrderByIdempotencyKey`: the row `found` if the key has one, else `missing`. */
  ghost function LookupKey(s: State, t: TxId, found: OrderId, missing: State): State
    requires t in s.txs && s.txs[t].op.Create?
  {
    if Matches(s.db, found, s.txs[t].op.key) then Goto(s, t, s.txs[t].(pc := Returned(Answered(found, false))))
    else if HasKey(s.db, s.txs[t].op.key) then s
    else missing
  }

  function LockRow(s: State, t: TxId): State
    requires t in s.txs && !s.txs[t].op.Create?
  {
    var tx := s.txs[t];
    if tx.op.id !in s.db.orders then Rollback(s, t, Returned(Failed(OrderNotFound)))
    else if tx.op.id in s.rowLock then s
    else Goto(s, t, tx.(pc := Locked, seen := s.db.orders[tx.op.id].status)).(rowLock := s.rowLock[tx.op.id := t])
  }

  function CheckRow(s: State, t: TxId): State
    requires t in s.txs && !s.txs[t].op.Create?
  {
    var tx := s.txs[t];
    if tx.op.Update? then
      if CanMove(tx.seen, tx.op.next) then Goto(s, t, tx.(pc := Approved))
      else Rollback(s, t, Returned(Failed(Error.TransitionNotAllowed)))
    else if tx.seen == Assigned then Rollback(s, t, Returned(Failed(AlreadyAssigned)))
    else if tx.seen != Created then Rollback(s, t, Returned(Failed(AssignmentNotAllowed)))
    else if !tx.op.active then Rollback(s, t, Returned(Failed(CourierNotFound)))
    else Goto(s, t, tx.(pc := Approved))
  }

  /** The next INSERT or UPDATE; the two UNIQUE constraints answer or make the statement wait. */
  ghost function WriteNext(s: State, t: TxId): State
    requires t in s.txs
  {
    var tx := s.txs[t];
    if |tx.writes| >= |Plan(tx.op)| then s
    else
      var w := Plan(tx.op)[|tx.writes|];
      var done := tx.(writes := tx.writes + [w]);
      match w
      case PutAssignment(id, _) =>
        if id in s.db.assignments then Rollback(s, t, Returned(Failed(AlreadyAssigned))) else Goto(s, t, done)
      case PutOrder(_, order) =>
        if HasKey(s.db, order.key) then Rollback(s, t, Conflict)
        else if order.key in s.keyLock then s
        else Goto(s, t, done).(keyLock := s.keyLock[order.key := t])
      case _ => Goto(s, t, done)
  }

  ghost function AdvanceTx(s: State, t: TxId, found: OrderId): State
    requires t in s.txs
    requires s.txs[t].pc in {Lookup, Conflict} ==> s.txs[t].op.Create?
    requires s.txs[t].pc == Locked ==> !s.txs[t].op.Create?
  {
    var tx := s.txs[t];
    match tx.pc
    case Lookup => LookupKey(s, t, found, Goto(s, t, tx.(pc := Open, op := StartedAt(tx.op, s.now))))
    case Open => if tx.op.Create? then WriteNext(s, t) else LockRow(s, t)
    case Locked => CheckRow(s, t)
    case Approved => WriteNext(s, t)
    case Conflict => LookupKey(s, t, found, Goto(s, t, tx.(pc := Returned(Failed(OrderNotFound)))))
    case Returned(_) => s
  }

  predicate Ready(s: State, t: TxId) {
    && t in s.txs
    && (if s.txs[t].op.Create? then s.txs[t].pc == Open else s.txs[t].pc == Approved)
    && |s.txs[t].writes| == |Plan(s.txs[t].op)|
  }

  function CommitTx(s: State, t: TxId, acknowledged: bool): State
    requires t in s.txs
  {
    var tx := s.txs[t];
    var outcome :=
      if !acknowledged then Failed(Driver)
      else if tx.op.Create? then Answered(tx.op.id, true)
      else Recorded(|s.db.history|, false);
    Goto(s, t, tx.(pc := Returned(outcome))).(
      db := ApplyAll(s.db, tx.writes),
      rowLock := Release(s.rowLock, t), keyLock := Release(s.keyLock, t))
  }

  /** Program counters fit the kind of call. */
  predicate WellFormed(tx: Tx) {
    match tx.pc
    case Lookup => tx.op.Create?
    case Conflict => tx.op.Create?
    case Locked => !tx.op.Create?
    case Approved => !tx.op.Create?
    case _ => true
  }

  ghost function Step(s: State, e: Event): State {
    match e
    case Call(t, op) =>
      if t in s.txs || !Fresh(s, op) then s
      else Goto(s, t, Tx(StartedAt(op, s.now), if op.Create? then Lookup else Open, Created, []))
    case Advance(t, found) => if t in s.txs && WellFormed(s.txs[t]) then AdvanceTx(s, t, found) else s
    case Commit(t, acknowledged) => if Ready(s, t) then CommitTx(s, t, acknowledged) else s
    case Fault(t) =>
      if t in s.txs && !s.txs[t].pc.Returned? then Rollback(s, t, Returned(Failed(Driver))) else s
    case Notify(t) =>
      if t in s.txs && s.txs[t].op.Update? && s.txs[t].pc.Returned? && s.txs[t].pc.outcome.Recorded?
         && !s.txs[t].pc.outcome.notified
      then Goto(s, t, s.txs[t].(pc := Returned(Recorded(s.txs[t].pc.outcome.row, true)))).(notified := s.notified + [t])
      else s
    case Tick => s.(now := s.now + 1)
  }

  ghost function Run(s: State, events: seq<Event>): State {
    if events == [] then s else Step(Run(s, events[..|events| - 1]), events[|events| - 1])
  }

  // The inductive invariant.

  predicate HoldsRow(s: State, t: TxId)
    requires t in s.txs
  {
    var tx := s.txs[t];
    && tx.op.id in s.rowLock && s.rowLock[tx.op.id] == t
    && tx.op.id in s.db.orders && s.db.orders[tx.op.id].status == tx.seen
  }

  predicate MayWrite(tx: Tx) {
    if tx.op.Update? then CanMove(tx.seen, tx.op.next) else tx.op.Assign? && tx.seen == Created && tx.op.active
  }

  function RowOf(op: Op): HistoryRow
    requires !op.Create?
  {
    if op.Update? then UpdateRow(op) else AssignedRow(op)
  }

  predicate OutcomeInv(s: State, op: Op, outcome: Outcome) {
    match outcome
    case Recorded(row, _) => !op.Create? && row < |s.db.history| && s.db.history[row] == RowOf(op)
    case Answered(id, created) => op.Create? && Matches(s.db, id, op.key) && (created ==> id == op.id)
    case Failed(error) => op.Create? ==> error == Driver
  }

  ghost predicate TxInv(s: State, t: TxId)
    requires t in s.txs
  {
    var tx := s.txs[t];
    && tx.writes <= Plan(tx.op)
    && (match tx.pc
        case Lookup => tx.op.Create? && tx.writes == []
        case Open =>
          if tx.op.Create? then
            |tx.writes| == 3 ==>
              tx.op.key in s.keyLock && s.keyLock[tx.op.key] == t && !HasKey(s.db, tx.op.key)
          else tx.writes == []
        case Locked => !tx.op.Create? && HoldsRow(s, t) && tx.writes == []
        case Approved => !tx.op.Create? && HoldsRow(s, t) && MayWrite(tx)
        case Conflict => tx.op.Create? && tx.writes == [] && HasKey(s.db, tx.op.key)
        case Returned(outcome) => OutcomeInv(s, tx.op, outcome))
    && (tx.op.Create? && !tx.pc.Returned? ==> StillFresh(s.db, tx.op))
  }

  predicate StillFresh(db: Db, op: Op)
    requires op.Create?
  {
    op.id !in db.orders && op.pickup !in db.addresses && op.dropoff !in db.addresses && op.pickup != op.dropoff
  }

  predicate Apart(a: Tx, b: Tx) {
    && DrawsApart(a.op, b.op)
    && (a.pc.Returned? && a.pc.outcome.Recorded? && b.pc.Returned? && b.pc.outcome.Recorded? ==>
          a.pc.outcome.row != b.pc.outcome.row)
  }

  predicate NotifiedBy(s: State, t: TxId) {
    t in s.txs && s.txs[t].op.Update? && s.txs[t].pc.Returned? && s.txs[t].pc.outcome.Recorded?
    && s.txs[t].pc.outcome.notified
  }

  ghost predicate AllTxInv(s: State) {
    forall t {:trigger TxInv(s, t)} :: t in s.txs ==> TxInv(s, t)
  }

  ghost predicate AllApart(s: State) {
    forall t, u {:trigger Apart(s.txs[t], s.txs[u])} ::
      (t in s.txs && u in s.txs && t != u) ==> Apart(s.txs[t], s.txs[u])
  }

  ghost predicate NotifyInv(s: State) {
    && (forall i {:trigger s.notified[i]} :: 0 <= i < |s.notified| ==> NotifiedBy(s, s.notified[i]))
    && (forall i, j {:trigger s.notified[i], s.notified[j]} :: 0 <= i < j < |s.notified| ==>
          s.notified[i] != s.notified[j])
  }

  ghost predicate MachineInv(s: State) {
    Inv(s.db) && AllTxInv(s) && AllApart(s) && NotifyInv(s)
  }

  // Commits are the atomic operations of module Store.

  /** With the row or key lock still held, the buffered writes are one execution of the operation. */
  lemma CommitExecutes(s: State, t: TxId)
    requires Inv(s.db) && Ready(s, t) && TxInv(s, t)
    ensures Execute(s.db, s.txs[t].op) == Success(ApplyAll(s.db, s.txs[t].writes))
  {
    var tx := s.txs[t];
    assert tx.writes == Plan(tx.op);
    if tx.op.Update? {
      ApplyTwo(s.db, Plan(tx.op));
    } else {
      ApplyThree(s.db, Plan(tx.op));
    }
  }

  lemma ApplyTwo(db: Db, p: seq<Write>)
    requires |p| == 2
    ensures ApplyAll(db, p) == Apply(Apply(db, p[0]), p[1])
  {
    assert p[1..] == [p[1]] && p[1..][1..] == [];
    assert ApplyAll(Apply(db, p[0]), p[1..]) == ApplyAll(Apply(Apply(db, p[0]), p[1]), []);
  }

  lemma ApplyThree(db: Db, p: seq<Write>)
    requires |p| == 3
    ensures ApplyAll(db, p) == Apply(Apply(Apply(db, p[0]), p[1]), p[2])
  {
    assert p[1..] == [p[1], p[2]];
    ApplyTwo(Apply(db, p[0]), p[1..]);
  }

  /** What the other transactions rely on survives the step of `t`. */
  ghost predicate Undisturbed(s: State, s': State, t: TxId) {
    && (forall u :: u in s.txs && u != t ==> u in s'.txs && s'.txs[u] == s.txs[u])
    && (forall k :: k in s.rowLock && s.rowLock[k] != t ==> k in s'.rowLock && s'.rowLock[k] == s.rowLock[k])
    && (forall k :: k in s.keyLock && s.keyLock[k] != t ==> k in s'.keyLock && s'.keyLock[k] == s.keyLock[k])
  }

  lemma OtherTxKeeps(s: State, s': State, t: TxId, u: TxId)
    requires u in s.txs && u != t && TxInv(s, u) && Undisturbed(s, s', t) && s'.db == s.db
    ensures TxInv(s', u)
  {
  }

  lemma OtherTxKeepsOnCommit(s: State, s': State, t: TxId, u: TxId)
    requires t in s.txs && u in s.txs && u != t && TxInv(s, t) && TxInv(s, u) && Apart(s.txs[t], s.txs[u])
    requires Undisturbed(s, s', t) && Execute(s.db, s.txs[t].op) == Success(s'.db)
    requires s.txs[t].op.Create? ==> s.txs[t].op.key in s.keyLock && s.keyLock[s.txs[t].op.key] == t
    requires !s.txs[t].op.Create? ==> s.txs[t].op.id in s.rowLock && s.rowLock[s.txs[t].op.id] == t
    ensures TxInv(s', u)
  {
    var op, tx := s.txs[t].op, s.txs[u];
    match tx.pc
    case Lookup =>
    case Open =>
      if tx.op.Create? && |tx.writes| == 3 { KeyStaysFree(s.db, op, s'.db, tx.op.key); }
    case Locked =>
    case Approved =>
    case Conflict => KeyStaysTaken(s.db, op, s'.db, tx.op.key);
    case Returned(_) =>
  }

  lemma KeyStaysTaken(db: Db, op: Op, db': Db, key: string)
    requires Execute(db, op) == Success(db') && HasKey(db, key)
    ensures HasKey(db', key)
  {
    var id :| id in db.orders && db.orders[id].key == key;
    assert id in db'.orders && db'.orders[id].key == key;
  }

  lemma KeyStaysFree(db: Db, op: Op, db': Db, key: string)
    requires Execute(db, op) == Success(db') && !HasKey(db, key) && (op.Create? ==> op.key != key)
    ensures !HasKey(db', key)
  {
    forall id | id in db'.orders ensures db'.orders[id].key != key {
      if id in db.orders {
        assert db.orders[id].key != key;
      }
    }
  }

  lemma OthersKeep(s: State, s': State, t: TxId)
    requires MachineInv(s) && Undisturbed(s, s', t) && s'.db == s.db && s'.txs.Keys == s.txs.Keys + {t}
    requires TxInv(s', t)
    ensures AllTxInv(s')
  {
    forall u | u in s'.txs ensures TxInv(s', u) {
      if u != t {
        assert TxInv(s, u);
        OtherTxKeeps(s, s', t, u);
      }
    }
  }

  predicate SameCall(a: Op, b: Op) {
    StartedAt(a, b.at) == b
  }

  /** A step of `t` that neither draws ids nor returns a history row keeps transactions apart. */
  lemma StayApart(s: State, s': State, t: TxId)
    requires AllApart(s) && t in s.txs && s'.txs.Keys == s.txs.Keys && Undisturbed(s, s', t)
    requires SameCall(s'.txs[t].op, s.txs[t].op)
    requires s'.txs[t].pc.Returned? && s'.txs[t].pc.outcome.Recorded? ==>
      s.txs[t].pc.Returned? && s.txs[t].pc.outcome.Recorded? && s'.txs[t].pc.outcome.row == s.txs[t].pc.outcome.row
    ensures AllApart(s')
  {
    forall u, v | u in s'.txs && v in s'.txs && u != v ensures Apart(s'.txs[u], s'.txs[v]) {
      assert Apart(s.txs[u], s.txs[v]);
    }
  }

  lemma StayNotified(s: State, s': State, t: TxId)
    requires NotifyInv(s) && Undisturbed(s, s', t) && s'.notified == s.notified
    requires t in s.txs ==> !NotifiedBy(s, t)
    ensures NotifyInv(s')
  {
    forall i | 0 <= i < |s'.notified| ensures NotifiedBy(s', s'.notified[i]) {
      assert NotifiedBy(s, s.notified[i]);
    }
  }

  /** The common part of every step of one transaction that does not touch the committed rows. */
  lemma LocalStep(s: State, s': State, t: TxId)
    requires MachineInv(s) && t in s.txs && !s.txs[t].pc.Returned?
    requires s'.db == s.db && s'.notified == s.notified && s'.txs.Keys == s.txs.Keys && Undisturbed(s, s', t)
    requires SameCall(s'.txs[t].op, s.txs[t].op)
    requires !(s'.txs[t].pc.Returned? && s'.txs[t].pc.outcome.Recorded?)
    requires TxInv(s', t)
    ensures MachineInv(s')
  {
    OthersKeep(s, s', t);
    StayApart(s, s', t);
    StayNotified(s, s', t);
  }

  lemma CallPreserves(s: State, t: TxId, op: Op)
    requires MachineInv(s)
    ensures MachineInv(Step(s, Call(t, op)))
  {
    var s' := Step(s, Call(t, op));
    if t !in s.txs && Fresh(s, op) {
      OthersKeep(s, s', t);
      StayNotified(s, s', t);
      forall u, v | u in s'.txs && v in s'.txs && u != v ensures Apart(s'.txs[u], s'.txs[v]) {
        if u != t && v != t { assert Apart(s.txs[u], s.txs[v]); }
      }
    }
  }

  lemma GotoPreserves(s: State, t: TxId, tx: Tx)
    requires MachineInv(s) && t in s.txs && !s.txs[t].pc.Returned?
    requires SameCall(tx.op, s.txs[t].op) && !(tx.pc.Returned? && tx.pc.outcome.Recorded?)
    requires TxInv(Goto(s, t, tx), t)
    ensures MachineInv(Goto(s, t, tx))
  {
    LocalStep(s, Goto(s, t, tx), t);
  }

  lemma RollbackPreserves(s: State, t: TxId, pc: Pc)
    requires MachineInv(s) && t in s.txs && !s.txs[t].pc.Returned?
    requires
      var op := s.txs[t].op;
      if pc == Conflict then op.Create? && HasKey(s.db, op.key)
      else pc.Returned? && pc.outcome.Failed? && (op.Create? ==> pc.outcome.error == Driver)
    ensures MachineInv(Rollback(s, t, pc))
  {
    assert TxInv(s, t);
    LocalStep(s, Rollback(s, t, pc), t);
  }

  lemma FaultPreserves(s: State, t: TxId)
    requires MachineInv(s)
    ensures MachineInv(Step(s, Fault(t)))
  {
    if t in s.txs && !s.txs[t].pc.Returned? {
      RollbackPreserves(s, t, Returned(Failed(Driver)));
    }
  }

  lemma NotifyPreserves(s: State, t: TxId)
    requires MachineInv(s)
    ensures MachineInv(Step(s, Notify(t)))
  {
    var s' := Step(s, Notify(t));
    if s' != s {
      assert TxInv(s, t);
      OthersKeep(s, s', t);
      StayApart(s, s', t);
      forall i | 0 <= i < |s'.notified| ensures NotifiedBy(s', s'.notified[i]) {
        if i < |s.notified| { assert NotifiedBy(s, s.notified[i]); }
      }
    }
  }

  lemma LookupPreserves(s: State, t: TxId, found: OrderId, missing: Pc, at: nat)
    requires MachineInv(s) && t in s.txs && s.txs[t].pc in {Lookup, Conflict}
    requires missing == if s.txs[t].pc == Lookup then Open else Returned(Failed(OrderNotFound))
    ensures s.txs[t].op.Create?
    ensures MachineInv(LookupKey(s, t, found, Goto(s, t, s.txs[t].(pc := missing, op := StartedAt(s.txs[t].op, at)))))
  {
    assert TxInv(s, t);
    var s' := LookupKey(s, t, found, Goto(s, t, s.txs[t].(pc := missing, op := StartedAt(s.txs[t].op, at))));
    if s' != s { LocalStep(s, s', t); }
  }

  lemma LockPreserves(s: State, t: TxId)
    requires MachineInv(s) && t in s.txs && !s.txs[t].op.Create? && s.txs[t].pc == Open
    ensures MachineInv(LockRow(s, t))
  {
    assert TxInv(s, t);
    var id := s.txs[t].op.id;
    if id !in s.db.orders {
      RollbackPreserves(s, t, Returned(Failed(OrderNotFound)));
    } else if id !in s.rowLock {
      LocalStep(s, LockRow(s, t), t);
    }
  }

  lemma CheckPreserves(s: State, t: TxId)
    requires MachineInv(s) && t in s.txs && s.txs[t].pc == Locked
    ensures !s.txs[t].op.Create? && MachineInv(CheckRow(s, t))
  {
    var tx := s.txs[t];
    assert TxInv(s, t);
    if MayWrite(tx) {
      GotoPreserves(s, t, tx.(pc := Approved));
    } else {
      RollbackPreserves(s, t, CheckRow(s, t).txs[t].pc);
    }
  }

  lemma WritePreserves(s: State, t: TxId)
    requires MachineInv(s) && t in s.txs
    requires if s.txs[t].op.Create? then s.txs[t].pc == Open else s.txs[t].pc == Approved
    ensures MachineInv(WriteNext(s, t))
  {
    var tx := s.txs[t];
    assert TxInv(s, t);
    if |tx.writes| < |Plan(tx.op)| {
      var w := Plan(tx.op)[|tx.writes|];
      var done := tx.(writes := tx.writes + [w]);
      if w.PutOrder? {
        WriteOrderPreserves(s, t, done);
      } else if w.PutAssignment? && w.id in s.db.assignments {
        RollbackPreserves(s, t, Returned(Failed(AlreadyAssigned)));
      } else {
        GotoPreserves(s, t, done);
      }
    }
  }

  lemma WriteOrderPreserves(s: State, t: TxId, done: Tx)
    requires MachineInv(s) && t in s.txs && s.txs[t].op.Create? && s.txs[t].pc == Open && |s.txs[t].writes| == 2
    requires done == s.txs[t].(writes := s.txs[t].writes + [Plan(s.txs[t].op)[2]])
    ensures MachineInv(WriteNext(s, t))
  {
    var key := s.txs[t].op.key;
    assert TxInv(s, t);
    if HasKey(s.db, key) {
      RollbackPreserves(s, t, Conflict);
    } else if key !in s.keyLock {
      LocalStep(s, Goto(s, t, done).(keyLock := s.keyLock[key := t]), t);
    }
  }

  predicate Justified(db: Db, op: Op, pc: Pc) {
    pc.Returned? ==> pc.outcome.Failed? && Execute(db, op) == Failure(pc.outcome.error)
  }

  lemma LockIsJustified(s: State, t: TxId)
    requires t in s.txs && !s.txs[t].op.Create? && s.txs[t].pc == Open
    ensures Justified(s.db, s.txs[t].op, LockRow(s, t).txs[t].pc)
  {
  }

  lemma CheckIsJustified(s: State, t: TxId)
    requires t in s.txs && TxInv(s, t) && s.txs[t].pc == Locked
    ensures !s.txs[t].op.Create? && Justified(s.db, s.txs[t].op, CheckRow(s, t).txs[t].pc)
  {
  }

  lemma WriteIsJustified(s: State, t: TxId)
    requires t in s.txs && TxInv(s, t) && s.txs[t].pc == if s.txs[t].op.Create? then Open else Approved
    ensures Justified(s.db, s.txs[t].op, WriteNext(s, t).txs[t].pc)
    ensures WriteNext(s, t).txs[t].pc == Conflict ==> Execute(s.db, s.txs[t].op) == Failure(DuplicateIdempotency)
  {
  }

  /**
   A refusal is justified at the instant it is made: executed on the rows of that moment, the operation fails with
   the very error. A duplicate key that sends `CreateOrder` into its second lookup is justified in the same way.
   */
  lemma RefusalIsJustified(s: State, t: TxId, found: OrderId)
    requires MachineInv(s) && t in s.txs && WellFormed(s.txs[t]) && !s.txs[t].pc.Returned?
    ensures !s.txs[t].op.Create? ==> Justified(s.db, s.txs[t].op, AdvanceTx(s, t, found).txs[t].pc)
    ensures s.txs[t].pc == Open && AdvanceTx(s, t, found).txs[t].pc == Conflict ==>
      Execute(s.db, s.txs[t].op) == Failure(DuplicateIdempotency)
  {
    assert TxInv(s, t);
    match s.txs[t].pc
    case Open => if s.txs[t].op.Create? { WriteIsJustified(s, t); } else { LockIsJustified(s, t); }
    case Locked => CheckIsJustified(s, t);
    case Approved => WriteIsJustified(s, t);
    case _ =>
  }

  lemma AdvancePreserves(s: State, t: TxId, found: OrderId)
    requires MachineInv(s) && t in s.txs && WellFormed(s.txs[t])
    ensures MachineInv(AdvanceTx(s, t, found))
  {
    match s.txs[t].pc
    case Lookup => LookupPreserves(s, t, found, Open, s.now);
    case Open => if s.txs[t].op.Create? { WritePreserves(s, t); } else { LockPreserves(s, t); }
    case Locked => CheckPreserves(s, t);
    case Approved => WritePreserves(s, t);
    case Conflict =>
      assert TxInv(s, t);
      LookupPreserves(s, t, found, Returned(Failed(OrderNotFound)), s.txs[t].op.at);
    case Returned(_) =>
  }

  lemma CommitKeepsTxs(s: State, s': State, t: TxId)
    requires MachineInv(s) && t in s.txs && s'.txs.Keys == s.txs.Keys && TxInv(s', t) && Undisturbed(s, s', t)
    requires Execute(s.db, s.txs[t].op) == Success(s'.db)
    requires s.txs[t].op.Create? ==> s.txs[t].op.key in s.keyLock && s.keyLock[s.txs[t].op.key] == t
    requires !s.txs[t].op.Create? ==> s.txs[t].op.id in s.rowLock && s.rowLock[s.txs[t].op.id] == t
    ensures AllTxInv(s')
  {
    forall u | u in s'.txs ensures TxInv(s', u) {
      assert TxInv(s, u) && TxInv(s, t);
      if u != t {
        assert Apart(s.txs[t], s.txs[u]);
        OtherTxKeepsOnCommit(s, s', t, u);
      }
    }
  }

  /** The appended row is newer than every row another call recorded. */
  lemma CommitStaysApart(s: State, t: TxId, acknowledged: bool)
    requires AllTxInv(s) && AllApart(s) && Ready(s, t)
    ensures AllApart(CommitTx(s, t, acknowledged))
  {
    var s' := CommitTx(s, t, acknowledged);
    forall u, v | u in s'.txs && v in s'.txs && u != v ensures Apart(s'.txs[u], s'.txs[v]) {
      assert Apart(s.txs[u], s.txs[v]) && TxInv(s, u) && TxInv(s, v);
    }
  }

  lemma CommitKeepsOwnTx(s: State, t: TxId, acknowledged: bool)
    requires Ready(s, t) && TxInv(s, t)
    requires Execute(s.db, s.txs[t].op) == Success(CommitTx(s, t, acknowledged).db)
    ensures TxInv(CommitTx(s, t, acknowledged), t)
  {
  }

  lemma CommitPreserves(s: State, t: TxId, acknowledged: bool)
    requires MachineInv(s) && Ready(s, t)
    ensures MachineInv(CommitTx(s, t, acknowledged))
  {
    var s', op := CommitTx(s, t, acknowledged), s.txs[t].op;
    assert TxInv(s, t);
    CommitExecutes(s, t);
    CommitKeepsOwnTx(s, t, acknowledged);
    CommitKeepsTxs(s, s', t);
    CommitStaysApart(s, t, acknowledged);
    StayNotified(s, s', t);
    AfterPreserves(s.db, op);
  }

  lemma StepPreserves(s: State, e: Event)
    requires MachineInv(s)
    ensures MachineInv(Step(s, e))
  {
    match e
    case Call(t, op) => CallPreserves(s, t, op);
    case Advance(t, found) => if t in s.txs && WellFormed(s.txs[t]) { AdvancePreserves(s, t, found); }
    case Commit(t, acknowledged) => if Ready(s, t) { CommitPreserves(s, t, acknowledged); }
    case Fault(t) => FaultPreserves(s, t);
    case Notify(t) => NotifyPreserves(s, t);
    case Tick =>
      forall u | u in s.txs ensures TxInv(Step(s, e), u) {
        assert TxInv(s, u);
      }
  }

  lemma {:induction false} RunPreserves(s: State, events: seq<Event>)
    requires MachineInv(s)
    ensures MachineInv(Run(s, events))
  {
    if events != [] {
      RunPreserves(s, events[..|events| - 1]);
      StepPreserves(Run(s, events[..|events| - 1]), events[|events| - 1]);
    }
  }

  lemma StartInv()
    ensures MachineInv(START)
  {
    EmptyInv();
  }
}
