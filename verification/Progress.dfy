/**
 The row and key locks never block for good: from every reachable state each pending call can be brought to its
 answer by steps of itself and of the one call it waits for, without any fault.
 */
module Progress {
  import opened Store
  import opened Concurrency
  import opened Guarantees

  // Who holds locks.

  /** Past its lock: the rest of the call waits for nobody. */
  predicate Holding(tx: Tx) {
    if tx.op.Create? then tx.pc == Open && |tx.writes| == 3 else tx.pc in {Locked, Approved}
  }

  predicate RowHeld(s: State, id: OrderId)
    requires id in s.rowLock
  {
    var u := s.rowLock[id];
    u in s.txs && !s.txs[u].op.Create? && s.txs[u].op.id == id && Holding(s.txs[u])
  }

  predicate KeyHeld(s: State, key: string)
    requires key in s.keyLock
  {
    var u := s.keyLock[key];
    u in s.txs && s.txs[u].op.Create? && s.txs[u].op.key == key && Holding(s.txs[u])
  }

  ghost predicate LockInv(s: State) {
    && (forall id {:trigger s.rowLock[id]} :: id in s.rowLock ==> RowHeld(s, id))
    && (forall key {:trigger s.keyLock[key]} :: key in s.keyLock ==> KeyHeld(s, key))
  }

  predicate FewerLocks(s: State, s': State) {
    && (forall id :: id in s'.rowLock ==> id in s.rowLock && s'.rowLock[id] == s.rowLock[id])
    && (forall key :: key in s'.keyLock ==> key in s.keyLock && s'.keyLock[key] == s.keyLock[key])
  }

  /** A step of `t` that releases its locks. */
  lemma LocksReleased(s: State, s': State, t: TxId)
    requires LockInv(s) && Undisturbed(s, s', t)
    requires s'.rowLock == Release(s.rowLock, t) && s'.keyLock == Release(s.keyLock, t)
    ensures LockInv(s')
  {
    forall id | id in s'.rowLock ensures RowHeld(s', id) {
      assert RowHeld(s, id);
    }
    forall key | key in s'.keyLock ensures KeyHeld(s', key) {
      assert KeyHeld(s, key);
    }
  }

  /** A step of `t` that takes no lock and keeps what it has. */
  lemma LocksKept(s: State, s': State, t: TxId)
    requires LockInv(s) && Undisturbed(s, s', t) && FewerLocks(s, s')
    requires t in s.txs ==>
      t in s'.txs && SameCall(s'.txs[t].op, s.txs[t].op) && (Holding(s.txs[t]) ==> Holding(s'.txs[t]))
    ensures LockInv(s')
  {
    forall id | id in s'.rowLock ensures RowHeld(s', id) {
      assert RowHeld(s, id);
    }
    forall key | key in s'.keyLock ensures KeyHeld(s', key) {
      assert KeyHeld(s, key);
    }
  }

  lemma RollbackKeepsLocks(s: State, t: TxId, pc: Pc)
    requires LockInv(s) && t in s.txs
    ensures LockInv(Rollback(s, t, pc))
  {
    LocksReleased(s, Rollback(s, t, pc), t);
  }

  lemma GotoKeepsLocks(s: State, t: TxId, tx: Tx)
    requires LockInv(s) && t in s.txs && SameCall(tx.op, s.txs[t].op) && (Holding(s.txs[t]) ==> Holding(tx))
    ensures LockInv(Goto(s, t, tx))
  {
    LocksKept(s, Goto(s, t, tx), t);
  }

  lemma LockKeepsLocks(s: State, t: TxId)
    requires LockInv(s) && t in s.txs && !s.txs[t].op.Create? && s.txs[t].pc == Open
    ensures LockInv(LockRow(s, t))
  {
    var s' := LockRow(s, t);
    if s.txs[t].op.id !in s.db.orders {
      RollbackKeepsLocks(s, t, s'.txs[t].pc);
    } else if s.txs[t].op.id !in s.rowLock {
      forall id | id in s'.rowLock ensures RowHeld(s', id) {
        if id in s.rowLock { assert RowHeld(s, id); }
      }
      forall key | key in s'.keyLock ensures KeyHeld(s', key) {
        assert KeyHeld(s, key);
      }
    }
  }

  lemma WriteKeepsLocks(s: State, t: TxId)
    requires LockInv(s) && t in s.txs && TxInv(s, t)
    requires s.txs[t].pc == if s.txs[t].op.Create? then Open else Approved
    ensures LockInv(WriteNext(s, t))
  {
    var s', tx := WriteNext(s, t), s.txs[t];
    if tx.op.Create? && |tx.writes| == 2 {
      InsertKeepsLocks(s, t);
    } else if s'.txs[t].pc.Returned? {
      RollbackKeepsLocks(s, t, s'.txs[t].pc);
    } else {
      GotoKeepsLocks(s, t, s'.txs[t]);
    }
  }

  lemma InsertKeepsLocks(s: State, t: TxId)
    requires LockInv(s) && t in s.txs && s.txs[t].op.Create? && s.txs[t].pc == Open && |s.txs[t].writes| == 2
    ensures LockInv(WriteNext(s, t))
  {
    var s', tx := WriteNext(s, t), s.txs[t];
    if HasKey(s.db, tx.op.key) {
      RollbackKeepsLocks(s, t, Conflict);
    } else if tx.op.key !in s.keyLock {
      forall id | id in s'.rowLock ensures RowHeld(s', id) {
        assert RowHeld(s, id);
      }
      forall key | key in s'.keyLock ensures KeyHeld(s', key) {
        if key in s.keyLock { assert KeyHeld(s, key); }
      }
    }
  }

  lemma LookupKeepsLocks(s: State, t: TxId, found: OrderId)
    requires LockInv(s) && t in s.txs && s.txs[t].op.Create? && s.txs[t].pc in {Lookup, Conflict}
    ensures LockInv(AdvanceTx(s, t, found))
  {
    LocksKept(s, AdvanceTx(s, t, found), t);
  }

  lemma CheckKeepsLocks(s: State, t: TxId)
    requires LockInv(s) && t in s.txs && !s.txs[t].op.Create? && s.txs[t].pc == Locked
    ensures LockInv(CheckRow(s, t))
  {
    var pc := CheckRow(s, t).txs[t].pc;
    if pc == Approved {
      GotoKeepsLocks(s, t, s.txs[t].(pc := Approved));
    } else {
      RollbackKeepsLocks(s, t, pc);
    }
  }

  lemma AdvanceKeepsLocks(s: State, t: TxId, found: OrderId)
    requires LockInv(s) && t in s.txs && TxInv(s, t) && WellFormed(s.txs[t])
    ensures LockInv(AdvanceTx(s, t, found))
  {
    match s.txs[t].pc
    case Lookup => LookupKeepsLocks(s, t, found);
    case Open => if s.txs[t].op.Create? { WriteKeepsLocks(s, t); } else { LockKeepsLocks(s, t); }
    case Locked => CheckKeepsLocks(s, t);
    case Approved => WriteKeepsLocks(s, t);
    case Conflict => LookupKeepsLocks(s, t, found);
    case Returned(_) =>
  }

  lemma NotifyKeepsLocks(s: State, t: TxId)
    requires LockInv(s) && t in s.txs
    ensures LockInv(Step(s, Notify(t)))
  {
    LocksKept(s, Step(s, Notify(t)), t);
  }

  lemma StepKeepsLocks(s: State, e: Event)
    requires AllTxInv(s) && LockInv(s)
    ensures LockInv(Step(s, e))
  {
    match e
    case Call(t, op) => if t !in s.txs { LocksKept(s, Step(s, e), t); }
    case Advance(t, found) =>
      if t in s.txs && WellFormed(s.txs[t]) {
        assert TxInv(s, t);
        AdvanceKeepsLocks(s, t, found);
      }
    case Commit(t, acknowledged) => if Ready(s, t) { LocksReleased(s, CommitTx(s, t, acknowledged), t); }
    case Fault(t) => if t in s.txs { RollbackKeepsLocks(s, t, Returned(Failed(Driver))); }
    case Notify(t) => if t in s.txs { NotifyKeepsLocks(s, t); }
    case Tick => TickKeepsLocks(s);
  }

  lemma TickKeepsLocks(s: State)
    requires LockInv(s)
    ensures LockInv(Step(s, Tick))
  {
    assert forall id :: id in s.rowLock ==> RowHeld(s, id);
    assert forall key :: key in s.keyLock ==> KeyHeld(s, key);
  }

  lemma {:induction false} RunKeepsLocks(events: seq<Event>)
    ensures MachineInv(Run(START, events)) && LockInv(Run(START, events))
  {
    Reached(events);
    if events != [] {
      RunKeepsLocks(events[..|events| - 1]);
      StepKeepsLocks(Run(START, events[..|events| - 1]), events[|events| - 1]);
    }
  }

  // Finishing a call.

  ghost predicate Good(s: State) {
    MachineInv(s) && LockInv(s)
  }

  predicate Done(s: State, t: TxId) {
    t in s.txs && s.txs[t].pc.Returned?
  }

  predicate StatementOrCommit(e: Event) {
    e.Advance? || (e.Commit? && e.acknowledged)
  }

  /** Nothing but statements and acknowledged commits: no fault, no new call. */
  predicate FaultFree(events: seq<Event>) {
    forall i :: 0 <= i < |events| ==> StatementOrCommit(events[i])
  }

  lemma GoodStep(s: State, e: Event)
    requires Good(s)
    ensures Good(Step(s, e))
  {
    StepPreserves(s, e);
    StepKeepsLocks(s, e);
  }

  /** The steps of `u` leave the other calls alone and take no lock. */
  predicate Aside(s: State, s': State, u: TxId) {
    u in s'.txs && FewerLocks(s, s') && forall v :: v in s.txs && v != u ==> v in s'.txs && s'.txs[v] == s.txs[v]
  }

  function StepsLeft(tx: Tx): int {
    if tx.pc == Locked then 4 else 3 - |tx.writes|
  }

  function NextStep(s: State, u: TxId): Event
    requires u in s.txs
  {
    if Ready(s, u) then Commit(u, true) else Advance(u, s.txs[u].op.id)
  }

  lemma HolderSteps(s: State, u: TxId)
    requires u in s.txs && TxInv(s, u) && Holding(s.txs[u])
    ensures
      var s' := Step(s, NextStep(s, u));
      && Aside(s, s', u) && 0 <= StepsLeft(s.txs[u])
      && (Done(s', u) || (Holding(s'.txs[u]) && StepsLeft(s'.txs[u]) < StepsLeft(s.txs[u])))
  {
    if !Ready(s, u) && s.txs[u].pc == Approved {
      HolderWrites(s, u);
    }
  }

  lemma HolderWrites(s: State, u: TxId)
    requires u in s.txs && TxInv(s, u) && s.txs[u].pc == Approved && !Ready(s, u)
    ensures
      var s' := WriteNext(s, u);
      && Aside(s, s', u)
      && (Done(s', u) || (s'.txs[u].pc == Approved && |s'.txs[u].writes| == |s.txs[u].writes| + 1))
  {
  }

  /** A call past its lock runs to its answer all by itself. */
  lemma {:induction false} HolderFinishes(s: State, u: TxId) returns (events: seq<Event>)
    requires Good(s) && u in s.txs && Holding(s.txs[u])
    ensures FaultFree(events) && Good(Run(s, events)) && Aside(s, Run(s, events), u) && Done(Run(s, events), u)
    decreases StepsLeft(s.txs[u])
  {
    assert TxInv(s, u);
    var e := NextStep(s, u);
    var s1 := Step(s, e);
    HolderSteps(s, u);
    GoodStep(s, e);
    var rest := [];
    if !Done(s1, u) {
      rest := HolderFinishes(s1, u);
    }
    events := [e] + rest;
    RunCons(s, e, rest);
  }

  /** The call is at the statement that takes its lock, and another call has the lock. */
  predicate Waits(s: State, t: TxId)
    requires t in s.txs
  {
    var tx := s.txs[t];
    && tx.pc == Open
    && if tx.op.Create? then |tx.writes| == 2 && tx.op.key in s.keyLock else tx.op.id in s.rowLock
  }

  function Holder(s: State, t: TxId): TxId
    requires t in s.txs && Waits(s, t)
  {
    if s.txs[t].op.Create? then s.keyLock[s.txs[t].op.key] else s.rowLock[s.txs[t].op.id]
  }

  /** Once the holder is done, the call waits no longer. */
  lemma HolderLetsGo(s: State, t: TxId) returns (events: seq<Event>)
    requires Good(s) && t in s.txs && Waits(s, t)
    ensures FaultFree(events) && Good(Run(s, events))
    ensures t in Run(s, events).txs && Run(s, events).txs[t] == s.txs[t] && !Waits(Run(s, events), t)
  {
    var u, tx := Holder(s, t), s.txs[t];
    assert if tx.op.Create? then KeyHeld(s, tx.op.key) else RowHeld(s, tx.op.id);
    assert TxInv(s, u) && TxInv(s, t);
    events := HolderFinishes(s, u);
    var s1 := Run(s, events);
    HoldsNothing(s1, u);
  }

  lemma HoldsNothing(s: State, u: TxId)
    requires LockInv(s) && Done(s, u)
    ensures forall id :: id in s.rowLock ==> s.rowLock[id] != u
    ensures forall key :: key in s.keyLock ==> s.keyLock[key] != u
  {
    assert forall id :: id in s.rowLock ==> RowHeld(s, id);
    assert forall key :: key in s.keyLock ==> KeyHeld(s, key);
  }

  /** Statements a call has before it, up to the one that takes its lock. */
  function Ahead(tx: Tx): nat {
    match tx.pc
    case Lookup => 5
    case Open => if |tx.writes| < 3 then 4 - |tx.writes| else 0
    case Conflict => 1
    case _ => 0
  }

  /** The order a key lookup finds, if there is one. */
  ghost function Finding(s: State, t: TxId): OrderId
    requires t in s.txs
  {
    var op := s.txs[t].op;
    if op.Create? && HasKey(s.db, op.key) then
      var id :| id in s.db.orders && s.db.orders[id].key == op.key; id
    else op.id
  }

  /** Every call can be answered, from any state it can be in. */
  lemma {:induction false} CallFinishes(s: State, t: TxId) returns (events: seq<Event>)
    requires Good(s) && t in s.txs
    ensures FaultFree(events) && Done(Run(s, events), t)
    decreases Ahead(s.txs[t]), if Waits(s, t) then 1 else 0
  {
    assert TxInv(s, t);
    if Done(s, t) {
      events := [];
    } else if Holding(s.txs[t]) {
      events := HolderFinishes(s, t);
    } else if Waits(s, t) {
      var first := HolderLetsGo(s, t);
      var rest := CallFinishes(Run(s, first), t);
      events := first + rest;
      RunConcat(s, first, rest);
    } else {
      var e := Advance(t, Finding(s, t));
      GoodStep(s, e);
      AdvanceMoves(s, t);
      var rest := CallFinishes(Step(s, e), t);
      events := [e] + rest;
      RunCons(s, e, rest);
    }
  }

  /** A call that waits for nobody gets closer to its lock or past it. */
  lemma AdvanceMoves(s: State, t: TxId)
    requires t in s.txs && TxInv(s, t) && !Done(s, t) && !Holding(s.txs[t]) && !Waits(s, t)
    ensures
      var s' := Step(s, Advance(t, Finding(s, t)));
      t in s'.txs && Ahead(s'.txs[t]) < Ahead(s.txs[t])
  {
    if s.txs[t].pc == Open && s.txs[t].op.Create? {
      WriteMoves(s, t);
    }
  }

  lemma WriteMoves(s: State, t: TxId)
    requires t in s.txs && TxInv(s, t) && s.txs[t].op.Create? && s.txs[t].pc == Open
    requires !Holding(s.txs[t]) && !Waits(s, t)
    ensures t in WriteNext(s, t).txs && Ahead(WriteNext(s, t).txs[t]) < Ahead(s.txs[t])
  {
  }

  /**
   No deadlock: whatever has happened, each call can still be brought to its answer without a fault and without
   new calls.
   */
  lemma EveryCallCanFinish(events: seq<Event>, t: TxId) returns (more: seq<Event>)
    requires t in Run(START, events).txs
    ensures FaultFree(more) && Done(Run(START, events + more), t)
  {
    RunKeepsLocks(events);
    more := CallFinishes(Run(START, events), t);
    RunConcat(START, events, more);
  }

  // Every schedule comes to an end.

  /** How many statements and commits a call has left at most. */
  function Work(tx: Tx): (n: nat)
    ensures n <= 6
  {
    match tx.pc
    case Lookup => 6
    case Open => if !tx.op.Create? then 6 else if |tx.writes| < 4 then 5 - |tx.writes| else 1
    case Locked => 5
    case Approved => if |tx.writes| < 4 then 4 - |tx.writes| else 0
    case Conflict => 1
    case Returned(_) => 0
  }

  ghost function TotalWork(txs: map<TxId, Tx>): nat {
    if txs == map[] then 0
    else
      var t :| t in txs;
      Work(txs[t]) + TotalWork(txs - {t})
  }

  lemma {:induction false} WorkSplits(txs: map<TxId, Tx>, t: TxId)
    requires t in txs
    ensures TotalWork(txs) == Work(txs[t]) + TotalWork(txs - {t})
    decreases |txs|
  {
    var u :| u in txs && TotalWork(txs) == Work(txs[u]) + TotalWork(txs - {u});
    if u != t {
      WorkSplits(txs - {u}, t);
      WorkSplits(txs - {t}, u);
      assert txs - {u} - {t} == txs - {t} - {u};
    }
  }

  lemma {:induction false} WorkIsBounded(txs: map<TxId, Tx>)
    ensures TotalWork(txs) <= 6 * |txs|
    decreases |txs|
  {
    if txs != map[] {
      var u :| u in txs;
      var rest := txs - {u};
      WorkSplits(txs, u);
      assert rest.Keys == txs.Keys - {u};
      assert |rest.Keys| == |txs.Keys| - 1;
      WorkIsBounded(rest);
      assert TotalWork(txs) == Work(txs[u]) + TotalWork(rest);
      assert Work(txs[u]) <= 6;
      assert |txs| == |rest| + 1;
    }
  }

  /** An event that does something. */
  ghost predicate Effective(s: State, e: Event) {
    Step(s, e) != s
  }

  lemma WriteLowersWork(s: State, t: TxId)
    requires t in s.txs && TxInv(s, t) && WriteNext(s, t) != s
    requires s.txs[t].pc == if s.txs[t].op.Create? then Open else Approved
    ensures t in WriteNext(s, t).txs && Work(WriteNext(s, t).txs[t]) < Work(s.txs[t])
    ensures WriteNext(s, t).txs - {t} == s.txs - {t}
  {
  }

  lemma AdvanceLowersWork(s: State, t: TxId, found: OrderId)
    requires t in s.txs && TxInv(s, t) && WellFormed(s.txs[t]) && AdvanceTx(s, t, found) != s
    ensures t in AdvanceTx(s, t, found).txs && Work(AdvanceTx(s, t, found).txs[t]) < Work(s.txs[t])
    ensures AdvanceTx(s, t, found).txs - {t} == s.txs - {t}
  {
    if s.txs[t].pc == Approved || (s.txs[t].pc == Open && s.txs[t].op.Create?) {
      WriteLowersWork(s, t);
    }
  }

  lemma EffectiveLowersWork(s: State, e: Event)
    requires MachineInv(s) && StatementOrCommit(e) && Effective(s, e)
    ensures TotalWork(Step(s, e).txs) < TotalWork(s.txs)
  {
    assert TxInv(s, e.t);
    if e.Advance? { AdvanceLowersWork(s, e.t, e.found); }
    WorkSplits(s.txs, e.t);
    WorkSplits(Step(s, e).txs, e.t);
    assert Step(s, e).txs - {e.t} == s.txs - {e.t};
  }

  ghost function EffectiveSteps(s: State, events: seq<Event>): nat {
    if events == [] then 0
    else
      var front := events[..|events| - 1];
      EffectiveSteps(s, front) + if Effective(Run(s, front), events[|events| - 1]) then 1 else 0
  }

  lemma {:induction false} StepsAreBounded(s: State, events: seq<Event>)
    requires MachineInv(s) && FaultFree(events)
    ensures EffectiveSteps(s, events) + TotalWork(Run(s, events).txs) <= TotalWork(s.txs)
  {
    if events != [] {
      var front, e := events[..|events| - 1], events[|events| - 1];
      StepsAreBounded(s, front);
      RunPreserves(s, front);
      if Effective(Run(s, front), e) { EffectiveLowersWork(Run(s, front), e); }
    }
  }

  lemma Unfinished(s: State, t: TxId) returns (e: Event)
    requires Good(s) && t in s.txs && !Done(s, t)
    ensures StatementOrCommit(e) && Effective(s, e)
  {
    assert TxInv(s, t);
    if Holding(s.txs[t]) {
      e := NextStep(s, t);
      HolderSteps(s, t);
    } else if Waits(s, t) {
      var u := Holder(s, t);
      assert if s.txs[t].op.Create? then KeyHeld(s, s.txs[t].op.key) else RowHeld(s, s.txs[t].op.id);
      assert TxInv(s, u);
      e := NextStep(s, u);
      HolderSteps(s, u);
    } else {
      e := Advance(t, Finding(s, t));
      AdvanceMoves(s, t);
    }
  }

  /**
   Whatever the scheduler does, a run without faults and new calls takes at most six effective steps per call, and no
   statement or commit has an effect any more exactly when every call has returned.
   */
  lemma {:induction false} EveryScheduleEnds(events: seq<Event>, more: seq<Event>)
    requires FaultFree(more)
    ensures EffectiveSteps(Run(START, events), more) <= 6 * |Run(START, events).txs|
    ensures
      var s := Run(START, events + more);
      (forall e :: StatementOrCommit(e) ==> !Effective(s, e)) <==> forall t :: t in s.txs ==> Done(s, t)
  {
    var s0 := Run(START, events);
    RunKeepsLocks(events);
    StepsAreBounded(s0, more);
    WorkIsBounded(s0.txs);
    var s := Run(START, events + more);
    RunKeepsLocks(events + more);
    if forall e :: StatementOrCommit(e) ==> !Effective(s, e) {
      forall t | t in s.txs ensures Done(s, t) {
        if !Done(s, t) { var e := Unfinished(s, t); }
      }
    }
    if forall t :: t in s.txs ==> Done(s, t) {
      forall e | StatementOrCommit(e) ensures !Effective(s, e) {
        AllDoneIsFinal(s, e);
      }
    }
  }

  lemma AllDoneIsFinal(s: State, e: Event)
    requires StatementOrCommit(e) && forall t :: t in s.txs ==> Done(s, t)
    ensures !Effective(s, e)
  {
    assert e.t in s.txs ==> Done(s, e.t);
  }
}
