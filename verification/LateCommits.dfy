/** Runs in which a timeline differs from the order of the commits: an update waits for one that started after it. */
module LateCommits {
  import opened Outcomes
  import opened CreateInput
  import opened Lifecycle
  import opened Store
  import opened Concurrency
  import opened Guarantees
  import opened Timelines

  predicate ReadyToMove(s: State, t: TxId) {
    && t in s.txs && s.txs[t].op.Update? && s.txs[t].pc == Open && s.txs[t].writes == []
    && s.txs[t].op.id in s.db.orders && s.txs[t].op.id !in s.rowLock
    && CanMove(s.db.orders[s.txs[t].op.id].status, s.txs[t].op.next)
  }

  /** Left alone, an update that is allowed commits. */
  lemma UpdateCommits(s: State, t: TxId) returns (events: seq<Event>)
    requires MachineInv(s) && ReadyToMove(s, t)
    ensures
      var s', op := Run(s, events), s.txs[t].op;
      && MachineInv(s') && Execute(s.db, op) == Success(s'.db) && op.id !in s'.rowLock
      && forall u :: u in s.txs && u != t ==> u in s'.txs && s'.txs[u] == s.txs[u]
  {
    var next, last := Advance(t, s.txs[t].op.id), Commit(t, true);
    var four := [next, next] + [next, next];
    var s4 := Run(s, four);
    FourSteps(s, t);
    RunPreserves(s, four);
    events := four + [last];
    RunPreserves(s, events);
    assert events[..4] == four;
    assert TxInv(s4, t);
    CommitExecutes(s4, t);
  }

  lemma WriteStep(s: State, t: TxId, k: nat)
    requires t in s.txs && s.txs[t].op.Update? && s.txs[t].pc == Approved && k < 2
    requires s.txs[t].writes == Plan(s.txs[t].op)[..k]
    ensures
      Step(s, Advance(t, s.txs[t].op.id)) == Goto(s, t, s.txs[t].(writes := Plan(s.txs[t].op)[..k + 1]))
  {
    var plan := Plan(s.txs[t].op);
    assert plan[..k] + [plan[k]] == plan[..k + 1];
  }

  lemma LockStep(s: State, t: TxId)
    requires ReadyToMove(s, t)
    ensures
      Step(s, Advance(t, s.txs[t].op.id)) ==
        Goto(s, t, s.txs[t].(pc := Locked, seen := s.db.orders[s.txs[t].op.id].status)).(
          rowLock := s.rowLock[s.txs[t].op.id := t])
  {
  }

  lemma CheckStep(s: State, t: TxId)
    requires t in s.txs && s.txs[t].op.Update? && s.txs[t].pc == Locked && CanMove(s.txs[t].seen, s.txs[t].op.next)
    ensures Step(s, Advance(t, s.txs[t].op.id)) == Goto(s, t, s.txs[t].(pc := Approved))
  {
  }

  lemma RunTwo(s: State, e: Event)
    ensures Run(s, [e, e]) == Step(Step(s, e), e)
  {
    assert [e, e] == [e] + [e] && [e] == [e] + [];
    RunCons(s, e, [e]);
    RunCons(Step(s, e), e, []);
  }

  function Approve(s: State, t: TxId): Tx
    requires ReadyToMove(s, t)
  {
    s.txs[t].(pc := Approved, seen := s.db.orders[s.txs[t].op.id].status)
  }

  lemma LockAndCheck(s: State, t: TxId)
    requires ReadyToMove(s, t)
    ensures
      var next := Advance(t, s.txs[t].op.id);
      Run(s, [next, next]) == Goto(s, t, Approve(s, t)).(rowLock := s.rowLock[s.txs[t].op.id := t])
  {
    var next := Advance(t, s.txs[t].op.id);
    RunTwo(s, next);
    LockStep(s, t);
    CheckStep(Goto(s, t, s.txs[t].(pc := Locked, seen := s.db.orders[s.txs[t].op.id].status)).(
      rowLock := s.rowLock[s.txs[t].op.id := t]), t);
  }

  lemma GotoTwice(s: State, t: TxId, a: Tx, b: Tx)
    ensures Goto(Goto(s, t, a), t, b) == Goto(s, t, b)
  {
    assert s.txs[t := a][t := b] == s.txs[t := b];
  }

  lemma WriteBoth(s: State, t: TxId)
    requires t in s.txs && s.txs[t].op.Update? && s.txs[t].pc == Approved && s.txs[t].writes == []
    ensures
      var next := Advance(t, s.txs[t].op.id);
      Run(s, [next, next]) == Goto(s, t, s.txs[t].(writes := Plan(s.txs[t].op)))
  {
    var next, plan := Advance(t, s.txs[t].op.id), Plan(s.txs[t].op);
    assert plan[..0] == [] && plan[..2] == plan;
    WriteStep(s, t, 0);
    SecondWrite(s, t);
    RunTwo(s, next);
  }

  lemma SecondWrite(s: State, t: TxId)
    requires t in s.txs && s.txs[t].op.Update? && s.txs[t].pc == Approved
    ensures
      var s1 := Goto(s, t, s.txs[t].(writes := Plan(s.txs[t].op)[..1]));
      Step(s1, Advance(t, s.txs[t].op.id)) == Goto(s, t, s.txs[t].(writes := Plan(s.txs[t].op)[..2]))
  {
    var s1 := Goto(s, t, s.txs[t].(writes := Plan(s.txs[t].op)[..1]));
    WriteStep(s1, t, 1);
    GotoTwice(s, t, s1.txs[t], s1.txs[t].(writes := Plan(s.txs[t].op)[..2]));
  }

  lemma FourSteps(s: State, t: TxId)
    requires ReadyToMove(s, t)
    ensures
      var next := Advance(t, s.txs[t].op.id);
      Run(s, [next, next] + [next, next]) ==
        Goto(s, t, Approve(s, t).(writes := Plan(s.txs[t].op))).(rowLock := s.rowLock[s.txs[t].op.id := t])
  {
    var next := Advance(t, s.txs[t].op.id);
    var s2 := Goto(s, t, Approve(s, t)).(rowLock := s.rowLock[s.txs[t].op.id := t]);
    LockAndCheck(s, t);
    WriteBoth(s2, t);
    RunConcat(s, [next, next], [next, next]);
  }

  predicate ReadyToCreate(s: State, t: TxId) {
    && t in s.txs && s.txs[t].op.Create? && s.txs[t].pc == Lookup && s.txs[t].writes == []
    && !HasKey(s.db, s.txs[t].op.key) && s.txs[t].op.key !in s.keyLock
  }

  lemma LookupStep(s: State, t: TxId)
    requires ReadyToCreate(s, t)
    ensures
      Step(s, Advance(t, s.txs[t].op.id)) ==
        Goto(s, t, s.txs[t].(pc := Open, op := StartedAt(s.txs[t].op, s.now)))
  {
  }

  lemma InsertStep(s: State, t: TxId, k: nat)
    requires t in s.txs && s.txs[t].op.Create? && s.txs[t].pc == Open && k < 3
    requires s.txs[t].writes == Plan(s.txs[t].op)[..k] && !HasKey(s.db, s.txs[t].op.key)
    requires s.txs[t].op.key !in s.keyLock
    ensures
      var s' := Step(s, Advance(t, s.txs[t].op.id));
      && s'.db == s.db && s'.rowLock == s.rowLock
      && s'.txs == s.txs[t := s.txs[t].(writes := Plan(s.txs[t].op)[..k + 1])]
      && s'.keyLock == if k < 2 then s.keyLock else s.keyLock[s.txs[t].op.key := t]
  {
    var plan := Plan(s.txs[t].op);
    assert plan[..k] + [plan[k]] == plan[..k + 1];
  }

  lemma InsertAll(s: State, t: TxId, k: nat) returns (events: seq<Event>)
    requires t in s.txs && s.txs[t].op.Create? && s.txs[t].pc == Open && k <= 3
    requires s.txs[t].writes == Plan(s.txs[t].op)[..k] && !HasKey(s.db, s.txs[t].op.key)
    requires k < 3 ==> s.txs[t].op.key !in s.keyLock
    ensures
      var s' := Run(s, events);
      s'.db == s.db && s'.rowLock == s.rowLock && s'.txs == s.txs[t := s.txs[t].(writes := Plan(s.txs[t].op))]
    decreases 3 - k
  {
    if k == 3 {
      assert Plan(s.txs[t].op)[..3] == Plan(s.txs[t].op);
      events := [];
    } else {
      var e := Advance(t, s.txs[t].op.id);
      InsertStep(s, t, k);
      var rest := InsertAll(Step(s, e), t, k + 1);
      events := [e] + rest;
      RunCons(s, e, rest);
    }
  }

  /** Left alone, a creation with a new key commits. */
  lemma CreateCommits(s: State, t: TxId) returns (events: seq<Event>)
    requires MachineInv(s) && ReadyToCreate(s, t) && s.rowLock == map[]
    ensures
      var s', id := Run(s, events), s.txs[t].op.id;
      && s'.rowLock == map[] && s'.txs.Keys == s.txs.Keys
      && id in s'.db.orders && s'.db.orders[id].status == Created
  {
    var first, last := Advance(t, s.txs[t].op.id), Commit(t, true);
    LookupStep(s, t);
    StepPreserves(s, first);
    var s1 := Step(s, first);
    var inserts := InsertAll(s1, t, 0);
    var s4 := Run(s1, inserts);
    RunPreserves(s1, inserts);
    assert TxInv(s4, t);
    CommitExecutes(s4, t);
    events := [first] + (inserts + [last]);
    RunCons(s, first, inserts + [last]);
    RunConcat(s1, inserts, [last]);
    RunCons(s4, last, []);
    assert [last] + [] == [last];
  }

  /**
   Two updates of one order: the one that starts first waits for the other and commits last, so the timeline lists
   `in_transit` before `assigned`.
   */
  lemma LateCommitIsListedFirst(s: State, id: OrderId, t: TxId, u: TxId) returns (events: seq<Event>)
    requires MachineInv(s) && id in s.db.orders && s.db.orders[id].status == Created && id !in s.rowLock
    requires t !in s.txs && u !in s.txs && t != u
    ensures
      var rows := Rows(Run(s, events).db.history, id);
      && id in Run(s, events).db.orders && |rows| == 2
      && rows[0].status == Assigned && rows[1].status == InTransit && rows[1].createdAt < rows[0].createdAt
  {
    var first := Update(id, InTransit, Source.System, "", NoMetadata, 0);
    var second := Update(id, Assigned, Source.System, "", NoMetadata, 0);
    var calls := [Call(t, first), Tick, Call(u, second)];
    var s1 := CallsStart(s, t, u, first, second);
    RunPreserves(s, calls);
    var one := UpdateCommits(s1, u);
    var s2 := Run(s1, one);
    var two := UpdateCommits(s2, t);
    events := calls + (one + two);
    RunConcat(s, calls, one + two);
    RunConcat(s1, one, two);
    TwoMoves(s.db, s1.txs[u].op, s1.txs[t].op);
  }

  lemma MoveAppends(db: Db, op: Op)
    requires op.Update? && Execute(db, op).Success?
    ensures op.id in After(db, op).orders
    ensures Rows(After(db, op).history, op.id) == Rows(db.history, op.id) + [UpdateRow(op)]
  {
    RowsAppend(db.history, UpdateRow(op), op.id);
  }

  lemma TwoMoves(db: Db, a: Op, b: Op)
    requires LifecycleInv(db) && a.Update? && b.Update? && a.id == b.id
    requires a.id in db.orders && db.orders[a.id].status == Created
    requires Execute(db, a).Success? && Execute(After(db, a), b).Success?
    ensures a.id in After(After(db, a), b).orders
    ensures Rows(After(After(db, a), b).history, a.id) == [UpdateRow(a), UpdateRow(b)]
  {
    NothingRecordedYet(db, a.id);
    MoveAppends(db, a);
    MoveAppends(After(db, a), b);
  }

  lemma CallsStart(s: State, t: TxId, u: TxId, first: Op, second: Op) returns (s1: State)
    requires t !in s.txs && u !in s.txs && t != u && first.Update? && second.Update?
    ensures s1 == Run(s, [Call(t, first), Tick, Call(u, second)])
    ensures s1.db == s.db && s1.rowLock == s.rowLock
    ensures s1.txs ==
      s.txs[t := Tx(StartedAt(first, s.now), Open, Created, [])]
           [u := Tx(StartedAt(second, s.now + 1), Open, Created, [])]
  {
    var a, b, c := Call(t, first), Tick, Call(u, second);
    assert [a, b, c] == [a] + [b, c] && [b, c] == [b] + [c] && [c] == [c] + [];
    RunCons(s, a, [b, c]);
    RunCons(Step(s, a), b, [c]);
    RunCons(Step(Step(s, a), b), c, []);
    s1 := Step(Step(Step(s, a), b), c);
  }

  /** From the empty database on, some run of three calls ends with a timeline against the order of the commits. */
  lemma TimelineCanDisagree() returns (events: seq<Event>, id: OrderId)
    ensures
      var rows := Rows(Run(START, events).db.history, id);
      id in Run(START, events).db.orders && !StrictlyByTime(rows) && SortByTime(rows) != rows
  {
    id := OrderId("e1111111-1111-1111-1111-111111111111");
    var address := AddressInput("city", "street", "house", "", 0.0, 0.0);
    var input := CreateOrderInput("e2222222-2222-2222-2222-222222222222", address, address, 1.0, 1.0, "standard");
    var call := Call(0, Create(id, "key", input, 0, 1, 0));
    StartInv();
    StepPreserves(START, call);
    var s1 := Step(START, call);
    var made := CreateCommits(s1, 0);
    RunPreserves(s1, made);
    var moved := LateCommitIsListedFirst(Run(s1, made), id, 1, 2);
    events := [call] + (made + moved);
    RunCons(START, call, made + moved);
    RunConcat(s1, made, moved);
    SortIsAnswer(Rows(Run(START, events).db.history, id));
  }
}
