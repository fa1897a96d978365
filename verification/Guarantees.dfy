/** What every run of the interleaved services keeps, from an empty database on. */
module Guarantees {
  import opened Outcomes
  import opened Lifecycle
  import opened Store
  import opened Concurrency

  // Serializability.

  /** The operation that event `e` commits in state `s`, if it commits one. */
  function CommittedBy(s: State, e: Event): seq<Op> {
    if e.Commit? && Ready(s, e.t) then [s.txs[e.t].op] else []
  }

  ghost function Committed(s: State, events: seq<Event>): seq<Op> {
    if events == [] then []
    else
      var front := events[..|events| - 1];
      Committed(s, front) + CommittedBy(Run(s, front), events[|events| - 1])
  }

  ghost predicate AllSucceed(db: Db, ops: seq<Op>) {
    forall i {:trigger ops[..i]} :: 0 <= i < |ops| ==> Execute(Replay(db, ops[..i]), ops[i]).Success?
  }

  lemma ReplayOne(db: Db, op: Op)
    ensures Replay(db, [op]) == After(db, op)
  {
    assert [op][..0] == [];
  }

  /** A statement touches neither the committed rows nor another call. */
  predicate OwnStep(s: State, s': State, t: TxId)
    requires t in s.txs
  {
    && s'.db == s.db && s'.now == s.now
    && t in s'.txs && s'.txs == s.txs[t := s'.txs[t]]
    && s'.txs[t].op.Create? == s.txs[t].op.Create?
    && (!s.txs[t].op.Create? ==> s'.txs[t].op == s.txs[t].op)
  }

  lemma WriteIsOwn(s: State, t: TxId)
    requires t in s.txs
    ensures OwnStep(s, WriteNext(s, t), t)
  {
  }

  lemma LookupIsOwn(s: State, t: TxId, found: OrderId)
    requires t in s.txs && s.txs[t].op.Create? && s.txs[t].pc in {Lookup, Conflict}
    ensures OwnStep(s, AdvanceTx(s, t, found), t)
  {
  }

  lemma AdvanceIsOwn(s: State, t: TxId, found: OrderId)
    requires t in s.txs && WellFormed(s.txs[t])
    ensures OwnStep(s, AdvanceTx(s, t, found), t)
    ensures s.txs[t].pc.Returned? ==> AdvanceTx(s, t, found) == s
  {
    match s.txs[t].pc
    case Lookup => LookupIsOwn(s, t, found);
    case Open => if s.txs[t].op.Create? { WriteIsOwn(s, t); }
    case Locked =>
    case Approved => WriteIsOwn(s, t);
    case Conflict => LookupIsOwn(s, t, found);
    case Returned(_) =>
  }

  lemma OnlyCommitsWrite(s: State, e: Event)
    requires !(e.Commit? && Ready(s, e.t))
    ensures Step(s, e).db == s.db
  {
    if e.Advance? && e.t in s.txs && WellFormed(s.txs[e.t]) {
      AdvanceIsOwn(s, e.t, e.found);
    }
  }

  lemma CommittedByStep(s: State, e: Event)
    requires MachineInv(s)
    ensures Step(s, e).db == Replay(s.db, CommittedBy(s, e))
    ensures CommittedBy(s, e) != [] ==> Execute(s.db, CommittedBy(s, e)[0]).Success?
  {
    if e.Commit? && Ready(s, e.t) {
      assert TxInv(s, e.t);
      CommitExecutes(s, e.t);
      ReplayOne(s.db, s.txs[e.t].op);
    } else {
      OnlyCommitsWrite(s, e);
    }
  }

  /** The rows after any interleaving are those of its committed transactions, run alone, in commit order. */
  lemma {:induction false} Serializable(s: State, events: seq<Event>)
    requires MachineInv(s)
    ensures Run(s, events).db == Replay(s.db, Committed(s, events))
    ensures AllSucceed(s.db, Committed(s, events))
  {
    if events != [] {
      var front, e := events[..|events| - 1], events[|events| - 1];
      Serializable(s, front);
      RunPreserves(s, front);
      var mid := Run(s, front);
      var done, ops := Committed(s, front), CommittedBy(mid, e);
      CommittedByStep(mid, e);
      ReplayConcat(s.db, done, ops);
      forall i | 0 <= i < |done + ops| ensures Execute(Replay(s.db, (done + ops)[..i]), (done + ops)[i]).Success? {
        if i < |done| {
          assert (done + ops)[..i] == done[..i];
        } else {
          assert (done + ops)[..i] == done;
        }
      }
    }
  }

  lemma Reached(events: seq<Event>)
    ensures MachineInv(Run(START, events))
  {
    StartInv();
    RunPreserves(START, events);
  }

  predicate Refused(s: State, t: TxId, error: Error) {
    t in s.txs && !s.txs[t].op.Create? && s.txs[t].pc == Returned(Failed(error)) && error != Driver
  }

  /**
   A call that was refused was refused rightly at some moment while it was running: there, its operation fails with
   its error. Together with `Serializable` this makes every answer but a fault one of an atomic execution.
   */
  lemma {:induction false} RefusalsAreJustified(events: seq<Event>, t: TxId, error: Error) returns (i: nat)
    requires Refused(Run(START, events), t, error)
    ensures i < |events| && t in Run(START, events[..i]).txs && !Run(START, events[..i]).txs[t].pc.Returned?
    ensures Run(START, events[..i]).txs[t].op == Run(START, events).txs[t].op
    ensures Execute(Run(START, events[..i]).db, Run(START, events).txs[t].op) == Failure(error)
  {
    var n := |events| - 1;
    var s, e := Run(START, events[..n]), events[n];
    Reached(events[..n]);
    if Refused(s, t, error) {
      i := RefusalsAreJustified(events[..n], t, error);
      assert events[..n][..i] == events[..i];
      ReturnedStays(s, e, t);
    } else {
      i := n;
      RefusedByStep(s, e, t, error);
    }
  }

  /** An event is about at most one call. */
  predicate About(e: Event, t: TxId) {
    match e
    case Call(u, _) => u == t
    case Advance(u, _) => u == t
    case Commit(u, _) => u == t
    case Fault(u) => u == t
    case Notify(u) => u == t
    case Tick => false
  }

  lemma OthersStay(s: State, e: Event, t: TxId)
    requires !About(e, t)
    ensures t in s.txs <==> t in Step(s, e).txs
    ensures t in s.txs ==> Step(s, e).txs[t] == s.txs[t]
  {
    if e.Advance? && e.t in s.txs && WellFormed(s.txs[e.t]) {
      AdvanceIsOwn(s, e.t, e.found);
    }
  }

  lemma ReturnedStays(s: State, e: Event, t: TxId)
    requires t in s.txs && s.txs[t].pc.Returned?
    ensures t in Step(s, e).txs && Step(s, e).txs[t].op == s.txs[t].op
  {
    if !About(e, t) { OthersStay(s, e, t); }
  }

  lemma RefusedByStep(s: State, e: Event, t: TxId, error: Error)
    requires MachineInv(s) && Refused(Step(s, e), t, error) && !Refused(s, t, error)
    ensures t in s.txs && !s.txs[t].pc.Returned? && Step(s, e).txs[t].op == s.txs[t].op
    ensures Execute(s.db, s.txs[t].op) == Failure(error)
  {
    if !About(e, t) { OthersStay(s, e, t); }
    OnlyStatementsRefuse(s, e, t, error);
    AdvanceIsOwn(s, t, e.found);
    RefusalIsJustified(s, t, e.found);
  }

  lemma OnlyStatementsRefuse(s: State, e: Event, t: TxId, error: Error)
    requires About(e, t) && Refused(Step(s, e), t, error) && !Refused(s, t, error)
    ensures e.Advance? && t in s.txs && WellFormed(s.txs[t])
  {
  }

  // The lifecycle.

  /**
   In every committed state, `created` followed by an order's history is a path through the transition table
   that ends at the order's status; it has at most three rows, none of them `created`, no status twice.
   */
  lemma {:induction false} HistoryIsALifecycle(events: seq<Event>, id: OrderId)
    requires id in Run(START, events).db.orders
    ensures
      var db := Run(START, events).db;
      var rows := Rows(db.history, id);
      && IsPath([Created] + Statuses(rows))
      && db.orders[id].status == (if rows == [] then Created else rows[|rows| - 1].status)
      && |rows| <= 3
      && (forall i :: 0 <= i < |rows| ==> rows[i].status != Created)
      && (forall i, j :: 0 <= i < j < |rows| ==> rows[i].status != rows[j].status)
  {
    var db := Run(START, events).db;
    Reached(events);
    assert OnTrack(db, id);
    HistoryIsShortAndSimple(db, id);
  }

  lemma {:induction false} RunConcat(s: State, xs: seq<Event>, ys: seq<Event>)
    ensures Run(s, xs + ys) == Run(Run(s, xs), ys)
    decreases |ys|
  {
    if ys == [] {
      assert xs + ys == xs;
    } else {
      assert (xs + ys)[..|xs + ys| - 1] == xs + ys[..|ys| - 1];
      RunConcat(s, xs, ys[..|ys| - 1]);
    }
  }

  lemma RunCons(s: State, e: Event, events: seq<Event>)
    ensures Run(s, [e] + events) == Run(Step(s, e), events)
  {
    assert [e][..0] == [];
    assert Run(s, [e]) == Step(s, e);
    RunConcat(s, [e], events);
  }

  /** Orders never disappear, histories grow only at the end, statuses only climb, end states stay. */
  lemma NothingIsTakenBack(events: seq<Event>, more: seq<Event>)
    ensures Advances(Run(START, events).db, Run(START, events + more).db)
    ensures forall id :: id in Run(START, events).db.orders && Terminal(Run(START, events).db.orders[id].status) ==>
      id in Run(START, events + more).db.orders &&
      Run(START, events + more).db.orders[id].status == Run(START, events).db.orders[id].status &&
      Rows(Run(START, events + more).db.history, id) == Rows(Run(START, events).db.history, id)
  {
    var s := Run(START, events);
    Reached(events);
    RunConcat(START, events, more);
    Serializable(s, more);
    ReplayAdvances(s.db, Committed(s, more));
    forall id | id in s.db.orders && Terminal(s.db.orders[id].status)
      ensures Rows(Run(START, events + more).db.history, id) == Rows(s.db.history, id)
    {
      assert OrderAdvances(s.db, Run(START, events + more).db, id);
    }
  }

  // Assignment.

  predicate Succeeded(s: State, t: TxId) {
    t in s.txs && !s.txs[t].op.Create? && s.txs[t].pc.Returned? && s.txs[t].pc.outcome.Recorded?
  }

  /** Two acknowledged changes to the same status of one order are one call. */
  lemma SameChangeSameCall(s: State, t: TxId, u: TxId)
    requires MachineInv(s) && Succeeded(s, t) && Succeeded(s, u)
    requires RowOf(s.txs[t].op).order == RowOf(s.txs[u].op).order
    requires RowOf(s.txs[t].op).status == RowOf(s.txs[u].op).status
    ensures t == u
  {
    assert TxInv(s, t) && TxInv(s, u);
    OneRowPerStatus(s.db, s.txs[t].pc.outcome.row, s.txs[u].pc.outcome.row);
    assert t != u ==> Apart(s.txs[t], s.txs[u]);
  }

  lemma {:induction false} AssignOrderSucceedsOnce(events: seq<Event>, t: TxId, u: TxId)
    requires Succeeded(Run(START, events), t) && Run(START, events).txs[t].op.Assign?
    requires Succeeded(Run(START, events), u) && Run(START, events).txs[u].op.Assign?
    requires Run(START, events).txs[t].op.id == Run(START, events).txs[u].op.id
    ensures t == u
  {
    Reached(events);
    SameChangeSameCall(Run(START, events), t, u);
  }

  /**
   An order in status `created` has no assignment row, so the insert of an approved `AssignOrder` never meets
   the unique constraint; and each assignment row comes with the manager's `assigned` row for its courier.
   */
  lemma AssignmentConflictIsUnreachable(events: seq<Event>)
    ensures
      var s := Run(START, events);
      && (forall id :: id in s.db.orders && s.db.orders[id].status == Created ==> id !in s.db.assignments)
      && (forall t :: t in s.txs && s.txs[t].op.Assign? && s.txs[t].pc == Approved ==>
            s.txs[t].op.id !in s.db.assignments)
      && (forall id :: id in s.db.assignments ==>
            id in s.db.orders &&
            exists i :: 0 <= i < |s.db.history| && RecordsAssignment(s.db.history[i], id, s.db.assignments[id]))
  {
    var s := Run(START, events);
    Reached(events);
    forall t | t in s.txs && s.txs[t].op.Assign? && s.txs[t].pc == Approved
      ensures s.txs[t].op.id !in s.db.assignments
    {
      assert TxInv(s, t);
    }
  }

  // Idempotent creation.

  predicate AnswerOf(s: State, t: TxId, key: string, id: OrderId, created: bool) {
    && t in s.txs && s.txs[t].op.Create? && s.txs[t].op.key == key
    && s.txs[t].pc == Returned(Answered(id, created))
  }

  /** All answers for one key name one order, and at most one call is told that it created it. */
  lemma {:induction false} CreateOrderIsIdempotent(
      events: seq<Event>, t: TxId, u: TxId, key: string, id: OrderId, id': OrderId, created: bool, created': bool)
    requires AnswerOf(Run(START, events), t, key, id, created) && AnswerOf(Run(START, events), u, key, id', created')
    ensures id == id' && Matches(Run(START, events).db, id, key)
    ensures created && created' ==> t == u
  {
    var s := Run(START, events);
    Reached(events);
    assert TxInv(s, t) && TxInv(s, u);
    assert t != u ==> Apart(s.txs[t], s.txs[u]);
  }

  /** After a duplicate-key error the second lookup has a row to find, and finding it is the answer. */
  lemma {:induction false} SecondLookupFinds(events: seq<Event>, t: TxId) returns (found: OrderId)
    requires t in Run(START, events).txs && Run(START, events).txs[t].op.Create?
    requires Run(START, events).txs[t].pc == Conflict
    ensures AnswerOf(Run(START, events + [Advance(t, found)]), t, Run(START, events).txs[t].op.key, found, false)
  {
    var s := Run(START, events);
    Reached(events);
    assert TxInv(s, t);
    found :| found in s.db.orders && s.db.orders[found].key == s.txs[t].op.key;
    assert (events + [Advance(t, found)])[..|events|] == events;
  }

  /** The only error a valid `CreateOrder` call can return is a fault of the database or the connection. */
  lemma {:induction false} CreateOrderFailsOnlyOnFaults(events: seq<Event>, t: TxId)
    requires t in Run(START, events).txs && Run(START, events).txs[t].op.Create?
    requires Run(START, events).txs[t].pc.Returned? && Run(START, events).txs[t].pc.outcome.Failed?
    ensures Run(START, events).txs[t].pc.outcome.error == Driver
  {
    Reached(events);
    assert TxInv(Run(START, events), t);
  }

  /** Rolled-back attempts leave nothing behind. */
  lemma NoOrphans(events: seq<Event>)
    ensures
      var db := Run(START, events).db;
      && |db.addresses| == 2 * |db.orders|
      && (forall a :: a in db.addresses ==> exists id :: id in db.orders && Refers(db.orders[id], a))
      && (forall id, id', a ::
            (id in db.orders && id' in db.orders && Refers(db.orders[id], a) && Refers(db.orders[id'], a)) ==>
              id == id')
  {
    var db := Run(START, events).db;
    Reached(events);
    forall a | a in db.addresses ensures exists id :: id in db.orders && Refers(db.orders[id], a) {
      assert Owned(db, a);
    }
    forall id, id', a | id in db.orders && id' in db.orders && Refers(db.orders[id], a) && Refers(db.orders[id'], a)
      ensures id == id'
    {
      assert id != id' ==> Disjoint(db.orders[id], db.orders[id']);
    }
  }

  // At-least-once pushes.

  function Notification(s: State, i: nat): (OrderId, Status)
    requires i < |s.notified| && NotifiedBy(s, s.notified[i])
  {
    (s.txs[s.notified[i]].op.id, s.txs[s.notified[i]].op.next)
  }

  /**
   However often a status is pushed, and whether or not the pusher saw the earlier attempts succeed, an order
   gets one history row and one notification for it.
   */
  lemma {:induction false} AtMostOnceEffect(events: seq<Event>)
    ensures
      var s := Run(START, events);
      && (forall i, j :: 0 <= i < j < |s.db.history| && s.db.history[i].order == s.db.history[j].order ==>
            s.db.history[i].status != s.db.history[j].status)
      && (forall i :: 0 <= i < |s.notified| ==> NotifiedBy(s, s.notified[i]))
      && (forall i, j :: 0 <= i < j < |s.notified| ==> Notification(s, i) != Notification(s, j))
  {
    var s := Run(START, events);
    Reached(events);
    forall i, j | 0 <= i < j < |s.db.history| && s.db.history[i].order == s.db.history[j].order
      ensures s.db.history[i].status != s.db.history[j].status
    {
      if s.db.history[i].status == s.db.history[j].status {
        OneRowPerStatus(s.db, i, j);
      }
    }
    forall i, j | 0 <= i < j < |s.notified| ensures Notification(s, i) != Notification(s, j) {
      if Notification(s, i) == Notification(s, j) {
        SameChangeSameCall(s, s.notified[i], s.notified[j]);
      }
    }
  }
}
