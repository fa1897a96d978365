/**
 Whole runs of the two services over the shared database and Redis, one call at a time: when do the caches stay
 exact? The hypotheses are those that the one-call lemmas of module Services show to be necessary.
 */
module Coherence {
  import opened Outcomes
  import opened Text
  import opened CreateInput
  import opened Store
  import opened Timelines
  import opened Repositories
  import opened Services

  datatype World = World(db: Db, entries: map<string, Payload>)

  /**
   The calls with checked inputs. `id` is the order's spelling in the call; `stored` tells whether the database
   works; `found` is the order that a key lookup finds, if one has the key.
   */
  datatype Call =
    | GetOrder(id: string, getFails: bool, setFails: bool, faultAt: nat)
    | GetTimeline(id: string, limit: int, getFails: bool, setFails: bool, faultAt: nat)
    | ChangeStatus(id: string, op: Op, timelineDelFails: bool, orderDelFails: bool, stored: bool)
    | AssignOrder(id: string, op: Op, setFails: bool, stored: bool)
    | CreateOrder(op: Op, found: OrderId, setFails: bool, stored: bool)
    | Expire(key: string)

  function CacheRow(w: World, id: OrderId, setFails: bool): World
    requires id in w.db.orders
  {
    w.(entries := Cached(w.entries, ViewOf(id, w.db.orders[id]), setFails))
  }

  /** The effect of one call; a call that does not fit changes nothing. */
  ghost function Perform(w: World, c: Call): World {
    match c
    case GetOrder(id, getFails, setFails, faultAt) =>
      w.(entries := OrderRead(w.db, w.entries, id, getFails, setFails, faultAt).1)
    case GetTimeline(id, limit, getFails, setFails, faultAt) =>
      w.(entries := TimelineRead(w.db, w.entries, id, limit, getFails, setFails, faultAt).1)
    case ChangeStatus(id, op, timelineDelFails, orderDelFails, stored) =>
      if !stored || !op.Update? || op.id != Canonical(id) || Execute(w.db, op).Failure? then w
      else World(After(w.db, op), AfterDeletes(w.entries, id, timelineDelFails, orderDelFails))
    case AssignOrder(id, op, setFails, stored) =>
      if !stored || !op.Assign? || id == "" || op.id != Canonical(id) || Execute(w.db, op).Failure? then w
      else CacheRow(w.(db := After(w.db, op)), op.id, setFails)
    case CreateOrder(op, found, setFails, stored) =>
      if !stored || !op.Create? then w
      else if Matches(w.db, found, op.key) then CacheRow(w, found, setFails)
      else if Execute(w.db, op).Failure? then w
      else CacheRow(w.(db := After(w.db, op)), op.id, setFails)
    case Expire(key) => w.(entries := w.entries - {key})
  }

  ghost function Performed(w: World, calls: seq<Call>): World {
    if calls == [] then w else Perform(Performed(w, calls[..|calls| - 1]), calls[|calls| - 1])
  }

  // The services perform the calls.

  /** The arguments are as the services make them: trimmed, valid and in the database's spelling where it is cast. */
  ghost predicate Checked(w: World, c: Call) {
    match c
    case GetOrder(id, _, _, _) => IsUuid(id)
    case GetTimeline(id, _, _, _, _) => IsUuid(id)
    case ChangeStatus(id, op, _, _, _) => IsUuid(id) && op.Update? && op.id == Canonical(id)
    case AssignOrder(id, op, _, _) =>
      && IsUuid(id) && op.Assign? && op.id == Canonical(id) && IsUuid(op.courier) && Lower(op.courier) == op.courier
      && TrimSpace(op.assignedBy) == op.assignedBy && TrimSpace(op.comment) == op.comment
    case CreateOrder(op, found, _, _) =>
      && op.Create? && op.key != "" && TrimSpace(op.key) == op.key && NormalizeCreateInput(op.input) == Some(op.input)
      && (HasKey(w.db, op.key) ==> Matches(w.db, found, op.key))
    case Expire(_) => true
  }

  lemma UuidIsTrimmed(id: string)
    requires IsUuid(id)
    ensures TrimSpace(id) == id
  {
    assert IsHex(id[0]) && IsHex(id[35]);
    TrimBare(id, IsSpace);
  }

  lemma PerformKeepsInv(w: World, c: Call)
    requires Inv(w.db)
    ensures Inv(Perform(w, c).db)
  {
    if Perform(w, c).db != w.db {
      AfterPreserves(w.db, c.op);
    }
  }

  /** The two services on their database and cache. */
  class Backend {
    const tracking: TrackingService
    const orders: OrderService

    constructor (tracking: TrackingService, orders: OrderService)
      requires tracking.repo.db == orders.repo.db && tracking.cache == orders.cache
      ensures this.tracking == tracking && this.orders == orders
    {
      this.tracking, this.orders := tracking, orders;
    }

    predicate Valid() {
      tracking.repo.db == orders.repo.db && tracking.cache == orders.cache
    }

    function Now(): World
      reads tracking.repo.db, tracking.cache
    {
      World(tracking.repo.db.rows, tracking.cache.entries)
    }

    /** One call to the service that offers it. */
    method Serve(c: Call)
      requires Valid() && Checked(Now(), c) && Inv(Now().db)
      modifies tracking, tracking.repo.db, tracking.cache
      ensures Now() == Perform(old(Now()), c)
    {
      match c
      case GetOrder(id, getFails, setFails, faultAt) =>
        UuidIsTrimmed(id);
        var _ := orders.GetOrderByID(id, getFails, setFails, faultAt);
      case GetTimeline(id, limit, getFails, setFails, faultAt) =>
        UuidIsTrimmed(id);
        var _ := tracking.GetOrderTimeline(id, limit, getFails, setFails, faultAt);
      case ChangeStatus(id, op, timelineDelFails, orderDelFails, stored) =>
        Change(id, op, timelineDelFails, orderDelFails, stored);
      case AssignOrder(id, op, setFails, stored) =>
        UuidIsTrimmed(id);
        UuidIsTrimmed(op.courier);
        var _ := orders.AssignOrder(id, op.courier, op.active, op.assignedBy, op.comment, op.at, setFails,
                                    if stored then 7 else 0);
      case CreateOrder(op, found, setFails, stored) => Create(op, found, setFails, stored);
      case Expire(key) => tracking.cache.Expire(key);
    }

    /** A run of calls, each with checked arguments in its turn. */
    method ServeAll(calls: seq<Call>)
      requires Valid() && Inv(Now().db)
      requires forall i :: 0 <= i < |calls| ==> Checked(Performed(Now(), calls[..i]), calls[i])
      modifies tracking, tracking.repo.db, tracking.cache
      ensures Now() == Performed(old(Now()), calls)
    {
      ghost var start := Now();
      for i := 0 to |calls|
        invariant Now() == Performed(start, calls[..i]) && Inv(Now().db)
      {
        PerformKeepsInv(Now(), calls[i]);
        assert calls[..i + 1][..i] == calls[..i];
        Serve(calls[i]);
      }
      assert calls[..|calls|] == calls;
    }

    method Change(id: string, op: Op, timelineDelFails: bool, orderDelFails: bool, stored: bool)
      requires Valid() && Checked(Now(), ChangeStatus(id, op, timelineDelFails, orderDelFails, stored))
      modifies tracking, tracking.repo.db, tracking.cache
      ensures Now() == Perform(old(Now()), ChangeStatus(id, op, timelineDelFails, orderDelFails, stored))
    {
      assert op == Update(Canonical(id), op.next, op.source, op.comment, op.metadata, op.at);
      ghost var w := Now();
      var r := tracking.ChangeStatus(id, op.next, op.source, op.comment, op.metadata, op.at,
                                     timelineDelFails, orderDelFails, if stored then 5 else 0);
      if r.Success? {
        assert stored;
        assert Execute(w.db, op) == Success(Now().db);
        assert Now() == World(After(w.db, op), AfterDeletes(w.entries, id, timelineDelFails, orderDelFails));
      } else {
        assert Now() == w;
        assert !stored || Execute(w.db, op).Failure?;
      }
    }

    method Create(op: Op, found: OrderId, setFails: bool, stored: bool)
      requires Valid() && Checked(Now(), CreateOrder(op, found, setFails, stored)) && Inv(Now().db)
      modifies tracking.repo.db, tracking.cache
      ensures Now() == Perform(old(Now()), CreateOrder(op, found, setFails, stored))
    {
      assert op == Op.Create(op.id, op.key, op.input, op.pickup, op.dropoff, op.at);
      assert Replay(Now().db, []) == Now().db;
      ghost var w := Now();
      var r := orders.CreateOrder(op.key, op.input, op.id, op.pickup, op.dropoff, op.at, [],
                                  if stored then 1 else 0, 5, 1, setFails);
      if r.Success? {
        assert stored;
        if Matches(w.db, found, op.key) {
          assert r.value.0.id == found;
          assert Now() == CacheRow(w, found, setFails);
        } else {
          assert !HasKey(w.db, op.key);
          assert Now() == CacheRow(w.(db := After(w.db, op)), op.id, setFails);
        }
      } else {
        assert Now() == w;
        assert !stored || !Matches(w.db, found, op.key);
        assert !stored || Execute(w.db, op).Failure?;
      }
    }
  }

  /** `gen_random_uuid()::text` is in lower case. */
  predicate DrawsCanonical(c: Call) {
    c.CreateOrder? && c.op.Create? ==> Lower(c.op.id.text) == c.op.id.text
  }

  /** The call changes the status of the order `op.id`. */
  predicate Changes(w: World, c: Call) {
    match c
    case ChangeStatus(id, op, _, _, stored) =>
      stored && op.Update? && op.id == Canonical(id) && Execute(w.db, op).Success?
    case AssignOrder(id, op, _, stored) =>
      stored && op.Assign? && id != "" && op.id == Canonical(id) && Execute(w.db, op).Success?
    case _ => false
  }

  /** A status change deletes or replaces the `order:` entry, or finds none. */
  predicate KeepsOrders(w: World, c: Call) {
    Changes(w, c) ==>
      OrderKey(c.op.id.text) in w.entries ==>
        if c.ChangeStatus? then Lower(c.id) == c.id && !c.orderDelFails else !c.setFails
  }

  /** A status update deletes the only `timeline:` entry, and an assignment finds none. */
  ghost predicate KeepsTimelines(w: World, c: Call) {
    Changes(w, c) ==>
      forall spelled: string {:trigger TimelineKey(spelled)} ::
        Canonical(spelled) == c.op.id && TimelineKey(spelled) in w.entries ==>
          c.ChangeStatus? && spelled == c.id && !c.timelineDelFails
  }

  ghost predicate OrderWorld(w: World) {
    Inv(w.db) && CanonicalIds(w.db) && OrdersCoherent(w.db, w.entries)
  }

  ghost predicate TimelineWorld(w: World) {
    Inv(w.db) && TimelinesCoherent(w.db, w.entries)
  }

  lemma MovedOp(w: World, c: Call)
    requires Changes(w, c)
    ensures Perform(w, c) == if c.ChangeStatus?
      then World(After(w.db, c.op), AfterDeletes(w.entries, c.id, c.timelineDelFails, c.orderDelFails))
      else CacheRow(w.(db := After(w.db, c.op)), c.op.id, c.setFails)
    ensures c.AssignOrder? ==> c.op.id.text != ""
  {
    assert c.AssignOrder? ==> |c.op.id.text| == |c.id|;
  }

  /** A call leaves the order cache coherent exactly if it meets its guard. */
  lemma PerformKeepsOrdersIff(w: World, c: Call)
    requires OrderWorld(w) && DrawsCanonical(c)
    ensures OrderWorld(Perform(w, c)) <==> KeepsOrders(w, c)
  {
    if Changes(w, c) {
      MoveKeepsOrdersIff(w, c);
    } else {
      OtherCallsKeepOrders(w, c);
    }
  }

  lemma MoveKeepsOrdersIff(w: World, c: Call)
    requires OrderWorld(w) && Changes(w, c)
    ensures OrderWorld(Perform(w, c)) <==> KeepsOrders(w, c)
  {
    MovedOp(w, c);
    PerformKeepsInv(w, c);
    var db' := After(w.db, c.op);
    if c.ChangeStatus? {
      OrdersCoherentAfterUpdateIff(w.db, db', c.op, c.id, w.entries, c.timelineDelFails, c.orderDelFails);
    } else {
      OrdersCoherentAfterAssignIff(w.db, db', c.op, w.entries, c.setFails);
    }
  }

  lemma OtherCallsKeepOrders(w: World, c: Call)
    requires OrderWorld(w) && DrawsCanonical(c) && !Changes(w, c)
    ensures OrderWorld(Perform(w, c))
  {
    match c
    case GetOrder(id, getFails, setFails, faultAt) =>
      OrderReadIsExact(w.db, w.entries, id, getFails, setFails, faultAt);
    case GetTimeline(id, limit, getFails, setFails, faultAt) =>
      ReadsDoNotInterfere(w.db, w.entries, id, limit, getFails, setFails, faultAt);
    case ChangeStatus(_, _, _, _, _) =>
    case AssignOrder(_, _, _, _) =>
    case CreateOrder(op, found, setFails, stored) =>
      if stored && op.Create? { CreateKeepsOrders(w, op, found, setFails); }
    case Expire(key) => AfterRemoval(w.db, w.entries, {key});
  }

  lemma CacheRowKeepsCoherence(w: World, id: OrderId, setFails: bool)
    requires id in w.db.orders
    ensures OrdersCoherent(w.db, w.entries) ==> OrdersCoherent(w.db, CacheRow(w, id, setFails).entries)
    ensures TimelinesCoherent(w.db, w.entries) ==> TimelinesCoherent(w.db, CacheRow(w, id, setFails).entries)
  {
    CacheCoherence(w.db, w.entries, ViewOf(id, w.db.orders[id]), setFails);
  }

  lemma CreateKeepsOrders(w: World, op: Op, found: OrderId, setFails: bool)
    requires OrderWorld(w) && op.Create? && Lower(op.id.text) == op.id.text
    ensures OrderWorld(Perform(w, CreateOrder(op, found, setFails, true)))
  {
    if Matches(w.db, found, op.key) {
      CacheRowKeepsCoherence(w, found, setFails);
    } else if Execute(w.db, op).Success? {
      var made := w.(db := After(w.db, op));
      NewOrderKeepsWorlds(w, op);
      CacheRowKeepsCoherence(made, op.id, setFails);
    }
  }

  lemma NewOrderKeepsWorlds(w: World, op: Op)
    requires Inv(w.db) && op.Create? && Execute(w.db, op).Success?
    ensures
      var made := w.(db := After(w.db, op));
      && op.id in made.db.orders
      && (OrderWorld(w) && Lower(op.id.text) == op.id.text ==> OrderWorld(made))
      && (TimelineWorld(w) ==> TimelineWorld(made))
  {
    CreateCoherence(w.db, After(w.db, op), op, w.entries);
    AfterPreserves(w.db, op);
  }

  /** A call leaves the timeline cache coherent exactly if it meets its guard. */
  lemma PerformKeepsTimelinesIff(w: World, c: Call)
    requires TimelineWorld(w)
    ensures TimelineWorld(Perform(w, c)) <==> KeepsTimelines(w, c)
  {
    if Changes(w, c) {
      MoveKeepsTimelinesIff(w, c);
    } else {
      OtherCallsKeepTimelines(w, c);
    }
  }

  lemma MoveKeepsTimelinesIff(w: World, c: Call)
    requires TimelineWorld(w) && Changes(w, c)
    ensures TimelineWorld(Perform(w, c)) <==> KeepsTimelines(w, c)
  {
    MovedOp(w, c);
    PerformKeepsInv(w, c);
    var db' := After(w.db, c.op);
    if c.ChangeStatus? {
      TimelinesCoherentAfterUpdateIff(w.db, db', c.op, c.id, w.entries, c.timelineDelFails, c.orderDelFails);
    } else {
      TimelinesCoherentAfterAssignIff(w.db, db', c.op, w.entries, c.setFails);
    }
  }

  lemma OtherCallsKeepTimelines(w: World, c: Call)
    requires TimelineWorld(w) && !Changes(w, c)
    ensures TimelineWorld(Perform(w, c))
  {
    match c
    case GetOrder(id, getFails, setFails, faultAt) =>
      ReadsDoNotInterfere(w.db, w.entries, id, 0, getFails, setFails, faultAt);
    case GetTimeline(id, limit, getFails, setFails, faultAt) =>
      TimelineReadIsExact(w.db, w.entries, id, limit, getFails, setFails, faultAt);
    case ChangeStatus(_, _, _, _, _) =>
    case AssignOrder(_, _, _, _) =>
    case CreateOrder(op, found, setFails, stored) =>
      if stored && op.Create? { CreateKeepsTimelines(w, op, found, setFails); }
    case Expire(key) => AfterRemoval(w.db, w.entries, {key});
  }

  lemma CreateKeepsTimelines(w: World, op: Op, found: OrderId, setFails: bool)
    requires TimelineWorld(w) && op.Create?
    ensures TimelineWorld(Perform(w, CreateOrder(op, found, setFails, true)))
  {
    if Matches(w.db, found, op.key) {
      CacheRowKeepsCoherence(w, found, setFails);
    } else if Execute(w.db, op).Success? {
      var made := w.(db := After(w.db, op));
      NewOrderKeepsWorlds(w, op);
      CacheRowKeepsCoherence(made, op.id, setFails);
    }
  }

  /** Every call of a run meets its guard in its turn. */
  ghost predicate AllKeepOrders(w: World, calls: seq<Call>) {
    calls == [] ||
    (AllKeepOrders(w, calls[..|calls| - 1]) &&
     KeepsOrders(Performed(w, calls[..|calls| - 1]), calls[|calls| - 1]))
  }

  ghost predicate AllKeepTimelines(w: World, calls: seq<Call>) {
    calls == [] ||
    (AllKeepTimelines(w, calls[..|calls| - 1]) &&
     KeepsTimelines(Performed(w, calls[..|calls| - 1]), calls[|calls| - 1]))
  }

  /** The order cache is coherent from the start of a run to its end. */
  ghost predicate OrdersStayCoherent(w: World, calls: seq<Call>) {
    OrderWorld(Performed(w, calls)) && (calls == [] || OrdersStayCoherent(w, calls[..|calls| - 1]))
  }

  ghost predicate TimelinesStayCoherent(w: World, calls: seq<Call>) {
    TimelineWorld(Performed(w, calls)) && (calls == [] || TimelinesStayCoherent(w, calls[..|calls| - 1]))
  }

  /** The order cache is coherent all along a run exactly if every call of the run meets its guard. */
  lemma {:induction false} OrdersStayCoherentIff(w: World, calls: seq<Call>)
    requires OrderWorld(w) && forall i :: 0 <= i < |calls| ==> DrawsCanonical(calls[i])
    ensures OrdersStayCoherent(w, calls) <==> AllKeepOrders(w, calls)
  {
    if calls != [] {
      var front, c := calls[..|calls| - 1], calls[|calls| - 1];
      OrdersStayCoherentIff(w, front);
      if OrdersStayCoherent(w, front) { PerformKeepsOrdersIff(Performed(w, front), c); }
    }
  }

  /** The same for the timeline cache. */
  lemma {:induction false} TimelinesStayCoherentIff(w: World, calls: seq<Call>)
    requires TimelineWorld(w)
    ensures TimelinesStayCoherent(w, calls) <==> AllKeepTimelines(w, calls)
  {
    if calls != [] {
      var front, c := calls[..|calls| - 1], calls[|calls| - 1];
      TimelinesStayCoherentIff(w, front);
      if TimelinesStayCoherent(w, front) { PerformKeepsTimelinesIff(Performed(w, front), c); }
    }
  }

  /**
   At the end of every such run of both services, reading any order in any spelling gives the repository's answer,
   although reads may lose their cache commands, entries expire and databases fail at will.
   */
  lemma {:induction false} OrderReadsAreExact(calls: seq<Call>, id: string, getFails: bool, setFails: bool)
    requires AllKeepOrders(World(EMPTY, map[]), calls) && forall i :: 0 <= i < |calls| ==> DrawsCanonical(calls[i])
    ensures
      var w := Performed(World(EMPTY, map[]), calls);
      OrderRead(w.db, w.entries, id, getFails, setFails, 1).0 == ToService(OrderAnswer(w.db, Canonical(id)))
  {
    var w := Performed(World(EMPTY, map[]), calls);
    EmptyInv();
    OrdersStayCoherentIff(World(EMPTY, map[]), calls);
    OrderReadIsExact(w.db, w.entries, id, getFails, setFails, 1);
  }

  /** The same for timelines of every limit, from any database on. */
  lemma {:induction false} TimelineReadsAreExact(
      db: Db, calls: seq<Call>, id: string, limit: int, getFails: bool, setFails: bool)
    requires Inv(db) && AllKeepTimelines(World(db, map[]), calls)
    ensures
      var w := Performed(World(db, map[]), calls);
      TimelineRead(w.db, w.entries, id, limit, getFails, setFails, 2).0
        == ToService(TimelineAnswer(w.db, Canonical(id), NormalizeLimit(limit)))
  {
    var w := Performed(World(db, map[]), calls);
    TimelinesStayCoherentIff(World(db, map[]), calls);
    TimelineReadIsExact(w.db, w.entries, id, limit, getFails, setFails, 2);
  }

  // Runs with canonical ids and working cache commands meet the guards.

  /** Ids are spelled as the database does, and the cache commands after writes succeed. */
  predicate Plain(c: Call) {
    match c
    case GetTimeline(id, _, _, _, _) => Lower(id) == id
    case ChangeStatus(id, _, timelineDelFails, orderDelFails, _) =>
      Lower(id) == id && !timelineDelFails && !orderDelFails
    case AssignOrder(_, _, setFails, _) => !setFails
    case _ => true
  }

  ghost predicate TimelineKeysCanonical(entries: map<string, Payload>) {
    forall id: string {:trigger TimelineKey(id)} :: TimelineKey(id) in entries ==> Lower(id) == id
  }

  lemma CachedIsApart(entries: map<string, Payload>, order: OrderView, fails: bool)
    requires TimelineKeysCanonical(entries)
    ensures TimelineKeysCanonical(Cached(entries, order, fails))
  {
    forall id: string ensures TimelineKey(id) != OrderKey(order.id.text) {
      KeysDistinct(order.id.text, id);
    }
  }

  lemma PlainKeepsKeysCanonical(w: World, c: Call)
    requires TimelineKeysCanonical(w.entries) && Plain(c)
    ensures TimelineKeysCanonical(Perform(w, c).entries)
  {
    match c
    case GetOrder(id, _, setFails, _) =>
      if OrderAnswer(w.db, Canonical(id)).Success? {
        CachedIsApart(w.entries, OrderAnswer(w.db, Canonical(id)).value, setFails);
      }
    case GetTimeline(id, _, _, _, _) =>
      forall k: string ensures TimelineKey(k) == TimelineKey(id) ==> k == id {
        KeysDistinct(k, id);
      }
    case ChangeStatus(_, _, _, _, _) =>
    case AssignOrder(_, op, setFails, _) =>
      if Changes(w, c) { CachedIsApart(w.entries, ViewOf(op.id, After(w.db, op).orders[op.id]), setFails); }
    case CreateOrder(op, found, setFails, _) => CreateKeepsKeysCanonical(w, c);
    case Expire(_) =>
  }

  lemma CreateKeepsKeysCanonical(w: World, c: Call)
    requires TimelineKeysCanonical(w.entries) && c.CreateOrder?
    ensures TimelineKeysCanonical(Perform(w, c).entries)
  {
    var w' := Perform(w, c);
    if w'.entries != w.entries {
      var id := if Matches(w.db, c.found, c.op.key) then c.found else c.op.id;
      CachedIsApart(w.entries, ViewOf(id, w'.db.orders[id]), c.setFails);
    }
  }

  /** A plain run keeps the order cache coherent; without assignments it keeps the timeline cache coherent as well. */
  lemma {:induction false} PlainRunsMeetGuards(w: World, calls: seq<Call>)
    requires TimelineKeysCanonical(w.entries) && forall i :: 0 <= i < |calls| ==> Plain(calls[i])
    ensures TimelineKeysCanonical(Performed(w, calls).entries) && AllKeepOrders(w, calls)
    ensures (forall i :: 0 <= i < |calls| ==> !calls[i].AssignOrder?) ==> AllKeepTimelines(w, calls)
  {
    if calls != [] {
      var n := |calls| - 1;
      PlainRunsMeetGuards(w, calls[..n]);
      PlainKeepsKeysCanonical(Performed(w, calls[..n]), calls[n]);
      PlainMeetsGuards(Performed(w, calls[..n]), calls[n]);
    }
  }

  lemma PlainMeetsGuards(w: World, c: Call)
    requires TimelineKeysCanonical(w.entries) && Plain(c)
    ensures KeepsOrders(w, c) && (!c.AssignOrder? ==> KeepsTimelines(w, c))
  {
  }

  // What an assignment does to a cached timeline.

  lemma AssignedRowIsStored(db: Db, op: Op)
    requires op.Assign? && Execute(db, op).Success?
    ensures AssignedRow(op) in Timeline(After(db, op), op.id)
  {
    var rows := Rows(After(db, op).history, op.id);
    AssignMoves(db, After(db, op), op);
    RowsAppend(db.history, AssignedRow(op), op.id);
    SortIsAnswer(rows);
    assert AssignedRow(op) in multiset(rows);
    assert AssignedRow(op) in multiset(SortByTime(rows));
  }

  lemma AssignKeepsTimelineEntry(w: World, c: Call, spelled: string)
    requires c.AssignOrder? && Changes(w, c)
    ensures TimelineHit(Perform(w, c).entries, spelled, false) == TimelineHit(w.entries, spelled, false)
  {
    KeysDistinct(c.op.id.text, spelled);
  }

  /**
   When an order with a cached timeline is assigned, in whatever spelling, reads with any limit go on answering from
   the old entry; if that was coherent, they miss the `assigned` row that the database has.
   */
  lemma AssignedRowIsMissed(w: World, c: Call, spelled: string, items: seq<HistoryRow>, limit: int)
    requires Inv(w.db) && c.AssignOrder? && Changes(w, c) && Canonical(spelled) == c.op.id
    requires TimelineHit(w.entries, spelled, false) == Some(items)
    ensures
      var w' := Perform(w, c);
      var answer := TimelineRead(w'.db, w'.entries, spelled, limit, false, false, 2).0;
      && answer == Success(SliceTimeline(items, NormalizeLimit(limit)))
      && AssignedRow(c.op) in Timeline(w'.db, c.op.id)
      && (TimelinesCoherent(w.db, w.entries) ==> answer == Success([]))
  {
    AssignKeepsTimelineEntry(w, c, spelled);
    MovedOp(w, c);
    AssignedRowIsStored(w.db, c.op);
    NothingRecordedYet(w.db, c.op.id);
  }
}
