/**
 The two services over the shared database and the shared Redis, one call at a time:
 services/order-service/internal/service/service.go, services/tracking-service/internal/service/service.go
 and their Redis caches. `Redis` entries may expire at any time; each cache command can be made to fail.
 */
module Services {
  import opened Outcomes
  import opened Text
  import opened CreateInput
  import opened Lifecycle
  import opened Store
  import opened Timelines
  import opened Repositories

  const DEFAULT_TIMELINE_LIMIT := 50

  datatype Payload = OrderPayload(order: OrderView) | TimelinePayload(items: seq<HistoryRow>)

  datatype ServiceError = InvalidInput | Rejected(cause: Error)

  function OrderKey(id: string): string {
    "order:" + id
  }

  function TimelineKey(id: string): string {
    "timeline:" + id
  }

  /** The key that the tracking service deletes; it has its own copy of the prefix. */
  function InvalidatedOrderKey(id: string): string {
    "order:" + id
  }

  /** Both services mean the same entry. */
  lemma SameOrderKey(id: string)
    ensures InvalidatedOrderKey(id) == OrderKey(id)
  {
  }

  lemma KeysDistinct(a: string, b: string)
    ensures OrderKey(a) != TimelineKey(b)
    ensures OrderKey(a) == OrderKey(b) ==> a == b
    ensures TimelineKey(a) == TimelineKey(b) ==> a == b
  {
    assert OrderKey(a)[0] == 'o' && TimelineKey(b)[0] == 't';
    assert OrderKey(a)[6..] == a && OrderKey(b)[6..] == b;
    assert TimelineKey(a)[9..] == a && TimelineKey(b)[9..] == b;
  }

  function NormalizeLimit(limit: int): (n: nat)
    ensures 1 <= limit <= 200 ==> n == limit
    ensures limit <= 0 ==> n == 50
    ensures limit > 200 ==> n == 200
  {
    if limit <= 0 then DEFAULT_TIMELINE_LIMIT
    else if limit > MAX_TIMELINE_LIMIT then MAX_TIMELINE_LIMIT
    else limit
  }

  function SliceTimeline(items: seq<HistoryRow>, limit: int): seq<HistoryRow> {
    if limit <= 0 || |items| <= limit then items else items[..limit]
  }

  class Redis {
    var entries: map<string, Payload>

    constructor ()
      ensures entries == map[]
    {
      entries := map[];
    }

    method Get(key: string, fails: bool) returns (r: Option<Payload>)
      ensures r.Some? <==> !fails && key in entries
      ensures r.Some? ==> entries[key] == r.value
    {
      r := if !fails && key in entries then Some(entries[key]) else None;
    }

    method Set(key: string, value: Payload, fails: bool)
      modifies this
      ensures entries == if fails then old(entries) else old(entries)[key := value]
    {
      if !fails { entries := entries[key := value]; }
    }

    method Del(key: string, fails: bool)
      modifies this
      ensures entries == if fails then old(entries) else old(entries) - {key}
    {
      if !fails { entries := entries - {key}; }
    }

    /** The time to live of an entry runs out. */
    method Expire(key: string)
      modifies this
      ensures entries == old(entries) - {key}
    {
      entries := entries - {key};
    }
  }

  function ToService<T>(r: Result<T, Error>): Result<T, ServiceError> {
    match r
    case Success(v) => Success(v)
    case Failure(e) => Failure(Rejected(e))
  }

  function SourceOf(raw: string): Result<Source, StatusError> {
    if TrimSpace(raw) == "" then Success(System) else NormalizeStatusSource(TrimSpace(raw))
  }

  function Deleted(key: string, fails: bool): set<string> {
    if fails then {} else {key}
  }

  function Cached(entries: map<string, Payload>, order: OrderView, fails: bool): map<string, Payload> {
    if fails || order.id.text == "" then entries else entries[OrderKey(order.id.text) := OrderPayload(order)]
  }

  /** After a successful status update: both entries of the spelled id, as far as the deletes succeed, are gone. */
  function AfterDeletes(entries: map<string, Payload>, id: string, timelineDelFails: bool, orderDelFails: bool)
    : map<string, Payload>
  {
    entries - Deleted(TimelineKey(id), timelineDelFails) - Deleted(OrderKey(id), orderDelFails)
  }

  /** What a cache read yields that the service can use. */
  function OrderHit(entries: map<string, Payload>, id: string, getFails: bool): Option<OrderView> {
    if !getFails && OrderKey(id) in entries && entries[OrderKey(id)].OrderPayload?
       && entries[OrderKey(id)].order.id.text != ""
    then Some(entries[OrderKey(id)].order)
    else None
  }

  function TimelineHit(entries: map<string, Payload>, id: string, getFails: bool): Option<seq<HistoryRow>> {
    if !getFails && TimelineKey(id) in entries && entries[TimelineKey(id)].TimelinePayload?
    then Some(entries[TimelineKey(id)].items)
    else None
  }

  /** The answer of a read through the `order:` cache and the entries after it. */
  function OrderRead(db: Db, entries: map<string, Payload>, id: string, getFails: bool, setFails: bool, faultAt: nat)
    : (Result<OrderView, ServiceError>, map<string, Payload>)
  {
    match OrderHit(entries, id, getFails)
    case Some(order) => (Success(order), entries)
    case None =>
      if faultAt == 0 then (Failure(Rejected(Driver)), entries)
      else
        match OrderAnswer(db, Canonical(id))
        case Success(order) => (Success(order), Cached(entries, order, setFails))
        case Failure(e) => (Failure(Rejected(e)), entries)
  }

  /** The answer of a read through the `timeline:` cache and the entries after it. */
  function TimelineRead(db: Db, entries: map<string, Payload>, id: string, limit: int,
                        getFails: bool, setFails: bool, faultAt: nat)
    : (Result<seq<HistoryRow>, ServiceError>, map<string, Payload>)
  {
    match TimelineHit(entries, id, getFails)
    case Some(items) => (Success(SliceTimeline(items, NormalizeLimit(limit))), entries)
    case None =>
      match TimelineQuery(db, Canonical(id), MAX_TIMELINE_LIMIT, faultAt)
      case Success(items) =>
        (Success(SliceTimeline(items, NormalizeLimit(limit))),
         if setFails then entries else entries[TimelineKey(id) := TimelinePayload(items)])
      case Failure(e) => (Failure(Rejected(e)), entries)
  }

  // What reads answer, in terms of rows and entries.

  /** What an order read shows of the row. */
  predicate ShowsOrder(view: OrderView, id: OrderId, row: Order) {
    && view.id == id && view.customer == row.customer && view.status == row.status
    && view.createdAt == row.createdAt && view.updatedAt == row.updatedAt
  }

  /**
   A usable entry is served as it is, stale or not; without one the row's columns are answered and stored under the
   database's spelling, and nothing is stored for an order that does not exist or a database that fails.
   */
  lemma OrderReadOutcome(db: Db, entries: map<string, Payload>, id: string,
                         getFails: bool, setFails: bool, faultAt: nat)
    ensures
      var (r, entries') := OrderRead(db, entries, id, getFails, setFails, faultAt);
      var key := "order:" + id;
      if !getFails && key in entries && entries[key].OrderPayload? && entries[key].order.id.text != "" then
        r == Success(entries[key].order) && entries' == entries
      else if faultAt == 0 then r == Failure(Rejected(Driver)) && entries' == entries
      else if OrderId(Lower(id)) !in db.orders then r == Failure(Rejected(OrderNotFound)) && entries' == entries
      else
        && r.Success? && ShowsOrder(r.value, OrderId(Lower(id)), db.orders[OrderId(Lower(id))])
        && entries' == if setFails || id == "" then entries else entries["order:" + Lower(id) := OrderPayload(r.value)]
  {
    assert Lower(id) == "" <==> id == "";
  }

  predicate IsFirstOf(items: seq<HistoryRow>, rows: seq<HistoryRow>, n: nat) {
    |items| == (if |rows| < n then |rows| else n) && forall i :: 0 <= i < |items| ==> items[i] == rows[i]
  }

  /**
   The repository answers the first rows by time, up to the limit: 50 if none is given and at most 200. As histories
   are short, a missing limit or one of at least three brings the whole timeline.
   */
  lemma TimelineAnswerOutcome(db: Db, id: OrderId, limit: int)
    ensures
      var r := TimelineAnswer(db, id, NormalizeLimit(limit));
      var n := if limit <= 0 then 50 else if limit > 200 then 200 else limit;
      if r.Success? then IsFirstOf(r.value, Timeline(db, id), n)
      else r == Failure(OrderNotFound) && id !in db.orders && Rows(db.history, id) == []
    ensures Inv(db) && id in db.orders && (limit <= 0 || limit >= 3) ==>
      TimelineAnswer(db, id, NormalizeLimit(limit)) == Success(Timeline(db, id))
    ensures id !in db.orders && Rows(db.history, id) == [] ==>
      TimelineAnswer(db, id, NormalizeLimit(limit)) == Failure(OrderNotFound)
  {
    SortIsAnswer(Rows(db.history, id));
    if Inv(db) && id in db.orders { HistoryIsShortAndSimple(db, id); }
  }

  /** The same for timelines: an entry is served as it is, cut to the limit; a miss stores up to 200 rows. */
  lemma TimelineReadOutcome(db: Db, entries: map<string, Payload>, id: string, limit: int,
                            getFails: bool, setFails: bool, faultAt: nat)
    ensures
      var (r, entries') := TimelineRead(db, entries, id, limit, getFails, setFails, faultAt);
      var key, n := "timeline:" + id, if limit <= 0 then 50 else if limit > 200 then 200 else limit;
      var rows := Timeline(db, OrderId(Lower(id)));
      if !getFails && key in entries && entries[key].TimelinePayload? then
        r.Success? && IsFirstOf(r.value, entries[key].items, n) && entries' == entries
      else if faultAt == 0 || (faultAt == 1 && rows == []) then r == Failure(Rejected(Driver)) && entries' == entries
      else if rows == [] && OrderId(Lower(id)) !in db.orders then
        r == Failure(Rejected(OrderNotFound)) && entries' == entries
      else
        && r.Success? && IsFirstOf(r.value, rows, n)
        && (setFails ==> entries' == entries)
        && (!setFails ==> key in entries' && entries'[key].TimelinePayload?
                          && IsFirstOf(entries'[key].items, rows, 200) && entries' - {key} == entries - {key})
  {
  }

  /** The two deletes take away these two entries, as far as they work, and no other. */
  lemma DeletesOutcome(entries: map<string, Payload>, id: string, timelineDelFails: bool, orderDelFails: bool)
    ensures
      var entries' := AfterDeletes(entries, id, timelineDelFails, orderDelFails);
      forall key ::
        && (key in entries' <==>
              && key in entries
              && (key == "timeline:" + id ==> timelineDelFails) && (key == "order:" + id ==> orderDelFails))
        && (key in entries' ==> entries'[key] == entries[key])
  {
  }

  /** No source means the system; otherwise its name counts. */
  lemma SourceOutcome(raw: string)
    ensures TrimSpace(raw) == "" ==> SourceOf(raw) == Success(System)
    ensures TrimSpace(raw) != "" ==> SourceOf(raw) == NormalizeStatusSource(raw)
  {
    TrimTwice(raw);
  }

  /** Every cached order is the database row, under the spelling the database uses. */
  ghost predicate OrdersCoherent(db: Db, entries: map<string, Payload>) {
    forall id: string {:trigger OrderKey(id)} :: OrderKey(id) in entries ==>
      OrderId(id) in db.orders && entries[OrderKey(id)] == OrderPayload(ViewOf(OrderId(id), db.orders[OrderId(id)]))
  }

  /** Every cached timeline is what the repository would answer for the spelling it is cached under. */
  ghost predicate TimelinesCoherent(db: Db, entries: map<string, Payload>) {
    forall id: string {:trigger TimelineKey(id)} :: TimelineKey(id) in entries ==>
      TimelineAnswer(db, Canonical(id), MAX_TIMELINE_LIMIT).Success? &&
      entries[TimelineKey(id)] == TimelinePayload(TimelineAnswer(db, Canonical(id), MAX_TIMELINE_LIMIT).value)
  }

  /** The database writes UUIDs in lower case. */
  ghost predicate CanonicalIds(db: Db) {
    forall id :: id in db.orders ==> Lower(id.text) == id.text
  }

  ghost predicate TimelineCached(entries: map<string, Payload>, id: OrderId) {
    exists spelled: string {:trigger TimelineKey(spelled)} ::
      Canonical(spelled) == id && TimelineKey(spelled) in entries
  }

  /** Through the cache: fetch up to 200 rows, slice to the limit; the same as asking for the limit at once. */
  lemma SliceOfFetch(db: Db, id: OrderId, limit: int)
    ensures
      var n := NormalizeLimit(limit);
      var full := TimelineAnswer(db, id, MAX_TIMELINE_LIMIT);
      TimelineAnswer(db, id, n) ==
        match full { case Success(items) => Success(SliceTimeline(items, n)) case Failure(e) => Failure(e) }
  {
    var t, n := Timeline(db, id), NormalizeLimit(limit);
    if |t| > MAX_TIMELINE_LIMIT {
      assert t[..MAX_TIMELINE_LIMIT][..n] == t[..n];
    }
  }

  lemma AfterRemoval(db: Db, entries: map<string, Payload>, keys: set<string>)
    ensures OrdersCoherent(db, entries) ==> OrdersCoherent(db, entries - keys)
    ensures TimelinesCoherent(db, entries) ==> TimelinesCoherent(db, entries - keys)
  {
  }

  lemma AfterOrderSet(db: Db, entries: map<string, Payload>, id: OrderId)
    requires id in db.orders
    ensures
      var entries' := entries[OrderKey(id.text) := OrderPayload(ViewOf(id, db.orders[id]))];
      && (OrdersCoherent(db, entries - {OrderKey(id.text)}) ==> OrdersCoherent(db, entries'))
      && (TimelinesCoherent(db, entries) ==> TimelinesCoherent(db, entries'))
  {
    var entries' := entries[OrderKey(id.text) := OrderPayload(ViewOf(id, db.orders[id]))];
    forall k: string ensures OrderKey(k) != OrderKey(id.text) || k == id.text {
      KeysDistinct(k, id.text);
    }
    forall k: string ensures TimelineKey(k) != OrderKey(id.text) {
      KeysDistinct(id.text, k);
    }
  }

  lemma AfterTimelineSet(db: Db, entries: map<string, Payload>, spelled: string, items: seq<HistoryRow>)
    requires TimelineAnswer(db, Canonical(spelled), MAX_TIMELINE_LIMIT) == Success(items)
    ensures
      var entries' := entries[TimelineKey(spelled) := TimelinePayload(items)];
      && (OrdersCoherent(db, entries) ==> OrdersCoherent(db, entries'))
      && (TimelinesCoherent(db, entries) ==> TimelinesCoherent(db, entries'))
  {
    forall k: string ensures TimelineKey(k) != TimelineKey(spelled) || k == spelled {
      KeysDistinct(k, spelled);
    }
    forall k: string ensures OrderKey(k) != TimelineKey(spelled) {
      KeysDistinct(k, spelled);
    }
  }

  /** A status change leaves exactly the entries of its own order stale. */
  lemma MoveCoherence(db: Db, db': Db, row: HistoryRow, entries: map<string, Payload>)
    requires Inv(db) && Moves(db, db', row)
    ensures OrdersCoherent(db, entries) ==> (OrdersCoherent(db', entries) <==> OrderKey(row.order.text) !in entries)
    ensures TimelinesCoherent(db, entries) ==>
      (TimelinesCoherent(db', entries) <==> !TimelineCached(entries, row.order))
  {
    MoveTimelines(db, db', row);
    if OrdersCoherent(db, entries) && OrderKey(row.order.text) !in entries {
      forall id: string | OrderKey(id) in entries ensures id != row.order.text {
      }
    }
    if TimelinesCoherent(db, entries) && TimelineCached(entries, row.order) {
      var spelled: string :| Canonical(spelled) == row.order && TimelineKey(spelled) in entries;
      assert entries[TimelineKey(spelled)] ==
        TimelinePayload(TimelineAnswer(db, Canonical(spelled), MAX_TIMELINE_LIMIT).value);
    }
    if TimelinesCoherent(db, entries) && !TimelineCached(entries, row.order) {
      forall id: string | TimelineKey(id) in entries ensures Canonical(id) != row.order {
      }
    }
  }

  lemma MoveTimelines(db: Db, db': Db, row: HistoryRow)
    requires Inv(db) && Moves(db, db', row)
    ensures forall id :: id != row.order ==>
      TimelineAnswer(db', id, MAX_TIMELINE_LIMIT) == TimelineAnswer(db, id, MAX_TIMELINE_LIMIT)
    ensures TimelineAnswer(db', row.order, MAX_TIMELINE_LIMIT).Success?
    ensures TimelineAnswer(db', row.order, MAX_TIMELINE_LIMIT) != TimelineAnswer(db, row.order, MAX_TIMELINE_LIMIT)
  {
    forall id: OrderId | id != row.order
      ensures TimelineAnswer(db', id, MAX_TIMELINE_LIMIT) == TimelineAnswer(db, id, MAX_TIMELINE_LIMIT)
    {
      RowsAppend(db.history, row, id);
    }
    RowsAppend(db.history, row, row.order);
    HistoryIsShortAndSimple(db, row.order);
    SortIsAnswer(Rows(db.history, row.order));
    SortIsAnswer(Rows(db'.history, row.order));
  }

  /** Creating an order makes no entry stale. */
  lemma CreateCoherence(db: Db, db': Db, op: Op, entries: map<string, Payload>)
    requires Inv(db) && op.Create? && Execute(db, op) == Success(db')
    ensures OrdersCoherent(db, entries) ==> OrdersCoherent(db', entries)
    ensures TimelinesCoherent(db, entries) ==> TimelinesCoherent(db', entries)
  {
  }

  lemma RivalsKeepInv(db: Db, rivals: seq<Op>)
    ensures Inv(db) ==> Inv(Replay(db, rivals))
  {
    if Inv(db) { ReplayPreserves(db, rivals); }
  }

  lemma NewOrderKeepsAll(db: Db, db': Db, op: Op, entries: map<string, Payload>)
    requires op.Create? && Execute(db, op) == Success(db')
    ensures Inv(db) ==> Inv(db')
    ensures Inv(db) && OrdersCoherent(db, entries) ==> OrdersCoherent(db', entries)
    ensures Inv(db) && TimelinesCoherent(db, entries) ==> TimelinesCoherent(db', entries)
  {
    if Inv(db) {
      AfterPreserves(db, op);
      CreateCoherence(db, db', op, entries);
    }
  }

  /** Caching a row that is current keeps both caches coherent. */
  lemma CacheCoherence(db: Db, entries: map<string, Payload>, order: OrderView, fails: bool)
    requires OrderAnswer(db, order.id) == Success(order)
    ensures OrdersCoherent(db, entries) ==> OrdersCoherent(db, Cached(entries, order, fails))
    ensures TimelinesCoherent(db, entries) ==> TimelinesCoherent(db, Cached(entries, order, fails))
  {
    AfterRemoval(db, entries, {OrderKey(order.id.text)});
    AfterOrderSet(db, entries, order.id);
  }

  lemma SameTimelines(db: Db, entries: map<string, Payload>, entries': map<string, Payload>, id: string)
    requires entries' - {OrderKey(id)} == entries - {OrderKey(id)}
    ensures TimelinesCoherent(db, entries) <==> TimelinesCoherent(db, entries')
  {
    forall k: string
      ensures TimelineKey(k) in entries <==> TimelineKey(k) in entries'
      ensures TimelineKey(k) in entries ==> entries[TimelineKey(k)] == entries'[TimelineKey(k)]
    {
      KeysDistinct(id, k);
      assert TimelineKey(k) in entries <==> TimelineKey(k) in entries - {OrderKey(id)};
      assert TimelineKey(k) in entries' <==> TimelineKey(k) in entries' - {OrderKey(id)};
      assert TimelineKey(k) in entries ==>
        entries[TimelineKey(k)] == (entries - {OrderKey(id)})[TimelineKey(k)]
        == (entries' - {OrderKey(id)})[TimelineKey(k)];
    }
  }

  /**
   After a status update the order cache is coherent exactly if the update was addressed in the database's
   spelling and the delete succeeded, or there was nothing to delete.
   */
  lemma OrdersCoherentAfterUpdateIff(db: Db, db': Db, op: Op, id: string, entries: map<string, Payload>,
                                     timelineDelFails: bool, orderDelFails: bool)
    requires op.Update? && op.id == Canonical(id) && Execute(db, op) == Success(db')
    requires Inv(db) && OrdersCoherent(db, entries)
    ensures
      OrdersCoherent(db', AfterDeletes(entries, id, timelineDelFails, orderDelFails)) <==>
        (Lower(id) == id && !orderDelFails) || OrderKey(Lower(id)) !in entries
  {
    var kept := entries - Deleted(TimelineKey(id), timelineDelFails);
    var entries' := AfterDeletes(entries, id, timelineDelFails, orderDelFails);
    AfterRemoval(db, entries, Deleted(TimelineKey(id), timelineDelFails));
    AfterRemoval(db, kept, Deleted(OrderKey(id), orderDelFails));
    UpdateMoves(db, db', op);
    MoveCoherence(db, db', UpdateRow(op), entries');
    KeysDistinct(Lower(id), id);
  }

  /** The timeline cache stays coherent exactly if no entry of the order under any spelling survives. */
  lemma TimelinesCoherentAfterUpdateIff(db: Db, db': Db, op: Op, id: string, entries: map<string, Payload>,
                                        timelineDelFails: bool, orderDelFails: bool)
    requires op.Update? && op.id == Canonical(id) && Execute(db, op) == Success(db')
    requires Inv(db) && TimelinesCoherent(db, entries)
    ensures
      TimelinesCoherent(db', AfterDeletes(entries, id, timelineDelFails, orderDelFails)) <==>
        forall spelled: string {:trigger TimelineKey(spelled)} ::
          Canonical(spelled) == op.id && TimelineKey(spelled) in entries ==> spelled == id && !timelineDelFails
  {
    var kept := entries - Deleted(TimelineKey(id), timelineDelFails);
    var entries' := AfterDeletes(entries, id, timelineDelFails, orderDelFails);
    AfterRemoval(db, entries, Deleted(TimelineKey(id), timelineDelFails));
    AfterRemoval(db, kept, Deleted(OrderKey(id), orderDelFails));
    UpdateMoves(db, db', op);
    MoveCoherence(db, db', UpdateRow(op), entries');
    forall spelled: string
      ensures TimelineKey(spelled) in entries' <==>
        TimelineKey(spelled) in entries && !(spelled == id && !timelineDelFails)
    {
      KeysDistinct(spelled, id);
      KeysDistinct(id, spelled);
    }
  }

  /** `AssignOrder` keeps the order cache coherent exactly if its set succeeds or there was no entry. */
  lemma OrdersCoherentAfterAssignIff(db: Db, db': Db, op: Op, entries: map<string, Payload>, setFails: bool)
    requires op.Assign? && op.id.text != "" && Execute(db, op) == Success(db')
    requires Inv(db) && OrdersCoherent(db, entries)
    ensures
      OrdersCoherent(db', Cached(entries, ViewOf(op.id, db'.orders[op.id]), setFails)) <==>
        !setFails || OrderKey(op.id.text) !in entries
  {
    AssignMoves(db, db', op);
    if setFails {
      MoveCoherence(db, db', AssignedRow(op), entries);
    } else {
      var rest := entries - {OrderKey(op.id.text)};
      AfterRemoval(db, entries, {OrderKey(op.id.text)});
      MoveCoherence(db, db', AssignedRow(op), rest);
      AfterOrderSet(db', entries, op.id);
    }
  }

  /** `AssignOrder` leaves every cached timeline of its order stale, and no other. */
  lemma TimelinesCoherentAfterAssignIff(db: Db, db': Db, op: Op, entries: map<string, Payload>, setFails: bool)
    requires op.Assign? && op.id.text != "" && Execute(db, op) == Success(db')
    requires Inv(db) && TimelinesCoherent(db, entries)
    ensures
      TimelinesCoherent(db', Cached(entries, ViewOf(op.id, db'.orders[op.id]), setFails)) <==>
        !TimelineCached(entries, op.id)
  {
    AssignMoves(db, db', op);
    MoveCoherence(db, db', AssignedRow(op), entries);
    SameTimelines(db', entries, Cached(entries, ViewOf(op.id, db'.orders[op.id]), setFails), op.id.text);
  }

  /** With a coherent cache, a read answers what the repository would answer, hit or miss, and stays coherent. */
  lemma OrderReadIsExact(db: Db, entries: map<string, Payload>, id: string,
                         getFails: bool, setFails: bool, faultAt: nat)
    requires OrdersCoherent(db, entries) && CanonicalIds(db)
    ensures
      var (r, entries') := OrderRead(db, entries, id, getFails, setFails, faultAt);
      && (r == ToService(OrderAnswer(db, Canonical(id))) || (faultAt == 0 && r == Failure(Rejected(Driver))))
      && OrdersCoherent(db, entries')
  {
    if OrderHit(entries, id, getFails).None? && OrderAnswer(db, Canonical(id)).Success? {
      CacheCoherence(db, entries, OrderAnswer(db, Canonical(id)).value, setFails);
    }
  }

  /** The same for timelines and every requested limit. */
  lemma TimelineReadIsExact(db: Db, entries: map<string, Payload>, id: string, limit: int,
                            getFails: bool, setFails: bool, faultAt: nat)
    requires TimelinesCoherent(db, entries)
    ensures
      var (r, entries') := TimelineRead(db, entries, id, limit, getFails, setFails, faultAt);
      && (r == ToService(TimelineAnswer(db, Canonical(id), NormalizeLimit(limit)))
          || (faultAt < 2 && r == Failure(Rejected(Driver))))
      && TimelinesCoherent(db, entries')
  {
    SliceOfFetch(db, Canonical(id), limit);
    var fetched := TimelineQuery(db, Canonical(id), MAX_TIMELINE_LIMIT, faultAt);
    if TimelineHit(entries, id, getFails).None? && fetched.Success? {
      AfterTimelineSet(db, entries, id, fetched.value);
    }
  }

  /**
   A read that misses and can store its row serves every later read in the same spelling exactly if that is the
   database's spelling; another spelling goes to the database each time.
   */
  lemma OrderReadFillsCacheIff(db: Db, entries: map<string, Payload>, id: string)
    requires id != "" && OrderHit(entries, id, false).None? && Canonical(id) in db.orders
    ensures OrderHit(OrderRead(db, entries, id, false, false, 1).1, id, false).Some? <==> Lower(id) == id
    ensures Lower(id) == id ==>
      OrderRead(db, OrderRead(db, entries, id, false, false, 1).1, id, false, true, 0).0
        == OrderRead(db, entries, id, false, false, 1).0
  {
    KeysDistinct(Lower(id), id);
  }

  /** A read of a timeline serves every later one in the same spelling, with any limit and without the database. */
  lemma TimelineReadFillsCache(db: Db, entries: map<string, Payload>, id: string, limit: int, later: int)
    requires TimelineHit(entries, id, false).None? && Canonical(id) in db.orders
    ensures
      TimelineRead(db, TimelineRead(db, entries, id, limit, false, false, 2).1, id, later, false, true, 0).0
        == ToService(TimelineAnswer(db, Canonical(id), NormalizeLimit(later)))
  {
    SliceOfFetch(db, Canonical(id), later);
  }

  /** Reading one kind of entry leaves the other kind coherent. */
  lemma ReadsDoNotInterfere(db: Db, entries: map<string, Payload>, id: string, limit: int,
                            getFails: bool, setFails: bool, faultAt: nat)
    ensures OrdersCoherent(db, entries) ==>
      OrdersCoherent(db, TimelineRead(db, entries, id, limit, getFails, setFails, faultAt).1)
    ensures TimelinesCoherent(db, entries) ==>
      TimelinesCoherent(db, OrderRead(db, entries, id, getFails, setFails, faultAt).1)
  {
    var fetched := TimelineQuery(db, Canonical(id), MAX_TIMELINE_LIMIT, faultAt);
    if fetched.Success? {
      AfterTimelineSet(db, entries, id, fetched.value);
    }
    if OrderAnswer(db, Canonical(id)).Success? {
      CacheCoherence(db, entries, OrderAnswer(db, Canonical(id)).value, setFails);
    }
  }

  class TrackingService {
    const repo: TrackingRepository
    const cache: Redis
    /** The rows passed to `NotifyStatusChanged`, in order. */
    var notified: seq<HistoryRow>

    constructor (repo: TrackingRepository, cache: Redis)
      ensures this.repo == repo && this.cache == cache && notified == []
    {
      this.repo, this.cache, notified := repo, cache, [];
    }

    method GetOrderTimeline(orderId: string, limit: int, getFails: bool, setFails: bool, faultAt: nat)
      returns (r: Result<seq<HistoryRow>, ServiceError>)
      modifies cache
      ensures !IsUuid(TrimSpace(orderId)) ==> r == Failure(InvalidInput) && cache.entries == old(cache.entries)
      ensures IsUuid(TrimSpace(orderId)) ==>
        (r, cache.entries) == TimelineRead(repo.db.rows, old(cache.entries), TrimSpace(orderId), limit,
                                           getFails, setFails, faultAt)
    {
      var id := TrimSpace(orderId);
      if id == "" || !IsUuid(id) { return Failure(InvalidInput); }
      var n := NormalizeLimit(limit);
      var cached := cache.Get(TimelineKey(id), getFails);
      if cached.Some? && cached.value.TimelinePayload? {
        return Success(SliceTimeline(cached.value.items, n));
      }
      var fetched := repo.GetOrderTimeline(Canonical(id), MAX_TIMELINE_LIMIT, faultAt);
      if fetched.Failure? { return Failure(Rejected(fetched.error)); }
      cache.Set(TimelineKey(id), TimelinePayload(fetched.value), setFails);
      r := Success(SliceTimeline(fetched.value, n));
    }

    /** The call after its inputs have been checked and normalised. */
    method ChangeStatus(id: string, status: Status, source: Source, comment: string, metadata: Metadata, now: nat,
                        timelineDelFails: bool, orderDelFails: bool, faultAt: nat)
      returns (r: Result<HistoryRow, ServiceError>)
      modifies this, cache, repo.db
      ensures
        var op := Update(Canonical(id), status, source, comment, metadata, now);
        match r
        case Success(row) =>
          && faultAt >= 5 && Execute(old(repo.db.rows), op) == Success(repo.db.rows) && row == UpdateRow(op)
          && notified == old(notified) + [row]
          && cache.entries == AfterDeletes(old(cache.entries), id, timelineDelFails, orderDelFails)
        case Failure(e) =>
          && repo.db.rows == old(repo.db.rows) && cache.entries == old(cache.entries) && notified == old(notified)
          && e.Rejected? && (Execute(old(repo.db.rows), op) == Failure(e.cause) || (e.cause == Driver && faultAt < 5))
    {
      var changed := repo.UpdateOrderStatus(Canonical(id), status, source, comment, metadata, now, faultAt);
      if changed.Failure? { return Failure(Rejected(changed.error)); }
      cache.Del(TimelineKey(id), timelineDelFails);
      SameOrderKey(id);
      cache.Del(InvalidatedOrderKey(id), orderDelFails);
      notified := notified + [changed.value];
      r := Success(changed.value);
    }

    method UpdateOrderStatus(orderId: string, rawStatus: string, rawSource: string, rawComment: string,
                             metadata: Metadata, now: nat, timelineDelFails: bool, orderDelFails: bool, faultAt: nat)
      returns (r: Result<HistoryRow, ServiceError>)
      modifies this, cache, repo.db
      ensures r.Failure? ==>
        repo.db.rows == old(repo.db.rows) && cache.entries == old(cache.entries) && notified == old(notified)
      ensures
        var id, status, source := TrimSpace(orderId), NormalizeStatus(rawStatus), SourceOf(rawSource);
        if !IsUuid(id) || status.Failure? || source.Failure? then r == Failure(InvalidInput)
        else
          var op := Update(Canonical(id), status.value, source.value, TrimSpace(rawComment), metadata, now);
          match r
          case Success(row) =>
            && faultAt >= 5 && Execute(old(repo.db.rows), op) == Success(repo.db.rows) && row == UpdateRow(op)
            && notified == old(notified) + [row]
            && cache.entries == AfterDeletes(old(cache.entries), id, timelineDelFails, orderDelFails)
          case Failure(e) =>
            e.Rejected? && (Execute(old(repo.db.rows), op) == Failure(e.cause) || (e.cause == Driver && faultAt < 5))
    {
      var id := TrimSpace(orderId);
      if id == "" || !IsUuid(id) { return Failure(InvalidInput); }
      var next := NormalizeStatus(rawStatus);
      if next.Failure? { return Failure(InvalidInput); }
      var source := SourceOf(rawSource);
      if source.Failure? { return Failure(InvalidInput); }
      var comment := TrimSpace(rawComment);
      r := ChangeStatus(id, next.value, source.value, comment, metadata, now,
                        timelineDelFails, orderDelFails, faultAt);
    }
  }

  /** Why a creation with checked input fails: a fault of the driver or a generated id that is taken. */
  predicate CreateFails(error: Error, db: Db, rivals: seq<Op>, key: string, id: OrderId, pickup: nat, dropoff: nat,
                        lookupFaultAt: nat, createFaultAt: nat, secondFaultAt: nat)
  {
    var later := Replay(db, rivals);
    && error == Driver
    && (lookupFaultAt == 0 || createFaultAt < 5 || secondFaultAt == 0 || id in later.orders
        || pickup == dropoff || pickup in later.addresses || dropoff in later.addresses)
    && (HasKey(db, key) ==> lookupFaultAt == 0)
  }

  /** Who has created the order that a creation answers with, and the rows after the call. */
  predicate CreateAnswers(db: Db, db': Db, rivals: seq<Op>, key: string, created: bool, op: Op)
    requires op.Create?
  {
    if HasKey(db, key) then !created && db' == db
    else if HasKey(Replay(db, rivals), key) then !created && db' == Replay(db, rivals)
    else created && Execute(Replay(db, rivals), op) == Success(db')
  }

  class OrderService {
    const repo: OrderRepository
    const cache: Redis

    constructor (repo: OrderRepository, cache: Redis)
      ensures this.repo == repo && this.cache == cache
    {
      this.repo, this.cache := repo, cache;
    }

    method CacheOrder(order: OrderView, fails: bool)
      modifies cache
      ensures cache.entries == Cached(old(cache.entries), order, fails)
    {
      if order.id.text != "" {
        cache.Set(OrderKey(order.id.text), OrderPayload(order), fails);
      }
    }

    method GetOrderByID(orderId: string, getFails: bool, setFails: bool, faultAt: nat)
      returns (r: Result<OrderView, ServiceError>)
      modifies cache
      ensures !IsUuid(TrimSpace(orderId)) ==> r == Failure(InvalidInput) && cache.entries == old(cache.entries)
      ensures IsUuid(TrimSpace(orderId)) ==>
        (r, cache.entries) ==
          OrderRead(repo.db.rows, old(cache.entries), TrimSpace(orderId), getFails, setFails, faultAt)
    {
      var id := TrimSpace(orderId);
      if id == "" || !IsUuid(id) { return Failure(InvalidInput); }
      var cached := cache.Get(OrderKey(id), getFails);
      if cached.Some? && cached.value.OrderPayload? && cached.value.order.id.text != "" {
        return Success(cached.value.order);
      }
      var found := repo.GetOrderByID(Canonical(id), faultAt);
      if found.Failure? { return Failure(Rejected(found.error)); }
      CacheOrder(found.value, setFails);
      r := Success(found.value);
    }

    method AssignOrder(orderId: string, courierId: string, active: bool, rawAssignedBy: string, rawComment: string,
                       now: nat, setFails: bool, faultAt: nat)
      returns (r: Result<OrderView, ServiceError>)
      modifies cache, repo.db
      ensures r.Failure? ==> repo.db.rows == old(repo.db.rows) && cache.entries == old(cache.entries)
      ensures
        var id, courier := TrimSpace(orderId), TrimSpace(courierId);
        if !IsUuid(id) || !IsUuid(courier) then r == Failure(InvalidInput)
        else
          var op := Assign(Canonical(id), Lower(courier), active, TrimSpace(rawAssignedBy), TrimSpace(rawComment), now);
          match r
          case Success(order) =>
            && faultAt >= 7 && Execute(old(repo.db.rows), op) == Success(repo.db.rows)
            && OrderAnswer(repo.db.rows, op.id) == Success(order)
            && cache.entries == Cached(old(cache.entries), order, setFails)
          case Failure(e) =>
            e.Rejected? && (Execute(old(repo.db.rows), op) == Failure(e.cause) || (e.cause == Driver && faultAt < 7))
    {
      var id := TrimSpace(orderId);
      if id == "" || !IsUuid(id) { return Failure(InvalidInput); }
      var courier := TrimSpace(courierId);
      if courier == "" || !IsUuid(courier) { return Failure(InvalidInput); }
      var assignedBy, comment := TrimSpace(rawAssignedBy), TrimSpace(rawComment);
      var done := repo.AssignOrder(Canonical(id), Lower(courier), active, assignedBy, comment, now, faultAt);
      if done.Failure? { return Failure(Rejected(done.error)); }
      CacheOrder(done.value, setFails);
      r := Success(done.value);
    }

    /**
     The call after its inputs have been checked and normalised. `rivals` are the transactions of other clients that
     commit between the lookup and the insert.
     */
    method CreateChecked(key: string, input: CreateOrderInput, id: OrderId, pickup: nat, dropoff: nat, now: nat,
                         rivals: seq<Op>,
                         lookupFaultAt: nat, createFaultAt: nat, secondFaultAt: nat, setFails: bool)
      returns (r: Result<(OrderView, bool), Error>)
      modifies cache, repo.db
      ensures r.Failure? ==>
        && CreateFails(r.error, old(repo.db.rows), rivals, key, id, pickup, dropoff,
                       lookupFaultAt, createFaultAt, secondFaultAt)
        && cache.entries == old(cache.entries) && repo.db.rows in {old(repo.db.rows), Replay(old(repo.db.rows), rivals)}
      ensures old(Inv(repo.db.rows)) ==> Inv(repo.db.rows)
      ensures r.Success? ==>
        && lookupFaultAt > 0
        && OrderAnswer(repo.db.rows, r.value.0.id) == Success(r.value.0)
        && repo.db.rows.orders[r.value.0.id].key == key
        && cache.entries == Cached(old(cache.entries), r.value.0, setFails)
        && CreateAnswers(old(repo.db.rows), repo.db.rows, rivals, key, r.value.1,
                         Create(id, key, input, pickup, dropoff, now))
      ensures rivals == [] && old(Inv(repo.db.rows)) ==>
        && (old(OrdersCoherent(repo.db.rows, cache.entries)) ==> OrdersCoherent(repo.db.rows, cache.entries))
        && (old(TimelinesCoherent(repo.db.rows, cache.entries)) ==> TimelinesCoherent(repo.db.rows, cache.entries))
    {
      var existing := repo.GetOrderByIdempotencyKey(key, lookupFaultAt);
      if existing.Success? {
        CacheCoherence(repo.db.rows, cache.entries, existing.value, setFails);
        CacheOrder(existing.value, setFails);
        return Success((existing.value, false));
      }
      if existing.error != OrderNotFound { return Failure(existing.error); }
      repo.db.Others(rivals);
      RivalsKeepInv(old(repo.db.rows), rivals);
      label inserting:
      var made := repo.CreateOrder(id, key, input, pickup, dropoff, now, createFaultAt);
      if made.Success? {
        ghost var op := Create(id, key, input, pickup, dropoff, now);
        NewOrderKeepsAll(old@inserting(repo.db.rows), repo.db.rows, op, cache.entries);
        CacheCoherence(repo.db.rows, cache.entries, made.value, setFails);
        CacheOrder(made.value, setFails);
        return Success((made.value, true));
      }
      if made.error != DuplicateIdempotency { return Failure(made.error); }
      existing := repo.GetOrderByIdempotencyKey(key, secondFaultAt);
      if existing.Failure? { return Failure(existing.error); }
      CacheCoherence(repo.db.rows, cache.entries, existing.value, setFails);
      CacheOrder(existing.value, setFails);
      r := Success((existing.value, false));
    }

    method CreateOrder(rawKey: string, raw: CreateOrderInput, id: OrderId, pickup: nat, dropoff: nat, now: nat,
                       rivals: seq<Op>,
                       lookupFaultAt: nat, createFaultAt: nat, secondFaultAt: nat, setFails: bool)
      returns (r: Result<(OrderView, bool), ServiceError>)
      modifies cache, repo.db
      ensures
        var key, normalized := TrimSpace(rawKey), NormalizeCreateInput(raw);
        if key == "" || normalized.None? then
          r == Failure(InvalidInput) && repo.db.rows == old(repo.db.rows) && cache.entries == old(cache.entries)
        else
          match r
          case Success((order, created)) =>
            && lookupFaultAt > 0
            && OrderAnswer(repo.db.rows, order.id) == Success(order)
            && repo.db.rows.orders[order.id].key == key
            && cache.entries == Cached(old(cache.entries), order, setFails)
            && CreateAnswers(old(repo.db.rows), repo.db.rows, rivals, key, created,
                             Create(id, key, normalized.value, pickup, dropoff, now))
          case Failure(e) =>
            && e.Rejected?
            && CreateFails(e.cause, old(repo.db.rows), rivals, key, id, pickup, dropoff,
                           lookupFaultAt, createFaultAt, secondFaultAt)
            && cache.entries == old(cache.entries)
            && repo.db.rows in {old(repo.db.rows), Replay(old(repo.db.rows), rivals)}
      ensures old(Inv(repo.db.rows)) ==> Inv(repo.db.rows)
      ensures rivals == [] && old(Inv(repo.db.rows)) ==>
        && (old(OrdersCoherent(repo.db.rows, cache.entries)) ==> OrdersCoherent(repo.db.rows, cache.entries))
        && (old(TimelinesCoherent(repo.db.rows, cache.entries)) ==> TimelinesCoherent(repo.db.rows, cache.entries))
    {
      var key := TrimSpace(rawKey);
      if key == "" { return Failure(InvalidInput); }
      var normalized := NormalizeCreateInput(raw);
      if normalized.None? { return Failure(InvalidInput); }
      var done := CreateChecked(key, normalized.value, id, pickup, dropoff, now, rivals,
                                lookupFaultAt, createFaultAt, secondFaultAt, setFails);
      r := ToService(done);
    }
  }
}
