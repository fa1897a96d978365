/**
 The two read-through caches in time: `order:` and `timeline:` entries of one Redis, with expiry.

 Readers query the database and set the cache later, if the set succeeds at all; writers commit and delete the
 entries later, if they delete them at all (`AssignOrder` never deletes `timeline:`). A row that a service caches
 after its own commit is a query made at the instant of that commit.
 */
module Staleness {
  import opened Numbers
  import opened Outcomes
  import opened Lifecycle
  import opened Store
  import opened Timelines
  import opened Repositories
  import Services

  datatype Key = OrderKey(id: string) | TimelineKey(id: string)

  datatype Value = OrderValue(order: Order) | TimelineValue(items: seq<HistoryRow>)

  datatype Ttl = Ttl(order: nat, timeline: nat)

  datatype Entry = Entry(value: Value, setAt: nat)

  datatype Held = Held(key: Key, value: Value, at: nat)

  datatype Snapshot = Snapshot(at: nat, db: Db)

  /** `log` has every version of the database with the time it was committed, `gap` the longest wait for a set. */
  datatype State = State(db: Db, now: nat, log: seq<Snapshot>, redis: map<Key, Entry>, held: map<nat, Held>, gap: nat)

  datatype Event =
    | Pass(time: nat)
    | Write(op: Op)
    | Query(reader: nat, key: Key)
    | Set(reader: nat)
    | SetFails(reader: nat)
    | Delete(key: Key)

  function Lifespan(ttl: Ttl, key: Key): nat {
    if key.OrderKey? then ttl.order else ttl.timeline
  }

  /** What the repository answers for the key. */
  function View(db: Db, key: Key): Option<Value> {
    var id := Canonical(key.id);
    if id !in db.orders then None
    else if key.OrderKey? then Some(OrderValue(db.orders[id]))
    else Some(TimelineValue(Take(Timeline(db, id), MAX_TIMELINE_LIMIT)))
  }

  /** What a cache read finds. */
  function Serve(ttl: Ttl, s: State, key: Key): Option<Value> {
    if key in s.redis && s.now < s.redis[key].setAt + Lifespan(ttl, key) then Some(s.redis[key].value) else None
  }

  function Init(db: Db, now: nat): State {
    State(db, now, [Snapshot(now, db)], map[], map[], 0)
  }

  function Step(s: State, e: Event): State {
    match e
    case Pass(time) => s.(now := s.now + time)
    case Write(op) => s.(db := After(s.db, op), log := s.log + [Snapshot(s.now, After(s.db, op))])
    case Query(reader, key) =>
      (match View(s.db, key)
       case None => s
       case Some(value) => s.(held := s.held[reader := Held(key, value, s.now)]))
    case Set(reader) =>
      if reader !in s.held then s
      else
        var h := s.held[reader];
        s.(redis := s.redis[h.key := Entry(h.value, s.now)], held := s.held - {reader},
           gap := if h.at <= s.now then Max(s.gap, s.now - h.at) else s.gap)
    case SetFails(reader) => s.(held := s.held - {reader})
    case Delete(key) => s.(redis := s.redis - {key})
  }

  function Run(s: State, events: seq<Event>): State {
    if events == [] then s else Step(Run(s, events[..|events| - 1]), events[|events| - 1])
  }

  /** Version `i` was the committed database at time `q` and held `value` under `key`. */
  predicate VersionAt(s: State, i: nat, q: nat, key: Key, value: Value) {
    && i < |s.log|
    && s.log[i].at <= q <= (if i + 1 < |s.log| then s.log[i + 1].at else s.now)
    && View(s.log[i].db, key) == Some(value)
  }

  ghost predicate WasTrueAt(s: State, q: nat, key: Key, value: Value) {
    exists i {:trigger VersionAt(s, i, q, key, value)} :: VersionAt(s, i, q, key, value)
  }

  predicate LogInv(s: State) {
    |s.log| > 0 && s.log[|s.log| - 1].db == s.db && s.log[|s.log| - 1].at <= s.now
  }

  ghost predicate HeldInv(s: State, h: Held) {
    h.at <= s.now && WasTrueAt(s, h.at, h.key, h.value)
  }

  ghost predicate EntryInv(s: State, key: Key, e: Entry) {
    e.setAt <= s.now && exists q: nat {:trigger WasTrueAt(s, q, key, e.value)} ::
      e.setAt <= q + s.gap && q <= e.setAt && WasTrueAt(s, q, key, e.value)
  }

  ghost predicate CacheInv(s: State) {
    && LogInv(s)
    && (forall r {:trigger s.held[r]} :: r in s.held ==> HeldInv(s, s.held[r]))
    && (forall k {:trigger s.redis[k]} :: k in s.redis ==> EntryInv(s, k, s.redis[k]))
  }

  lemma StillTrue(s: State, s': State, q: nat, key: Key, value: Value)
    requires WasTrueAt(s, q, key, value) && q <= s.now <= s'.now
    requires s'.log == s.log || exists last: Snapshot :: s'.log == s.log + [last] && s.now <= last.at
    ensures WasTrueAt(s', q, key, value)
  {
    var i :| VersionAt(s, i, q, key, value);
    assert VersionAt(s', i, q, key, value);
  }

  lemma EntryStays(s: State, s': State, key: Key, e: Entry)
    requires EntryInv(s, key, e) && s.now <= s'.now && s.gap <= s'.gap
    requires s'.log == s.log || exists last: Snapshot :: s'.log == s.log + [last] && s.now <= last.at
    ensures EntryInv(s', key, e)
  {
    var q: nat :| e.setAt <= q + s.gap && q <= e.setAt && WasTrueAt(s, q, key, e.value);
    StillTrue(s, s', q, key, e.value);
  }

  predicate Grows(s: State, s': State) {
    && s.now <= s'.now && s.gap <= s'.gap
    && (s'.log == s.log || s'.log == s.log + [Snapshot(s.now, s'.db)])
  }

  lemma StepGrows(s: State, e: Event)
    requires LogInv(s)
    ensures Grows(s, Step(s, e)) && LogInv(Step(s, e))
  {
  }

  lemma HeldPreserved(s: State, e: Event, r: nat)
    requires CacheInv(s) && r in Step(s, e).held
    ensures HeldInv(Step(s, e), Step(s, e).held[r])
  {
    var s' := Step(s, e);
    var h := s'.held[r];
    StepGrows(s, e);
    if r in s.held && h == s.held[r] {
      StillTrue(s, s', h.at, h.key, h.value);
    } else {
      assert VersionAt(s', |s.log| - 1, s.now, h.key, h.value);
    }
  }

  lemma EntryPreserved(s: State, e: Event, k: Key)
    requires CacheInv(s) && k in Step(s, e).redis
    ensures EntryInv(Step(s, e), k, Step(s, e).redis[k])
  {
    var s' := Step(s, e);
    StepGrows(s, e);
    if e.Set? && e.reader in s.held && k == s.held[e.reader].key {
      var h := s.held[e.reader];
      assert HeldInv(s, h);
      StillTrue(s, s', h.at, h.key, h.value);
      assert s.now <= h.at + s'.gap;
    } else {
      EntryStays(s, s', k, s.redis[k]);
    }
  }

  lemma StepPreserves(s: State, e: Event)
    requires CacheInv(s)
    ensures CacheInv(Step(s, e))
  {
    var s' := Step(s, e);
    StepGrows(s, e);
    forall r | r in s'.held ensures HeldInv(s', s'.held[r]) {
      HeldPreserved(s, e, r);
    }
    forall k | k in s'.redis ensures EntryInv(s', k, s'.redis[k]) {
      EntryPreserved(s, e, k);
    }
  }

  lemma {:induction false} RunPreserves(db: Db, now: nat, events: seq<Event>)
    ensures CacheInv(Run(Init(db, now), events))
  {
    if events != [] {
      RunPreserves(db, now, events[..|events| - 1]);
      StepPreserves(Run(Init(db, now), events[..|events| - 1]), events[|events| - 1]);
    }
  }

  /**
   A cached answer is what the database held at some instant less than the entry's lifespan plus the longest
   query-to-set gap ago, whatever is written, deleted or lost in between.
   */
  lemma BoundedStaleness(ttl: Ttl, db: Db, now: nat, events: seq<Event>, key: Key) returns (q: nat)
    requires Serve(ttl, Run(Init(db, now), events), key).Some?
    ensures
      var s := Run(Init(db, now), events);
      && q <= s.now < q + Lifespan(ttl, key) + s.gap
      && WasTrueAt(s, q, key, Serve(ttl, s, key).value)
  {
    var s := Run(Init(db, now), events);
    RunPreserves(db, now, events);
    var e := s.redis[key];
    q :| e.setAt <= q + s.gap && q <= e.setAt && WasTrueAt(s, q, key, e.value);
  }

  /** What a reader gets, cut to its limit, is what the repository answered at that limit at such an instant. */
  lemma ServedSliceWasTheAnswer(ttl: Ttl, db: Db, now: nat, events: seq<Event>, id: string, limit: int)
    returns (q: nat, i: nat)
    requires Serve(ttl, Run(Init(db, now), events), TimelineKey(id)).Some?
    ensures
      var s := Run(Init(db, now), events);
      var n, served := Services.NormalizeLimit(limit), Serve(ttl, s, TimelineKey(id)).value;
      && q <= s.now < q + ttl.timeline + s.gap
      && VersionAt(s, i, q, TimelineKey(id), served)
      && served.TimelineValue?
      && Success(Services.SliceTimeline(served.items, n)) == TimelineAnswer(s.log[i].db, Canonical(id), n)
  {
    var s := Run(Init(db, now), events);
    q := BoundedStaleness(ttl, db, now, events, TimelineKey(id));
    i :| VersionAt(s, i, q, TimelineKey(id), Serve(ttl, s, TimelineKey(id)).value);
    Services.SliceOfFetch(s.log[i].db, Canonical(id), limit);
  }

  lemma RunSnoc(s: State, events: seq<Event>, e: Event)
    ensures Run(s, events + [e]) == Step(Run(s, events), e)
  {
    assert (events + [e])[..|events|] == events;
  }

  /**
   The bound cannot be improved: for any lifespan and gap, a change right after the query is missed until the
   last instant that the bound allows.
   */
  lemma StalenessBoundIsTight(ttl: Ttl, gap: nat, db: Db, now: nat, key: Key, op: Op) returns (events: seq<Event>)
    requires Lifespan(ttl, key) > 0 && View(db, key).Some? && View(After(db, op), key) != View(db, key)
    ensures
      var s := Run(Init(db, now), events);
      && s.gap == gap && s.db == After(db, op) && Serve(ttl, s, key) == View(db, key)
      && (forall q: nat :: WasTrueAt(s, q, key, View(db, key).value) ==> s.now == q + Lifespan(ttl, key) + gap - 1)
  {
    var s0 := Init(db, now);
    var e1, e2, e3, e4, e5 := Query(0, key), Write(op), Pass(gap), Set(0), Pass(Lifespan(ttl, key) - 1);
    events := [] + [e1] + [e2] + [e3] + [e4] + [e5];
    RunSnoc(s0, [], e1);
    RunSnoc(s0, [] + [e1], e2);
    RunSnoc(s0, [] + [e1] + [e2], e3);
    RunSnoc(s0, [] + [e1] + [e2] + [e3], e4);
    RunSnoc(s0, [] + [e1] + [e2] + [e3] + [e4], e5);
    var s := Run(s0, events);
    assert s.log == [Snapshot(now, db), Snapshot(now, After(db, op))];
  }

  lemma StepAdvances(s: State, e: Event, i: nat)
    requires i < |Step(s, e).log|
    requires i < |s.log| ==> Advances(s.log[i].db, s.db)
    ensures Advances(Step(s, e).log[i].db, Step(s, e).db)
  {
    if e.Write? && i < |s.log| {
      AfterAdvances(s.db, e.op);
      AdvancesTransitive(s.log[i].db, s.db, After(s.db, e.op));
    }
  }

  /** Every version of the database is an earlier stage of the current one. */
  lemma {:induction false} VersionsAdvance(db: Db, now: nat, events: seq<Event>, i: nat)
    requires i < |Run(Init(db, now), events).log|
    ensures Advances(Run(Init(db, now), events).log[i].db, Run(Init(db, now), events).db)
  {
    if events == [] {
      assert Init(db, now).log[i].db == db;
    } else {
      var front := events[..|events| - 1];
      var s := Run(Init(db, now), front);
      if i < |s.log| { VersionsAdvance(db, now, front, i); }
      StepAdvances(s, events[|events| - 1], i);
    }
  }

  lemma ServedVersion(ttl: Ttl, db: Db, now: nat, events: seq<Event>, key: Key) returns (past: Db)
    requires Serve(ttl, Run(Init(db, now), events), key).Some?
    ensures Advances(past, Run(Init(db, now), events).db)
    ensures View(past, key) == Serve(ttl, Run(Init(db, now), events), key)
  {
    var s := Run(Init(db, now), events);
    var q := BoundedStaleness(ttl, db, now, events, key);
    var i: nat :| VersionAt(s, i, q, key, Serve(ttl, s, key).value);
    past := s.log[i].db;
    VersionsAdvance(db, now, events, i);
  }

  /** When an order's transactions started in commit order, a stale timeline is a prefix of its current history. */
  lemma ServedTimelineIsPrefix(ttl: Ttl, db: Db, now: nat, events: seq<Event>, id: string)
    requires Serve(ttl, Run(Init(db, now), events), TimelineKey(id)).Some?
    requires SortedByTime(Rows(Run(Init(db, now), events).db.history, Canonical(id)))
    ensures Serve(ttl, Run(Init(db, now), events), TimelineKey(id)).value.TimelineValue?
    ensures Serve(ttl, Run(Init(db, now), events), TimelineKey(id)).value.items
            <= Rows(Run(Init(db, now), events).db.history, Canonical(id))
  {
    var current := Run(Init(db, now), events).db;
    var past := ServedVersion(ttl, db, now, events, TimelineKey(id));
    assert OrderAdvances(past, current, Canonical(id));
    SortOfSorted(Rows(past.history, Canonical(id)));
  }

  /** A stale order row is an earlier stage of the same order. */
  lemma ServedOrderIsEarlierStage(ttl: Ttl, db: Db, now: nat, events: seq<Event>, id: string)
    requires Serve(ttl, Run(Init(db, now), events), OrderKey(id)).Some?
    ensures
      var current := Run(Init(db, now), events).db;
      var served := Serve(ttl, Run(Init(db, now), events), OrderKey(id)).value;
      && served.OrderValue? && Canonical(id) in current.orders
      && Rank(served.order.status) <= Rank(current.orders[Canonical(id)].status)
      && current.orders[Canonical(id)].(status := served.order.status, updatedAt := served.order.updatedAt)
         == served.order
  {
    var current := Run(Init(db, now), events).db;
    var past := ServedVersion(ttl, db, now, events, OrderKey(id));
    assert OrderAdvances(past, current, Canonical(id));
  }
}
