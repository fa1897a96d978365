/**
 The caches over the interleaved database: calls of the two services run statement by statement, as in module
 Concurrency, while readers query, set and delete cache entries, as in module Staleness.
 */
module Interleavings {
  import opened Outcomes
  import opened Store
  import Concurrency
  import Guarantees
  import Staleness

  /** A step of the database machine, or a step of a reader or of a service on the cache. */
  datatype Event =
    | OnDatabase(step: Concurrency.Event)
    | Query(reader: nat, key: Staleness.Key)
    | Set(reader: nat)
    | SetFails(reader: nat)
    | Delete(key: Staleness.Key)

  function DatabaseSteps(events: seq<Event>): seq<Concurrency.Event> {
    if events == [] then []
    else
      DatabaseSteps(events[..|events| - 1]) +
        if events[|events| - 1].OnDatabase? then [events[|events| - 1].step] else []
  }

  /** The database machine, to which the caches mean nothing. */
  ghost function Database(events: seq<Event>): Concurrency.State {
    Concurrency.Run(Concurrency.START, DatabaseSteps(events))
  }

  /** What a step means for the caches: a commit changes the rows, a tick takes time, other statements do nothing. */
  ghost function ForCaches(s: Concurrency.State, e: Event): Option<Staleness.Event> {
    match e
    case OnDatabase(step) =>
      if step.Tick? then Some(Staleness.Pass(1))
      else if step.Commit? && Concurrency.Ready(s, step.t) then Some(Staleness.Write(s.txs[step.t].op))
      else None
    case Query(reader, key) => Some(Staleness.Query(reader, key))
    case Set(reader) => Some(Staleness.Set(reader))
    case SetFails(reader) => Some(Staleness.SetFails(reader))
    case Delete(key) => Some(Staleness.Delete(key))
  }

  ghost function CacheSteps(events: seq<Event>): seq<Staleness.Event> {
    if events == [] then []
    else
      var front := events[..|events| - 1];
      match ForCaches(Database(front), events[|events| - 1])
      case None => CacheSteps(front)
      case Some(step) => CacheSteps(front) + [step]
  }

  ghost function Caches(events: seq<Event>): Staleness.State {
    Staleness.Run(Staleness.Init(EMPTY, 0), CacheSteps(events))
  }

  lemma NextDatabase(events: seq<Event>)
    requires events != []
    ensures
      var front, e := events[..|events| - 1], events[|events| - 1];
      Database(events) == if e.OnDatabase? then Concurrency.Step(Database(front), e.step) else Database(front)
  {
    var front, e := events[..|events| - 1], events[|events| - 1];
    if e.OnDatabase? {
      assert DatabaseSteps(events)[..|DatabaseSteps(front)|] == DatabaseSteps(front);
    } else {
      assert DatabaseSteps(events) == DatabaseSteps(front);
    }
  }

  ghost function AfterStep(c: Staleness.State, step: Option<Staleness.Event>): Staleness.State {
    if step.Some? then Staleness.Step(c, step.value) else c
  }

  lemma NextCaches(events: seq<Event>)
    requires events != []
    ensures
      var front, e := events[..|events| - 1], events[|events| - 1];
      Caches(events) == AfterStep(Caches(front), ForCaches(Database(front), e))
  {
    var front, e := events[..|events| - 1], events[|events| - 1];
    if ForCaches(Database(front), e).Some? {
      Staleness.RunSnoc(Staleness.Init(EMPTY, 0), CacheSteps(front), ForCaches(Database(front), e).value);
    }
  }

  lemma OnlyTicksTakeTime(s: Concurrency.State, e: Concurrency.Event)
    requires !e.Tick?
    ensures Concurrency.Step(s, e).now == s.now
  {
  }

  /** What one step of the database machine means for its rows and its clock. */
  lemma DatabaseStep(s: Concurrency.State, step: Concurrency.Event)
    requires Concurrency.MachineInv(s)
    ensures
      var s' := Concurrency.Step(s, step);
      match ForCaches(s, OnDatabase(step))
      case None => s'.db == s.db && s'.now == s.now
      case Some(e) =>
        if e.Pass? then s'.db == s.db && s'.now == s.now + e.time
        else e.Write? && s'.db == After(s.db, e.op) && s'.now == s.now
  {
    Guarantees.CommittedByStep(s, step);
    if step.Commit? && Concurrency.Ready(s, step.t) {
      Guarantees.ReplayOne(s.db, s.txs[step.t].op);
    }
    if !step.Tick? { OnlyTicksTakeTime(s, step); }
  }

  lemma StepsAgree(d: Concurrency.State, c: Staleness.State, step: Concurrency.Event)
    requires Concurrency.MachineInv(d) && c.db == d.db && c.now == d.now
    ensures
      var d', c' := Concurrency.Step(d, step), AfterStep(c, ForCaches(d, OnDatabase(step)));
      c'.db == d'.db && c'.now == d'.now
  {
    DatabaseStep(d, step);
  }

  /** Time passes one by one, and a new version begins when the last one ends. */
  predicate Continues(c: Staleness.State, c': Staleness.State) {
    || (c'.log == c.log && c.now <= c'.now <= c.now + 1)
    || (c'.now == c.now && c'.log == c.log + [Staleness.Snapshot(c.now, c'.db)])
  }

  lemma CacheStepContinues(d: Concurrency.State, c: Staleness.State, e: Event)
    ensures Continues(c, AfterStep(c, ForCaches(d, e)))
    ensures !e.OnDatabase? ==> AfterStep(c, ForCaches(d, e)).db == c.db && AfterStep(c, ForCaches(d, e)).now == c.now
  {
  }

  /** The caches' machine sees the rows and the time of the database machine. */
  lemma {:induction false} SameRowsAndTime(events: seq<Event>)
    ensures Caches(events).db == Database(events).db && Caches(events).now == Database(events).now
  {
    if events != [] {
      var front, e := events[..|events| - 1], events[|events| - 1];
      SameRowsAndTime(front);
      NextDatabase(events);
      NextCaches(events);
      Guarantees.Reached(DatabaseSteps(front));
      if e.OnDatabase? {
        StepsAgree(Database(front), Caches(front), e.step);
      } else {
        CacheStepContinues(Database(front), Caches(front), e);
      }
    }
  }

  /** Version `k` of the caches' log was current at time `q`. */
  predicate Current(s: Staleness.State, k: nat, q: nat) {
    && k < |s.log|
    && s.log[k].at <= q <= (if k + 1 < |s.log| then s.log[k + 1].at else s.now)
  }

  lemma StillCurrent(c: Staleness.State, c': Staleness.State, k: nat, q: nat)
    requires Staleness.LogInv(c) && Continues(c, c') && Current(c', k, q)
    requires !(k == |c'.log| - 1 && q == c'.now)
    ensures Current(c, k, q) && c.log[k] == c'.log[k]
  {
  }

  /** Every version that was current at some time was then the committed database of the interleaved run. */
  lemma {:induction false} VersionWasCommitted(events: seq<Event>, k: nat, q: nat) returns (m: nat)
    requires Current(Caches(events), k, q)
    ensures m <= |events| && Database(events[..m]).now == q && Database(events[..m]).db == Caches(events).log[k].db
  {
    Staleness.RunPreserves(EMPTY, 0, CacheSteps(events));
    if k == |Caches(events).log| - 1 && q == Caches(events).now {
      m := |events|;
      assert events[..m] == events;
      SameRowsAndTime(events);
    } else {
      assert events != [];
      var front, e := events[..|events| - 1], events[|events| - 1];
      NextCaches(events);
      CacheStepContinues(Database(front), Caches(front), e);
      Staleness.RunPreserves(EMPTY, 0, CacheSteps(front));
      StillCurrent(Caches(front), Caches(events), k, q);
      m := VersionWasCommitted(front, k, q);
      assert front[..m] == events[..m];
    }
  }

  /**
   In every interleaving of statements, commits, faults and cache commands, a cached answer is what the committed
   rows held at some moment of the run less than the entry's lifespan plus the longest query-to-set gap ago.
   */
  lemma {:induction false} CachedAnswerWasCommitted(ttl: Staleness.Ttl, events: seq<Event>, key: Staleness.Key)
    returns (m: nat)
    requires Staleness.Serve(ttl, Caches(events), key).Some?
    ensures m <= |events|
    ensures Staleness.View(Database(events[..m]).db, key) == Staleness.Serve(ttl, Caches(events), key)
    ensures
      Database(events[..m]).now <= Database(events).now
        < Database(events[..m]).now + Staleness.Lifespan(ttl, key) + Caches(events).gap
  {
    var s := Caches(events);
    var q := Staleness.BoundedStaleness(ttl, EMPTY, 0, CacheSteps(events), key);
    var k: nat :| Staleness.VersionAt(s, k, q, key, Staleness.Serve(ttl, s, key).value);
    m := VersionWasCommitted(events, k, q);
    SameRowsAndTime(events);
  }
}
