/** Request metrics: services/api-gateway/internal/gateway/metrics.go. */
module Metrics {
  import opened Numbers

  datatype Key = Key(verb: string, route: string, status: int)

  datatype Aggregate = Aggregate(count: nat, totalLatency: int, maxLatency: int)

  /** One call of `observe`; the latency is in nanoseconds. */
  datatype Observation = Observation(key: Key, latency: int)

  datatype RouteMetric = RouteMetric(key: Key, requests: nat, avgLatencyMs: real, maxLatencyMs: real)

  datatype Snapshot = Snapshot(requestsTotal: nat, avgLatencyMs: real, routes: seq<RouteMetric>)

  const ZERO := Aggregate(0, 0, 0)

  // Counters are 64-bit and unsigned, durations 64-bit and signed; both wrap around.

  const U64 := 0x1_0000_0000_0000_0000

  function WrapCount(n: int): (r: nat) {
    n % U64
  }

  function WrapDuration(d: int): int {
    (d + U64 / 2) % U64 - U64 / 2
  }

  /** Wrapping at every addition is wrapping the sum. */
  lemma WrapOnce(n: int, d: int, latency: int)
    ensures WrapCount(WrapCount(n) + 1) == WrapCount(n + 1)
    ensures WrapDuration(WrapDuration(d) + latency) == WrapDuration(d + latency)
  {
  }

  /** What the table holds for the true aggregate of a key. */
  function Stored(agg: Aggregate): Aggregate {
    Aggregate(WrapCount(agg.count), WrapDuration(agg.totalLatency), agg.maxLatency)
  }

  lemma WrapCongruent(a: int, c: int, b: int)
    requires WrapCount(a) == WrapCount(c)
    ensures WrapCount(a + WrapCount(b)) == WrapCount(c + b)
  {
  }

  // What was observed.

  /** Count, sum and maximum of the observations with key `k`. */
  function AggregateOf(log: seq<Observation>, k: Key): Aggregate {
    if log == [] then ZERO
    else
      var rest, last := AggregateOf(log[..|log| - 1], k), log[|log| - 1];
      if last.key != k then rest
      else Aggregate(rest.count + 1, rest.totalLatency + last.latency, Max(rest.maxLatency, last.latency))
  }

  function TotalLatency(log: seq<Observation>): int {
    if log == [] then 0 else TotalLatency(log[..|log| - 1]) + log[|log| - 1].latency
  }

  /** How many observations have a key in `keys`. */
  function CountIn(log: seq<Observation>, keys: set<Key>): nat {
    if log == [] then 0 else CountIn(log[..|log| - 1], keys) + if log[|log| - 1].key in keys then 1 else 0
  }

  lemma {:induction false} CountInAdd(log: seq<Observation>, keys: set<Key>, k: Key)
    requires k !in keys
    ensures CountIn(log, keys + {k}) == CountIn(log, keys) + AggregateOf(log, k).count
  {
    if log != [] {
      CountInAdd(log[..|log| - 1], keys, k);
    }
  }

  lemma {:induction false} CountInNone(log: seq<Observation>)
    ensures CountIn(log, {}) == 0
  {
    if log != [] {
      CountInNone(log[..|log| - 1]);
    }
  }

  lemma {:induction false} CountInAll(log: seq<Observation>, keys: set<Key>)
    requires forall i :: 0 <= i < |log| ==> log[i].key in keys
    ensures CountIn(log, keys) == |log|
  {
    if log != [] {
      CountInAll(log[..|log| - 1], keys);
    }
  }

  /** The latency of the observations that have a key in `keys`. */
  function LatencyIn(log: seq<Observation>, keys: set<Key>): int {
    if log == [] then 0
    else LatencyIn(log[..|log| - 1], keys) + if log[|log| - 1].key in keys then log[|log| - 1].latency else 0
  }

  lemma {:induction false} LatencyInAdd(log: seq<Observation>, keys: set<Key>, k: Key)
    requires k !in keys
    ensures LatencyIn(log, keys + {k}) == LatencyIn(log, keys) + AggregateOf(log, k).totalLatency
  {
    if log != [] {
      LatencyInAdd(log[..|log| - 1], keys, k);
    }
  }

  lemma {:induction false} LatencyInNone(log: seq<Observation>)
    ensures LatencyIn(log, {}) == 0
  {
    if log != [] {
      LatencyInNone(log[..|log| - 1]);
    }
  }

  lemma {:induction false} LatencyInAll(log: seq<Observation>, keys: set<Key>)
    requires forall i :: 0 <= i < |log| ==> log[i].key in keys
    ensures LatencyIn(log, keys) == TotalLatency(log)
  {
    if log != [] {
      LatencyInAll(log[..|log| - 1], keys);
    }
  }

  // The order of the report.

  predicate StringLess(a: string, b: string) {
    if b == "" then false
    else if a == "" then true
    else if a[0] != b[0] then a[0] < b[0]
    else StringLess(a[1..], b[1..])
  }

  lemma {:induction false} StringLessIsOrder(a: string, b: string, c: string)
    ensures !StringLess(a, a)
    ensures a == b || StringLess(a, b) || StringLess(b, a)
    ensures StringLess(a, b) && StringLess(b, c) ==> StringLess(a, c)
    decreases |a| + |b| + |c|
  {
    if a != "" {
      StringLessIsOrder(a[1..], if b == "" then b else b[1..], if c == "" then c else c[1..]);
      if b != "" && a[0] == b[0] && a[1..] == b[1..] {
        assert a == [a[0]] + a[1..] && b == [b[0]] + b[1..];
      }
    }
  }

  predicate Less(a: Key, b: Key) {
    if a.route != b.route then StringLess(a.route, b.route)
    else if a.verb != b.verb then StringLess(a.verb, b.verb)
    else a.status < b.status
  }

  lemma LessIsOrder(a: Key, b: Key, c: Key)
    ensures !Less(a, a)
    ensures a == b || Less(a, b) || Less(b, a)
    ensures Less(a, b) && Less(b, c) ==> Less(a, c)
  {
    StringLessIsOrder(a.route, b.route, c.route);
    StringLessIsOrder(a.verb, b.verb, c.verb);
    StringLessIsOrder(b.route, a.route, c.route);
    StringLessIsOrder(b.verb, a.verb, c.verb);
  }

  /** Strictly increasing in (route, method, status): no key twice. */
  predicate Increasing(routes: seq<RouteMetric>) {
    forall i, j :: 0 <= i < j < |routes| ==> Less(routes[i].key, routes[j].key)
  }

  function Insert(r: RouteMetric, routes: seq<RouteMetric>): seq<RouteMetric> {
    if routes == [] then [r]
    else if Less(r.key, routes[0].key) then [r] + routes
    else [routes[0]] + Insert(r, routes[1..])
  }

  /** The sum of `f` over a list. */
  function SumOf(routes: seq<RouteMetric>, f: RouteMetric -> int): int {
    if routes == [] then 0 else SumOf(routes[..|routes| - 1], f) + f(routes[|routes| - 1])
  }

  lemma {:induction false} SumOfConcat(a: seq<RouteMetric>, b: seq<RouteMetric>, f: RouteMetric -> int)
    ensures SumOf(a + b, f) == SumOf(a, f) + SumOf(b, f)
    decreases |b|
  {
    if b == [] {
      assert a + b == a;
    } else {
      assert (a + b)[..|a + b| - 1] == a + b[..|b| - 1];
      SumOfConcat(a, b[..|b| - 1], f);
    }
  }

  lemma SumOfNext(routes: seq<RouteMetric>, r: RouteMetric, f: RouteMetric -> int)
    ensures SumOf(routes + [r], f) == SumOf(routes, f) + f(r)
  {
    assert (routes + [r])[..|routes|] == routes;
  }

  lemma WithoutOne(b: seq<RouteMetric>, i: nat)
    requires i < |b|
    ensures multiset(b[..i] + b[i + 1..]) == multiset(b) - multiset{b[i]}
  {
    assert b == b[..i] + [b[i]] + b[i + 1..];
  }

  /** Sorting changes no sum. */
  lemma {:induction false} SumOfPermutation(a: seq<RouteMetric>, b: seq<RouteMetric>, f: RouteMetric -> int)
    requires multiset(a) == multiset(b)
    ensures SumOf(a, f) == SumOf(b, f)
  {
    if a == [] {
      assert |multiset(b)| == 0;
    } else {
      var n, r := |a| - 1, a[|a| - 1];
      assert a[..n] + a[n + 1..] == a[..n];
      WithoutOne(a, n);
      assert r in multiset(a) && r in b;
      var i :| 0 <= i < |b| && b[i] == r;
      WithoutOne(b, i);
      SumOfPermutation(a[..n], b[..i] + b[i + 1..], f);
      SumWithoutOne(b, i, f);
    }
  }

  lemma SplitAround(b: seq<RouteMetric>, i: nat)
    requires i < |b|
    ensures b == b[..i] + [b[i]] + b[i + 1..]
  {
  }

  lemma SumOfMiddle(l: seq<RouteMetric>, x: RouteMetric, r: seq<RouteMetric>, f: RouteMetric -> int)
    ensures SumOf(l + [x] + r, f) == SumOf(l + r, f) + f(x)
  {
    SumOfConcat(l, r, f);
    SumOfConcat(l + [x], r, f);
    SumOfNext(l, x, f);
  }

  lemma SumWithoutOne(b: seq<RouteMetric>, i: nat, f: RouteMetric -> int)
    requires i < |b|
    ensures SumOf(b, f) == SumOf(b[..i] + b[i + 1..], f) + f(b[i])
  {
    SplitAround(b, i);
    SumOfMiddle(b[..i], b[i], b[i + 1..], f);
  }

  lemma {:induction false} InsertKeepsContents(r: RouteMetric, routes: seq<RouteMetric>)
    ensures multiset(Insert(r, routes)) == multiset(routes) + multiset{r}
  {
    if routes != [] && !Less(r.key, routes[0].key) {
      InsertKeepsContents(r, routes[1..]);
      assert routes == [routes[0]] + routes[1..];
    }
  }

  lemma InsertedMember(r: RouteMetric, routes: seq<RouteMetric>, x: RouteMetric)
    requires x in Insert(r, routes)
    ensures x in routes || x == r
  {
    InsertKeepsContents(r, routes);
    assert x in multiset(Insert(r, routes));
  }

  lemma {:induction false} InsertKeepsOrder(r: RouteMetric, routes: seq<RouteMetric>)
    requires Increasing(routes) && forall i :: 0 <= i < |routes| ==> routes[i].key != r.key
    ensures Increasing(Insert(r, routes))
  {
    if routes != [] {
      LessIsOrder(r.key, routes[0].key, r.key);
      if Less(r.key, routes[0].key) {
        forall i | 0 <= i < |routes| ensures Less(r.key, routes[i].key) {
          LessIsOrder(r.key, routes[0].key, routes[i].key);
        }
      } else {
        var tail := Insert(r, routes[1..]);
        InsertKeepsOrder(r, routes[1..]);
        forall j | 0 <= j < |tail| ensures Less(routes[0].key, tail[j].key) {
          InsertedMember(r, routes[1..], tail[j]);
        }
      }
    }
  }

  /** An increasing list is determined by its elements, so map iteration order cannot show. */
  lemma {:induction false} ReportIsUnique(a: seq<RouteMetric>, b: seq<RouteMetric>)
    requires Increasing(a) && Increasing(b) && forall r :: r in a <==> r in b
    ensures a == b
  {
    assert (a != [] ==> a[0] in a) && (b != [] ==> b[0] in b);
    if a != [] && b != [] {
      HeadIsLeast(a, b);
      forall r ensures r in a[1..] <==> r in b[1..] {
        TailMembers(a, r);
        TailMembers(b, r);
      }
      ReportIsUnique(a[1..], b[1..]);
      assert a == [a[0]] + a[1..] && b == [b[0]] + b[1..];
    }
  }

  lemma TailMembers(a: seq<RouteMetric>, r: RouteMetric)
    requires Increasing(a) && a != []
    ensures r in a[1..] <==> r in a && r != a[0]
  {
    LessIsOrder(r.key, r.key, r.key);
    if r in a[1..] {
      var i :| 0 <= i < |a[1..]| && a[1..][i] == r;
      assert a[i + 1] == r && Less(a[0].key, a[i + 1].key);
    }
  }

  lemma HeadBelow(a: seq<RouteMetric>, r: RouteMetric)
    requires Increasing(a) && r in a
    ensures r == a[0] || Less(a[0].key, r.key)
  {
  }

  lemma HeadIsLeast(a: seq<RouteMetric>, b: seq<RouteMetric>)
    requires Increasing(a) && Increasing(b) && a != [] && b != [] && forall r :: r in a <==> r in b
    ensures a[0] == b[0]
  {
    assert a[0] in b && b[0] in a;
    HeadBelow(a, b[0]);
    HeadBelow(b, a[0]);
    LessIsOrder(a[0].key, b[0].key, a[0].key);
  }

  // Latencies.

  function TruncatingDiv(n: int, d: int): int
    requires d > 0
  {
    if n >= 0 then n / d else -((-n) / d)
  }

  function LatencyMs(duration: int): real {
    TruncatingDiv(duration, 1000) as real / 1000.0
  }

  function AverageLatencyMs(total: int, count: nat): real {
    if count == 0 then 0.0 else LatencyMs(total) / count as real
  }

  function MetricOf(k: Key, agg: Aggregate): RouteMetric {
    RouteMetric(k, agg.count, AverageLatencyMs(agg.totalLatency, agg.count), LatencyMs(agg.maxLatency))
  }

  /** `routes` holds one metric for each of the keys, and nothing else. */
  ghost predicate Lists(routes: seq<RouteMetric>, table: map<Key, Aggregate>, keys: set<Key>) {
    && keys <= table.Keys
    && (forall r :: r in routes <==> r.key in keys && r == MetricOf(r.key, table[r.key]))
    && (forall i, j :: 0 <= i < j < |routes| ==> routes[i].key != routes[j].key)
  }

  lemma ListsAppend(routes: seq<RouteMetric>, table: map<Key, Aggregate>, keys: set<Key>, k: Key)
    requires Lists(routes, table, keys) && k in table && k !in keys
    ensures
      var routes' := routes + [MetricOf(k, table[k])];
      Lists(routes', table, keys + {k})
  {
    var routes' := routes + [MetricOf(k, table[k])];
    forall i | 0 <= i < |routes| ensures routes[i].key != k {
      assert routes[i] in routes;
    }
    forall r ensures r in routes' <==> r.key in keys + {k} && r == MetricOf(r.key, table[r.key]) {
      assert r in routes' <==> r in routes || r == MetricOf(k, table[k]);
    }
  }

  /** The count that a row shows. */
  function Requests(): RouteMetric -> int {
    (r: RouteMetric) => r.requests
  }

  /** The true count behind a row. */
  function Count(log: seq<Observation>): RouteMetric -> int {
    (r: RouteMetric) => AggregateOf(log, r.key).count
  }

  /** The latency sum behind a metric. */
  function Latency(log: seq<Observation>): RouteMetric -> int {
    (r: RouteMetric) => AggregateOf(log, r.key).totalLatency
  }

  predicate SumsMatch(log: seq<Observation>, routes: seq<RouteMetric>, keys: set<Key>) {
    SumOf(routes, Count(log)) == CountIn(log, keys) && SumOf(routes, Latency(log)) == LatencyIn(log, keys)
  }

  lemma SumsAppend(log: seq<Observation>, routes: seq<RouteMetric>, keys: set<Key>, k: Key)
    requires SumsMatch(log, routes, keys) && k !in keys
    ensures SumsMatch(log, routes + [MetricOf(k, Stored(AggregateOf(log, k)))], keys + {k})
  {
    var r := MetricOf(k, Stored(AggregateOf(log, k)));
    CountInAdd(log, keys, k);
    LatencyInAdd(log, keys, k);
    SumOfNext(routes, r, Count(log));
    SumOfNext(routes, r, Latency(log));
  }

  /** The stored aggregate after one more observation. */
  function Bump(agg: Aggregate, latency: int): Aggregate {
    Aggregate(WrapCount(agg.count + 1), WrapDuration(agg.totalLatency + latency), Max(agg.maxLatency, latency))
  }

  lemma ObservedKeys(log: seq<Observation>, o: Observation)
    ensures TotalLatency(log + [o]) == TotalLatency(log) + o.latency
    ensures Stored(AggregateOf(log + [o], o.key)) == Bump(Stored(AggregateOf(log, o.key)), o.latency)
    ensures AggregateOf(log + [o], o.key).count > 0
    ensures forall k :: k != o.key ==> AggregateOf(log + [o], k) == AggregateOf(log, k)
  {
    var agg := AggregateOf(log, o.key);
    assert (log + [o])[..|log|] == log;
    WrapOnce(agg.count, agg.totalLatency, o.latency);
  }

  /** The table has the observed keys and no others, each with its aggregate. */
  ghost predicate TableMatches(table: map<Key, Aggregate>, log: seq<Observation>) {
    && (forall i :: 0 <= i < |log| ==> log[i].key in table)
    && (forall k :: k in table ==> table[k] == Stored(AggregateOf(log, k)) && AggregateOf(log, k).count > 0)
  }

  function Entry(table: map<Key, Aggregate>, k: Key): Aggregate {
    if k in table then table[k] else ZERO
  }

  lemma TableNext(table: map<Key, Aggregate>, log: seq<Observation>, o: Observation)
    requires TableMatches(table, log)
    ensures TableMatches(table[o.key := Bump(Entry(table, o.key), o.latency)], log + [o])
  {
    NeverSeen(log, o.key);
    ObservedKeys(log, o);
  }

  lemma TotalsNext(log: seq<Observation>, o: Observation)
    ensures WrapCount(WrapCount(|log|) + 1) == WrapCount(|log + [o]|)
    ensures WrapDuration(WrapDuration(TotalLatency(log)) + o.latency) == WrapDuration(TotalLatency(log + [o]))
  {
    ObservedKeys(log, o);
    WrapOnce(|log|, TotalLatency(log), o.latency);
  }

  /** The update of one entry. */
  method Record(entry: Aggregate, duration: int) returns (agg: Aggregate)
    ensures agg == Bump(entry, duration)
  {
    agg := entry.(count := WrapCount(entry.count + 1), totalLatency := WrapDuration(entry.totalLatency + duration));
    if duration > agg.maxLatency {
      agg := agg.(maxLatency := duration);
    }
  }

  class HTTPMetrics {
    var totalCount: nat
    var totalLatency: int
    var byKey: map<Key, Aggregate>
    /** Every observation so far. */
    ghost var log: seq<Observation>

    ghost predicate Valid()
      reads this
    {
      && totalCount == WrapCount(|log|) && totalLatency == WrapDuration(TotalLatency(log))
      && TableMatches(byKey, log)
    }

    constructor ()
      ensures Valid() && log == []
    {
      totalCount, totalLatency, byKey, log := 0, 0, map[], [];
    }

    method Observe(verb: string, route: string, status: int, duration: int)
      requires Valid()
      modifies this
      ensures Valid() && log == old(log) + [Observation(Key(verb, route, status), duration)]
    {
      var key := Key(verb, route, status);
      ghost var next := Observation(key, duration);
      TableNext(byKey, log, next);
      TotalsNext(log, next);
      var agg := Record(if key in byKey then byKey[key] else ZERO, duration);
      byKey := byKey[key := agg];
      totalCount := WrapCount(totalCount + 1);
      totalLatency := WrapDuration(totalLatency + duration);
      log := log + [next];
    }

    /** The loop over the map, whose order is arbitrary. */
    method CollectRoutes() returns (routes: seq<RouteMetric>)
      requires Valid()
      ensures Lists(routes, byKey, byKey.Keys)
      ensures SumsMatch(log, routes, byKey.Keys)
    {
      routes := [];
      var left := byKey.Keys;
      ghost var seen: set<Key> := {};
      CountInNone(log);
      LatencyInNone(log);
      while left != {}
        invariant left + seen == byKey.Keys && left !! seen
        invariant Lists(routes, byKey, seen) && SumsMatch(log, routes, seen)
        decreases |left|
      {
        var key :| key in left;
        var route := MetricOf(key, byKey[key]);
        assert byKey[key] == Stored(AggregateOf(log, key));
        ListsAppend(routes, byKey, seen, key);
        SumsAppend(log, routes, seen, key);
        routes := routes + [route];
        left, seen := left - {key}, seen + {key};
      }
      assert seen == byKey.Keys;
    }

    /**
     The report lists each observed key once, in order, with its aggregate. The true counts and latency sums of the
     listed keys add up to the true totals; what the report shows are these numbers wrapped to 64 bits, so the shown
     counts add up to the shown total modulo 2^64, and exactly while fewer requests than that were observed.
     */
    method TakeSnapshot() returns (snapshot: Snapshot)
      requires Valid()
      ensures Increasing(snapshot.routes)
      ensures forall r :: r in snapshot.routes <==>
        (exists i :: 0 <= i < |log| && log[i].key == r.key) && r == MetricOf(r.key, Stored(AggregateOf(log, r.key)))
      ensures SumOf(snapshot.routes, Count(log)) == |log| && snapshot.requestsTotal == WrapCount(|log|)
      ensures SumOf(snapshot.routes, Latency(log)) == TotalLatency(log)
      ensures snapshot.avgLatencyMs == AverageLatencyMs(WrapDuration(TotalLatency(log)), WrapCount(|log|))
      ensures WrapCount(SumOf(snapshot.routes, Requests())) == snapshot.requestsTotal
      ensures SumOf(snapshot.routes, Requests()) == |log| <==> forall k :: AggregateOf(log, k).count < U64
    {
      var routes := CollectRoutes();
      CountInAll(log, byKey.Keys);
      LatencyInAll(log, byKey.Keys);
      var sorted := SortRoutes(routes);
      SumOfPermutation(sorted, routes, Count(log));
      SumOfPermutation(sorted, routes, Latency(log));
      forall k | k in byKey ensures exists i :: 0 <= i < |log| && log[i].key == k {
        NeverSeen(log, k);
      }
      assert forall r :: r in sorted <==> r.key in byKey && r == MetricOf(r.key, byKey[r.key]);
      ReportShows(sorted, byKey, log);
      snapshot := Snapshot(totalCount, AverageLatencyMs(totalLatency, totalCount), sorted);
    }
  }

  predicate Listed(routes: seq<RouteMetric>, k: Key) {
    exists r :: r in routes && r.key == k
  }

  predicate Shows(routes: seq<RouteMetric>, log: seq<Observation>) {
    forall i :: 0 <= i < |routes| ==> routes[i].requests == WrapCount(Count(log)(routes[i]))
  }

  /** The shown counts add up to the true ones modulo 2^64, and to no more. */
  lemma {:induction false} ShownCounts(routes: seq<RouteMetric>, log: seq<Observation>)
    requires Shows(routes, log)
    ensures WrapCount(SumOf(routes, Requests())) == WrapCount(SumOf(routes, Count(log)))
    ensures SumOf(routes, Requests()) <= SumOf(routes, Count(log))
    ensures SumOf(routes, Requests()) == SumOf(routes, Count(log)) <==> NoneWraps(routes, log)
  {
    if routes != [] {
      var n := |routes| - 1;
      ShownCounts(routes[..n], log);
      WrapCongruent(SumOf(routes[..n], Requests()), SumOf(routes[..n], Count(log)), Count(log)(routes[n]));
      WrapIsLess(Count(log)(routes[n]));
      LastWraps(routes, log);
    }
  }

  predicate NoneWraps(routes: seq<RouteMetric>, log: seq<Observation>) {
    forall i :: 0 <= i < |routes| ==> Count(log)(routes[i]) < U64
  }

  lemma LastWraps(routes: seq<RouteMetric>, log: seq<Observation>)
    requires routes != []
    ensures
      NoneWraps(routes, log) <==> NoneWraps(routes[..|routes| - 1], log) && Count(log)(routes[|routes| - 1]) < U64
  {
  }

  lemma WrapIsLess(n: nat)
    ensures WrapCount(n) <= n && (WrapCount(n) == n <==> n < U64)
  {
  }

  lemma ReportShows(routes: seq<RouteMetric>, table: map<Key, Aggregate>, log: seq<Observation>)
    requires forall r :: r in routes <==> r.key in table && r == MetricOf(r.key, table[r.key])
    requires forall k :: k in table ==> table[k] == Stored(AggregateOf(log, k))
    requires forall i :: 0 <= i < |log| ==> log[i].key in table
    ensures WrapCount(SumOf(routes, Requests())) == WrapCount(SumOf(routes, Count(log)))
    ensures SumOf(routes, Requests()) == SumOf(routes, Count(log)) <==> forall k :: AggregateOf(log, k).count < U64
  {
    forall i | 0 <= i < |routes| ensures routes[i].requests == WrapCount(Count(log)(routes[i])) {
      assert routes[i] in routes;
    }
    forall i | 0 <= i < |log| ensures Listed(routes, log[i].key) {
      assert MetricOf(log[i].key, table[log[i].key]) in routes;
    }
    ShownCounts(routes, log);
    ShownExactlyIff(routes, log);
  }

  lemma ShownExactlyIff(routes: seq<RouteMetric>, log: seq<Observation>)
    requires Shows(routes, log)
    requires forall i :: 0 <= i < |log| ==> Listed(routes, log[i].key)
    ensures SumOf(routes, Requests()) == SumOf(routes, Count(log)) <==> forall k :: AggregateOf(log, k).count < U64
  {
    ShownCounts(routes, log);
    if NoneWraps(routes, log) {
      forall k ensures AggregateOf(log, k).count < U64 {
        NeverSeen(log, k);
        if i :| 0 <= i < |log| && log[i].key == k {
          var r :| r in routes && r.key == log[i].key;
          var j :| 0 <= j < |routes| && routes[j] == r;
          assert Count(log)(routes[j]) < U64;
        }
      }
    } else {
      var i :| 0 <= i < |routes| && Count(log)(routes[i]) >= U64;
      assert AggregateOf(log, routes[i].key).count >= U64;
    }
  }

  lemma {:induction false} NeverSeen(log: seq<Observation>, k: Key)
    ensures AggregateOf(log, k).count > 0 <==> exists i :: 0 <= i < |log| && log[i].key == k
    ensures AggregateOf(log, k).count == 0 ==> AggregateOf(log, k) == ZERO
  {
    if log != [] {
      var front := log[..|log| - 1];
      NeverSeen(front, k);
      if i :| 0 <= i < |front| && front[i].key == k {
        assert log[i].key == k;
      }
      if log[|log| - 1].key != k && exists i :: 0 <= i < |log| && log[i].key == k {
        var i :| 0 <= i < |log| && log[i].key == k;
        assert front[i].key == k;
      }
    }
  }

  /** `sort.Slice` with the order of the report; with distinct keys every sorting algorithm gives this list. */
  method SortRoutes(routes: seq<RouteMetric>) returns (sorted: seq<RouteMetric>)
    requires forall i, j :: 0 <= i < j < |routes| ==> routes[i].key != routes[j].key
    ensures Increasing(sorted) && multiset(sorted) == multiset(routes)
    ensures forall r :: r in sorted <==> r in routes
  {
    sorted := [];
    for i := 0 to |routes|
      invariant Increasing(sorted) && multiset(sorted) == multiset(routes[..i])
    {
      assert routes[..i + 1] == routes[..i] + [routes[i]];
      assert routes[..i + 1][..i] == routes[..i];
      forall j | 0 <= j < |sorted| ensures sorted[j].key != routes[i].key {
        assert sorted[j] in multiset(sorted);
        assert sorted[j] in routes[..i];
      }
      InsertKeepsOrder(routes[i], sorted);
      InsertKeepsContents(routes[i], sorted);
      sorted := Insert(routes[i], sorted);
    }
    assert routes[..|routes|] == routes;
    forall r ensures r in sorted <==> r in routes {
      assert r in multiset(sorted) <==> r in multiset(routes);
    }
  }

  // What the report's numbers and its order are.

  /** Character by character: the first difference decides, and a proper prefix comes first. */
  predicate Precedes(a: string, b: string, n: nat) {
    && n <= |a| && n <= |b| && a[..n] == b[..n]
    && n < |b| && (n == |a| || a[n] < b[n])
  }

  lemma {:induction false} StringLessIff(a: string, b: string)
    ensures StringLess(a, b) <==> exists n: nat :: Precedes(a, b, n)
  {
    if b == "" {
    } else if a == "" {
      assert Precedes(a, b, 0);
    } else if a[0] != b[0] {
      assert a[0] < b[0] ==> Precedes(a, b, 0);
      if n: nat :| Precedes(a, b, n) {
        assert n > 0 ==> a[..n][0] == b[..n][0];
      }
    } else {
      StringLessIff(a[1..], b[1..]);
      if n: nat :| Precedes(a[1..], b[1..], n) {
        assert a[..n + 1] == [a[0]] + a[1..][..n] && b[..n + 1] == [b[0]] + b[1..][..n];
        assert Precedes(a, b, n + 1);
      }
      if n: nat :| Precedes(a, b, n) {
        PrecedesTail(a, b, n);
      }
    }
  }

  lemma PrecedesTail(a: string, b: string, n: nat)
    requires a != "" && b != "" && a[0] == b[0] && Precedes(a, b, n)
    ensures n > 0 && Precedes(a[1..], b[1..], n - 1)
  {
    assert n > 0;
    assert a[1..][..n - 1] == a[..n][1..] && b[1..][..n - 1] == b[..n][1..];
  }

  /** The route decides, then the method, then the status. */
  lemma LessIff(a: Key, b: Key)
    ensures Less(a, b) <==>
      || StringLess(a.route, b.route)
      || (a.route == b.route && StringLess(a.verb, b.verb))
      || (a.route == b.route && a.verb == b.verb && a.status < b.status)
  {
    StringLessIsOrder(a.route, a.route, a.route);
    StringLessIsOrder(a.verb, a.verb, a.verb);
    StringLessIsOrder(a.route, b.route, a.route);
    StringLessIsOrder(a.verb, b.verb, a.verb);
  }

  /** A duration in milliseconds, with whole microseconds: the rest is dropped. */
  lemma LatencyMsIs(d: int)
    ensures d >= 0 ==> LatencyMs(d) * 1000000.0 <= d as real < LatencyMs(d) * 1000000.0 + 1000.0
    ensures d <= 0 ==> LatencyMs(d) * 1000000.0 - 1000.0 < d as real <= LatencyMs(d) * 1000000.0
    ensures d % 1000 == 0 ==> LatencyMs(d) * 1000000.0 == d as real
  {
  }

  lemma AverageIs(total: int, count: nat)
    ensures count == 0 ==> AverageLatencyMs(total, count) == 0.0
    ensures count > 0 ==> AverageLatencyMs(total, count) * count as real == LatencyMs(total)
  {
  }

  /** What a row of the report shows of the stored aggregate. */
  lemma MetricIs(k: Key, agg: Aggregate)
    ensures
      var m := MetricOf(k, agg);
      && m.key == k && m.requests == agg.count && m.maxLatencyMs == LatencyMs(agg.maxLatency)
      && (agg.count == 0 ==> m.avgLatencyMs == 0.0)
      && (agg.count > 0 ==> m.avgLatencyMs * agg.count as real == LatencyMs(agg.totalLatency))
  {
    AverageIs(agg.totalLatency, agg.count);
  }

  /** 64-bit numbers: the one with the same remainder in the unsigned and in the signed range. */
  lemma WrapIs(n: int)
    ensures 0 <= WrapCount(n) < 0x1_0000_0000_0000_0000
    ensures (n - WrapCount(n)) % 0x1_0000_0000_0000_0000 == 0
    ensures -0x8000_0000_0000_0000 <= WrapDuration(n) < 0x8000_0000_0000_0000
    ensures (n - WrapDuration(n)) % 0x1_0000_0000_0000_0000 == 0
  {
  }

  /** The observations with a key, by position. */
  function With(log: seq<Observation>, k: Key): set<nat> {
    set i | 0 <= i < |log| && log[i].key == k
  }

  /** The count is the number of observations with the key; the maximum bounds their latencies and is one, or zero. */
  lemma {:induction false} AggregateIs(log: seq<Observation>, k: Key)
    ensures
      var agg := AggregateOf(log, k);
      && agg.count == |With(log, k)|
      && agg.maxLatency >= 0 && (forall i :: i in With(log, k) ==> log[i].latency <= agg.maxLatency)
      && (agg.maxLatency == 0 || exists i :: i in With(log, k) && log[i].latency == agg.maxLatency)
  {
    if log != [] {
      var n := |log| - 1;
      AggregateIs(log[..n], k);
      WithLast(log, k);
    }
  }

  lemma WithLast(log: seq<Observation>, k: Key)
    requires log != []
    ensures
      var n := |log| - 1;
      && With(log, k) == With(log[..n], k) + (if log[n].key == k then {n} else {})
      && |With(log, k)| == |With(log[..n], k)| + if log[n].key == k then 1 else 0
  {
    var n := |log| - 1;
    assert With(log, k) == With(log[..n], k) + (if log[n].key == k then {n} else {});
    assert n !in With(log[..n], k);
  }

  /** The sum gets the latency of each observation with the key, and of no other. */
  lemma AggregateSum(log: seq<Observation>, o: Observation, k: Key)
    ensures AggregateOf([], k).totalLatency == 0 && TotalLatency([]) == 0
    ensures AggregateOf(log + [o], k).totalLatency ==
            AggregateOf(log, k).totalLatency + if o.key == k then o.latency else 0
    ensures TotalLatency(log + [o]) == TotalLatency(log) + o.latency
  {
    assert (log + [o])[..|log|] == log;
  }
}
