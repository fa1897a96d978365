/**
 The pruned map of `reserveDedupKey` against a log that is never pruned:
 services/notification-service/internal/service/service.go.
 */
module DedupLog {
  import opened Numbers
  import opened Dedup

  datatype Reservation = Reservation(key: string, at: int)

  datatype Action = TryReserve(key: string, now: int) | Release(key: string)

  /**
   The map the code keeps, the log of all unreleased reservations, which is never pruned, and the latest clock sample.
   Samples are taken before the lock, so one can be older than `clock`.
   */
  datatype Book = Book(sentAt: map<string, int>, log: seq<Reservation>, clock: int)

  function Without(log: seq<Reservation>, key: string): seq<Reservation> {
    if log == [] then []
    else if log[0].key == key then Without(log[1..], key)
    else [log[0]] + Without(log[1..], key)
  }

  /** Scan the whole log for a reservation of the key younger than the window. */
  predicate Suppressed(log: seq<Reservation>, key: string, now: int, window: int) {
    exists i :: 0 <= i < |log| && log[i].key == key && now - log[i].at < window
  }

  predicate Accepts(b: Book, key: string, now: int, window: int) {
    Reserve(b.sentAt, key, now, window).1
  }

  function Act(b: Book, a: Action, window: int): Book {
    match a
    case TryReserve(key, now) =>
      var (sentAt, accepted) := Reserve(b.sentAt, key, now, window);
      Book(sentAt, if accepted then b.log + [Reservation(key, now)] else b.log, Max(b.clock, now))
    case Release(key) => Book(b.sentAt - {key}, Without(b.log, key), b.clock)
  }

  function Acts(b: Book, actions: seq<Action>, window: int): Book {
    if actions == [] then b else Act(Acts(b, actions[..|actions| - 1], window), actions[|actions| - 1], window)
  }

  function NewBook(start: int): Book {
    Book(map[], [], start)
  }

  predicate InMap(b: Book, r: Reservation) {
    r.key in b.sentAt && b.sentAt[r.key] == r.at
  }

  /** The map has every unreleased reservation younger than the window, and nothing that was not reserved. */
  ghost predicate Sound(b: Book, window: int) {
    && (forall r {:trigger r in b.log} :: r in b.log ==> r.at <= b.clock && (b.clock - r.at < window ==> InMap(b, r)))
    && (forall k :: k in b.sentAt ==> Reservation(k, b.sentAt[k]) in b.log)
  }

  lemma {:induction false} WithoutMembers(log: seq<Reservation>, key: string)
    ensures forall r :: r in Without(log, key) <==> r in log && r.key != key
  {
    if log != [] {
      WithoutMembers(log[1..], key);
      assert log == [log[0]] + log[1..];
    }
  }

  lemma ReserveIsSound(b: Book, key: string, now: int, window: int)
    requires window > 0 && Sound(b, window)
    ensures Sound(Act(b, TryReserve(key, now), window), window)
  {
    var b' := Act(b, TryReserve(key, now), window);
    forall r | r in b'.log
      ensures r.at <= b'.clock && (b'.clock - r.at < window ==> InMap(b', r))
    {
      assert r in b.log || (Accepts(b, key, now, window) && r == Reservation(key, now));
    }
    forall k | k in b'.sentAt ensures Reservation(k, b'.sentAt[k]) in b'.log {
      assert k in b.sentAt || k == key;
    }
  }

  lemma {:induction false} ActsAreSound(start: int, actions: seq<Action>, window: int)
    requires window > 0
    ensures Sound(Acts(NewBook(start), actions, window), window)
  {
    if actions != [] {
      var front, a := actions[..|actions| - 1], actions[|actions| - 1];
      var b := Acts(NewBook(start), front, window);
      ActsAreSound(start, front, window);
      if a.TryReserve? {
        ReserveIsSound(b, a.key, a.now, window);
      } else {
        WithoutMembers(b.log, a.key);
      }
    }
  }

  /** The map has the key, younger than the window. */
  predicate KeyIsYoung(b: Book, key: string, now: int, window: int) {
    key in b.sentAt && now - b.sentAt[key] < window
  }

  lemma SuppressedMember(log: seq<Reservation>, r: Reservation, now: int, window: int)
    requires r in log && now - r.at < window
    ensures Suppressed(log, r.key, now, window)
  {
    var i :| 0 <= i < |log| && log[i] == r;
  }

  lemma SoundDecisionIff(b: Book, key: string, now: int, window: int)
    requires window > 0 && Sound(b, window)
    ensures Accepts(b, key, now, window) == !Suppressed(b.log, key, now, window) <==>
      || b.clock <= now
      || KeyIsYoung(b, key, now, window)
      || forall r :: r in b.log && r.key == key ==> now - r.at >= window
  {
    if KeyIsYoung(b, key, now, window) {
      SuppressedMember(b.log, Reservation(key, b.sentAt[key]), now, window);
    } else if Suppressed(b.log, key, now, window) {
      var i :| 0 <= i < |b.log| && b.log[i].key == key && now - b.log[i].at < window;
      assert b.log[i] in b.log;
    } else {
      forall r | r in b.log && r.key == key ensures now - r.at >= window {
        if now - r.at < window { SuppressedMember(b.log, r, now, window); }
      }
    }
  }

  /**
   After any run, with however many late clock samples, the next decision is the full log's exactly if its own sample
   is not older than the latest so far, or the map has the key younger than the window, or the log has none so young.
   */
  lemma {:induction false} DecisionMatchesLogIff(start: int, actions: seq<Action>, key: string, now: int, window: int)
    requires window > 0
    ensures
      var b := Acts(NewBook(start), actions, window);
      Accepts(b, key, now, window) == !Suppressed(b.log, key, now, window) <==>
        || b.clock <= now
        || KeyIsYoung(b, key, now, window)
        || forall r :: r in b.log && r.key == key ==> now - r.at >= window
  {
    ActsAreSound(start, actions, window);
    SoundDecisionIff(Acts(NewBook(start), actions, window), key, now, window);
  }

  /** A sample that is not late gets the full log's decision, however late earlier samples were. */
  lemma {:induction false} EveryDecisionMatchesLog(start: int, actions: seq<Action>, key: string, now: int, window: int)
    requires window > 0 && Acts(NewBook(start), actions, window).clock <= now
    ensures
      var b := Acts(NewBook(start), actions, window);
      Accepts(b, key, now, window) == !Suppressed(b.log, key, now, window)
  {
    DecisionMatchesLogIff(start, actions, key, now, window);
  }

  /** After a reserve whose sample is not late the map holds exactly the unreleased reservations of the last window. */
  lemma {:induction false} PrunedMapRefinesLog(start: int, actions: seq<Action>, key: string, now: int, window: int)
    requires window > 0 && Acts(NewBook(start), actions, window).clock <= now
    ensures
      var b := Acts(NewBook(start), actions + [TryReserve(key, now)], window);
      forall k, at :: k in b.sentAt && b.sentAt[k] == at <==> Reservation(k, at) in b.log && now - at < window
  {
    var last := TryReserve(key, now);
    var b := Acts(NewBook(start), actions + [last], window);
    assert (actions + [last])[..|actions|] == actions;
    ActsAreSound(start, actions + [last], window);
    forall k, at ensures k in b.sentAt && b.sentAt[k] == at <==> Reservation(k, at) in b.log && now - at < window {
      assert Reservation(k, at) in b.log && now - at < window ==> InMap(b, Reservation(k, at));
    }
  }

  /** A clock sample taken before the lock can be late, and then the pruned map forgets too much. */
  lemma LateClockSampleIsAccepted()
    ensures
      var b := Act(Act(NewBook(0), TryReserve("k", 0), 10), TryReserve("j", 10), 10);
      Suppressed(b.log, "k", 9, 10) && Accepts(b, "k", 9, 10)
  {
    var b1 := Act(NewBook(0), TryReserve("k", 0), 10);
    assert b1.log == [Reservation("k", 0)];
    var b2 := Act(b1, TryReserve("j", 10), 10);
    assert b2.log[0] == Reservation("k", 0);
  }
}
