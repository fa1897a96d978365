/**
 Concurrent sends: reserving, sending outside the lock and releasing by key after a failure, in any interleaving:
 services/notification-service/internal/service/service.go.
 */
module DedupSends {
  import opened Numbers
  import opened Dedup

  datatype Progress = InFlight | Sent | Released

  datatype Attempt = Attempt(key: string, at: int, progress: Progress)

  /** `attempts` lists the accepted reservations in lock order; `clock` is the latest time seen so far. */
  datatype Sends = Sends(sentAt: map<string, int>, attempts: seq<Attempt>, clock: int)

  datatype SendEvent = Start(key: string, now: int) | Finish(attempt: nat, now: int, ok: bool)

  function SendStep(s: Sends, e: SendEvent, window: int): Sends {
    match e
    case Start(key, now) =>
      var (sentAt, accepted) := Reserve(s.sentAt, key, now, window);
      Sends(sentAt, if accepted then s.attempts + [Attempt(key, now, InFlight)] else s.attempts, Max(s.clock, now))
    case Finish(i, now, ok) =>
      if i >= |s.attempts| || s.attempts[i].progress != InFlight then s.(clock := Max(s.clock, now))
      else
        var a := s.attempts[i];
        Sends(if ok then s.sentAt else s.sentAt - {a.key},
              s.attempts[i := a.(progress := if ok then Sent else Released)], Max(s.clock, now))
  }

  /** A call of `Send` with a valid event, left alone: its start and, if it was accepted, its finish. */
  function OneSend(s: Sends, key: string, now: int, senderFails: bool, window: int): Sends {
    var started := SendStep(s, Start(key, now), window);
    if |started.attempts| == |s.attempts| then started
    else SendStep(started, Finish(|s.attempts|, now, !senderFails), window)
  }

  /** The two steps together leave the map that the method leaves, and the sender is asked exactly if there are two. */
  lemma SendIsStartAndFinish(s: Sends, key: string, now: int, senderFails: bool, window: int)
    ensures
      var (reserved, accepted) := Reserve(s.sentAt, key, now, window);
      var s' := OneSend(s, key, now, senderFails, window);
      && s'.sentAt == (if accepted && senderFails then reserved - {key} else reserved)
      && s'.attempts == s.attempts +
         if !accepted then [] else [Attempt(key, now, if senderFails then Released else Sent)]
  {
  }

  function SendRun(s: Sends, events: seq<SendEvent>, window: int): Sends {
    if events == [] then s else SendStep(SendRun(s, events[..|events| - 1], window), events[|events| - 1], window)
  }

  predicate InFlightAt(s: Sends, i: nat) {
    i < |s.attempts| && s.attempts[i].progress == InFlight
  }

  /** Attempt `j` holds its key: it has not been released and is younger than the window. */
  predicate Holds(a: Attempt, now: int, window: int) {
    a.progress != Released && now - a.at < window
  }

  /** Releasing the key of attempt `i` takes it from no other attempt that still holds it. */
  predicate ReleasesOnlyItself(s: Sends, i: nat, now: int, window: int)
    requires i < |s.attempts|
  {
    forall j :: 0 <= j < |s.attempts| && j != i && s.attempts[j].key == s.attempts[i].key ==>
      !Holds(s.attempts[j], now, window)
  }

  /** A late sample that finds no young entry of its key: no attempt of the key is held at that time either. */
  predicate ForgetsNothing(s: Sends, key: string, now: int, window: int) {
    forall j :: 0 <= j < |s.attempts| && s.attempts[j].key == key ==> !Holds(s.attempts[j], now, window)
  }

  /** A late sample overlooks no attempt, and a send that fails releases only its own reservation. */
  predicate Harmless(s: Sends, e: SendEvent, window: int) {
    match e
    case Start(key, now) =>
      s.clock <= now || key in Young(s.sentAt, now, window) || ForgetsNothing(s, key, now, window)
    case Finish(i, now, ok) =>
      !ok && InFlightAt(s, i) ==> ReleasesOnlyItself(s, i, Max(s.clock, now), window)
  }

  predicate AllHarmless(s: Sends, events: seq<SendEvent>, window: int) {
    events == [] ||
    (AllHarmless(s, events[..|events| - 1], window) &&
     Harmless(SendRun(s, events[..|events| - 1], window), events[|events| - 1], window))
  }

  predicate Spaced(a: Attempt, b: Attempt, window: int) {
    a.key == b.key && a.progress != Released && b.progress != Released ==> a.at + window <= b.at
  }

  /** Two successful sends of one key were reserved at least a window apart. */
  predicate SuccessesSpaced(s: Sends, window: int) {
    forall i, j :: 0 <= i < j < |s.attempts| && s.attempts[i].progress == Sent && s.attempts[j].progress == Sent ==>
      Spaced(s.attempts[i], s.attempts[j], window)
  }

  predicate Known(s: Sends, a: Attempt, window: int) {
    Holds(a, s.clock, window) ==> a.key in s.sentAt && s.sentAt[a.key] == a.at
  }

  /** The map has every reservation that is held. */
  predicate MapKnows(s: Sends, window: int) {
    forall i {:trigger s.attempts[i]} :: 0 <= i < |s.attempts| ==> Known(s, s.attempts[i], window)
  }

  ghost predicate SendInv(s: Sends, window: int) {
    && MapKnows(s, window)
    && (forall i {:trigger s.attempts[i]} :: 0 <= i < |s.attempts| ==> s.attempts[i].at <= s.clock)
    && (forall i, j {:trigger Spaced(s.attempts[i], s.attempts[j], window)} ::
          0 <= i < j < |s.attempts| ==> Spaced(s.attempts[i], s.attempts[j], window))
  }

  /** After a failed send the map has every held reservation exactly if the release took none of another attempt. */
  lemma FailedSendKeepsMapIff(s: Sends, i: nat, now: int, window: int)
    requires MapKnows(s, window) && InFlightAt(s, i)
    ensures MapKnows(SendStep(s, Finish(i, now, false), window), window) <==>
      ReleasesOnlyItself(s, i, Max(s.clock, now), window)
  {
    var s' := SendStep(s, Finish(i, now, false), window);
    forall j | 0 <= j < |s.attempts| && j != i
      ensures Known(s', s'.attempts[j], window) <==>
        s.attempts[j].key != s.attempts[i].key || !Holds(s.attempts[j], s'.clock, window)
    {
      assert s'.attempts[j] == s.attempts[j] && Known(s, s.attempts[j], window);
    }
    assert Known(s', s'.attempts[i], window);
  }

  lemma StartPreserves(s: Sends, e: SendEvent, window: int)
    requires window > 0 && SendInv(s, window) && Harmless(s, e, window) && e.Start?
    ensures SendInv(SendStep(s, e, window), window)
  {
    var s' := SendStep(s, e, window);
    forall i, j | 0 <= i < j < |s'.attempts| ensures Spaced(s'.attempts[i], s'.attempts[j], window) {
      if j < |s.attempts| {
        assert Spaced(s.attempts[i], s.attempts[j], window);
      } else {
        assert Known(s, s.attempts[i], window);
      }
    }
  }

  lemma FinishPreserves(s: Sends, e: SendEvent, window: int)
    requires window > 0 && SendInv(s, window) && Harmless(s, e, window) && e.Finish?
    ensures SendInv(SendStep(s, e, window), window)
  {
    var s' := SendStep(s, e, window);
    forall i, j | 0 <= i < j < |s'.attempts| ensures Spaced(s'.attempts[i], s'.attempts[j], window) {
      assert Spaced(s.attempts[i], s.attempts[j], window);
    }
    if !e.ok && InFlightAt(s, e.attempt) {
      FailedSendKeepsMapIff(s, e.attempt, e.now, window);
    }
  }

  lemma {:induction false} SendRunPreserves(s: Sends, events: seq<SendEvent>, window: int)
    requires window > 0 && SendInv(s, window) && AllHarmless(s, events, window)
    ensures SendInv(SendRun(s, events, window), window)
  {
    if events != [] {
      var front, e := events[..|events| - 1], events[|events| - 1];
      SendRunPreserves(s, front, window);
      if e.Start? {
        StartPreserves(SendRun(s, front, window), e, window);
      } else {
        FinishPreserves(SendRun(s, front, window), e, window);
      }
    }
  }

  /**
   Two successful sends of a key were reserved at least a window apart if no late sample overlooks an attempt and no
   failing send releases the reservation of another; how long sends take, and what else fails, does not matter.
   */
  lemma {:induction false} SuccessfulSendsAreSpaced(start: int, events: seq<SendEvent>, window: int)
    requires window > 0 && AllHarmless(Sends(map[], [], start), events, window)
    ensures SuccessesSpaced(SendRun(Sends(map[], [], start), events, window), window)
  {
    SendRunPreserves(Sends(map[], [], start), events, window);
  }

  lemma SendRunTwo(s: Sends, a: SendEvent, b: SendEvent, window: int)
    ensures SendRun(s, [a, b], window) == SendStep(SendStep(s, a, window), b, window)
    ensures AllHarmless(s, [a, b], window) <==> Harmless(s, a, window) && Harmless(SendStep(s, a, window), b, window)
  {
    assert [a, b][..1] == [a] && [a][..0] == [];
    assert SendRun(s, [a], window) == SendStep(s, a, window);
    assert AllHarmless(s, [a], window) <==> Harmless(s, a, window);
  }

  lemma SendRunThree(s: Sends, a: SendEvent, b: SendEvent, c: SendEvent, window: int)
    ensures SendRun(s, [a, b, c], window) == SendStep(SendStep(SendStep(s, a, window), b, window), c, window)
    ensures AllHarmless(s, [a, b, c], window) <==>
      && Harmless(s, a, window) && Harmless(SendStep(s, a, window), b, window)
      && Harmless(SendStep(SendStep(s, a, window), b, window), c, window)
  {
    assert [a, b, c][..2] == [a, b];
    SendRunTwo(s, a, b, window);
  }

  /** The next send of the key of attempt `j`, and the success of both. */
  function SendAgain(s: Sends, j: nat, now: int): seq<SendEvent>
    requires j < |s.attempts|
  {
    [Start(s.attempts[j].key, now), Finish(j, now, true), Finish(|s.attempts|, now, true)]
  }

  /**
   A failed send that releases the reservation of another attempt `j` lets the next send of the key through at once;
   when it and `j` succeed, two successful sends of the key are less than a window apart.
   */
  lemma {:induction false} ForeignReleaseBreaksSpacing(s: Sends, i: nat, j: nat, now: int, window: int)
    requires InFlightAt(s, i) && s.clock <= now && j < |s.attempts| && j != i
    requires s.attempts[j].key == s.attempts[i].key && Holds(s.attempts[j], now, window)
    ensures
      var s', more := SendStep(s, Finish(i, now, false), window), SendAgain(s, j, now);
      && SendStep(s', more[0], window).attempts == s'.attempts + [Attempt(s.attempts[j].key, now, InFlight)]
      && AllHarmless(s', more, window)
      && !SuccessesSpaced(SendRun(s', more, window), window)
  {
    var s', n := SendStep(s, Finish(i, now, false), window), |s.attempts|;
    var more := SendAgain(s, j, now);
    SendRunThree(s', more[0], more[1], more[2], window);
    var s1 := SendStep(s', more[0], window);
    assert s1.attempts == s'.attempts + [Attempt(s.attempts[j].key, now, InFlight)];
    var s3 := SendStep(SendStep(s1, more[1], window), more[2], window);
    assert s3.attempts[j].progress == Sent && s3.attempts[n].progress == Sent;
    assert !Spaced(s3.attempts[j], s3.attempts[n], window);
  }

  /** The success of two attempts. */
  function BothSucceed(i: nat, j: nat, now: int): seq<SendEvent> {
    [Finish(i, now, true), Finish(j, now, true)]
  }

  /** A late sample that overlooks the held attempt `j` is accepted at once; when both succeed, they are too close. */
  lemma {:induction false} LateStartBreaksSpacing(s: Sends, j: nat, now: int, window: int)
    requires j < |s.attempts| && Holds(s.attempts[j], now, window)
    requires s.attempts[j].key !in Young(s.sentAt, now, window)
    ensures
      var s' := SendStep(s, Start(s.attempts[j].key, now), window);
      var more := BothSucceed(j, |s.attempts|, s'.clock);
      && s'.attempts == s.attempts + [Attempt(s.attempts[j].key, now, InFlight)]
      && AllHarmless(s', more, window)
      && !SuccessesSpaced(SendRun(s', more, window), window)
  {
    var s', n := SendStep(s, Start(s.attempts[j].key, now), window), |s.attempts|;
    var more := BothSucceed(j, n, s'.clock);
    SendRunTwo(s', more[0], more[1], window);
    var s2 := SendStep(SendStep(s', more[0], window), more[1], window);
    assert s2.attempts[j].progress == Sent && s2.attempts[n].progress == Sent;
    assert !Spaced(s2.attempts[j], s2.attempts[n], window);
  }

  lemma ForeignReleaseAt(s: Sends, i: nat, now: int, window: int) returns (more: seq<SendEvent>)
    requires InFlightAt(s, i) && !ReleasesOnlyItself(s, i, Max(s.clock, now), window)
    ensures
      var s' := SendStep(s, Finish(i, now, false), window);
      AllHarmless(s', more, window) && !SuccessesSpaced(SendRun(s', more, window), window)
  {
    var latest := Max(s.clock, now);
    var j :| 0 <= j < |s.attempts| && j != i && s.attempts[j].key == s.attempts[i].key
             && Holds(s.attempts[j], latest, window);
    ForeignReleaseBreaksSpacing(s, i, j, latest, window);
    assert SendStep(s, Finish(i, now, false), window) == SendStep(s, Finish(i, latest, false), window);
    more := SendAgain(s, j, latest);
  }

  /** An event leaves successes spaced in all its harmless futures exactly if it is harmless itself. */
  lemma {:induction false} SpacingSurvivesIff(s: Sends, e: SendEvent, window: int)
    requires window > 0 && SendInv(s, window)
    ensures
      var s' := SendStep(s, e, window);
      Harmless(s, e, window) <==>
        forall more :: AllHarmless(s', more, window) ==> SuccessesSpaced(SendRun(s', more, window), window)
  {
    var s' := SendStep(s, e, window);
    if Harmless(s, e, window) {
      if e.Start? { StartPreserves(s, e, window); } else { FinishPreserves(s, e, window); }
      forall more | AllHarmless(s', more, window) ensures SuccessesSpaced(SendRun(s', more, window), window) {
        SendRunPreserves(s', more, window);
      }
    } else if e.Finish? {
      var more := ForeignReleaseAt(s, e.attempt, e.now, window);
    } else {
      var j :| 0 <= j < |s.attempts| && s.attempts[j].key == e.key && Holds(s.attempts[j], e.now, window);
      LateStartBreaksSpacing(s, j, e.now, window);
      assert AllHarmless(s', BothSucceed(j, |s.attempts|, s'.clock), window);
    }
  }

  // Any run, also after events that were not harmless.

  /** The latest accepted attempt of a key whose entry is in the map; it has not been released. */
  predicate IsHolder(s: Sends, k: string, m: nat) {
    && k in s.sentAt && m < |s.attempts|
    && s.attempts[m].key == k && s.attempts[m].at == s.sentAt[k] && s.attempts[m].progress != Released
    && forall j :: m < j < |s.attempts| ==> s.attempts[j].key != k
  }

  ghost predicate EntriesInv(s: Sends) {
    && (forall i {:trigger s.attempts[i]} :: 0 <= i < |s.attempts| ==> s.attempts[i].at <= s.clock)
    && (forall k :: k in s.sentAt ==> exists m: nat :: IsHolder(s, k, m))
  }

  lemma StepKeepsEntries(s: Sends, e: SendEvent, window: int)
    requires EntriesInv(s)
    ensures EntriesInv(SendStep(s, e, window))
  {
    var s' := SendStep(s, e, window);
    forall k | k in s'.sentAt ensures exists m: nat :: IsHolder(s', k, m) {
      if e.Start? && |s'.attempts| > |s.attempts| && k == e.key {
        assert s'.attempts[|s.attempts|] == Attempt(k, e.now, InFlight) && IsHolder(s', k, |s.attempts|);
      } else {
        var m: nat :| IsHolder(s, k, m);
        assert s'.attempts[m].key == k && IsHolder(s', k, m);
      }
    }
  }

  lemma {:induction false} RunKeepsEntries(start: int, events: seq<SendEvent>, window: int)
    ensures EntriesInv(SendRun(Sends(map[], [], start), events, window))
  {
    if events != [] {
      RunKeepsEntries(start, events[..|events| - 1], window);
      StepKeepsEntries(SendRun(Sends(map[], [], start), events[..|events| - 1], window), events[|events| - 1], window);
    }
  }

  lemma CloseAttemptsBreakSpacing(s: Sends, i: nat, j: nat, window: int)
    requires i < j < |s.attempts| && !Spaced(s.attempts[i], s.attempts[j], window)
    ensures
      var more := BothSucceed(i, j, s.clock);
      AllHarmless(s, more, window) && !SuccessesSpaced(SendRun(s, more, window), window)
  {
    var more := BothSucceed(i, j, s.clock);
    SendRunTwo(s, more[0], more[1], window);
    var s2 := SendStep(SendStep(s, more[0], window), more[1], window);
    assert s2.attempts[i].progress == Sent && s2.attempts[j].progress == Sent;
    assert !Spaced(s2.attempts[i], s2.attempts[j], window);
  }

  lemma ForgottenAttemptBreaksSpacing(s: Sends, j: nat, window: int) returns (more: seq<SendEvent>)
    requires EntriesInv(s) && j < |s.attempts| && !Known(s, s.attempts[j], window)
    ensures AllHarmless(s, more, window) && !SuccessesSpaced(SendRun(s, more, window), window)
  {
    var key := s.attempts[j].key;
    if key in Young(s.sentAt, s.clock, window) {
      var m: nat :| IsHolder(s, key, m);
      assert j <= m && j != m;
      assert !Spaced(s.attempts[j], s.attempts[m], window);
      CloseAttemptsBreakSpacing(s, j, m, window);
      more := BothSucceed(j, m, s.clock);
    } else {
      LateStartBreaksSpacing(s, j, s.clock, window);
      more := SendAgain(s, j, s.clock);
      SendRunThree(s, more[0], more[1], more[2], window);
      SendRunTwo(SendStep(s, more[0], window), more[1], more[2], window);
    }
  }

  /**
   After any run whatever, successes stay spaced in all harmless futures exactly if the unreleased attempts of each
   key are spaced and the map has those younger than the window.
   */
  lemma {:induction false} SpacedFuturesIff(start: int, events: seq<SendEvent>, window: int)
    requires window > 0
    ensures
      var s := SendRun(Sends(map[], [], start), events, window);
      SendInv(s, window) <==>
        forall more :: AllHarmless(s, more, window) ==> SuccessesSpaced(SendRun(s, more, window), window)
  {
    var s := SendRun(Sends(map[], [], start), events, window);
    RunKeepsEntries(start, events, window);
    if SendInv(s, window) {
      forall more | AllHarmless(s, more, window) ensures SuccessesSpaced(SendRun(s, more, window), window) {
        SendRunPreserves(s, more, window);
      }
    } else if j: nat :| j < |s.attempts| && !Known(s, s.attempts[j], window) {
      var more := ForgottenAttemptBreaksSpacing(s, j, window);
    } else {
      var i, j :| 0 <= i < j < |s.attempts| && !Spaced(s.attempts[i], s.attempts[j], window);
      CloseAttemptsBreakSpacing(s, i, j, window);
      assert AllHarmless(s, BothSucceed(i, j, s.clock), window);
    }
  }

  // Sends shorter than the window.

  /** Time does not run back, and no send is still under way a whole window after its reservation. */
  predicate Timely(s: Sends, e: SendEvent, window: int) {
    && s.clock <= e.now
    && forall i :: 0 <= i < |s.attempts| && s.attempts[i].progress == InFlight ==> e.now - s.attempts[i].at < window
  }

  predicate AllTimely(s: Sends, events: seq<SendEvent>, window: int) {
    events == [] ||
    (AllTimely(s, events[..|events| - 1], window) &&
     Timely(SendRun(s, events[..|events| - 1], window), events[|events| - 1], window))
  }

  /** A send that fails within its window finds no other reservation of its key held. */
  lemma TimelyIsHarmless(s: Sends, e: SendEvent, window: int)
    requires window > 0 && SendInv(s, window) && Timely(s, e, window)
    ensures Harmless(s, e, window)
  {
    if e.Finish? && !e.ok && InFlightAt(s, e.attempt) {
      var a := s.attempts[e.attempt];
      forall j | 0 <= j < |s.attempts| && j != e.attempt && s.attempts[j].key == a.key
        ensures !Holds(s.attempts[j], e.now, window)
      {
        assert if j < e.attempt then Spaced(s.attempts[j], a, window) else Spaced(a, s.attempts[j], window);
        assert s.attempts[j].at <= s.clock;
      }
    }
  }

  predicate InFlightAreYoung(s: Sends, window: int) {
    forall i :: 0 <= i < |s.attempts| && s.attempts[i].progress == InFlight ==> s.clock - s.attempts[i].at < window
  }

  lemma TimelyStep(s: Sends, e: SendEvent, window: int)
    requires window > 0 && Timely(s, e, window)
    ensures InFlightAreYoung(SendStep(s, e, window), window)
  {
    var s' := SendStep(s, e, window);
    forall i | 0 <= i < |s'.attempts| && s'.attempts[i].progress == InFlight
      ensures s'.clock - s'.attempts[i].at < window
    {
      assert i < |s.attempts| ==> s'.attempts[i] == s.attempts[i];
    }
  }

  lemma {:induction false} TimelyRun(s: Sends, events: seq<SendEvent>, window: int)
    requires window > 0 && SendInv(s, window) && AllTimely(s, events, window)
    ensures AllHarmless(s, events, window) && SendInv(SendRun(s, events, window), window)
    ensures events != [] ==> InFlightAreYoung(SendRun(s, events, window), window)
  {
    if events != [] {
      var front, e := events[..|events| - 1], events[|events| - 1];
      TimelyRun(s, front, window);
      TimelyIsHarmless(SendRun(s, front, window), e, window);
      TimelyStep(SendRun(s, front, window), e, window);
      SendRunPreserves(s, events, window);
    }
  }

  /** With sends shorter than the window, successes are spaced and one send per key is in flight at a time. */
  lemma {:induction false} TimelySendsAreSpacedAndAlone(start: int, events: seq<SendEvent>, window: int)
    requires window > 0 && AllTimely(Sends(map[], [], start), events, window)
    ensures
      var s := SendRun(Sends(map[], [], start), events, window);
      && SuccessesSpaced(s, window)
      && forall i, j :: 0 <= i < j < |s.attempts| && s.attempts[i].key == s.attempts[j].key ==>
           s.attempts[i].progress != InFlight || s.attempts[j].progress != InFlight
  {
    var s := SendRun(Sends(map[], [], start), events, window);
    TimelyRun(Sends(map[], [], start), events, window);
    forall i, j | 0 <= i < j < |s.attempts| && s.attempts[i].key == s.attempts[j].key
      ensures s.attempts[i].progress != InFlight || s.attempts[j].progress != InFlight
    {
      assert Spaced(s.attempts[i], s.attempts[j], window);
      assert s.attempts[j].at <= s.clock;
    }
  }

  /** A send that outlives its window can release its successor's reservation; then spacing fails. */
  lemma SlowSendBreaksSpacing()
    ensures
      var s0 := Sends(map[], [], 0);
      var s1 := SendStep(SendStep(s0, Start("k", 0), 10), Start("k", 10), 10);
      var s2 := SendStep(SendStep(s1, Finish(0, 11, false), 10), Start("k", 12), 10);
      var s3 := SendStep(SendStep(s2, Finish(1, 13, true), 10), Finish(2, 14, true), 10);
      s3.attempts == [Attempt("k", 0, Released), Attempt("k", 10, Sent), Attempt("k", 12, Sent)]
  {
  }
}
