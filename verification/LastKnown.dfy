/** Fetching with a last-known fallback: services/carrier-sync-service/internal/service/service.go. */
module LastKnown {
  import opened Outcomes

  const DEFAULT_BATCH_SIZE := 5
  const MAX_BATCH_SIZE := 50

  datatype StatusUpdate = StatusUpdate(orderId: string, externalStatus: string, updatedAt: int)

  datatype FetchError = FetchError(message: string)

  /** What one call of the carrier client returned. */
  type Fetched = Result<seq<StatusUpdate>, FetchError>

  function NormalizeBatchSize(batchSize: int): (n: nat)
    ensures 1 <= batchSize <= 50 ==> n == batchSize
    ensures batchSize <= 0 ==> n == 5
    ensures batchSize > 50 ==> n == 50
  {
    if batchSize <= 0 then DEFAULT_BATCH_SIZE
    else if batchSize > MAX_BATCH_SIZE then MAX_BATCH_SIZE
    else batchSize
  }

  /** The most recent fetch that succeeded with at least one update. */
  function LatestNonEmpty(fetches: seq<Fetched>): seq<StatusUpdate> {
    if fetches == [] then []
    else
      match fetches[|fetches| - 1]
      case Success(updates) => if updates != [] then updates else LatestNonEmpty(fetches[..|fetches| - 1])
      case Failure(_) => LatestNonEmpty(fetches[..|fetches| - 1])
  }

  /** The updates of fetch `i`, and every later fetch failed or was empty. */
  predicate IsLatest(fetches: seq<Fetched>, i: nat) {
    && i < |fetches| && fetches[i].Success? && fetches[i].value != []
    && forall j :: i < j < |fetches| ==> fetches[j].Failure? || fetches[j].value == []
  }

  lemma {:induction false} LatestIs(fetches: seq<Fetched>, i: nat)
    requires IsLatest(fetches, i)
    ensures LatestNonEmpty(fetches) == fetches[i].value
  {
    if i < |fetches| - 1 { LatestIs(fetches[..|fetches| - 1], i); }
  }

  lemma {:induction false} NoLatest(fetches: seq<Fetched>)
    requires forall i :: 0 <= i < |fetches| ==> fetches[i].Failure? || fetches[i].value == []
    ensures LatestNonEmpty(fetches) == []
  {
    if fetches != [] { NoLatest(fetches[..|fetches| - 1]); }
  }

  /** The fallback: as many of the updates as the batch size asks for, five by default and at most fifty. */
  lemma PrefixIs(updates: seq<StatusUpdate>, batchSize: int)
    ensures
      var n := if batchSize <= 0 then 5 else if batchSize > 50 then 50 else batchSize;
      var p := Prefix(updates, batchSize);
      |p| == (if |updates| < n then |updates| else n) && forall i :: 0 <= i < |p| ==> p[i] == updates[i]
  {
  }

  lemma LatestAfter(fetches: seq<Fetched>, last: Fetched)
    ensures LatestNonEmpty(fetches + [last]) ==
            if last.Success? && last.value != [] then last.value else LatestNonEmpty(fetches)
  {
    assert (fetches + [last])[..|fetches|] == fetches;
  }

  /** The last-known answer for a batch size. */
  function Prefix(updates: seq<StatusUpdate>, batchSize: int): seq<StatusUpdate> {
    var limit := NormalizeBatchSize(batchSize);
    updates[..if limit > |updates| then |updates| else limit]
  }

  /** A Go slice that may be nil. */
  type Slice = array?<StatusUpdate>

  function Contents(s: Slice): seq<StatusUpdate>
    reads s
  {
    if s == null then [] else s[..]
  }

  /** `nil` for an empty slice, else a copy that shares nothing with it. */
  method CloneStatusUpdates(updates: Slice, limit: nat) returns (cloned: Slice)
    requires limit <= |Contents(updates)|
    ensures cloned == null || fresh(cloned)
    ensures Contents(cloned) == Contents(updates)[..limit]
    ensures cloned == null <==> limit == 0
  {
    if limit == 0 { return null; }
    var copy := new StatusUpdate[limit](_ => StatusUpdate("", "", 0));
    for i := 0 to limit
      invariant copy[..i] == updates[..i]
    {
      copy[i] := updates[i];
    }
    assert copy[..limit] == copy[..];
    cloned := copy;
  }

  class SyncService {
    var lastKnown: Slice
    /** Everything the carrier client has returned so far. */
    ghost var fetches: seq<Fetched>
    /** The batch size of each request to it. */
    ghost var requested: seq<nat>

    ghost predicate Valid()
      reads this, lastKnown
    {
      && Contents(lastKnown) == LatestNonEmpty(fetches)
      && (lastKnown != null ==> lastKnown.Length > 0)
    }

    constructor ()
      ensures Valid() && fetches == [] && requested == [] && lastKnown == null
    {
      lastKnown, fetches, requested := null, [], [];
    }

    method StoreLastKnown(updates: Slice)
      modifies this`lastKnown
      ensures Contents(updates) == [] ==> lastKnown == old(lastKnown)
      ensures Contents(updates) != [] ==>
        lastKnown != null && fresh(lastKnown) && Contents(lastKnown) == Contents(updates)
    {
      if updates == null || updates.Length == 0 { return; }
      lastKnown := CloneStatusUpdates(updates, updates.Length);
    }

    /** `response` is the client's slice, `error` its error if it fails. */
    method SyncOnce(batchSize: int, response: Slice, error: Option<FetchError>)
      returns (updates: Slice, failed: Option<FetchError>)
      requires Valid() && (response != null ==> response != lastKnown)
      modifies this
      ensures Valid() && failed == error
      ensures fetches == old(fetches) + [if error.Some? then Failure(error.value) else Success(Contents(response))]
      ensures requested == old(requested) + [NormalizeBatchSize(batchSize)]
      ensures Contents(updates) == if error.Some? then [] else Contents(response)
      ensures updates != null ==> fresh(updates) && updates != lastKnown
      ensures lastKnown == old(lastKnown) || fresh(lastKnown)
    {
      ghost var sent := Contents(response);
      ghost var got := if error.Some? then Failure(error.value) else Success(sent);
      LatestAfter(fetches, got);
      if error.None? {
        StoreLastKnown(response);
        updates := CloneStatusUpdates(response, |Contents(response)|);
        assert Contents(updates) == sent;
      } else {
        updates := null;
      }
      fetches, requested := fetches + [got], requested + [NormalizeBatchSize(batchSize)];
      failed := error;
    }

    method LastKnownStatuses(batchSize: int) returns (updates: Slice)
      requires Valid()
      ensures Contents(updates) == Prefix(LatestNonEmpty(fetches), batchSize)
      ensures updates != null ==> fresh(updates) && updates.Length > 0
    {
      var limit := NormalizeBatchSize(batchSize);
      if lastKnown == null || lastKnown.Length == 0 { return null; }
      if limit > lastKnown.Length { limit := lastKnown.Length; }
      updates := CloneStatusUpdates(lastKnown, limit);
    }

    method SyncOnceWithFallback(batchSize: int, response: Slice, error: Option<FetchError>)
      returns (updates: Slice, fallbackUsed: bool, failed: Option<FetchError>)
      requires Valid() && (response != null ==> response != lastKnown)
      modifies this
      ensures Valid()
      ensures fetches == old(fetches) + [if error.Some? then Failure(error.value) else Success(Contents(response))]
      ensures requested == old(requested) + [NormalizeBatchSize(batchSize)]
      ensures error.None? ==> failed == None && !fallbackUsed && Contents(updates) == Contents(response)
      ensures error.Some? && LatestNonEmpty(old(fetches)) == [] ==> failed == error && !fallbackUsed && updates == null
      ensures error.Some? && LatestNonEmpty(old(fetches)) != [] ==>
        failed == None && fallbackUsed && Contents(updates) == Prefix(LatestNonEmpty(old(fetches)), batchSize)
      ensures updates != null ==> fresh(updates) && updates != lastKnown
    {
      updates, failed := SyncOnce(batchSize, response, error);
      fallbackUsed := false;
      if failed.None? { return; }
      var known := LastKnownStatuses(batchSize);
      if known == null || known.Length == 0 { return null, false, failed; }
      return known, true, None;
    }
  }

  /** A caller that scribbles over an answer changes no later answer. */
  method MutationIsHarmless(s: SyncService, batchSize: int, scribble: StatusUpdate)
    returns (before: seq<StatusUpdate>, after: seq<StatusUpdate>)
    requires s.Valid()
    ensures before == after == Prefix(LatestNonEmpty(s.fetches), batchSize)
  {
    var first := s.LastKnownStatuses(batchSize);
    before := Contents(first);
    if first != null {
      for i := 0 to first.Length
        modifies first
      {
        first[i] := scribble;
      }
    }
    var second := s.LastKnownStatuses(batchSize);
    after := Contents(second);
  }
}
