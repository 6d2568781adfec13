/**
 * The fetcher of missing chunks: its queue, the requests that are under way and the claims it holds on the
 * coordinator, under every interleaving of events, request steps, runner failures, stalls and destruction.
 * A step is what runs between two awaits.
 */
module ChunkFetchers {

  import opened DeliveryClaims

  const BATCH_SIZE := 100

  type RequestId = nat

  /** One activation of `requestMissingChunks`; `waitsFor` are the claims whose activity boundary it awaits. */
  datatype Request = Request(ids: seq<DocumentId>, waitsFor: set<ClaimId>, waiting: bool)

  type PendingClaims = map<DocumentId, ClaimId>

  ghost predicate Distinct<T(!new)>(s: seq<T>) {
    forall i, j | 0 <= i < j < |s| :: s[i] != s[j]
  }

  /** Keeps the first of equal elements. */
  function Unique(s: seq<DocumentId>): (u: seq<DocumentId>)
    ensures Distinct(u) && |u| <= |s|
    ensures forall id :: id in u <==> id in s
  {
    if s == [] then []
    else
      var u := Unique(s[..|s| - 1]);
      assert s == s[..|s| - 1] + [s[|s| - 1]];
      if s[|s| - 1] in u then u else u + [s[|s| - 1]]
  }

  function Filter(s: seq<DocumentId>, keep: set<DocumentId>): (f: seq<DocumentId>)
    ensures |f| <= |s|
    ensures forall id :: id in f <==> id in s && id in keep
    ensures Distinct(s) ==> Distinct(f)
  {
    if s == [] then []
    else
      var f := Filter(s[..|s| - 1], keep);
      assert s == s[..|s| - 1] + [s[|s| - 1]];
      if s[|s| - 1] in keep then f + [s[|s| - 1]] else f
  }

  /** What is kept stays in its order. */
  lemma {:induction false} FilterKeepsOrder(s: seq<DocumentId>, keep: set<DocumentId>, i: nat, j: nat)
    requires i < j < |s| && s[i] in keep && s[j] in keep
    ensures exists a, b :: 0 <= a < b < |Filter(s, keep)| && Filter(s, keep)[a] == s[i] && Filter(s, keep)[b] == s[j]
  {
    var front := s[..|s| - 1];
    var f := Filter(front, keep);
    if j < |front| {
      FilterKeepsOrder(front, keep, i, j);
      var a, b :| 0 <= a < b < |f| && f[a] == s[i] && f[b] == s[j];
      assert Filter(s, keep)[a] == f[a] && Filter(s, keep)[b] == f[b];
    } else {
      assert front[i] in f;
      var a :| 0 <= a < |f| && f[a] == s[i];
      assert Filter(s, keep)[a] == s[i] && Filter(s, keep)[|f|] == s[j];
    }
  }

  lemma {:induction false} UniqueOfDistinct(s: seq<DocumentId>)
    requires Distinct(s)
    ensures Unique(s) == s
  {
    if s != [] {
      UniqueOfDistinct(s[..|s| - 1]);
      assert s == s[..|s| - 1] + [s[|s| - 1]];
    }
  }

  lemma OneMore(s: seq<DocumentId>, id: DocumentId, keep: set<DocumentId>)
    ensures Unique(s + [id]) == if id in s then Unique(s) else Unique(s) + [id]
    ensures Filter(s + [id], keep) == if id in keep then Filter(s, keep) + [id] else Filter(s, keep)
    ensures Distinct(s + [id]) ==> Distinct(s) && id !in s
  {
    var more := s + [id];
    assert more[..|more| - 1] == s && more[|more| - 1] == id;
    assert forall i | 0 <= i < |s| :: more[i] == s[i];
  }

  /** Behind a queue without repetitions come, in their order, the identifiers that were not in it. */
  lemma {:induction false} UniqueAppends(queue: seq<DocumentId>, more: seq<DocumentId>, keep: set<DocumentId>)
    requires Distinct(queue) && Distinct(more) && forall id | id in more :: id in keep <==> id !in queue
    ensures Unique(queue + more) == queue + Filter(more, keep)
  {
    if more == [] {
      UniqueOfDistinct(queue);
      assert queue + more == queue;
    } else {
      var front, last := more[..|more| - 1], more[|more| - 1];
      assert more == front + [last];
      OneMore(front, last, keep);
      UniqueAppends(queue, front, keep);
      NewAtEnd(queue, front, last, keep);
    }
  }

  lemma NewAtEnd(queue: seq<DocumentId>, front: seq<DocumentId>, last: DocumentId, keep: set<DocumentId>)
    requires Unique(queue + front) == queue + Filter(front, keep) && last !in front && (last in keep <==> last !in queue)
    ensures Unique(queue + (front + [last])) == queue + Filter(front + [last], keep)
  {
    hide Unique, Filter;
    OneMore(queue + front, last, keep);
    OneMore(front, last, keep);
    assert queue + (front + [last]) == (queue + front) + [last];
    assert (queue + Filter(front, keep)) + [last] == queue + (Filter(front, keep) + [last]);
  }

  /** What is asked for and not claimed yet, once each. */
  function Unclaimed(ids: seq<DocumentId>, pendingClaims: PendingClaims): (claimed: seq<DocumentId>)
    ensures Distinct(claimed) && forall id :: id in claimed <==> id in ids && id !in pendingClaims
  {
    Unique(Filter(ids, set id | id in ids && id !in pendingClaims))
  }

  /** The identifiers whose claim is still the one that was waited for, and whose activity has begun. */
  function Entered(r: Request, pendingClaims: PendingClaims, entered: map<ClaimId, bool>): (kept: seq<DocumentId>)
    ensures forall id :: id in kept <==> id in r.ids && id in pendingClaims && pendingClaims[id] in r.waitsFor
                                         && pendingClaims[id] in entered && entered[pendingClaims[id]]
  {
    Filter(r.ids, set id | id in r.ids && id in pendingClaims && pendingClaims[id] in r.waitsFor
                           && pendingClaims[id] in entered && entered[pendingClaims[id]])
  }

  /** The queue without some identifiers, in its order. */
  function Rest(queue: seq<DocumentId>, removed: set<DocumentId>): (rest: seq<DocumentId>)
    ensures |rest| <= |queue| && (Distinct(queue) ==> Distinct(rest))
    ensures forall id :: id in rest <==> id in queue && id !in removed
  {
    Filter(queue, set id | id in queue && id !in removed)
  }

  /** A claim that is given up. */
  const GIVEN_UP := Claim({}, true, true, false)

  // ----- the invariant, part by part -----

  /** A live claim waits for exactly the identifiers that are mapped to it. */
  ghost predicate IsPartition(pendingClaims: PendingClaims, claims: seq<Claim>) {
    && (forall id | id in pendingClaims :: pendingClaims[id] < |claims|)
    && (forall c, id | 0 <= c < |claims| && !claims[c].released ::
          id in claims[c].pending <==> id in pendingClaims && pendingClaims[id] == c)
  }

  ghost predicate AllMappedAreLive(pendingClaims: PendingClaims, claims: seq<Claim>) {
    forall id | id in pendingClaims :: pendingClaims[id] < |claims| && !claims[pendingClaims[id]].released
  }

  ghost predicate NoMappedIsRefused(pendingClaims: PendingClaims, entered: map<ClaimId, bool>) {
    forall id | id in pendingClaims :: pendingClaims[id] in entered ==> entered[pendingClaims[id]]
  }

  /** The request is going to settle the identifier: when it has waited, it does so whichever claim it then finds. */
  predicate Serves(r: Request, id: DocumentId, c: ClaimId) {
    id in r.ids && (r.waiting ==> c in r.waitsFor)
  }

  predicate IsServed(pendingClaims: PendingClaims, queue: seq<DocumentId>, requests: map<RequestId, Request>, id: DocumentId)
    requires id in pendingClaims
  {
    id in queue || exists k :: k in requests && Serves(requests[k], id, pendingClaims[id])
  }

  /** No claim is forgotten: every claimed identifier is still queued or is settled by a request under way. */
  ghost predicate AllServed(pendingClaims: PendingClaims, queue: seq<DocumentId>, requests: map<RequestId, Request>) {
    forall id | id in pendingClaims :: IsServed(pendingClaims, queue, requests, id)
  }

  /** What the coordinator counts is what the fetcher waits for, once each. */
  lemma ActiveIsPending(counts: Counts, claims: seq<Claim>, pendingClaims: PendingClaims)
    requires CountsAreRight(counts, claims)
    requires IsPartition(pendingClaims, claims) && AllMappedAreLive(pendingClaims, claims)
    ensures counts == map id | id in pendingClaims :: 1
  {
    forall id: DocumentId
      ensures id in counts <==> id in pendingClaims
      ensures id in counts ==> counts[id] == 1
    {
      assert CountIsRight(counts, claims, id);
      if id in pendingClaims {
        assert pendingClaims[id] in Holders(claims, id);
        assert Holders(claims, id) == {pendingClaims[id]};
      } else {
        assert Holders(claims, id) == {};
      }
    }
  }

  ghost predicate InBatches(requests: map<RequestId, Request>, nextRequest: RequestId) {
    forall k | k in requests :: k < nextRequest && |requests[k].ids| <= BATCH_SIZE
  }

  ghost predicate AllBelow(entered: map<ClaimId, bool>, n: nat) {
    forall c | c in entered :: c < n
  }

  lemma NothingForgotten(pendingClaims: PendingClaims)
    requires AllServed(pendingClaims, [], map[])
    ensures pendingClaims == map[]
  {
  }

  // ----- how the parts survive a step -----

  lemma AddedRequest(requests: map<RequestId, Request>, n: RequestId, r: Request)
    requires InBatches(requests, n) && |r.ids| <= BATCH_SIZE
    ensures n !in requests && |requests[n := r]| == |requests| + 1 && InBatches(requests[n := r], n + 1)
  {
    assert n !in requests;
    assert requests[n := r].Keys == requests.Keys + {n};
  }

  lemma RemovedRequest(requests: map<RequestId, Request>, n: RequestId, k: RequestId)
    requires InBatches(requests, n) && k in requests
    ensures |requests - {k}| == |requests| - 1 && InBatches(requests - {k}, n)
  {
    assert (requests - {k}).Keys == requests.Keys - {k};
  }

  function AllTo(ids: seq<DocumentId>, c: ClaimId): PendingClaims {
    map id | id in ids :: c
  }

  lemma OnlyClaimedAreNew(pendingClaims: PendingClaims, ids: seq<DocumentId>, c: ClaimId)
    ensures var pendingClaims' := pendingClaims + AllTo(Unclaimed(ids, pendingClaims), c);
            forall id | id in pendingClaims' && id !in ids :: id in pendingClaims && pendingClaims'[id] == pendingClaims[id]
  {
  }

  lemma NoneIsRefused(pendingClaims: PendingClaims, entered: map<ClaimId, bool>, claimed: seq<DocumentId>, n: nat)
    requires NoMappedIsRefused(pendingClaims, entered) && AllBelow(entered, n)
    ensures NoMappedIsRefused(pendingClaims + AllTo(claimed, n), entered)
  {
  }

  lemma StillBelow(entered: map<ClaimId, bool>, n: nat, m: nat)
    requires AllBelow(entered, n) && n <= m
    ensures AllBelow(entered, m)
  {
  }

  lemma RestIsDistinct(queue: seq<DocumentId>, size: nat)
    requires Distinct(queue) && size <= |queue|
    ensures Distinct(queue[size..])
  {
  }

  ghost predicate Linked(pendingClaims: PendingClaims, claims: seq<Claim>, disposed: bool) {
    IsPartition(pendingClaims, claims) && (!disposed ==> AllMappedAreLive(pendingClaims, claims))
  }

  lemma LinkedAfterClaim(pendingClaims: PendingClaims, claims: seq<Claim>, ids: set<DocumentId>)
    requires Linked(pendingClaims, claims, false) && ids !! pendingClaims.Keys
    ensures Linked(pendingClaims + map id | id in ids :: |claims|, claims + [Claim(ids, false, false, true)], false)
  {
  }

  lemma LinkedAfterSettling(pendingClaims: PendingClaims, claims: seq<Claim>, disposed: bool, id: DocumentId)
    requires Linked(pendingClaims, claims, disposed) && id in pendingClaims
    ensures var c := pendingClaims[id];
            c < |claims| && Linked(pendingClaims - {id}, claims[c := Without(claims[c], id)], disposed)
  {
    var c := pendingClaims[id];
    if !claims[c].released && claims[c].pending == {id} {
      forall i | i in pendingClaims - {id}
        ensures pendingClaims[i] != c
      {
        assert i !in claims[c].pending;
      }
    }
  }

  lemma LinkedAfterRelease(pendingClaims: PendingClaims, claims: seq<Claim>, disposed: bool, c: ClaimId)
    requires Linked(pendingClaims, claims, disposed) && c < |claims| && (claims[c].released ==> claims[c].pending == {})
    ensures Linked(pendingClaims - claims[c].pending, claims[c := GIVEN_UP], disposed)
  {
    var pendingClaims', claims' := pendingClaims - claims[c].pending, claims[c := GIVEN_UP];
    forall d, id | 0 <= d < |claims'| && !claims'[d].released
      ensures id in claims'[d].pending <==> id in pendingClaims' && pendingClaims'[id] == d
    {
      assert d != c && id in claims[d].pending <==> id in pendingClaims && pendingClaims[id] == d;
    }
    forall id | id in pendingClaims'
      ensures pendingClaims'[id] == pendingClaims[id] && (!claims[c].released ==> pendingClaims[id] != c)
    {
      assert !claims[c].released ==> (id in claims[c].pending <==> pendingClaims[id] == c);
    }
  }

  lemma StillServed(pendingClaims: PendingClaims, queue: seq<DocumentId>, requests: map<RequestId, Request>,
                    pendingClaims': PendingClaims, queue': seq<DocumentId>, requests': map<RequestId, Request>)
    requires AllServed(pendingClaims, queue, requests)
    requires forall id | id in pendingClaims' :: id in pendingClaims && pendingClaims'[id] == pendingClaims[id]
    requires forall id | id in pendingClaims' && id in queue :: IsServed(pendingClaims', queue', requests', id)
    requires forall k, id | k in requests && id in pendingClaims' && Serves(requests[k], id, pendingClaims'[id]) ::
               k in requests' && Serves(requests'[k], id, pendingClaims'[id])
    ensures AllServed(pendingClaims', queue', requests')
  {
    forall id | id in pendingClaims'
      ensures IsServed(pendingClaims', queue', requests', id)
    {
      assert IsServed(pendingClaims, queue, requests, id);
    }
  }

  lemma ServedAfterStart(pendingClaims: PendingClaims, queue: seq<DocumentId>, requests: map<RequestId, Request>,
                         pendingClaims': PendingClaims, size: nat, r: Request, n: RequestId)
    requires AllServed(pendingClaims, queue, requests) && n !in requests && size <= |queue| && r.ids == queue[..size]
    requires forall id | id in pendingClaims' && id !in r.ids :: id in pendingClaims && pendingClaims'[id] == pendingClaims[id]
    requires forall id | id in r.ids && id in pendingClaims' :: pendingClaims'[id] in r.waitsFor
    ensures AllServed(pendingClaims', queue[size..], requests[n := r])
  {
    var queue', requests' := queue[size..], requests[n := r];
    assert queue == r.ids + queue';
    forall id | id in pendingClaims'
      ensures IsServed(pendingClaims', queue', requests', id)
    {
      if id in r.ids {
        assert Serves(requests'[n], id, pendingClaims'[id]);
      } else {
        assert IsServed(pendingClaims, queue, requests, id);
        if id !in queue {
          var k :| k in requests && Serves(requests[k], id, pendingClaims[id]);
          assert k in requests' && Serves(requests'[k], id, pendingClaims'[id]);
        }
      }
    }
  }

  /** New claims are queued. */
  lemma ServedAfterEvent(pendingClaims: PendingClaims, queue: seq<DocumentId>, requests: map<RequestId, Request>, claimed: seq<DocumentId>, n: ClaimId)
    requires AllServed(pendingClaims, queue, requests) && forall id | id in claimed :: id !in pendingClaims
    ensures AllServed(pendingClaims + AllTo(claimed, n), Unique(queue + claimed), requests)
  {
    forall id | id in pendingClaims + AllTo(claimed, n)
      ensures IsServed(pendingClaims + AllTo(claimed, n), Unique(queue + claimed), requests, id)
    {
      if id !in claimed {
        assert IsServed(pendingClaims, queue, requests, id);
      }
    }
  }

  /** A claim that is given up takes its identifiers along. */
  lemma NoneIsRefusedAfterRelease(pendingClaims: PendingClaims, claims: seq<Claim>, entered: map<ClaimId, bool>, c: ClaimId)
    requires NoMappedIsRefused(pendingClaims, entered)
    requires AllMappedAreLive(pendingClaims, claims) && c < |claims| && claims[c].released
    ensures NoMappedIsRefused(pendingClaims, entered[c := false])
  {
    forall id | id in pendingClaims
      ensures pendingClaims[id] != c
    {
    }
  }

  /** Who keeps the identifiers that passed the boundary still serves them. */
  lemma ServedAfterWait(pendingClaims: PendingClaims, queue: seq<DocumentId>, requests: map<RequestId, Request>,
                        entered: map<ClaimId, bool>, k: RequestId, r: Request)
    requires AllServed(pendingClaims, queue, requests) && NoMappedIsRefused(pendingClaims, entered)
    requires k in requests && requests[k].waitsFor <= entered.Keys && !r.waiting
    requires forall id | id in requests[k].ids && id in pendingClaims && pendingClaims[id] in requests[k].waitsFor && entered[pendingClaims[id]] ::
               id in r.ids
    requires requests[k].waiting
    ensures AllServed(pendingClaims, queue, requests[k := r])
  {
    StillServed(pendingClaims, queue, requests, pendingClaims, queue, requests[k := r]);
  }

  lemma ServedAfterFinish(pendingClaims: PendingClaims, queue: seq<DocumentId>, requests: map<RequestId, Request>, k: RequestId)
    requires AllServed(pendingClaims, queue, requests) && k in requests
    ensures AllServed(pendingClaims - (set id | id in requests[k].ids), queue, requests - {k})
  {
    StillServed(pendingClaims, queue, requests, pendingClaims - (set id | id in requests[k].ids), queue, requests - {k});
  }

  lemma ServedAfterRemoval(pendingClaims: PendingClaims, queue: seq<DocumentId>, requests: map<RequestId, Request>,
                           removed: set<DocumentId>, queue': seq<DocumentId>)
    requires AllServed(pendingClaims, queue, requests)
    requires forall id | id in queue && id !in removed :: id in queue'
    ensures AllServed(pendingClaims - removed, queue', requests)
  {
    StillServed(pendingClaims, queue, requests, pendingClaims - removed, queue', requests);
  }

  lemma MappedTo(pendingClaims: PendingClaims, claims: seq<Claim>, disposed: bool, c: ClaimId)
    requires Linked(pendingClaims, claims, disposed) && c < |claims| && (claims[c].released ==> claims[c].pending == {})
    ensures forall id | id in claims[c].pending && id in pendingClaims :: pendingClaims[id] == c
  {
  }

  /** After a claim was given up, because its runner rejected or because it stalled. */
  lemma GivenUp(pendingClaims: PendingClaims, queue: seq<DocumentId>, requests: map<RequestId, Request>,
                claims: seq<Claim>, disposed: bool, entered: map<ClaimId, bool>,
                c: ClaimId, queue': seq<DocumentId>, entered': map<ClaimId, bool>)
    requires Linked(pendingClaims, claims, disposed)
    requires !disposed ==> NoMappedIsRefused(pendingClaims, entered) && AllServed(pendingClaims, queue, requests)
    requires c < |claims| && (claims[c].released ==> claims[c].pending == {})
    requires entered' == if c in entered then entered else entered[c := false]
    requires forall id | id in queue && id !in claims[c].pending :: id in queue'
    ensures var pendingClaims' := pendingClaims - claims[c].pending;
            && Linked(pendingClaims', claims[c := GIVEN_UP], disposed)
            && (!disposed ==> NoMappedIsRefused(pendingClaims', entered') && AllServed(pendingClaims', queue', requests))
  {
    LinkedAfterRelease(pendingClaims, claims, disposed, c);
    if !disposed {
      ServedAfterRemoval(pendingClaims, queue, requests, claims[c].pending, queue');
      if c !in entered {
        NoneIsRefusedAfterRelease(pendingClaims - claims[c].pending, claims[c := GIVEN_UP], entered, c);
      }
    }
  }

  datatype Event =
    | MissingChunks(ids: seq<DocumentId>)
    | StartRequest
    | EndWait(request: RequestId)
    | FinishRequest(request: RequestId)
    | RunnerEnters(claim: ClaimId)
    | RunnerRejects(claim: ClaimId)
    | Stall(claim: ClaimId)
    | Destroy
    | DisposeCoordinator

  class ChunkFetcher {
    const coordinator: ChunkDeliveryCoordinator
    const concurrency: nat

    var queue: seq<DocumentId>
    var pendingClaims: PendingClaims
    var destroyed: bool
    var currentProcessing: nat

    var entered: map<ClaimId, bool> // the activity boundaries that are resolved
    var requests: map<RequestId, Request> // the requests under way
    var nextRequest: RequestId
    var scheduled: nat // the starts of a request that timers hold

    ghost predicate Valid()
      reads this, coordinator
    {
      && coordinator.Settled()
      && Linked(pendingClaims, coordinator.claims, coordinator.disposed)
      && (!coordinator.disposed ==>
            && NoMappedIsRefused(pendingClaims, entered)
            && AllServed(pendingClaims, queue, requests))
      && Distinct(queue)
      && InBatches(requests, nextRequest)
      && currentProcessing == |requests| <= concurrency
      && AllBelow(entered, |coordinator.claims|)
      && (destroyed ==> pendingClaims == map[] && queue == [])
    }

    /** What is queued is going to be looked at: by a start that is scheduled, or when a request ends. */
    ghost predicate IsAttended()
      reads this
    {
      concurrency > 0 && queue != [] ==> scheduled > 0 || currentProcessing > 0
    }

    constructor (coordinator: ChunkDeliveryCoordinator, concurrency: nat)
      requires coordinator.Settled() && coordinator.claims == []
      ensures Valid() && IsAttended() && this.coordinator == coordinator && this.concurrency == concurrency && !destroyed
    {
      this.coordinator, this.concurrency := coordinator, concurrency;
      queue, pendingClaims, destroyed, currentProcessing := [], map[], false, 0;
      entered, requests, nextRequest, scheduled := map[], map[], 0, 0;
    }

    method MapTo(ids: seq<DocumentId>, c: ClaimId)
      modifies this`pendingClaims
      ensures pendingClaims == old(pendingClaims) + AllTo(ids, c)
    {
      for i := 0 to |ids|
        invariant pendingClaims == old(pendingClaims) + AllTo(ids[..i], c)
      {
        pendingClaims := pendingClaims[ids[i] := c];
      }
      assert ids[..|ids|] == ids;
    }

    /** A claim on a disposed coordinator throws. */
    method EnsureClaims(ids: seq<DocumentId>) returns (claimed: seq<DocumentId>, thrown: bool)
      requires coordinator.Settled() && Linked(pendingClaims, coordinator.claims, coordinator.disposed)
      modifies this`pendingClaims, coordinator
      ensures coordinator.Settled() && Linked(pendingClaims, coordinator.claims, coordinator.disposed)
      ensures coordinator.disposed == old(coordinator.disposed) && |coordinator.claims| >= |old(coordinator.claims)|
      ensures thrown ==> coordinator.disposed && pendingClaims == old(pendingClaims) && coordinator.claims == old(coordinator.claims)
      ensures claimed == Unclaimed(ids, old(pendingClaims)) && (thrown <==> claimed != [] && old(coordinator.disposed))
      ensures claimed == [] ==> coordinator.claims == old(coordinator.claims)
      ensures !thrown ==>
                && pendingClaims == old(pendingClaims) + AllTo(claimed, |old(coordinator.claims)|)
                && (forall id | id in ids :: id in pendingClaims)
    {
      hide Linked, CountsAreRight;
      claimed, thrown := Unclaimed(ids, pendingClaims), false;
      if claimed == [] {
        return;
      }
      if coordinator.disposed {
        thrown := true;
        return;
      }
      var c, wanted := |coordinator.claims|, set id | id in claimed;
      assert claimed[0] in wanted;
      LinkedAfterClaim(pendingClaims, coordinator.claims, wanted);
      coordinator.DoClaim(wanted, Call(MakeClaim(wanted), []));
      MapTo(claimed, c);
      assert AllTo(claimed, c) == map id | id in wanted :: |old(coordinator.claims)|;
    }

    predicate CanRequestMore()
      reads this
    {
      currentProcessing < concurrency && |queue| > 0
    }

    method OnEvent(ids: seq<DocumentId>)
      requires Valid()
      modifies this, coordinator
      ensures Valid()
      ensures old(IsAttended()) ==> IsAttended()
      ensures destroyed == old(destroyed) && requests == old(requests) && coordinator.disposed == old(coordinator.disposed)
      ensures var claimed := Unclaimed(ids, old(pendingClaims));
              if destroyed || (coordinator.disposed && claimed != []) then pendingClaims == old(pendingClaims) && queue == old(queue)
              else pendingClaims == old(pendingClaims) + AllTo(claimed, |old(coordinator.claims)|) && queue == Unique(old(queue) + claimed)
      ensures !destroyed && !coordinator.disposed ==> forall id | id in ids :: id in pendingClaims
      ensures scheduled == old(scheduled) + if !destroyed && !(coordinator.disposed && Unclaimed(ids, old(pendingClaims)) != []) && CanRequestMore() then 1 else 0
    {
      hide Linked, CountsAreRight, AllServed, AllBelow, Distinct, NoMappedIsRefused, InBatches, ChunkDeliveryCoordinator.Settled, Unclaimed, Unique;
      if destroyed {
        return;
      }
      var claimed, thrown := EnsureClaims(ids);
      if thrown {
        return;
      }
      queue := Unique(queue + claimed);
      if CanRequestMore() {
        scheduled := scheduled + 1;
      }
      StillBelow(entered, |old(coordinator.claims)|, |coordinator.claims|);
      if !coordinator.disposed {
        NoneIsRefused(old(pendingClaims), entered, claimed, |old(coordinator.claims)|);
        ServedAfterEvent(old(pendingClaims), old(queue), requests, claimed, |old(coordinator.claims)|);
      }
    }

    method SettleClaim(id: DocumentId)
      requires coordinator.Settled() && Linked(pendingClaims, coordinator.claims, coordinator.disposed)
      modifies this`pendingClaims, coordinator
      ensures coordinator.Settled() && Linked(pendingClaims, coordinator.claims, coordinator.disposed)
      ensures coordinator.disposed == old(coordinator.disposed) && |coordinator.claims| == |old(coordinator.claims)|
      ensures pendingClaims == old(pendingClaims) - {id}
    {
      hide Linked, CountsAreRight;
      if id !in pendingClaims {
        return;
      }
      var c := pendingClaims[id];
      LinkedAfterSettling(pendingClaims, coordinator.claims, coordinator.disposed, id);
      pendingClaims := pendingClaims - {id};
      coordinator.DoSettle(c, id, Call(Settle(c, id), []));
    }

    method SettleAll(ids: seq<DocumentId>)
      requires coordinator.Settled() && Linked(pendingClaims, coordinator.claims, coordinator.disposed)
      modifies this`pendingClaims, coordinator
      ensures coordinator.Settled() && Linked(pendingClaims, coordinator.claims, coordinator.disposed)
      ensures coordinator.disposed == old(coordinator.disposed) && |coordinator.claims| == |old(coordinator.claims)|
      ensures pendingClaims == old(pendingClaims) - set id | id in ids
      ensures ids == [] ==> coordinator.claims == old(coordinator.claims)
    {
      hide Linked, ChunkDeliveryCoordinator.Settled;
      for i := 0 to |ids|
        invariant coordinator.Settled() && Linked(pendingClaims, coordinator.claims, coordinator.disposed)
        invariant coordinator.disposed == old(coordinator.disposed) && |coordinator.claims| == |old(coordinator.claims)|
        invariant pendingClaims == old(pendingClaims) - set id | id in ids[..i]
        invariant i == 0 ==> coordinator.claims == old(coordinator.claims)
      {
        SettleClaim(ids[i]);
      }
      assert ids[..|ids|] == ids;
    }

    /** The claims whose activity boundaries are waited for. */
    function Boundaries(ids: seq<DocumentId>): (cs: set<ClaimId>)
      reads this
      ensures forall id | id in ids && id in pendingClaims :: pendingClaims[id] in cs
    {
      set id | id in ids && id in pendingClaims :: pendingClaims[id]
    }

    /** At the end of a request, the next start is scheduled if anything is still queued. */
    method ScheduleRest()
      modifies this`scheduled
      ensures scheduled == old(scheduled) + if queue != [] then 1 else 0
    {
      if |queue| > 0 {
        scheduled := scheduled + 1;
      }
    }

    /** The claim of a start has thrown: its identifiers are settled like those of any request. */
    method AbandonStart(ids: seq<DocumentId>)
      requires coordinator.Settled() && Linked(pendingClaims, coordinator.claims, coordinator.disposed) && currentProcessing > 0
      modifies this`pendingClaims, this`currentProcessing, this`scheduled, coordinator
      ensures coordinator.Settled() && Linked(pendingClaims, coordinator.claims, coordinator.disposed)
      ensures coordinator.disposed == old(coordinator.disposed) && |coordinator.claims| == |old(coordinator.claims)|
      ensures pendingClaims == old(pendingClaims) - set id | id in ids
      ensures currentProcessing == old(currentProcessing) - 1 && scheduled == old(scheduled) + if queue != [] then 1 else 0
    {
      hide Linked, ChunkDeliveryCoordinator.Settled;
      SettleAll(ids);
      currentProcessing := currentProcessing - 1;
      ScheduleRest();
    }

    method BeginWaiting(ids: seq<DocumentId>)
      requires InBatches(requests, nextRequest) && |ids| <= BATCH_SIZE
      modifies this`requests, this`nextRequest
      ensures requests == old(requests)[old(nextRequest) := Request(ids, old(Boundaries(ids)), true)] && nextRequest == old(nextRequest) + 1
      ensures InBatches(requests, nextRequest) && |requests| == |old(requests)| + 1
    {
      var r := Request(ids, Boundaries(ids), true);
      AddedRequest(requests, nextRequest, r);
      requests := requests[nextRequest := r];
      nextRequest := nextRequest + 1;
    }

    method TakeBatch() returns (ids: seq<DocumentId>)
      requires Distinct(queue)
      modifies this`queue, this`currentProcessing
      ensures var size := if |old(queue)| < 100 then |old(queue)| else 100;
              ids == old(queue)[..size] && queue == old(queue)[size..]
      ensures Distinct(queue) && currentProcessing == old(currentProcessing) + 1
    {
      currentProcessing := currentProcessing + 1;
      var size := if |queue| < BATCH_SIZE then |queue| else BATCH_SIZE;
      ids := queue[..size];
      RestIsDistinct(queue, size);
      queue := queue[size..];
    }

    /** Up to the first await. */
    method StartRequestMissing()
      requires Valid()
      modifies this, coordinator
      ensures Valid()
      ensures old(destroyed) || old(currentProcessing) == concurrency || old(queue) == [] ==> unchanged(this) && unchanged(coordinator)
      ensures !old(destroyed) && old(currentProcessing) < concurrency && old(queue) != [] ==>
                var size := if |old(queue)| < 100 then |old(queue)| else 100;
                var ids := old(queue)[..size];
                var claimed := Unclaimed(ids, old(pendingClaims));
                && queue == old(queue)[size..]
                && (if coordinator.disposed && claimed != [] then
                      && requests == old(requests) && pendingClaims == old(pendingClaims) - (set id | id in ids)
                      && scheduled == old(scheduled) + if queue != [] then 1 else 0
                    else currentProcessing > 0 && scheduled == old(scheduled) && pendingClaims == old(pendingClaims) + AllTo(claimed, |old(coordinator.claims)|)
                         && requests == old(requests)[old(nextRequest) := Request(ids, Boundaries(ids), true)])
    {
      hide Linked, CountsAreRight, AllServed, InBatches, AllBelow, Distinct, NoMappedIsRefused, ChunkDeliveryCoordinator.Settled, Unclaimed, AllTo, IsServed;
      if destroyed || !CanRequestMore() {
        return;
      }
      var ids := TakeBatch();
      var claimed, thrown := EnsureClaims(ids);
      if thrown {
        AbandonStart(ids);
        return;
      }
      BeginWaiting(ids);
      StillBelow(entered, |old(coordinator.claims)|, |coordinator.claims|);
      if !coordinator.disposed {
        NoneIsRefused(old(pendingClaims), entered, claimed, |old(coordinator.claims)|);
        OnlyClaimedAreNew(old(pendingClaims), ids, |old(coordinator.claims)|);
        ServedAfterStart(old(pendingClaims), old(queue), old(requests), pendingClaims, |ids|, requests[nextRequest - 1], nextRequest - 1);
      }
    }

    /** The boundaries are resolved: identifiers whose claim was refused, or replaced meanwhile, are dropped. */
    method EndWaiting(k: RequestId)
      requires Valid()
      modifies this, coordinator
      ensures Valid()
      ensures old(IsAttended()) ==> IsAttended()
      ensures if !old(k in requests && requests[k].waiting && requests[k].waitsFor <= entered.Keys) then unchanged(this) && unchanged(coordinator)
              else
                var kept := Entered(old(requests[k]), old(pendingClaims), old(entered));
                && requests == (if kept == [] then old(requests) - {k} else old(requests)[k := Request(kept, {}, false)])
                && pendingClaims == old(pendingClaims) && queue == old(queue) && coordinator.claims == old(coordinator.claims)
                && entered == old(entered) && destroyed == old(destroyed)
                && scheduled == old(scheduled) + if kept == [] && queue != [] then 1 else 0
    {
      hide Linked, CountsAreRight, AllServed, AllBelow, Distinct, NoMappedIsRefused, ChunkDeliveryCoordinator.Settled, Filter;
      if k !in requests || !requests[k].waiting || !(requests[k].waitsFor <= entered.Keys) {
        return;
      }
      var r := requests[k];
      var ids := Entered(r, pendingClaims, entered);
      var r' := Request(ids, {}, false);
      if !coordinator.disposed {
        ServedAfterWait(pendingClaims, queue, requests, entered, k, r');
      }
      assert requests[k := r'].Keys == requests.Keys;
      requests := requests[k := r'];
      if ids == [] {
        FinishRequesting(k);
        assert requests == old(requests) - {k};
        assert pendingClaims == old(pendingClaims);
      }
    }

    /** However the request ended, its identifiers are settled. */
    method FinishRequesting(k: RequestId)
      requires Valid()
      modifies this, coordinator
      ensures Valid()
      ensures old(IsAttended()) ==> IsAttended()
      ensures if !old(k in requests && !requests[k].waiting) then unchanged(this) && unchanged(coordinator)
              else
                && requests == old(requests) - {k} && currentProcessing == old(currentProcessing) - 1
                && pendingClaims == old(pendingClaims) - (set id | id in old(requests[k].ids))
                && queue == old(queue) && entered == old(entered) && destroyed == old(destroyed)
                && (old(requests[k].ids) == [] ==> coordinator.claims == old(coordinator.claims))
                && scheduled == old(scheduled) + if queue != [] then 1 else 0
    {
      hide Linked, CountsAreRight, AllServed, InBatches, Distinct;
      if k !in requests || requests[k].waiting {
        return;
      }
      var r := requests[k];
      if !coordinator.disposed {
        ServedAfterFinish(pendingClaims, queue, requests, k);
      }
      RemovedRequest(requests, nextRequest, k);
      SettleAll(r.ids);
      requests := requests - {k};
      currentProcessing := currentProcessing - 1;
      ScheduleRest();
    }

    method ResolveBoundary(c: ClaimId, enters: bool)
      modifies this`entered
      ensures entered == if c in old(entered) then old(entered) else old(entered)[c := enters]
    {
      if c !in entered {
        entered := entered[c := enters];
      }
    }

    method RemovePendingDelivery(c: ClaimId, ids: set<DocumentId>)
      requires forall id | id in ids && id in pendingClaims :: pendingClaims[id] == c
      modifies this`pendingClaims, this`queue
      ensures pendingClaims == old(pendingClaims) - ids && queue == Rest(old(queue), ids)
    {
      var rest := ids;
      while rest != {}
        modifies this`pendingClaims
        invariant rest <= ids && pendingClaims == old(pendingClaims) - (ids - rest)
      {
        var id :| id in rest;
        rest := rest - {id};
        if id in pendingClaims && pendingClaims[id] == c {
          pendingClaims := pendingClaims - {id};
        }
      }
      assert ids - {} == ids;
      assert (set id | id in queue && !(id in ids && id !in pendingClaims)) == set id | id in queue && id !in ids;
      queue := Filter(queue, set id | id in queue && !(id in ids && id !in pendingClaims));
    }

    method RunnerEntering(c: ClaimId)
      requires Valid()
      modifies this`entered
      ensures Valid()
      ensures entered == if c < |coordinator.claims| && c !in old(entered) then old(entered)[c := true] else old(entered)
    {
      if c < |coordinator.claims| {
        ResolveBoundary(c, true);
      }
    }

    /** The claim is given up: it is released, and its identifiers are neither queued nor waited for any more. */
    twostate predicate GaveUp(c: ClaimId)
      requires c < |old(coordinator.claims)|
      reads this, coordinator
    {
      var ids := old(coordinator.claims)[c].pending;
      && coordinator.claims == old(coordinator.claims)[c := GIVEN_UP]
      && pendingClaims == old(pendingClaims) - ids && queue == Rest(old(queue), ids)
      && entered == (if c in old(entered) then old(entered) else old(entered)[c := false])
      && requests == old(requests) && destroyed == old(destroyed)
      && scheduled == old(scheduled) && currentProcessing == old(currentProcessing)
    }

    method RunnerRejecting(c: ClaimId)
      requires Valid()
      modifies this, coordinator
      ensures Valid()
      ensures if c < |old(coordinator.claims)| then GaveUp(c) else unchanged(this) && unchanged(coordinator)
    {
      hide Linked, CountsAreRight, AllServed, InBatches, Distinct, NoMappedIsRefused;
      if c >= |coordinator.claims| {
        return;
      }
      var abandonedIds := coordinator.claims[c].pending;
      MappedTo(pendingClaims, coordinator.claims, coordinator.disposed, c);
      ResolveBoundary(c, false);
      RemovePendingDelivery(c, abandonedIds);
      GivenUp(old(pendingClaims), old(queue), requests, coordinator.claims, coordinator.disposed, old(entered), c, queue, entered);
      coordinator.DoRelease(c, Call(DeliveryClaims.Release(c), []), 0);
    }

    method Stalling(c: ClaimId)
      requires Valid()
      modifies this, coordinator
      ensures Valid()
      ensures if c < |old(coordinator.claims)| && old(coordinator.claims)[c].armed then GaveUp(c) else unchanged(this) && unchanged(coordinator)
    {
      hide Linked, CountsAreRight, AllServed, InBatches, Distinct, NoMappedIsRefused;
      if c >= |coordinator.claims| || !coordinator.claims[c].armed {
        return;
      }
      var stalledIds := coordinator.claims[c].pending;
      MappedTo(pendingClaims, coordinator.claims, coordinator.disposed, c);
      coordinator.SetTimer(c, false);
      coordinator.DoRelease(c, Call(DeliveryClaims.Stall(c), []), 0);
      ResolveBoundary(c, false);
      RemovePendingDelivery(c, stalledIds);
      GivenUp(old(pendingClaims), old(queue), requests, old(coordinator.claims), coordinator.disposed, old(entered), c, queue, entered);
      assert old(coordinator.claims)[c := GIVEN_UP] == coordinator.claims;
    }

    method ReleaseAll(pending: set<ClaimId>)
      requires coordinator.Settled() && AllBelow(entered, |coordinator.claims|)
      modifies this`entered, coordinator
      ensures coordinator.Settled() && |coordinator.claims| == |old(coordinator.claims)| && coordinator.disposed == old(coordinator.disposed)
      ensures forall d | 0 <= d < |coordinator.claims| :: old(coordinator.claims)[d].released || d in pending ==> coordinator.claims[d].released
      ensures AllBelow(entered, |coordinator.claims|)
    {
      for c := 0 to |coordinator.claims|
        invariant coordinator.Settled() && |coordinator.claims| == |old(coordinator.claims)| && coordinator.disposed == old(coordinator.disposed)
        invariant forall d | 0 <= d < |coordinator.claims| :: old(coordinator.claims)[d].released || (d < c && d in pending) ==> coordinator.claims[d].released
        invariant AllBelow(entered, |coordinator.claims|)
      {
        if c in pending {
          ResolveBoundary(c, false);
          coordinator.DoRelease(c, Call(DeliveryClaims.Release(c), []), 0);
        }
      }
    }

    method Destroying()
      requires Valid()
      modifies this, coordinator
      ensures Valid() && destroyed && requests == old(requests)
      ensures old(IsAttended()) ==> IsAttended()
      ensures if old(destroyed) then unchanged(this) && unchanged(coordinator) else coordinator.activeClaimCounts == map[]
    {
      if destroyed {
        return;
      }
      destroyed, queue := true, [];
      var pending, n := pendingClaims.Values, |coordinator.claims|;
      pendingClaims := map[];
      ReleaseAll(pending);
      forall d | 0 <= d < n
        ensures coordinator.claims[d].released
      {
        if !old(coordinator.claims)[d].released {
          var id :| id in old(coordinator.claims)[d].pending;
          assert old(pendingClaims)[id] == d;
        }
      }
      NothingActive(coordinator.activeClaimCounts, coordinator.claims);
    }

    method DisposingCoordinator()
      requires Valid()
      modifies coordinator
      ensures Valid() && coordinator.disposed && forall c | 0 <= c < |coordinator.claims| :: coordinator.claims[c].done
    {
      coordinator.DoDispose(Call(Dispose, []));
    }

    /** What an event is for, where nothing stands against it. */
    twostate predicate Happened(e: Event)
      reads this, coordinator
    {
      var claims := old(coordinator.claims);
      match e
      case MissingChunks(ids) => !destroyed && !coordinator.disposed ==> forall id | id in ids :: id in pendingClaims
      case StartRequest => old(!destroyed && scheduled > 0 && CanRequestMore()) ==> |queue| < |old(queue)|
      case EndWait(k) => old(k in requests && requests[k].waiting && requests[k].waitsFor <= entered.Keys) ==> k !in requests || !requests[k].waiting
      case FinishRequest(k) => old(k in requests && !requests[k].waiting) ==> k !in requests && forall id | id in old(requests[k].ids) :: id !in pendingClaims
      case RunnerEnters(c) => c < |claims| ==> c in entered && (c !in old(entered) ==> entered[c])
      case RunnerRejects(c) => c < |claims| ==> GaveUp(c)
      case Stall(c) => c < |claims| && claims[c].armed ==> GaveUp(c)
      case Destroy => destroyed && pendingClaims == map[] && queue == []
      case DisposeCoordinator => coordinator.disposed && forall c | 0 <= c < |coordinator.claims| :: coordinator.claims[c].done
    }

    method Step(e: Event)
      requires Valid() && IsAttended()
      modifies this, coordinator
      ensures Valid() && IsAttended() && Happened(e)
    {
      match e {
        case MissingChunks(ids) => OnEvent(ids);
        case StartRequest =>
          if scheduled > 0 {
            scheduled := scheduled - 1;
            StartRequestMissing();
          }
        case EndWait(k) => EndWaiting(k);
        case FinishRequest(k) => FinishRequesting(k);
        case RunnerEnters(c) => RunnerEntering(c);
        case RunnerRejects(c) => RunnerRejecting(c);
        case Stall(c) => Stalling(c);
        case Destroy => Destroying();
        case DisposeCoordinator => DisposingCoordinator();
      }
    }

    /**
     * Any run. As long as the coordinator is there, what it reports as active is what the fetcher waits for. What is
     * queued has a request under way or a start scheduled, so when there is neither, nothing is waited for.
     */
    method Run(events: seq<Event>)
      requires Valid() && IsAttended()
      modifies this, coordinator
      ensures Valid() && IsAttended() && currentProcessing <= concurrency
      ensures !coordinator.disposed ==> coordinator.activeClaimCounts == map id | id in pendingClaims :: 1
      ensures concurrency > 0 && queue != [] ==> scheduled > 0 || requests != map[]
      ensures !coordinator.disposed && concurrency > 0 && scheduled == 0 && requests == map[] ==> coordinator.activeClaimCounts == map[]
    {
      for i := 0 to |events|
        invariant Valid() && IsAttended()
      {
        Step(events[i]);
      }
      if !coordinator.disposed {
        ActiveIsPending(coordinator.activeClaimCounts, coordinator.claims, pendingClaims);
        if concurrency > 0 && scheduled == 0 && requests == map[] {
          NothingForgotten(pendingClaims);
        }
      }
    }
  }
}
