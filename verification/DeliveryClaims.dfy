/**
 * Claims on chunk deliveries: reference counts by identifier, under every nesting of claims, settlements,
 * releases, stalls and disposal that listeners may cause while they are being notified.
 */
module DeliveryClaims {

  type DocumentId = string
  type ClaimId = nat

  /** `done` says that the promise of the claim is resolved; `armed` that its stall timer is set. */
  datatype Claim = Claim(pending: set<DocumentId>, released: bool, done: bool, armed: bool)

  type Counts = map<DocumentId, nat>

  /** The claims that hold an identifier. */
  function Holders(claims: seq<Claim>, id: DocumentId): set<ClaimId> {
    set c | 0 <= c < |claims| && !claims[c].released && id in claims[c].pending
  }

  /** An active count is the number of unreleased claims that still hold the identifier; there is no zero count. */
  predicate CountIsRight(counts: Counts, claims: seq<Claim>, id: DocumentId) {
    && (id in counts <==> Holders(claims, id) != {})
    && (id in counts ==> counts[id] == |Holders(claims, id)|)
  }

  ghost predicate CountsAreRight(counts: Counts, claims: seq<Claim>) {
    forall id :: CountIsRight(counts, claims, id)
  }

  function Incremented(counts: Counts, ids: set<DocumentId>): Counts {
    map id | id in counts.Keys + ids ::
      (if id in counts then counts[id] else 0) + if id in ids then 1 else 0
  }

  function Decremented(counts: Counts, ids: set<DocumentId>): Counts {
    map id | id in counts && (id !in ids || counts[id] > 1) :: if id in ids then counts[id] - 1 else counts[id]
  }

  lemma CountsAfterClaim(counts: Counts, claims: seq<Claim>, c: Claim)
    requires CountsAreRight(counts, claims) && !c.released
    ensures CountsAreRight(Incremented(counts, c.pending), claims + [c])
  {
    forall id: DocumentId
      ensures CountIsRight(Incremented(counts, c.pending), claims + [c], id)
    {
      assert CountIsRight(counts, claims, id);
      CountAfterClaim(counts, claims, c, id);
    }
  }

  lemma CountAfterClaim(counts: Counts, claims: seq<Claim>, c: Claim, id: DocumentId)
    requires CountIsRight(counts, claims, id) && !c.released
    ensures CountIsRight(Incremented(counts, c.pending), claims + [c], id)
  {
    var held, now := Holders(claims, id), Holders(claims + [c], id);
    if id in c.pending {
      assert now == held + {|claims|};
      assert |claims| !in held;
    } else {
      assert now == held;
    }
  }

  /** One claim gives up some of the identifiers it holds. */
  lemma CountsAfterRemoval(counts: Counts, claims: seq<Claim>, c: ClaimId, c': Claim, ids: set<DocumentId>)
    requires CountsAreRight(counts, claims) && c < |claims| && !claims[c].released
    requires ids <= claims[c].pending && c'.pending == claims[c].pending - ids && (c'.released ==> c'.pending == {})
    ensures CountsAreRight(Decremented(counts, ids), claims[c := c'])
  {
    var counts', claims' := Decremented(counts, ids), claims[c := c'];
    forall id: DocumentId
      ensures CountIsRight(counts', claims', id)
    {
      assert CountIsRight(counts, claims, id);
      CountAfterRemoval(counts, claims, c, c', ids, id);
    }
  }

  lemma CountAfterRemoval(counts: Counts, claims: seq<Claim>, c: ClaimId, c': Claim, ids: set<DocumentId>, id: DocumentId)
    requires CountIsRight(counts, claims, id) && c < |claims| && !claims[c].released
    requires ids <= claims[c].pending && c'.pending == claims[c].pending - ids && (c'.released ==> c'.pending == {})
    ensures CountIsRight(Decremented(counts, ids), claims[c := c'], id)
  {
    var held, now := Holders(claims, id), Holders(claims[c := c'], id);
    if id in ids {
      assert c in held;
      assert now == held - {c};
      assert |now| == |held| - 1;
      assert counts[id] > 1 <==> now != {};
    } else {
      assert now == held;
    }
  }

  lemma CountsUntouched(counts: Counts, claims: seq<Claim>, c: ClaimId, armed: bool)
    requires CountsAreRight(counts, claims) && c < |claims|
    ensures CountsAreRight(counts, claims[c := claims[c].(armed := armed)])
  {
    var claims' := claims[c := claims[c].(armed := armed)];
    forall id: DocumentId
      ensures CountIsRight(counts, claims', id)
    {
      assert CountIsRight(counts, claims, id);
      assert Holders(claims', id) == Holders(claims, id);
    }
  }

  lemma NothingActive(counts: Counts, claims: seq<Claim>)
    requires CountsAreRight(counts, claims) && forall c :: 0 <= c < |claims| ==> claims[c].released
    ensures counts == map[]
  {
    forall id: DocumentId
      ensures id !in counts
    {
      assert CountIsRight(counts, claims, id);
      assert Holders(claims, id) == {};
    }
  }

  /** A claim after one of its identifiers has settled. */
  function Without(c: Claim, id: DocumentId): Claim {
    if c.released || id !in c.pending then c
    else if c.pending == {id} then Claim({}, true, true, false)
    else c.(pending := c.pending - {id}, armed := true)
  }

  // ----- what may happen, and what listeners may do meanwhile -----

  datatype Action =
    | MakeClaim(ids: set<DocumentId>)
    | Settle(claim: ClaimId, id: DocumentId)
    | Release(claim: ClaimId)
    | Touch(claim: ClaimId)
    | Stall(claim: ClaimId)
    | Dispose

  /** An action, with what the listeners do at each notification it causes, one batch for each. */
  datatype Call = Call(action: Action, nested: seq<Batch>)
  datatype Batch = Batch(calls: seq<Call>)

  class ChunkDeliveryCoordinator {
    var activeClaimCounts: Counts
    var claims: seq<Claim>
    var claimReleases: set<ClaimId>
    var disposed: bool

    ghost var unfinished: set<ClaimId> // claims that some settlement in progress is going to look at again
    ghost var disposing: bool // the disposal is in progress

    /** Holds whenever a listener runs. */
    ghost predicate Valid()
      reads this
    {
      && CountsAreRight(activeClaimCounts, claims)
      && (forall c | 0 <= c < |claims| ::
            && claims[c].done == claims[c].released
            && (claims[c].released ==> claims[c].pending == {} && !claims[c].armed)
            && (c in claimReleases <==> !claims[c].released)
            && (!claims[c].released && claims[c].pending == {} ==> c in unfinished))
      && (forall c | c in claimReleases :: c < |claims|)
      && (disposed && !disposing ==> forall c | 0 <= c < |claims| :: claims[c].released)
    }

    /** Between actions no settlement is in progress: a claim is done exactly if it holds nothing any more. */
    ghost predicate Settled()
      reads this
    {
      Valid() && unfinished == {} && !disposing
    }

    /** What other actions may have done: claims only come in, shrink and get released. */
    twostate predicate Moved()
      reads this
    {
      && |old(claims)| <= |claims|
      && (forall c | 0 <= c < |old(claims)| ::
            && claims[c].pending <= old(claims)[c].pending
            && (old(claims)[c].released ==> claims[c] == old(claims)[c]))
      && (old(disposed) ==> disposed && |claims| == |old(claims)|)
      && unfinished == old(unfinished) && disposing == old(disposing)
    }

    constructor ()
      ensures Settled() && !disposed && claims == []
    {
      activeClaimCounts, claims, claimReleases, disposed := map[], [], {}, false;
      unfinished, disposing := {}, false;
    }

    /** Whether the arrival of an identifier is still to be waited for. */
    predicate IsClaimActiveFor(id: DocumentId): (active: bool)
      requires Valid()
      reads this
      ensures active <==> exists c :: 0 <= c < |claims| && !claims[c].released && id in claims[c].pending
    {
      assert CountIsRight(activeClaimCounts, claims, id);
      assert forall c :: c in Holders(claims, id) <==> 0 <= c < |claims| && !claims[c].released && id in claims[c].pending;
      id in activeClaimCounts
    }

    method RemoveActiveIds(ids: set<DocumentId>)
      modifies this`activeClaimCounts
      ensures activeClaimCounts == Decremented(old(activeClaimCounts), ids)
    {
      var rest := ids;
      while rest != {}
        invariant rest <= ids
        invariant activeClaimCounts == Decremented(old(activeClaimCounts), ids - rest)
      {
        var id :| id in rest;
        rest := rest - {id};
        var count := if id in activeClaimCounts then activeClaimCounts[id] else 0;
        if count <= 1 {
          activeClaimCounts := activeClaimCounts - {id};
        } else {
          activeClaimCounts := activeClaimCounts[id := count - 1];
        }
      }
      assert ids - {} == ids;
    }

    /** Listeners run to completion, whatever they do. */
    method NotifyChanged(call: Call, k: nat)
      requires Valid()
      modifies this
      ensures Valid() && Moved()
      ensures |call.nested| <= k ==> claims == old(claims) && disposed == old(disposed)
      decreases call, 0
    {
      if k < |call.nested| {
        var batch := call.nested[k];
        var i := 0;
        while i < |batch.calls|
          invariant Valid() && Moved() && i <= |batch.calls|
        {
          Perform(batch.calls[i]);
          i := i + 1;
        }
      }
    }

    method DoRelease(c: ClaimId, call: Call, k: nat)
      requires Valid() && c < |claims|
      modifies this
      ensures Valid() && Moved() && claims[c].released
      ensures |call.nested| <= k ==> claims == old(claims)[c := Claim({}, true, true, false)] && disposed == old(disposed)
      decreases call, 1
    {
      if claims[c].released {
        return;
      }
      var activeIds := claims[c].pending;
      CountsAfterRemoval(activeClaimCounts, claims, c, Claim({}, true, true, false), activeIds);
      claims := claims[c := Claim({}, true, true, false)];
      RemoveActiveIds(activeIds);
      claimReleases := claimReleases - {c};
      if activeIds != {} {
        NotifyChanged(call, k);
      }
    }

    method SetTimer(c: ClaimId, armed: bool)
      requires Valid() && c < |claims| && (armed ==> !claims[c].released)
      modifies this`claims
      ensures Valid() && Moved() && claims == old(claims)[c := old(claims)[c].(armed := armed)]
    {
      CountsUntouched(activeClaimCounts, claims, c, armed);
      claims := claims[c := claims[c].(armed := armed)];
    }

    method ArmStallTimer(c: ClaimId)
      requires Valid() && c < |claims|
      modifies this`claims
      ensures Valid() && Moved()
      ensures claims == old(claims)[c := old(claims)[c].(armed := !old(claims)[c].released && old(claims)[c].pending != {})]
    {
      SetTimer(c, !claims[c].released && claims[c].pending != {});
    }

    /** A disposed coordinator throws here and changes nothing. */
    method DoClaim(ids: set<DocumentId>, call: Call)
      requires Valid()
      modifies this
      ensures Valid() && Moved()
      ensures old(disposed) || ids == {} ==> claims == old(claims) && activeClaimCounts == old(activeClaimCounts)
      ensures !old(disposed) && ids != {} ==> |claims| > |old(claims)|
      ensures !old(disposed) && ids != {} && call.nested == [] ==>
                claims == old(claims) + [Claim(ids, false, false, true)] && !disposed
      decreases call, 1
    {
      if disposed || ids == {} {
        return;
      }
      var c := |claims|;
      CountsAfterClaim(activeClaimCounts, claims, Claim(ids, false, false, false));
      activeClaimCounts := Incremented(activeClaimCounts, ids);
      claims := claims + [Claim(ids, false, false, false)];
      claimReleases := claimReleases + {c};
      NotifyChanged(call, 0);
      ArmStallTimer(c);
    }

    /** A settlement looks at its claim again after the listeners have run. */
    method DoSettle(c: ClaimId, id: DocumentId, call: Call)
      requires Valid() && c < |claims|
      modifies this
      ensures Valid() && Moved() && id !in claims[c].pending
      ensures call.nested == [] ==> claims == old(claims)[c := Without(old(claims)[c], id)] && disposed == old(disposed)
      decreases call, 2
    {
      if claims[c].released || id !in claims[c].pending {
        return;
      }
      var c' := claims[c].(pending := claims[c].pending - {id});
      CountsAfterRemoval(activeClaimCounts, claims, c, c', {id});
      claims := claims[c := c'];
      RemoveActiveIds({id});
      ghost var before := unfinished;
      unfinished := unfinished + {c};
      NotifyChanged(call, 0);
      if claims[c].pending == {} {
        DoRelease(c, call, 1);
      } else {
        ArmStallTimer(c);
      }
      unfinished := before;
    }

    /** Releases in the order in which the claims were made, as a set iterates. */
    method DoDispose(call: Call)
      requires Valid()
      modifies this
      ensures Valid() && Moved() && disposed
      ensures !old(disposed) ==> activeClaimCounts == map[] && claimReleases == {}
      ensures |claims| == |old(claims)|
      ensures !old(disposed) ==> forall c | 0 <= c < |claims| :: claims[c].done
      decreases call, 2
    {
      if disposed {
        return;
      }
      ghost var before := disposing;
      disposed, disposing := true, true;
      var releases, k, n := claimReleases, 0, |claims|;
      for c := 0 to n
        invariant Valid() && disposed && disposing && |claims| == n
        invariant unfinished == old(unfinished)
        invariant forall d | 0 <= d < n :: claims[d].pending <= old(claims)[d].pending
        invariant forall d | 0 <= d < n :: old(claims)[d].released ==> claims[d] == old(claims)[d]
        invariant claimReleases <= releases
        invariant forall d | 0 <= d < c :: claims[d].released
      {
        if c in releases {
          DoRelease(c, call, k);
          k := k + 1;
        }
      }
      disposing := before;
      NothingActive(activeClaimCounts, claims);
    }

    /** What an action is for, whatever listeners do meanwhile. */
    twostate predicate Happened(action: Action)
      reads this
    {
      var before := old(claims);
      match action
      case MakeClaim(ids) => !old(disposed) && ids != {} ==> |claims| > |before|
      case Settle(c, id) => c < |before| && c < |claims| ==> id !in claims[c].pending
      case Release(c) => c < |before| && c < |claims| ==> claims[c].released && claims[c].done
      case Touch(c) => true
      case Stall(c) => c < |before| && c < |claims| && before[c].armed ==> claims[c].released && claims[c].done
      case Dispose => disposed && (!old(disposed) ==> activeClaimCounts == map[] && forall c | 0 <= c < |claims| :: claims[c].done)
    }

    /** What becomes of the claims where no listener does anything: only the claim that is concerned changes. */
    twostate predicate NothingElseHappened(action: Action)
      reads this
    {
      var before := old(claims);
      match action
      case MakeClaim(ids) => claims == if old(disposed) || ids == {} then before else before + [Claim(ids, false, false, true)]
      case Settle(c, id) =>
        if c >= |before| || id !in before[c].pending then claims == before
        else if before[c].pending == {id} then claims == before[c := Claim({}, true, true, false)]
        else claims == before[c := Claim(before[c].pending - {id}, false, false, true)]
      case Release(c) => claims == if c >= |before| then before else before[c := Claim({}, true, true, false)]
      case Touch(c) => claims == if c >= |before| then before else before[c := before[c].(armed := before[c].pending != {})]
      case Stall(c) => claims == if c >= |before| || !before[c].armed then before else before[c := Claim({}, true, true, false)]
      case Dispose => disposed
    }

    method Perform(call: Call)
      requires Valid()
      modifies this
      ensures Valid() && Moved()
      ensures Happened(call.action)
      ensures call.nested == [] ==> NothingElseHappened(call.action)
      decreases call, 3
    {
      match call.action {
        case MakeClaim(ids) => DoClaim(ids, call);
        case Settle(c, id) => if c < |claims| { DoSettle(c, id, call); }
        case Release(c) => if c < |claims| { DoRelease(c, call, 0); }
        case Touch(c) => if c < |claims| { ArmStallTimer(c); }
        case Stall(c) =>
          if c < |claims| && claims[c].armed {
            SetTimer(c, false);
            DoRelease(c, call, 0);
          }
        case Dispose => DoDispose(call);
      }
    }

    /**
     * Any run of a coordinator: afterwards a claim is done exactly if it has nothing left to wait for, and
     * an identifier is active exactly if such a claim waits for it. Nothing is active once it is disposed.
     */
    method Run(calls: seq<Call>)
      requires Settled()
      modifies this
      ensures Settled() && Moved()
      ensures forall c | 0 <= c < |claims| :: claims[c].done <==> claims[c].pending == {}
      ensures disposed ==> activeClaimCounts == map[]
    {
      var i := 0;
      while i < |calls|
        invariant Settled() && Moved() && i <= |calls|
      {
        Perform(calls[i]);
        i := i + 1;
      }
      if disposed {
        NothingActive(activeClaimCounts, claims);
      }
    }
  }
}
