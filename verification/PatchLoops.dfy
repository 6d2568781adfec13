/** The loops of `generatePatchObj` and `applyPatch`: whatever order the entries come in, they compute the functions. */
module PatchLoops {

  import opened Options
  import opened JsonPatch

  lemma GenerateIs(from: Fields, to: Fields, bound: Json, patch: Fields)
    requires forall k | k in to :: to[k] < bound
    requires forall k | k in from || k in to :: Entry(from, to, k, bound) == Ok(At(patch, k))
    requires forall k | k in patch :: k in from || k in to
    ensures Generate(from, to, bound) == Ok(patch)
  {
    hide Entry;
    var r := Generate(from, to, bound);
    assert r.Ok?;
    assert r.value == patch;
  }

  lemma EntryThrows(from: Fields, to: Fields, key: string, bound: Json)
    requires forall k | k in to :: to[k] < bound
    requires (key in from || key in to) && Entry(from, to, key, bound).Throw?
    ensures Generate(from, to, bound) == Throw
  {
    assert key in from.Keys + to.Keys;
  }

  lemma EntryAt(from: Fields, to: Fields, key: string, bound: Json)
    requires (forall k | k in to :: to[k] < bound) && (key in from || key in to)
    ensures Entry(from, to, key, bound) ==
            if key !in to then Ok(Some(Str(DELETED)))
            else if Forbidden(key) then Throw
            else if key !in from then Ok(Some(to[key]))
            else Change(from[key], to[key])
  {
  }

  /** `newEntries` are the entries of `to` still to be looked at; `tempMap` loses every key that `to` has. */
  method CompareEntries(from: Fields, to: Fields, ghost bound: Json) returns (thrown: bool, ret: Fields, tempMap: Fields)
    requires forall k | k in to :: to[k] < bound
    ensures thrown ==> Generate(from, to, bound) == Throw
    ensures !thrown ==> forall k | k in to :: Entry(from, to, k, bound) == Ok(At(ret, k))
    ensures !thrown ==> forall k | k in ret :: k in to
    ensures !thrown ==> tempMap == from - to.Keys
  {
    hide Change, Generate, Entry;
    thrown, ret, tempMap := false, map[], from;
    var newEntries := to.Keys;
    while newEntries != {}
      invariant newEntries <= to.Keys
      invariant tempMap == from - (to.Keys - newEntries)
      invariant forall k | k in to && k !in newEntries :: Entry(from, to, k, bound) == Ok(At(ret, k))
      invariant forall k | k in ret :: k in to && k !in newEntries
      decreases |newEntries|
    {
      var key :| key in newEntries;
      EntryAt(from, to, key, bound);
      newEntries := newEntries - {key};
      var value := to[key];
      if Forbidden(key) {
        EntryThrows(from, to, key, bound);
        return true, ret, tempMap;
      }
      if key !in tempMap {
        ret := ret[key := value];
      } else {
        var change := Change(tempMap[key], value);
        if change.Throw? {
          EntryThrows(from, to, key, bound);
          return true, ret, tempMap;
        }
        if change.value.Some? {
          ret := ret[key := change.value.value];
        }
        tempMap := tempMap - {key};
      }
    }
  }

  /** Keys that are left in `tempMap` are gone from the new object. */
  method MarkDeleted(ret: Fields, unused: set<string>) returns (marked: Fields)
    requires forall k | k in unused :: k !in ret
    ensures marked == ret + map k | k in unused :: Str(DELETED)
  {
    marked := ret;
    var rest := unused;
    while rest != {}
      invariant rest <= unused
      invariant marked == ret + map k | k in unused - rest :: Str(DELETED)
    {
      var key :| key in rest;
      rest := rest - {key};
      marked := marked[key := Str(DELETED)];
    }
    assert unused - {} == unused;
  }

  method GeneratePatchObj(from: Fields, to: Fields, ghost bound: Json) returns (r: Result<Fields>)
    requires forall k | k in to :: to[k] < bound
    ensures r == Generate(from, to, bound)
  {
    var thrown, ret, tempMap := CompareEntries(from, to, bound);
    if thrown {
      return Throw;
    }
    var patch := MarkDeleted(ret, tempMap.Keys);
    MarkedIsGenerated(from, to, bound, ret, patch);
    return Ok(patch);
  }

  lemma MarkedIsGenerated(from: Fields, to: Fields, bound: Json, ret: Fields, patch: Fields)
    requires forall k | k in to :: to[k] < bound
    requires forall k | k in to :: Entry(from, to, k, bound) == Ok(At(ret, k))
    requires forall k | k in ret :: k in to
    requires patch == ret + map k | k in (from - to.Keys).Keys :: Str(DELETED)
    ensures Generate(from, to, bound) == Ok(patch)
  {
    hide Generate, Change, Entry;
    forall k | k in from || k in to
      ensures Entry(from, to, k, bound) == Ok(At(patch, k))
    {
      EntryAt(from, to, k, bound);
    }
    GenerateIs(from, to, bound, patch);
  }

  method ApplyPatch(from: Fields, patch: Json) returns (r: Result<Fields>)
    requires patch.Obj?
    ensures r == Apply(from, patch)
  {
    hide Step, Apply;
    var ret := from;
    var patches := patch.fields.Keys;
    while patches != {}
      invariant patches <= patch.fields.Keys
      invariant forall k | k in patches :: At(ret, k) == At(from, k)
      invariant forall k: string | k !in patches :: StepKey(from, patch, k) == Ok(At(ret, k))
      decreases |patches|
    {
      var key :| key in patches;
      patches := patches - {key};
      if Forbidden(key) {
        ApplyThrowsIff(from, patch);
        return Throw;
      }
      var step := Step(At(ret, key), patch.fields[key]);
      assert step == StepKey(from, patch, key);
      if step.Throw? {
        ApplyThrowsIff(from, patch);
        return Throw;
      }
      ret := if step.value.Some? then ret[key := step.value.value] else ret - {key};
    }
    ApplyIs(from, patch, ret);
    return Ok(ret);
  }
}
