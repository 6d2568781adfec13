/** `mergeObject`: two patches of one base, a check for clashes, and both patches applied, the older side first. */
module ObjectMerge {

  import opened Options
  import opened JsonPatch
  import opened PatchLoops
  import opened PatchRoundTrip
  import opened TwoPatches
  import opened ClashCheck
  import opened LeftMarks
  import opened UnchangedSide

  function Wrapped(v: Json): Fields {
    map["data" := v]
  }

  /** None is a refusal; the caller then leaves the conflict to the user. */
  ghost function MergeObject(base: Json, left: Json, right: Json, leftFirst: bool, eq: (Json, Json) -> bool): Option<Json> {
    var b, l, r := Wrapped(base), Wrapped(left), Wrapped(right);
    var genLeft, genRight := Generate(b, l, Obj(l)), Generate(b, r, Obj(r));
    if genLeft.Throw? || genRight.Throw? then None
    else
      var diffLeft, diffRight := Obj(genLeft.value), Obj(genRight.value);
      if Clashes(diffLeft, diffRight, eq) then None
      else
        match ApplyBoth(b, if leftFirst then diffLeft else diffRight, if leftFirst then diffRight else diffLeft)
        case Throw => None
        case Ok(m) => At(m, "data")
  }

  /** A conflicting revision as it was loaded; its text has been parsed. */
  datatype ObjectLeaf = Missing | Leaf(value: Json, deleted: bool, mtime: int)

  /** The older side is applied first; of equally old ones, the left. */
  method MergeLeaves(base: ObjectLeaf, left: ObjectLeaf, right: ObjectLeaf, eq: (Json, Json) -> bool) returns (merged: Option<Json>)
    ensures merged == if base.Missing? || left.Missing? || right.Missing? || left.deleted || right.deleted then None
                      else MergeObject(base.value, left.value, right.value, left.mtime <= right.mtime, eq)
  {
    hide Generate, Apply, Clashes;
    if base.Missing? || left.Missing? || right.Missing? || left.deleted || right.deleted {
      return None;
    }
    var baseObj, leftObj, rightObj := Wrapped(base.value), Wrapped(left.value), Wrapped(right.value);
    var diffLeft := GeneratePatchObj(baseObj, leftObj, Obj(leftObj));
    var diffRight := GeneratePatchObj(baseObj, rightObj, Obj(rightObj));
    if diffLeft.Throw? || diffRight.Throw? {
      return None;
    }
    var clash := FindClash(Obj(diffLeft.value), Obj(diffRight.value), eq);
    if clash {
      return None;
    }
    var patches := if left.mtime <= right.mtime then [diffLeft.value, diffRight.value] else [diffRight.value, diffLeft.value];
    var newObj := ApplyPatch(baseObj, Obj(patches[0]));
    if newObj.Throw? {
      return None;
    }
    newObj := ApplyPatch(newObj.value, Obj(patches[1]));
    if newObj.Throw? {
      return None;
    }
    merged := if "data" in newObj.value then Some(newObj.value["data"]) else None;
  }

  // ----- a merge is two entries for one key -----

  ghost predicate PlainDocuments(base: Json, left: Json, right: Json) {
    Plain(base) && Plain(left) && Plain(right)
  }

  lemma WrappedPatch(base: Json, side: Json)
    requires Clean(base) && Clean(side)
    ensures CleanFields(Wrapped(base)) && CleanFields(Wrapped(side))
    ensures Generate(Wrapped(base), Wrapped(side), Obj(Wrapped(side))).Ok?
  {
    SameIsReflexive(Obj(Wrapped(base)));
    RoundTripOfFields(Wrapped(base), Wrapped(base), Wrapped(side), Obj(Wrapped(side)));
  }

  /** The patch that the merge compares. */
  ghost function PatchTo(base: Json, side: Json): Json
    requires Clean(base) && Clean(side)
    ensures PatchTo(base, side).Obj?
  {
    WrappedPatch(base, side);
    Obj(Generate(Wrapped(base), Wrapped(side), Obj(Wrapped(side))).value)
  }

  /** Its one entry, if there is any. */
  ghost function EntryTo(base: Json, side: Json): Option<Json>
    requires Clean(base) && Clean(side)
  {
    At(PatchTo(base, side).fields, "data")
  }

  lemma PatchHasOneEntry(base: Json, side: Json)
    requires Clean(base) && Clean(side)
    ensures Change(base, side) == Ok(EntryTo(base, side))
    ensures PatchTo(base, side) == Obj(if EntryTo(base, side).None? then map[] else Wrapped(EntryTo(base, side).value))
  {
    hide Change, Clean;
    WrappedPatch(base, side);
    EntryOfGenerate(Wrapped(base), Wrapped(side), "data", Obj(Wrapped(side)));
    forall k | k in PatchTo(base, side).fields
      ensures k == "data"
    {
      EntryOfGenerate(Wrapped(base), Wrapped(side), k, Obj(Wrapped(side)));
    }
  }

  lemma ApplyBothToWrapped(base: Json, first: Json, second: Json)
    requires PlainDocuments(base, first, second)
    ensures ApplyBoth(Wrapped(base), PatchTo(base, first), PatchTo(base, second)).Throw? <==>
              StepTwice(Some(base), EntryTo(base, first), EntryTo(base, second)).Throw?
    ensures ApplyBoth(Wrapped(base), PatchTo(base, first), PatchTo(base, second)).Ok? ==>
              Ok(At(ApplyBoth(Wrapped(base), PatchTo(base, first), PatchTo(base, second)).value, "data")) ==
              StepTwice(Some(base), EntryTo(base, first), EntryTo(base, second))
  {
    hide Step, Apply, ApplyBoth, Generate, Change, Clean, NoToString, Same;
    var f, s := PatchTo(base, first), PatchTo(base, second);
    PatchHasOneEntry(base, first);
    PatchHasOneEntry(base, second);
    PlainApplies(Wrapped(base), Wrapped(first), Obj(Wrapped(first)));
    ApplyBothToOneKey(base, f, s);
  }

  lemma ApplyBothToOneKey(base: Json, first: Json, second: Json)
    requires first.Obj? && second.Obj? && first.fields.Keys <= {"data"} && second.fields.Keys <= {"data"}
    requires Apply(Wrapped(base), first).Ok?
    ensures var after, both := StepTwice(Some(base), At(first.fields, "data"), At(second.fields, "data")), ApplyBoth(Wrapped(base), first, second);
            (both.Throw? <==> after.Throw?) && (both.Ok? ==> Ok(At(both.value, "data")) == after)
  {
    hide Step, Apply, ApplyBoth, StepOver;
    ApplyBothIs(Wrapped(base), first, second);
    assert At(Wrapped(base), "data") == Some(base);
    forall k: string
      ensures k != "data" ==> StepTwice(At(Wrapped(base), k), At(first.fields, k), At(second.fields, k)) == Ok(None)
    {
      if k != "data" {
        NothingStepsToNothing(At(Wrapped(base), k), At(first.fields, k), At(second.fields, k));
      }
    }
  }

  ghost function First(base: Json, left: Json, right: Json, leftFirst: bool): Option<Json>
    requires PlainDocuments(base, left, right)
  {
    EntryTo(base, if leftFirst then left else right)
  }

  ghost function Second(base: Json, left: Json, right: Json, leftFirst: bool): Option<Json>
    requires PlainDocuments(base, left, right)
  {
    EntryTo(base, if leftFirst then right else left)
  }

  ghost predicate Refused(base: Json, left: Json, right: Json, eq: (Json, Json) -> bool)
    requires PlainDocuments(base, left, right)
  {
    Clashes(PatchTo(base, left), PatchTo(base, right), eq)
  }

  lemma MergeIs(base: Json, left: Json, right: Json, leftFirst: bool, eq: (Json, Json) -> bool)
    requires PlainDocuments(base, left, right)
    ensures MergeObject(base, left, right, leftFirst, eq) ==
              if Refused(base, left, right, eq) then None
              else match StepTwice(Some(base), First(base, left, right, leftFirst), Second(base, left, right, leftFirst))
                case Throw => None
                case Ok(v) => v
  {
    hide Apply, ApplyBoth, Generate, Step, StepTwice, Clean, Clashes;
    WrappedPatch(base, left);
    WrappedPatch(base, right);
    ApplyBothToWrapped(base, left, right);
    ApplyBothToWrapped(base, right, left);
  }

  /** Two changes of an existing value never remove it. */
  lemma ChangesKeepValue(base: Json, first: Json, second: Json)
    requires PlainDocuments(base, first, second)
    ensures var after := StepTwice(Some(base), EntryTo(base, first), EntryTo(base, second)); after.Ok? ==> after.value.Some?
  {
    hide Change, Clean, NoToString, Same, Step;
    PatchHasOneEntry(base, first);
    PatchHasOneEntry(base, second);
    EntryApplies(Some(base), Some(first), EntryTo(base, first));
    if EntryTo(base, second).Some? {
      var entry := EntryTo(base, second).value;
      ChangeIsNoDeletion(base, second, entry);
      StepDropsOnlyForDeletion(StepOver(Some(base), EntryTo(base, first)).value, entry);
    }
  }

  lemma ChangeIsNoDeletion(v: Json, value: Json, entry: Json)
    requires Plain(v) && Plain(value) && Change(v, value) == Ok(Some(entry))
    ensures !EqualsDeleted(entry)
  {
    KindOfChange(v, value, entry);
    CleanIsNoDeletion(value);
  }

  // ----- when the merge succeeds, and when the ages of the sides matter -----

  lemma EntriesOfDocumentsFail(base: Json, first: Json, second: Json)
    requires PlainDocuments(base, first, second)
    ensures StepTwice(Some(base), EntryTo(base, first), EntryTo(base, second)).Throw? <==>
              FailsAt(Some(base), EntryTo(base, first), EntryTo(base, second))
  {
    PatchHasOneEntry(base, first);
    PatchHasOneEntry(base, second);
    assert Arr([second]).items[0] == second;
    EntriesFail(Some(base), Some(first), Some(second), EntryTo(base, first), EntryTo(base, second), Arr([second]));
  }

  /** The merge succeeds exactly if the check finds no clash and the newer patch fits what the older one has made. */
  lemma MergeSucceedsIff(base: Json, left: Json, right: Json, leftFirst: bool, eq: (Json, Json) -> bool)
    requires PlainDocuments(base, left, right)
    ensures MergeObject(base, left, right, leftFirst, eq).Some? <==>
              && !Refused(base, left, right, eq)
              && !FailsAt(Some(base), First(base, left, right, leftFirst), Second(base, left, right, leftFirst))
  {
    MergeIs(base, left, right, leftFirst, eq);
    EntriesOfDocumentsFail(base, left, right);
    EntriesOfDocumentsFail(base, right, left);
    ChangesKeepValue(base, left, right);
    ChangesKeepValue(base, right, left);
    hide MergeObject, StepTwice, Fails, Clashes;
  }

  /** The two patches come to the same in both orders: both throw, or neither does and they match. */
  ghost predicate OrderIsIrrelevant(base: Json, left: Json, right: Json)
    requires PlainDocuments(base, left, right)
  {
    var b, l, r := Some(base), EntryTo(base, left), EntryTo(base, right);
    (FailsAt(b, l, r) && FailsAt(b, r, l)) || (!FailsAt(b, l, r) && !FailsAt(b, r, l) && MatchAt(b, l, r))
  }

  /** Which side is newer makes no difference exactly if the merge is refused anyway, or the patches match. */
  lemma MergeIsOrderIndependentIff(base: Json, left: Json, right: Json, eq: (Json, Json) -> bool)
    requires PlainDocuments(base, left, right)
    ensures MergeObject(base, left, right, true, eq) == MergeObject(base, left, right, false, eq) <==>
              Refused(base, left, right, eq) || OrderIsIrrelevant(base, left, right)
  {
    MergeIs(base, left, right, true, eq);
    MergeIs(base, left, right, false, eq);
    MergeSucceedsIff(base, left, right, true, eq);
    MergeSucceedsIff(base, left, right, false, eq);
    PatchHasOneEntry(base, left);
    PatchHasOneEntry(base, right);
    var l, r := EntryTo(base, left), EntryTo(base, right);
    EntriesOfDocumentsFail(base, left, right);
    EntriesOfDocumentsFail(base, right, left);
    if !FailsAt(Some(base), l, r) && !FailsAt(Some(base), r, l) {
      assert Arr([left]).items[0] == left;
      EntriesMatchIff(Some(base), Some(left), Some(right), l, r, Arr([left]));
    }
    hide MergeObject, StepTwice, Fails, Match, Clashes, Change;
  }

  // ----- patches that do not meet -----

  /** A patch entry that replaces what is at its key instead of going into it. */
  predicate Replaces(v: Json) {
    !v.Obj? || SWAPPED in v.fields
  }

  /** Nothing is replaced by one patch where the other holds something else. */
  ghost predicate Compatible(left: Json, right: Json) {
    if Replaces(left) || Replaces(right) then left == right
    else forall k | k in left.fields && k in right.fields :: Compatible(left.fields[k], right.fields[k])
  }

  /** The check of the code never refuses such patches. */
  lemma CompatiblePatchesDoNotClash(left: Json, right: Json, eq: (Json, Json) -> bool)
    requires Compatible(left, right) && ReflexiveEq(eq)
    ensures !Clashes(left, right, eq)
  {
    forall path | LeafAt(left, path).Some? && LeafAt(right, path).Some?
      ensures LeafAt(left, path) == LeafAt(right, path)
    {
      CompatibleLeavesAgree(left, right, path);
    }
  }

  lemma {:induction false} CompatibleLeavesAgree(left: Json, right: Json, path: seq<string>)
    requires Compatible(left, right) && LeafAt(left, path).Some? && LeafAt(right, path).Some?
    ensures LeafAt(left, path) == LeafAt(right, path)
    decreases |path|
  {
    if path != [] && !Replaces(left) && !Replaces(right) {
      CompatibleLeavesAgree(left.fields[path[0]], right.fields[path[0]], path[1..]);
    }
  }

  lemma {:induction false} CompatibleNewValuesMatch(l: Json, r: Json)
    requires Plain(l) && Plain(r) && Compatible(l, r)
    ensures !NewFails(l, r) && !NewFails(r, l) && NewMatch(l, r)
    decreases l
  {
    if Replaces(l) || Replaces(r) {
      StepOnItself(l);
      NewSteps(l, l);
      NewMatchIff(l, l);
    } else {
      forall k | k in l.fields && k in r.fields
        ensures !NewFails(l.fields[k], r.fields[k]) && !NewFails(r.fields[k], l.fields[k]) && NewMatch(l.fields[k], r.fields[k])
      {
        CompatibleNewValuesMatch(l.fields[k], r.fields[k]);
      }
    }
  }

  lemma CompatibleIfNew(l: Json, r: Json)
    requires Plain(l) && Plain(r) && Compatible(l, r)
    ensures !Fails(None, l, r) && !Fails(None, r, l) && Match(None, l, r)
  {
    CompatibleNewValuesMatch(l, r);
    hide NewFails, NewMatch;
  }

  /** Compatible entries can be applied in either order, with the same result. */
  lemma {:induction false} CompatibleEntriesMatch(base: Option<Json>, l: Option<Json>, r: Option<Json>, left: Json, right: Json, bound: Json)
    requires PlainOption(base) && PlainOption(l) && PlainOption(r) && (l.Some? ==> l.value < bound)
    requires EntryFor(base, l, Some(left)) && EntryFor(base, r, Some(right)) && Compatible(left, right)
    ensures !Fails(base, left, right) && !Fails(base, right, left) && Match(base, left, right)
    decreases bound, 1
  {
    hide Fails, Match, Change, Generate;
    if base.None? {
      CompatibleIfNew(left, right);
    } else if l.Some? && r.Some? {
      KindOfChange(base.value, l.value, left);
      KindOfChange(base.value, r.value, right);
      if IsObjectPatch(left) && IsObjectPatch(right) {
        ObjectPatchesFailIff(base.value, left, right);
        ObjectPatchesFailIff(base.value, right, left);
        CompatibleFieldsMatch(base.value.fields, l.value.fields, r.value.fields, left.fields, right.fields, l.value, r.value);
        ObjectPatchesMatch(base.value, left, right);
      } else if IsArrayPatch(left) && IsArrayPatch(right) {
        CompatibleArraysMatch(base.value, l.value, r.value, left, right);
      } else {
        assert Replaces(left) || Replaces(right);
        EqualReplacementsMatch(base, left);
      }
    } else if l.None? {
      EqualReplacementsMatch(base, left);
    } else {
      EqualReplacementsMatch(base, right);
    }
  }

  lemma EqualReplacementsMatch(base: Option<Json>, entry: Json)
    requires base.Some? && Replaces(entry)
    ensures !Fails(base, entry, entry) && Match(base, entry, entry)
  {
  }

  lemma {:induction false} CompatibleArraysMatch(base: Json, l: Json, r: Json, left: Json, right: Json)
    requires Plain(base) && Plain(l) && Plain(r) && Compatible(left, right)
    requires Change(base, l) == Ok(Some(left)) && Change(base, r) == Ok(Some(right)) && IsArrayPatch(left) && IsArrayPatch(right)
    ensures !Fails(Some(base), left, right) && !Fails(Some(base), right, left) && Match(Some(base), left, right)
    decreases l, 5
  {
    hide Fails, Match, Generate, Change, ById;
    KindOfChange(base, l, left);
    KindOfChange(base, r, right);
    PlainById(base.items);
    PlainById(l.items);
    PlainById(r.items);
    var f, s := left.fields[ISARRAY], right.fields[ISARRAY];
    assert Compatible(f, s);
    ArrayPatchesFailIff(base.items, left, right);
    ArrayPatchesFailIff(base.items, right, left);
    CompatibleFieldsMatch(ById(base.items), ById(l.items), ById(r.items), f.fields, s.fields, l, r);
    ArrayPatchesMatch(base.items, left, right);
  }

  lemma {:induction false} CompatibleFieldsMatch(base: Fields, l: Fields, r: Fields, left: Fields, right: Fields, bl: Json, br: Json)
    requires PlainFields(base) && PlainFields(l) && PlainFields(r)
    requires (forall k | k in l :: l[k] < bl) && (forall k | k in r :: r[k] < br)
    requires Generate(base, l, bl) == Ok(left) && Generate(base, r, br) == Ok(right) && Compatible(Obj(left), Obj(right))
    requires (forall k | k in left :: CleanKey(k)) && (forall k | k in right :: CleanKey(k))
    ensures forall k :: !FailsAt(At(base, k), At(left, k), At(right, k)) && !FailsAt(At(base, k), At(right, k), At(left, k))
    ensures forall k :: MatchAt(At(base, k), At(left, k), At(right, k))
    ensures forall k | k in left && k in right :: !LosesId(left[k], right[k]) && !LosesId(right[k], left[k])
    decreases bl, 3
  {
    hide Fails, Match, Generate;
    forall k | k in left && k in right
      ensures !Fails(At(base, k), left[k], right[k]) && !Fails(At(base, k), right[k], left[k]) && Match(At(base, k), left[k], right[k])
      ensures !LosesId(left[k], right[k]) && !LosesId(right[k], left[k])
    {
      EntryOfGenerate(base, l, k, bl);
      EntryOfGenerate(base, r, k, br);
      CompatibleEntriesMatch(At(base, k), At(l, k), At(r, k), left[k], right[k], bl);
    }
  }

  /** If the patches are compatible, the merge succeeds, and which side is newer makes no difference. */
  lemma MergeIsOrderIndependent(base: Json, left: Json, right: Json, eq: (Json, Json) -> bool)
    requires PlainDocuments(base, left, right) && ReflexiveEq(eq)
    requires Compatible(PatchTo(base, left), PatchTo(base, right))
    ensures MergeObject(base, left, right, true, eq).Some?
    ensures MergeObject(base, left, right, true, eq) == MergeObject(base, left, right, false, eq)
  {
    hide Fails, Match, Generate, Change, MergeObject, Clashes;
    var l, r := EntryTo(base, left), EntryTo(base, right);
    PatchHasOneEntry(base, left);
    PatchHasOneEntry(base, right);
    CompatiblePatchesDoNotClash(PatchTo(base, left), PatchTo(base, right), eq);
    if l.Some? && r.Some? {
      assert Compatible(l.value, r.value);
      assert Arr([left]).items[0] == left;
      CompatibleEntriesMatch(Some(base), Some(left), Some(right), l.value, r.value, Arr([left]));
    }
    MergeSucceedsIff(base, left, right, true, eq);
    MergeIsOrderIndependentIff(base, left, right, eq);
  }

  // ----- reserved marks in the result -----

  /** A merge of clean documents is clean, unless a change is written where the other side deleted its object. */
  lemma MergeIsCleanIff(base: Json, left: Json, right: Json, leftFirst: bool, eq: (Json, Json) -> bool)
    requires PlainDocuments(base, left, right) && ArraysByText(eq)
    requires MergeObject(base, left, right, leftFirst, eq).Some?
    ensures Clean(MergeObject(base, left, right, leftFirst, eq).value) <==>
              !LeaksAt(Some(base), First(base, left, right, leftFirst), Second(base, left, right, leftFirst))
  {
    MergeIs(base, left, right, leftFirst, eq);
    hide MergeObject, Clashes, StepTwice, Leaks, Clean, Generate;
    ArraysAgreeWithoutClash(PatchTo(base, left), PatchTo(base, right), eq);
    var first, second := if leftFirst then left else right, if leftFirst then right else left;
    PatchHasOneEntry(base, first);
    PatchHasOneEntry(base, second);
    if EntryTo(base, first).Some? && EntryTo(base, second).Some? {
      ArraysAgreeUnderKey(PatchTo(base, first), PatchTo(base, second), "data");
    }
    assert Arr([second]).items[0] == second;
    EntriesLeakIff(Some(base), Some(first), Some(second), EntryTo(base, first), EntryTo(base, second), Arr([second]));
  }

  // ----- one side left the document alone -----

  ghost predicate IsMerged(merged: Option<Json>, wanted: Json) {
    merged.Some? && Same(merged.value, wanted)
  }

  lemma KeptDoesNotClash(base: Json, other: Json, eq: (Json, Json) -> bool)
    requires Plain(base) && Plain(other) && ReflexiveEq(eq) && Kept(base, other)
    ensures !Clashes(PatchTo(base, other), PatchTo(base, base), eq) && !Clashes(PatchTo(base, base), PatchTo(base, other), eq)
  {
    hide Kept, Change, Clean, NoToString, Generate;
    var d, idle := PatchTo(base, other), PatchTo(base, base);
    PatchHasOneEntry(base, other);
    PatchHasOneEntry(base, base);
    forall path | LeafAt(d, path).Some? && LeafAt(idle, path).Some?
      ensures LeafAt(d, path) == LeafAt(idle, path)
    {
      KeptLeavesAgree(Some(base), Some(other), EntryTo(base, other).value, EntryTo(base, base).value, path[1..]);
    }
  }

  lemma ChangeOfOneSideIsHarmlessIff(base: Json, other: Json)
    requires Plain(base) && Plain(other)
    ensures ArraysAgree(PatchTo(base, other), PatchTo(base, base)) && Harmless(Some(base), Some(other), EntryTo(base, other), EntryTo(base, base))
            <==> Kept(base, other)
    ensures Harmless(Some(base), Some(other), EntryTo(base, base), EntryTo(base, other))
  {
    hide Harmless, Generate, Change;
    var d, idle := PatchTo(base, other).fields, PatchTo(base, base).fields;
    PatchHasOneEntry(base, other);
    PatchHasOneEntry(base, base);
    assert Arr([base]).items[0] == base;
    EntryIsHarmlessIff(Some(base), Some(other), EntryTo(base, other), EntryTo(base, base), Arr([base]));
    UnchangedFirst(Some(base), Some(other), EntryTo(base, other), EntryTo(base, base));
    ArraysAgreeIff(d, idle);
    forall k
      ensures k != "data" ==> ArraysAgreeAt(At(d, k), At(idle, k))
    {
    }
  }

  /** What a merge with an unchanged side comes to, if it is the left or the right one. */
  ghost predicate MergedWithUnchanged(base: Json, other: Json, leftFirst: bool, eq: (Json, Json) -> bool)
    requires Plain(base) && Plain(other)
  {
    var entry, idle := EntryTo(base, other), EntryTo(base, base);
    && (IsMerged(MergeObject(base, other, base, leftFirst, eq), other) <==>
          !Refused(base, other, base, eq) && Harmless(Some(base), Some(other), if leftFirst then entry else idle, if leftFirst then idle else entry))
    && (IsMerged(MergeObject(base, base, other, leftFirst, eq), other) <==>
          !Refused(base, base, other, eq) && Harmless(Some(base), Some(other), if leftFirst then idle else entry, if leftFirst then entry else idle))
  }

  lemma MergeIsHarmlessIff(base: Json, other: Json, leftFirst: bool, eq: (Json, Json) -> bool)
    requires Plain(base) && Plain(other)
    ensures MergedWithUnchanged(base, other, leftFirst, eq)
  {
    hide MergeObject, Generate, Change, Clashes, StepTwice, Clean, NoToString, Same, PatchTo, EntryTo;
    MergeIs(base, other, base, leftFirst, eq);
    MergeIs(base, base, other, leftFirst, eq);
  }

  /** If the check refuses nothing, the arrays that both patches set are the same. */
  lemma UnrefusedArraysAgree(base: Json, other: Json, eq: (Json, Json) -> bool)
    requires Plain(base) && Plain(other) && ArraysByText(eq)
    ensures !Refused(base, other, base, eq) || !Refused(base, base, other, eq) ==> ArraysAgree(PatchTo(base, other), PatchTo(base, base))
  {
    hide Generate, Clashes, Clean, NoToString, ArraysAgree;
    if !Refused(base, other, base, eq) {
      ArraysAgreeWithoutClash(PatchTo(base, other), PatchTo(base, base), eq);
    }
    if !Refused(base, base, other, eq) {
      ArraysAgreeWithoutClash(PatchTo(base, base), PatchTo(base, other), eq);
    }
  }

  /**
   * Merging with an unchanged side gives, whichever side is newer, what the other side made of the document, exactly
   * if that side kept every array without ids.
   */
  lemma MergeWithUnchangedSideIff(base: Json, other: Json, eq: (Json, Json) -> bool)
    requires Plain(base) && Plain(other) && ReflexiveEq(eq) && ArraysByText(eq)
    ensures (forall leftFirst :: IsMerged(MergeObject(base, other, base, leftFirst, eq), other)) <==> Kept(base, other)
    ensures (forall leftFirst :: IsMerged(MergeObject(base, base, other, leftFirst, eq), other)) <==> Kept(base, other)
  {
    hide MergeObject, IsMerged, Kept, Clashes, Harmless, Clean, NoToString, ArraysAgree;
    forall leftFirst
      ensures MergedWithUnchanged(base, other, leftFirst, eq)
    {
      MergeIsHarmlessIff(base, other, leftFirst, eq);
    }
    assert MergedWithUnchanged(base, other, true, eq) && MergedWithUnchanged(base, other, false, eq);
    ChangeOfOneSideIsHarmlessIff(base, other);
    UnrefusedArraysAgree(base, other, eq);
    if Kept(base, other) {
      KeptDoesNotClash(base, other, eq);
    }
  }

  /** If the base's arrays are keyed, an unchanged side has no patch: the merge is the one patch, however leaves compare. */
  lemma MergeWithUnchangedSide(base: Json, other: Json, leftFirst: bool, eq: (Json, Json) -> bool)
    requires Clean(base) && Clean(other) && AllArraysKeyed(base)
    ensures var merged := MergeObject(base, other, base, leftFirst, eq);
            && (merged.Some? <==> AllComparable(Wrapped(base), PatchTo(base, other)))
            && (merged.Some? ==> Same(merged.value, other))
    ensures MergeObject(base, base, other, leftFirst, eq) == MergeObject(base, other, base, leftFirst, eq)
  {
    hide Apply, Generate, Change, Step, AllComparable;
    var b, o := Wrapped(base), Wrapped(other);
    WrappedPatch(base, other);
    UnchangedSideHasNoPatch(base);
    SameIsReflexive(Obj(b));
    RoundTripOfFields(b, b, o, Obj(o));
    var d, none := PatchTo(base, other), Obj(map[]);
    ApplyNothing(b);
    assert forall path :: LeafAt(none, path).None?;
    assert !Clashes(d, none, eq) && !Clashes(none, d, eq);
    if Apply(b, d).Ok? {
      ApplyNothing(Apply(b, d).value);
      assert Same(Apply(b, d).value["data"], o["data"]);
    }
  }

  lemma UnchangedSideHasNoPatch(base: Json)
    requires Clean(base) && AllArraysKeyed(base)
    ensures Generate(Wrapped(base), Wrapped(base), Obj(Wrapped(base))) == Ok(map[])
  {
    hide Change, Clean;
    WrappedPatch(base, base);
    var w := Wrapped(base);
    NoChangeIff(base);
    GenerateNothingIff(w, w, Obj(w));
  }

  // ----- inputs for which the promises are not kept -----

  lemma LeafUnderKey(key: string, v: Json, path: seq<string>)
    requires LeafAt(Obj(map[key := v]), path).Some?
    ensures path != [] && path[0] == key && LeafAt(v, path[1..]).Some?
  {
  }

  /** How a merge goes whose two patches meet nowhere. */
  lemma MergeOfEntries(base: Json, left: Json, right: Json, el: Json, er: Json, leftIsOlder: bool, eq: (Json, Json) -> bool)
    requires PlainDocuments(base, left, right) && Change(base, left) == Ok(Some(el)) && Change(base, right) == Ok(Some(er))
    requires forall path :: LeafAt(el, path).None? || LeafAt(er, path).None?
    ensures MergeObject(base, left, right, leftIsOlder, eq) ==
              match StepTwice(Some(base), Some(if leftIsOlder then el else er), Some(if leftIsOlder then er else el))
              case Throw => None
              case Ok(v) => v
  {
    hide Change, Generate, MergeObject, Clean, NoToString, StepTwice, LeafAt, Clashes, PatchTo, EntryTo;
    PatchHasOneEntry(base, left);
    PatchHasOneEntry(base, right);
    ApartUnderKey("data", el, er, eq);
    MergeIs(base, left, right, leftIsOlder, eq);
  }

  lemma ApartUnderKey(key: string, el: Json, er: Json, eq: (Json, Json) -> bool)
    requires forall path :: LeafAt(el, path).None? || LeafAt(er, path).None?
    ensures !Clashes(Obj(map[key := el]), Obj(map[key := er]), eq)
  {
    forall path
      ensures LeafAt(Obj(map[key := el]), path).None? || LeafAt(Obj(map[key := er]), path).None?
    {
      if LeafAt(Obj(map[key := el]), path).Some? && LeafAt(Obj(map[key := er]), path).Some? {
        LeafUnderKey(key, el, path);
        LeafUnderKey(key, er, path);
      }
    }
  }

  /**
   * Both sides replace a null by an object. No path is set twice and none is a prefix of another, so nothing is
   * refused; but the newer object wins as a whole, and the older side's is lost.
   */
  lemma BothReplaceNull(eq: (Json, Json) -> bool)
    ensures var left, right := Obj(map["a" := Num(1)]), Obj(map["b" := Num(1)]);
            && MergeObject(Null, left, right, true, eq) == Some(right)
            && MergeObject(Null, left, right, false, eq) == Some(left)
  {
    var left, right := Obj(map["a" := Num(1)]), Obj(map["b" := Num(1)]);
    var el, er := Obj(map[SWAPPED := left]), Obj(map[SWAPPED := right]);
    forall path
      ensures LeafAt(el, path).None? || LeafAt(er, path).None?
    {
      if LeafAt(el, path).Some? && LeafAt(er, path).Some? {
        LeafUnderKey(SWAPPED, left, path);
        LeafUnderKey(SWAPPED, right, path);
        LeafUnderKey("a", Num(1), path[1..]);
        LeafUnderKey("b", Num(1), path[1..]);
      }
    }
    MergeOfEntries(Null, left, right, el, er, true, eq);
    MergeOfEntries(Null, left, right, el, er, false, eq);
    StepSwapped(Some(Null), left);
    StepSwapped(Some(Null), right);
    StepSwapped(Some(left), right);
    StepSwapped(Some(right), left);
  }

  /** One side changes a key of an object, the other replaces the object by a number: the outcome depends on who is newer. */
  lemma ReplacedUnderAnEdit(eq: (Json, Json) -> bool)
    ensures var base, left, right := Obj(map[]), Obj(map["a" := Num(1)]), Num(5);
            && MergeObject(base, left, right, true, eq) == Some(right)
            && MergeObject(base, left, right, false, eq) == None
  {
    var base, left, right := Obj(map[]), Obj(map["a" := Num(1)]), Num(5);
    var er := Obj(map[SWAPPED := right]);
    forall path
      ensures LeafAt(left, path).None? || LeafAt(er, path).None?
    {
      if LeafAt(left, path).Some? && LeafAt(er, path).Some? {
        LeafUnderKey("a", Num(1), path);
        LeafUnderKey(SWAPPED, right, path);
      }
    }
    ChangeOfOneKey(map[], left.fields, "a", Num(1));
    MergeOfEntries(base, left, right, left, er, true, eq);
    MergeOfEntries(base, left, right, left, er, false, eq);
    ApplyIs(map[], left, left.fields);
    StepOfObjectPatch(map[], left.fields);
    StepSwapped(Some(base), right);
    StepSwapped(Some(left), right);
    EditOfNumberThrows(left, right);
  }

  /** Objects that differ in one key have a patch with one entry. */
  lemma ChangeOfOneKey(from: Fields, to: Fields, key: string, entry: Json)
    requires from.Keys + to.Keys == {key} && Entry(from, to, key, Obj(to)) == Ok(Some(entry))
    ensures Change(Obj(from), Obj(to)) == Ok(Some(Obj(map[key := entry])))
  {
    hide Entry;
    assert Generate(from, to, Obj(to)).Ok? && Generate(from, to, Obj(to)).value == map[key := entry];
    assert key in map[key := entry];
  }

  lemma EditOfNumberThrows(left: Json, right: Json)
    requires left == Obj(map["a" := Num(1)]) && right == Num(5)
    ensures Step(Some(right), left).Throw?
  {
    assert Convertible(left) && !EqualsDeleted(left) && SWAPPED !in left.fields && ISARRAY !in left.fields;
    assert "a" in left.fields && !EqualsDeleted(left.fields["a"]);
  }

  /**
   * One side deletes a key of an object, the other deletes the object and is older: no path is set twice, and the
   * deletion mark of the newer side is written into the document. In the other order the object is deleted.
   */
  lemma MarkIsLeftBehind(eq: (Json, Json) -> bool)
    ensures var base, left, right: Json := Obj(map["a" := Obj(map["b" := Num(1)])]), Obj(map["a" := Obj(map[])]), Obj(map[]);
            && MergeObject(base, left, right, false, eq) == Some(Obj(map["a" := Obj(map["b" := Str(DELETED)])]))
            && MergeObject(base, left, right, true, eq) == Some(right)
  {
    var inner, none: Fields := map["b" := Num(1)], map[];
    var base, left, right: Json := Obj(map["a" := Obj(inner)]), Obj(map["a" := Obj(none)]), Obj(none);
    var change := Obj(map["b" := Str(DELETED)]);
    var el, er := Obj(map["a" := change]), Obj(map["a" := Str(DELETED)]);
    assert PlainDocuments(base, left, right) by {
      assert Plain(Obj(inner)) && Plain(Obj(none));
    }
    hide Change, Generate, MergeObject, Clean, NoToString, StepTwice, Step, Entry, LeafAt;
    DeletionsAreEntries(inner, change);
    ChangeAndDeletionAreApart(change);
    MergeOfEntries(base, left, right, el, er, true, eq);
    MergeOfEntries(base, left, right, el, er, false, eq);
    ChangeThenDeletion(base, left, right, el, er, change);
  }

  lemma DeletionsAreEntries(inner: Fields, change: Json)
    requires inner == map["b" := Num(1)] && change == Obj(map["b" := Str(DELETED)])
    ensures Change(Obj(map["a" := Obj(inner)]), Obj(map["a" := Obj(map[])])) == Ok(Some(Obj(map["a" := change])))
    ensures Change(Obj(map["a" := Obj(inner)]), Obj(map[])) == Ok(Some(Obj(map["a" := Str(DELETED)])))
  {
    var base, left, none: Fields := map["a" := Obj(inner)], map["a" := Obj(map[])], map[];
    ChangeOfOneKey(inner, none, "b", Str(DELETED));
    ChangeOfOneKey(base, left, "a", change);
    ChangeOfOneKey(base, none, "a", Str(DELETED));
  }

  lemma ChangeAndDeletionAreApart(change: Json)
    requires change == Obj(map["b" := Str(DELETED)])
    ensures forall path :: LeafAt(Obj(map["a" := change]), path).None? || LeafAt(Obj(map["a" := Str(DELETED)]), path).None?
  {
    forall path
      ensures LeafAt(Obj(map["a" := change]), path).None? || LeafAt(Obj(map["a" := Str(DELETED)]), path).None?
    {
      if LeafAt(Obj(map["a" := change]), path).Some? && LeafAt(Obj(map["a" := Str(DELETED)]), path).Some? {
        LeafUnderKey("a", change, path);
        LeafUnderKey("a", Str(DELETED), path);
        LeafUnderKey("b", Str(DELETED), path[1..]);
      }
    }
  }

  lemma ChangeThenDeletion(base: Json, left: Json, right: Json, el: Json, er: Json, change: Json)
    requires base == Obj(map["a" := Obj(map["b" := Num(1)])]) && left == Obj(map["a" := Obj(map[])]) && right == Obj(map[])
    requires change == Obj(map["b" := Str(DELETED)]) && el == Obj(map["a" := change]) && er == Obj(map["a" := Str(DELETED)])
    ensures StepTwice(Some(base), Some(el), Some(er)) == Ok(Some(right))
    ensures StepTwice(Some(base), Some(er), Some(el)) == Ok(Some(el))
  {
    StepsOfDeletions(base.fields["a"].fields, change);
    hide Step;
    ApplyIs(base.fields, el, left.fields);
    ApplyIs(base.fields, er, map[]);
    ApplyIs(left.fields, er, map[]);
    ApplyIs(map[], el, el.fields);
    StepOfObjectPatch(base.fields, el.fields);
    StepOfObjectPatch(base.fields, er.fields);
    StepOfObjectPatch(left.fields, er.fields);
    StepOfObjectPatch(map[], el.fields);
  }

  lemma StepsOfDeletions(inner: Fields, change: Json)
    requires inner == map["b" := Num(1)] && change == Obj(map["b" := Str(DELETED)])
    ensures Step(Some(Obj(inner)), change) == Ok(Some(Obj(map[]))) && Step(None, change) == Ok(Some(change))
    ensures Step(Some(Obj(inner)), Str(DELETED)) == Ok(None) == Step(Some(Obj(map[])), Str(DELETED))
  {
    StepOfDeletion(Some(Num(1)));
    ApplyIs(inner, change, map[]);
    StepOfObjectPatch(inner, change.fields);
  }

  /** An array without ids is always part of the patch, so a merge is refused although only one side changed it. */
  lemma UnchangedPlainArrayClashes(eq: (Json, Json) -> bool)
    requires !eq(Arr([Num(2)]), Arr([Num(1)]))
    ensures MergeObject(Arr([Num(1)]), Arr([Num(2)]), Arr([Num(1)]), true, eq) == None
  {
    hide PatchTo, LeafAt, Clashes, MergeObject, Clean, NoToString;
    PatchSwapsNumbers(1, 2);
    PatchSwapsNumbers(1, 1);
    LeavesClash(PatchTo(Arr([Num(1)]), Arr([Num(2)])), PatchTo(Arr([Num(1)]), Arr([Num(1)])), ["data", SWAPPED], eq);
    ClashIsRefused(Arr([Num(1)]), Arr([Num(2)]), Arr([Num(1)]), true, eq);
  }

  lemma PatchSwapsNumbers(m: int, n: int)
    ensures Plain(Arr([Num(m)])) && Plain(Arr([Num(n)]))
    ensures LeafAt(PatchTo(Arr([Num(m)]), Arr([Num(n)])), ["data", SWAPPED]) == Some(Arr([Num(n)]))
  {
    var base, side := Arr([Num(m)]), Arr([Num(n)]);
    ChangeOfOtherArrays(base, side);
    assert Plain(Num(m)) && Plain(Num(n)) && !LooksKeyed(base.items) && !LooksKeyed(side.items);
    hide Change, LeafAt, PatchTo;
    PatchHasOneEntry(base, side);
    LeafOfSwap(side);
  }

  lemma LeavesClash(left: Json, right: Json, path: seq<string>, eq: (Json, Json) -> bool)
    requires LeafAt(left, path).Some? && LeafAt(right, path).Some? && !eq(LeafAt(left, path).value, LeafAt(right, path).value)
    ensures Clashes(left, right, eq)
  {
  }

  lemma ClashIsRefused(base: Json, left: Json, right: Json, leftFirst: bool, eq: (Json, Json) -> bool)
    requires PlainDocuments(base, left, right) && Clashes(PatchTo(base, left), PatchTo(base, right), eq)
    ensures MergeObject(base, left, right, leftFirst, eq) == None
  {
    hide MergeObject, Plain, Clashes, PatchTo;
    MergeIs(base, left, right, leftFirst, eq);
  }

  /** One side deletes an array without ids and is older: the side that left it alone puts it back. */
  lemma DeletedArrayComesBack(eq: (Json, Json) -> bool)
    ensures var base, left := Obj(map["k" := Arr([Num(1)])]), Obj(map[]); MergeObject(base, left, base, true, eq) == Some(base)
  {
    var items, none: Fields := map["k" := Arr([Num(1)])], map[];
    var base, left, swap := Obj(items), Obj(none), Obj(map[SWAPPED := Arr([Num(1)])]);
    var el, er := Obj(map["k" := Str(DELETED)]), Obj(map["k" := swap]);
    ChangeOfOtherArrays(Arr([Num(1)]), Arr([Num(1)]));
    ChangeOfOneKey(items, none, "k", Str(DELETED));
    ChangeOfOneKey(items, items, "k", swap);
    assert PlainDocuments(base, left, base) by {
      assert Plain(Arr([Num(1)]));
    }
    hide Change, Generate, MergeObject, Clean, NoToString, EveryHasId, Entry, Step, StepTwice;
    SwapAndDeletionAreApart(swap);
    MergeOfEntries(base, left, base, el, er, true, eq);
    DeletionThenSwap(Arr([Num(1)]), swap);
  }

  lemma SwapAndDeletionAreApart(swap: Json)
    requires swap == Obj(map[SWAPPED := Arr([Num(1)])])
    ensures forall path :: LeafAt(Obj(map["k" := Str(DELETED)]), path).None? || LeafAt(Obj(map["k" := swap]), path).None?
  {
    forall path
      ensures LeafAt(Obj(map["k" := Str(DELETED)]), path).None? || LeafAt(Obj(map["k" := swap]), path).None?
    {
      if LeafAt(Obj(map["k" := Str(DELETED)]), path).Some? && LeafAt(Obj(map["k" := swap]), path).Some? {
        LeafUnderKey("k", Str(DELETED), path);
        LeafUnderKey("k", swap, path);
      }
    }
  }

  lemma DeletionThenSwap(v: Json, swap: Json)
    requires swap == Obj(map[SWAPPED := v])
    ensures StepTwice(Some(Obj(map["k" := v])), Some(Obj(map["k" := Str(DELETED)])), Some(Obj(map["k" := swap]))) == Ok(Some(Obj(map["k" := v])))
  {
    var items, none: Fields := map["k" := v], map[];
    var el, er := Obj(map["k" := Str(DELETED)]), Obj(map["k" := swap]);
    StepOfDeletion(Some(v));
    StepSwapped(None, v);
    hide Step;
    ApplyIs(items, el, none);
    ApplyIs(none, er, items);
    StepOfObjectPatch(items, el.fields);
    StepOfObjectPatch(none, er.fields);
  }

  lemma LeafOfSwap(v: Json)
    requires !v.Obj?
    ensures LeafAt(Obj(Wrapped(Obj(map[SWAPPED := v]))), ["data", SWAPPED]) == Some(v)
  {
    var path, swap := ["data", SWAPPED], Obj(map[SWAPPED := v]);
    assert path[1..] == [SWAPPED] && path[1..][1..] == [];
    assert swap.fields[SWAPPED] == v && LeafAt(swap, path[1..]) == LeafAt(v, []) == Some(v);
    assert Wrapped(swap)["data"] == swap && LeafAt(Obj(Wrapped(swap)), path) == LeafAt(swap, path[1..]);
  }
}
