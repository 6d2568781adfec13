/**
 * Edits in different places: what a merge makes of them, said without patches. Whichever side is older, nothing is
 * refused, and every place has what the side that edited it made of it.
 */
module ApartEdits {

  import opened Options
  import opened JsonPatch
  import opened PatchRoundTrip
  import opened TwoPatches
  import opened ClashCheck
  import opened UnchangedSide
  import opened ObjectMerge

  /** The side left the value alone, and its comparison does not swap an array in. */
  predicate Untouched(base: Json, side: Json) {
    side == base && AllArraysKeyed(base)
  }

  /** One side left the value alone; or both went into it, and edited different places of it. */
  ghost predicate Apart(base: Json, left: Json, right: Json)
    decreases base, 1
  {
    || Untouched(base, left) || Untouched(base, right)
    || (base.Obj? && left.Obj? && right.Obj? && ApartFields(base.fields, left.fields, right.fields, base))
    || (AreKeyed(base, left, right) && ApartFields(ById(base.items), ById(left.items), ById(right.items), base))
  }

  predicate AreKeyed(base: Json, left: Json, right: Json) {
    base.Arr? && left.Arr? && right.Arr? && DistinctIds(base.items) && DistinctIds(left.items) && DistinctIds(right.items)
  }

  /** No key is added by both sides, and what one side deletes the other left alone. */
  ghost predicate ApartFields(base: Fields, left: Fields, right: Fields, bound: Json)
    requires forall k | k in base :: base[k] < bound
    decreases bound, 0
  {
    && (forall k | k in left && k in right :: k in base && Apart(base[k], left[k], right[k]))
    && (forall k | k in base && k !in left :: k in right && Untouched(base[k], right[k]))
    && (forall k | k in base && k !in right :: k in left && Untouched(base[k], left[k]))
  }

  /** The merged value is the other side's where one side left the value alone, and is merged place by place otherwise. */
  ghost predicate IsMergeOf(base: Json, left: Json, right: Json, merged: Json)
    decreases base, 1
  {
    if Untouched(base, left) then Same(merged, right)
    else if Untouched(base, right) then Same(merged, left)
    else if base.Obj? then
      left.Obj? && right.Obj? && merged.Obj? && AreMergedFields(base.fields, left.fields, right.fields, merged.fields, base)
    else
      && AreKeyed(base, left, right) && merged.Arr? && DistinctIds(merged.items)
      && AreMergedFields(ById(base.items), ById(left.items), ById(right.items), ById(merged.items), base)
  }

  /** Added keys are there, deleted ones are gone. */
  ghost predicate AreMergedFields(base: Fields, left: Fields, right: Fields, merged: Fields, bound: Json)
    requires forall k | k in base :: base[k] < bound
    decreases bound, 0
  {
    && (forall k: string :: k in merged <==> if k in base then k in left && k in right else k in left || k in right)
    && (forall k | k in merged && k !in base :: Same(merged[k], if k in left then left[k] else right[k]))
    && (forall k | k in merged && k in base :: k in left && k in right && IsMergeOf(base[k], left[k], right[k], merged[k]))
  }

  lemma {:induction false} IsMergeOfEither(base: Json, left: Json, right: Json, merged: Json)
    requires Apart(base, left, right) && IsMergeOf(base, left, right, merged)
    ensures Apart(base, right, left) && IsMergeOf(base, right, left, merged)
    decreases base, 1
  {
    if !Untouched(base, left) && !Untouched(base, right) {
      if base.Obj? {
        AreMergedEither(base.fields, left.fields, right.fields, merged.fields, base);
      } else {
        AreMergedEither(ById(base.items), ById(left.items), ById(right.items), ById(merged.items), base);
      }
    }
  }

  lemma {:induction false} AreMergedEither(base: Fields, left: Fields, right: Fields, merged: Fields, bound: Json)
    requires forall k | k in base :: base[k] < bound
    requires ApartFields(base, left, right, bound) && AreMergedFields(base, left, right, merged, bound)
    ensures ApartFields(base, right, left, bound) && AreMergedFields(base, right, left, merged, bound)
    decreases bound, 0
  {
    forall k | k in left && k in right
      ensures k in base && Apart(base[k], right[k], left[k]) && IsMergeOf(base[k], right[k], left[k], merged[k])
    {
      IsMergeOfEither(base[k], left[k], right[k], merged[k]);
    }
  }

  // ----- entries of edits in different places -----

  ghost predicate NoCommonLeaf(left: Option<Json>, right: Option<Json>) {
    left.Some? && right.Some? ==> forall path :: LeafAt(left.value, path).None? || LeafAt(right.value, path).None?
  }

  lemma NoCommonLeafBelow(left: Fields, right: Fields)
    requires forall k :: NoCommonLeaf(At(left, k), At(right, k))
    ensures NoCommonLeaf(Some(Obj(left)), Some(Obj(right)))
  {
    forall path
      ensures LeafAt(Obj(left), path).None? || LeafAt(Obj(right), path).None?
    {
      if path != [] && path[0] in left && path[0] in right {
        assert NoCommonLeaf(At(left, path[0]), At(right, path[0]));
      }
    }
  }

  lemma NoCommonLeafUnder(key: string, left: Json, right: Json)
    requires NoCommonLeaf(Some(left), Some(right))
    ensures NoCommonLeaf(Some(Obj(map[key := left])), Some(Obj(map[key := right])))
  {
    forall k
      ensures NoCommonLeaf(At(map[key := left], k), At(map[key := right], k))
    {
    }
    NoCommonLeafBelow(map[key := left], map[key := right]);
  }

  /** Two patches of an object in a row, either of which may be missing. */
  lemma BothObjectPatches(v: Fields, first: Fields, second: Fields)
    requires (forall k | k in first :: CleanKey(k) && k != "toString") && (forall k | k in second :: CleanKey(k) && k != "toString")
    requires ApplyBoth(v, Obj(first), Obj(second)).Ok?
    ensures StepTwice(Some(Obj(v)), if first == map[] then None else Some(Obj(first)), if second == map[] then None else Some(Obj(second))) ==
              Ok(Some(Obj(ApplyBoth(v, Obj(first), Obj(second)).value)))
  {
    hide Apply, Step;
    if second == map[] {
      ApplyNothing(v);
      ApplyNothing(Apply(v, Obj(first)).value);
      StepOfObjectPatch(v, first);
    } else {
      OptionalObjectPatch(v, first, second);
    }
  }

  /** The same for arrays; the result is a keyed array with the elements that both patches make. */
  lemma BothArrayPatches(items: seq<Json>, wanted: seq<Json>, first: Json, second: Json)
    requires DistinctIds(items) && DistinctIds(wanted) && first.Obj? && second.Obj?
    requires Apply(ById(items), first).Ok? && SameFields(Apply(ById(items), first).value, ById(wanted))
    requires ApplyBoth(ById(items), first, second).Ok? && KeyedById(ApplyBoth(ById(items), first, second).value)
    requires forall k | k in ApplyBoth(ById(items), first, second).value :: CleanKey(k)
    ensures var after := StepTwice(Some(Arr(items)), if first.fields == map[] then None else Some(Obj(map[ISARRAY := first])),
                                   if second.fields == map[] then None else Some(Obj(map[ISARRAY := second])));
            && after.Ok? && after.value.Some? && after.value.value.Arr? && DistinctIds(after.value.value.items)
            && ById(after.value.value.items) == ApplyBoth(ById(items), first, second).value
  {
    hide Step, Apply, Same, ById, Listed;
    var m := ApplyBoth(ById(items), first, second).value;
    ListedIsKeyed(m);
    KeyedListIsDistinct(m);
    if second.fields != map[] {
      OptionalArrayPatch(items, wanted, first, second);
    } else {
      assert second == Obj(map[]);
      ApplyNothing(Apply(ById(items), first).value);
      if first.fields == map[] {
        assert first == Obj(map[]);
        ApplyNothing(ById(items));
      } else {
        KeyedObjectOfClean(items);
        StepOfArrayPatch(Some(Arr(items)), first);
        RebuiltArrayIsSame(Apply(ById(items), first).value, wanted);
      }
    }
  }

  lemma {:induction false} ApartChangesMerge(base: Json, left: Json, right: Json, el: Option<Json>, er: Option<Json>)
    requires Plain(base) && Plain(left) && Plain(right) && Apart(base, left, right)
    requires Change(base, left) == Ok(el) && Change(base, right) == Ok(er)
    ensures NoCommonLeaf(el, er)
    ensures var after := StepTwice(Some(base), el, er);
            after.Ok? && after.value.Some? && IsMergeOf(base, left, right, after.value.value)
    decreases base, 1
  {
    NoChangeIff(base);
    EntryApplies(Some(base), Some(left), el);
    EntryApplies(Some(base), Some(right), er);
    if !Untouched(base, left) && !Untouched(base, right) {
      if base.Obj? {
        ApartObjectsMerge(base, left, right, el, er);
      } else {
        ApartArraysMerge(base, left, right, el, er);
      }
    }
  }

  lemma {:induction false} ApartObjectsMerge(base: Json, left: Json, right: Json, el: Option<Json>, er: Option<Json>)
    requires Plain(base) && Plain(left) && Plain(right) && base.Obj? && left.Obj? && right.Obj?
    requires ApartFields(base.fields, left.fields, right.fields, base) && !Untouched(base, left) && !Untouched(base, right)
    requires Change(base, left) == Ok(el) && Change(base, right) == Ok(er)
    ensures NoCommonLeaf(el, er)
    ensures var after := StepTwice(Some(base), el, er);
            after.Ok? && after.value.Some? && IsMergeOf(base, left, right, after.value.value)
    decreases base, 0, 1
  {
    hide Step, StepTwice, Apply, ApplyBoth, Generate, Change, Same, LeafAt;
    ChangeOfPlainObjects(base, left);
    ChangeOfPlainObjects(base, right);
    var f, s := Generate(base.fields, left.fields, left).value, Generate(base.fields, right.fields, right).value;
    ApartFieldsMerge(base.fields, left.fields, right.fields, left, right, f, s, base);
    NoCommonLeafBelow(f, s);
    BothObjectPatches(base.fields, f, s);
  }

  lemma {:induction false} ApartArraysMerge(base: Json, left: Json, right: Json, el: Option<Json>, er: Option<Json>)
    requires Plain(base) && Plain(left) && Plain(right) && AreKeyed(base, left, right)
    requires ApartFields(ById(base.items), ById(left.items), ById(right.items), base) && !Untouched(base, left) && !Untouched(base, right)
    requires Change(base, left) == Ok(el) && Change(base, right) == Ok(er)
    ensures NoCommonLeaf(el, er)
    ensures var after := StepTwice(Some(base), el, er);
            after.Ok? && after.value.Some? && IsMergeOf(base, left, right, after.value.value)
    decreases base, 0, 1
  {
    hide Step, StepTwice, Apply, ApplyBoth, Generate, Change, Same, LeafAt, ById, Listed, LosesId;
    ChangeOfPlainArrays(base, left);
    ChangeOfPlainArrays(base, right);
    PlainById(base.items);
    PlainById(left.items);
    PlainById(right.items);
    var b, l, r := ById(base.items), ById(left.items), ById(right.items);
    var f, s := Generate(b, l, left).value, Generate(b, r, right).value;
    ApartFieldsMerge(b, l, r, left, right, f, s, base);
    NoCommonLeafBelow(f, s);
    NoCommonLeafUnder(ISARRAY, Obj(f), Obj(s));
    PlainApplies(b, l, left);
    MergedElementsKeepIds(b, l, r, left, right, f, s, ApplyBoth(b, Obj(f), Obj(s)).value);
    BothArrayPatches(base.items, left.items, Obj(f), Obj(s));
  }

  lemma MergedElementsKeepIds(b: Fields, l: Fields, r: Fields, bl: Json, br: Json, f: Fields, s: Fields, m: Fields)
    requires PlainFields(b) && PlainFields(l) && PlainFields(r) && KeyedById(b) && KeyedById(l) && KeyedById(r)
    requires (forall k | k in l :: l[k] < bl) && (forall k | k in r :: r[k] < br)
    requires Generate(b, l, bl) == Ok(f) && Generate(b, r, br) == Ok(s)
    requires forall k: string :: StepTwice(At(b, k), At(f, k), At(s, k)) == Ok(At(m, k))
    requires forall k | k in f && k in s :: k in b && k in l && k in r
    requires forall k | k in m :: k in l || k in r
    ensures KeyedById(m) && forall k | k in m :: CleanKey(k)
  {
    hide StepTwice, Generate;
    ElementsKeepIdsIff(b, l, r, f, s, m, bl, br);
    forall k | k in f && k in s
      ensures !LosesId(f[k], s[k])
    {
      EntryOfGenerate(b, l, k, bl);
      ElementPatchLacksId(b[k], l[k], f[k]);
    }
  }

  lemma {:induction false} ApartFieldsMerge(b: Fields, l: Fields, r: Fields, bl: Json, br: Json, f: Fields, s: Fields, bound: Json)
    requires PlainFields(b) && PlainFields(l) && PlainFields(r)
    requires (forall k | k in l :: l[k] < bl) && (forall k | k in r :: r[k] < br) && (forall k | k in b :: b[k] < bound)
    requires Generate(b, l, bl) == Ok(f) && Generate(b, r, br) == Ok(s) && ApartFields(b, l, r, bound)
    ensures forall k :: NoCommonLeaf(At(f, k), At(s, k))
    ensures ApplyBoth(b, Obj(f), Obj(s)).Ok?
    ensures var m := ApplyBoth(b, Obj(f), Obj(s)).value;
            && AreMergedFields(b, l, r, m, bound)
            && forall k: string :: StepTwice(At(b, k), At(f, k), At(s, k)) == Ok(At(m, k))
    ensures forall k | k in f && k in s :: k in b && k in l && k in r
    decreases bound, 0, 0
  {
    hide Step, StepTwice, Apply, ApplyBoth, Generate, Change, Same, LeafAt, Plain;
    GenerateOfPlain(b, l, bl);
    GenerateOfPlain(b, r, br);
    PlainApplies(b, l, bl);
    ApplyBothIs(b, Obj(f), Obj(s));
    forall k: string
      ensures NoCommonLeaf(At(f, k), At(s, k)) && StepTwice(At(b, k), At(f, k), At(s, k)).Ok?
      ensures IsMergedKey(At(b, k), At(l, k), At(r, k), StepTwice(At(b, k), At(f, k), At(s, k)).value)
      ensures k in f && k in s ==> k in b && k in l && k in r
    {
      if k in l && k in r {
        ApartChangesMerge(b[k], l[k], r[k], At(f, k), At(s, k));
      } else {
        OneSidedKey(At(b, k), At(l, k), At(r, k), At(f, k), At(s, k));
      }
    }
    KeysAreMerged(b, l, r, ApplyBoth(b, Obj(f), Obj(s)).value, bound);
  }

  /** What a key has to hold after the merge. */
  ghost predicate IsMergedKey(base: Option<Json>, left: Option<Json>, right: Option<Json>, merged: Option<Json>) {
    && (merged.Some? <==> if base.Some? then left.Some? && right.Some? else left.Some? || right.Some?)
    && (merged.Some? && base.None? ==> Same(merged.value, if left.Some? then left.value else right.value))
    && (merged.Some? && base.Some? ==> IsMergeOf(base.value, left.value, right.value, merged.value))
  }

  lemma KeysAreMerged(b: Fields, l: Fields, r: Fields, m: Fields, bound: Json)
    requires forall k | k in b :: b[k] < bound
    requires forall k: string :: IsMergedKey(At(b, k), At(l, k), At(r, k), At(m, k))
    ensures AreMergedFields(b, l, r, m, bound)
  {
    hide Same, IsMergeOf;
    forall k: string
      ensures k in m <==> if k in b then k in l && k in r else k in l || k in r
      ensures k in m && k !in b ==> Same(m[k], if k in l then l[k] else r[k])
      ensures k in m && k in b ==> k in l && k in r && IsMergeOf(b[k], l[k], r[k], m[k])
    {
      assert IsMergedKey(At(b, k), At(l, k), At(r, k), At(m, k));
    }
  }

  /** One side has no value for a key; if there was one, the other side left it alone. */
  lemma OneSidedKey(base: Option<Json>, left: Option<Json>, right: Option<Json>, el: Option<Json>, er: Option<Json>)
    requires PlainOption(base) && PlainOption(left) && PlainOption(right) && (left.None? || right.None?)
    requires EntryFor(base, left, el) && EntryFor(base, right, er)
    requires base.Some? && left.None? ==> right.Some? && Untouched(base.value, right.value)
    requires base.Some? && right.None? ==> left.Some? && Untouched(base.value, left.value)
    ensures (el.None? || er.None?) && StepTwice(base, el, er).Ok?
    ensures IsMergedKey(base, left, right, StepTwice(base, el, er).value)
  {
    hide Step, Same, Change;
    EntryApplies(base, left, el);
    EntryApplies(base, right, er);
    if base.Some? {
      NoChangeIff(base.value);
    }
  }

  // ----- the merge -----

  lemma NoCommonLeafNoClash(base: Json, left: Json, right: Json, eq: (Json, Json) -> bool)
    requires PlainDocuments(base, left, right) && NoCommonLeaf(EntryTo(base, left), EntryTo(base, right))
    ensures !Refused(base, left, right, eq)
  {
    hide Change, Generate, Clean, NoToString;
    PatchHasOneEntry(base, left);
    PatchHasOneEntry(base, right);
    if EntryTo(base, left).Some? && EntryTo(base, right).Some? {
      ApartUnderKey("data", EntryTo(base, left).value, EntryTo(base, right).value, eq);
    }
  }

  /** Edits in different places are merged, whichever side is older and however leaves compare, and both are kept. */
  lemma ApartEditsMerge(base: Json, left: Json, right: Json, leftFirst: bool, eq: (Json, Json) -> bool)
    requires PlainDocuments(base, left, right) && Apart(base, left, right)
    ensures var merged := MergeObject(base, left, right, leftFirst, eq);
            merged.Some? && IsMergeOf(base, left, right, merged.value)
  {
    hide MergeObject, Change, StepTwice, Clean, NoToString, Clashes, Same, PatchTo, EntryTo, Apart, IsMergeOf;
    PatchHasOneEntry(base, left);
    PatchHasOneEntry(base, right);
    ApartChangesMerge(base, left, right, EntryTo(base, left), EntryTo(base, right));
    IsMergeOfEither(base, left, right, StepTwice(Some(base), EntryTo(base, left), EntryTo(base, right)).value.value);
    ApartChangesMerge(base, right, left, EntryTo(base, right), EntryTo(base, left));
    IsMergeOfEither(base, right, left, StepTwice(Some(base), EntryTo(base, right), EntryTo(base, left)).value.value);
    NoCommonLeafNoClash(base, left, right, eq);
    MergeIs(base, left, right, leftFirst, eq);
  }
}
