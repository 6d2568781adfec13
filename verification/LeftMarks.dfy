/** Whether two patches of clean documents leave a clean one, or write a reserved mark into it. */
module LeftMarks {

  import opened Options
  import opened JsonPatch
  import opened PatchRoundTrip
  import opened TwoPatches
  import opened ClashCheck

  /** A change that meets the deletion of its object is written as it is, with the marks it contains. */
  ghost predicate Leaks(was: Option<Json>, first: Json, second: Json)
    decreases second
  {
    if was.None? then false
    else if IsDeletion(first) && IsObjectPatch(second) then !Clean(second)
    else if IsObjectPatch(first) && IsObjectPatch(second) then
      was.value.Obj? && exists k :: k in first.fields && k in second.fields && Leaks(At(was.value.fields, k), first.fields[k], second.fields[k])
    else if IsArrayPatch(first) && IsArrayPatch(second) then
      var f, s := first.fields[ISARRAY].fields, second.fields[ISARRAY].fields;
      exists k :: k in f && k in s && Leaks(At(ElementsOf(was), k), f[k], s[k])
    else false
  }

  ghost predicate LeaksAt(was: Option<Json>, first: Option<Json>, second: Option<Json>) {
    first.Some? && second.Some? && Leaks(was, first.value, second.value)
  }

  ghost predicate CleanOption(v: Option<Json>) {
    v.Some? ==> Clean(v.value)
  }

  ghost predicate EntriesAgree(first: Option<Json>, second: Option<Json>) {
    first.Some? && second.Some? ==> ArraysAgree(first.value, second.value)
  }

  // ----- values that are the same, and values applied to themselves -----

  lemma {:induction false} SameIsClean(a: Json, b: Json)
    requires Same(a, b) && Clean(b)
    ensures Clean(a)
    decreases a
  {
    if a.Obj? {
      forall k | k in a.fields
        ensures Clean(a.fields[k])
      {
        SameIsClean(a.fields[k], b.fields[k]);
      }
    } else if a.Arr? {
      SameArrayIsClean(a, b);
    }
  }

  lemma {:induction false} SameArrayIsClean(a: Json, b: Json)
    requires Same(a, b) && Clean(b) && a.Arr?
    ensures Clean(a)
    decreases a, 1
  {
    var xs, ys := a.items, b.items;
    if |xs| == |ys| && forall i | 0 <= i < |xs| :: Same(xs[i], ys[i]) {
      hide Same, ById, DistinctIds;
      forall i | 0 <= i < |xs|
        ensures Clean(xs[i])
      {
        assert ys[i] in ys;
        SameIsClean(xs[i], ys[i]);
      }
      ElementwiseIsClean(xs, ys);
    } else {
      hide Clean;
      KeyedArrayIsClean(xs, ys, a, b);
    }
  }

  lemma {:induction false} KeyedArrayIsClean(xs: seq<Json>, ys: seq<Json>, a: Json, b: Json)
    requires a == Arr(xs) && b == Arr(ys) && Clean(b) && DistinctIds(xs) && DistinctIds(ys) && SameFields(ById(xs), ById(ys))
    ensures Clean(a)
    decreases a, 0
  {
    hide Same, ById;
    forall x | x in xs
      ensures Clean(x) && !x.Null?
    {
      var i :| 0 <= i < |xs| && xs[i] == x;
      ByIdLooksUp(xs, i);
      SameIsClean(x, ById(ys)[Id(x)]);
    }
  }

  lemma ElementwiseIsClean(xs: seq<Json>, ys: seq<Json>)
    requires Clean(Arr(ys)) && |xs| == |ys| && forall i | 0 <= i < |xs| :: Same(xs[i], ys[i]) && Clean(xs[i])
    ensures Clean(Arr(xs))
  {
    forall i | 0 <= i < |xs|
      ensures !xs[i].Null? && (xs[i].Obj? <==> ys[i].Obj?)
      ensures xs[i].Obj? ==> ("id" in xs[i].fields <==> "id" in ys[i].fields)
    {
      SameKind(xs[i], ys[i]);
    }
    hide Same, DistinctIds;
    ElementwiseLooksKeyed(xs, ys);
    if LooksKeyed(xs) {
      ElementsKeepIds(xs, ys);
    }
  }

  lemma SameKind(a: Json, b: Json)
    requires Same(a, b)
    ensures (a.Null? <==> b.Null?) && (a.Obj? <==> b.Obj?)
    ensures a.Obj? ==> ("id" in a.fields <==> "id" in b.fields)
  {
  }

  lemma ElementwiseLooksKeyed(xs: seq<Json>, ys: seq<Json>)
    requires |xs| == |ys| && forall i | 0 <= i < |xs| :: xs[i].Obj? <==> ys[i].Obj?
    requires forall i | 0 <= i < |xs| && xs[i].Obj? :: "id" in xs[i].fields <==> "id" in ys[i].fields
    ensures LooksKeyed(xs) ==> LooksKeyed(ys)
  {
    if LooksKeyed(xs) {
      forall y | y in ys
        ensures y.Obj? && "id" in y.fields
      {
        var i :| 0 <= i < |ys| && ys[i] == y;
        assert xs[i] in xs;
      }
    }
  }

  /** A plain value, applied as a patch to itself, changes nothing. */
  lemma {:induction false} StepOnItself(v: Json)
    requires Plain(v)
    ensures Step(Some(v), v) == Ok(Some(v))
    decreases v, 1
  {
    PlainIsConvertible(v);
    CleanIsNoDeletion(v);
    if v.Obj? {
      forall k | k in v.fields
        ensures StepKey(v.fields, v, k) == Ok(Some(v.fields[k]))
      {
        StepOnItself(v.fields[k]);
      }
      ApplyIs(v.fields, v, v.fields);
      StepOfObjectPatch(v.fields, v.fields);
    } else if v.Arr? {
      OverlayOnItself(v.items, v);
      ArrayStep(v.items, v);
    }
  }

  lemma {:induction false} OverlayOnItself(xs: seq<Json>, bound: Json)
    requires forall i | 0 <= i < |xs| :: Plain(xs[i]) && xs[i] < bound
    ensures Overlay(xs, xs, bound) == Ok(xs)
    decreases bound, 0, |xs|
  {
    if xs != [] {
      StepOnItself(xs[0]);
      OverlayOnItself(xs[1..], bound);
      assert xs == [xs[0]] + xs[1..];
    }
  }

  lemma {:induction false} WithIndicesIsClean(target: Fields, items: seq<Json>)
    requires CleanFields(target) && forall x | x in items :: Clean(x)
    ensures CleanFields(WithIndices(target, items))
  {
    if items != [] {
      WithIndicesIsClean(target, items[..|items| - 1]);
      DecimalIsClean(|items| - 1);
    }
  }

  lemma DecimalIsClean(n: nat)
    ensures CleanKey(Decimal(n))
  {
    var digits := Decimal(n);
    assert digits[0] in digits;
    assert SWAPPED[0] == '\U{0001}' && ISARRAY[0] == '\U{0001}';
  }

  // ----- two new values -----

  lemma {:induction false} NewValuesStayClean(first: Json, second: Json)
    requires Plain(first) && Plain(second) && ArraysAgree(first, second) && !NewFails(first, second)
    ensures Step(Some(first), second).Ok? && Step(Some(first), second).value.Some? && Clean(Step(Some(first), second).value.value)
    decreases second
  {
    NewSteps(first, second);
    if first.Obj? && second.Obj? {
      NewObjectsStayClean(first, second);
    } else if first.Arr? && second.Arr? {
      assert IsArrayAt(first, []) && IsArrayAt(second, []);
      StepOnItself(first);
    } else {
      MixedStep(first, second);
      if first.Obj? && second.Arr? {
        WithIndicesIsClean(first.fields, second.items);
      }
    }
  }

  lemma {:induction false} NewObjectsStayClean(first: Json, second: Json)
    requires Plain(first) && Plain(second) && first.Obj? && second.Obj? && ArraysAgree(first, second) && !NewFails(first, second)
    ensures Step(Some(first), second).Ok? && Step(Some(first), second).value.Some? && Clean(Step(Some(first), second).value.value)
    decreases second, 0
  {
    var f, s := first.fields, second.fields;
    NewObjectSteps(f, second);
    StepOfObjectPatch(f, s);
    var m := Apply(f, second).value;
    forall k | k in m
      ensures CleanKey(k) && Clean(m[k])
    {
      ApplyAt(f, second, k);
      if k !in f && k !in s {
        NoKeyNoValue(f, second, k);
      } else if k in s {
        NewKeyStep(f, second, k);
        if k in f {
          ArraysAgreeUnderKey(first, second, k);
          NewValuesStayClean(f[k], s[k]);
        }
      }
    }
  }

  // ----- two changes -----

  lemma {:induction false} EntriesLeakIff(base: Option<Json>, l: Option<Json>, r: Option<Json>,
                                         left: Option<Json>, right: Option<Json>, bound: Json)
    requires PlainOption(base) && PlainOption(l) && PlainOption(r) && (r.Some? ==> r.value < bound)
    requires EntryFor(base, l, left) && EntryFor(base, r, right) && EntriesAgree(left, right)
    requires StepTwice(base, left, right).Ok?
    ensures CleanOption(StepTwice(base, left, right).value) <==> !LeaksAt(base, left, right)
    decreases bound, 2
  {
    EntryApplies(base, l, left);
    EntryApplies(base, r, right);
    if left.None? || right.None? {
      OneEntryStaysClean(base, l, r, left, right);
    } else if base.None? {
      StepOfNewValue(l.value);
      NewSteps(l.value, r.value);
      NewValuesStayClean(l.value, r.value);
    } else if r.Some? {
      KindOfChange(base.value, r.value, right.value);
      EntriesFail(base, l, r, left, right, bound);
      if l.None? {
        ChangeOfDeletedLeaksIff(base.value, r.value, right.value);
      } else {
        KindOfChange(base.value, l.value, left.value);
        if IsObjectPatch(left.value) && IsObjectPatch(right.value) {
          ObjectPatchesLeakIff(base.value, l.value, r.value, left.value, right.value, bound);
        } else if IsArrayPatch(left.value) && IsArrayPatch(right.value) {
          ArrayPatchesLeakIff(base.value, l.value, r.value, left.value, right.value, bound);
        } else {
          ReplacementWins(base.value, l.value, r.value, left.value, right.value);
        }
      }
    }
  }

  lemma OneEntryStaysClean(base: Option<Json>, l: Option<Json>, r: Option<Json>, left: Option<Json>, right: Option<Json>)
    requires PlainOption(l) && PlainOption(r) && (left.None? || right.None?)
    requires StepOver(base, left).Ok? && StepOver(base, left).value.Some? == l.Some?
    requires StepOver(base, right).Ok? && StepOver(base, right).value.Some? == r.Some?
    requires l.Some? ==> Same(StepOver(base, left).value.value, l.value)
    requires r.Some? ==> Same(StepOver(base, right).value.value, r.value)
    ensures CleanOption(StepTwice(base, left, right).value)
  {
    hide Step, Same, Clean;
    var after := StepTwice(base, left, right).value;
    if after.Some? {
      SameIsClean(after.value, if right.None? then l.value else r.value);
    }
  }

  lemma ChangeOfDeletedLeaksIff(base: Json, r: Json, right: Json)
    requires Plain(base) && Plain(r) && Change(base, r) == Ok(Some(right))
    requires StepTwice(Some(base), Some(Str(DELETED)), Some(right)).Ok?
    ensures CleanOption(StepTwice(Some(base), Some(Str(DELETED)), Some(right)).value) <==> !Leaks(Some(base), Str(DELETED), right)
  {
    hide Generate, Change, Same, StepInto, StepArray, Listed, ById;
    KindOfChange(base, r, right);
    EntryOnNothing(Some(base), Some(r), right);
    StepOfDeletion(Some(base));
    if IsSwap(right) {
      StepSwapped(None, r);
    } else if IsArrayPatch(right) {
      PlainById(base.items);
      PlainById(r.items);
      NewElementsAreClean(ById(base.items), ById(r.items), r, right.fields[ISARRAY]);
    }
  }

  /** An array patch that can be applied where there is nothing consists of new elements and deletions. */
  lemma NewElementsAreClean(v: Fields, w: Fields, bound: Json, diff: Json)
    requires PlainFields(v) && PlainFields(w) && KeyedById(v) && KeyedById(w) && forall k | k in w :: w[k] < bound
    requires diff.Obj? && Generate(v, w, bound) == Ok(diff.fields)
    ensures Step(None, Obj(map[ISARRAY := diff])).Ok? ==> CleanOption(Step(None, Obj(map[ISARRAY := diff])).value)
  {
    hide Step, StepArray, Generate, Apply, Listed, Change;
    GenerateOfPlain(v, w, bound);
    var none: Fields := map[];
    ElementsOnNothing(v, w, bound, diff);
    StepOfArrayPatch(None, diff);
    if StepArray(None, diff).Ok? {
      var m := Apply(none, diff).value;
      StepArrayOfNothing(diff, m);
      forall k | k in m
        ensures CleanKey(k) && Clean(m[k])
      {
        EntryOfGenerate(v, w, k, bound);
        if k in v && k in w {
          ElementPatchLacksId(v[k], w[k], diff.fields[k]);
        }
      }
      ListedIsCleanIff(m);
    }
  }

  lemma StepArrayOfNothing(diff: Json, m: Fields)
    requires diff.Obj? && Apply(map[], diff) == Ok(m) && StepArray(None, diff).Ok?
    ensures KeyedById(m) && StepArray(None, diff) == Ok(Some(Arr(Listed(m))))
  {
    hide Apply, Listed;
    var empty: seq<Json> := [];
    assert UnorderedArrayToObject(empty) == Ok(map[]);
  }

  lemma ListedIsCleanIff(m: Fields)
    requires KeyedById(m) && forall k | k in m :: CleanKey(k)
    ensures Clean(Arr(Listed(m))) <==> CleanFields(m)
  {
    hide Listed, ById;
    KeyedListIsDistinct(m);
    ListedIsKeyed(m);
    KeyedElements(Listed(m));
    assert forall x :: x in Listed(m) <==> x in m.Values;
    assert forall k | k in m :: m[k] in m.Values;
  }

  lemma {:induction false} FieldsLeakIff(base: Fields, l: Fields, r: Fields, bl: Json, br: Json)
    requires PlainFields(base) && PlainFields(l) && PlainFields(r)
    requires (forall k | k in l :: l[k] < bl) && (forall k | k in r :: r[k] < br)
    requires Generate(base, l, bl).Ok? && Generate(base, r, br).Ok?
    requires var left, right := Generate(base, l, bl).value, Generate(base, r, br).value;
             ArraysAgree(Obj(left), Obj(right)) && ApplyBoth(base, Obj(left), Obj(right)).Ok?
    ensures var left, right := Generate(base, l, bl).value, Generate(base, r, br).value;
            var m := ApplyBoth(base, Obj(left), Obj(right)).value;
            && (forall k | k in m :: CleanKey(k))
            && (CleanFields(m) <==> forall k :: !LeaksAt(At(base, k), At(left, k), At(right, k)))
    decreases br, 3
  {
    hide Step, StepTwice, Apply, ApplyBoth, Generate, Leaks, Fails, Clean, Same, ArraysAgree, EntryFor;
    var left, right := Generate(base, l, bl).value, Generate(base, r, br).value;
    GenerateOfPlain(base, l, bl);
    GenerateOfPlain(base, r, br);
    FieldsFail(base, l, r, bl, br);
    var m := ApplyBoth(base, Obj(left), Obj(right)).value;
    forall k: string
      ensures CleanOption(At(m, k)) <==> !LeaksAt(At(base, k), At(left, k), At(right, k))
      ensures k in m ==> CleanKey(k)
    {
      if k in left && k in right {
        ArraysAgreeUnderKey(Obj(left), Obj(right), k);
      }
      EntriesLeakIff(At(base, k), At(l, k), At(r, k), At(left, k), At(right, k), br);
      NothingStepsToNothing(At(base, k), At(left, k), At(right, k));
    }
    CleanByKeyIff(m);
  }

  lemma NothingStepsToNothing(was: Option<Json>, first: Option<Json>, second: Option<Json>)
    ensures was.None? && first.None? && second.None? ==> StepTwice(was, first, second) == Ok(None)
  {
  }

  lemma CleanByKeyIff(m: Fields)
    requires forall k | k in m :: CleanKey(k)
    ensures CleanFields(m) <==> forall k :: CleanOption(At(m, k))
  {
    hide Clean;
    if forall k :: CleanOption(At(m, k)) {
      forall k | k in m
        ensures Clean(m[k])
      {
        assert CleanOption(At(m, k));
      }
    }
  }

  lemma {:induction false} ObjectPatchesLeakIff(base: Json, l: Json, r: Json, left: Json, right: Json, bound: Json)
    requires Plain(base) && Plain(l) && Plain(r) && r < bound && ArraysAgree(left, right)
    requires Change(base, l) == Ok(Some(left)) && Change(base, r) == Ok(Some(right)) && IsObjectPatch(left) && IsObjectPatch(right)
    requires StepTwice(Some(base), Some(left), Some(right)).Ok?
    ensures CleanOption(StepTwice(Some(base), Some(left), Some(right)).value) <==> !Leaks(Some(base), left, right)
    decreases bound, 0
  {
    hide Step, StepTwice, Apply, ApplyBoth, Generate, Change, ArraysAgree, Same, Leaks;
    KindOfChange(base, l, left);
    KindOfChange(base, r, right);
    TwoObjectPatches(base.fields, left.fields, right.fields);
    FieldsLeakIff(base.fields, l.fields, r.fields, l, r);
    ObjectPatchesLeak(base, left, right);
  }

  lemma ObjectPatchesLeak(base: Json, left: Json, right: Json)
    requires base.Obj? && IsObjectPatch(left) && IsObjectPatch(right)
    ensures Leaks(Some(base), left, right) <==> exists k :: LeaksAt(At(base.fields, k), At(left.fields, k), At(right.fields, k))
  {
    var b, f, s := base.fields, left.fields, right.fields;
    if k :| LeaksAt(At(b, k), At(f, k), At(s, k)) {
      assert k in f && k in s && Leaks(At(b, k), f[k], s[k]);
    }
    if k :| k in f && k in s && Leaks(At(b, k), f[k], s[k]) {
      assert LeaksAt(At(b, k), At(f, k), At(s, k));
    }
  }

  lemma {:induction false} ArrayPatchesLeakIff(base: Json, l: Json, r: Json, left: Json, right: Json, bound: Json)
    requires Plain(base) && Plain(l) && Plain(r) && r < bound && ArraysAgree(left, right)
    requires Change(base, l) == Ok(Some(left)) && Change(base, r) == Ok(Some(right)) && IsArrayPatch(left) && IsArrayPatch(right)
    requires StepTwice(Some(base), Some(left), Some(right)).Ok?
    ensures CleanOption(StepTwice(Some(base), Some(left), Some(right)).value) <==> !Leaks(Some(base), left, right)
    decreases bound, 0
  {
    hide Step, StepTwice, Apply, ApplyBoth, Generate, Change, ArraysAgree, Same, Leaks, ById, Listed, Fails;
    KindOfChange(base, l, left);
    KindOfChange(base, r, right);
    PlainById(base.items);
    PlainById(l.items);
    PlainById(r.items);
    var b, bl, br := ById(base.items), ById(l.items), ById(r.items);
    var f, s := left.fields[ISARRAY], right.fields[ISARRAY];
    PlainApplies(b, bl, l);
    TwoArrayPatches(base.items, l.items, bl, f, s);
    ArraysAgreeUnderKey(left, right, ISARRAY);
    FieldsLeakIff(b, bl, br, l, r);
    ListedIsCleanIff(ApplyBoth(b, f, s).value);
    ArrayPatchesLeak(base.items, left, right);
  }

  lemma ArrayPatchesLeak(items: seq<Json>, left: Json, right: Json)
    requires AllHaveIds(items) && IsArrayPatch(left) && IsArrayPatch(right)
    ensures var b, f, s := ById(items), left.fields[ISARRAY].fields, right.fields[ISARRAY].fields;
            Leaks(Some(Arr(items)), left, right) <==> exists k :: LeaksAt(At(b, k), At(f, k), At(s, k))
  {
    hide ById;
    var b, f, s := ById(items), left.fields[ISARRAY].fields, right.fields[ISARRAY].fields;
    assert ElementsOf(Some(Arr(items))) == b;
    if k :| LeaksAt(At(b, k), At(f, k), At(s, k)) {
      assert k in f && k in s && Leaks(At(b, k), f[k], s[k]);
    }
    if k :| k in f && k in s && Leaks(At(b, k), f[k], s[k]) {
      assert LeaksAt(At(b, k), At(f, k), At(s, k));
    }
  }
}
