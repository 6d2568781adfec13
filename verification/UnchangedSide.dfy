/** A merge in which one side left the document alone: when the result is what the other side made of it. */
module UnchangedSide {

  import opened Options
  import opened JsonPatch
  import opened PatchRoundTrip
  import opened TwoPatches
  import opened ClashCheck

  /** A swap below this property shows in an array, or cannot be made there. */
  predicate ReachesArray(key: string, v: Json) {
    ShowsInArray(key) || (v.Arr? && LooksKeyed(v.items))
  }

  /**
   * Plain arrays are swapped even where nothing changed. The unchanged side does no harm exactly if every plain
   * array that its comparison reaches is there on the other side, unchanged; below an object that the other side
   * made an array, such swaps do not show.
   */
  predicate Kept(base: Json, other: Json)
    decreases base
  {
    AllArraysKeyed(base) ||
    match base
    case Obj(fields) =>
      if other.Obj? then forall k | k in fields :: AllArraysKeyed(fields[k]) || (k in other.fields && Kept(fields[k], other.fields[k]))
      else other.Arr? && forall k | k in fields :: AllArraysKeyed(fields[k]) || !ReachesArray(k, fields[k])
    case Arr(items) =>
      if LooksKeyed(items) then
        && other.Arr? && LooksKeyed(other.items) && AllHaveIds(items) && AllHaveIds(other.items)
        && forall k | k in ById(items) :: AllArraysKeyed(ById(items)[k]) || (k in ById(other.items) && Kept(ById(items)[k], ById(other.items)[k]))
      else base == other
    case _ => true
  }

  ghost predicate KeptAt(base: Option<Json>, other: Option<Json>) {
    base.Some? ==> AllArraysKeyed(base.value) || (other.Some? && Kept(base.value, other.value))
  }

  /** The other side's entry, then the entry of the unchanged side: the result is what the other side wanted. */
  ghost predicate Harmless(was: Option<Json>, wanted: Option<Json>, entry: Option<Json>, idle: Option<Json>) {
    var after := StepTwice(was, entry, idle);
    after.Ok? && after.value.Some? == wanted.Some? && (wanted.Some? ==> Same(after.value.value, wanted.value))
  }

  ghost predicate ArraysAgreeAt(a: Option<Json>, b: Option<Json>) {
    a.Some? && b.Some? ==> ArraysAgree(a.value, b.value)
  }

  /** In the other order there is never any harm. */
  lemma UnchangedFirst(was: Option<Json>, wanted: Option<Json>, entry: Option<Json>, idle: Option<Json>)
    requires PlainOption(was) && PlainOption(wanted) && EntryFor(was, wanted, entry) && EntryFor(was, was, idle)
    ensures Harmless(was, wanted, idle, entry)
  {
    EntryApplies(was, was, idle);
    EntryApplies(was, wanted, entry);
    if was.Some? && wanted.Some? {
      var between := StepOver(was, idle).value.value;
      RoundTripOfValue(was.value, between, wanted.value);
      if entry.Some? {
        PlainChangeIsComparable(was.value, wanted.value, Some(between));
      }
    } else if was.Some? {
      StepOfDeletion(StepOver(was, idle).value);
    }
  }

  lemma {:induction false} EntryIsHarmlessIff(was: Option<Json>, wanted: Option<Json>, entry: Option<Json>, idle: Option<Json>, bound: Json)
    requires PlainOption(was) && PlainOption(wanted) && (was.Some? ==> was.value < bound)
    requires EntryFor(was, wanted, entry) && EntryFor(was, was, idle)
    ensures ArraysAgreeAt(entry, idle) && Harmless(was, wanted, entry, idle) <==> KeptAt(was, wanted)
    decreases bound, 2
  {
    EntryApplies(was, wanted, entry);
    if was.Some? {
      NoChangeIff(was.value);
      if idle.Some? {
        KindOfChange(was.value, was.value, idle.value);
        if wanted.None? {
          assert !IsDeletion(idle.value);
          EntryOnNothing(was, was, idle.value);
          StepOfDeletion(was);
          StepDropsOnlyForDeletion(None, idle.value);
        } else {
          UnchangedIsHarmlessIff(was.value, wanted.value, entry, idle.value, bound);
        }
      }
    }
  }

  lemma {:induction false} UnchangedIsHarmlessIff(v: Json, w: Json, entry: Option<Json>, idle: Json, bound: Json)
    requires Plain(v) && Plain(w) && v < bound && !AllArraysKeyed(v)
    requires Change(v, w) == Ok(entry) && Change(v, v) == Ok(Some(idle))
    ensures ArraysAgreeAt(entry, Some(idle)) && Harmless(Some(v), Some(w), entry, Some(idle)) <==> Kept(v, w)
    decreases bound, 1
  {
    KindOfChange(v, v, idle);
    if v.Obj? && w.Obj? {
      UnchangedObjectIff(v, w, entry, idle, bound);
    } else if v.Obj? {
      ReplacedObjectIff(v, w, entry, idle);
    } else if LooksKeyed(v.items) {
      if w.Arr? && LooksKeyed(w.items) {
        UnchangedArrayIff(v, w, entry, idle, bound);
      } else {
        ReplacedBy(v, w);
        ChangeOnReplacement(v, w, v, idle);
        StepSwapped(Some(v), w);
      }
    } else {
      PlainArrayIff(v, w, entry, idle);
    }
  }

  /** A value of another kind is swapped in. */
  lemma ReplacedBy(v: Json, w: Json)
    requires Plain(v) && Plain(w) && (v.Obj? || v.Arr?) && !(v.Obj? && w.Obj?)
    requires !(v.Arr? && w.Arr? && LooksKeyed(v.items) && LooksKeyed(w.items))
    ensures Change(v, w) == Ok(Some(Obj(map[SWAPPED := w])))
  {
    if v.Arr? && w.Arr? {
      ChangeOfPlainArrays(v, w);
    }
  }

  lemma PlainArrayIff(v: Json, w: Json, entry: Option<Json>, idle: Json)
    requires Plain(v) && Plain(w) && v.Arr? && !LooksKeyed(v.items)
    requires Change(v, w) == Ok(entry) && Change(v, v) == Ok(Some(idle))
    ensures ArraysAgreeAt(entry, Some(idle)) && Harmless(Some(v), Some(w), entry, Some(idle)) <==> v == w
  {
    ReplacedBy(v, w);
    ReplacedBy(v, v);
    StepSwapped(Some(v), w);
    StepSwapped(Some(w), v);
    SameIsReflexive(v);
    SwapsAgreeIff(w, v);
  }

  /** Two arrays swapped in agree if they are equal; with something else there is nothing to compare. */
  lemma SwapsAgreeIff(w: Json, v: Json)
    requires v.Arr?
    ensures ArraysAgree(Obj(map[SWAPPED := w]), Obj(map[SWAPPED := v])) <==> !w.Arr? || v == w
  {
    var f, g: Fields := map[SWAPPED := w], map[SWAPPED := v];
    ArraysAgreeIff(f, g);
    assert At(f, SWAPPED) == Some(w) && At(g, SWAPPED) == Some(v);
    LeavesAgreeIff(w, v);
    forall k
      ensures k != SWAPPED ==> ArraysAgreeAt(At(f, k), At(g, k))
    {
    }
  }

  lemma LeavesAgreeIff(w: Json, v: Json)
    requires v.Arr?
    ensures ArraysAgree(w, v) <==> !w.Arr? || v == w
  {
    if w.Arr? && v != w {
      assert IsArrayAt(w, []) && IsArrayAt(v, []) && LeafAt(w, []) != LeafAt(v, []);
    }
  }

  lemma ReplacedObjectIff(v: Json, w: Json, entry: Option<Json>, idle: Json)
    requires Plain(v) && Plain(w) && v.Obj? && !w.Obj? && !AllArraysKeyed(v)
    requires Change(v, w) == Ok(entry) && Change(v, v) == Ok(Some(idle))
    ensures ArraysAgreeAt(entry, Some(idle)) && Harmless(Some(v), Some(w), entry, Some(idle)) <==> Kept(v, w)
  {
    ReplacedBy(v, w);
    KindOfChange(v, v, idle);
    StepSwapped(Some(v), w);
    SameIsReflexive(w);
    ObjectPatchOnReplacement(v, w, v, idle);
    ApartAgree(entry.value.fields, idle.fields);
    forall k | k in v.fields
      ensures k in idle.fields <==> !AllArraysKeyed(v.fields[k])
      ensures k in idle.fields ==> !IsDeletion(idle.fields[k])
      ensures k in idle.fields ==> (FailsOnNothing(idle.fields[k]) <==> v.fields[k].Arr? && LooksKeyed(v.fields[k].items))
    {
      EntryOfGenerate(v.fields, v.fields, k, v);
      NoChangeIff(v.fields[k]);
      if k in idle.fields {
        UnchangedOnNothing(v.fields[k], idle.fields[k]);
      }
    }
    GenerateOfPlain(v.fields, v.fields, v);
  }

  lemma ApartAgree(a: Fields, b: Fields)
    requires a.Keys !! b.Keys
    ensures ArraysAgree(Obj(a), Obj(b))
  {
    ArraysAgreeIff(a, b);
  }

  lemma UnchangedOnNothing(v: Json, idle: Json)
    requires Plain(v) && Change(v, v) == Ok(Some(idle))
    ensures !IsDeletion(idle)
    ensures FailsOnNothing(idle) <==> v.Arr? && LooksKeyed(v.items)
  {
    KindOfChange(v, v, idle);
    if v.Arr? && LooksKeyed(v.items) {
      PlainById(v.items);
      var m, diff := ById(v.items), idle.fields[ISARRAY].fields;
      NoChangeIff(v);
      ChangeOfPlainArrays(v, v);
      assert diff != map[];
      var k :| k in diff;
      GenerateOfPlain(m, m, v);
      EntryOfGenerate(m, m, k, v);
      ElementPatchLacksId(m[k], m[k], diff[k]);
    }
  }

  // ----- key by key -----

  lemma ArraysAgreeIff(a: Fields, b: Fields)
    ensures ArraysAgree(Obj(a), Obj(b)) <==> forall k :: ArraysAgreeAt(At(a, k), At(b, k))
  {
    if ArraysAgree(Obj(a), Obj(b)) {
      forall k
        ensures ArraysAgreeAt(At(a, k), At(b, k))
      {
        if k in a && k in b {
          ArraysAgreeUnderKey(Obj(a), Obj(b), k);
        }
      }
    }
    if forall k :: ArraysAgreeAt(At(a, k), At(b, k)) {
      forall path | IsArrayAt(Obj(a), path) && IsArrayAt(Obj(b), path)
        ensures LeafAt(Obj(a), path) == LeafAt(Obj(b), path)
      {
        assert ArraysAgreeAt(At(a, path[0]), At(b, path[0]));
        assert IsArrayAt(a[path[0]], path[1..]) && IsArrayAt(b[path[0]], path[1..]);
      }
    }
  }

  lemma {:induction false} FieldsAreHarmlessIff(v: Fields, w: Fields, bv: Json, bw: Json)
    requires PlainFields(v) && PlainFields(w)
    requires (forall k | k in v :: v[k] < bv) && (forall k | k in w :: w[k] < bw)
    requires Generate(v, w, bw).Ok? && Generate(v, v, bv).Ok?
    ensures var entry, idle := Generate(v, w, bw).value, Generate(v, v, bv).value;
            && Apply(v, Obj(entry)).Ok?
            && (ArraysAgree(Obj(entry), Obj(idle)) && ApplyBoth(v, Obj(entry), Obj(idle)).Ok? && SameFields(ApplyBoth(v, Obj(entry), Obj(idle)).value, w)
                <==> forall k :: KeptAt(At(v, k), At(w, k)))
    decreases bv, 3
  {
    hide Step, Apply, Generate, Same, Kept, Plain, Fails, ArraysAgree, EntryFor;
    var entry, idle := Generate(v, w, bw).value, Generate(v, v, bv).value;
    GenerateOfPlain(v, w, bw);
    GenerateOfPlain(v, v, bv);
    PlainApplies(v, w, bw);
    ApplyBothIs(v, Obj(entry), Obj(idle));
    ArraysAgreeIff(entry, idle);
    forall k
      ensures ArraysAgreeAt(At(entry, k), At(idle, k)) && Harmless(At(v, k), At(w, k), At(entry, k), At(idle, k)) <==> KeptAt(At(v, k), At(w, k))
    {
      EntryIsHarmlessIff(At(v, k), At(w, k), At(entry, k), At(idle, k), bv);
    }
    HarmlessFieldsIff(v, w, entry, idle);
  }

  lemma HarmlessFieldsIff(v: Fields, w: Fields, entry: Fields, idle: Fields)
    requires ApplyBoth(v, Obj(entry), Obj(idle)).Ok? <==> forall k: string :: StepTwice(At(v, k), At(entry, k), At(idle, k)).Ok?
    requires ApplyBoth(v, Obj(entry), Obj(idle)).Ok? ==>
               forall k: string :: StepTwice(At(v, k), At(entry, k), At(idle, k)) == Ok(At(ApplyBoth(v, Obj(entry), Obj(idle)).value, k))
    ensures ApplyBoth(v, Obj(entry), Obj(idle)).Ok? && SameFields(ApplyBoth(v, Obj(entry), Obj(idle)).value, w) <==>
              forall k :: Harmless(At(v, k), At(w, k), At(entry, k), At(idle, k))
  {
    hide StepTwice, ApplyBoth, Same;
    if forall k :: Harmless(At(v, k), At(w, k), At(entry, k), At(idle, k)) {
      forall k: string
        ensures StepTwice(At(v, k), At(entry, k), At(idle, k)).Ok?
      {
        assert Harmless(At(v, k), At(w, k), At(entry, k), At(idle, k));
      }
      var m := ApplyBoth(v, Obj(entry), Obj(idle)).value;
      forall k: string
        ensures (k in m <==> k in w) && (k in w ==> Same(m[k], w[k]))
      {
        assert Harmless(At(v, k), At(w, k), At(entry, k), At(idle, k));
        assert StepTwice(At(v, k), At(entry, k), At(idle, k)) == Ok(At(m, k));
      }
    }
  }

  lemma {:induction false} UnchangedObjectIff(v: Json, w: Json, entry: Option<Json>, idle: Json, bound: Json)
    requires Plain(v) && Plain(w) && v.Obj? && w.Obj? && v < bound && !AllArraysKeyed(v)
    requires Change(v, w) == Ok(entry) && Change(v, v) == Ok(Some(idle))
    ensures ArraysAgreeAt(entry, Some(idle)) && Harmless(Some(v), Some(w), entry, Some(idle)) <==> Kept(v, w)
    decreases bound, 0
  {
    hide Step, StepTwice, Apply, ApplyBoth, Generate, Change, ArraysAgree, Fails;
    KindOfChange(v, v, idle);
    ChangeOfPlainObjects(v, w);
    var patch := Generate(v.fields, w.fields, w).value;
    FieldsAreHarmlessIff(v.fields, w.fields, v, w);
    OptionalObjectPatch(v.fields, patch, idle.fields);
    NothingAgrees(idle.fields);
    KeptObjectIff(v, w);
  }

  lemma KeptObjectIff(v: Json, w: Json)
    requires v.Obj? && w.Obj?
    ensures Kept(v, w) <==> forall k :: KeptAt(At(v.fields, k), At(w.fields, k))
  {
    if forall k :: KeptAt(At(v.fields, k), At(w.fields, k)) {
      forall k | k in v.fields
        ensures AllArraysKeyed(v.fields[k]) || (k in w.fields && Kept(v.fields[k], w.fields[k]))
      {
        assert KeptAt(At(v.fields, k), At(w.fields, k));
      }
    }
  }

  lemma NothingAgrees(fields: Fields)
    ensures ArraysAgree(Obj(map[]), Obj(fields))
  {
  }

  lemma OptionalObjectPatch(v: Fields, first: Fields, second: Fields)
    requires (forall k | k in first :: CleanKey(k) && k != "toString") && (forall k | k in second :: CleanKey(k) && k != "toString")
    ensures StepTwice(Some(Obj(v)), if first == map[] then None else Some(Obj(first)), Some(Obj(second))) ==
              if ApplyBoth(v, Obj(first), Obj(second)).Throw? then Throw
              else Ok(Some(Obj(ApplyBoth(v, Obj(first), Obj(second)).value)))
  {
    if first == map[] {
      ApplyNothing(v);
      StepOfObjectPatch(v, second);
    } else {
      TwoObjectPatches(v, first, second);
    }
  }

  lemma {:induction false} UnchangedArrayIff(v: Json, w: Json, entry: Option<Json>, idle: Json, bound: Json)
    requires Plain(v) && Plain(w) && v.Arr? && w.Arr? && LooksKeyed(v.items) && LooksKeyed(w.items) && v < bound && !AllArraysKeyed(v)
    requires Change(v, w) == Ok(entry) && Change(v, v) == Ok(Some(idle))
    ensures ArraysAgreeAt(entry, Some(idle)) && Harmless(Some(v), Some(w), entry, Some(idle)) <==> Kept(v, w)
    decreases bound, 0
  {
    hide Step, StepTwice, Apply, ApplyBoth, Generate, Change, ArraysAgree, ById, Listed, Fails, Same, Kept;
    KindOfChange(v, v, idle);
    ChangeOfPlainArrays(v, w);
    PlainById(v.items);
    PlainById(w.items);
    var m, n := ById(v.items), ById(w.items);
    var patch, second := Obj(Generate(m, n, w).value), idle.fields[ISARRAY];
    FieldsAreHarmlessIff(m, n, v, w);
    PlainApplies(m, n, w);
    OptionalArrayPatch(v.items, w.items, patch, second);
    ArraysAgreeBelow(patch, second);
    NothingAgrees(idle.fields);
    NothingAgrees(second.fields);
    if ApplyBoth(m, patch, second).Ok? {
      ListedIsSameIff(ApplyBoth(m, patch, second).value, w.items);
    }
    KeptArrayIff(v, w);
  }

  lemma KeptArrayIff(v: Json, w: Json)
    requires v.Arr? && w.Arr? && LooksKeyed(v.items) && LooksKeyed(w.items) && DistinctIds(v.items) && DistinctIds(w.items)
    ensures Kept(v, w) <==> forall k :: KeptAt(At(ById(v.items), k), At(ById(w.items), k))
  {
    hide ById;
    var m, n := ById(v.items), ById(w.items);
    KeyedElements(v.items);
    assert AllArraysKeyed(v) ==> forall k | k in m :: AllArraysKeyed(m[k]);
    if forall k :: KeptAt(At(m, k), At(n, k)) {
      forall k | k in m
        ensures AllArraysKeyed(m[k]) || (k in n && Kept(m[k], n[k]))
      {
        assert KeptAt(At(m, k), At(n, k));
      }
    }
  }

  lemma ArraysAgreeBelow(a: Json, b: Json)
    requires a.Obj? && b.Obj?
    ensures ArraysAgree(Obj(map[ISARRAY := a]), Obj(map[ISARRAY := b])) <==> ArraysAgree(a, b)
  {
    var f, g: Fields := map[ISARRAY := a], map[ISARRAY := b];
    ArraysAgreeIff(f, g);
    forall k
      ensures k != ISARRAY ==> ArraysAgreeAt(At(f, k), At(g, k))
    {
    }
    assert At(f, ISARRAY) == Some(a) && At(g, ISARRAY) == Some(b);
  }

  /** Whether the rebuilt array is what was wanted. */
  lemma ListedIsSameIff(m: Fields, wanted: seq<Json>)
    requires DistinctIds(wanted)
    ensures KeyedById(m) && Same(Arr(Listed(m)), Arr(wanted)) <==> SameFields(m, ById(wanted))
  {
    hide Same, ById, Listed;
    if KeyedById(m) && Same(Arr(Listed(m)), Arr(wanted)) {
      SameArraysByIds(Listed(m), wanted);
      ListedIsKeyed(m);
    }
    if SameFields(m, ById(wanted)) {
      SameAsKeyed(m, wanted);
      RebuiltArrayIsSame(m, wanted);
    }
  }

  lemma OptionalArrayPatch(items: seq<Json>, wanted: seq<Json>, first: Json, second: Json)
    requires DistinctIds(items) && DistinctIds(wanted) && first.Obj? && second.Obj?
    requires Apply(ById(items), first).Ok? && SameFields(Apply(ById(items), first).value, ById(wanted))
    ensures StepTwice(Some(Arr(items)), if first.fields == map[] then None else Some(Obj(map[ISARRAY := first])), Some(Obj(map[ISARRAY := second]))) ==
              if ApplyBoth(ById(items), first, second).Throw? || !KeyedById(ApplyBoth(ById(items), first, second).value) then Throw
              else Ok(Some(Arr(Listed(ApplyBoth(ById(items), first, second).value))))
  {
    hide Step, Apply, Same, ById, Listed;
    if first.fields == map[] {
      ApplyNothing(ById(items));
      KeyedObjectOfClean(items);
      StepOfArrayPatch(Some(Arr(items)), second);
    } else {
      TwoArrayPatches(items, wanted, ById(wanted), first, second);
    }
  }

  // ----- the clash check -----

  /** What is kept is set to the same by both entries. */
  lemma {:induction false} KeptLeavesAgree(was: Option<Json>, wanted: Option<Json>, entry: Json, idle: Json, path: seq<string>)
    requires PlainOption(was) && PlainOption(wanted) && KeptAt(was, wanted)
    requires EntryFor(was, wanted, Some(entry)) && was.Some? && Change(was.value, was.value) == Ok(Some(idle))
    requires LeafAt(entry, path).Some? && LeafAt(idle, path).Some?
    ensures LeafAt(entry, path) == LeafAt(idle, path)
    decreases |path|
  {
    NoChangeIff(was.value);
    var v, w := was.value, wanted.value;
    KindOfChange(v, v, idle);
    KindOfChange(v, w, entry);
    if v.Obj? && w.Obj? {
      KeptObjectIff(v, w);
      KeptFieldsAgree(v.fields, w.fields, v, w, entry.fields, idle.fields, path);
    } else if v.Arr? && LooksKeyed(v.items) && w.Arr? && LooksKeyed(w.items) {
      PlainById(v.items);
      PlainById(w.items);
      KeptArrayIff(v, w);
      KeptFieldsAgree(ById(v.items), ById(w.items), v, w, entry.fields[ISARRAY].fields, idle.fields[ISARRAY].fields, path[1..]);
    }
  }

  lemma {:induction false} KeptFieldsAgree(v: Fields, w: Fields, bv: Json, bw: Json, entry: Fields, idle: Fields, path: seq<string>)
    requires PlainFields(v) && PlainFields(w) && (forall k | k in v :: v[k] < bv) && (forall k | k in w :: w[k] < bw)
    requires Generate(v, w, bw) == Ok(entry) && Generate(v, v, bv) == Ok(idle)
    requires forall k :: KeptAt(At(v, k), At(w, k))
    ensures LeafAt(Obj(entry), path).Some? && LeafAt(Obj(idle), path).Some? ==> LeafAt(Obj(entry), path) == LeafAt(Obj(idle), path)
    decreases |path|, 0
  {
    if LeafAt(Obj(entry), path).Some? && LeafAt(Obj(idle), path).Some? {
      var k := path[0];
      EntryOfGenerate(v, w, k, bw);
      EntryOfGenerate(v, v, k, bv);
      assert KeptAt(At(v, k), At(w, k));
      KeptLeavesAgree(At(v, k), At(w, k), entry[k], idle[k], path[1..]);
    }
  }
}
