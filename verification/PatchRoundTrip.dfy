/** Generating a patch and applying it: `applyPatch(from, generatePatchObj(from, to))` is `to`. */
module PatchRoundTrip {

  import opened Options
  import opened CodeUnitOrder
  import opened JsonPatch

  // ----- the values this is promised for -----

  predicate CleanKey(key: string) {
    !Forbidden(key) && key != SWAPPED && key != ISARRAY
  }

  predicate LooksKeyed(xs: seq<Json>) {
    forall x | x in xs :: x.Obj? && "id" in x.fields
  }

  predicate DistinctIds(xs: seq<Json>) {
    && AllHaveIds(xs)
    && (forall x | x in xs :: CleanKey(Id(x)))
    && forall i, j | 0 <= i < j < |xs| :: Id(xs[i]) != Id(xs[j])
  }

  /**
   * Free of reserved marks and of forbidden keys; no null in an array; and if every element of an array has an
   * id, the ids are distinct strings that are acceptable as keys.
   */
  predicate Clean(v: Json) {
    match v
    case Str(s) => s != DELETED
    case Obj(fields) => forall k | k in fields :: CleanKey(k) && Clean(fields[k])
    case Arr(items) => (forall x | x in items :: !x.Null? && Clean(x)) && (LooksKeyed(items) ==> DistinctIds(items))
    case _ => true
  }

  predicate CleanFields(m: Fields) {
    forall k | k in m :: CleanKey(k) && Clean(m[k])
  }

  /** Equal up to the order of arrays whose elements are told apart by their ids. */
  ghost predicate Same(a: Json, b: Json)
    decreases a
  {
    match a
    case Obj(fields) =>
      b.Obj? && fields.Keys == b.fields.Keys && forall k | k in fields :: Same(fields[k], b.fields[k])
    case Arr(items) =>
      && b.Arr?
      && ((|items| == |b.items| && forall i | 0 <= i < |items| :: Same(items[i], b.items[i]))
          || (DistinctIds(items) && DistinctIds(b.items) && ById(items).Keys == ById(b.items).Keys
              && forall k | k in ById(items) :: Same(ById(items)[k], ById(b.items)[k])))
    case _ => a == b
  }

  ghost predicate SameFields(a: Fields, b: Fields) {
    a.Keys == b.Keys && forall k | k in a :: Same(a[k], b[k])
  }

  lemma {:induction false} SameIsReflexive(a: Json)
    ensures Same(a, a)
  {
    match a
    case Obj(fields) =>
      forall k | k in fields ensures Same(fields[k], fields[k]) { SameIsReflexive(fields[k]); }
    case Arr(items) =>
      forall i | 0 <= i < |items| ensures Same(items[i], items[i]) { SameIsReflexive(items[i]); }
    case _ =>
  }

  lemma {:induction false} CleanIsNoDeletion(v: Json)
    requires Clean(v)
    ensures !EqualsDeleted(v)
  {
    if v.Arr? && |v.items| == 1 {
      CleanIsNoDeletion(v.items[0]);
    }
  }

  lemma {:induction false} EveryHasIdOfClean(xs: seq<Json>)
    requires forall x | x in xs :: !x.Null?
    ensures EveryHasId(xs) == Ok(LooksKeyed(xs))
  {
    if xs != [] {
      EveryHasIdOfClean(xs[1..]);
      assert LooksKeyed(xs) <==> xs[0].Obj? && "id" in xs[0].fields && LooksKeyed(xs[1..]);
    }
  }

  // ----- arrays and the objects made of them -----

  lemma {:induction false} ByIdLooksUp(xs: seq<Json>, i: nat)
    requires i < |xs| && AllHaveIds(xs)
    requires forall i, j | 0 <= i < j < |xs| :: Id(xs[i]) != Id(xs[j])
    ensures Id(xs[i]) in ById(xs) && ById(xs)[Id(xs[i])] == xs[i]
  {
    if i < |xs| - 1 {
      ByIdLooksUp(xs[..|xs| - 1], i);
    }
  }

  lemma ListedElement(m: Fields, i: nat)
    requires KeyedById(m) && i < |m|
    ensures Ascending(m.Keys)[i] in m && HasId(Listed(m)[i]) && Id(Listed(m)[i]) == Ascending(m.Keys)[i]
    ensures Listed(m)[i] == m[Ascending(m.Keys)[i]]
  {
    assert Ascending(m.Keys)[i] in Ascending(m.Keys);
  }

  lemma ListedHasDistinctIds(m: Fields)
    requires KeyedById(m)
    ensures AllHaveIds(Listed(m)) && forall i, j | 0 <= i < j < |m| :: Id(Listed(m)[i]) != Id(Listed(m)[j])
  {
    forall i | 0 <= i < |m|
      ensures HasId(Listed(m)[i]) && Id(Listed(m)[i]) == Ascending(m.Keys)[i]
    {
      ListedElement(m, i);
    }
  }

  lemma ListedIsKeyed(m: Fields)
    requires KeyedById(m)
    ensures AllHaveIds(Listed(m)) && ById(Listed(m)) == m
    ensures forall i, j | 0 <= i < j < |m| :: Id(Listed(m)[i]) != Id(Listed(m)[j])
  {
    hide Listed, ById, Ascending;
    var keys, xs := Ascending(m.Keys), Listed(m);
    ListedHasDistinctIds(m);
    forall k | k in m
      ensures k in ById(xs) && ById(xs)[k] == m[k]
    {
      var i :| 0 <= i < |keys| && keys[i] == k;
      ListedElement(m, i);
      ByIdLooksUp(xs, i);
    }
    forall k | k in ById(xs)
      ensures k in m
    {
      var i :| 0 <= i < |xs| && xs[i] == ById(xs)[k];
      ListedElement(m, i);
    }
  }

  lemma KeyedObjectOfClean(xs: seq<Json>)
    requires DistinctIds(xs)
    ensures UnorderedArrayToObject(xs) == Ok(ById(xs)) && KeyedById(ById(xs))
  {
  }

  lemma CleanById(xs: seq<Json>)
    requires Clean(Arr(xs)) && LooksKeyed(xs)
    ensures DistinctIds(xs) && CleanFields(ById(xs)) && UnorderedArrayToObject(xs) == Ok(ById(xs)) && KeyedById(ById(xs))
  {
  }

  /** Arrays that are the same stand for objects that are. */
  lemma SameArraysByIds(xs: seq<Json>, ys: seq<Json>)
    requires Same(Arr(xs), Arr(ys)) && DistinctIds(ys)
    ensures DistinctIds(xs) && SameFields(ById(xs), ById(ys))
  {
    if |xs| == |ys| && forall i | 0 <= i < |xs| :: Same(xs[i], ys[i]) {
      hide Same, ById, DistinctIds;
      ElementsKeepIds(xs, ys);
      ElementwiseByIds(xs, ys);
    }
  }

  lemma ElementsKeepIds(xs: seq<Json>, ys: seq<Json>)
    requires |xs| == |ys| && DistinctIds(ys) && forall i | 0 <= i < |xs| :: Same(xs[i], ys[i])
    ensures DistinctIds(xs) && forall i | 0 <= i < |xs| :: Id(xs[i]) == Id(ys[i])
  {
    hide Same;
    forall i | 0 <= i < |xs|
      ensures HasId(xs[i]) && Id(xs[i]) == Id(ys[i]) && CleanKey(Id(xs[i]))
    {
      assert ys[i] in ys;
      SameKeepsId(xs[i], ys[i]);
    }
  }

  lemma ElementwiseByIds(xs: seq<Json>, ys: seq<Json>)
    requires |xs| == |ys| && DistinctIds(xs) && DistinctIds(ys)
    requires forall i | 0 <= i < |xs| :: Same(xs[i], ys[i]) && Id(xs[i]) == Id(ys[i])
    ensures SameFields(ById(xs), ById(ys))
  {
    hide Same, ById, CleanKey;
    forall i | 0 <= i < |xs|
      ensures Id(xs[i]) in ById(xs) && ById(xs)[Id(xs[i])] == xs[i]
      ensures Id(xs[i]) in ById(ys) && ById(ys)[Id(xs[i])] == ys[i]
    {
      ByIdLooksUp(xs, i);
      ByIdLooksUp(ys, i);
    }
    forall k | k in ById(xs)
      ensures k in ById(ys) && Same(ById(xs)[k], ById(ys)[k])
    {
      var i :| 0 <= i < |xs| && xs[i] == ById(xs)[k];
      assert Id(xs[i]) == k;
    }
    forall k | k in ById(ys)
      ensures k in ById(xs)
    {
      var i :| 0 <= i < |ys| && ys[i] == ById(ys)[k];
      assert Id(ys[i]) == k;
    }
  }

  // ----- what applying a patch compares -----

  /** The elements that an array patch finds at a key. */
  function ElementsOf(was: Option<Json>): Fields {
    if was.Some? && was.value.Arr? && AllHaveIds(was.value.items) then ById(was.value.items) else map[]
  }

  /**
   * Every entry that is compared with the deletion mark can be: the entry itself, and what it goes into, the
   * entries of an object patch where there is an object and those of an array patch.
   */
  predicate Comparable(was: Option<Json>, entry: Json)
    decreases entry, 1
  {
    Convertible(entry) && (entry.Obj? && SWAPPED !in entry.fields ==>
      if ISARRAY in entry.fields then AllComparable(ElementsOf(was), entry.fields[ISARRAY])
      else was.Some? && was.value.Obj? ==> AllComparable(was.value.fields, entry))
  }

  predicate AllComparable(target: Fields, patch: Json)
    decreases patch, 0
  {
    patch.Obj? ==> forall k | k in patch.fields :: Comparable(At(target, k), patch.fields[k])
  }

  function StepOver(was: Option<Json>, entry: Option<Json>): Result<Option<Json>> {
    if entry.None? then Ok(was) else Step(was, entry.value)
  }

  // ----- the round trip -----

  /** The entry makes of the old value what is wanted, unless a comparison throws. */
  ghost predicate EntryWorks(was: Option<Json>, entry: Option<Json>, wanted: Option<Json>) {
    var after := StepOver(was, entry);
    && (after.Ok? <==> (entry.Some? ==> Comparable(was, entry.value)))
    && (after.Ok? ==> after.value.Some? == wanted.Some? && (wanted.Some? ==> Same(after.value.value, wanted.value)))
  }

  /** `was` is what the patch finds: the old value, up to the order of keyed arrays. */
  lemma {:induction false} RoundTripOfKey(from: Fields, was: Fields, to: Fields, key: string, bound: Json)
    requires CleanFields(from) && CleanFields(to) && SameFields(was, from) && (key in from || key in to)
    requires forall k | k in to :: to[k] < bound
    ensures Entry(from, to, key, bound).Ok? && EntryWorks(At(was, key), Entry(from, to, key, bound).value, At(to, key))
    decreases bound, 0
  {
    if key in to {
      if key in from {
        RoundTripOfValue(from[key], was[key], to[key]);
      } else {
        CleanIsNoDeletion(to[key]);
        SameIsReflexive(to[key]);
      }
    }
  }

  lemma {:induction false} RoundTripOfFields(from: Fields, was: Fields, to: Fields, bound: Json)
    requires CleanFields(from) && CleanFields(to) && SameFields(was, from)
    requires forall k | k in to :: to[k] < bound
    ensures Generate(from, to, bound).Ok?
    ensures var patch := Obj(Generate(from, to, bound).value);
            && (forall k | k in patch.fields :: CleanKey(k))
            && (Apply(was, patch).Ok? <==> AllComparable(was, patch))
            && (Apply(was, patch).Ok? ==> SameFields(Apply(was, patch).value, to))
    decreases bound, 1
  {
    forall k | k in from || k in to
      ensures Entry(from, to, k, bound).Ok? && EntryWorks(At(was, k), Entry(from, to, k, bound).value, At(to, k))
    {
      RoundTripOfKey(from, was, to, k, bound);
    }
    EntriesMakePatch(from, to, bound);
    var patch := Obj(Generate(from, to, bound).value);
    forall k: string
      ensures EntryWorks(At(was, k), At(patch.fields, k), At(to, k))
    {
      if k !in from && k !in to {
        assert At(was, k) == None && At(patch.fields, k) == None;
      } else {
        assert Entry(from, to, k, bound) == Ok(At(patch.fields, k));
      }
    }
    ApplyWorkingEntries(was, patch, to);
  }

  lemma EntriesMakePatch(from: Fields, to: Fields, bound: Json)
    requires CleanFields(from) && CleanFields(to)
    requires forall k | k in to :: to[k] < bound
    requires forall k | k in from || k in to :: Entry(from, to, k, bound).Ok?
    ensures Generate(from, to, bound).Ok?
    ensures var patch := Generate(from, to, bound).value;
            && (forall k | k in patch :: CleanKey(k) && (k in from || k in to))
            && forall k | k in from || k in to :: Entry(from, to, k, bound) == Ok(At(patch, k))
  {
    hide Entry, Clean, CleanKey;
    var keys, patch := from.Keys + to.Keys, Generate(from, to, bound).value;
    assert forall k :: k in keys <==> k in from || k in to;
    forall k | k in keys
      ensures Ok(At(patch, k)) == Entry(from, to, k, bound)
    {
    }
  }

  lemma ApplyWorkingEntries(was: Fields, patch: Json, to: Fields)
    requires patch.Obj? && forall k | k in patch.fields :: CleanKey(k)
    requires forall k: string :: EntryWorks(At(was, k), At(patch.fields, k), At(to, k))
    ensures Apply(was, patch).Ok? <==> AllComparable(was, patch)
    ensures Apply(was, patch).Ok? ==> SameFields(Apply(was, patch).value, to)
  {
    hide Step, Same, Apply, Comparable;
    forall k: string
      ensures StepKey(was, patch, k) == StepOver(At(was, k), At(patch.fields, k))
      ensures EntryWorks(At(was, k), At(patch.fields, k), At(to, k))
    {
    }
    ApplyThrowsIff(was, patch);
    if Apply(was, patch).Ok? {
      var result := Apply(was, patch).value;
      forall k: string
        ensures At(result, k).Some? == At(to, k).Some? && (k in to ==> Same(result[k], to[k]))
      {
        ApplyAt(was, patch, k);
      }
      assert forall k :: k in result <==> At(to, k).Some?;
    }
  }

  lemma {:induction false} RoundTripOfValue(v: Json, was: Json, value: Json)
    requires Clean(v) && Clean(value) && Same(was, v)
    ensures Change(v, value).Ok? && EntryWorks(Some(was), Change(v, value).value, Some(value))
    decreases value, 3
  {
    SameIsReflexive(value);
    if SameType(v, value) && v.Obj? && value.Obj? {
      RoundTripOfObjects(v, was, value);
    } else if SameType(v, value) && v.Arr? {
      RoundTripOfArrays(v, was, value);
    } else if !SameType(v, value) || v.Null? || value.Null? {
      SwapWorks(was, value);
    }
  }

  lemma SwapWorks(was: Json, value: Json)
    requires Same(value, value)
    ensures EntryWorks(Some(was), Some(Obj(map[SWAPPED := value])), Some(value))
  {
    hide Same;
    var patch := Obj(map[SWAPPED := value]);
    assert SWAPPED in patch.fields && Convertible(patch);
    assert Step(Some(was), patch) == Ok(Some(value));
  }

  lemma {:induction false} RoundTripOfObjects(v: Json, was: Json, value: Json)
    requires Clean(v) && Clean(value) && v.Obj? && value.Obj? && Same(was, v)
    ensures Change(v, value).Ok? && EntryWorks(Some(was), Change(v, value).value, Some(value))
    decreases value, 2
  {
    RoundTripOfFields(v.fields, was.fields, value.fields, value);
    var patch := Generate(v.fields, value.fields, value).value;
    ChangeOfObjects(v, value);
    ObjectPatchWorks(was, patch, value);
  }

  lemma ChangeOfObjects(v: Json, value: Json)
    requires v.Obj? && value.Obj? && Generate(v.fields, value.fields, value).Ok?
    ensures var patch := Generate(v.fields, value.fields, value).value;
            Change(v, value) == Ok(if patch == map[] then None else Some(Obj(patch)))
  {
    hide Generate;
  }

  lemma ObjectPatchWorks(was: Json, patch: Fields, value: Json)
    requires was.Obj? && value.Obj? && forall k | k in patch :: CleanKey(k)
    requires Apply(was.fields, Obj(patch)).Ok? <==> AllComparable(was.fields, Obj(patch))
    requires Apply(was.fields, Obj(patch)).Ok? ==> SameFields(Apply(was.fields, Obj(patch)).value, value.fields)
    ensures EntryWorks(Some(was), if patch == map[] then None else Some(Obj(patch)), Some(value))
  {
    ApplyNothing(was.fields);
    StepOfObjectPatch(was.fields, patch);
    hide Step, Apply, AllComparable;
    if patch == map[] {
      assert was == Obj(was.fields) && value == Obj(value.fields);
    }
  }

  lemma StepOfObjectPatch(target: Fields, patch: Fields)
    requires forall k | k in patch :: CleanKey(k)
    ensures Step(Some(Obj(target)), Obj(patch)) ==
              if "toString" in patch || Apply(target, Obj(patch)).Throw? then Throw
              else Ok(Some(Obj(Apply(target, Obj(patch)).value)))
  {
    hide Apply;
  }

  lemma {:induction false} RoundTripOfArrays(v: Json, was: Json, value: Json)
    requires Clean(v) && Clean(value) && v.Arr? && value.Arr? && Same(was, v)
    ensures Change(v, value).Ok? && EntryWorks(Some(was), Change(v, value).value, Some(value))
    decreases value, 2
  {
    EveryHasIdOfClean(v.items);
    EveryHasIdOfClean(value.items);
    if LooksKeyed(v.items) && LooksKeyed(value.items) {
      CleanById(v.items);
      CleanById(value.items);
      SameArraysByIds(was.items, v.items);
      RoundTripOfFields(ById(v.items), ById(was.items), ById(value.items), value);
      ChangeOfKeyedArrays(v, value);
      StepOfKeyedArrays(was.items, value.items, Obj(Generate(ById(v.items), ById(value.items), value).value));
    } else {
      SameIsReflexive(value);
      ChangeOfOtherArrays(v, value);
      SwapWorks(was, value);
    }
  }

  lemma ChangeOfOtherArrays(v: Json, value: Json)
    requires v.Arr? && value.Arr?
    requires EveryHasId(v.items).Ok? && EveryHasId(value.items).Ok?
    requires !(EveryHasId(v.items).value && EveryHasId(value.items).value)
    ensures Change(v, value) == Ok(Some(Obj(map[SWAPPED := value])))
  {
    hide EveryHasId, Generate;
    assert SWAPPED in map[SWAPPED := value];
  }

  lemma ChangeOfKeyedArrays(v: Json, value: Json)
    requires v.Arr? && value.Arr? && DistinctIds(v.items) && DistinctIds(value.items)
    requires EveryHasId(v.items) == Ok(true) == EveryHasId(value.items)
    requires Generate(ById(v.items), ById(value.items), value).Ok?
    ensures var diff := Generate(ById(v.items), ById(value.items), value).value;
            Change(v, value) == Ok(if diff == map[] then None else Some(Obj(map[ISARRAY := Obj(diff)])))
  {
    KeyedObjectOfClean(v.items);
    KeyedObjectOfClean(value.items);
    hide Generate, EveryHasId, ById, DistinctIds, UnorderedArrayToObject;
    var diff := Generate(ById(v.items), ById(value.items), value).value;
    assert ISARRAY in map[ISARRAY := Obj(diff)];
  }

  lemma StepOfKeyedArrays(items: seq<Json>, wanted: seq<Json>, diff: Json)
    requires DistinctIds(items) && DistinctIds(wanted) && diff.Obj?
    requires Apply(ById(items), diff).Ok? <==> AllComparable(ById(items), diff)
    requires Apply(ById(items), diff).Ok? ==> SameFields(Apply(ById(items), diff).value, ById(wanted))
    ensures EntryWorks(Some(Arr(items)), if diff.fields == map[] then None else Some(Obj(map[ISARRAY := diff])), Some(Arr(wanted)))
  {
    hide Step, Apply, Same, ById, Listed, AllComparable;
    if diff.fields == map[] {
      ApplyNothing(ById(items));
      KeyedArraysAreSame(items, wanted);
    } else {
      KeyedObjectOfClean(items);
      StepOfArrayPatch(Some(Arr(items)), diff);
      ArrayPatchComparable(items, diff);
      if Apply(ById(items), diff).Ok? {
        var applied := Apply(ById(items), diff).value;
        RebuiltArrayIsSame(applied, wanted);
        assert StepArray(Some(Arr(items)), diff) == Ok(Some(Arr(Listed(applied))));
      }
    }
  }

  lemma ArrayPatchComparable(items: seq<Json>, diff: Json)
    requires AllHaveIds(items)
    ensures Comparable(Some(Arr(items)), Obj(map[ISARRAY := diff])) <==> AllComparable(ById(items), diff)
  {
    var patch := Obj(map[ISARRAY := diff]);
    assert ISARRAY in patch.fields && SWAPPED !in patch.fields && Convertible(patch);
  }

  lemma KeyedArraysAreSame(items: seq<Json>, wanted: seq<Json>)
    requires DistinctIds(items) && DistinctIds(wanted) && SameFields(ById(items), ById(wanted))
    ensures Same(Arr(items), Arr(wanted))
  {
  }

  lemma StepOfArrayPatch(was: Option<Json>, diff: Json)
    ensures Step(was, Obj(map[ISARRAY := diff])) == StepArray(was, diff)
  {
    var patch := Obj(map[ISARRAY := diff]);
    assert Convertible(patch) && !EqualsDeleted(patch) && SWAPPED !in patch.fields;
  }

  /** An object that is the same as the one made of an array becomes an array that is the same. */
  lemma RebuiltArrayIsSame(applied: Fields, items: seq<Json>)
    requires DistinctIds(items) && SameFields(applied, ById(items))
    ensures ObjectToUnorderedArray(applied) == Ok(Listed(applied)) && Same(Arr(Listed(applied)), Arr(items))
  {
    hide Same, Listed, ById;
    forall k | k in applied
      ensures HasId(applied[k]) && Id(applied[k]) == k && CleanKey(k)
    {
      SameKeepsId(applied[k], ById(items)[k]);
    }
    ListedIsKeyed(applied);
    KeyedListIsDistinct(applied);
    KeyedArraysAreSame(Listed(applied), items);
  }

  lemma SameKeepsId(a: Json, b: Json)
    requires Same(a, b) && HasId(b)
    ensures HasId(a) && Id(a) == Id(b)
  {
    assert Same(a.fields["id"], b.fields["id"]);
  }

  lemma KeyedListIsDistinct(m: Fields)
    requires KeyedById(m) && forall k | k in m :: CleanKey(k)
    ensures DistinctIds(Listed(m))
  {
    hide Listed, ById;
    ListedIsKeyed(m);
    forall x | x in Listed(m)
      ensures Id(x) in m
    {
      var i :| 0 <= i < |Listed(m)| && Listed(m)[i] == x;
      ListedElement(m, i);
    }
  }

  /**
   * For all clean objects a patch is generated; applying it succeeds exactly if nothing that it compares has a
   * property called toString; and then `applyPatch(from, generatePatchObj(from, to))` is `to`.
   */
  lemma PatchRoundTrip(from: Fields, to: Fields)
    requires CleanFields(from) && CleanFields(to)
    ensures Generate(from, to, Obj(to)).Ok?
    ensures var patch := Obj(Generate(from, to, Obj(to)).value);
            && (Apply(from, patch).Ok? <==> AllComparable(from, patch))
            && (Apply(from, patch).Ok? ==> SameFields(Apply(from, patch).value, to))
  {
    SameIsReflexive(Obj(from));
    RoundTripOfFields(from, from, to, Obj(to));
  }

  /** A property called toString defeats applyPatch: comparing its object with the deletion mark throws. */
  lemma ToStringPropertyDefeatsPatch()
    ensures var from, to := map["k" := Obj(map[])], map["k" := Obj(map["toString" := Str("x")])];
            && Generate(from, to, Obj(to)) == Ok(to)
            && Apply(from, Obj(to)).Throw?
  {
    var inner := Obj(map["toString" := Str("x")]);
    var from, to := map["k" := Obj(map[])], map["k" := inner];
    var none: Fields := map[];
    assert Entry(none, inner.fields, "toString", inner) == Ok(Some(Str("x")));
    assert none.Keys + inner.fields.Keys == {"toString"};
    assert Generate(none, inner.fields, inner).Ok? && Generate(none, inner.fields, inner).value == inner.fields;
    assert inner.fields != map[];
    assert Entry(from, to, "k", Obj(to)) == Ok(Some(inner));
    assert from.Keys + to.Keys == {"k"};
    assert Generate(from, to, Obj(to)).Ok? && Generate(from, to, Obj(to)).value == to;
    assert !Convertible(inner);
    assert StepKey(from, Obj(to), "k").Throw?;
    assert "k" in from.Keys + Obj(to).fields.Keys;
  }

  /** Deeper inside a new value it is not compared, and does no harm. */
  lemma NestedToStringIsHarmless()
    ensures var from, to: Fields := map[], map["k" := Obj(map["x" := Obj(map["toString" := Str("x")])])];
            Generate(from, to, Obj(to)) == Ok(to) && Apply(from, Obj(to)) == Ok(to)
  {
    var value := Obj(map["x" := Obj(map["toString" := Str("x")])]);
    var from, to: Fields := map[], map["k" := value];
    assert Entry(from, to, "k", Obj(to)) == Ok(Some(value));
    assert from.Keys + to.Keys == {"k"};
    assert Generate(from, to, Obj(to)).Ok? && Generate(from, to, Obj(to)).value == to;
    assert Convertible(value) && SWAPPED !in value.fields && ISARRAY !in value.fields;
    ApplyIs(from, Obj(to), to);
  }

  // ----- forbidden keys -----

  /** Neither a comparison nor a patch goes to a key that could reach the prototype of an object. */
  lemma ForbiddenKeysThrow(from: Fields, to: Fields, bound: Json, key: string)
    requires (forall k | k in to :: to[k] < bound) && key in to && (key == "__proto__" || key == "constructor" || key == "prototype")
    ensures Generate(from, to, bound) == Throw && Apply(from, Obj(to)) == Throw
  {
    assert key in from.Keys + to.Keys && Entry(from, to, key, bound) == Throw;
    var patch := Obj(to);
    assert key in from.Keys + patch.fields.Keys && StepKey(from, patch, key) == Throw;
  }

  // ----- when nothing changed -----

  /** Every array that a comparison reaches is told apart by ids. */
  predicate AllArraysKeyed(v: Json) {
    match v
    case Obj(fields) => forall k | k in fields :: AllArraysKeyed(fields[k])
    case Arr(items) => LooksKeyed(items) && forall x | x in items :: AllArraysKeyed(x)
    case _ => true
  }

  /** Comparing a value with itself gives nothing exactly if all its arrays are keyed: any other array is always swapped. */
  lemma {:induction false} NoChangeIff(v: Json)
    requires Clean(v)
    ensures Change(v, v) == Ok(None) <==> AllArraysKeyed(v)
    decreases v, 1
  {
    if v.Obj? {
      NoChangeOfFieldsIff(v.fields, v);
      GeneratesFromItself(v.fields, v);
    } else if v.Arr? {
      EveryHasIdOfClean(v.items);
      if LooksKeyed(v.items) {
        CleanById(v.items);
        GeneratesFromItself(ById(v.items), v);
        ChangeOfKeyedArrays(v, v);
        NoChangeOfFieldsIff(ById(v.items), v);
        KeyedElements(v.items);
      } else {
        ChangeOfOtherArrays(v, v);
      }
    }
  }

  lemma GeneratesFromItself(m: Fields, bound: Json)
    requires CleanFields(m) && forall k | k in m :: m[k] < bound
    ensures Generate(m, m, bound).Ok?
  {
    SameIsReflexive(Obj(m));
    RoundTripOfFields(m, m, m, bound);
  }

  predicate AllKeyed(s: set<Json>) {
    forall x | x in s :: AllArraysKeyed(x)
  }

  lemma {:induction false} NoChangeOfFieldsIff(m: Fields, bound: Json)
    requires CleanFields(m) && forall k | k in m :: m[k] < bound
    ensures Generate(m, m, bound) == Ok(map[]) <==> AllKeyed(m.Values)
    decreases bound, 0
  {
    forall k | k in m
      ensures Entry(m, m, k, bound) == Ok(None) <==> AllArraysKeyed(m[k])
    {
      NoChangeIff(m[k]);
    }
    GenerateNothingIff(m, m, bound);
    assert forall k | k in m :: m[k] in m.Values;
  }

  lemma GenerateNothingIff(from: Fields, to: Fields, bound: Json)
    requires forall k | k in to :: to[k] < bound
    ensures Generate(from, to, bound) == Ok(map[]) <==> forall k | k in from || k in to :: Entry(from, to, k, bound) == Ok(None)
  {
    hide Entry;
    var r := Generate(from, to, bound);
    if r == Ok(map[]) {
      forall k | k in from || k in to
        ensures Entry(from, to, k, bound) == Ok(None)
      {
        assert k in from.Keys + to.Keys;
        assert k !in r.value;
      }
    }
  }

  /** The elements of a keyed array are the values of its object. */
  lemma KeyedElements(xs: seq<Json>)
    requires DistinctIds(xs)
    ensures ById(xs).Values == set x | x in xs
  {
    forall x | x in xs
      ensures x in ById(xs).Values
    {
      var i :| 0 <= i < |xs| && xs[i] == x;
      ByIdLooksUp(xs, i);
      assert ById(xs)[Id(x)] == x;
    }
    forall x | x in ById(xs).Values
      ensures x in xs
    {
      var k :| k in ById(xs) && ById(xs)[k] == x;
    }
  }
}
