/**
 * Two patches of one value applied one after the other: when the second one throws, when their order matters, and
 * when a reserved mark is left behind.
 */
module TwoPatches {

  import opened Options
  import opened JsonPatch
  import opened PatchRoundTrip

  // ----- documents in which no comparison throws -----

  predicate NoToString(v: Json) {
    match v
    case Obj(fields) => forall k | k in fields :: k != "toString" && NoToString(fields[k])
    case Arr(items) => forall x | x in items :: NoToString(x)
    case _ => true
  }

  predicate Plain(v: Json) {
    Clean(v) && NoToString(v)
  }

  predicate PlainFields(m: Fields) {
    forall k | k in m :: CleanKey(k) && Plain(m[k])
  }

  predicate PlainOption(v: Option<Json>) {
    v.Some? ==> Plain(v.value)
  }

  lemma {:induction false} PlainIsConvertible(v: Json)
    requires NoToString(v)
    ensures Convertible(v)
  {
    if v.Arr? {
      forall x | x in v.items
        ensures Convertible(x)
      {
        PlainIsConvertible(x);
      }
    }
  }

  lemma {:induction false} PlainIsComparable(v: Json, target: Option<Json>)
    requires Plain(v)
    ensures Comparable(target, v)
    decreases v
  {
    PlainIsConvertible(v);
    if v.Obj? && target.Some? && target.value.Obj? {
      forall k | k in v.fields
        ensures Comparable(At(target.value.fields, k), v.fields[k])
      {
        PlainIsComparable(v.fields[k], At(target.value.fields, k));
      }
    }
  }

  /** `entry` is what a patch from one object to another has for a key with these values. */
  ghost predicate EntryFor(was: Option<Json>, wanted: Option<Json>, entry: Option<Json>) {
    if wanted.None? then entry == if was.None? then None else Some(Str(DELETED))
    else if was.None? then entry == wanted
    else Change(was.value, wanted.value) == Ok(entry)
  }

  lemma EntryOfGenerate(from: Fields, to: Fields, key: string, bound: Json)
    requires CleanFields(from) && CleanFields(to) && forall k | k in to :: to[k] < bound
    requires Generate(from, to, bound).Ok?
    ensures EntryFor(At(from, key), At(to, key), At(Generate(from, to, bound).value, key))
  {
    hide Change;
    if key in from || key in to {
      assert key in from.Keys + to.Keys;
      assert Entry(from, to, key, bound).Ok?;
    }
  }

  lemma GenerateOfPlain(from: Fields, to: Fields, bound: Json)
    requires PlainFields(from) && PlainFields(to) && forall k | k in to :: to[k] < bound
    ensures Generate(from, to, bound).Ok?
    ensures forall k | k in Generate(from, to, bound).value :: CleanKey(k) && (k in from || k in to)
    ensures forall key :: EntryFor(At(from, key), At(to, key), At(Generate(from, to, bound).value, key))
  {
    SameIsReflexive(Obj(from));
    RoundTripOfFields(from, from, to, bound);
    forall key: string
      ensures EntryFor(At(from, key), At(to, key), At(Generate(from, to, bound).value, key))
    {
      EntryOfGenerate(from, to, key, bound);
    }
  }

  lemma PlainById(xs: seq<Json>)
    requires Plain(Arr(xs)) && LooksKeyed(xs)
    ensures DistinctIds(xs) && PlainFields(ById(xs)) && KeyedById(ById(xs))
  {
    CleanById(xs);
  }

  /** How a change of two values of the same kind looks. */
  lemma ChangeOfPlainObjects(v: Json, value: Json)
    requires Plain(v) && Plain(value) && v.Obj? && value.Obj?
    ensures Generate(v.fields, value.fields, value).Ok?
    ensures var patch := Generate(v.fields, value.fields, value).value;
            && Change(v, value) == Ok(if patch == map[] then None else Some(Obj(patch)))
            && (forall k | k in patch :: CleanKey(k) && k != "toString")
  {
    GenerateOfPlain(v.fields, value.fields, value);
    ChangeOfObjects(v, value);
  }

  lemma ChangeOfPlainArrays(v: Json, value: Json)
    requires Plain(v) && Plain(value) && v.Arr? && value.Arr?
    ensures if LooksKeyed(v.items) && LooksKeyed(value.items) then
              && DistinctIds(v.items) && DistinctIds(value.items)
              && Generate(ById(v.items), ById(value.items), value).Ok?
              && var diff := Generate(ById(v.items), ById(value.items), value).value;
                 Change(v, value) == Ok(if diff == map[] then None else Some(Obj(map[ISARRAY := Obj(diff)])))
            else Change(v, value) == Ok(Some(Obj(map[SWAPPED := value])))
  {
    EveryHasIdOfClean(v.items);
    EveryHasIdOfClean(value.items);
    if LooksKeyed(v.items) && LooksKeyed(value.items) {
      PlainById(v.items);
      PlainById(value.items);
      GenerateOfPlain(ById(v.items), ById(value.items), value);
      ChangeOfKeyedArrays(v, value);
    } else {
      ChangeOfOtherArrays(v, value);
    }
  }

  lemma {:induction false} PlainChangeIsComparable(v: Json, value: Json, target: Option<Json>)
    requires Plain(v) && Plain(value) && Change(v, value).Ok? && Change(v, value).value.Some?
    ensures Comparable(target, Change(v, value).value.value)
    decreases value, 1
  {
    if v.Obj? && value.Obj? {
      ChangeOfPlainObjects(v, value);
      if target.Some? && target.value.Obj? {
        PlainEntriesAreComparable(v.fields, value.fields, value, target.value.fields);
      }
    } else if v.Arr? && value.Arr? && LooksKeyed(v.items) && LooksKeyed(value.items) {
      ChangeOfPlainArrays(v, value);
      PlainById(v.items);
      PlainById(value.items);
      PlainEntriesAreComparable(ById(v.items), ById(value.items), value, ElementsOf(target));
      var diff := Obj(Generate(ById(v.items), ById(value.items), value).value);
      var patch := Obj(map[ISARRAY := diff]);
      assert ISARRAY in patch.fields && SWAPPED !in patch.fields && Convertible(patch);
    } else {
      if v.Arr? && value.Arr? {
        ChangeOfPlainArrays(v, value);
      }
      OtherChange(v, value);
    }
  }

  /** Any other change is a replacement. */
  lemma OtherChange(v: Json, value: Json)
    requires Plain(v) && Plain(value) && Change(v, value).Ok? && Change(v, value).value.Some?
    requires !(v.Obj? && value.Obj?) && !(v.Arr? && value.Arr? && LooksKeyed(v.items) && LooksKeyed(value.items))
    ensures var entry := Change(v, value).value.value;
            && (entry == Obj(map[SWAPPED := value]) || (entry == value && !value.Obj? && !value.Arr? && !value.Null?))
            && forall target :: Comparable(target, entry)
  {
    if v.Arr? && value.Arr? {
      ChangeOfPlainArrays(v, value);
    }
    assert SWAPPED in map[SWAPPED := value];
  }

  lemma {:induction false} PlainEntriesAreComparable(from: Fields, to: Fields, bound: Json, target: Fields)
    requires PlainFields(from) && PlainFields(to) && (forall k | k in to :: to[k] < bound) && Generate(from, to, bound).Ok?
    ensures AllComparable(target, Obj(Generate(from, to, bound).value))
    decreases bound, 0
  {
    var patch := Generate(from, to, bound).value;
    forall k | k in patch
      ensures Comparable(At(target, k), patch[k])
    {
      EntryOfGenerate(from, to, k, bound);
      if k in to {
        if k in from {
          PlainChangeIsComparable(from[k], to[k], At(target, k));
        } else {
          PlainIsComparable(to[k], At(target, k));
        }
      }
    }
  }

  /** The entry of a patch between plain documents does its work wherever its key has the old value. */
  lemma EntryApplies(was: Option<Json>, wanted: Option<Json>, entry: Option<Json>)
    requires PlainOption(was) && PlainOption(wanted) && EntryFor(was, wanted, entry)
    ensures StepOver(was, entry).Ok? && StepOver(was, entry).value.Some? == wanted.Some?
    ensures wanted.Some? ==> Same(StepOver(was, entry).value.value, wanted.value)
  {
    if wanted.Some? {
      if was.Some? {
        SameIsReflexive(was.value);
        RoundTripOfValue(was.value, was.value, wanted.value);
        if entry.Some? {
          PlainChangeIsComparable(was.value, wanted.value, was);
        }
      } else {
        StepOfNewValue(wanted.value);
        SameIsReflexive(wanted.value);
      }
    }
  }

  lemma StepOfNewValue(v: Json)
    requires Plain(v)
    ensures Step(None, v) == Ok(Some(v))
  {
    PlainIsConvertible(v);
    CleanIsNoDeletion(v);
  }

  // ----- two new values at one key -----

  /** The second value, applied as a patch to the first, throws. */
  ghost predicate NewFails(first: Json, second: Json)
    decreases second
  {
    if first.Obj? && second.Obj? then
      exists k :: k in first.fields && k in second.fields && NewFails(first.fields[k], second.fields[k])
    else if first.Arr? && second.Arr? then
      exists i :: 0 <= i < |first.items| && i < |second.items| && NewFails(first.items[i], second.items[i])
    else if first.Arr? then second.Obj? && exists k :: k in second.fields && ShowsInArray(k)
    else if first.Obj? then second.Arr? && exists i :: 0 <= i < |second.items| && Decimal(i) in first.fields
    else (second.Obj? && second.fields != map[]) || (second.Arr? && second.items != [])
  }

  /** Where neither order throws, both give the same. */
  ghost predicate NewMatch(left: Json, right: Json)
    decreases left
  {
    if left.Obj? && right.Obj? then
      forall k | k in left.fields && k in right.fields :: NewMatch(left.fields[k], right.fields[k])
    else if left.Arr? && right.Arr? then
      forall i | 0 <= i < |left.items| && i < |right.items| :: NewMatch(left.items[i], right.items[i])
    else if left.Obj? || left.Arr? then !right.Obj? && !right.Arr?
    else right.Obj? || right.Arr? || left == right
  }

  lemma {:induction false} NewSteps(first: Json, second: Json)
    requires Plain(first) && Plain(second)
    ensures Step(Some(first), second).Throw? <==> NewFails(first, second)
    ensures Step(Some(first), second).Ok? ==> Step(Some(first), second).value.Some?
    decreases second, 1
  {
    PlainIsConvertible(second);
    CleanIsNoDeletion(second);
    if first.Obj? && second.Obj? {
      NewObjectSteps(first.fields, second);
    } else if first.Arr? && second.Arr? {
      NewElementSteps(first.items, second.items, second);
    } else if first.Arr? && second.Obj? {
      forall k | k in second.fields
        ensures Step(None, second.fields[k]).Ok?
      {
        StepOfNewValue(second.fields[k]);
      }
      assert forall k | k in second.fields :: CleanKey(k);
      assert Step(Some(first), second) == if FitsBeside(second) then Ok(Some(first)) else Throw;
    } else if first.Obj? && second.Arr? {
      forall i | 0 <= i < |second.items|
        ensures Step(None, second.items[i]) == Ok(Some(second.items[i]))
      {
        StepOfNewValue(second.items[i]);
      }
      assert Step(Some(first), second) ==
             if FitsIndices(first.fields, second) then Ok(Some(Obj(WithIndices(first.fields, second.items)))) else Throw;
    } else if second.Obj? {
      forall k | k in second.fields
        ensures !EqualsDeleted(second.fields[k])
      {
        CleanIsNoDeletion(second.fields[k]);
      }
    }
  }

  lemma NewKeyStep(first: Fields, second: Json, k: string)
    requires PlainFields(first) && Plain(second) && second.Obj? && k in second.fields
    ensures StepKey(first, second, k) == if k in first then Step(Some(first[k]), second.fields[k]) else Ok(Some(second.fields[k]))
  {
    if k !in first {
      StepOfNewValue(second.fields[k]);
    }
  }

  lemma {:induction false} NewObjectSteps(first: Fields, second: Json)
    requires PlainFields(first) && Plain(second) && second.Obj?
    ensures Apply(first, second).Throw? <==> exists k :: k in first && k in second.fields && NewFails(first[k], second.fields[k])
    ensures Apply(first, second).Ok? ==> forall k | k in second.fields :: k in Apply(first, second).value
    decreases second, 0
  {
    forall k | k in second.fields
      ensures StepKey(first, second, k) == if k in first then Step(Some(first[k]), second.fields[k]) else Ok(Some(second.fields[k]))
      ensures StepKey(first, second, k).Throw? <==> k in first && NewFails(first[k], second.fields[k])
      ensures StepKey(first, second, k).Ok? ==> StepKey(first, second, k).value.Some?
    {
      NewKeyStep(first, second, k);
      if k in first {
        NewSteps(first[k], second.fields[k]);
      }
    }
    ApplyThrowsIff(first, second);
    if Apply(first, second).Ok? {
      forall k | k in second.fields
        ensures k in Apply(first, second).value
      {
        ApplyAt(first, second, k);
      }
    }
  }

  lemma {:induction false} NewElementSteps(xs: seq<Json>, ys: seq<Json>, bound: Json)
    requires (forall x | x in xs :: Plain(x)) && (forall y | y in ys :: Plain(y)) && forall i | 0 <= i < |ys| :: ys[i] < bound
    ensures Overlay(xs, ys, bound).Throw? <==> exists i :: 0 <= i < |xs| && i < |ys| && NewFails(xs[i], ys[i])
    ensures Overlay(xs, ys, bound).Ok? ==>
              var zs := Overlay(xs, ys, bound).value;
              && |zs| == (if |xs| < |ys| then |ys| else |xs|)
              && forall i | 0 <= i < |zs| ::
                   if i < |xs| && i < |ys| then Step(Some(xs[i]), ys[i]) == Ok(Some(zs[i]))
                   else zs[i] == if i < |xs| then xs[i] else ys[i]
    decreases bound, 0, |ys|
  {
    hide Step, NewFails, Clean, NoToString;
    if ys != [] {
      var xs' := if xs == [] then [] else xs[1..];
      NewElementSteps(xs', ys[1..], bound);
      if xs == [] {
        StepOfNewValue(ys[0]);
      } else {
        NewSteps(xs[0], ys[0]);
        NewElementsFailIff(xs, ys);
      }
    }
  }

  lemma NewElementsFailIff(xs: seq<Json>, ys: seq<Json>)
    requires xs != [] && ys != []
    ensures (exists i :: 0 <= i < |xs| && i < |ys| && NewFails(xs[i], ys[i])) <==>
              NewFails(xs[0], ys[0]) || exists i :: 0 <= i < |xs[1..]| && i < |ys[1..]| && NewFails(xs[1..][i], ys[1..][i])
  {
    hide NewFails;
    if i :| 0 < i < |xs| && i < |ys| && NewFails(xs[i], ys[i]) {
      assert NewFails(xs[1..][i - 1], ys[1..][i - 1]);
    }
    if i :| 0 <= i < |xs[1..]| && i < |ys[1..]| && NewFails(xs[1..][i], ys[1..][i]) {
      assert NewFails(xs[i + 1], ys[i + 1]);
    }
  }

  lemma {:induction false} NewMatchIff(left: Json, right: Json)
    requires Plain(left) && Plain(right) && !NewFails(left, right) && !NewFails(right, left)
    ensures Step(Some(left), right) == Step(Some(right), left) <==> NewMatch(left, right)
    decreases left
  {
    NewSteps(left, right);
    NewSteps(right, left);
    if left.Obj? && right.Obj? {
      NewObjectsMatchIff(left, right);
    } else if left.Arr? && right.Arr? {
      NewArraysMatchIff(left, right);
    } else {
      MixedStep(left, right);
      MixedStep(right, left);
    }
  }

  /** What becomes of a new value of another kind, where it does not throw. */
  lemma MixedStep(first: Json, second: Json)
    requires Plain(first) && Plain(second) && !NewFails(first, second)
    requires !(first.Obj? && second.Obj?) && !(first.Arr? && second.Arr?)
    ensures Step(Some(first), second).Ok? && Step(Some(first), second).value.Some?
    ensures var result := Step(Some(first), second).value.value;
            if !second.Obj? && !second.Arr? then result == second
            else if first.Obj? then result == Obj(WithIndices(first.fields, second.items))
            else result == first
  {
    NewSteps(first, second);
    PlainIsConvertible(second);
    CleanIsNoDeletion(second);
    if second.Obj? {
      assert SWAPPED !in second.fields && ISARRAY !in second.fields;
    }
  }

  lemma {:induction false} NewObjectsMatchIff(left: Json, right: Json)
    requires Plain(left) && Plain(right) && left.Obj? && right.Obj? && !NewFails(left, right) && !NewFails(right, left)
    ensures Step(Some(left), right) == Step(Some(right), left) <==> NewMatch(left, right)
    decreases left, 0
  {
    var l, r := left.fields, right.fields;
    forall k | k in l || k in r
      ensures k in l && k in r ==> Step(Some(l[k]), r[k]).Ok? && Step(Some(r[k]), l[k]).Ok?
      ensures k in l && k in r ==> (Step(Some(l[k]), r[k]) == Step(Some(r[k]), l[k]) <==> NewMatch(l[k], r[k]))
      ensures StepKey(l, right, k) == StepKey(r, left, k) <==> (k in l && k in r ==> NewMatch(l[k], r[k]))
    {
      if k in l && k in r {
        NewSteps(l[k], r[k]);
        NewSteps(r[k], l[k]);
        NewMatchIff(l[k], r[k]);
      }
      if k in r { NewKeyStep(l, right, k); }
      if k in l { NewKeyStep(r, left, k); }
    }
    NewObjectSteps(l, right);
    NewObjectSteps(r, left);
    StepOfObjectPatch(l, r);
    StepOfObjectPatch(r, l);
    ApplyEqualIff(l, right, r, left);
  }

  /** Two applications agree exactly if they do at every key. */
  lemma ApplyEqualIff(s: Fields, patch: Json, t: Fields, patch': Json)
    requires patch.Obj? && patch'.Obj? && Apply(s, patch).Ok? && Apply(t, patch').Ok?
    ensures Apply(s, patch) == Apply(t, patch') <==>
            forall k | k in s || k in patch.fields || k in t || k in patch'.fields :: StepKey(s, patch, k) == StepKey(t, patch', k)
  {
    hide Step, StepKey, Apply;
    var a, b := Apply(s, patch).value, Apply(t, patch').value;
    forall k: string
      ensures StepKey(s, patch, k) == Ok(At(a, k)) && StepKey(t, patch', k) == Ok(At(b, k))
      ensures k !in s && k !in patch.fields ==> k !in a
      ensures k !in t && k !in patch'.fields ==> k !in b
    {
      ApplyAt(s, patch, k);
      ApplyAt(t, patch', k);
      if k !in s && k !in patch.fields { NoKeyNoValue(s, patch, k); }
      if k !in t && k !in patch'.fields { NoKeyNoValue(t, patch', k); }
    }
    if forall k | k in s || k in patch.fields || k in t || k in patch'.fields :: StepKey(s, patch, k) == StepKey(t, patch', k) {
      forall k: string
        ensures At(a, k) == At(b, k)
      {
      }
      assert forall k :: k in a <==> At(a, k).Some?;
      assert forall k :: k in b <==> At(b, k).Some?;
      assert a == b;
    }
  }

  lemma {:induction false} NewArraysMatchIff(left: Json, right: Json)
    requires Plain(left) && Plain(right) && left.Arr? && right.Arr? && !NewFails(left, right) && !NewFails(right, left)
    ensures Step(Some(left), right) == Step(Some(right), left) <==> NewMatch(left, right)
    decreases left, 0
  {
    var l, r := left.items, right.items;
    NewSteps(left, right);
    NewSteps(right, left);
    NewElementSteps(l, r, right);
    NewElementSteps(r, l, left);
    forall i | 0 <= i < |l| && i < |r|
      ensures Step(Some(l[i]), r[i]) == Step(Some(r[i]), l[i]) <==> NewMatch(l[i], r[i])
    {
      NewMatchIff(l[i], r[i]);
    }
    ArrayStep(l, right);
    ArrayStep(r, left);
    var a, b := Overlay(l, r, right).value, Overlay(r, l, left).value;
    if forall i | 0 <= i < |l| && i < |r| :: NewMatch(l[i], r[i]) {
      assert a == b;
    }
  }

  lemma ArrayStep(xs: seq<Json>, patch: Json)
    requires patch.Arr? && Plain(patch)
    ensures Step(Some(Arr(xs)), patch) ==
              if Overlay(xs, patch.items, patch).Throw? then Throw else Ok(Some(Arr(Overlay(xs, patch.items, patch).value)))
  {
    PlainIsConvertible(patch);
    CleanIsNoDeletion(patch);
  }

  // ----- two changes of one value -----

  predicate IsDeletion(entry: Json) {
    entry == Str(DELETED)
  }

  predicate IsSwap(entry: Json) {
    entry.Obj? && SWAPPED in entry.fields
  }

  predicate IsArrayPatch(entry: Json) {
    entry.Obj? && SWAPPED !in entry.fields && ISARRAY in entry.fields && entry.fields[ISARRAY].Obj?
  }

  predicate IsObjectPatch(entry: Json) {
    entry.Obj? && SWAPPED !in entry.fields && ISARRAY !in entry.fields
  }

  /** An array patch that changes an element cannot be applied where that element is not. */
  predicate FailsOnNothing(entry: Json) {
    IsArrayPatch(entry) &&
    var diff := entry.fields[ISARRAY].fields;
    exists k :: k in diff && diff[k].Obj? && !HasId(diff[k])
  }

  /** An object patch meets what the first patch has put in the place of the object. */
  predicate FailsOnReplacement(w: Json, patch: Json)
    requires patch.Obj?
  {
    if w.Arr? then exists k :: k in patch.fields && (ShowsInArray(k) || FailsOnNothing(patch.fields[k]))
    else w.Null? || DeletesFromText(w, patch.fields) || exists k :: k in patch.fields && !IsDeletion(patch.fields[k])
  }

  /** A change of an element that is gone puts a value without an id in its place. */
  predicate LosesId(first: Json, second: Json) {
    IsDeletion(first) && IsObjectPatch(second)
  }

  /** The second entry throws on what the first has made of the old value. */
  ghost predicate Fails(was: Option<Json>, first: Json, second: Json)
    decreases second
  {
    if was.None? then NewFails(first, second)
    else if IsObjectPatch(second) then
      if IsSwap(first) then FailsOnReplacement(first.fields[SWAPPED], second)
      else
        && IsObjectPatch(first) && was.value.Obj?
        && exists k :: k in first.fields && k in second.fields && Fails(At(was.value.fields, k), first.fields[k], second.fields[k])
    else if IsArrayPatch(second) then
      if IsArrayPatch(first) then
        var f, s := first.fields[ISARRAY].fields, second.fields[ISARRAY].fields;
        exists k :: k in f && k in s && (LosesId(f[k], s[k]) || Fails(At(ElementsOf(was), k), f[k], s[k]))
      else if IsDeletion(first) then FailsOnNothing(second)
      else true
    else false
  }

  /** Where neither order throws, both give the same. */
  ghost predicate Match(was: Option<Json>, left: Json, right: Json)
    decreases left
  {
    if was.None? then NewMatch(left, right)
    else if IsObjectPatch(left) && IsObjectPatch(right) then
      was.value.Obj? ==> forall k | k in left.fields && k in right.fields :: Match(At(was.value.fields, k), left.fields[k], right.fields[k])
    else if IsArrayPatch(left) && IsArrayPatch(right) then
      var l, r := left.fields[ISARRAY].fields, right.fields[ISARRAY].fields;
      forall k | k in l && k in r :: Match(At(ElementsOf(was), k), l[k], r[k])
    else if (IsSwap(left) && IsObjectPatch(right)) || (IsObjectPatch(left) && IsSwap(right)) then true
    else left == right
  }

  ghost predicate FailsAt(was: Option<Json>, first: Option<Json>, second: Option<Json>) {
    first.Some? && second.Some? && Fails(was, first.value, second.value)
  }

  ghost predicate MatchAt(was: Option<Json>, left: Option<Json>, right: Option<Json>) {
    left.Some? && right.Some? ==> Match(was, left.value, right.value)
  }

  ghost function StepTwice(was: Option<Json>, first: Option<Json>, second: Option<Json>): Result<Option<Json>> {
    match StepOver(was, first)
    case Throw => Throw
    case Ok(between) => StepOver(between, second)
  }

  ghost function ApplyBoth(target: Fields, first: Json, second: Json): Result<Fields>
    requires first.Obj? && second.Obj?
  {
    match Apply(target, first)
    case Throw => Throw
    case Ok(m) => Apply(m, second)
  }

  /** Both applications, key by key. */
  lemma ApplyBothIs(base: Fields, first: Json, second: Json)
    requires first.Obj? && second.Obj? && Apply(base, first).Ok?
    requires (forall k | k in first.fields :: CleanKey(k)) && (forall k | k in second.fields :: CleanKey(k))
    ensures ApplyBoth(base, first, second).Ok? <==> forall k: string :: StepTwice(At(base, k), At(first.fields, k), At(second.fields, k)).Ok?
    ensures ApplyBoth(base, first, second).Ok? ==>
              forall k: string :: StepTwice(At(base, k), At(first.fields, k), At(second.fields, k)) == Ok(At(ApplyBoth(base, first, second).value, k))
  {
    hide Step, Apply;
    var between := Apply(base, first).value;
    forall k: string
      ensures StepTwice(At(base, k), At(first.fields, k), At(second.fields, k)) == StepOver(At(between, k), At(second.fields, k))
      ensures k in second.fields ==> StepKey(between, second, k) == StepOver(At(between, k), At(second.fields, k))
    {
      ApplyAt(base, first, k);
    }
    ApplyThrowsIff(between, second);
    if Apply(between, second).Ok? {
      forall k: string
        ensures StepOver(At(between, k), At(second.fields, k)) == Ok(At(Apply(between, second).value, k))
      {
        ApplyAt(between, second, k);
      }
    } else {
      var k :| k in second.fields && StepKey(between, second, k).Throw?;
      assert StepTwice(At(base, k), At(first.fields, k), At(second.fields, k)).Throw?;
    }
  }

  /** What kind of entry a change is. */
  lemma KindOfChange(v: Json, value: Json, entry: Json)
    requires Plain(v) && Plain(value) && Change(v, value) == Ok(Some(entry))
    ensures v.Obj? && value.Obj? ==>
              && IsObjectPatch(entry) && entry.fields != map[]
              && Generate(v.fields, value.fields, value) == Ok(entry.fields)
              && (forall k | k in entry.fields :: CleanKey(k) && k != "toString")
    ensures v.Arr? && value.Arr? && LooksKeyed(v.items) && LooksKeyed(value.items) ==>
              && DistinctIds(v.items) && DistinctIds(value.items)
              && IsArrayPatch(entry) && entry == Obj(map[ISARRAY := entry.fields[ISARRAY]])
              && Generate(ById(v.items), ById(value.items), value) == Ok(entry.fields[ISARRAY].fields)
              && (forall k | k in entry.fields[ISARRAY].fields :: CleanKey(k))
    ensures !(v.Obj? && value.Obj?) && !(v.Arr? && value.Arr? && LooksKeyed(v.items) && LooksKeyed(value.items)) ==>
              || (IsSwap(entry) && entry == Obj(map[SWAPPED := value]))
              || (entry == value && (value.Bool? || value.Num? || value.Str?) && (v.Bool? || v.Num? || v.Str?))
  {
    if v.Obj? && value.Obj? {
      ChangeOfPlainObjects(v, value);
    } else if v.Arr? && value.Arr? && LooksKeyed(v.items) && LooksKeyed(value.items) {
      ChangeOfPlainArrays(v, value);
      PlainById(v.items);
      PlainById(value.items);
      GenerateOfPlain(ById(v.items), ById(value.items), value);
      var diff := Obj(Generate(ById(v.items), ById(value.items), value).value);
      assert ISARRAY in map[ISARRAY := diff] && SWAPPED !in map[ISARRAY := diff];
    } else {
      OtherChange(v, value);
      assert SWAPPED in map[SWAPPED := value];
    }
  }

  /** A patch of an element leaves its id alone. */
  lemma ElementPatchLacksId(v: Json, value: Json, entry: Json)
    requires Plain(v) && Plain(value) && HasId(v) && HasId(value) && Id(v) == Id(value) && Change(v, value) == Ok(Some(entry))
    ensures IsObjectPatch(entry) && "id" !in entry.fields
  {
    KindOfChange(v, value, entry);
    EntryOfGenerate(v.fields, value.fields, "id", value);
  }

  /** An entry where there is nothing. */
  lemma EntryOnNothing(was: Option<Json>, wanted: Option<Json>, entry: Json)
    requires PlainOption(was) && PlainOption(wanted) && EntryFor(was, wanted, Some(entry))
    ensures Convertible(entry) && (EqualsDeleted(entry) <==> IsDeletion(entry))
    ensures Step(None, entry).Throw? <==> FailsOnNothing(entry)
    ensures !IsArrayPatch(entry) && !IsSwap(entry) && !IsDeletion(entry) ==> Step(None, entry) == Ok(Some(entry))
  {
    if wanted.Some? && was.Some? {
      KindOfChange(was.value, wanted.value, entry);
      PlainChangeIsComparable(was.value, wanted.value, None);
      if IsArrayPatch(entry) {
        PlainById(was.value.items);
        PlainById(wanted.value.items);
        ArrayPatchOnNothing(ById(was.value.items), ById(wanted.value.items), wanted.value, entry.fields[ISARRAY]);
      }
    } else if wanted.Some? {
      StepOfNewValue(wanted.value);
      PlainIsConvertible(wanted.value);
      CleanIsNoDeletion(wanted.value);
    }
  }

  lemma ArrayPatchOnNothing(v: Fields, w: Fields, bound: Json, diff: Json)
    requires PlainFields(v) && PlainFields(w) && KeyedById(v) && KeyedById(w) && forall k | k in w :: w[k] < bound
    requires diff.Obj? && Generate(v, w, bound) == Ok(diff.fields)
    ensures Step(None, Obj(map[ISARRAY := diff])).Throw? <==> FailsOnNothing(Obj(map[ISARRAY := diff]))
  {
    hide Step, StepKey, Apply, HasId, Id, Plain, PlainFields;
    ElementsOnNothing(v, w, bound, diff);
    StepOfArrayPatch(None, diff);
    var entry := Obj(map[ISARRAY := diff]);
    assert SWAPPED !in entry.fields && entry.fields[ISARRAY] == diff;
    assert FailsOnNothing(entry) <==> exists k :: k in diff.fields && diff.fields[k].Obj? && !HasId(diff.fields[k]);
    ListsElementsIff(Apply(map[], diff).value, diff);
  }

  /** The elements of an array patch, applied to no elements. */
  lemma ElementsOnNothing(v: Fields, w: Fields, bound: Json, diff: Json)
    requires PlainFields(v) && PlainFields(w) && KeyedById(v) && KeyedById(w) && forall k | k in w :: w[k] < bound
    requires diff.Obj? && Generate(v, w, bound) == Ok(diff.fields)
    ensures Apply(map[], diff).Ok?
    ensures forall k :: k in Apply(map[], diff).value <==> k in diff.fields && !IsDeletion(diff.fields[k])
    ensures forall k | k in Apply(map[], diff).value ::
              && Apply(map[], diff).value[k] == diff.fields[k] && diff.fields[k].Obj?
              && (HasId(diff.fields[k]) ==> Id(diff.fields[k]) == k)
  {
    hide Step, Generate, Apply;
    GenerateOfPlain(v, w, bound);
    var none: Fields := map[];
    forall k | k in diff.fields
      ensures StepKey(none, diff, k) == Ok(if IsDeletion(diff.fields[k]) then None else Some(diff.fields[k]))
      ensures !IsDeletion(diff.fields[k]) && HasId(diff.fields[k]) ==> Id(diff.fields[k]) == k
      ensures !IsDeletion(diff.fields[k]) ==> diff.fields[k].Obj?
    {
      EntryOfGenerate(v, w, k, bound);
      ElementOnNothing(At(v, k), At(w, k), k, diff.fields[k]);
    }
    ApplyToNothing(diff);
  }

  lemma ApplyToNothing(diff: Json)
    requires diff.Obj?
    requires forall k | k in diff.fields :: StepKey(map[], diff, k) == Ok(if IsDeletion(diff.fields[k]) then None else Some(diff.fields[k]))
    ensures Apply(map[], diff).Ok?
    ensures forall k :: k in Apply(map[], diff).value <==> k in diff.fields && !IsDeletion(diff.fields[k])
    ensures forall k | k in Apply(map[], diff).value :: Apply(map[], diff).value[k] == diff.fields[k]
  {
    hide Step, Apply, StepKey;
    var none: Fields := map[];
    ApplyThrowsIff(none, diff);
    forall k: string
      ensures At(Apply(none, diff).value, k) == if k in diff.fields && !IsDeletion(diff.fields[k]) then Some(diff.fields[k]) else None
    {
      ApplyAt(none, diff, k);
      if k !in diff.fields { NoKeyNoValue(none, diff, k); }
    }
    assert forall k :: k in Apply(none, diff).value <==> At(Apply(none, diff).value, k).Some?;
  }

  /** The rebuilt array throws exactly for an element without its id. */
  lemma ListsElementsIff(m: Fields, diff: Json)
    requires diff.Obj? && forall k :: k in m <==> k in diff.fields && !IsDeletion(diff.fields[k])
    requires forall k | k in m :: m[k] == diff.fields[k] && m[k].Obj? && (HasId(m[k]) ==> Id(m[k]) == k)
    requires Apply(map[], diff) == Ok(m)
    ensures StepArray(None, diff).Throw? <==> exists k :: k in diff.fields && diff.fields[k].Obj? && !HasId(diff.fields[k])
  {
    hide Apply, Listed;
    var empty: seq<Json> := [];
    assert UnorderedArrayToObject(empty) == Ok(map[]);
    assert StepArray(None, diff).Throw? <==> !KeyedById(m);
    if k :| k in diff.fields && diff.fields[k].Obj? && !HasId(diff.fields[k]) {
      assert k in m;
    }
  }

  lemma ElementOnNothing(was: Option<Json>, wanted: Option<Json>, k: string, entry: Json)
    requires PlainOption(was) && PlainOption(wanted) && EntryFor(was, wanted, Some(entry))
    requires (was.Some? ==> HasId(was.value) && Id(was.value) == k) && (wanted.Some? ==> HasId(wanted.value) && Id(wanted.value) == k)
    ensures Step(None, entry) == Ok(if IsDeletion(entry) then None else Some(entry))
    ensures !IsDeletion(entry) && HasId(entry) ==> Id(entry) == k
    ensures !IsDeletion(entry) ==> entry.Obj?
  {
    if wanted.Some? && was.Some? {
      ElementPatchLacksId(was.value, wanted.value, entry);
      PlainChangeIsComparable(was.value, wanted.value, None);
    } else if wanted.Some? {
      StepOfNewValue(wanted.value);
    }
  }

  // ----- when the second patch throws -----

  lemma PlainApplies(from: Fields, to: Fields, bound: Json)
    requires PlainFields(from) && PlainFields(to) && forall k | k in to :: to[k] < bound
    ensures Generate(from, to, bound).Ok?
    ensures var patch := Obj(Generate(from, to, bound).value);
            Apply(from, patch).Ok? && SameFields(Apply(from, patch).value, to)
  {
    SameIsReflexive(Obj(from));
    RoundTripOfFields(from, from, to, bound);
    PlainEntriesAreComparable(from, to, bound, from);
  }

  lemma {:induction false} EntriesFail(base: Option<Json>, l: Option<Json>, r: Option<Json>,
                                      left: Option<Json>, right: Option<Json>, bound: Json)
    requires PlainOption(base) && PlainOption(l) && PlainOption(r) && (r.Some? ==> r.value < bound)
    requires EntryFor(base, l, left) && EntryFor(base, r, right)
    ensures StepTwice(base, left, right).Throw? <==> FailsAt(base, left, right)
    decreases bound, 2
  {
    EntryApplies(base, l, left);
    EntryApplies(base, r, right);
    if left.Some? && right.Some? {
      if base.None? {
        StepOfNewValue(l.value);
        NewSteps(l.value, r.value);
      } else if r.Some? {
        ChangesFail(base.value, l, r.value, left.value, right.value, bound);
      }
    }
  }

  lemma {:induction false} ChangesFail(base: Json, l: Option<Json>, r: Json, left: Json, right: Json, bound: Json)
    requires Plain(base) && PlainOption(l) && Plain(r) && r < bound
    requires EntryFor(Some(base), l, Some(left)) && Change(base, r) == Ok(Some(right))
    requires Step(Some(base), left).Ok?
    ensures StepTwice(Some(base), Some(left), Some(right)).Throw? <==> Fails(Some(base), left, right)
    decreases bound, 1
  {
    hide Generate, Change, Clean, NoToString, StepInto, StepArray, NewFails;
    KindOfChange(base, r, right);
    EntryOnNothing(Some(base), Some(r), right);
    if l.None? {
      StepOfDeletion(Some(base));
    } else {
      KindOfChange(base, l.value, left);
      if IsSwap(left) {
        StepSwapped(Some(base), l.value);
        ChangeOnReplacement(base, l.value, r, right);
      } else if IsObjectPatch(right) {
        ObjectPatchesFail(base, l.value, r, left, right, bound);
      } else if IsArrayPatch(right) {
        ArrayPatchesFail(base, l.value, r, left, right, bound);
      }
    }
  }

  lemma StepSwapped(was: Option<Json>, v: Json)
    ensures Step(was, Obj(map[SWAPPED := v])) == Ok(Some(v))
  {
    var patch := Obj(map[SWAPPED := v]);
    assert SWAPPED in patch.fields && Convertible(patch) && !EqualsDeleted(patch);
  }

  /** The other side has replaced the value. */
  lemma ChangeOnReplacement(base: Json, w: Json, r: Json, right: Json)
    requires Plain(base) && Plain(w) && Plain(r) && Change(base, r) == Ok(Some(right))
    requires !(base.Obj? && w.Obj?) && !(base.Arr? && w.Arr? && LooksKeyed(base.items) && LooksKeyed(w.items))
    ensures Step(Some(w), right).Throw? <==>
              if IsObjectPatch(right) then FailsOnReplacement(w, right) else IsArrayPatch(right)
  {
    KindOfChange(base, r, right);
    if IsObjectPatch(right) {
      ObjectPatchOnReplacement(base, w, r, right);
    } else if IsArrayPatch(right) {
      StepOfArrayPatch(Some(w), right.fields[ISARRAY]);
      if w.Arr? {
        assert !AllHaveIds(w.items);
      }
    } else {
      EntryOnNothing(Some(base), Some(r), right);
    }
  }

  /** What a plain entry does where there is nothing. */
  predicate EntryIsPlain(entry: Json) {
    Convertible(entry) && (EqualsDeleted(entry) <==> IsDeletion(entry)) && (Step(None, entry).Throw? <==> FailsOnNothing(entry))
  }

  lemma ObjectPatchOnReplacement(base: Json, w: Json, r: Json, right: Json)
    requires Plain(base) && Plain(w) && Plain(r) && base.Obj? && r.Obj? && !w.Obj? && Change(base, r) == Ok(Some(right))
    ensures Step(Some(w), right).Throw? <==> FailsOnReplacement(w, right)
    ensures Step(Some(w), right).Ok? ==> Step(Some(w), right) == Ok(Some(w))
  {
    hide Step, Generate, Change, Same, FailsOnNothing;
    KindOfChange(base, r, right);
    forall k | k in right.fields
      ensures EntryIsPlain(right.fields[k])
    {
      EntryOfGenerate(base.fields, r.fields, k, r);
      EntryOnNothing(At(base.fields, k), At(r.fields, k), right.fields[k]);
    }
    EntryOnNothing(Some(base), Some(r), right);
    StepOnReplacement(w, right);
  }

  lemma StepOnReplacement(w: Json, patch: Json)
    requires IsObjectPatch(patch) && !w.Obj? && Convertible(patch) && patch.fields != map[]
    requires forall k | k in patch.fields :: CleanKey(k) && EntryIsPlain(patch.fields[k])
    ensures Step(Some(w), patch).Throw? <==> FailsOnReplacement(w, patch)
    ensures Step(Some(w), patch).Ok? ==> Step(Some(w), patch) == Ok(Some(w))
  {
    assert Step(Some(w), patch) == StepInto(w, patch);
    hide Step, FailsOnNothing, EqualsDeleted, Convertible, DeletesFromText;
    if w.Arr? {
      assert StepInto(w, patch).Throw? <==> !FitsBeside(patch);
    } else {
      assert OnlyDeletes(patch.fields) <==> forall k | k in patch.fields :: IsDeletion(patch.fields[k]);
    }
  }

  lemma {:induction false} FieldsFail(base: Fields, l: Fields, r: Fields, bl: Json, br: Json)
    requires PlainFields(base) && PlainFields(l) && PlainFields(r)
    requires (forall k | k in l :: l[k] < bl) && (forall k | k in r :: r[k] < br)
    requires Generate(base, l, bl).Ok? && Generate(base, r, br).Ok?
    ensures var left, right := Generate(base, l, bl).value, Generate(base, r, br).value;
            && Apply(base, Obj(left)).Ok?
            && (ApplyBoth(base, Obj(left), Obj(right)).Throw? <==> exists k :: FailsAt(At(base, k), At(left, k), At(right, k)))
            && (ApplyBoth(base, Obj(left), Obj(right)).Ok? ==>
                  forall k: string :: StepTwice(At(base, k), At(left, k), At(right, k)) == Ok(At(ApplyBoth(base, Obj(left), Obj(right)).value, k)))
    decreases br, 3
  {
    var left, right := Generate(base, l, bl).value, Generate(base, r, br).value;
    hide Step, StepTwice, Apply, ApplyBoth, Generate, Fails, EntryFor, Same;
    GenerateOfPlain(base, l, bl);
    GenerateOfPlain(base, r, br);
    PlainApplies(base, l, bl);
    forall k: string
      ensures StepTwice(At(base, k), At(left, k), At(right, k)).Throw? <==> FailsAt(At(base, k), At(left, k), At(right, k))
    {
      EntriesFail(At(base, k), At(l, k), At(r, k), At(left, k), At(right, k), br);
    }
    ApplyBothIs(base, Obj(left), Obj(right));
  }

  lemma {:induction false} ObjectPatchesFail(base: Json, l: Json, r: Json, left: Json, right: Json, bound: Json)
    requires Plain(base) && Plain(l) && Plain(r) && r < bound
    requires Change(base, l) == Ok(Some(left)) && Change(base, r) == Ok(Some(right)) && !IsSwap(left) && IsObjectPatch(right)
    ensures StepTwice(Some(base), Some(left), Some(right)).Throw? <==> Fails(Some(base), left, right)
    decreases bound, 0
  {
    KindOfChange(base, l, left);
    KindOfChange(base, r, right);
    FieldsFail(base.fields, l.fields, r.fields, l, r);
    TwoObjectPatches(base.fields, left.fields, right.fields);
    ObjectPatchesFailIff(base, left, right);
  }

  lemma ObjectPatchesFailIff(base: Json, left: Json, right: Json)
    requires base.Obj? && IsObjectPatch(left) && IsObjectPatch(right)
    ensures var b, f, s := base.fields, left.fields, right.fields;
            Fails(Some(base), left, right) <==> exists k :: FailsAt(At(b, k), At(f, k), At(s, k))
  {
    hide NewFails;
    var b, f, s := base.fields, left.fields, right.fields;
    if k :| FailsAt(At(b, k), At(f, k), At(s, k)) {
      assert k in f && k in s && Fails(At(b, k), f[k], s[k]);
    }
    if k :| k in f && k in s && Fails(At(b, k), f[k], s[k]) {
      assert FailsAt(At(b, k), At(f, k), At(s, k));
    }
  }

  lemma TwoObjectPatches(base: Fields, first: Fields, second: Fields)
    requires (forall k | k in first :: CleanKey(k) && k != "toString") && (forall k | k in second :: CleanKey(k) && k != "toString")
    ensures StepTwice(Some(Obj(base)), Some(Obj(first)), Some(Obj(second))) ==
              if ApplyBoth(base, Obj(first), Obj(second)).Throw? then Throw
              else Ok(Some(Obj(ApplyBoth(base, Obj(first), Obj(second)).value)))
  {
    StepOfObjectPatch(base, first);
    if Apply(base, Obj(first)).Ok? {
      StepOfObjectPatch(Apply(base, Obj(first)).value, second);
    }
  }

  ghost predicate IdIfAny(v: Option<Json>, id: string) {
    v.Some? ==> HasId(v.value) && Id(v.value) == id
  }

  /** An element keeps its id unless a change meets its deletion. */
  lemma ElementKeepsIdIff(base: Option<Json>, l: Option<Json>, r: Option<Json>, left: Option<Json>, right: Option<Json>, id: string)
    requires PlainOption(base) && PlainOption(l) && PlainOption(r) && IdIfAny(base, id) && IdIfAny(l, id) && IdIfAny(r, id)
    requires EntryFor(base, l, left) && EntryFor(base, r, right) && StepTwice(base, left, right).Ok?
    ensures IdIfAny(StepTwice(base, left, right).value, id) <==> !(left.Some? && right.Some? && LosesId(left.value, right.value))
  {
    EntryApplies(base, l, left);
    EntryApplies(base, r, right);
    if left.None? || right.None? {
      OneEntryKeepsId(base, l, r, left, right, id);
    } else if base.None? {
      NewElementKeepsId(l.value, r.value, id);
    } else if r.Some? {
      ElementPatchLacksId(base.value, r.value, right.value);
      if l.None? {
        EntryOnNothing(base, r, right.value);
      } else {
        ElementPatchLacksId(base.value, l.value, left.value);
        PatchedElementKeepsId(base.value, l.value, r.value, left.value, right.value, id);
      }
    }
  }

  lemma OneEntryKeepsId(base: Option<Json>, l: Option<Json>, r: Option<Json>, left: Option<Json>, right: Option<Json>, id: string)
    requires IdIfAny(l, id) && IdIfAny(r, id) && (left.None? || right.None?)
    requires StepOver(base, left).Ok? && StepOver(base, left).value.Some? == l.Some?
    requires StepOver(base, right).Ok? && StepOver(base, right).value.Some? == r.Some?
    requires l.Some? ==> Same(StepOver(base, left).value.value, l.value)
    requires r.Some? ==> Same(StepOver(base, right).value.value, r.value)
    ensures IdIfAny(StepTwice(base, left, right).value, id)
  {
    hide Step, Same;
    var after := StepTwice(base, left, right).value;
    if after.Some? {
      SameKeepsId(after.value, if right.None? then l.value else r.value);
    }
  }

  lemma NewElementKeepsId(l: Json, r: Json, id: string)
    requires Plain(l) && Plain(r) && HasId(l) && HasId(r) && Id(l) == Id(r) == id
    requires StepTwice(None, Some(l), Some(r)).Ok?
    ensures IdIfAny(StepTwice(None, Some(l), Some(r)).value, id)
  {
    StepOfNewValue(l);
    StepOfObjectPatch(l.fields, r.fields);
    ApplyAt(l.fields, r, "id");
    CleanIsNoDeletion(r.fields["id"]);
    assert l.fields["id"] == Str(id) == r.fields["id"];
    assert StepKey(l.fields, r, "id") == Ok(Some(Str(id)));
  }

  lemma PatchedElementKeepsId(base: Json, l: Json, r: Json, left: Json, right: Json, id: string)
    requires Plain(base) && Plain(l) && Plain(r) && HasId(base) && Id(base) == id && HasId(l) && HasId(r)
    requires Change(base, l) == Ok(Some(left)) && Change(base, r) == Ok(Some(right))
    requires IsObjectPatch(left) && "id" !in left.fields && IsObjectPatch(right) && "id" !in right.fields
    requires StepTwice(Some(base), Some(left), Some(right)).Ok?
    ensures IdIfAny(StepTwice(Some(base), Some(left), Some(right)).value, id)
  {
    KindOfChange(base, l, left);
    KindOfChange(base, r, right);
    TwoObjectPatches(base.fields, left.fields, right.fields);
    ApplyAt(base.fields, left, "id");
    ApplyAt(Apply(base.fields, left).value, right, "id");
  }

  lemma {:induction false} ArrayPatchesFail(base: Json, l: Json, r: Json, left: Json, right: Json, bound: Json)
    requires Plain(base) && Plain(l) && Plain(r) && r < bound
    requires Change(base, l) == Ok(Some(left)) && Change(base, r) == Ok(Some(right)) && !IsSwap(left) && IsArrayPatch(right)
    ensures StepTwice(Some(base), Some(left), Some(right)).Throw? <==> Fails(Some(base), left, right)
    decreases bound, 0
  {
    hide Step, StepTwice, Apply, ApplyBoth, Generate, ById, Fails, Change, Same, LosesId;
    KindOfChange(base, l, left);
    KindOfChange(base, r, right);
    PlainById(base.items);
    PlainById(l.items);
    PlainById(r.items);
    var b, bl, br := ById(base.items), ById(l.items), ById(r.items);
    var f, s := left.fields[ISARRAY], right.fields[ISARRAY];
    FieldsFail(b, bl, br, l, r);
    PlainApplies(b, bl, l);
    TwoArrayPatches(base.items, l.items, bl, f, s);
    if ApplyBoth(b, f, s).Ok? {
      ElementsKeepIdsIff(b, bl, br, f.fields, s.fields, ApplyBoth(b, f, s).value, l, r);
    }
    ArrayPatchesFailIff(base.items, left, right);
  }

  lemma ArrayPatchesFailIff(items: seq<Json>, left: Json, right: Json)
    requires AllHaveIds(items) && IsArrayPatch(left) && IsArrayPatch(right)
    ensures var b, f, s := ById(items), left.fields[ISARRAY].fields, right.fields[ISARRAY].fields;
            Fails(Some(Arr(items)), left, right) <==>
              (exists k :: FailsAt(At(b, k), At(f, k), At(s, k))) || exists k :: k in f && k in s && LosesId(f[k], s[k])
  {
    hide ById, LosesId, NewFails;
    var b, f, s := ById(items), left.fields[ISARRAY].fields, right.fields[ISARRAY].fields;
    assert ElementsOf(Some(Arr(items))) == b;
    if k :| FailsAt(At(b, k), At(f, k), At(s, k)) {
      assert k in f && k in s && Fails(At(b, k), f[k], s[k]);
    }
    if k :| k in f && k in s && Fails(At(b, k), f[k], s[k]) {
      assert FailsAt(At(b, k), At(f, k), At(s, k));
    }
  }

  /** Two array patches in a row; the array rebuilt in between stands for the same object. */
  lemma TwoArrayPatches(items: seq<Json>, wanted: seq<Json>, l: Fields, first: Json, second: Json)
    requires DistinctIds(items) && DistinctIds(wanted) && l == ById(wanted) && first.Obj? && second.Obj?
    requires Apply(ById(items), first).Ok? && SameFields(Apply(ById(items), first).value, l)
    ensures StepTwice(Some(Arr(items)), Some(Obj(map[ISARRAY := first])), Some(Obj(map[ISARRAY := second]))) ==
              if ApplyBoth(ById(items), first, second).Throw? || !KeyedById(ApplyBoth(ById(items), first, second).value) then Throw
              else Ok(Some(Arr(Listed(ApplyBoth(ById(items), first, second).value))))
  {
    hide Step, Apply, Same, ById, Listed;
    var m := Apply(ById(items), first).value;
    KeyedObjectOfClean(items);
    RebuiltArrayIsSame(m, wanted);
    SameAsKeyed(m, wanted);
    ListedIsKeyed(m);
    KeyedListIsDistinct(m);
    KeyedObjectOfClean(Listed(m));
    StepOfArrayPatch(Some(Arr(items)), first);
    StepOfArrayPatch(Some(Arr(Listed(m))), second);
  }

  lemma SameAsKeyed(m: Fields, items: seq<Json>)
    requires DistinctIds(items) && SameFields(m, ById(items))
    ensures KeyedById(m) && forall k | k in m :: CleanKey(k)
  {
    hide Same;
    forall k | k in m
      ensures HasId(m[k]) && Id(m[k]) == k && CleanKey(k)
    {
      SameKeepsId(m[k], ById(items)[k]);
    }
  }

  /** The second result can be made an array again exactly if no element lost its id. */
  lemma ElementsKeepIdsIff(b: Fields, l: Fields, r: Fields, f: Fields, s: Fields, m: Fields, bl: Json, br: Json)
    requires PlainFields(b) && PlainFields(l) && PlainFields(r) && KeyedById(b) && KeyedById(l) && KeyedById(r)
    requires (forall k | k in l :: l[k] < bl) && (forall k | k in r :: r[k] < br)
    requires Generate(b, l, bl) == Ok(f) && Generate(b, r, br) == Ok(s)
    requires forall k: string :: StepTwice(At(b, k), At(f, k), At(s, k)) == Ok(At(m, k))
    ensures KeyedById(m) <==> !exists k :: k in f && k in s && LosesId(f[k], s[k])
  {
    hide StepTwice, Generate, LosesId, EntryFor;
    forall k: string
      ensures IdIfAny(At(m, k), k) <==> !(k in f && k in s && LosesId(f[k], s[k]))
    {
      EntryOfGenerate(b, l, k, bl);
      EntryOfGenerate(b, r, k, br);
      ElementKeepsIdIff(At(b, k), At(l, k), At(r, k), At(f, k), At(s, k), k);
    }
    if KeyedById(m) {
      assert forall k :: IdIfAny(At(m, k), k);
    }
    if forall k :: IdIfAny(At(m, k), k) {
      forall k | k in m
        ensures HasId(m[k]) && Id(m[k]) == k
      {
        assert IdIfAny(At(m, k), k);
      }
    }
  }

  // ----- when the order of the patches matters -----

  lemma {:induction false} EntriesMatchIff(base: Option<Json>, l: Option<Json>, r: Option<Json>,
                                          left: Option<Json>, right: Option<Json>, bound: Json)
    requires PlainOption(base) && PlainOption(l) && PlainOption(r) && (l.Some? ==> l.value < bound)
    requires EntryFor(base, l, left) && EntryFor(base, r, right)
    requires !FailsAt(base, left, right) && !FailsAt(base, right, left)
    ensures StepTwice(base, left, right) == StepTwice(base, right, left) <==> MatchAt(base, left, right)
    decreases bound, 2
  {
    EntryApplies(base, l, left);
    EntryApplies(base, r, right);
    if left.Some? && right.Some? {
      if base.None? {
        StepOfNewValue(l.value);
        StepOfNewValue(r.value);
        NewMatchIff(l.value, r.value);
      } else if l.Some? && r.Some? {
        ChangesMatchIff(base.value, l.value, r.value, left.value, right.value, bound);
      } else if l.Some? {
        DeletionMatchesNothing(base.value, l.value, left.value);
      } else if r.Some? {
        DeletionMatchesNothing(base.value, r.value, right.value);
      }
    }
  }

  /** A deletion and a change give different results in the two orders. */
  lemma DeletionMatchesNothing(base: Json, r: Json, right: Json)
    requires Plain(base) && Plain(r) && Change(base, r) == Ok(Some(right)) && !Fails(Some(base), Str(DELETED), right)
    ensures StepTwice(Some(base), Some(Str(DELETED)), Some(right)) != StepTwice(Some(base), Some(right), Some(Str(DELETED)))
    ensures !Match(Some(base), Str(DELETED), right) && !Match(Some(base), right, Str(DELETED))
  {
    KindOfChange(base, r, right);
    EntryOnNothing(Some(base), Some(r), right);
    EntryApplies(Some(base), Some(r), Some(right));
    assert !IsDeletion(right);
    hide Step;
    StepDropsOnlyForDeletion(None, right);
    StepOfDeletion(Some(base));
    StepOfDeletion(Step(Some(base), right).value);
  }

  lemma StepOfDeletion(was: Option<Json>)
    ensures Step(was, Str(DELETED)) == Ok(None)
  {
  }

  lemma StepDropsOnlyForDeletion(was: Option<Json>, patch: Json)
    requires !EqualsDeleted(patch)
    ensures Step(was, patch).Ok? ==> Step(was, patch).value.Some?
  {
  }

  lemma {:induction false} ChangesMatchIff(base: Json, l: Json, r: Json, left: Json, right: Json, bound: Json)
    requires Plain(base) && Plain(l) && Plain(r) && l < bound
    requires Change(base, l) == Ok(Some(left)) && Change(base, r) == Ok(Some(right))
    requires !Fails(Some(base), left, right) && !Fails(Some(base), right, left)
    ensures StepTwice(Some(base), Some(left), Some(right)) == StepTwice(Some(base), Some(right), Some(left)) <==> Match(Some(base), left, right)
    decreases bound, 1
  {
    KindOfChange(base, l, left);
    KindOfChange(base, r, right);
    assert Arr([r]).items[0] == r && Arr([l]).items[0] == l;
    EntriesFail(Some(base), Some(l), Some(r), Some(left), Some(right), Arr([r]));
    EntriesFail(Some(base), Some(r), Some(l), Some(right), Some(left), Arr([l]));
    if IsObjectPatch(left) && IsObjectPatch(right) {
      ObjectPatchesMatchIff(base, l, r, left, right, bound);
    } else if IsArrayPatch(left) && IsArrayPatch(right) {
      ArrayPatchesMatchIff(base, l, r, left, right, bound);
    } else {
      hide Fails;
      ReplacementWins(base, l, r, left, right);
      ReplacementWins(base, r, l, right, left);
    }
  }

  /** What two changes come to of which one replaces the value. */
  lemma ReplacementWins(base: Json, l: Json, r: Json, left: Json, right: Json)
    requires Plain(base) && Plain(l) && Plain(r)
    requires Change(base, l) == Ok(Some(left)) && Change(base, r) == Ok(Some(right))
    requires !Fails(Some(base), left, right)
    requires !(IsObjectPatch(left) && IsObjectPatch(right)) && !(IsArrayPatch(left) && IsArrayPatch(right))
    ensures StepTwice(Some(base), Some(left), Some(right)) == Ok(Some(if IsObjectPatch(right) then l else r))
  {
    KindOfChange(base, l, left);
    KindOfChange(base, r, right);
    EntryApplies(Some(base), Some(l), Some(left));
    if IsObjectPatch(right) {
      StepSwapped(Some(base), l);
      ObjectPatchOnReplacement(base, l, r, right);
    } else if IsSwap(right) {
      StepSwapped(Some(Step(Some(base), left).value.value), r);
    }
  }

  lemma {:induction false} FieldsMatchIff(base: Fields, l: Fields, r: Fields, bl: Json, br: Json)
    requires PlainFields(base) && PlainFields(l) && PlainFields(r)
    requires (forall k | k in l :: l[k] < bl) && (forall k | k in r :: r[k] < br)
    requires Generate(base, l, bl).Ok? && Generate(base, r, br).Ok?
    requires var left, right := Generate(base, l, bl).value, Generate(base, r, br).value;
             forall k :: !FailsAt(At(base, k), At(left, k), At(right, k)) && !FailsAt(At(base, k), At(right, k), At(left, k))
    ensures var left, right := Generate(base, l, bl).value, Generate(base, r, br).value;
            && ApplyBoth(base, Obj(left), Obj(right)).Ok? && ApplyBoth(base, Obj(right), Obj(left)).Ok?
            && (ApplyBoth(base, Obj(left), Obj(right)) == ApplyBoth(base, Obj(right), Obj(left))
                <==> forall k :: MatchAt(At(base, k), At(left, k), At(right, k)))
    decreases bl, 3
  {
    hide Step, StepTwice, Apply, ApplyBoth, Generate, Match, Fails, Clean, NoToString, EntryFor;
    var left, right := Generate(base, l, bl).value, Generate(base, r, br).value;
    GenerateOfPlain(base, l, bl);
    GenerateOfPlain(base, r, br);
    FieldsFail(base, l, r, bl, br);
    FieldsFail(base, r, l, br, bl);
    var a, b := ApplyBoth(base, Obj(left), Obj(right)).value, ApplyBoth(base, Obj(right), Obj(left)).value;
    forall k: string
      ensures At(a, k) == At(b, k) <==> MatchAt(At(base, k), At(left, k), At(right, k))
    {
      EntriesMatchIff(At(base, k), At(l, k), At(r, k), At(left, k), At(right, k), bl);
      assert Ok(At(a, k)) == StepTwice(At(base, k), At(left, k), At(right, k));
      assert Ok(At(b, k)) == StepTwice(At(base, k), At(right, k), At(left, k));
    }
    SameMapIff(a, b);
  }

  lemma SameMapIff(a: Fields, b: Fields)
    ensures a == b <==> forall k :: At(a, k) == At(b, k)
  {
    if forall k :: At(a, k) == At(b, k) {
      assert forall k :: k in a <==> At(a, k).Some?;
      assert forall k :: k in b <==> At(b, k).Some?;
    }
  }

  lemma {:induction false} ObjectPatchesMatchIff(base: Json, l: Json, r: Json, left: Json, right: Json, bound: Json)
    requires Plain(base) && Plain(l) && Plain(r) && l < bound
    requires Change(base, l) == Ok(Some(left)) && Change(base, r) == Ok(Some(right)) && IsObjectPatch(left) && IsObjectPatch(right)
    requires !Fails(Some(base), left, right) && !Fails(Some(base), right, left)
    ensures StepTwice(Some(base), Some(left), Some(right)) == StepTwice(Some(base), Some(right), Some(left)) <==> Match(Some(base), left, right)
    decreases bound, 0
  {
    hide Step, StepTwice, Apply, ApplyBoth, Generate, Change;
    KindOfChange(base, l, left);
    KindOfChange(base, r, right);
    var b, f, s := base.fields, left.fields, right.fields;
    ObjectPatchesFailIff(base, left, right);
    ObjectPatchesFailIff(base, right, left);
    FieldsMatchIff(b, l.fields, r.fields, l, r);
    TwoObjectPatches(b, f, s);
    TwoObjectPatches(b, s, f);
    ObjectPatchesMatch(base, left, right);
  }

  lemma ObjectPatchesMatch(base: Json, left: Json, right: Json)
    requires base.Obj? && IsObjectPatch(left) && IsObjectPatch(right)
    ensures Match(Some(base), left, right) <==> forall k :: MatchAt(At(base.fields, k), At(left.fields, k), At(right.fields, k))
  {
    hide NewMatch;
    if forall k :: MatchAt(At(base.fields, k), At(left.fields, k), At(right.fields, k)) {
      forall k | k in left.fields && k in right.fields
        ensures Match(At(base.fields, k), left.fields[k], right.fields[k])
      {
        assert MatchAt(At(base.fields, k), At(left.fields, k), At(right.fields, k));
      }
    }
  }

  lemma {:induction false} ArrayPatchesMatchIff(base: Json, l: Json, r: Json, left: Json, right: Json, bound: Json)
    requires Plain(base) && Plain(l) && Plain(r) && l < bound
    requires Change(base, l) == Ok(Some(left)) && Change(base, r) == Ok(Some(right)) && IsArrayPatch(left) && IsArrayPatch(right)
    requires !Fails(Some(base), left, right) && !Fails(Some(base), right, left)
    ensures StepTwice(Some(base), Some(left), Some(right)) == StepTwice(Some(base), Some(right), Some(left)) <==> Match(Some(base), left, right)
    decreases bound, 0
  {
    hide Step, StepTwice, Apply, ApplyBoth, Generate, ById, Fails, Change, Same, LosesId, Match;
    KindOfChange(base, l, left);
    KindOfChange(base, r, right);
    PlainById(base.items);
    PlainById(l.items);
    PlainById(r.items);
    var b, bl, br := ById(base.items), ById(l.items), ById(r.items);
    var f, s := left.fields[ISARRAY], right.fields[ISARRAY];
    ArrayPatchesFailIff(base.items, left, right);
    ArrayPatchesFailIff(base.items, right, left);
    FieldsMatchIff(b, bl, br, l, r);
    PlainApplies(b, bl, l);
    PlainApplies(b, br, r);
    TwoArrayPatches(base.items, l.items, bl, f, s);
    TwoArrayPatches(base.items, r.items, br, s, f);
    var m, m' := ApplyBoth(b, f, s).value, ApplyBoth(b, s, f).value;
    FieldsFail(b, bl, br, l, r);
    FieldsFail(b, br, bl, r, l);
    ElementsKeepIdsIff(b, bl, br, f.fields, s.fields, m, l, r);
    ElementsKeepIdsIff(b, br, bl, s.fields, f.fields, m', r, l);
    ListedIsKeyed(m);
    ListedIsKeyed(m');
    ArrayPatchesMatch(base.items, left, right);
  }

  lemma ArrayPatchesMatch(items: seq<Json>, left: Json, right: Json)
    requires AllHaveIds(items) && IsArrayPatch(left) && IsArrayPatch(right)
    ensures var b, l, r := ById(items), left.fields[ISARRAY].fields, right.fields[ISARRAY].fields;
            Match(Some(Arr(items)), left, right) <==> forall k :: MatchAt(At(b, k), At(l, k), At(r, k))
  {
    hide NewMatch, ById;
    var b, l, r := ById(items), left.fields[ISARRAY].fields, right.fields[ISARRAY].fields;
    assert ElementsOf(Some(Arr(items))) == b;
    if forall k :: MatchAt(At(b, k), At(l, k), At(r, k)) {
      forall k | k in l && k in r
        ensures Match(At(b, k), l[k], r[k])
      {
        assert MatchAt(At(b, k), At(l, k), At(r, k));
      }
    }
  }
}
