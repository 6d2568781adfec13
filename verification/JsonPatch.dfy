/**
 * Structural patches of JSON values: `generatePatchObj` compares two objects, `applyPatch` carries the
 * differences over. An object is a map, so the order of keys is not part of a value; the array that
 * `objectToUnorderedArray` rebuilds is put in ascending order of the ids, and `Same` ignores that order.
 */
module JsonPatch {

  import opened Options
  import opened CodeUnitOrder

  datatype Json =
    | Null
    | Bool(b: bool)
    | Num(n: int)
    | Str(s: string)
    | Arr(items: seq<Json>)
    | Obj(fields: Fields)

  type Fields = map<string, Json>

  const DELETED := "\U{0001}__DELETED"
  const ISARRAY := "\U{0001}__ARRAY"
  const SWAPPED := "\U{0001}__SWAP"

  /** `Throw` is any exception; it also stands where an id is no string, or a patch sets or deletes an index or the length of an array. */
  datatype Result<+T> = Ok(value: T) | Throw

  // ----- what JavaScript says about single values -----

  predicate Forbidden(key: string) {
    key == "__proto__" || key == "constructor" || key == "prototype"
  }

  /** `typeof` and `Array.isArray` agree. Null, arrays and objects are all of type "object". */
  predicate SameType(a: Json, b: Json) {
    match a
    case Null => b.Null? || b.Obj?
    case Obj(_) => b.Null? || b.Obj?
    case Bool(_) => b.Bool?
    case Num(_) => b.Num?
    case Str(_) => b.Str?
    case Arr(_) => b.Arr?
  }

  predicate Convertible(v: Json) {
    match v
    case Obj(fields) => "toString" !in fields
    case Arr(items) => forall x | x in items :: Convertible(x)
    case _ => true
  }

  /** `value == MARK_DELETED`; an array with one element compares as that element. */
  predicate EqualsDeleted(v: Json) {
    v == Str(DELETED) || (v.Arr? && |v.items| == 1 && EqualsDeleted(v.items[0]))
  }

  // ----- arrays of objects with ids -----

  predicate HasId(e: Json) {
    e.Obj? && "id" in e.fields && e.fields["id"].Str?
  }

  function Id(e: Json): string
    requires HasId(e)
  {
    e.fields["id"].s
  }

  predicate AllHaveIds(xs: seq<Json>) {
    forall x | x in xs :: HasId(x)
  }

  /** `xs.every((e) => typeof e == "object" && "id" in e)` */
  function EveryHasId(xs: seq<Json>): Result<bool> {
    if xs == [] then Ok(true)
    else if xs[0].Null? then Throw
    else if !xs[0].Obj? || "id" !in xs[0].fields then Ok(false)
    else EveryHasId(xs[1..])
  }

  /** unorderedArrayToObject without its check: a later element replaces an earlier one with its id. */
  function ById(xs: seq<Json>): (m: Fields)
    requires AllHaveIds(xs)
    ensures forall k | k in m :: m[k] in xs && Id(m[k]) == k
    ensures forall x | x in xs :: Id(x) in m
  {
    if xs == [] then map[] else ById(xs[..|xs| - 1])[Id(xs[|xs| - 1]) := xs[|xs| - 1]]
  }

  function UnorderedArrayToObject(xs: seq<Json>): (r: Result<Fields>)
    ensures r.Ok? ==> forall k | k in r.value :: r.value[k] in xs
  {
    if exists x :: x in xs && HasId(x) && Forbidden(Id(x)) then Throw
    else if !AllHaveIds(xs) then Throw
    else Ok(ById(xs))
  }

  predicate KeyedById(m: Fields) {
    forall k | k in m :: HasId(m[k]) && Id(m[k]) == k
  }

  function Listed(m: Fields): (xs: seq<Json>)
    ensures |xs| == |m|
  {
    var keys := Ascending(m.Keys);
    seq(|keys|, i requires 0 <= i < |keys| => assert keys[i] in keys; m[keys[i]])
  }

  function ObjectToUnorderedArray(m: Fields): Result<seq<Json>> {
    if KeyedById(m) then Ok(Listed(m)) else Throw
  }

  // ----- generatePatchObj -----

  function NonEmpty(wk: Result<Fields>): Result<Option<Json>> {
    match wk
    case Ok(fields) => Ok(if fields == map[] then None else Some(Obj(fields)))
    case Throw => Throw
  }

  /** The patch entry for a key that both objects have, if there is one. */
  function Change(v: Json, value: Json): Result<Option<Json>>
    decreases value, 3
  {
    if !SameType(v, value) then Ok(Some(Obj(map[SWAPPED := value])))
    else if v.Null? && value.Null? then Ok(None)
    else if v.Null? || value.Null? then Ok(Some(Obj(map[SWAPPED := value])))
    else if v.Obj? then NonEmpty(Generate(v.fields, value.fields, value))
    else if v.Arr? then NonEmpty(GenerateForArrays(v.items, value.items, value))
    else if v != value then Ok(Some(value))
    else Ok(None)
  }

  /** generatePatchUnorderedArray; `bound` only bounds the recursion. */
  function GenerateForArrays(from: seq<Json>, to: seq<Json>, bound: Json): Result<Fields>
    requires forall x | x in to :: x < bound
    decreases bound, 2
  {
    match EveryHasId(from)
    case Throw => Throw
    case Ok(false) => Ok(map[SWAPPED := Arr(to)])
    case Ok(true) =>
      match EveryHasId(to)
      case Throw => Throw
      case Ok(false) => Ok(map[SWAPPED := Arr(to)])
      case Ok(true) =>
        match (UnorderedArrayToObject(from), UnorderedArrayToObject(to))
        case (Throw, _) => Throw
        case (_, Throw) => Throw
        case (Ok(fObj), Ok(tObj)) =>
          match Generate(fObj, tObj, bound)
          case Throw => Throw
          case Ok(diff) => Ok(if diff == map[] then map[] else map[ISARRAY := Obj(diff)])
  }

  /** The patch entry for a key of either object. */
  function Entry(from: Fields, to: Fields, key: string, bound: Json): Result<Option<Json>>
    requires key in from || key in to
    requires forall k | k in to :: to[k] < bound
    decreases bound, 0
  {
    if key !in to then Ok(Some(Str(DELETED)))
    else if Forbidden(key) then Throw
    else if key !in from then Ok(Some(to[key]))
    else Change(from[key], to[key])
  }

  function Generate(from: Fields, to: Fields, bound: Json): Result<Fields>
    requires forall k | k in to :: to[k] < bound
    decreases bound, 1
  {
    if exists k :: k in from.Keys + to.Keys && Entry(from, to, k, bound).Throw? then Throw
    else Ok(map k | k in from.Keys + to.Keys && Entry(from, to, k, bound).value.Some? :: Entry(from, to, k, bound).value.value)
  }

  // ----- applyPatch -----

  /** What one patch entry makes of the value at its key; None stands for "no such key". */
  function Step(was: Option<Json>, patch: Json): Result<Option<Json>>
    decreases patch, 9
  {
    if !Convertible(patch) then Throw
    else if EqualsDeleted(patch) then Ok(None)
    else if patch.Obj? && SWAPPED in patch.fields then Ok(Some(patch.fields[SWAPPED]))
    else if patch.Obj? && ISARRAY in patch.fields then StepArray(was, patch.fields[ISARRAY])
    else if (patch.Obj? || patch.Arr?) && was.Some? then StepInto(was.value, patch)
    else Ok(Some(patch))
  }

  function StepArray(was: Option<Json>, diff: Json): Result<Option<Json>>
    decreases diff, 5
  {
    var current := if was.Some? then was.value else Arr([]);
    if !current.Arr? || !diff.Obj? then Throw
    else
      match UnorderedArrayToObject(current.items)
      case Throw => Throw
      case Ok(orgArrayObject) =>
        match Apply(orgArrayObject, diff)
        case Throw => Throw
        case Ok(applied) =>
          match ObjectToUnorderedArray(applied)
          case Throw => Throw
          case Ok(items) => Ok(Some(Arr(items)))
  }

  /** Deleting a property of a primitive does nothing; assigning one throws. */
  predicate OnlyDeletes(patch: Fields) {
    forall k | k in patch :: !Forbidden(k) && Convertible(patch[k]) && EqualsDeleted(patch[k])
  }

  /** A property of an array that is not one of these does not show in its JSON text. */
  predicate ShowsInArray(key: string) {
    key == "length" || (key != "" && forall c | c in key :: '0' <= c <= '9')
  }

  /** Such properties are still set, one by one, where there was nothing. */
  predicate FitsBeside(patch: Json)
    requires patch.Obj?
    decreases patch, 0
  {
    forall k | k in patch.fields :: !Forbidden(k) && !ShowsInArray(k) && Step(None, patch.fields[k]).Ok?
  }

  function Decimal(n: nat): (digits: string)
    ensures digits != "" && forall c | c in digits :: '0' <= c <= '9'
  {
    (if n < 10 then "" else Decimal(n / 10)) + ["0123456789"[n % 10]]
  }

  /** An object that gets the elements of an array under their indices. */
  function WithIndices(target: Fields, items: seq<Json>): Fields {
    if items == [] then target
    else WithIndices(target, items[..|items| - 1])[Decimal(|items| - 1) := items[|items| - 1]]
  }

  /** The elements go beside the other properties; where an index is a property already is not modelled. */
  predicate FitsIndices(target: Fields, patch: Json)
    requires patch.Arr?
    decreases patch, 0
  {
    forall i | 0 <= i < |patch.items| :: Decimal(i) !in target && Step(None, patch.items[i]) == Ok(Some(patch.items[i]))
  }

  /** The characters of a text and its length are properties that cannot be deleted. */
  predicate DeletesFromText(target: Json, patch: Fields) {
    target.Str? && exists k :: k in patch && (k == "length" || exists i :: 0 <= i < |target.s| && k == Decimal(i))
  }

  /** A patch that is an object or an array, recursively, on what is there. */
  function StepInto(target: Json, patch: Json): Result<Option<Json>>
    requires patch.Obj? || patch.Arr?
    decreases patch, 5
  {
    if target.Obj? && patch.Obj? then
      match Apply(target.fields, patch)
      case Throw => Throw
      case Ok(fields) => Ok(Some(Obj(fields)))
    else if target.Arr? && patch.Arr? then
      match Overlay(target.items, patch.items, patch)
      case Throw => Throw
      case Ok(items) => Ok(Some(Arr(items)))
    else if target.Arr? then if FitsBeside(patch) then Ok(Some(target)) else Throw
    else if target.Obj? then if FitsIndices(target.fields, patch) then Ok(Some(Obj(WithIndices(target.fields, patch.items)))) else Throw
    else if patch == Obj(map[]) || patch == Arr([]) then Ok(Some(target))
    else if (target.Bool? || target.Num? || target.Str?) && patch.Obj? && OnlyDeletes(patch.fields) && !DeletesFromText(target, patch.fields) then
      Ok(Some(target))
    else Throw
  }

  /** The elements of an array patch, taken as entries for the indices. */
  function Overlay(target: seq<Json>, patch: seq<Json>, bound: Json): Result<seq<Json>>
    requires forall i | 0 <= i < |patch| :: patch[i] < bound
    decreases bound, 2, |patch|
  {
    if patch == [] then Ok(target)
    else
      match Step(if target == [] then None else Some(target[0]), patch[0])
      case Throw => Throw
      case Ok(None) => Throw
      case Ok(Some(first)) =>
        match Overlay(if target == [] then [] else target[1..], patch[1..], bound)
        case Throw => Throw
        case Ok(rest) => Ok([first] + rest)
  }

  /** The value at a key after the patch, if there is one. */
  function StepKey(target: Fields, patch: Json, key: string): Result<Option<Json>>
    requires patch.Obj?
    decreases patch, 0
  {
    var was := if key in target then Some(target[key]) else None;
    if key !in patch.fields then Ok(was)
    else if Forbidden(key) then Throw
    else Step(was, patch.fields[key])
  }

  function Apply(target: Fields, patch: Json): Result<Fields>
    requires patch.Obj?
    decreases patch, 1
  {
    var keys := target.Keys + patch.fields.Keys;
    if exists k :: k in keys && StepKey(target, patch, k).Throw? then Throw
    else Ok(map k | k in keys && StepKey(target, patch, k).value.Some? :: StepKey(target, patch, k).value.value)
  }

  // ----- a patch key by key -----

  function At(m: Fields, key: string): Option<Json> {
    if key in m then Some(m[key]) else None
  }

  /** Applying a patch is stepping every key. */
  lemma ApplyIs(target: Fields, patch: Json, result: Fields)
    requires patch.Obj? && forall k | k in target || k in patch.fields || k in result :: StepKey(target, patch, k) == Ok(At(result, k))
    ensures Apply(target, patch) == Ok(result)
  {
    hide StepKey;
    var r := Apply(target, patch);
    assert r.Ok?;
    assert forall k | k in r.value :: k in result && r.value[k] == result[k];
    forall k | k in result
      ensures k in r.value
    {
      if k !in target && k !in patch.fields {
        NoKeyNoValue(target, patch, k);
      }
    }
    assert r.value == result;
  }

  lemma NoKeyNoValue(target: Fields, patch: Json, key: string)
    requires patch.Obj? && key !in target && key !in patch.fields
    ensures StepKey(target, patch, key) == Ok(None)
  {
  }

  lemma ApplyAt(target: Fields, patch: Json, key: string)
    requires patch.Obj? && Apply(target, patch).Ok?
    ensures StepKey(target, patch, key) == Ok(At(Apply(target, patch).value, key))
  {
    if key !in target && key !in patch.fields {
      NoKeyNoValue(target, patch, key);
    }
  }

  lemma ApplyNothing(target: Fields)
    ensures Apply(target, Obj(map[])) == Ok(target)
  {
    ApplyIs(target, Obj(map[]), target);
  }

  /** An application throws exactly if it throws at some key. */
  lemma ApplyThrowsIff(target: Fields, patch: Json)
    requires patch.Obj?
    ensures Apply(target, patch).Throw? <==> exists k :: k in patch.fields && StepKey(target, patch, k).Throw?
  {
    hide Step;
    if k :| k in patch.fields && StepKey(target, patch, k).Throw? {
      assert k in target.Keys + patch.fields.Keys;
    }
  }
}
