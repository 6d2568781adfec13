/** The check of `mergeObject` before it applies two patches: no path may be set to different values. */
module ClashCheck {

  import opened Options
  import opened JsonPatch

  /** What flattenObject lists for a path: anything but an object is a leaf. */
  function LeafAt(v: Json, path: seq<string>): Option<Json>
    decreases |path|
  {
    if path == [] then if v.Obj? then None else Some(v)
    else if v.Obj? && path[0] in v.fields then LeafAt(v.fields[path[0]], path[1..])
    else None
  }

  /** Both patches set the same path, to values that are not equal in the sense `eq` of `==`. */
  ghost predicate Clashes(left: Json, right: Json, eq: (Json, Json) -> bool) {
    exists path :: LeafAt(left, path).Some? && LeafAt(right, path).Some?
                   && !eq(LeafAt(left, path).value, LeafAt(right, path).value)
  }

  function LeafPaths(v: Json): (paths: set<seq<string>>)
    ensures forall path :: path in paths <==> LeafAt(v, path).Some?
  {
    if !v.Obj? then {[]}
    else
      var paths := set k, path | k in v.fields && path in LeafPaths(v.fields[k]) :: [k] + path;
      assert forall path | LeafAt(v, path).Some? :: path in paths by {
        forall path | LeafAt(v, path).Some?
          ensures path in paths
        {
          assert path == [path[0]] + path[1..];
        }
      }
      paths
  }

  /** flattenObject, with the paths kept apart: the code joins their keys by dots. */
  function Flatten(v: Json): map<seq<string>, Json> {
    map path | path in LeafPaths(v) :: LeafAt(v, path).value
  }

  lemma ClashesIffLeavesDiffer(diffLeft: Json, diffRight: Json, eq: (Json, Json) -> bool)
    ensures Clashes(diffLeft, diffRight, eq)
            <==> exists path :: path in Flatten(diffLeft) && path in Flatten(diffRight) && !eq(Flatten(diffLeft)[path], Flatten(diffRight)[path])
  {
    if Clashes(diffLeft, diffRight, eq) {
      var path :| LeafAt(diffLeft, path).Some? && LeafAt(diffRight, path).Some?
                  && !eq(LeafAt(diffLeft, path).value, LeafAt(diffRight, path).value);
      assert path in Flatten(diffLeft) && path in Flatten(diffRight);
    }
  }

  method FindClash(diffLeft: Json, diffRight: Json, eq: (Json, Json) -> bool) returns (clash: bool)
    ensures clash <==> Clashes(diffLeft, diffRight, eq)
  {
    hide Flatten, Clashes, LeafAt;
    var diffSetLeft, diffSetRight := Flatten(diffLeft), Flatten(diffRight);
    ClashesIffLeavesDiffer(diffLeft, diffRight, eq);
    var entries := diffSetLeft.Keys;
    while entries != {}
      invariant entries <= diffSetLeft.Keys
      invariant diffSetRight.Keys <= Flatten(diffRight).Keys
      invariant forall key | key in diffSetRight :: diffSetRight[key] == Flatten(diffRight)[key]
      invariant forall key | key in Flatten(diffRight) && key !in diffSetRight ::
                  key in diffSetLeft && eq(diffSetLeft[key], Flatten(diffRight)[key])
    {
      var key :| key in entries;
      entries := entries - {key};
      if key in diffSetRight {
        if eq(diffSetLeft[key], diffSetRight[key]) {
          diffSetRight := diffSetRight - {key};
        }
      }
    }
    var keys := diffSetRight.Keys;
    while keys != {}
      invariant keys <= diffSetRight.Keys
      invariant forall key | key in diffSetRight && key !in keys :: key in diffSetLeft ==> eq(diffSetLeft[key], diffSetRight[key])
    {
      var key :| key in keys;
      keys := keys - {key};
      if key in diffSetLeft && !eq(diffSetLeft[key], diffSetRight[key]) {
        return true;
      }
    }
    clash := false;
  }

  /** `==` may also hold between values of different types; it always holds between equal ones. */
  ghost predicate ReflexiveEq(eq: (Json, Json) -> bool) {
    forall v :: eq(v, v)
  }

  /** Arrays are compared by their JSON text. */
  ghost predicate ArraysByText(eq: (Json, Json) -> bool) {
    forall xs, ys :: eq(Arr(xs), Arr(ys)) <==> xs == ys
  }

  predicate IsArrayAt(v: Json, path: seq<string>) {
    LeafAt(v, path).Some? && LeafAt(v, path).value.Arr?
  }

  /** Where both have an array, it is the same one. */
  ghost predicate ArraysAgree(a: Json, b: Json) {
    forall path | IsArrayAt(a, path) && IsArrayAt(b, path) :: LeafAt(a, path) == LeafAt(b, path)
  }

  lemma ArraysAgreeWithoutClash(left: Json, right: Json, eq: (Json, Json) -> bool)
    requires ArraysByText(eq) && !Clashes(left, right, eq)
    ensures ArraysAgree(left, right) && ArraysAgree(right, left)
  {
    forall path | IsArrayAt(left, path) && IsArrayAt(right, path)
      ensures LeafAt(left, path) == LeafAt(right, path)
    {
      assert eq(LeafAt(left, path).value, LeafAt(right, path).value);
    }
  }

  lemma ArraysAgreeUnderKey(a: Json, b: Json, k: string)
    requires ArraysAgree(a, b) && a.Obj? && b.Obj? && k in a.fields && k in b.fields
    ensures ArraysAgree(a.fields[k], b.fields[k])
  {
    forall path | IsArrayAt(a.fields[k], path) && IsArrayAt(b.fields[k], path)
      ensures LeafAt(a.fields[k], path) == LeafAt(b.fields[k], path)
    {
      var longer := [k] + path;
      assert longer[1..] == path;
      assert IsArrayAt(a, longer) && IsArrayAt(b, longer);
    }
  }

  // ----- paths joined by dots -----

  /** `path.join(".")` */
  function Joined(path: seq<string>): string {
    if path == [] then "" else if |path| == 1 then path[0] else path[0] + "." + Joined(path[1..])
  }

  predicate DotFree(path: seq<string>) {
    path != [] && forall key | key in path :: '.' !in key
  }

  /** Keys without dots can be joined and told apart again. */
  lemma {:induction false} JoinedPathsDiffer(a: seq<string>, b: seq<string>)
    requires DotFree(a) && DotFree(b) && Joined(a) == Joined(b)
    ensures a == b
    decreases |a|
  {
    var s := Joined(a);
    FirstKeyEnds(a);
    FirstKeyEnds(b);
    assert a == [a[0]] + a[1..] && b == [b[0]] + b[1..];
    if |a| > 1 {
      var n, m := |a[0]|, |b[0]|;
      NoDotInFirstKey(a);
      NoDotInFirstKey(b);
      assert s[n] == '.' && s[m] == '.';
      assert n == m;
      assert a[0] == s[..n] == b[0];
      assert Joined(a[1..]) == s[n + 1..] == Joined(b[1..]);
      JoinedPathsDiffer(a[1..], b[1..]);
    }
  }

  lemma NoDotInFirstKey(path: seq<string>)
    requires DotFree(path) && |path| > 1
    ensures forall i | 0 <= i < |path[0]| :: Joined(path)[i] != '.'
  {
    assert path[0] in path;
  }

  lemma FirstKeyEnds(path: seq<string>)
    requires DotFree(path)
    ensures |path| == 1 <==> '.' !in Joined(path)
    ensures |path| > 1 ==> DotFree(path[1..])
  {
    if |path| > 1 {
      assert Joined(path)[|path[0]|] == '.';
    }
  }

  predicate MeetJoined(left: Json, right: Json, a: seq<string>, b: seq<string>, eq: (Json, Json) -> bool) {
    && LeafAt(left, a).Some? && LeafAt(right, b).Some? && Joined(a) == Joined(b)
    && !eq(LeafAt(left, a).value, LeafAt(right, b).value)
  }

  /** The code compares leaves with equal joined paths: without dots in the keys that is comparing leaves with equal paths. */
  lemma JoinedClashIff(left: Json, right: Json, eq: (Json, Json) -> bool)
    requires forall path :: LeafAt(left, path).Some? || LeafAt(right, path).Some? ==> DotFree(path)
    ensures Clashes(left, right, eq) <==> exists a, b :: MeetJoined(left, right, a, b, eq)
  {
    if Clashes(left, right, eq) {
      var path :| LeafAt(left, path).Some? && LeafAt(right, path).Some? && !eq(LeafAt(left, path).value, LeafAt(right, path).value);
      assert MeetJoined(left, right, path, path, eq);
    }
    if a, b :| MeetJoined(left, right, a, b, eq) {
      JoinedPathsDiffer(a, b);
    }
  }

  /** With a dot in a key two paths fall together. */
  lemma DottedKeysCoincide()
    ensures Joined(["a", "b"]) == Joined(["a.b"]) == "a.b"
  {
    assert ["a", "b"][1..] == ["b"];
    assert Joined(["b"]) == "b";
  }
}
