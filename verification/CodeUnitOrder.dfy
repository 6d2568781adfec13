/** The order of strings by code unit, as `<` compares them. */
module CodeUnitOrder {

  predicate Less(a: string, b: string) {
    b != "" && (a == "" || a[0] < b[0] || (a[0] == b[0] && Less(a[1..], b[1..])))
  }

  lemma {:induction false} LessIsTotal(a: string, b: string)
    ensures Less(a, b) || Less(b, a) || a == b
    ensures !(Less(a, b) && Less(b, a)) && !Less(a, a)
  {
    if a != "" && b != "" && a[0] == b[0] {
      LessIsTotal(a[1..], b[1..]);
      assert a[1..] == b[1..] ==> a == [a[0]] + a[1..] == b;
    }
    if a != "" {
      LessIsTotal(a[1..], a[1..]);
    }
  }

  lemma {:induction false} LessIsTransitive(a: string, b: string, c: string)
    requires Less(a, b) && Less(b, c)
    ensures Less(a, c)
  {
    if a != "" && a[0] == b[0] && b[0] == c[0] {
      LessIsTransitive(a[1..], b[1..], c[1..]);
    }
  }

  predicate IsLeast(x: string, s: set<string>) {
    x in s && forall y | y in s && y != x :: Less(x, y)
  }

  lemma LeastOfTwo(x: string, z: string, s: set<string>)
    requires IsLeast(z, s - {x}) && x in s && Less(x, z)
    ensures IsLeast(x, s)
  {
    forall y | y in s && y != x
      ensures Less(x, y)
    {
      if y != z {
        LessIsTransitive(x, z, y);
      }
    }
  }

  lemma {:induction false} LeastExists(s: set<string>)
    requires s != {}
    ensures exists x :: IsLeast(x, s)
  {
    hide Less;
    var x :| x in s;
    if s - {x} == {} {
      assert s == {x};
      assert IsLeast(x, s);
    } else {
      LeastExists(s - {x});
      var z :| IsLeast(z, s - {x});
      LessIsTotal(x, z);
      if Less(x, z) {
        LeastOfTwo(x, z, s);
      } else {
        assert IsLeast(z, s);
      }
    }
  }

  lemma LeastIsUnique(x: string, y: string, s: set<string>)
    requires IsLeast(x, s) && IsLeast(y, s)
    ensures x == y
  {
    LessIsTotal(x, y);
  }

  function Least(s: set<string>): (x: string)
    requires s != {}
    ensures IsLeast(x, s)
  {
    LeastExists(s);
    assert forall x, y | IsLeast(x, s) && IsLeast(y, s) :: x == y by {
      forall x, y | IsLeast(x, s) && IsLeast(y, s)
        ensures x == y
      {
        LeastIsUnique(x, y, s);
      }
    }
    var x :| x in s && IsLeast(x, s);
    x
  }

  lemma LeastIsFirst(x: string, s: set<string>, rest: seq<string>)
    requires IsLeast(x, s) && forall y | y in rest :: y in s - {x}
    ensures forall j | 0 <= j < |rest| :: Less(x, rest[j]) && x != rest[j]
  {
    forall j | 0 <= j < |rest|
      ensures rest[j] in s - {x}
    {
      assert rest[j] in rest;
    }
  }

  /** The strings of a set in ascending order. */
  function Ascending(s: set<string>): (r: seq<string>)
    ensures |r| == |s| && (forall x | x in r :: x in s) && (forall x | x in s :: x in r)
    ensures forall i, j | 0 <= i < j < |r| :: Less(r[i], r[j]) && r[i] != r[j]
  {
    if s == {} then []
    else
      var x := Least(s);
      var rest := Ascending(s - {x});
      LeastIsFirst(x, s, rest);
      [x] + rest
  }
}
