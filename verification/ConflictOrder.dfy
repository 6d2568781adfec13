/** Which conflicting revision is reviewed first. */
module ConflictOrder {

  import opened CodeUnitOrder
  import opened Options

  /** A revision id is written as its generation, a hyphen and its hash. */
  datatype RevisionId = RevisionId(generation: nat, hash: string)

  /** The modification time is missing when the leaf could not be read or has no finite time. */
  datatype Candidate = Candidate(revision: RevisionId, mtime: Option<real>)

  /** What an IEEE subtraction of two modification times can yield here. */
  datatype Difference = NotANumber | Infinite(positive: bool) | Finite(r: real)

  /** A missing time counts as minus infinity, and minus infinity less itself is not a number. */
  function Minus(left: Option<real>, right: Option<real>): Difference {
    if left.None? && right.None? then NotANumber
    else if left.None? then Infinite(false)
    else if right.None? then Infinite(true)
    else Finite(left.value - right.value)
  }

  function Compare(left: Candidate, right: Candidate): Difference {
    if left.revision.generation != right.revision.generation then
      Finite((left.revision.generation - right.revision.generation) as real)
    else if Minus(left.mtime, right.mtime) != Finite(0.0) then Minus(left.mtime, right.mtime)
    else if Less(left.revision.hash, right.revision.hash) then Finite(-1.0)
    else if Less(right.revision.hash, left.revision.hash) then Finite(1.0)
    else Finite(0.0)
  }

  /** How a sort reads the outcome: what is not a number counts as zero. */
  predicate Before(x: Candidate, y: Candidate) {
    match Compare(x, y)
    case NotANumber => false
    case Infinite(positive) => !positive
    case Finite(r) => r < 0.0
  }

  predicate Ties(x: Candidate, y: Candidate) {
    !Before(x, y) && !Before(y, x)
  }

  predicate BothUndated(x: Candidate, y: Candidate) {
    x.revision.generation == y.revision.generation && x.mtime.None? && y.mtime.None?
  }

  /** The order promised for the review is total except for undated candidates of one generation. */
  lemma TiesIff(x: Candidate, y: Candidate)
    ensures Ties(x, y) <==> BothUndated(x, y) || x == y
    ensures !(Before(x, y) && Before(y, x))
  {
    LessIsTotal(x.revision.hash, y.revision.hash);
  }

  lemma BeforeIsTransitive(x: Candidate, y: Candidate, z: Candidate)
    requires !Before(y, x) && !Before(z, y)
    ensures !Before(z, x)
    ensures Ties(x, z) ==> Ties(x, y)
  {
    hide Less;
    LessIsTotal(x.revision.hash, y.revision.hash);
    LessIsTotal(y.revision.hash, z.revision.hash);
    LessIsTotal(x.revision.hash, z.revision.hash);
    if Less(x.revision.hash, y.revision.hash) && Less(y.revision.hash, z.revision.hash) {
      LessIsTransitive(x.revision.hash, y.revision.hash, z.revision.hash);
    }
  }

  predicate IsFirst(c: Candidate, cs: seq<Candidate>) {
    c in cs && forall d | d in cs :: !Before(d, c)
  }

  /** The head of the sorted candidates: the sort keeps the order of candidates that tie. */
  function First(cs: seq<Candidate>): (c: Candidate)
    requires cs != []
    ensures IsFirst(c, cs)
  {
    if |cs| == 1 then TiesIff(cs[0], cs[0]); cs[0]
    else
      var c := First(cs[1..]);
      if Before(c, cs[0]) then FirstOfRest(cs, c); c else FirstIsHead(cs, c); cs[0]
  }

  lemma FirstOfRest(cs: seq<Candidate>, c: Candidate)
    requires cs != [] && IsFirst(c, cs[1..]) && Before(c, cs[0])
    ensures IsFirst(c, cs)
  {
    TiesIff(c, cs[0]);
  }

  lemma FirstIsHead(cs: seq<Candidate>, c: Candidate)
    requires cs != [] && IsFirst(c, cs[1..]) && !Before(c, cs[0])
    ensures IsFirst(cs[0], cs)
  {
    TiesIff(cs[0], cs[0]);
    forall d | d in cs
      ensures !Before(d, cs[0])
    {
      if d != cs[0] {
        assert d in cs[1..];
        BeforeIsTransitive(cs[0], c, d);
      }
    }
  }

  ghost predicate SameCandidates(cs: seq<Candidate>, ds: seq<Candidate>) {
    forall c :: c in cs <==> c in ds
  }

  lemma HeadStaysFirst(cs: seq<Candidate>, c: Candidate)
    requires IsFirst(c, [c] + cs)
    ensures First([c] + cs) == c
  {
    var all := [c] + cs;
    assert all[1..] == cs;
    if cs != [] {
      assert First(cs) in all;
    }
  }

  /** No candidate is of an earlier generation. */
  predicate Lowest(c: Candidate, cs: seq<Candidate>) {
    forall d | d in cs :: c.revision.generation <= d.revision.generation
  }

  /** Where a candidate of the lowest generation is undated, so is the first one, which is of that generation, too. */
  lemma FirstIsUndated(cs: seq<Candidate>, d: Candidate)
    requires d in cs && Lowest(d, cs) && d.mtime.None?
    ensures First(cs) in cs && BothUndated(d, First(cs))
  {
    assert !Before(d, First(cs));
  }

  lemma FirstIsLowest(cs: seq<Candidate>)
    requires cs != []
    ensures First(cs) in cs && Lowest(First(cs), cs)
  {
    forall d | d in cs
      ensures First(cs).revision.generation <= d.revision.generation
    {
      assert !Before(d, First(cs));
    }
  }

  /**
   * What is reviewed first: a candidate of the lowest generation; among those an undated one, if there is any, and
   * else one of the earliest time, and of several such the one with the least hash.
   */
  lemma FirstIsOldest(cs: seq<Candidate>, d: Candidate)
    requires d in cs
    ensures First(cs) in cs
    ensures var c := First(cs);
            && c.revision.generation <= d.revision.generation
            && (c.revision.generation == d.revision.generation ==>
                  && (d.mtime.None? ==> c.mtime.None?)
                  && (d.mtime.Some? && c.mtime.Some? ==> c.mtime.value <= d.mtime.value)
                  && (d.mtime.Some? && c.mtime == d.mtime ==> !Less(d.revision.hash, c.revision.hash)))
  {
    hide Less;
    LessIsTotal(d.revision.hash, First(cs).revision.hash);
    assert !Before(d, First(cs));
  }

  /**
   * Two devices that list the same conflicts review the same one first, whatever order the database lists
   * them in, exactly if no two different candidates of the lowest generation are undated.
   */
  lemma FirstIsDeterminedIff(cs: seq<Candidate>)
    requires cs != []
    ensures (forall ds | ds != [] && SameCandidates(cs, ds) :: First(ds) == First(cs))
            <==> forall d, e | d in cs && e in cs && Lowest(d, cs) && BothUndated(d, e) :: d == e
  {
    hide Before, First;
    var c := First(cs);
    FirstIsLowest(cs);
    if d, e :| d in cs && e in cs && Lowest(d, cs) && BothUndated(d, e) && d != e {
      FirstIsUndated(cs, d);
      var other := if d != c then d else e;
      OtherUndatedCanBeFirst(cs, other);
    } else {
      forall ds | ds != [] && SameCandidates(cs, ds)
        ensures First(ds) == c
      {
        TiesIff(First(ds), c);
      }
    }
  }

  lemma OtherUndatedCanBeFirst(cs: seq<Candidate>, d: Candidate)
    requires cs != [] && d in cs && BothUndated(d, First(cs))
    ensures exists ds :: ds != [] && SameCandidates(cs, ds) && First(ds) == d
  {
    hide Before, First;
    var c, ds := First(cs), [d] + cs;
    forall e | e in ds
      ensures !Before(e, d)
    {
      TiesIff(c, d);
      TiesIff(d, d);
      BeforeIsTransitive(d, c, e);
    }
    HeadStaysFirst(cs, d);
    assert SameCandidates(cs, ds);
  }

  /** Two leaves that cannot be read, of one generation: the one listed first is reviewed first. */
  lemma UndatedFollowEnumeration()
    ensures var a, b := Candidate(RevisionId(2, "a"), None), Candidate(RevisionId(2, "b"), None);
            First([a, b]) == a && First([b, a]) == b
  {
    var a, b := Candidate(RevisionId(2, "a"), None), Candidate(RevisionId(2, "b"), None);
    assert Compare(a, b).NotANumber? && Compare(b, a).NotANumber?;
    HeadStaysFirst([b], a);
    HeadStaysFirst([a], b);
    assert [a] + [b] == [a, b] && [b] + [a] == [b, a];
  }
}
