/**
 * The line merge of two edits of one base: the two-cursor loop of `mergeSensibly`, and the pointwise
 * three-way merge it turns out to compute.
 */
module LineMerge {

  import opened LineDiff

  datatype Refusal =
    | DeletionOverlap      // both sides deleted a line and went on differently
    | ConcurrentInsertion  // different insertions in one place, to be preserved for the user
    | Misaligned           // the two cursors are at different base lines
    | BothDeleting         // a deletion met something other than an unchanged line

  datatype Outcome =
    | Merged(items: Diff)
    | Refused(why: Refusal)
    | Abandoned(items: Diff)  // the loop was left without a verdict; what was merged so far is returned

  /** `preserve` is preserveConcurrentInserts; `leftFirst` says that the left side is not the newer one. */
  datatype Policy = Policy(preserve: bool, leftFirst: bool)

  const NOTHING := Item(Equal, "")

  function Head(d: Diff): Item {
    if d == [] then NOTHING else d[0]
  }

  function Tail(d: Diff): Diff {
    if d == [] then [] else d[1..]
  }

  function Then(items: Diff, rest: Outcome): Outcome {
    match rest
    case Merged(more) => Merged(items + more)
    case Refused(why) => rest
    case Abandoned(more) => Abandoned(items + more)
  }

  /** Whether, behind a line deleted on both sides, the sides go on in different ways. */
  predicate GoOnDifferently(left: Diff, right: Diff) {
    var l, r := Head(left), Head(right);
    (l.op == Insert) != (r.op == Insert) || (l.op == Insert && r.op == Insert && l.text != r.text)
  }

  /** What one turn of the loop does: push items and move the cursors that are to move, or stop. */
  datatype Turn = Push(items: Diff, moveLeft: bool, moveRight: bool) | Stop(verdict: Outcome)

  function TurnAt(left: Diff, right: Diff, p: Policy): Turn {
    var l, r := Head(left), Head(right);
    if l.op == Equal && r.op == Equal && l.text == r.text then Push([l], true, true)
    else if l.op == Delete && r.op == Delete && l.text == r.text then
      if GoOnDifferently(Tail(left), Tail(right)) then Stop(Refused(DeletionOverlap)) else Push([l], true, true)
    else if l.op == Insert && r.op == Insert then
      if l.text == r.text then Push([l], true, true)
      else if p.preserve then Stop(Refused(ConcurrentInsertion))
      else Push(if p.leftFirst then [l, r] else [r, l], true, true)
    else if l.op == Insert then Push([l], true, false)
    else if r.op == Insert then Push([r], false, true)
    else if l.text != r.text then Stop(Refused(Misaligned))
    else if l.op == Delete then if r.op == Equal then Push([l], true, true) else Stop(Refused(BothDeleting))
    else if r.op == Delete then if l.op == Equal then Push([r], true, true) else Stop(Refused(BothDeleting))
    else Stop(Abandoned([]))
  }

  /** What the loop computes from the two cursors on. */
  function Merge(left: Diff, right: Diff, p: Policy): Outcome
    decreases |left| + |right|
  {
    if left == [] && right == [] then Merged([])
    else
      match TurnAt(left, right, p)
      case Push(items, moveLeft, moveRight) =>
        Then(items, Merge(if moveLeft then Tail(left) else left, if moveRight then Tail(right) else right, p))
      case Stop(verdict) => verdict
  }

  function From(d: Diff, i: nat): Diff {
    if i < |d| then d[i..] else []
  }

  lemma ThenAssociates(a: Diff, b: Diff, rest: Outcome)
    ensures Then(a, Then(b, rest)) == Then(a + b, rest)
  {
    if !rest.Refused? {
      assert a + (b + rest.items) == a + b + rest.items;
    }
  }

  method TakeTurn(left: Diff, right: Diff, leftIdx: nat, rightIdx: nat, p: Policy) returns (turn: Turn)
    ensures turn == TurnAt(From(left, leftIdx), From(right, rightIdx), p)
  {
    var leftItem, rightItem := Head(From(left, leftIdx)), Head(From(right, rightIdx));
    if leftItem.op == Equal && rightItem.op == Equal && leftItem.text == rightItem.text {
      return Push([leftItem], true, true);
    }
    if leftItem.op == Delete && rightItem.op == Delete && leftItem.text == rightItem.text {
      assert Tail(From(left, leftIdx)) == From(left, leftIdx + 1);
      assert Tail(From(right, rightIdx)) == From(right, rightIdx + 1);
      if GoOnDifferently(From(left, leftIdx + 1), From(right, rightIdx + 1)) {
        return Stop(Refused(DeletionOverlap));
      }
      return Push([leftItem], true, true);
    }
    if leftItem.op == Insert && rightItem.op == Insert {
      if leftItem.text == rightItem.text {
        return Push([leftItem], true, true);
      }
      if p.preserve {
        return Stop(Refused(ConcurrentInsertion));
      }
      return Push(if p.leftFirst then [leftItem, rightItem] else [rightItem, leftItem], true, true);
    }
    if leftItem.op == Insert {
      return Push([leftItem], true, false);
    }
    if rightItem.op == Insert {
      return Push([rightItem], false, true);
    }
    if rightItem.text != leftItem.text {
      return Stop(Refused(Misaligned));
    }
    if leftItem.op == Delete {
      return if rightItem.op == Equal then Push([leftItem], true, true) else Stop(Refused(BothDeleting));
    }
    if rightItem.op == Delete {
      return if leftItem.op == Equal then Push([rightItem], true, true) else Stop(Refused(BothDeleting));
    }
    return Stop(Abandoned([]));
  }

  method MergeLoop(left: Diff, right: Diff, p: Policy) returns (outcome: Outcome)
    ensures outcome == Merge(left, right, p)
  {
    var leftIdx, rightIdx := 0, 0;
    var merged: Diff := [];
    while leftIdx < |left| || rightIdx < |right|
      invariant Merge(left, right, p) == Then(merged, Merge(From(left, leftIdx), From(right, rightIdx), p))
      decreases |From(left, leftIdx)| + |From(right, rightIdx)|
    {
      var turn := TakeTurn(left, right, leftIdx, rightIdx, p);
      match turn {
        case Stop(verdict) =>
          return Then(merged, verdict);
        case Push(items, moveLeft, moveRight) =>
          AfterTurn(left, right, leftIdx, rightIdx, p, merged);
          merged := merged + items;
          leftIdx := if moveLeft then leftIdx + 1 else leftIdx;
          rightIdx := if moveRight then rightIdx + 1 else rightIdx;
      }
    }
    return Merged(merged);
  }

  lemma AfterTurn(left: Diff, right: Diff, leftIdx: nat, rightIdx: nat, p: Policy, merged: Diff)
    requires leftIdx < |left| || rightIdx < |right|
    requires TurnAt(From(left, leftIdx), From(right, rightIdx), p).Push?
    ensures var turn := TurnAt(From(left, leftIdx), From(right, rightIdx), p);
            var leftIdx' := if turn.moveLeft then leftIdx + 1 else leftIdx;
            var rightIdx' := if turn.moveRight then rightIdx + 1 else rightIdx;
            && Then(merged, Merge(From(left, leftIdx), From(right, rightIdx), p))
            == Then(merged + turn.items, Merge(From(left, leftIdx'), From(right, rightIdx'), p))
            && |From(left, leftIdx')| + |From(right, rightIdx')| < |From(left, leftIdx)| + |From(right, rightIdx)|
  {
    var l, r := From(left, leftIdx), From(right, rightIdx);
    assert Tail(l) == From(left, leftIdx + 1);
    assert Tail(r) == From(right, rightIdx + 1);
    var turn := TurnAt(l, r, p);
    ThenAssociates(merged, turn.items, Merge(if turn.moveLeft then Tail(l) else l, if turn.moveRight then Tail(r) else r, p));
  }

  // ----- an edit, read off its diff: which base lines are kept, and what is inserted in each gap -----

  /** Base lines, kept lines and gaps say everything about a diff. */
  lemma {:induction false} EditDeterminesDiff(a: Diff, b: Diff)
    requires Base(a) == Base(b) && Kept(a) == Kept(b) && Gaps(a) == Gaps(b)
    ensures a == b
    decreases |a| + |b|
  {
    if a == [] {
      OnlyTheEmptyDiffEditsNothing(b);
    } else if b == [] {
      OnlyTheEmptyDiffEditsNothing(a);
    } else {
      assert (a[0].op == Insert) == (Gaps(a)[0] != []);
      assert (b[0].op == Insert) == (Gaps(b)[0] != []);
      if a[0].op == Insert {
        var ga, gb := Gaps(a[1..]), Gaps(b[1..]);
        assert a[0].text == Gaps(a)[0][0] == b[0].text;
        assert ga[0] == Gaps(a)[0][1..] == Gaps(b)[0][1..] == gb[0];
        assert ga[1..] == Gaps(a)[1..] == Gaps(b)[1..] == gb[1..];
        assert ga == [ga[0]] + ga[1..];
        assert gb == [gb[0]] + gb[1..];
      } else {
        assert Base(a)[0] == Base(b)[0] && Kept(a)[0] == Kept(b)[0];
        assert Base(a)[1..] == Base(a[1..]) && Base(b)[1..] == Base(b[1..]);
        assert Kept(a)[1..] == Kept(a[1..]) && Kept(b)[1..] == Kept(b[1..]);
        assert Gaps(a)[1..] == Gaps(a[1..]) && Gaps(b)[1..] == Gaps(b[1..]);
      }
      EditDeterminesDiff(a[1..], b[1..]);
      assert a == [a[0]] + a[1..];
      assert b == [b[0]] + b[1..];
    }
  }

  lemma OnlyTheEmptyDiffEditsNothing(d: Diff)
    requires Base(d) == [] && Gaps(d) == [[]]
    ensures d == []
  {
    FirstInsertion(d);
  }

  /** The merge of the insertions of one gap: position by position, an insertion made on both sides once. */
  function MergeGap(left: seq<string>, right: seq<string>, leftFirst: bool): seq<string> {
    if left == [] then right
    else if right == [] then left
    else
      (if left[0] == right[0] then [left[0]] else if leftFirst then [left[0], right[0]] else [right[0], left[0]])
      + MergeGap(left[1..], right[1..], leftFirst)
  }

  /** The two gaps have different insertions at some position. */
  predicate DifferSomewhere(left: seq<string>, right: seq<string>) {
    exists k :: 0 <= k < |left| && k < |right| && left[k] != right[k]
  }

  /** Some gap has different insertions at one position. */
  predicate ConcurrentInserts(left: seq<seq<string>>, right: seq<seq<string>>)
    requires |left| == |right|
  {
    exists g :: 0 <= g < |left| && DifferSomewhere(left[g], right[g])
  }

  function First(gap: seq<string>): seq<string> {
    if gap == [] then [] else [gap[0]]
  }

  /** Some base line is deleted on both sides, with different first insertions behind it. */
  predicate DeletionsOverlap(keptLeft: seq<bool>, keptRight: seq<bool>, left: seq<seq<string>>, right: seq<seq<string>>)
    requires |keptLeft| == |keptRight| && |left| == |right| == |keptLeft| + 1
  {
    exists i :: 0 <= i < |keptLeft| && !keptLeft[i] && !keptRight[i] && First(left[i + 1]) != First(right[i + 1])
  }

  /** Both diffs walk the same base lines. */
  predicate Aligned(left: Diff, right: Diff) {
    && Base(left) == Base(right)
    && (forall item | item in left :: item.text != "")
    && (forall item | item in right :: item.text != "")
  }

  predicate Overlap(left: Diff, right: Diff)
    requires Base(left) == Base(right)
  {
    DeletionsOverlap(Kept(left), Kept(right), Gaps(left), Gaps(right))
  }

  predicate Concurrent(left: Diff, right: Diff)
    requires Base(left) == Base(right)
  {
    ConcurrentInserts(Gaps(left), Gaps(right))
  }

  /** An edit of `base`: which lines it keeps and what it inserts where. */
  datatype Edit = Edit(kept: seq<bool>, gaps: seq<seq<string>>)

  predicate EditOf(e: Edit, base: seq<string>) {
    |e.kept| == |base| && |e.gaps| == |base| + 1
  }

  function EditIn(d: Diff): (e: Edit)
    ensures EditOf(e, Base(d))
  {
    Edit(Kept(d), Gaps(d))
  }

  /** `m` is the pointwise three-way merge of two edits of `base`. */
  ghost predicate IsThreeWayMerge(m: Diff, base: seq<string>, left: Edit, right: Edit, leftFirst: bool)
    requires EditOf(left, base) && EditOf(right, base)
  {
    && Base(m) == base
    && (forall i | 0 <= i < |base| :: Kept(m)[i] == (left.kept[i] && right.kept[i]))
    && (forall g | 0 <= g <= |base| :: Gaps(m)[g] == MergeGap(left.gaps[g], right.gaps[g], leftFirst))
  }

  /** The outcome is a refusal exactly for a clash of the two edits, and otherwise their pointwise merge. */
  ghost predicate Correct(outcome: Outcome, base: seq<string>, left: Edit, right: Edit, p: Policy)
    requires EditOf(left, base) && EditOf(right, base)
  {
    var overlap := DeletionsOverlap(left.kept, right.kept, left.gaps, right.gaps);
    var concurrent := ConcurrentInserts(left.gaps, right.gaps);
    match outcome
    case Merged(m) => !overlap && !(p.preserve && concurrent) && IsThreeWayMerge(m, base, left, right, p.leftFirst)
    case Refused(why) => (why == DeletionOverlap && overlap) || (why == ConcurrentInsertion && p.preserve && concurrent)
    case Abandoned(_) => false
  }

  // ----- one step of the loop -----

  lemma OverlapInFront(kl: bool, kr: bool, gl: seq<string>, gr: seq<string>,
                       keptLeft: seq<bool>, keptRight: seq<bool>, left: seq<seq<string>>, right: seq<seq<string>>)
    requires |keptLeft| == |keptRight| && |left| == |right| == |keptLeft| + 1
    ensures DeletionsOverlap([kl] + keptLeft, [kr] + keptRight, [gl] + left, [gr] + right) <==>
            (!kl && !kr && First(left[0]) != First(right[0])) || DeletionsOverlap(keptLeft, keptRight, left, right)
  {
    var kl', kr', l', r' := [kl] + keptLeft, [kr] + keptRight, [gl] + left, [gr] + right;
    if i :| 0 <= i < |keptLeft| && !keptLeft[i] && !keptRight[i] && First(left[i + 1]) != First(right[i + 1]) {
      assert !kl'[i + 1] && !kr'[i + 1] && First(l'[i + 2]) != First(r'[i + 2]);
    }
    if !kl && !kr && First(left[0]) != First(right[0]) {
      assert !kl'[0] && !kr'[0] && First(l'[1]) != First(r'[1]);
    }
    if i :| 0 <= i < |kl'| && !kl'[i] && !kr'[i] && First(l'[i + 1]) != First(r'[i + 1]) {
      if i > 0 {
        assert !keptLeft[i - 1] && !keptRight[i - 1] && First(left[i]) != First(right[i]);
      }
    }
  }

  /** Only the gaps behind base lines matter for an overlap, so the first gap may be replaced. */
  lemma OverlapIgnoresFirstGap(kept: seq<bool>, kept': seq<bool>, gl: seq<string>, gr: seq<string>,
                               gl': seq<string>, gr': seq<string>, left: seq<seq<string>>, right: seq<seq<string>>)
    requires |kept| == |kept'| == |left| == |right|
    ensures DeletionsOverlap(kept, kept', [gl'] + left, [gr'] + right) <==> DeletionsOverlap(kept, kept', [gl] + left, [gr] + right)
  {
    var l, r, l', r' := [gl] + left, [gr] + right, [gl'] + left, [gr'] + right;
    if i :| 0 <= i < |kept| && !kept[i] && !kept'[i] && First(l[i + 1]) != First(r[i + 1]) {
      assert First(l'[i + 1]) != First(r'[i + 1]);
    }
    if i :| 0 <= i < |kept| && !kept[i] && !kept'[i] && First(l'[i + 1]) != First(r'[i + 1]) {
      assert First(l[i + 1]) != First(r[i + 1]);
    }
  }

  lemma ConcurrentInFront(gl: seq<string>, gr: seq<string>, left: seq<seq<string>>, right: seq<seq<string>>)
    requires |left| == |right|
    ensures ConcurrentInserts([gl] + left, [gr] + right) <==> DifferSomewhere(gl, gr) || ConcurrentInserts(left, right)
  {
    var l', r' := [gl] + left, [gr] + right;
    if g :| 0 <= g < |left| && DifferSomewhere(left[g], right[g]) {
      assert DifferSomewhere(l'[g + 1], r'[g + 1]);
    }
    if DifferSomewhere(gl, gr) {
      assert DifferSomewhere(l'[0], r'[0]);
    }
    if g :| 0 <= g < |l'| && DifferSomewhere(l'[g], r'[g]) {
      if g > 0 {
        assert DifferSomewhere(left[g - 1], right[g - 1]);
      }
    }
  }

  lemma DifferInFront(x: string, y: string, left: seq<string>, right: seq<string>)
    ensures DifferSomewhere([x] + left, [y] + right) <==> x != y || DifferSomewhere(left, right)
  {
    var l', r' := [x] + left, [y] + right;
    if k :| 0 <= k < |left| && k < |right| && left[k] != right[k] {
      assert l'[k + 1] != r'[k + 1];
    }
    if x != y {
      assert l'[0] != r'[0];
    }
    if k :| 0 <= k < |l'| && k < |r'| && l'[k] != r'[k] {
      if k > 0 {
        assert left[k - 1] != right[k - 1];
      }
    }
  }

  /** Both cursors step over the same base line. */
  lemma StepOverLine(line: string, kl: bool, kr: bool, rest: Outcome, base: seq<string>, left: Edit, right: Edit, p: Policy)
    requires EditOf(left, base) && EditOf(right, base) && Correct(rest, base, left, right, p)
    requires !kl && !kr ==> First(left.gaps[0]) == First(right.gaps[0])
    ensures Correct(Then([Item(if kl && kr then Equal else Delete, line)], rest),
                    [line] + base, Edit([kl] + left.kept, [[]] + left.gaps), Edit([kr] + right.kept, [[]] + right.gaps), p)
  {
    OverlapInFront(kl, kr, [], [], left.kept, right.kept, left.gaps, right.gaps);
    ConcurrentInFront([], [], left.gaps, right.gaps);
    if rest.Merged? {
      var m, m' := rest.items, [Item(if kl && kr then Equal else Delete, line)] + rest.items;
      assert m'[1..] == m;
      assert Gaps(m') == [[]] + Gaps(m);
    }
  }

  /** Insertions are taken from one side or from both, without leaving the gap. */
  lemma StepOverInsertion(l: seq<string>, r: seq<string>, pushed: seq<string>, rest: Outcome, base: seq<string>,
                          gl: seq<string>, gr: seq<string>, left: Edit, right: Edit, p: Policy)
    requires |left.kept| == |left.gaps| == |right.kept| == |right.gaps| == |base|
    requires Correct(rest, base, Edit(left.kept, [gl] + left.gaps), Edit(right.kept, [gr] + right.gaps), p)
    requires pushed + MergeGap(gl, gr, p.leftFirst) == MergeGap(l + gl, r + gr, p.leftFirst)
    requires !p.preserve || (DifferSomewhere(l + gl, r + gr) <==> DifferSomewhere(gl, gr))
    ensures Correct(Then(Tagged(Insert, pushed), rest), base, Edit(left.kept, [l + gl] + left.gaps), Edit(right.kept, [r + gr] + right.gaps), p)
  {
    hide IsThreeWayMerge, DeletionsOverlap, ConcurrentInserts, DifferSomewhere, MergeGap;
    OverlapIgnoresFirstGap(left.kept, right.kept, gl, gr, l + gl, r + gr, left.gaps, right.gaps);
    ConcurrentInFront(l + gl, r + gr, left.gaps, right.gaps);
    ConcurrentInFront(gl, gr, left.gaps, right.gaps);
    if rest.Merged? {
      MergedBehindInsertions(l, r, pushed, rest.items, base, gl, gr, left, right, p.leftFirst);
    }
  }

  lemma MergedBehindInsertions(l: seq<string>, r: seq<string>, pushed: seq<string>, items: Diff, base: seq<string>,
                               gl: seq<string>, gr: seq<string>, left: Edit, right: Edit, leftFirst: bool)
    requires |left.kept| == |left.gaps| == |right.kept| == |right.gaps| == |base|
    requires IsThreeWayMerge(items, base, Edit(left.kept, [gl] + left.gaps), Edit(right.kept, [gr] + right.gaps), leftFirst)
    requires pushed + MergeGap(gl, gr, leftFirst) == MergeGap(l + gl, r + gr, leftFirst)
    ensures IsThreeWayMerge(Tagged(Insert, pushed) + items, base, Edit(left.kept, [l + gl] + left.gaps), Edit(right.kept, [r + gr] + right.gaps), leftFirst)
  {
    hide MergeGap, Base, Kept, Gaps, Tagged;
    EditOfInsertions(pushed, items);
    var m := Tagged(Insert, pushed) + items;
    assert Gaps(items)[0] == MergeGap(gl, gr, leftFirst);
    forall g | 0 < g <= |base|
      ensures Gaps(m)[g] == MergeGap(left.gaps[g - 1], right.gaps[g - 1], leftFirst)
    {
      assert Gaps(m)[g] == Gaps(items)[1..][g - 1] == Gaps(items)[g];
      assert ([gl] + left.gaps)[g] == left.gaps[g - 1] && ([gr] + right.gaps)[g] == right.gaps[g - 1];
    }
  }

  /** Insertions put in front of a diff go to its first gap. */
  lemma {:induction false} EditOfInsertions(lines: seq<string>, d: Diff)
    ensures Base(Tagged(Insert, lines) + d) == Base(d) && Kept(Tagged(Insert, lines) + d) == Kept(d)
    ensures Gaps(Tagged(Insert, lines) + d) == [lines + Gaps(d)[0]] + Gaps(d)[1..]
  {
    var d' := Tagged(Insert, lines) + d;
    if lines == [] {
      assert d' == d;
      assert lines + Gaps(d)[0] == Gaps(d)[0];
      assert Gaps(d) == [Gaps(d)[0]] + Gaps(d)[1..];
    } else {
      assert d'[1..] == Tagged(Insert, lines[1..]) + d;
      EditOfInsertions(lines[1..], d);
      assert lines + Gaps(d)[0] == [lines[0]] + (lines[1..] + Gaps(d)[0]);
    }
  }

  // ----- the theorem -----

  function Rest(d: Diff): Diff {
    if Head(d).op == Insert then d[1..] else d
  }

  lemma {:induction false} MergeIsCorrect(left: Diff, right: Diff, p: Policy)
    requires Aligned(left, right)
    ensures Correct(Merge(left, right, p), Base(left), EditIn(left), EditIn(right), p)
    decreases |left| + |right|
  {
    if left == [] && right == [] {
    } else if Head(left).op == Insert || Head(right).op == Insert {
      EditOfRest(left);
      EditOfRest(right);
      MergeIsCorrect(Rest(left), Rest(right), p);
      MergeIsCorrectAtInsertion(left, right, p);
    } else {
      assert Base(left) != [] && Base(right) != [] && left != [] && right != [];
      assert Base(left[1..]) == Base(left)[1..] == Base(right)[1..] == Base(right[1..]);
      MergeIsCorrect(left[1..], right[1..], p);
      MergeIsCorrectAtLine(left, right, p);
    }
  }

  lemma EditAtLine(d: Diff)
    requires d != [] && d[0].op != Insert
    ensures Base(d) == [d[0].text] + Base(d[1..]) && Base(d)[0] == d[0].text
    ensures Kept(d) == [d[0].op == Equal] + Kept(d[1..]) && Gaps(d) == [[]] + Gaps(d[1..])
  {
  }

  lemma MergeAtLine(left: Diff, right: Diff, p: Policy)
    requires left != [] && right != [] && left[0].op != Insert && right[0].op != Insert && left[0].text == right[0].text
    ensures Merge(left, right, p) ==
            if left[0].op == Delete && right[0].op == Delete && GoOnDifferently(left[1..], right[1..]) then Refused(DeletionOverlap)
            else Then([Item(if left[0].op == Equal && right[0].op == Equal then Equal else Delete, left[0].text)], Merge(left[1..], right[1..], p))
  {
  }

  lemma MergeIsCorrectAtLine(left: Diff, right: Diff, p: Policy)
    requires left != [] && right != [] && left[0].op != Insert && right[0].op != Insert
    requires Base(left) == Base(right) && Base(left[1..]) == Base(right[1..])
    requires Correct(Merge(left[1..], right[1..], p), Base(left[1..]), EditIn(left[1..]), EditIn(right[1..]), p)
    ensures Correct(Merge(left, right, p), Base(left), EditIn(left), EditIn(right), p)
  {
    var l, r, left', right' := left[0], right[0], left[1..], right[1..];
    EditAtLine(left);
    EditAtLine(right);
    assert l.text == r.text;
    FirstInsertion(left');
    FirstInsertion(right');
    MergeAtLine(left, right, p);
    hide Merge, Base, Kept, Gaps, IsThreeWayMerge, ConcurrentInserts;
    if l.op == Delete && r.op == Delete && GoOnDifferently(left', right') {
      OverlapInFront(false, false, [], [], Kept(left'), Kept(right'), Gaps(left'), Gaps(right'));
    } else {
      StepOverLine(l.text, l.op == Equal, r.op == Equal, Merge(left', right', p), Base(left'), EditIn(left'), EditIn(right'), p);
    }
  }

  lemma FirstInsertion(d: Diff)
    ensures First(Gaps(d)[0]) == if Head(d).op == Insert then [Head(d).text] else []
  {
  }

  /** The leading insertion of a diff, if it has one, and the diff without it. */
  function Leading(d: Diff): seq<string> {
    if Head(d).op == Insert then [d[0].text] else []
  }

  lemma EditOfRest(d: Diff)
    ensures Base(Rest(d)) == Base(d) && Kept(Rest(d)) == Kept(d)
    ensures Gaps(d) == [Leading(d) + Gaps(Rest(d))[0]] + Gaps(Rest(d))[1..]
    ensures Leading(d) == [] ==> Gaps(Rest(d))[0] == []
  {
    var gaps := Gaps(Rest(d));
    assert gaps == [gaps[0]] + gaps[1..];
    assert [] + gaps[0] == gaps[0];
  }

  /** What is pushed when at least one cursor is at an insertion. */
  function Pushed(l: seq<string>, r: seq<string>, leftFirst: bool): seq<string> {
    if l == [] then r else if r == [] || l == r then l else if leftFirst then l + r else r + l
  }

  lemma MergeAtInsertion(left: Diff, right: Diff, p: Policy)
    requires Head(left).op == Insert || Head(right).op == Insert
    ensures Merge(left, right, p) ==
            if Leading(left) != [] && Leading(right) != [] && Leading(left) != Leading(right) && p.preserve
            then Refused(ConcurrentInsertion)
            else Then(Tagged(Insert, Pushed(Leading(left), Leading(right), p.leftFirst)), Merge(Rest(left), Rest(right), p))
  {
    var l, r := Leading(left), Leading(right);
    if l != [] && r != [] {
      assert Tagged(Insert, l) == [left[0]] && Tagged(Insert, r) == [right[0]];
      assert Tagged(Insert, l + r) == [left[0], right[0]] && Tagged(Insert, r + l) == [right[0], left[0]];
    } else if l != [] {
      assert Tagged(Insert, l) == [left[0]];
    } else {
      assert Tagged(Insert, r) == [right[0]];
    }
  }

  lemma MergeIsCorrectAtInsertion(left: Diff, right: Diff, p: Policy)
    requires Base(left) == Base(right) == Base(Rest(left)) == Base(Rest(right))
    requires Head(left).op == Insert || Head(right).op == Insert
    requires Correct(Merge(Rest(left), Rest(right), p), Base(left), EditIn(Rest(left)), EditIn(Rest(right)), p)
    ensures Correct(Merge(left, right, p), Base(left), EditIn(left), EditIn(right), p)
  {
    var rest := Merge(Rest(left), Rest(right), p);
    EditOfRest(left);
    EditOfRest(right);
    MergeAtInsertion(left, right, p);
    InsertionKeepsCorrect(Leading(left), Leading(right), rest, Base(left), EditIn(Rest(left)), EditIn(Rest(right)), p);
  }

  lemma InsertionKeepsCorrect(l: seq<string>, r: seq<string>, rest: Outcome, base: seq<string>, left: Edit, right: Edit, p: Policy)
    requires EditOf(left, base) && EditOf(right, base) && Correct(rest, base, left, right, p)
    requires |l| <= 1 && |r| <= 1 && (l == [] ==> left.gaps[0] == []) && (r == [] ==> right.gaps[0] == [])
    ensures var refused := l != [] && r != [] && l != r && p.preserve;
            Correct(if refused then Refused(ConcurrentInsertion) else Then(Tagged(Insert, Pushed(l, r, p.leftFirst)), rest), base,
                    left.(gaps := [l + left.gaps[0]] + left.gaps[1..]), right.(gaps := [r + right.gaps[0]] + right.gaps[1..]), p)
  {
    var gl, gr := left.gaps[0], right.gaps[0];
    assert left.gaps == [gl] + left.gaps[1..] && right.gaps == [gr] + right.gaps[1..];
    if l != [] && r != [] {
      DifferInFront(l[0], r[0], gl, gr);
    }
    if l != [] && r != [] && l != r && p.preserve {
      assert (l + gl)[0] != (r + gr)[0];
      ConcurrentInFront(l + gl, r + gr, left.gaps[1..], right.gaps[1..]);
    } else {
      PushOntoGap(l, r, gl, gr, p.leftFirst);
      StepOverInsertion(l, r, Pushed(l, r, p.leftFirst), rest, base, gl, gr,
                        Edit(left.kept, left.gaps[1..]), Edit(right.kept, right.gaps[1..]), p);
    }
  }

  lemma PushOntoGap(l: seq<string>, r: seq<string>, gl: seq<string>, gr: seq<string>, leftFirst: bool)
    requires |l| <= 1 && |r| <= 1 && (l == [] ==> gl == []) && (r == [] ==> gr == [])
    ensures Pushed(l, r, leftFirst) + MergeGap(gl, gr, leftFirst) == MergeGap(l + gl, r + gr, leftFirst)
  {
  }

  // ----- what the theorem means for users -----

  predicate Unchanged(d: Diff) {
    forall item | item in d :: item.op == Equal
  }

  lemma {:induction false} EditOfUnchanged(d: Diff)
    requires Unchanged(d)
    ensures forall i | 0 <= i < |Kept(d)| :: Kept(d)[i]
    ensures forall g | 0 <= g < |Gaps(d)| :: Gaps(d)[g] == []
  {
    if d != [] {
      EditOfUnchanged(d[1..]);
    }
  }

  /** If one side changed nothing, the merge is the other side's diff, whatever the policy. */
  lemma MergeWithUnchangedIsOtherSide(left: Diff, right: Diff, p: Policy)
    requires Aligned(left, right) && (Unchanged(left) || Unchanged(right))
    ensures Merge(left, right, p) == Merged(if Unchanged(right) then left else right)
  {
    MergeIsCorrect(left, right, p);
    var other, same := if Unchanged(right) then left else right, if Unchanged(right) then right else left;
    EditOfUnchanged(same);
    if Merge(left, right, p).Merged? {
      EditDeterminesDiff(Merge(left, right, p).items, other);
    }
  }

  /** Two identical edits merge to that edit. */
  lemma MergeOfEqualEdits(d: Diff, p: Policy)
    requires Aligned(d, d)
    ensures Merge(d, d, p) == Merged(d)
  {
    MergeIsCorrect(d, d, p);
    forall g | 0 <= g < |Gaps(d)|
      ensures MergeGap(Gaps(d)[g], Gaps(d)[g], p.leftFirst) == Gaps(d)[g]
    {
      MergeOfEqualGaps(Gaps(d)[g], p.leftFirst);
    }
    if Merge(d, d, p).Merged? {
      EditDeterminesDiff(Merge(d, d, p).items, d);
    }
  }

  lemma {:induction false} MergeOfEqualGaps(gap: seq<string>, leftFirst: bool)
    ensures MergeGap(gap, gap, leftFirst) == gap
  {
    if gap != [] {
      MergeOfEqualGaps(gap[1..], leftFirst);
    }
  }

  /** Exchanging the sides together with their order changes nothing, aligned or not. */
  lemma {:induction false} MergeIsSymmetric(left: Diff, right: Diff, p: Policy)
    ensures Merge(left, right, p) == Merge(right, left, p.(leftFirst := !p.leftFirst))
    decreases |left| + |right|
  {
    if left != [] || right != [] {
      var l, r := Head(left), Head(right);
      if l.op == Insert && r.op != Insert {
        MergeIsSymmetric(Tail(left), right, p);
      } else if r.op == Insert && l.op != Insert {
        MergeIsSymmetric(left, Tail(right), p);
      } else {
        MergeIsSymmetric(Tail(left), Tail(right), p);
      }
    }
  }

  function PolicyFor(preserve: bool, leftMtime: int, rightMtime: int): Policy {
    Policy(preserve, leftMtime <= rightMtime)
  }

  /**
   * Which device merges does not matter, exactly if the two modification times differ, or the merge is refused,
   * or no gap got different insertions: on equal times each device would put its own insertion first.
   */
  lemma SwappingSidesIff(left: Diff, right: Diff, preserve: bool, leftMtime: int, rightMtime: int)
    requires Aligned(left, right)
    ensures Merge(left, right, PolicyFor(preserve, leftMtime, rightMtime)) == Merge(right, left, PolicyFor(preserve, rightMtime, leftMtime))
       <==> leftMtime != rightMtime || preserve || Overlap(left, right) || !Concurrent(left, right)
  {
    var p := PolicyFor(preserve, leftMtime, rightMtime);
    var p' := PolicyFor(preserve, rightMtime, leftMtime);
    var m, m' := Merge(left, right, p), Merge(right, left, p');
    MergeIsSymmetric(left, right, p);
    if leftMtime == rightMtime {
      var flipped := p.(leftFirst := !p.leftFirst);
      MergeIsSymmetric(left, right, flipped);
      MergeIsCorrect(left, right, p);
      MergeIsCorrect(left, right, flipped);
      if preserve || Overlap(left, right) || !Concurrent(left, right) {
        OrderOnlyMattersForConcurrent(left, right, p);
      } else {
        var g :| 0 <= g < |Gaps(left)| && DifferSomewhere(Gaps(left)[g], Gaps(right)[g]);
        OrderInGapIff(Gaps(left)[g], Gaps(right)[g]);
        assert Gaps(m.items)[g] != Gaps(m'.items)[g];
      }
    }
  }

  /** Two devices put a different first line into an empty text at one time: each merges its own line to the front. */
  lemma EqualTimesLeaveOrderToDevice(mtime: int)
    ensures var mine, theirs, p := Item(Insert, "a"), Item(Insert, "b"), PolicyFor(false, mtime, mtime);
            && Aligned([mine], [theirs])
            && Merge([mine], [theirs], p) == Merged([mine, theirs]) && Merge([theirs], [mine], p) == Merged([theirs, mine])
  {
    var mine, theirs, p := Item(Insert, "a"), Item(Insert, "b"), PolicyFor(false, mtime, mtime);
    assert Merge([], [], p) == Merged([]);
    assert TurnAt([mine], [theirs], p) == Push([mine, theirs], true, true);
    assert TurnAt([theirs], [mine], p) == Push([theirs, mine], true, true);
  }

  /** The order of the sides is only looked at for different insertions in one place. */
  lemma OrderOnlyMattersForConcurrent(left: Diff, right: Diff, p: Policy)
    requires Aligned(left, right) && (p.preserve || Overlap(left, right) || !Concurrent(left, right))
    ensures Merge(left, right, p) == Merge(left, right, p.(leftFirst := !p.leftFirst))
  {
    var p' := p.(leftFirst := !p.leftFirst);
    if p.preserve {
      PreservingIgnoresOrder(left, right, p);
    } else {
      MergeIsCorrect(left, right, p);
      MergeIsCorrect(left, right, p');
      var m, m' := Merge(left, right, p), Merge(left, right, p');
      if m.Merged? {
        forall g | 0 <= g < |Gaps(left)|
          ensures MergeGap(Gaps(left)[g], Gaps(right)[g], true) == MergeGap(Gaps(left)[g], Gaps(right)[g], false)
        {
          OrderInGapIff(Gaps(left)[g], Gaps(right)[g]);
        }
        EditDeterminesDiff(m.items, m'.items);
      }
    }
  }

  lemma {:induction false} PreservingIgnoresOrder(left: Diff, right: Diff, p: Policy)
    requires p.preserve
    ensures Merge(left, right, p) == Merge(left, right, p.(leftFirst := !p.leftFirst))
    decreases |left| + |right|
  {
    if left != [] || right != [] {
      var l, r := Head(left), Head(right);
      PreservingIgnoresOrder(if r.op == Insert && l.op != Insert then left else Tail(left),
                             if l.op == Insert && r.op != Insert then right else Tail(right), p);
    }
  }

  lemma {:induction false} OrderInGapIff(left: seq<string>, right: seq<string>)
    ensures MergeGap(left, right, true) == MergeGap(left, right, false) <==> !DifferSomewhere(left, right)
  {
    if left != [] && right != [] {
      OrderInGapIff(left[1..], right[1..]);
      DifferInFront(left[0], right[0], left[1..], right[1..]);
      assert left == [left[0]] + left[1..] && right == [right[0]] + right[1..];
      var t, f := MergeGap(left, right, true), MergeGap(left, right, false);
      if left[0] == right[0] {
        assert t[1..] == MergeGap(left[1..], right[1..], true);
        assert f[1..] == MergeGap(left[1..], right[1..], false);
      } else {
        assert t[0] != f[0];
      }
    }
  }

  // ----- nothing inserted is lost -----

  ghost predicate Subsequence(small: seq<string>, large: seq<string>) {
    small == [] || (large != [] && ((small[0] == large[0] && Subsequence(small[1..], large[1..])) || Subsequence(small, large[1..])))
  }

  /** A merged gap contains both sides' insertions in order, and no line that neither side inserted. */
  lemma {:induction false} MergedGapKeepsInsertions(left: seq<string>, right: seq<string>, leftFirst: bool)
    ensures Subsequence(left, MergeGap(left, right, leftFirst)) && Subsequence(right, MergeGap(left, right, leftFirst))
    ensures forall line | line in MergeGap(left, right, leftFirst) :: line in left || line in right
  {
    if left == [] {
      SubsequenceOfItself(right);
    } else if right == [] {
      SubsequenceOfItself(left);
    } else {
      var rest := MergeGap(left[1..], right[1..], leftFirst);
      MergedGapKeepsInsertions(left[1..], right[1..], leftFirst);
      if left[0] == right[0] {
        SubsequenceStep(left, [left[0]], rest);
        SubsequenceStep(right, [left[0]], rest);
      } else {
        var pair := if leftFirst then [left[0], right[0]] else [right[0], left[0]];
        SubsequenceStep(left, pair, rest);
        SubsequenceStep(right, pair, rest);
      }
    }
  }

  lemma SubsequenceStep(s: seq<string>, front: seq<string>, rest: seq<string>)
    requires s != [] && s[0] in front && 1 <= |front| <= 2 && Subsequence(s[1..], rest)
    ensures Subsequence(s, front + rest)
  {
    assert (front + rest)[1..] == front[1..] + rest;
    if |front| == 1 {
      assert front[1..] + rest == rest;
    } else {
      assert (front[1..] + rest)[1..] == rest;
      if s[0] == front[0] {
        assert Subsequence(s[1..], front[1..] + rest);
      }
    }
  }

  lemma {:induction false} SubsequenceOfItself(s: seq<string>)
    ensures Subsequence(s, s)
  {
    if s != [] {
      SubsequenceOfItself(s[1..]);
    }
  }

  /** Under preserveConcurrentInserts a merge that succeeds only ever extends: one side's gap is a prefix of the other's. */
  lemma PreservingMergeTakesLongerGap(left: Diff, right: Diff, p: Policy, g: nat)
    requires Aligned(left, right) && p.preserve && Merge(left, right, p).Merged? && g < |Gaps(left)|
    ensures Gaps(left)[g] <= Gaps(right)[g] || Gaps(right)[g] <= Gaps(left)[g]
    ensures var m := Merge(left, right, p).items;
            g < |Gaps(m)| && Gaps(m)[g] == if |Gaps(left)[g]| < |Gaps(right)[g]| then Gaps(right)[g] else Gaps(left)[g]
  {
    MergeIsCorrect(left, right, p);
    var l, r := Gaps(left)[g], Gaps(right)[g];
    MergeOfPrefixes(l, r, p.leftFirst);
  }

  lemma {:induction false} MergeOfPrefixes(l: seq<string>, r: seq<string>, leftFirst: bool)
    requires !DifferSomewhere(l, r)
    ensures l <= r || r <= l
    ensures MergeGap(l, r, leftFirst) == if |l| < |r| then r else l
  {
    if l != [] && r != [] {
      assert l == [l[0]] + l[1..] && r == [r[0]] + r[1..];
      DifferInFront(l[0], r[0], l[1..], r[1..]);
      MergeOfPrefixes(l[1..], r[1..], leftFirst);
    }
  }

  /** The new text an edit makes of its base: the insertions of each gap, and the lines kept between them. */
  function Woven(base: seq<string>, e: Edit): seq<string>
    requires EditOf(e, base)
  {
    if base == [] then e.gaps[0]
    else e.gaps[0] + (if e.kept[0] then [base[0]] else []) + Woven(base[1..], Edit(e.kept[1..], e.gaps[1..]))
  }

  /** So the text stored for a merge, its items without the deletions, is the merged edit of the base. */
  lemma {:induction false} SideIsWoven(d: Diff)
    ensures Side(d) == Woven(Base(d), EditIn(d))
  {
    if d != [] {
      SideIsWoven(d[1..]);
      var rest := EditIn(d[1..]);
      if d[0].op == Insert {
        var gaps := [[d[0].text] + rest.gaps[0]] + rest.gaps[1..];
        WovenWithInsertion(Base(d), rest, d[0].text);
        assert Gaps(d) == gaps;
      } else {
        assert Base(d)[1..] == Base(d[1..]) && Kept(d)[1..] == rest.kept && Gaps(d)[1..] == rest.gaps;
      }
    }
  }

  lemma WovenWithInsertion(base: seq<string>, e: Edit, line: string)
    requires EditOf(e, base)
    ensures Woven(base, e.(gaps := [[line] + e.gaps[0]] + e.gaps[1..])) == [line] + Woven(base, e)
  {
    var e' := e.(gaps := [[line] + e.gaps[0]] + e.gaps[1..]);
    if base != [] {
      assert e'.gaps[1..] == e.gaps[1..];
      var kept := if e.kept[0] then [base[0]] else [];
      var rest := Woven(base[1..], Edit(e.kept[1..], e.gaps[1..]));
      assert [line] + e.gaps[0] + kept + rest == [line] + (e.gaps[0] + kept + rest);
    }
  }

  // ----- mergeSensibly -----

  datatype Leaf = Missing | Leaf(deleted: bool, mtime: int, data: string)

  /** What the differ hands over for two texts: their lines, in blocks, without two deletions in a row. */
  ghost predicate DiffOf(d: Diff, oldText: string, newText: string) {
    && OldText(d) == oldText
    && OldBlocksAreWholeLines(d)
    && NewLines(d) == Lines(newText)
    && NoAdjacentDeletions(d)
  }

  /** `diffLeft` and `diffRight` are the differ's answers; `None` is returned as `Refused` or as `Unavailable`. */
  datatype Verdict = Unavailable | Verdict(outcome: Outcome)

  /** The edit that a diff makes of its old lines, in terms of its blocks. */
  function EditOfBlocks(d: Diff): Edit {
    Edit(KeptLines(d), seq(|OldLines(d)| + 1, place => InsertedAt(d, |d|, place)))
  }

  lemma SplitIsEditOfBlocks(d: Diff)
    requires NoAdjacentDeletions(d)
    ensures EditIn(Split(d)) == EditOfBlocks(d) && EditOf(EditOfBlocks(d), OldLines(d))
  {
    hide Split, Base, Kept, Gaps, OldLines, KeptLines, InsertedAt;
    SplitIsInPlace(d);
    assert Gaps(Split(d)) == EditOfBlocks(d).gaps;
  }

  method MergeSensibly(base: Leaf, left: Leaf, right: Leaf, diffLeft: Diff, diffRight: Diff, preserve: bool)
    returns (verdict: Verdict)
    requires base.Leaf? && left.Leaf? ==> DiffOf(diffLeft, base.data, left.data)
    requires base.Leaf? && right.Leaf? ==> DiffOf(diffRight, base.data, right.data)
    ensures verdict.Unavailable? <==> base.Missing? || left.Missing? || right.Missing? || left.deleted || right.deleted
    ensures verdict.Verdict? ==>
      var l, r := Split(diffLeft), Split(diffRight);
      && Aligned(l, r)
      && Base(l) == Lines(base.data)
      && (Side(l) == Lines(left.data) <==> !EndsInDeletion(diffLeft))
      && (Side(r) == Lines(right.data) <==> !EndsInDeletion(diffRight))
      && EditOf(EditOfBlocks(diffLeft), Lines(base.data)) && EditOf(EditOfBlocks(diffRight), Lines(base.data))
      && Correct(verdict.outcome, Lines(base.data), EditOfBlocks(diffLeft), EditOfBlocks(diffRight), Policy(preserve, left.mtime <= right.mtime))
  {
    if base.Missing? || left.Missing? || right.Missing? {
      return Unavailable;
    }
    if left.deleted || right.deleted {
      return Unavailable;
    }
    var l := SplitDiffPiece(diffLeft);
    var r := SplitDiffPiece(diffRight);
    var outcome := MergeLoop(l, r, PolicyFor(preserve, left.mtime, right.mtime));
    SplitDiffsAreAligned(diffLeft, diffRight);
    MergeIsCorrect(l, r, PolicyFor(preserve, left.mtime, right.mtime));
    SplitSpellsNewTextIff(diffLeft);
    SplitSpellsNewTextIff(diffRight);
    SplitIsEditOfBlocks(diffLeft);
    SplitIsEditOfBlocks(diffRight);
    OldLinesAreLinesOfOldText(diffLeft);
    OldLinesAreLinesOfOldText(diffRight);
    return Verdict(outcome);
  }

  lemma SplitDiffsAreAligned(diffLeft: Diff, diffRight: Diff)
    requires OldBlocksAreWholeLines(diffLeft) && OldBlocksAreWholeLines(diffRight) && OldText(diffLeft) == OldText(diffRight)
    ensures Aligned(Split(diffLeft), Split(diffRight))
    ensures Base(Split(diffLeft)) == Lines(OldText(diffLeft))
  {
    SplitKeepsBothSides(diffLeft);
    SplitKeepsBothSides(diffRight);
    OldLinesAreLinesOfOldText(diffLeft);
    OldLinesAreLinesOfOldText(diffRight);
    SplitHasNoEmptyItem(diffLeft);
    SplitHasNoEmptyItem(diffRight);
  }
}
