/** Line diffs: what `diff_match_patch` hands over, and how `splitDiffPiece` cuts it into single lines. */
module LineDiff {

  datatype Op = Delete | Insert | Equal

  /** One diff entry. Before splitting, `text` is a block of lines; afterwards it is one line. */
  datatype Item = Item(op: Op, text: string)

  type Diff = seq<Item>

  /** The lines of a text, each keeping its line feed; there is no empty line. */
  function Lines(text: string): (lines: seq<string>)
    ensures lines == [] <==> text == ""
  {
    if text == "" then []
    else if text[0] == '\n' then ["\n"] + Lines(text[1..])
    else
      var rest := Lines(text[1..]);
      if rest == [] then [text] else [[text[0]] + rest[0]] + rest[1..]
  }

  function Join(lines: seq<string>): string {
    if lines == [] then "" else lines[0] + Join(lines[1..])
  }

  /** A terminated text can be cut off without merging its last line into what follows. */
  predicate Terminated(text: string) {
    text == "" || text[|text| - 1] == '\n'
  }

  lemma {:induction false} LinesOfConcat(a: string, b: string)
    requires Terminated(a)
    ensures Lines(a + b) == Lines(a) + Lines(b)
  {
    if a == "" {
      assert a + b == b;
    } else {
      assert (a + b)[1..] == a[1..] + b;
      LinesOfConcat(a[1..], b);
    }
  }

  lemma {:induction false} JoinOfLines(text: string)
    ensures Join(Lines(text)) == text
    ensures "" !in Lines(text)
  {
    if text != "" {
      var rest := Lines(text[1..]);
      JoinOfLines(text[1..]);
      assert text == [text[0]] + text[1..];
      if text[0] != '\n' && rest != [] {
        assert Lines(text)[1..] == rest[1..];
      }
    }
  }

  /** A line feed ends a line, and every line but the last has one. */
  lemma {:induction false} LinesEndAtLineFeeds(text: string, i: nat)
    requires i < |Lines(text)|
    ensures var line := Lines(text)[i];
            && line != "" && (forall k | 0 <= k < |line| - 1 :: line[k] != '\n')
            && (i < |Lines(text)| - 1 ==> line[|line| - 1] == '\n')
  {
    var rest := Lines(text[1..]);
    if text[0] == '\n' {
      if i > 0 {
        LinesEndAtLineFeeds(text[1..], i - 1);
      }
    } else if rest == [] {
      assert text == [text[0]];
    } else {
      LinesEndAtLineFeeds(text[1..], i);
    }
  }

  // ----- the two texts a diff spells -----

  /** The lines of the old text: everything that is not inserted. */
  function OldLines(d: Diff): seq<string> {
    if d == [] then []
    else (if d[0].op == Insert then [] else Lines(d[0].text)) + OldLines(d[1..])
  }

  /** The lines of the new text: everything that is not deleted. */
  function NewLines(d: Diff): seq<string> {
    if d == [] then []
    else (if d[0].op == Delete then [] else Lines(d[0].text)) + NewLines(d[1..])
  }

  /** Old side of a diff whose items are single lines. */
  function Base(d: Diff): seq<string> {
    if d == [] then []
    else if d[0].op == Insert then Base(d[1..])
    else [d[0].text] + Base(d[1..])
  }

  /** New side of a diff whose items are single lines. */
  function Side(d: Diff): seq<string> {
    if d == [] then []
    else if d[0].op == Delete then Side(d[1..])
    else [d[0].text] + Side(d[1..])
  }

  /** For each base line, whether the diff keeps it. */
  function Kept(d: Diff): (kept: seq<bool>)
    ensures |kept| == |Base(d)|
  {
    if d == [] then []
    else if d[0].op == Insert then Kept(d[1..])
    else [d[0].op == Equal] + Kept(d[1..])
  }

  /** For each gap between base lines, the lines inserted there: gap `i` is in front of base line `i`. */
  function Gaps(d: Diff): (gaps: seq<seq<string>>)
    ensures |gaps| == |Base(d)| + 1
  {
    if d == [] then [[]]
    else if d[0].op == Insert then
      var rest := Gaps(d[1..]);
      [[d[0].text] + rest[0]] + rest[1..]
    else [[]] + Gaps(d[1..])
  }

  function Tagged(op: Op, lines: seq<string>): (d: Diff)
    ensures |d| == |lines|
  {
    seq(|lines|, i requires 0 <= i < |lines| => Item(op, lines[i]))
  }

  // ----- splitDiffPiece -----

  /** Deleted lines, each followed by the inserted line that may replace it, then the insertions left over. */
  function Paired(deleted: seq<string>, inserted: seq<string>): Diff {
    if deleted == [] then Tagged(Insert, inserted)
    else if inserted == [] then Tagged(Delete, deleted)
    else [Item(Delete, deleted[0]), Item(Insert, inserted[0])] + Paired(deleted[1..], inserted[1..])
  }

  /** What `Split` makes of a deletion and the entry behind it. */
  function DeletionAndNext(d: Item, nd: Item): Diff {
    if nd.op == Insert then Paired(Lines(d.text), Lines(nd.text))
    else Tagged(Delete, Lines(d.text)) + Tagged(nd.op, Lines(nd.text))
  }

  function Split(src: Diff): Diff {
    if src == [] then []
    else if src[0].op != Delete then Tagged(src[0].op, Lines(src[0].text)) + Split(src[1..])
    else if |src| == 1 then Tagged(Equal, Lines(src[0].text))
    else DeletionAndNext(src[0], src[1]) + Split(src[2..])
  }

  /** The lines of a deletion that `Split` meets with nothing behind it, and therefore keeps. */
  function UndeletedTail(src: Diff): seq<string> {
    if src == [] then []
    else if src[0].op != Delete then UndeletedTail(src[1..])
    else if |src| == 1 then Lines(src[0].text)
    else UndeletedTail(src[2..])
  }

  lemma PairedStep(deleted: seq<string>, inserted: seq<string>)
    requires deleted != []
    ensures inserted == [] ==> Paired(deleted, []) == [Item(Delete, deleted[0])] + Paired(deleted[1..], [])
    ensures inserted != [] ==>
      Paired(deleted, inserted) == [Item(Delete, deleted[0]), Item(Insert, inserted[0])] + Paired(deleted[1..], inserted[1..])
  {
    if inserted == [] {
      assert Tagged(Delete, deleted) == [Item(Delete, deleted[0])] + Tagged(Delete, deleted[1..]);
      assert |deleted| == 1 ==> Tagged(Insert, []) == Tagged(Delete, deleted[1..]);
    }
  }

  lemma Associates<T>(a: seq<T>, b: seq<T>, c: seq<T>)
    ensures a + (b + c) == a + b + c && [] + a == a
  {
  }

  lemma OnePairMore(ret: Diff, deleted: seq<string>, i: nat, inserted: seq<string>)
    requires i < |deleted|
    ensures var added := [Item(Delete, deleted[i])] + if inserted == [] then [] else [Item(Insert, inserted[0])];
            ret + Paired(deleted[i..], inserted) == ret + added + Paired(deleted[i + 1..], if inserted == [] then [] else inserted[1..])
  {
    hide Tagged, Paired;
    PairedStep(deleted[i..], inserted);
    assert deleted[i..][1..] == deleted[i + 1..];
    var added, rest := [Item(Delete, deleted[i])] + if inserted == [] then [] else [Item(Insert, inserted[0])],
      Paired(deleted[i + 1..], if inserted == [] then [] else inserted[1..]);
    Associates(ret, added, rest);
  }

  lemma NothingToPair(deleted: seq<string>, inserted: seq<string>)
    requires deleted == []
    ensures Paired(deleted, inserted) == Tagged(Insert, inserted)
  {
  }

  method PairPieces(deleted: seq<string>, inserted: seq<string>) returns (ret: Diff)
    ensures ret == Paired(deleted, inserted)
  {
    hide Tagged, Paired;
    ret := [];
    var piecesPair := inserted;
    var i := 0;
    while i < |deleted|
      invariant 0 <= i <= |deleted|
      invariant ret + Paired(deleted[i..], piecesPair) == Paired(deleted, inserted)
    {
      OnePairMore(ret, deleted, i, piecesPair);
      var added := [Item(Delete, deleted[i])] + if piecesPair == [] then [] else [Item(Insert, piecesPair[0])];
      piecesPair := if piecesPair == [] then [] else piecesPair[1..];
      ret := ret + added;
      i := i + 1;
    }
    NothingToPair(deleted[i..], piecesPair);
    ret := ret + Tagged(Insert, piecesPair);
  }

  // ----- what splitting keeps -----

  lemma {:induction false} SidesOfConcat(a: Diff, b: Diff)
    ensures Base(a + b) == Base(a) + Base(b)
    ensures Side(a + b) == Side(a) + Side(b)
  {
    if a == [] {
      assert a + b == b;
    } else {
      assert (a + b)[1..] == a[1..] + b && (a + b)[0] == a[0];
      SidesOfConcat(a[1..], b);
      ghost var first, rest, more := [a[0].text], Base(a[1..]), Side(a[1..]);
      assert first + (rest + Base(b)) == first + rest + Base(b);
      assert first + (more + Side(b)) == first + more + Side(b);
    }
  }

  lemma {:induction false} SidesOfTagged(op: Op, lines: seq<string>)
    ensures Base(Tagged(op, lines)) == if op == Insert then [] else lines
    ensures Side(Tagged(op, lines)) == if op == Delete then [] else lines
  {
    if lines != [] {
      assert Tagged(op, lines)[1..] == Tagged(op, lines[1..]);
      SidesOfTagged(op, lines[1..]);
    }
  }

  lemma {:induction false} SidesOfPaired(deleted: seq<string>, inserted: seq<string>)
    ensures Base(Paired(deleted, inserted)) == deleted
    ensures Side(Paired(deleted, inserted)) == inserted
  {
    hide Base, Side, Tagged;
    if deleted == [] {
      SidesOfTagged(Insert, inserted);
    } else if inserted == [] {
      SidesOfTagged(Delete, deleted);
    } else {
      SidesOfPaired(deleted[1..], inserted[1..]);
      SidesOfConcat([Item(Delete, deleted[0]), Item(Insert, inserted[0])], Paired(deleted[1..], inserted[1..]));
      SidesOfPair(deleted[0], inserted[0]);
    }
  }

  lemma SidesOfPair(deleted: string, inserted: string)
    ensures var pair := [Item(Delete, deleted), Item(Insert, inserted)]; Base(pair) == [deleted] && Side(pair) == [inserted]
  {
    var d, i := [Item(Delete, deleted)], [Item(Insert, inserted)];
    SidesOfConcat(d, i);
    assert d[1..] == [] && i[1..] == [];
    assert d + i == [Item(Delete, deleted), Item(Insert, inserted)];
  }

  lemma OtherEntryKeepsBothSides(src: Diff)
    requires src != [] && src[0].op != Delete
    requires Base(Split(src[1..])) == OldLines(src[1..])
    requires Side(Split(src[1..])) == NewLines(src[1..]) + UndeletedTail(src[1..])
    ensures Base(Split(src)) == OldLines(src)
    ensures Side(Split(src)) == NewLines(src) + UndeletedTail(src)
  {
    var head, rest := Tagged(src[0].op, Lines(src[0].text)), src[1..];
    SidesOfTagged(src[0].op, Lines(src[0].text));
    SidesOfConcat(head, Split(rest));
    assert Side(head) + (NewLines(rest) + UndeletedTail(rest)) == Side(head) + NewLines(rest) + UndeletedTail(rest);
  }

  /** Splitting keeps the old text, and keeps the new text up to a trailing deletion, whose lines come back. */
  lemma {:induction false} SplitKeepsBothSides(src: Diff)
    ensures Base(Split(src)) == OldLines(src)
    ensures Side(Split(src)) == NewLines(src) + UndeletedTail(src)
  {
    if src == [] {
    } else if src[0].op != Delete {
      SplitKeepsBothSides(src[1..]);
      OtherEntryKeepsBothSides(src);
    } else if |src| == 1 {
      SidesOfTagged(Equal, Lines(src[0].text));
      assert src[1..] == [];
    } else {
      SplitKeepsBothSides(src[2..]);
      DeletionAndNextKeepsBothSides(src);
    }
  }

  lemma DeletionAndNextKeepsBothSides(src: Diff)
    requires |src| > 1 && src[0].op == Delete
    requires Base(Split(src[2..])) == OldLines(src[2..])
    requires Side(Split(src[2..])) == NewLines(src[2..]) + UndeletedTail(src[2..])
    ensures Base(Split(src)) == OldLines(src)
    ensures Side(Split(src)) == NewLines(src) + UndeletedTail(src)
  {
    SidesOfDeletionAndNext(src[0], src[1]);
    LinesOfDeletionAndNext(src);
    var rest := src[2..];
    BlockKeepsBothSides(DeletionAndNext(src[0], src[1]), Split(rest), OldLines(rest), NewLines(rest), UndeletedTail(rest));
  }

  lemma BlockKeepsBothSides(head: Diff, tail: Diff, oldTail: seq<string>, newTail: seq<string>, undeleted: seq<string>)
    requires Base(tail) == oldTail && Side(tail) == newTail + undeleted
    ensures Base(head + tail) == Base(head) + oldTail
    ensures Side(head + tail) == Side(head) + newTail + undeleted
  {
    SidesOfConcat(head, tail);
    assert Side(head) + (newTail + undeleted) == Side(head) + newTail + undeleted;
  }

  lemma SidesOfDeletionAndNext(d: Item, nd: Item)
    ensures Base(DeletionAndNext(d, nd)) == Lines(d.text) + if nd.op == Insert then [] else Lines(nd.text)
    ensures Side(DeletionAndNext(d, nd)) == if nd.op == Delete then [] else Lines(nd.text)
  {
    if nd.op == Insert {
      SidesOfPaired(Lines(d.text), Lines(nd.text));
    } else {
      SidesOfTagged(Delete, Lines(d.text));
      SidesOfTagged(nd.op, Lines(nd.text));
      SidesOfConcat(Tagged(Delete, Lines(d.text)), Tagged(nd.op, Lines(nd.text)));
    }
  }

  lemma LinesOfDeletionAndNext(src: Diff)
    requires |src| > 1 && src[0].op == Delete
    ensures OldLines(src) == Lines(src[0].text) + (if src[1].op == Insert then [] else Lines(src[1].text)) + OldLines(src[2..])
    ensures NewLines(src) == (if src[1].op == Delete then [] else Lines(src[1].text)) + NewLines(src[2..])
  {
    assert src[1..][1..] == src[2..];
    assert src[1..][0] == src[1];
  }

  /** What the differ promises: no two deletions in a row. */
  predicate NoAdjacentDeletions(src: Diff) {
    forall i | 0 < i < |src| :: !(src[i - 1].op == Delete && src[i].op == Delete)
  }

  predicate EndsInDeletion(src: Diff) {
    src != [] && src[|src| - 1].op == Delete && src[|src| - 1].text != ""
  }

  lemma {:induction false} UndeletedTailIsLastDeletion(src: Diff)
    requires NoAdjacentDeletions(src)
    ensures UndeletedTail(src) == if EndsInDeletion(src) then Lines(src[|src| - 1].text) else []
  {
    if src == [] {
    } else if src[0].op != Delete {
      UndeletedTailIsLastDeletion(src[1..]);
    } else if |src| > 1 {
      UndeletedTailIsLastDeletion(src[2..]);
    }
  }

  /**
   * The split diff spells the edited text exactly when the diff does not end in a deletion. A side that only
   * removed its last lines therefore has them back before any merging starts.
   */
  lemma SplitSpellsNewTextIff(src: Diff)
    requires NoAdjacentDeletions(src)
    ensures Side(Split(src)) == NewLines(src) <==> !EndsInDeletion(src)
  {
    SplitKeepsBothSides(src);
    UndeletedTailIsLastDeletion(src);
    if EndsInDeletion(src) {
      assert |Side(Split(src))| > |NewLines(src)|;
    }
  }

  // ----- where each line goes, in terms of the blocks -----

  /** For each old line, whether its block is kept: only a deletion that ends the diff is kept like an unchanged block. */
  function KeptLines(src: Diff): seq<bool> {
    if src == [] then []
    else (if src[0].op == Insert then [] else seq(|Lines(src[0].text)|, _ => src[0].op == Equal || |src| == 1)) + KeptLines(src[1..])
  }

  /**
   * How many old lines stand in front of the `j`-th line of an insertion that has `behind` old lines in front of it,
   * the last `deleted` of which are those of a deletion right in front of it: line `j` goes behind deleted line `j`, as
   * long as there is one.
   */
  function PlaceOf(behind: int, deleted: int, j: nat): int {
    if j < deleted then behind - deleted + j + 1 else behind
  }

  /** The lines from the `j`-th on that go to one place. */
  function Placed(lines: seq<string>, j: nat, behind: int, deleted: int, place: int): seq<string>
    decreases |lines| - j
  {
    if j >= |lines| then []
    else (if PlaceOf(behind, deleted, j) == place then [lines[j]] else []) + Placed(lines, j + 1, behind, deleted, place)
  }

  /** How many lines are deleted right in front of a block. */
  function DeletedInFront(src: Diff, k: nat): nat
    requires k < |src|
  {
    if k > 0 && src[k - 1].op == Delete then |Lines(src[k - 1].text)| else 0
  }

  /** What one block inserts at a place. */
  function BlockAt(src: Diff, k: nat, place: int): seq<string>
    requires k < |src|
  {
    if src[k].op == Insert then Placed(Lines(src[k].text), 0, |OldLines(src[..k])|, DeletedInFront(src, k), place) else []
  }

  /** What the first `k` blocks insert at a place, in their order. */
  function InsertedAt(src: Diff, k: nat, place: int): seq<string>
    requires k <= |src|
  {
    if k == 0 then [] else InsertedAt(src, k - 1, place) + BlockAt(src, k - 1, place)
  }

  /** The split diff keeps the lines of the kept blocks, and every inserted line is where it should be. */
  ghost predicate LinesAreInPlace(src: Diff, d: Diff) {
    && Base(d) == OldLines(src) && Kept(d) == KeptLines(src)
    && forall place | 0 <= place <= |OldLines(src)| :: Gaps(d)[place] == InsertedAt(src, |src|, place)
  }

  /** The gap at a place, and nothing where there is none. */
  function GapAt(d: Diff, place: int): seq<string> {
    if 0 <= place <= |Base(d)| then Gaps(d)[place] else []
  }

  lemma SidesOfItem(item: Item, d: Diff)
    ensures Base([item] + d) == if item.op == Insert then Base(d) else [item.text] + Base(d)
    ensures Kept([item] + d) == if item.op == Insert then Kept(d) else [item.op == Equal] + Kept(d)
    ensures Gaps([item] + d) == if item.op == Insert then [[item.text] + Gaps(d)[0]] + Gaps(d)[1..] else [[]] + Gaps(d)
  {
    assert ([item] + d)[1..] == d;
  }

  lemma GapsOfItem(item: Item, d: Diff, place: int)
    ensures |Base([item] + d)| == |Base(d)| + if item.op == Insert then 0 else 1
    ensures GapAt([item] + d, place) ==
              if item.op == Insert then (if place == 0 then [item.text] else []) + GapAt(d, place) else GapAt(d, place - 1)
  {
    SidesOfItem(item, d);
    hide Base, Kept, Gaps;
    if item.op == Insert && 0 < place <= |Base(d)| {
      assert ([[item.text] + Gaps(d)[0]] + Gaps(d)[1..])[place] == Gaps(d)[place];
    }
  }

  lemma {:induction false} KeptOfConcat(a: Diff, b: Diff)
    ensures Kept(a + b) == Kept(a) + Kept(b)
  {
    if a == [] {
      assert a + b == b;
    } else {
      assert (a + b)[1..] == a[1..] + b && (a + b)[0] == a[0];
      KeptOfConcat(a[1..], b);
      Associates([a[0].op == Equal], Kept(a[1..]), Kept(b));
    }
  }

  lemma {:induction false} GapsOfConcat(a: Diff, b: Diff, place: int)
    ensures GapAt(a + b, place) == GapAt(a, place) + GapAt(b, place - |Base(a)|)
  {
    assert Base([]) == [] && GapAt([], place) == [];
    hide Base, Kept, Gaps, GapAt;
    if a == [] {
      assert a + b == b && [] + GapAt(b, place) == GapAt(b, place);
    } else {
      var rest, next := a[1..], if a[0].op == Insert then place else place - 1;
      assert a == [a[0]] + rest;
      assert a + b == [a[0]] + (rest + b);
      GapsOfConcat(rest, b, next);
      var front, back := GapAt(rest, next), GapAt(b, next - |Base(rest)|);
      GapsOfItem(a[0], rest, place);
      GapsOfItem(a[0], rest + b, place);
      assert GapAt(b, place - |Base(a)|) == back;
      Associates(if place == 0 then [a[0].text] else [], front, back);
    }
  }

  lemma {:induction false} GapsOfTagged(op: Op, lines: seq<string>, place: int)
    ensures Kept(Tagged(op, lines)) == if op == Insert then [] else seq(|lines|, _ => op == Equal)
    ensures Base(Tagged(op, lines)) == if op == Insert then [] else lines
    ensures GapAt(Tagged(op, lines), place) == if op == Insert && place == 0 then lines else []
  {
    if lines != [] {
      assert Tagged(op, lines)[1..] == Tagged(op, lines[1..]);
      GapsOfTagged(op, lines[1..], if op == Insert then place else place - 1);
      assert lines == [lines[0]] + lines[1..];
    }
  }

  lemma {:induction false} AllInOnePlace(lines: seq<string>, j: nat, behind: int, place: int)
    requires j <= |lines|
    ensures Placed(lines, j, behind, 0, place) == if place == behind then lines[j..] else []
    decreases |lines| - j
  {
    if j < |lines| {
      AllInOnePlace(lines, j + 1, behind, place);
      assert lines[j..] == [lines[j]] + lines[j + 1..];
    }
  }

  lemma {:induction false} PlacedBehindFirst(lines: seq<string>, j: nat, behind: int, deleted: int, place: int)
    requires lines != []
    ensures Placed(lines, j + 1, behind, deleted, place) == Placed(lines[1..], j, behind - 1, deleted - 1, place - 1)
    decreases |lines| - j
  {
    if j + 1 < |lines| {
      PlacedBehindFirst(lines, j + 1, behind, deleted, place);
    }
  }

  lemma {:induction false} PlacesOfPaired(deleted: seq<string>, inserted: seq<string>, place: int)
    ensures Kept(Paired(deleted, inserted)) == seq(|deleted|, _ => false)
    ensures GapAt(Paired(deleted, inserted), place) == Placed(inserted, 0, |deleted|, |deleted|, place)
  {
    hide Base, Kept, GapAt, Tagged, PlaceOf;
    if deleted == [] {
      GapsOfTagged(Insert, inserted, place);
      AllInOnePlace(inserted, 0, 0, place);
    } else if inserted == [] {
      GapsOfTagged(Delete, deleted, place);
    } else {
      PlacesOfPaired(deleted[1..], inserted[1..], place - 1);
      PlacesOfFirstPair(deleted, inserted, Paired(deleted[1..], inserted[1..]), place);
    }
  }

  lemma PlacesOfFirstPair(deleted: seq<string>, inserted: seq<string>, rest: Diff, place: int)
    requires deleted != [] && inserted != [] && Kept(rest) == seq(|deleted| - 1, _ => false)
    requires GapAt(rest, place - 1) == Placed(inserted[1..], 0, |deleted| - 1, |deleted| - 1, place - 1)
    ensures var d := [Item(Delete, deleted[0]), Item(Insert, inserted[0])] + rest;
            Kept(d) == seq(|deleted|, _ => false) && GapAt(d, place) == Placed(inserted, 0, |deleted|, |deleted|, place)
  {
    hide Base, Kept, GapAt;
    var first := [Item(Delete, deleted[0]), Item(Insert, inserted[0])];
    FirstPair(deleted[0], inserted[0], place);
    KeptOfConcat(first, rest);
    GapsOfConcat(first, rest, place);
    PlacedBehindFirst(inserted, 0, |deleted|, |deleted|, place);
  }

  lemma FirstPair(deleted: string, inserted: string, place: int)
    ensures var pair := [Item(Delete, deleted), Item(Insert, inserted)];
            Base(pair) == [deleted] && Kept(pair) == [false] && GapAt(pair, place) == if place == 1 then [inserted] else []
  {
    var d, i := Item(Delete, deleted), Item(Insert, inserted);
    assert [i] + [] == [i] && [d] + [i] == [d, i];
    SidesOfItem(i, []);
    SidesOfItem(d, [i]);
    GapsOfItem(i, [], place - 1);
    GapsOfItem(d, [i], place);
  }

  lemma {:induction false} PlacedFurther(lines: seq<string>, j: nat, behind: int, deleted: int, place: int, further: int)
    ensures Placed(lines, j, behind + further, deleted, place) == Placed(lines, j, behind, deleted, place - further)
    decreases |lines| - j
  {
    if j < |lines| {
      PlacedFurther(lines, j + 1, behind, deleted, place, further);
    }
  }

  lemma {:induction false} OldLinesOfConcat(a: Diff, b: Diff)
    ensures OldLines(a + b) == OldLines(a) + OldLines(b)
  {
    if a == [] {
      assert a + b == b;
    } else {
      assert (a + b)[1..] == a[1..] + b && (a + b)[0] == a[0];
      OldLinesOfConcat(a[1..], b);
      Associates(if a[0].op == Insert then [] else Lines(a[0].text), OldLines(a[1..]), OldLines(b));
    }
  }

  lemma BlockBehind(src: Diff, c: nat, k: nat, place: int)
    requires c + k < |src| && (c == 0 || src[c - 1].op != Delete)
    ensures BlockAt(src, c + k, place) == BlockAt(src[c..], k, place - |OldLines(src[..c])|)
  {
    hide OldLines, Lines, Placed;
    assert src[..c + k] == src[..c] + src[c..][..k];
    OldLinesOfConcat(src[..c], src[c..][..k]);
    assert DeletedInFront(src, c + k) == DeletedInFront(src[c..], k);
    PlacedFurther(Lines(src[c + k].text), 0, |OldLines(src[c..][..k])|, DeletedInFront(src, c + k), place, |OldLines(src[..c])|);
  }

  lemma OneMoreBlock(src: Diff, k: nat, place: int)
    requires k < |src|
    ensures InsertedAt(src, k + 1, place) == InsertedAt(src, k, place) + BlockAt(src, k, place)
  {
  }

  lemma NothingInserted(src: Diff, place: int)
    ensures InsertedAt(src, 0, place) == []
  {
  }

  /** Behind a block that is no deletion, the places are those of the rest, moved by the old lines in front of it. */
  lemma {:induction false} InsertedBehind(src: Diff, c: nat, m: nat, place: int)
    requires c + m <= |src| && (c == 0 || src[c - 1].op != Delete)
    ensures InsertedAt(src, c + m, place) == InsertedAt(src, c, place) + InsertedAt(src[c..], m, place - |OldLines(src[..c])|)
    decreases m
  {
    hide OldLines, BlockAt, InsertedAt;
    var place' := place - |OldLines(src[..c])|;
    if m == 0 {
      NothingInserted(src[c..], place');
    } else {
      InsertedBehind(src, c, m - 1, place);
      BlockBehind(src, c, m - 1, place);
      OneMoreBlock(src, c + m - 1, place);
      OneMoreBlock(src[c..], m - 1, place');
      Associates(InsertedAt(src, c, place), InsertedAt(src[c..], m - 1, place'), BlockAt(src, c + m - 1, place));
    }
  }

  /** The head of a split, and its rest. */
  lemma PlacesInTurn(src: Diff, c: nat, head: Diff, tail: Diff, place: int)
    requires c <= |src| && (c == 0 || src[c - 1].op != Delete)
    requires Base(head) == OldLines(src[..c]) && GapAt(head, place) == InsertedAt(src, c, place)
    requires Kept(head) + KeptLines(src[c..]) == KeptLines(src) && Base(tail) == OldLines(src[c..]) && Kept(tail) == KeptLines(src[c..])
    requires GapAt(tail, place - |Base(head)|) == InsertedAt(src[c..], |src| - c, place - |Base(head)|)
    ensures Base(head + tail) == OldLines(src) && Kept(head + tail) == KeptLines(src) && GapAt(head + tail, place) == InsertedAt(src, |src|, place)
  {
    hide *;
    SidesOfConcat(head, tail);
    KeptOfConcat(head, tail);
    GapsOfConcat(head, tail, place);
    InsertedBehind(src, c, |src| - c, place);
    assert src[..c] + src[c..] == src;
    OldLinesOfConcat(src[..c], src[c..]);
  }

  lemma LinesOfOneBlock(src: Diff)
    requires src != [] && (src[0].op != Delete || |src| == 1)
    ensures OldLines(src[..1]) == if src[0].op == Insert then [] else Lines(src[0].text)
    ensures KeptLines(src) == (if src[0].op == Insert then [] else seq(|Lines(src[0].text)|, _ => true)) + KeptLines(src[1..])
    ensures OldLines(src[..0]) == []
  {
    hide Lines;
    assert src[..1] == [src[0]] && src[..1][1..] == [] && src[..0] == [];
  }

  lemma PlacesOfBlock(src: Diff, place: int)
    requires src != [] && (src[0].op != Delete || |src| == 1)
    ensures var head := Tagged(if src[0].op == Delete then Equal else src[0].op, Lines(src[0].text));
            && Base(head) == OldLines(src[..1]) && Kept(head) + KeptLines(src[1..]) == KeptLines(src)
            && GapAt(head, place) == InsertedAt(src, 1, place)
  {
    hide Lines, OldLines, KeptLines, Base, Kept, Gaps, Placed, Tagged;
    var lines := Lines(src[0].text);
    LinesOfOneBlock(src);
    GapsOfTagged(if src[0].op == Delete then Equal else src[0].op, lines, place);
    AllInOnePlace(lines, 0, 0, place);
    assert InsertedAt(src, 0, place) == [];
  }

  lemma LinesOfTwoBlocks(src: Diff)
    requires |src| > 1 && src[0].op == Delete && src[1].op != Delete
    ensures OldLines(src[..1]) == Lines(src[0].text)
    ensures OldLines(src[..2]) == Lines(src[0].text) + if src[1].op == Insert then [] else Lines(src[1].text)
    ensures KeptLines(src) == seq(|Lines(src[0].text)|, _ => false)
                              + (if src[1].op == Insert then [] else seq(|Lines(src[1].text)|, _ => true)) + KeptLines(src[2..])
  {
    hide Lines;
    assert src[..1] == [src[0]] && src[..1][1..] == [];
    assert src[..2] == [src[0], src[1]] && src[..2][1..] == [src[1]] && [src[1]][1..] == [];
    assert src[1..][1..] == src[2..];
    Associates(seq(|Lines(src[0].text)|, _ => false), if src[1].op == Insert then [] else seq(|Lines(src[1].text)|, _ => true), KeptLines(src[2..]));
  }

  lemma InsertedInTwoBlocks(src: Diff, place: int)
    requires |src| > 1 && src[0].op == Delete
    ensures var deleted := |Lines(src[0].text)|;
            InsertedAt(src, 2, place) == if src[1].op == Insert then Placed(Lines(src[1].text), 0, deleted, deleted, place) else []
  {
    LinesOfFirstBlock(src);
    hide Lines, OldLines, Placed;
    assert InsertedAt(src, 0, place) == [] && InsertedAt(src, 1, place) == [];
  }

  lemma LinesOfFirstBlock(src: Diff)
    requires src != [] && src[0].op != Insert
    ensures OldLines(src[..1]) == Lines(src[0].text)
  {
    assert src[..1][1..] == [];
  }

  lemma PlacesOfDeletionAndNext(d: Item, nd: Item, place: int)
    requires nd.op != Delete
    ensures var head, deleted, next := DeletionAndNext(d, nd), Lines(d.text), Lines(nd.text);
            && Kept(head) == seq(|deleted|, _ => false) + (if nd.op == Insert then [] else seq(|next|, _ => true))
            && GapAt(head, place) == if nd.op == Insert then Placed(next, 0, |deleted|, |deleted|, place) else []
  {
    hide Base, Kept, GapAt, Lines, Paired, Tagged, Placed;
    var deleted, next := Lines(d.text), Lines(nd.text);
    if nd.op == Insert {
      PlacesOfPaired(deleted, next, place);
      assert seq(|deleted|, _ => false) + [] == seq(|deleted|, _ => false);
    } else {
      GapsOfTagged(Delete, deleted, place);
      GapsOfTagged(Equal, next, place - |deleted|);
      KeptOfConcat(Tagged(Delete, deleted), Tagged(Equal, next));
      GapsOfConcat(Tagged(Delete, deleted), Tagged(Equal, next), place);
    }
  }

  lemma PlacesOfTwoBlocks(src: Diff, place: int)
    requires |src| > 1 && src[0].op == Delete && src[1].op != Delete
    ensures var head := DeletionAndNext(src[0], src[1]);
            && Base(head) == OldLines(src[..2]) && Kept(head) + KeptLines(src[2..]) == KeptLines(src)
            && GapAt(head, place) == InsertedAt(src, 2, place)
  {
    hide *;
    SidesOfDeletionAndNext(src[0], src[1]);
    LinesOfTwoBlocks(src);
    InsertedInTwoBlocks(src, place);
    PlacesOfDeletionAndNext(src[0], src[1], place);
  }

  /**
   * Behind each line of a deletion that is followed by an insertion stands the inserted line of the same number,
   * what is inserted beyond that stands behind the last deleted line, and all other insertions stand behind the lines
   * in front of them.
   */
  lemma {:induction false} SplitPlacesLines(src: Diff, place: int)
    requires NoAdjacentDeletions(src)
    ensures Base(Split(src)) == OldLines(src) && Kept(Split(src)) == KeptLines(src) && GapAt(Split(src), place) == InsertedAt(src, |src|, place)
  {
    hide Base, Kept, GapAt, OldLines, KeptLines, Lines, Paired, InsertedAt;
    if src == [] {
      NothingToSplit(place);
    } else if src[0].op != Delete || |src| == 1 {
      var head := Tagged(if src[0].op == Delete then Equal else src[0].op, Lines(src[0].text));
      PlacesOfBlock(src, place);
      if |src| == 1 {
        OneBlockOnly(src, head, place);
      } else {
        SplitPlacesLines(src[1..], place - |Base(head)|);
        PlacesInTurn(src, 1, head, Split(src[1..]), place);
      }
    } else {
      var head := DeletionAndNext(src[0], src[1]);
      PlacesOfTwoBlocks(src, place);
      SplitPlacesLines(src[2..], place - |Base(head)|);
      PlacesInTurn(src, 2, head, Split(src[2..]), place);
    }
  }

  lemma NothingToSplit(place: int)
    ensures Base([]) == [] && Kept([]) == [] && OldLines([]) == [] && KeptLines([]) == [] && GapAt([], place) == [] == InsertedAt([], 0, place)
  {
  }

  lemma OneBlockOnly(src: Diff, head: Diff, place: int)
    requires |src| == 1 && Split(src) == head + []
    requires Base(head) == OldLines(src[..1]) && Kept(head) + KeptLines(src[1..]) == KeptLines(src) && GapAt(head, place) == InsertedAt(src, 1, place)
    ensures Base(Split(src)) == OldLines(src) && Kept(Split(src)) == KeptLines(src) && GapAt(Split(src), place) == InsertedAt(src, |src|, place)
  {
    hide Base, Kept, GapAt, OldLines, Lines, InsertedAt;
    assert src[..1] == src && src[1..] == [] && head + [] == head;
    assert Kept(head) + [] == Kept(head);
  }

  lemma SplitIsInPlace(src: Diff)
    requires NoAdjacentDeletions(src)
    ensures LinesAreInPlace(src, Split(src))
  {
    SplitPlacesLines(src, 0);
    forall place | 0 <= place <= |OldLines(src)|
      ensures Gaps(Split(src))[place] == InsertedAt(src, |src|, place)
    {
      SplitPlacesLines(src, place);
    }
  }

  method SplitDiffPiece(src: Diff) returns (ret: Diff)
    ensures ret == Split(src)
    ensures NoAdjacentDeletions(src) ==> LinesAreInPlace(src, ret)
  {
    hide Lines, Paired, Tagged, LinesAreInPlace, NoAdjacentDeletions;
    if NoAdjacentDeletions(src) {
      SplitIsInPlace(src);
    }
    var rest := src;
    ret := [];
    while rest != []
      invariant ret + Split(rest) == Split(src)
      decreases |rest|
    {
      var d, before, pieces := rest[0], rest, Lines(rest[0].text);
      var added;
      if d.op != Delete {
        added, rest := Tagged(d.op, pieces), rest[1..];
      } else if |rest| == 1 {
        added, rest := Tagged(Equal, pieces), [];
      } else {
        var nd, piecesPair := rest[1], Lines(rest[1].text);
        if nd.op == Insert {
          added := PairPieces(pieces, piecesPair);
        } else {
          added := Tagged(Delete, pieces) + Tagged(nd.op, piecesPair);
        }
        rest := rest[2..];
      }
      ghost var front, tail := ret, Split(rest);
      assert Split(before) == added + tail;
      assert front + (added + tail) == front + added + tail;
      ret := ret + added;
    }
  }

  lemma TrailingDeletionIsUndone()
    ensures var src := [Item(Equal, "keep\n"), Item(Delete, "drop\n")];
            NewLines(src) == ["keep\n"] && Split(src) == [Item(Equal, "keep\n"), Item(Equal, "drop\n")]
  {
    var src := [Item(Equal, "keep\n"), Item(Delete, "drop\n")];
    LinesOfLine("keep\n");
    LinesOfLine("drop\n");
    assert src[1..] == [Item(Delete, "drop\n")];
    assert src[1..][1..] == [];
    assert Split(src[1..]) == Tagged(Equal, ["drop\n"]) == [Item(Equal, "drop\n")];
    assert Tagged(Equal, ["keep\n"]) == [Item(Equal, "keep\n")];
  }

  /** A text with one line feed, at its end, is one line. */
  lemma {:induction false} LinesOfLine(line: string)
    requires line != "" && line[|line| - 1] == '\n'
    requires forall i | 0 <= i < |line| - 1 :: line[i] != '\n'
    ensures Lines(line) == [line]
  {
    if |line| == 1 {
      assert line == "\n";
    } else {
      LinesOfLine(line[1..]);
      assert line == [line[0]] + line[1..];
    }
  }

  // ----- from the texts the differ was given to the lines the merge loop walks -----

  function OldText(d: Diff): string {
    if d == [] then "" else (if d[0].op == Insert then "" else d[0].text) + OldText(d[1..])
  }

  /** The differ works on whole lines: only the block that ends the old text may lack its line feed. */
  ghost predicate OldBlocksAreWholeLines(d: Diff) {
    forall i | 0 <= i < |d| && d[i].op != Insert && OldText(d[i + 1..]) != "" :: Terminated(d[i].text)
  }

  /** Both diffs of one base therefore walk the same lines, however the differ blocked them. */
  lemma {:induction false} OldLinesAreLinesOfOldText(d: Diff)
    requires OldBlocksAreWholeLines(d)
    ensures OldLines(d) == Lines(OldText(d))
  {
    if d != [] {
      var rest := d[1..];
      forall i | 0 <= i < |rest| && rest[i].op != Insert && OldText(rest[i + 1..]) != ""
        ensures Terminated(rest[i].text)
      {
        assert d[i + 1..][1..] == rest[i + 1..] == d[i + 2..];
        assert rest[i] == d[i + 1];
      }
      OldLinesAreLinesOfOldText(rest);
      if d[0].op == Insert {
        assert OldText(d) == OldText(rest);
      } else if OldText(rest) == "" {
        assert OldText(d) == d[0].text;
      } else {
        assert d[0 + 1..] == rest;
        LinesOfConcat(d[0].text, OldText(rest));
      }
    }
  }

  lemma {:induction false} SplitHasNoEmptyItem(src: Diff)
    ensures forall item | item in Split(src) :: item.text != ""
  {
    if src != [] {
      JoinOfLines(src[0].text);
      if src[0].op != Delete {
        SplitHasNoEmptyItem(src[1..]);
      } else if |src| > 1 {
        SplitHasNoEmptyItem(src[2..]);
        JoinOfLines(src[1].text);
        PairedHasNoEmptyItem(Lines(src[0].text), Lines(src[1].text));
      }
    }
  }

  lemma {:induction false} PairedHasNoEmptyItem(deleted: seq<string>, inserted: seq<string>)
    requires "" !in deleted && "" !in inserted
    ensures forall item | item in Paired(deleted, inserted) :: item.text != ""
  {
    if deleted != [] && inserted != [] {
      PairedHasNoEmptyItem(deleted[1..], inserted[1..]);
    }
  }
}
