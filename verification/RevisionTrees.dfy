/** Revision trees, the base an automatic merge starts from, and what garbage collection keeps for it. */
module RevisionTrees {

  import opened ChangesFeed
  import opened ConflictOrder
  import opened Options

  type ChunkId = string

  /** A stored revision; `children` is missing in a document that has no list of chunks. */
  datatype Node = Node(parent: Option<RevisionId>, available: bool, children: Option<set<ChunkId>>)

  type Tree = map<RevisionId, Node>

  predicate IsTree(tree: Tree) {
    forall r | r in tree :: tree[r].parent.Some? ==> tree[r].parent.value in tree && tree[r].parent.value.generation < r.generation
  }

  /** An entry of `_revs_info`. */
  datatype Info = Info(rev: RevisionId, available: bool)

  predicate Descending(infos: seq<Info>) {
    forall i, j | 0 <= i < j < |infos| :: infos[i].rev.generation > infos[j].rev.generation
  }

  /** The revisions from a leaf down to the root, as `_revs_info` lists them. */
  function Branch(tree: Tree, leaf: RevisionId): (infos: seq<Info>)
    requires IsTree(tree) && leaf in tree
    ensures infos != [] && infos[0] == Info(leaf, tree[leaf].available) && Descending(infos)
    ensures forall e | e in infos :: e.rev in tree && e.available == tree[e.rev].available
    ensures forall i | 0 < i < |infos| :: tree[infos[i - 1].rev].parent == Some(infos[i].rev)
    decreases leaf.generation
  {
    [Info(leaf, tree[leaf].available)] +
    if tree[leaf].parent.None? then [] else Branch(tree, tree[leaf].parent.value)
  }

  function Filter(infos: seq<Info>, keep: Info -> bool): (kept: seq<Info>)
    ensures forall e :: e in kept <==> e in infos && keep(e)
  {
    if infos == [] then []
    else
      assert infos == [infos[0]] + infos[1..];
      (if keep(infos[0]) then [infos[0]] else []) + Filter(infos[1..], keep)
  }

  /** The head after sorting by descending generation. */
  function Highest(infos: seq<Info>): (h: Option<RevisionId>)
    ensures h.None? <==> infos == []
    ensures h.Some? ==> (exists e :: e in infos && e.rev == h.value)
    ensures h.Some? ==> forall e | e in infos :: e.rev.generation <= h.value.generation
  {
    if infos == [] then None
    else
      assert infos == [infos[0]] + infos[1..];
      var h := Highest(infos[1..]);
      if h.Some? && h.value.generation > infos[0].rev.generation then h
      else
        assert infos[0] in infos;
        Some(infos[0].rev)
  }

  // ----- the common base -----

  function CommonBase(current: seq<Info>, conflicted: seq<Info>): Option<RevisionId> {
    var currentAvailable := set e | e in current && e.available :: e.rev;
    Highest(Filter(conflicted, (e: Info) => e.available && e.rev in currentAvailable))
  }

  predicate IsAvailableIn(r: RevisionId, infos: seq<Info>) {
    Info(r, true) in infos
  }

  /** The base is the one newest revision that both branches still have. */
  lemma CommonBaseIsNewestShared(current: seq<Info>, conflicted: seq<Info>)
    requires Descending(conflicted)
    ensures var base := CommonBase(current, conflicted);
            && (base.None? <==> forall r :: !(IsAvailableIn(r, current) && IsAvailableIn(r, conflicted)))
            && (base.Some? ==>
                  && IsAvailableIn(base.value, current) && IsAvailableIn(base.value, conflicted)
                  && forall r | IsAvailableIn(r, current) && IsAvailableIn(r, conflicted) :: r == base.value || r.generation < base.value.generation)
  {
    var currentAvailable := set e | e in current && e.available :: e.rev;
    var shared := Filter(conflicted, (e: Info) => e.available && e.rev in currentAvailable);
    forall r: RevisionId
      ensures Info(r, true) in shared <==> IsAvailableIn(r, current) && IsAvailableIn(r, conflicted)
    {
      if IsAvailableIn(r, current) {
        assert Info(r, true).rev in currentAvailable;
      }
    }
    if shared != [] {
      assert shared[0] in shared && shared[0] == Info(shared[0].rev, true);
      var e :| e in shared && Some(e.rev) == Highest(shared);
      assert e == Info(e.rev, true);
    }
    assert forall e | e in shared :: e == Info(e.rev, true);
  }

  // ----- what garbage collection keeps -----

  function KeepList(mine: seq<Info>, conflicted: seq<Info>): seq<Info> {
    var differing := Filter(mine, (e: Info) => e !in conflicted) + Filter(conflicted, (e: Info) => e !in mine);
    var same := Filter(mine, (e: Info) => e in conflicted && e.available);
    Filter(differing, (e: Info) => e.available) + if same == [] then [] else [Info(Highest(same).value, true)]
  }

  /** Garbage collection finds the very base that the merge finds, though it looks for it the other way round. */
  lemma BaseIsKept(mine: seq<Info>, conflicted: seq<Info>)
    requires Descending(mine) && Descending(conflicted)
    ensures CommonBase(mine, conflicted).Some? ==> Info(CommonBase(mine, conflicted).value, true) in KeepList(mine, conflicted)
  {
    CommonBaseIsNewestShared(mine, conflicted);
    var base := CommonBase(mine, conflicted);
    if base.Some? {
      var same := Filter(mine, (e: Info) => e in conflicted && e.available);
      assert Info(base.value, true) in same;
      var e :| e in same && Some(e.rev) == Highest(same);
      assert IsAvailableIn(e.rev, mine) && IsAvailableIn(e.rev, conflicted) by {
        assert e == Info(e.rev, true);
      }
    }
  }

  datatype Document = Document(tree: Tree, winner: RevisionId, conflicts: seq<RevisionId>, deleted: bool)

  predicate IsLeaf(tree: Tree, leaf: RevisionId) {
    leaf in tree && forall r | r in tree :: tree[r].parent != Some(leaf)
  }

  predicate IsDocument(d: Document) {
    && IsTree(d.tree)
    && d.winner in d.tree && d.tree[d.winner].available
    && forall c | c in d.conflicts :: IsLeaf(d.tree, c) && c != d.winner
  }

  lemma {:induction false} LeafIsOnNoOtherBranch(tree: Tree, from: RevisionId, leaf: RevisionId)
    requires IsTree(tree) && from in tree && IsLeaf(tree, leaf) && from != leaf
    ensures forall e | e in Branch(tree, from) :: e.rev != leaf
    decreases from.generation
  {
    if tree[from].parent.Some? {
      LeafIsOnNoOtherBranch(tree, tree[from].parent.value, leaf);
    }
  }

  /** A conflicting leaf is not on the branch of the winner, so it is kept. */
  lemma ConflictIsKept(d: Document, c: RevisionId)
    requires IsDocument(d) && c in d.conflicts && d.tree[c].available
    ensures Info(c, true) in KeepList(Branch(d.tree, d.winner), Branch(d.tree, c))
  {
    var mine, conflicted := Branch(d.tree, d.winner), Branch(d.tree, c);
    assert conflicted[0] in conflicted;
    LeafIsOnNoOtherBranch(d.tree, d.winner, c);
    assert Info(c, true) in Filter(conflicted, (e: Info) => e !in mine);
  }

  /** The chunks of the stored revisions among some. */
  function ChildrenOf(tree: Tree, revs: set<RevisionId>): set<ChunkId> {
    set r, chunk | r in revs && r in tree && tree[r].available && tree[r].children.Some? && chunk in tree[r].children.value :: chunk
  }

  lemma NoChildren(tree: Tree)
    ensures ChildrenOf(tree, {}) == {}
  {
  }

  lemma ChildrenOfOneMore(tree: Tree, revs: set<RevisionId>, r: RevisionId)
    ensures ChildrenOf(tree, revs + {r}) == ChildrenOf(tree, revs) + ChildrenOf(tree, {r})
    ensures ChildrenOf(tree, {r}) == if r in tree && tree[r].available && tree[r].children.Some? then tree[r].children.value else {}
  {
  }

  function KeptRevs(d: Document, conflicts: seq<RevisionId>): set<RevisionId>
    requires IsDocument(d) && forall c | c in conflicts :: c in d.conflicts
  {
    set c, e | c in conflicts && e in KeepList(Branch(d.tree, d.winner), Branch(d.tree, c)) :: e.rev
  }

  function UsedBy(d: Document): set<ChunkId>
    requires IsDocument(d)
  {
    if d.tree[d.winner].children.None? || (d.deleted && d.conflicts == []) then {}
    else d.tree[d.winner].children.value + ChildrenOf(d.tree, KeptRevs(d, d.conflicts))
  }

  /** What an automatic merge of the winner with a conflicting leaf reads. */
  function MergeNeeds(d: Document, c: RevisionId): set<ChunkId>
    requires IsDocument(d) && c in d.conflicts
  {
    var base := CommonBase(Branch(d.tree, d.winner), Branch(d.tree, c));
    ChildrenOf(d.tree, {d.winner, c} + if base.Some? then {base.value} else {})
  }

  lemma NeededIsUsed(d: Document, c: RevisionId)
    requires IsDocument(d) && c in d.conflicts && d.tree[d.winner].children.Some?
    ensures MergeNeeds(d, c) <= UsedBy(d)
  {
    hide KeepList, CommonBase;
    var mine, conflicted := Branch(d.tree, d.winner), Branch(d.tree, c);
    var base := CommonBase(mine, conflicted);
    BaseIsKept(mine, conflicted);
    if d.tree[c].available {
      ConflictIsKept(d, c);
      assert Info(c, true).rev in KeptRevs(d, d.conflicts);
    }
    if base.Some? {
      assert Info(base.value, true).rev in KeptRevs(d, d.conflicts);
    }
  }

  /**
   * Everything a merge needs is used, exactly if the winner has a list of chunks: a winner without one
   * makes the collection skip the conflicting leaves, too.
   */
  lemma NeededIsUsedIff(d: Document)
    requires IsDocument(d)
    ensures (forall c | c in d.conflicts :: MergeNeeds(d, c) <= UsedBy(d))
            <==> d.tree[d.winner].children.Some? || forall c | c in d.conflicts :: MergeNeeds(d, c) == {}
  {
    if d.tree[d.winner].children.Some? {
      forall c | c in d.conflicts
        ensures MergeNeeds(d, c) <= UsedBy(d)
      {
        NeededIsUsed(d, c);
      }
    }
  }

  /** A winner without chunks, a folder say, against a text: the collection may delete the chunk of the text. */
  lemma ConflictOfChunklessWinner()
    ensures var root, winner, c := RevisionId(1, "a"), RevisionId(2, "b"), RevisionId(2, "c");
            var tree := map[root := Node(None, true, None), winner := Node(Some(root), true, None), c := Node(Some(root), true, Some({"h:1"}))];
            var d := Document(tree, winner, [c], false);
            IsDocument(d) && "h:1" in MergeNeeds(d, c) && UsedBy(d) == {}
  {
    var root, winner, c := RevisionId(1, "a"), RevisionId(2, "b"), RevisionId(2, "c");
    var tree := map[root := Node(None, true, None), winner := Node(Some(root), true, None), c := Node(Some(root), true, Some({"h:1"}))];
    assert c in tree && tree[c].children.value == {"h:1"};
  }

  // ----- what is used, in terms of the tree -----

  /** The revision is a leaf or one of its ancestors. */
  predicate IsOnBranch(tree: Tree, leaf: RevisionId, r: RevisionId)
    requires IsTree(tree) && leaf in tree
    decreases leaf.generation
  {
    r == leaf || (tree[leaf].parent.Some? && IsOnBranch(tree, tree[leaf].parent.value, r))
  }

  predicate IsShared(d: Document, c: RevisionId, r: RevisionId)
    requires IsDocument(d) && c in d.conflicts
  {
    r in d.tree && d.tree[r].available && IsOnBranch(d.tree, d.winner, r) && IsOnBranch(d.tree, c, r)
  }

  /** Stored, and on one of the two branches alone, or the newest stored revision that they share. */
  ghost predicate IsKeptFor(d: Document, c: RevisionId, r: RevisionId)
    requires IsDocument(d) && c in d.conflicts
  {
    && r in d.tree && d.tree[r].available
    && (IsOnBranch(d.tree, d.winner, r) != IsOnBranch(d.tree, c, r)
        || (IsShared(d, c, r) && forall r' | IsShared(d, c, r') :: r' == r || r'.generation < r.generation))
  }

  /**
   * The document has a list of chunks, is not deleted or is in conflict, and the chunk is in its list or in that of a
   * revision that is kept for a conflict.
   */
  ghost predicate Uses(d: Document, chunk: ChunkId)
    requires IsDocument(d)
  {
    && d.tree[d.winner].children.Some? && (d.deleted ==> d.conflicts != [])
    && (chunk in d.tree[d.winner].children.value
        || exists c, r :: c in d.conflicts && IsKeptFor(d, c, r) && d.tree[r].children.Some? && chunk in d.tree[r].children.value)
  }

  lemma {:induction false} BranchIsOnBranch(tree: Tree, leaf: RevisionId, r: RevisionId)
    requires IsTree(tree) && leaf in tree
    ensures IsOnBranch(tree, leaf, r) <==> exists e :: e in Branch(tree, leaf) && e.rev == r
    ensures r in tree ==> (IsOnBranch(tree, leaf, r) <==> Info(r, tree[r].available) in Branch(tree, leaf))
    decreases leaf.generation
  {
    var branch := Branch(tree, leaf);
    if tree[leaf].parent.None? {
      assert branch == [Info(leaf, tree[leaf].available)];
      assert Info(leaf, tree[leaf].available) in branch;
    } else {
      var rest := Branch(tree, tree[leaf].parent.value);
      assert branch == [Info(leaf, tree[leaf].available)] + rest;
      BranchIsOnBranch(tree, tree[leaf].parent.value, r);
      assert Info(leaf, tree[leaf].available) in branch;
    }
  }

  predicate IsNewestOf(e: Info, mine: seq<Info>, conflicted: seq<Info>) {
    && e.available && e in mine && e in conflicted
    && forall x | x in mine && x in conflicted && x.available :: x == e || x.rev.generation < e.rev.generation
  }

  lemma NewestSame(mine: seq<Info>, conflicted: seq<Info>, e: Info)
    requires Descending(mine)
    ensures var same := Filter(mine, (x: Info) => x in conflicted && x.available);
            same != [] && e == Info(Highest(same).value, true) <==> IsNewestOf(e, mine, conflicted)
  {
    var same := Filter(mine, (x: Info) => x in conflicted && x.available);
    if same != [] {
      var x :| x in same && x.rev == Highest(same).value;
      assert x == Info(Highest(same).value, true);
      assert IsNewestOf(x, mine, conflicted) by {
        forall y | y in mine && y in conflicted && y.available
          ensures y == x || y.rev.generation < x.rev.generation
        {
          assert y in same;
        }
      }
      if IsNewestOf(e, mine, conflicted) {
        assert e in same;
      }
    }
  }

  lemma KeepListHolds(mine: seq<Info>, conflicted: seq<Info>, e: Info)
    requires Descending(mine)
    ensures e in KeepList(mine, conflicted) <==>
              (e.available && (e in mine) != (e in conflicted)) || IsNewestOf(e, mine, conflicted)
  {
    NewestSame(mine, conflicted, e);
    hide IsNewestOf, Highest;
    var differing := Filter(mine, (x: Info) => x !in conflicted) + Filter(conflicted, (x: Info) => x !in mine);
    assert e in differing <==> (e in mine) != (e in conflicted);
    assert e in Filter(differing, (x: Info) => x.available) <==> e in differing && e.available;
  }

  /** The keep list holds exactly the revisions that are to be kept. */
  lemma KeepListIff(d: Document, c: RevisionId, r: RevisionId)
    requires IsDocument(d) && c in d.conflicts
    ensures (exists e :: e in KeepList(Branch(d.tree, d.winner), Branch(d.tree, c)) && e.rev == r) <==> IsKeptFor(d, c, r)
  {
    hide IsOnBranch, KeepList, Branch;
    var mine, conflicted := Branch(d.tree, d.winner), Branch(d.tree, c);
    forall e
      ensures e in KeepList(mine, conflicted) ==> e == Info(e.rev, true) && IsKeptFor(d, c, e.rev)
    {
      KeepListHolds(mine, conflicted, e);
      if e in KeepList(mine, conflicted) {
        InfoIsKeptIff(d, c, e.rev);
      }
    }
    if IsKeptFor(d, c, r) {
      KeepListHolds(mine, conflicted, Info(r, true));
      InfoIsKeptIff(d, c, r);
      assert Info(r, true) in KeepList(mine, conflicted);
    }
  }

  lemma OnBothBranches(d: Document, c: RevisionId)
    requires IsDocument(d) && c in d.conflicts
    ensures forall r | r in d.tree && d.tree[r].available ::
              && (Info(r, true) in Branch(d.tree, d.winner) <==> IsOnBranch(d.tree, d.winner, r))
              && (Info(r, true) in Branch(d.tree, c) <==> IsOnBranch(d.tree, c, r))
    ensures forall e | e in Branch(d.tree, d.winner) || e in Branch(d.tree, c) :: e.rev in d.tree && e.available == d.tree[e.rev].available
  {
    forall r | r in d.tree && d.tree[r].available
      ensures Info(r, true) in Branch(d.tree, d.winner) <==> IsOnBranch(d.tree, d.winner, r)
      ensures Info(r, true) in Branch(d.tree, c) <==> IsOnBranch(d.tree, c, r)
    {
      BranchIsOnBranch(d.tree, d.winner, r);
      BranchIsOnBranch(d.tree, c, r);
    }
  }

  lemma InfoIsKeptIff(d: Document, c: RevisionId, r: RevisionId)
    requires IsDocument(d) && c in d.conflicts
    ensures var mine, conflicted, e := Branch(d.tree, d.winner), Branch(d.tree, c), Info(r, true);
            (e in mine) != (e in conflicted) || IsNewestOf(e, mine, conflicted) <==> IsKeptFor(d, c, r)
  {
    hide IsOnBranch, Branch;
    OnBothBranches(d, c);
    var mine, conflicted, e := Branch(d.tree, d.winner), Branch(d.tree, c), Info(r, true);
    if IsShared(d, c, r) {
      if IsNewestOf(e, mine, conflicted) {
        forall r' | IsShared(d, c, r')
          ensures r' == r || r'.generation < r.generation
        {
          assert Info(r', true) in mine && Info(r', true) in conflicted;
        }
      } else {
        var x :| x in mine && x in conflicted && x.available && x != e && x.rev.generation >= r.generation;
        assert x == Info(x.rev, true) && IsShared(d, c, x.rev);
      }
    }
  }

  lemma UsedByIff(d: Document, chunk: ChunkId)
    requires IsDocument(d)
    ensures chunk in UsedBy(d) <==> Uses(d, chunk)
  {
    hide IsKeptFor, KeepList;
    forall c, r | c in d.conflicts
      ensures (exists e :: e in KeepList(Branch(d.tree, d.winner), Branch(d.tree, c)) && e.rev == r) <==> IsKeptFor(d, c, r)
      ensures IsKeptFor(d, c, r) ==> r in d.tree && d.tree[r].available
    {
      KeepListIff(d, c, r);
      KeptIsStored(d, c, r);
    }
    forall r: RevisionId
      ensures r in KeptRevs(d, d.conflicts) <==> exists c :: c in d.conflicts && IsKeptFor(d, c, r)
    {
    }
  }

  ghost predicate ExactlyUsed(d: Document, used: set<ChunkId>)
    requires IsDocument(d)
  {
    forall chunk :: chunk in used <==> Uses(d, chunk)
  }

  lemma UsedByIs(d: Document)
    requires IsDocument(d)
    ensures ExactlyUsed(d, UsedBy(d))
  {
    hide UsedBy, Uses;
    forall chunk: ChunkId
      ensures chunk in UsedBy(d) <==> Uses(d, chunk)
    {
      UsedByIff(d, chunk);
    }
  }

  lemma LiveIsUsed(d: Document, chunk: ChunkId)
    requires IsDocument(d) && !d.deleted && d.tree[d.winner].children.Some? && chunk in d.tree[d.winner].children.value
    ensures Uses(d, chunk)
  {
  }

  lemma KeptIsStored(d: Document, c: RevisionId, r: RevisionId)
    requires IsDocument(d) && c in d.conflicts
    ensures IsKeptFor(d, c, r) ==> r in d.tree && d.tree[r].available
  {
  }

  // ----- the collection -----

  datatype Change = ChunkChange(id: ChunkId, deleted: bool) | DocumentChange(d: Document)

  method CollectKeptRevs(d: Document) returns (kept: set<RevisionId>)
    requires IsDocument(d)
    ensures kept == KeptRevs(d, d.conflicts)
  {
    hide KeepList;
    kept := {};
    var mine := Branch(d.tree, d.winner);
    assert forall c | c in d.conflicts :: c in d.tree;
    for i := 0 to |d.conflicts|
      invariant kept == KeptRevs(d, d.conflicts[..i])
    {
      var keepList := KeepList(mine, Branch(d.tree, d.conflicts[i]));
      kept := kept + set e | e in keepList :: e.rev;
      assert d.conflicts[..i + 1] == d.conflicts[..i] + [d.conflicts[i]];
    }
    assert d.conflicts[..|d.conflicts|] == d.conflicts;
  }

  /** The chunks of the stored ones among some revisions. */
  method CollectChildren(tree: Tree, kept: set<RevisionId>) returns (used: set<ChunkId>)
    ensures used == ChildrenOf(tree, kept)
  {
    hide ChildrenOf;
    used := {};
    NoChildren(tree);
    var rest := kept;
    assert kept - rest == {};
    while rest != {}
      invariant rest <= kept && used == ChildrenOf(tree, kept - rest)
    {
      var r :| r in rest;
      ChildrenOfOneMore(tree, kept - rest, r);
      assert kept - (rest - {r}) == (kept - rest) + {r};
      rest := rest - {r};
      if r in tree && tree[r].available && tree[r].children.Some? {
        used := used + tree[r].children.value;
      }
    }
    assert kept - {} == kept;
  }

  method CollectUsed(d: Document) returns (used: set<ChunkId>)
    requires IsDocument(d)
    ensures used == UsedBy(d) && ExactlyUsed(d, used)
  {
    hide ChildrenOf, KeptRevs, Uses, ExactlyUsed;
    UsedByIs(d);
    used := {};
    var doc := d.tree[d.winner];
    if doc.children.None? || (d.deleted && d.conflicts == []) {
      return;
    }
    used := doc.children.value;
    var kept := CollectKeptRevs(d);
    var more := CollectChildren(d.tree, kept);
    used := used + more;
  }

  predicate Exists(change: Change, includeDeleted: bool) {
    change.ChunkChange? && (change.deleted ==> includeDeleted)
  }

  /** A change of a document with a list of chunks that is in conflict with a leaf. */
  predicate IsMerged(change: Change, c: RevisionId) {
    && change.DocumentChange? && IsDocument(change.d)
    && c in change.d.conflicts && change.d.tree[change.d.winner].children.Some?
  }

  /** A document that is not deleted, with the chunk in its list. */
  predicate IsLive(change: Change, chunk: ChunkId) {
    && change.DocumentChange? && IsDocument(change.d) && !change.d.deleted
    && change.d.tree[change.d.winner].children.Some? && chunk in change.d.tree[change.d.winner].children.value
  }

  predicate AllDocuments(feed: Feed<Change>) {
    forall row | row in feed && row.value.DocumentChange? :: IsDocument(row.value.d)
  }

  ghost function UsedAt(feed: Feed<Change>, read: set<nat>): set<ChunkId>
    requires AllDocuments(feed) && forall i | i in read :: i < |feed|
  {
    set i, chunk | i in read && feed[i].value.DocumentChange? && chunk in UsedBy(feed[i].value.d) :: chunk
  }

  ghost function ExistingAt(feed: Feed<Change>, read: set<nat>, includeDeleted: bool): set<ChunkId>
    requires forall i | i in read :: i < |feed|
  {
    set i | i in read && Exists(feed[i].value, includeDeleted) :: feed[i].value.id
  }

  lemma OneMoreRead(feed: Feed<Change>, read: set<nat>, i: nat, includeDeleted: bool)
    requires AllDocuments(feed) && (forall j | j in read :: j < |feed|) && i < |feed|
    ensures UsedAt(feed, read + {i}) == UsedAt(feed, read) + if feed[i].value.DocumentChange? then UsedBy(feed[i].value.d) else {}
    ensures ExistingAt(feed, read + {i}, includeDeleted) ==
              ExistingAt(feed, read, includeDeleted) + if Exists(feed[i].value, includeDeleted) then {feed[i].value.id} else {}
  {
    hide UsedBy, IsDocument;
    assert feed[i] in feed;
  }

  lemma ReadBefore(feed: Feed<Change>, more: Feed<Change>, read: set<nat>, includeDeleted: bool)
    requires AllDocuments(feed) && AllDocuments(more) && forall j | j in read :: j < |feed|
    ensures AllDocuments(feed + more)
    ensures UsedAt(feed + more, read) == UsedAt(feed, read) && ExistingAt(feed + more, read, includeDeleted) == ExistingAt(feed, read, includeDeleted)
  {
    hide UsedBy, IsDocument;
    assert forall j | j in read :: (feed + more)[j] == feed[j];
  }

  /** Everything listed in front of a position has been read. */
  ghost predicate ReadUpTo(feed: Feed<Change>, since: nat, read: set<nat>) {
    since <= |feed| && (forall i | i in read :: i < since) && forall i | 0 <= i < since && Current(feed, i) :: i in read
  }

  const PAGE_SIZE := 100

  /** In the feed's own terms: which chunks the documents that were read use, and which chunks there are. */
  ghost predicate AreUsedAndExisting(feed: Feed<Change>, read: set<nat>, includeDeleted: bool, used: set<ChunkId>, existing: set<ChunkId>)
    requires AllDocuments(feed) && forall i | i in read :: i < |feed|
  {
    && (forall chunk :: chunk in used <==> exists i :: i in read && feed[i].value.DocumentChange? && Uses(feed[i].value.d, chunk))
    && (forall id :: id in existing <==>
          exists i :: i in read && feed[i].value.ChunkChange? && feed[i].value.id == id && (feed[i].value.deleted ==> includeDeleted))
  }

  lemma UsedAndExistingAre(feed: Feed<Change>, read: set<nat>, includeDeleted: bool)
    requires AllDocuments(feed) && forall i | i in read :: i < |feed|
    ensures AreUsedAndExisting(feed, read, includeDeleted, UsedAt(feed, read), ExistingAt(feed, read, includeDeleted))
  {
    hide UsedBy, Uses, IsDocument;
    forall chunk, i | i in read && feed[i].value.DocumentChange?
      ensures IsDocument(feed[i].value.d) && (chunk in UsedBy(feed[i].value.d) <==> Uses(feed[i].value.d, chunk))
    {
      assert feed[i] in feed;
      UsedByIff(feed[i].value.d, chunk);
    }
  }

  lemma NothingRead(feed: Feed<Change>, includeDeleted: bool)
    requires AllDocuments(feed)
    ensures UsedAt(feed, {}) == {} && ExistingAt(feed, {}, includeDeleted) == {}
  {
  }

  lemma UsedIsCollected(feed: Feed<Change>, read: set<nat>, i: nat)
    requires AllDocuments(feed) && (forall j | j in read :: j < |feed|) && i in read && feed[i].value.DocumentChange?
    ensures IsDocument(feed[i].value.d) && UsedBy(feed[i].value.d) <= UsedAt(feed, read)
  {
    assert feed[i] in feed;
  }

  /** The listed positions between two. */
  function ListedBetween(feed: Feed<Change>, from: nat, until: nat): (at: set<nat>)
    ensures forall i | i in at :: i < |feed|
  {
    set i: nat | from <= i < until && i < |feed| && Current(feed, i)
  }

  lemma NothingIsListed(feed: Feed<Change>, since: nat, read: set<nat>)
    ensures read + ListedBetween(feed, since, since) == read
  {
  }

  lemma NextIsListed(feed: Feed<Change>, since: nat, next: nat, read: set<nat>, limit: nat)
    requires since <= next <= |feed| && limit > 0 && NextRow(feed, next) < |feed|
    ensures var i := NextRow(feed, next);
            && read + ListedBetween(feed, since, i + 1) == read + ListedBetween(feed, since, next) + {i}
            && BatchEnd(feed, next, limit) == BatchEnd(feed, i + 1, limit - 1)
  {
    var i := NextRow(feed, next);
    assert ListedBetween(feed, since, i + 1) == ListedBetween(feed, since, next) + {i};
  }

  /** Where nothing is listed any more, or the limit is reached, a batch ends. */
  lemma BatchEndsHere(feed: Feed<Change>, next: nat, limit: nat)
    requires next <= |feed| && (limit == 0 || NextRow(feed, next) == |feed|)
    ensures BatchEnd(feed, next, limit) == next
  {
  }

  /** The two sets hold what the changes at the positions that have been read call for. */
  ghost predicate Collected(feed: Feed<Change>, read: set<nat>, includeDeleted: bool, used: set<ChunkId>, existing: set<ChunkId>) {
    && AllDocuments(feed) && (forall j | j in read :: j < |feed|)
    && used == UsedAt(feed, read) && existing == ExistingAt(feed, read, includeDeleted)
  }

  /** What one listed change adds. */
  method ReadRow(feed: Feed<Change>, i: nat, includeDeleted: bool, used0: set<ChunkId>, existing0: set<ChunkId>, ghost read: set<nat>)
      returns (used: set<ChunkId>, existing: set<ChunkId>)
    requires Collected(feed, read, includeDeleted, used0, existing0) && i < |feed|
    ensures Collected(feed, read + {i}, includeDeleted, used, existing)
  {
    OneMoreRead(feed, read, i, includeDeleted);
    assert feed[i] in feed;
    hide UsedBy, IsDocument, UsedAt, ExistingAt;
    var change := feed[i].value;
    used, existing := used0, existing0;
    if Exists(change, includeDeleted) {
      existing := existing + {change.id};
    }
    if change.DocumentChange? {
      var u := CollectUsed(change.d);
      used := used + u;
    }
  }

  /** One page: the next changes that are listed; the result is the position behind them. */
  method Page(feed: Feed<Change>, since: nat, limit: nat, includeDeleted: bool, used0: set<ChunkId>, existing0: set<ChunkId>, ghost read: set<nat>)
      returns (next: nat, used: set<ChunkId>, existing: set<ChunkId>)
    requires Collected(feed, read, includeDeleted, used0, existing0) && since <= |feed|
    ensures next == BatchEnd(feed, since, limit)
    ensures Collected(feed, read + ListedBetween(feed, since, next), includeDeleted, used, existing)
  {
    hide *;
    NothingIsListed(feed, since, read);
    next, used, existing := since, used0, existing0;
    var count := 0;
    while count < limit && NextRow(feed, next) < |feed|
      invariant since <= next <= |feed| && count <= limit
      invariant BatchEnd(feed, since, limit) == BatchEnd(feed, next, limit - count)
      invariant Collected(feed, read + ListedBetween(feed, since, next), includeDeleted, used, existing)
    {
      var i := NextRow(feed, next);
      NextIsListed(feed, since, next, read, limit - count);
      used, existing := ReadRow(feed, i, includeDeleted, used, existing, read + ListedBetween(feed, since, next));
      next, count := i + 1, count + 1;
    }
    assert BatchEnd(feed, next, limit - count) == next by { BatchEndsHere(feed, next, limit - count); }
  }

  /** What has been read when a page comes back empty, and the feed then; `script` is what others append before each page. */
  function ReadAll(feed: Feed<Change>, script: seq<Feed<Change>>, since: nat, read: set<nat>): (Feed<Change>, set<nat>)
    requires since <= |feed|
    decreases |script|, |feed| - since
  {
    var now := if script == [] then feed else feed + script[0];
    var next := BatchEnd(now, since, PAGE_SIZE);
    if next == since then (now, read)
    else ReadAll(now, if script == [] then [] else script[1..], next, read + ListedBetween(now, since, next))
  }

  lemma StillReadUpTo(feed: Feed<Change>, now: Feed<Change>, since: nat, read: set<nat>)
    requires ReadUpTo(feed, since, read) && feed <= now
    ensures ReadUpTo(now, since, read)
  {
    forall i | 0 <= i < since && Current(now, i)
      ensures i in read
    {
      CurrentBefore(feed, now, i);
    }
  }

  lemma PageReadsOn(feed: Feed<Change>, since: nat, next: nat, read: set<nat>)
    requires ReadUpTo(feed, since, read) && next == BatchEnd(feed, since, PAGE_SIZE)
    ensures ReadUpTo(feed, next, read + ListedBetween(feed, since, next))
    ensures next == since ==> ReadUpTo(feed, |feed|, read) && ListedBetween(feed, 0, since) == ListedBetween(feed, 0, |feed|)
    ensures ListedBetween(feed, 0, since) + ListedBetween(feed, since, next) == ListedBetween(feed, 0, next)
  {
    if next == since {
      assert BatchEnd(feed, since, PAGE_SIZE) == since ==> NextRow(feed, since) == |feed|;
    }
  }

  /** An empty page means that everything listed by then has been read; without other writers, nothing else. */
  lemma {:induction false} EverythingIsRead(feed: Feed<Change>, script: seq<Feed<Change>>, since: nat, read: set<nat>)
    requires ReadUpTo(feed, since, read) && AllDocuments(feed) && forall more | more in script :: AllDocuments(more)
    ensures var (final, all) := ReadAll(feed, script, since, read);
            && feed <= final && AllDocuments(final) && ReadUpTo(final, |final|, all)
            && (script == [] && read == ListedBetween(feed, 0, since) ==> final == feed && all == ListedBetween(feed, 0, |feed|))
    decreases |script|, |feed| - since
  {
    hide IsDocument;
    var now := if script == [] then feed else feed + script[0];
    var next := BatchEnd(now, since, PAGE_SIZE);
    if script != [] {
      ReadBefore(feed, script[0], {}, false);
    }
    StillReadUpTo(feed, now, since, read);
    PageReadsOn(now, since, next, read);
    if next != since {
      EverythingIsRead(now, if script == [] then [] else script[1..], next, read + ListedBetween(now, since, next));
    }
  }

  /**
   * Page by page until one is empty, while others go on writing. Whatever existed and was not used when the last page
   * was read may be deleted: no merge needs it.
   */
  method AllChunks(initial: Feed<Change>, script: seq<Feed<Change>>, includeDeleted: bool) returns (used: set<ChunkId>, existing: set<ChunkId>)
    requires AllDocuments(initial) && forall more | more in script :: AllDocuments(more)
    ensures var (feed, read) := ReadAll(initial, script, 0, {});
            && AllDocuments(feed) && ReadUpTo(feed, |feed|, read)
            && used == UsedAt(feed, read) && existing == ExistingAt(feed, read, includeDeleted)
            && AreUsedAndExisting(feed, read, includeDeleted, used, existing)
            && (forall i, chunk | 0 <= i < |feed| && Current(feed, i) && IsLive(feed[i].value, chunk) :: chunk !in existing - used)
            && forall i, c | 0 <= i < |feed| && Current(feed, i) && IsMerged(feed[i].value, c) :: MergeNeeds(feed[i].value.d, c) !! existing - used
  {
    hide UsedAt, ExistingAt, UsedBy, MergeNeeds, IsDocument, BatchEnd, Uses;
    var changes, rest, since := initial, script, 0;
    ghost var read: set<nat> := {};
    used, existing := {}, {};
    NothingRead(changes, includeDeleted);
    EverythingIsRead(initial, script, 0, {});
    while true
      invariant (forall more | more in rest :: AllDocuments(more)) && ReadUpTo(changes, since, read)
      invariant ReadAll(changes, rest, since, read) == ReadAll(initial, script, 0, {})
      invariant Collected(changes, read, includeDeleted, used, existing)
      decreases |rest|, |changes| - since
    {
      ghost var before, more := changes, rest;
      if rest != [] {
        ReadBefore(changes, rest[0], read, includeDeleted);
        changes, rest := changes + rest[0], rest[1..];
      }
      StillReadUpTo(before, changes, since, read);
      var next;
      next, used, existing := Page(changes, since, PAGE_SIZE, includeDeleted, used, existing, read);
      PageReadsOn(changes, since, next, read);
      if next == since {
        NothingIsListed(changes, since, read);
        break;
      }
      since, read := next, read + ListedBetween(changes, since, next);
    }
    UsedAndExistingAre(changes, read, includeDeleted);
    forall i, chunk | 0 <= i < |changes| && Current(changes, i) && IsLive(changes[i].value, chunk)
      ensures chunk in used
    {
      LiveIsUsed(changes[i].value.d, chunk);
    }
    forall i, c | 0 <= i < |changes| && Current(changes, i) && IsMerged(changes[i].value, c)
      ensures MergeNeeds(changes[i].value.d, c) <= used
    {
      UsedIsCollected(changes, read, i);
      NeededIsUsed(changes[i].value.d, c);
    }
  }
}
