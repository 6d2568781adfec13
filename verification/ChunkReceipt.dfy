/**
 * The safety check before an object-storage synchronisation: no live leaf document may lie outside the "h:"
 * namespace. A receipt of an earlier clean scan lets the check look at later changes only, while other
 * writers run between its awaits.
 */
module ChunkReceipt {

  import opened CodeUnitOrder

  // ----- the namespace -----

  predicate InNamespace(id: string) {
    |id| >= 2 && id[0] == 'h' && id[1] == ':'
  }

  /** An id starts with "h:" exactly if it lies in the range from "h:" up to, but without, "h;". */
  lemma NamespaceIsRange(id: string)
    ensures InNamespace(id) <==> !Less(id, "h:") && Less(id, "h;")
  {
    LessOfTwo(id, ':');
    LessOfTwo(id, ';');
  }

  /** How an id compares with a string of two characters. */
  lemma LessOfTwo(id: string, c: char)
    ensures Less(id, ['h', c]) <==>
            id == "" || id[0] < 'h' || (id[0] == 'h' && (|id| == 1 || id[1] < c))
  {
    var bound := ['h', c];
    assert bound[1..] == [c] && [c][1..] == "";
    if id != "" && id[0] == 'h' {
      assert Less(id, bound) <==> Less(id[1..], [c]);
      assert |id| > 1 ==> id[1..][0] == id[1] && !Less(id[1..][1..], "");
    }
  }

  /** The three looks of the full check, below "h:", above "h;" and at "h;", see every id outside the namespace. */
  lemma SelectorsCoverOutside(id: string)
    ensures !InNamespace(id) <==> Less(id, "h:") || Less("h;", id) || id == "h;"
  {
    NamespaceIsRange(id);
    LessIsTotal(id, "h;");
    LessIsTotal(id, "h:");
    if Less(id, "h:") && !Less(id, "h;") {
      assert "h:"[1..] == ":" && "h;"[1..] == ";";
      LessIsTransitive(id, "h:", "h;");
    }
  }

  // ----- the database -----

  /** The state a document was brought to by its latest change. */
  datatype Doc = Doc(sequence: nat, deleted: bool, leaf: bool)

  datatype Database = Database(id: string, updateSeq: nat, docs: map<string, Doc>)

  predicate WellFormed(db: Database) {
    forall k | k in db.docs :: db.docs[k].sequence <= db.updateSeq
  }

  predicate Compromised(db: Database, k: string) {
    k in db.docs && db.docs[k].leaf && !db.docs[k].deleted && !InNamespace(k)
  }

  /** No document whose latest change is at or below `verified` is compromised. */
  ghost predicate CleanUpTo(db: Database, verified: nat) {
    forall k :: Compromised(db, k) ==> db.docs[k].sequence > verified
  }

  ghost predicate Clean(db: Database) {
    forall k :: !Compromised(db, k)
  }

  /** Writes have happened: every document is as it was, or has been changed since. */
  ghost predicate Later(db: Database, db': Database) {
    && db'.id == db.id
    && db.updateSeq <= db'.updateSeq
    && (forall k | k in db.docs :: k in db'.docs)
    && (forall k | k in db'.docs :: (k in db.docs && db'.docs[k] == db.docs[k]) || db'.docs[k].sequence > db.updateSeq)
  }

  lemma CleanStays(db: Database, db': Database, verified: nat)
    requires Later(db, db') && CleanUpTo(db, verified) && verified <= db.updateSeq
    ensures CleanUpTo(db', verified)
  {
    forall k | Compromised(db', k)
      ensures db'.docs[k].sequence > verified
    {
      assert db'.docs[k].sequence <= db.updateSeq ==> Compromised(db, k);
    }
  }

  /** One row of a changes page. */
  datatype Change = Change(id: string, deleted: bool)

  /** A page lists every document whose latest change lies behind `since`, up to `last`. */
  function PageOf(db: Database, since: nat, last: nat): set<Change> {
    set k | k in db.docs && since < db.docs[k].sequence <= last :: Change(k, db.docs[k].deleted)
  }

  function Candidates(results: set<Change>): set<string> {
    set c | c in results && !c.deleted && !InNamespace(c.id) :: c.id
  }

  lemma CompromisedIsCandidate(db: Database, since: nat, last: nat, db': Database, k: string)
    requires last <= db.updateSeq && Later(db, db') && Compromised(db', k) && since < db'.docs[k].sequence <= last
    ensures k in Candidates(PageOf(db, since, last))
  {
    assert Change(k, false) in PageOf(db, since, last);
  }

  /** A page whose candidates turn out to be no leaves, even if looked at later, moves the verified sequence on. */
  lemma PageIsClean(db: Database, since: nat, last: nat, db': Database)
    requires last <= db.updateSeq && Later(db, db') && CleanUpTo(db', since)
    requires forall k | k in Candidates(PageOf(db, since, last)) :: !Compromised(db', k)
    ensures CleanUpTo(db', last)
  {
    forall k | Compromised(db', k)
      ensures db'.docs[k].sequence > last
    {
      if db'.docs[k].sequence <= last {
        CompromisedIsCandidate(db, since, last, db', k);
      }
    }
  }

  lemma NothingBehindIsClean(db: Database, since: nat)
    requires WellFormed(db) && CleanUpTo(db, since) && db.updateSeq <= since
    ensures Clean(db)
  {
  }

  // ----- the world the check runs in -----

  const POLICY := "leaf-h-namespace-v1"

  datatype Stored = Unusable | Receipt(version: int, policy: string, databaseId: string, verifiedSequence: nat)

  predicate CurrentReceipt(saved: Stored) {
    saved.Receipt? && saved.version == 1 && saved.policy == POLICY
  }

  predicate CleanChunkReceipt(saved: Stored, databaseId: string, sequence: nat) {
    CurrentReceipt(saved) && saved.databaseId == databaseId && saved.verifiedSequence <= sequence
  }

  /** Any number of writes, or another database under an id that has never been used. */
  ghost predicate Evolves(db: Database, used: set<string>, db': Database) {
    WellFormed(db') && (Later(db, db') || db'.id !in used)
  }

  /**
   * What an await brings: the database as it is then, and how the call that was awaited goes. Only a sequence that is
   * reported as a safe non-negative integer is not opaque.
   */
  datatype Moment = Moment(db: Database, fails: bool, opaqueSequence: bool, noIdentity: bool, pageEnd: nat, aboveFirst: bool)

  ghost predicate Possible(db: Database, used: set<string>, future: seq<Moment>)
    decreases |future|
  {
    future != [] ==> Evolves(db, used, future[0].db) && Possible(future[0].db, used + {future[0].db.id}, future[1..])
  }

  ghost predicate ReceiptHolds(stored: Stored, db: Database, used: set<string>) {
    CurrentReceipt(stored) ==>
      && stored.databaseId in used
      && (stored.databaseId == db.id ==> stored.verifiedSequence <= db.updateSeq && CleanUpTo(db, stored.verifiedSequence))
  }

  lemma ReceiptStaysTrue(stored: Stored, db: Database, used: set<string>, db': Database)
    requires ReceiptHolds(stored, db, used) && db.id in used && Evolves(db, used, db')
    ensures ReceiptHolds(stored, db', used + {db'.id})
  {
    if CurrentReceipt(stored) && stored.databaseId == db'.id {
      CleanStays(db, db', stored.verifiedSequence);
    }
  }

  /** What goes on in two steps goes on. */
  lemma StillLater(db0: Database, used0: set<string>, db1: Database, used1: set<string>, db2: Database)
    requires used0 <= used1 && (Later(db0, db1) || db1.id !in used0) && (Later(db1, db2) || db2.id !in used1)
    ensures Later(db0, db2) || db2.id !in used0
  {
  }

  function AtRest(db: Database): Moment {
    Moment(db, false, false, false, db.updateSeq, false)
  }

  /** What the awaits have brought, and bring, is the script; behind its end nothing happens any more. */
  predicate IsPlayed(script: seq<Moment>, looks: seq<Moment>, future: seq<Moment>, db: Database) {
    if |looks| <= |script| then script == looks + future
    else script <= looks && future == [] && forall i | |script| <= i < |looks| :: looks[i] == AtRest(db)
  }

  lemma PlayedInOrder(script: seq<Moment>, looks: seq<Moment>, future: seq<Moment>, db: Database)
    requires IsPlayed(script, looks, future, db)
    ensures forall i | 0 <= i < |looks| && i < |script| :: looks[i] == script[i]
    ensures |looks| <= |script| ==> looks == script[..|looks|]
  {
  }

  class World {
    var db: Database
    var stored: Stored
    var future: seq<Moment>
    ghost var used: set<string>
    ghost var script: seq<Moment> // all that the awaits bring, from the first on
    ghost var looks: seq<Moment>  // what they have brought so far

    /** Above all: the receipt is a true claim about the present state of the database it names. */
    ghost predicate Valid()
      reads this
    {
      && WellFormed(db) && db.id in used && Possible(db, used, future) && ReceiptHolds(stored, db, used)
      && IsPlayed(script, looks, future, db)
      && (looks != [] ==> looks[|looks| - 1].db == db)
    }

    /** What happens while a check runs: it looks again and again, at a database that others may write or replace. */
    twostate predicate GoesOn()
      reads this
    {
      && old(looks) <= looks && script == old(script)
      && old(used) <= used && (Later(old(db), db) || db.id !in old(used))
    }

    /** Other writers run, then the awaited call comes back. Where the script ends, everything stays as it is. */
    method Await() returns (m: Moment)
      requires Valid()
      modifies this`db, this`future, this`used, this`looks
      ensures Valid() && GoesOn() && m.db == db && looks == old(looks) + [m]
    {
      m := AtRest(db);
      if future != [] {
        m := future[0];
        ReceiptStaysTrue(stored, db, used, m.db);
        assert future == [m] + future[1..];
        db, future, used := m.db, future[1..], used + {m.db.id};
      }
      looks := looks + [m];
    }
  }

  /** `Failed` is the result `false`: the check could not be carried out. */
  datatype Result = Failed | Count(n: nat)

  /** Some look since the `n`-th saw a state that is not clean. */
  ghost predicate SawUnclean(looks: seq<Moment>, n: nat) {
    exists i :: n <= i < |looks| && !Clean(looks[i].db)
  }

  predicate LiveLeaf(db: Database, k: string) {
    k in db.docs && db.docs[k].leaf && !db.docs[k].deleted
  }

  /** SELECTOR_COMPROMISED_CHUNK_1 and _2 */
  function FindBelow(db: Database): set<string> {
    set k | k in db.docs && LiveLeaf(db, k) && Less(k, "h:")
  }

  function FindAbove(db: Database): set<string> {
    set k | k in db.docs && LiveLeaf(db, k) && Less("h;", k)
  }

  lemma FoundIsCompromised(db: Database)
    requires FindBelow(db) != {} || FindAbove(db) != {} || LiveLeaf(db, "h;")
    ensures !Clean(db)
  {
    var k := if FindBelow(db) != {} then (var x :| x in FindBelow(db); x)
             else if FindAbove(db) != {} then (var x :| x in FindAbove(db); x) else "h;";
    SelectorsCoverOutside(k);
    assert Compromised(db, k);
  }

  /** Looks at three moments, the first two in either order, that find nothing prove that nothing unchanged since is compromised. */
  lemma FullCheckIsClean(start: Database, db1: Database, db2: Database, db3: Database)
    requires Later(start, db1) && Later(start, db2) && Later(db1, db3) && Later(db2, db3)
    requires FindBelow(db1) == {} && FindAbove(db2) == {} && !LiveLeaf(db3, "h;")
    ensures CleanUpTo(db3, start.updateSeq)
  {
    forall k | Compromised(db3, k)
      ensures db3.docs[k].sequence > start.updateSeq
    {
      if db3.docs[k].sequence <= start.updateSeq {
        SeenByOneLook(start, db1, db2, db3, k);
      }
    }
  }

  lemma SeenByOneLook(start: Database, db1: Database, db2: Database, db3: Database, k: string)
    requires Later(start, db1) && Later(start, db2) && Later(db1, db3) && Later(db2, db3)
    requires Compromised(db3, k) && db3.docs[k].sequence <= start.updateSeq
    ensures k in FindBelow(db1) || k in FindAbove(db2) || (k == "h;" && LiveLeaf(db3, k))
  {
    UnchangedSince(start, db1, db3, k);
    UnchangedSince(start, db2, db3, k);
    SelectorsCoverOutside(k);
  }

  lemma UnchangedSince(start: Database, db: Database, db': Database, k: string)
    requires Later(start, db) && Later(db, db') && k in db'.docs && db'.docs[k].sequence <= start.updateSeq
    ensures k in db.docs && db.docs[k] == db'.docs[k]
  {
  }

  /** What the two queries find, which may come in either order. */
  function FoundBelow(m1: Moment, m2: Moment): set<string> {
    FindBelow(if m1.aboveFirst then m2.db else m1.db)
  }

  function FoundAbove(m1: Moment, m2: Moment): set<string> {
    FindAbove(if m1.aboveFirst then m1.db else m2.db)
  }

  /** The result of the two queries by what they saw. */
  predicate IsCount(looks: seq<Moment>, r: Result) {
    if |looks| == 1 then looks[0].fails && r == Failed
    else
      && |looks| == 2 && !looks[0].fails
      && r == if looks[1].fails then Failed else Count(|FoundBelow(looks[0], looks[1])| + |FoundAbove(looks[0], looks[1])|)
  }

  /** The result of the full check: where the two queries find nothing, the one id between them is looked at, too. */
  predicate IsFullCheck(looks: seq<Moment>, r: Result) {
    if |looks| < 3 then IsCount(looks, r) && r != Count(0)
    else
      && |looks| == 3 && IsCount(looks[..2], Count(0))
      && r == if looks[2].fails then Failed else Count(if LiveLeaf(looks[2].db, "h;") then 1 else 0)
  }

  method CountCompromisedChunks(w: World) returns (r: Result)
    requires w.Valid()
    modifies w`db, w`future, w`used, w`looks
    ensures w.Valid() && w.GoesOn() && IsCount(w.looks[|old(w.looks)|..], r)
    ensures r == Failed ==> w.looks[|w.looks| - 1].fails
    ensures r.Count? && r.n > 0 ==> SawUnclean(w.looks, |old(w.looks)|)
    ensures r.Count? && Later(old(w.db), w.db) ==>
              var n := |old(w.looks)|; Later(old(w.db), w.looks[n].db) && Later(w.looks[n].db, w.looks[n + 1].db)
  {
    hide Possible, Evolves, ReceiptHolds, IsPlayed, Compromised, CleanUpTo, FindBelow, FindAbove;
    ghost var n := |w.looks|;
    var m1 := w.Await();
    assert w.looks[n..] == [m1];
    if m1.fails {
      return Failed;
    }
    var m2 := w.Await();
    assert w.looks[n..] == [m1, m2];
    if m2.fails {
      return Failed;
    }
    var result1, result2 := FoundBelow(m1, m2), FoundAbove(m1, m2);
    if |result1| + |result2| > 0 {
      ghost var at := if (result1 != {}) != m1.aboveFirst then n else n + 1;
      FoundIsCompromised(w.looks[at].db);
    }
    return Count(|result1| + |result2|);
  }

  method FullLocalCheck(w: World) returns (r: Result)
    requires w.Valid()
    modifies w`db, w`future, w`used, w`looks
    ensures w.Valid() && w.GoesOn() && IsFullCheck(w.looks[|old(w.looks)|..], r)
    ensures r == Failed ==> w.looks[|w.looks| - 1].fails
    ensures r == Count(0) && Later(old(w.db), w.db) ==> CleanUpTo(w.db, old(w.db).updateSeq)
    ensures r.Count? && r.n > 0 ==> SawUnclean(w.looks, |old(w.looks)|)
  {
    hide Possible, Evolves, ReceiptHolds, IsPlayed, Compromised, CleanUpTo, FindBelow, FindAbove, LiveLeaf;
    ghost var n := |w.looks|;
    r := CountCompromisedChunks(w);
    if r != Count(0) {
      return;
    }
    ghost var m1, m2 := w.looks[n], w.looks[n + 1];
    assert w.looks[n..] == [m1, m2];
    var row := w.Await();
    assert w.looks[n..] == [m1, m2, row] && [m1, m2, row][..2] == [m1, m2];
    if row.fails {
      return Failed;
    }
    if LiveLeaf(row.db, "h;") {
      FoundIsCompromised(w.looks[n + 2].db);
      return Count(1);
    }
    if Later(old(w.db), w.db) {
      FullCheckIsClean(old(w.db), if m1.aboveFirst then m2.db else m1.db, if m1.aboveFirst then m1.db else m2.db, row.db);
    }
  }

  // ----- looking at changes only -----

  /** If `db` is still the database the check began with, it is clean up to `since`. */
  ghost predicate Verified(db: Database, databaseId: string, since: nat, target: nat) {
    db.id == databaseId ==> CleanUpTo(db, since) && since <= db.updateSeq && target <= db.updateSeq
  }

  lemma VerifiedStays(db: Database, used: set<string>, db': Database, databaseId: string, since: nat, target: nat)
    requires Verified(db, databaseId, since, target) && databaseId in used && (Later(db, db') || db'.id !in used)
    ensures Verified(db', databaseId, since, target)
  {
    if db'.id == databaseId {
      CleanStays(db, db', since);
    }
  }

  datatype ScanOutcome = ScanFailed | Incomparable | Found(n: nat) | Through(since: nat)

  /** Where a page ends. */
  function EndOf(page: Moment): nat {
    if page.pageEnd <= page.db.updateSeq then page.pageEnd else page.db.updateSeq
  }

  predicate IsListed(page: Moment, since: nat, k: string) {
    k in page.db.docs && since < page.db.docs[k].sequence <= EndOf(page)
  }

  /** The documents of a page, listed as live, that a later look sees compromised. */
  function FoundOnPage(page: Moment, since: nat, rows: Moment): set<string> {
    set k | k in page.db.docs && IsListed(page, since, k) && !page.db.docs[k].deleted && Compromised(rows.db, k)
  }

  /** What a page leads to, by what was seen: of the page alone, or of the documents on it, too. */
  ghost predicate IsPage(looks: seq<Moment>, since: nat, target: nat, outcome: ScanOutcome) {
    && 1 <= |looks| <= 2
    && var page := looks[0];
       if page.fails then |looks| == 1 && outcome == ScanFailed
       else if page.opaqueSequence || EndOf(page) <= since then |looks| == 1 && outcome == Incomparable
       else if |looks| == 1 then
         && (forall k | IsListed(page, since, k) :: page.db.docs[k].deleted || InNamespace(k))
         && outcome == if EndOf(page) < target && (forall k :: !IsListed(page, since, k)) then Incomparable else Through(EndOf(page))
       else if looks[1].fails then outcome == ScanFailed
       else outcome == if FoundOnPage(page, since, looks[1]) == {} then Through(EndOf(page)) else Found(|FoundOnPage(page, since, looks[1])|)
  }

  /** A count of the documents that the last look saw compromised, of the page before it. */
  ghost predicate CountsPage(page: Moment, rows: Moment, count: nat) {
    exists since: nat :: count == |FoundOnPage(page, since, rows)|
  }

  ghost predicate IsPageCount(looks: seq<Moment>, count: nat) {
    |looks| >= 2 && CountsPage(looks[|looks| - 2], looks[|looks| - 1], count)
  }

  /** A failed look ends a scan as failed; a count is exact. */
  ghost predicate EndsRightly(outcome: ScanOutcome, looks: seq<Moment>) {
    match outcome
    case ScanFailed => looks != [] && looks[|looks| - 1].fails
    case Found(n) => n > 0 && IsPageCount(looks, n)
    case _ => true
  }

  lemma PageEndsRightly(looks: seq<Moment>, n: nat, since: nat, target: nat, outcome: ScanOutcome)
    requires n <= |looks| && IsPage(looks[n..], since, target, outcome)
    ensures EndsRightly(outcome, looks)
  {
    var page := looks[n..];
    assert page[0] == looks[n] && page[|page| - 1] == looks[|looks| - 1];
    if outcome.Found? {
      assert outcome.n == |FoundOnPage(looks[|looks| - 2], since, looks[|looks| - 1])|;
    }
  }

  /** Looking for the candidates among the live leaves finds just those. */
  lemma CandidatesFound(page: Moment, since: nat, rows: Moment, compromised: set<string>)
    requires compromised == (set k | k in Candidates(PageOf(page.db, since, EndOf(page))) && LiveLeaf(rows.db, k))
    ensures compromised == FoundOnPage(page, since, rows)
    ensures compromised == {} ==> forall k | k in Candidates(PageOf(page.db, since, EndOf(page))) :: !Compromised(rows.db, k)
  {
    var results := PageOf(page.db, since, EndOf(page));
    forall k
      ensures k in Candidates(results) <==> IsListed(page, since, k) && !page.db.docs[k].deleted && !InNamespace(k)
    {
      if IsListed(page, since, k) {
        assert Change(k, page.db.docs[k].deleted) in results;
      }
    }
    forall k | compromised == {} && k in Candidates(results)
      ensures !Compromised(rows.db, k)
    {
      assert k !in compromised;
    }
  }

  lemma NoCandidates(page: Moment, since: nat)
    requires Candidates(PageOf(page.db, since, EndOf(page))) == {}
    ensures forall k | IsListed(page, since, k) :: page.db.docs[k].deleted || InNamespace(k)
    ensures PageOf(page.db, since, EndOf(page)) == {} <==> forall k :: !IsListed(page, since, k)
  {
    var results := PageOf(page.db, since, EndOf(page));
    forall k | IsListed(page, since, k)
      ensures Change(k, page.db.docs[k].deleted) in results && k !in Candidates(results)
    {
    }
    if results != {} {
      var c :| c in results;
      assert IsListed(page, since, c.id);
    }
  }

  lemma PageIsVerified(db: Database, used: set<string>, since: nat, last: nat, db': Database, databaseId: string, target: nat)
    requires last <= db.updateSeq && Verified(db', databaseId, since, target) && databaseId in used
    requires (Later(db, db') || db'.id !in used) && forall k | k in Candidates(PageOf(db, since, last)) :: !Compromised(db', k)
    ensures Verified(db', databaseId, last, target)
  {
    if db'.id == databaseId {
      PageIsClean(db, since, last, db');
    }
  }

  lemma NothingListed(results: set<Change>)
    requires results == {}
    ensures Candidates(results) == {}
  {
  }

  method ScanPage(w: World, databaseId: string, since: nat, target: nat) returns (outcome: ScanOutcome)
    requires w.Valid() && databaseId in w.used && since < target && Verified(w.db, databaseId, since, target)
    modifies w`db, w`future, w`used, w`looks
    ensures w.Valid() && w.GoesOn() && IsPage(w.looks[|old(w.looks)|..], since, target, outcome)
    ensures outcome.Through? ==> since < outcome.since && Verified(w.db, databaseId, outcome.since, target)
  {
    hide Possible, Evolves, ReceiptHolds, IsPlayed, Compromised, CleanUpTo, Verified, PageOf, Candidates, IsListed, FoundOnPage, LiveLeaf;
    ghost var before, used, n := w.db, w.used, |w.looks|;
    var page := w.Await();
    assert w.looks[n..] == [page];
    VerifiedStays(before, used, w.db, databaseId, since, target);
    if page.fails {
      return ScanFailed;
    }
    var lastSeq := EndOf(page);
    if page.opaqueSequence || lastSeq <= since {
      return Incomparable;
    }
    var results := PageOf(page.db, since, lastSeq);
    var candidates := Candidates(results);
    ghost var usedAtPage := w.used;
    if candidates != {} {
      var rows := w.Await();
      assert w.looks[n..] == [page, rows];
      VerifiedStays(page.db, usedAtPage, w.db, databaseId, since, target);
      if rows.fails {
        return ScanFailed;
      }
      var compromised := set k | k in candidates && LiveLeaf(rows.db, k);
      CandidatesFound(page, since, rows, compromised);
      if |compromised| > 0 {
        return Found(|compromised|);
      }
      assert compromised == {};
    } else {
      NoCandidates(page, since);
    }
    if results == {} && lastSeq < target {
      NothingListed(results);
      return Incomparable;
    }
    PageIsVerified(page.db, usedAtPage, since, lastSeq, w.db, databaseId, target);
    return Through(lastSeq);
  }

  method ScanChanges(w: World, databaseId: string, from: nat, target: nat) returns (outcome: ScanOutcome)
    requires w.Valid() && databaseId in w.used && from <= target && Verified(w.db, databaseId, from, target)
    modifies w`db, w`future, w`used, w`looks
    ensures w.Valid() && w.GoesOn() && EndsRightly(outcome, w.looks)
    ensures !outcome.Through? ==> |w.looks| > |old(w.looks)|
    ensures outcome.Through? ==> target <= outcome.since && Verified(w.db, databaseId, outcome.since, target)
  {
    var since := from;
    while since < target
      invariant w.Valid() && w.GoesOn() && Verified(w.db, databaseId, since, target)
      decreases target - since
    {
      ghost var n := |w.looks|;
      outcome := ScanPage(w, databaseId, since, target);
      PageEndsRightly(w.looks, n, since, target, outcome);
      if !outcome.Through? {
        return outcome;
      }
      since := outcome.since;
    }
    return Through(since);
  }

  // ----- the whole check -----

  /**
   * A sequence equal to the verified one proves a database clean exactly if it is the database that the receipt
   * names. The quick path compares that name only with the identity it asked for before it looked at the sequence.
   */
  lemma QuickPathIsSoundIff(receipt: Stored, used: set<string>, id: string)
    requires CurrentReceipt(receipt) && receipt.databaseId in used
    ensures (forall db: Database | db.id == id && db.updateSeq == receipt.verifiedSequence && WellFormed(db) && ReceiptHolds(receipt, db, used) :: Clean(db))
            <==> id == receipt.databaseId
  {
    if id != receipt.databaseId {
      var db := Database(id, receipt.verifiedSequence, map["x" := Doc(0, false, true)]);
      assert WellFormed(db) && ReceiptHolds(receipt, db, used);
      assert Compromised(db, "x");
    } else {
      forall db: Database | db.id == id && db.updateSeq == receipt.verifiedSequence && WellFormed(db) && ReceiptHolds(receipt, db, used)
        ensures Clean(db)
      {
        NothingBehindIsClean(db, receipt.verifiedSequence);
      }
    }
  }

  /** The identity is asked for, the sequence is looked at, the receipt is loaded, and all of it agrees. */
  predicate TakesQuickPath(stored: Stored, identity: Moment, initial: Moment, loaded: Moment) {
    && !identity.fails && !initial.fails && !loaded.fails
    && !identity.noIdentity && identity.db.id != "" && !initial.opaqueSequence
    && CleanChunkReceipt(stored, identity.db.id, initial.db.updateSeq) && stored.verifiedSequence == initial.db.updateSeq
  }

  // A result of 0 rests on one of three things; `n` is the number of looks before the check began.

  /** The saved receipt covers what the second look saw, if that is the database that the first one identified. */
  ghost predicate ZeroByReceipt(stored: Stored, looks: seq<Moment>, n: nat) {
    && |looks| == n + 3 && TakesQuickPath(stored, looks[n], looks[n + 1], looks[n + 2])
    && stored == Receipt(1, "leaf-h-namespace-v1", looks[n].db.id, looks[n + 1].db.updateSeq)
    && (looks[n + 1].db.id == looks[n].db.id ==> Clean(looks[n + 1].db))
  }

  /** The final look at the sequence, before identity and receipt, was at a clean database. */
  ghost predicate ZeroByScan(looks: seq<Moment>, n: nat, databaseId: string) {
    |looks| >= n + 4 && Clean(looks[|looks| - 3].db) && looks[|looks| - 3].db.id == looks[|looks| - 2].db.id == databaseId
  }

  /** The last three looks, at everything, found nothing: what is as it was when they began is clean. */
  ghost predicate ZeroByFullCheck(looks: seq<Moment>, n: nat) {
    var k := |looks|;
    && k >= n + 4 && IsFullCheck(looks[k - 3..], Count(0))
    && (Later(looks[k - 4].db, looks[k - 1].db) ==> CleanUpTo(looks[k - 1].db, looks[k - 4].db.updateSeq))
  }

  /** Why a check may come to nothing: a call has failed, the database is another one, or it is being written. */
  ghost predicate Disturbed(looks: seq<Moment>, n: nat, databaseId: string) {
    && |looks| > n
    && var last := looks[|looks| - 1];
       || last.fails || last.opaqueSequence || last.noIdentity || last.db.id != databaseId
       || exists i :: n <= i < |looks| && looks[i].db.updateSeq != last.db.updateSeq
  }

  lemma FailedLookDisturbs(looks: seq<Moment>, n: nat, databaseId: string)
    requires |looks| > n && looks[|looks| - 1].fails
    ensures Disturbed(looks, n, databaseId)
  {
  }

  lemma ReceiptCovers(stored: Stored, looks: seq<Moment>, n: nat, used: set<string>)
    requires |looks| == n + 3 && TakesQuickPath(stored, looks[n], looks[n + 1], looks[n + 2])
    requires WellFormed(looks[n + 1].db) && ReceiptHolds(stored, looks[n + 1].db, used)
    ensures ZeroByReceipt(stored, looks, n)
  {
    if looks[n + 1].db.id == looks[n].db.id {
      NothingBehindIsClean(looks[n + 1].db, stored.verifiedSequence);
    }
  }

  /** A positive count is exact, of a page or of everything, and was true of a state that was seen since the `n`-th look. */
  ghost predicate CountIsTrue(looks: seq<Moment>, n: nat, count: nat) {
    && SawUnclean(looks, n)
    && (|| IsPageCount(looks, count)
        || (|looks| >= 2 && IsFullCheck(looks[|looks| - 2..], Count(count)))
        || (|looks| >= 3 && IsFullCheck(looks[|looks| - 3..], Count(count))))
  }

  lemma FullCountIsTrue(looks: seq<Moment>, n: nat, k: nat, count: nat)
    requires n <= k <= |looks| && IsFullCheck(looks[k..], Count(count)) && SawUnclean(looks, k)
    ensures CountIsTrue(looks, n, count)
  {
  }

  lemma PageCountIsTrue(looks: seq<Moment>, n: nat, count: nat)
    requires |looks| > n && count > 0 && IsPageCount(looks, count)
    ensures CountIsTrue(looks, n, count)
  {
    var page, rows := looks[|looks| - 2], looks[|looks| - 1];
    var since: nat :| count == |FoundOnPage(page, since, rows)|;
    assert FoundOnPage(page, since, rows) != {};
    var k :| k in FoundOnPage(page, since, rows);
    assert Compromised(rows.db, k);
  }

  /** The looks of a full check at the end of all looks. */
  lemma FullCheckAtEnd(looks: seq<Moment>, k: nat, n: nat)
    requires n < k <= |looks| && IsFullCheck(looks[k..], Count(0))
    requires Later(looks[k - 1].db, looks[|looks| - 1].db) ==> CleanUpTo(looks[|looks| - 1].db, looks[k - 1].db.updateSeq)
    ensures ZeroByFullCheck(looks, n)
  {
    assert |looks| == k + 3;
  }

  /** The check of the last resort, when something has been looked at before. */
  method FallBack(w: World, ghost n: nat, ghost databaseId: string) returns (r: Result)
    requires w.Valid() && n < |w.looks|
    modifies w`db, w`future, w`used, w`looks
    ensures w.Valid() && w.GoesOn()
    ensures r.Count? && r.n > 0 ==> CountIsTrue(w.looks, n, r.n)
    ensures r == Count(0) ==> ZeroByFullCheck(w.looks, n)
    ensures r == Failed ==> Disturbed(w.looks, n, databaseId)
  {
    r := FullLocalCheck(w);
    if r == Count(0) {
      FullCheckAtEnd(w.looks, |old(w.looks)|, n);
    } else if r.Count? {
      FullCountIsTrue(w.looks, n, |old(w.looks)|, r.n);
    }
  }

  /** What was verified is so at the snapshot, whose sequence is the target. */
  lemma SnapshotVerifies(db: Database, used: set<string>, db': Database, databaseId: string, from: nat)
    requires Verified(db, databaseId, from, from) && databaseId in used && (Later(db, db') || db'.id !in used)
    ensures Verified(db', databaseId, from, db'.updateSeq)
  {
    VerifiedStays(db, used, db', databaseId, from, from);
  }

  lemma CleanEverywhereStays(db: Database, db': Database, target: nat)
    requires Clean(db) && Later(db, db') && target <= db.updateSeq
    ensures Verified(db', db.id, target, target)
  {
    CleanStays(db, db', target);
  }

  /** The sequence must not have moved on since the snapshot, and the database must still be the identified one. */
  method FinalLook(w: World, databaseId: string, target: nat, since: nat, ghost n: nat, ghost atSnapshot: nat) returns (r: Result)
    requires w.Valid() && databaseId in w.used && target <= since && Verified(w.db, databaseId, since, target)
    requires n <= atSnapshot < |w.looks| && n < |w.looks| && w.looks[atSnapshot].db.updateSeq == target
    modifies w`db, w`stored, w`future, w`used, w`looks
    ensures w.Valid() && w.GoesOn()
    ensures if r == Count(0) then
              ZeroByScan(w.looks, n, databaseId) && w.stored == Receipt(1, POLICY, databaseId, target)
            else r == Failed && Disturbed(w.looks, n, databaseId) && w.stored == old(w.stored)
  {
    hide Possible, Evolves, Clean, Compromised;
    ghost var before, used := w.db, w.used;
    var final := w.Await();
    if final.fails || final.opaqueSequence || final.db.updateSeq < target || final.db.updateSeq > since {
      assert final.db.updateSeq != target ==> w.looks[atSnapshot].db.updateSeq != w.looks[|w.looks| - 1].db.updateSeq;
      return Failed;
    }
    VerifiedStays(before, used, w.db, databaseId, since, target);
    ghost var usedAtFinal := w.used;
    var identity := w.Await();
    if identity.fails || identity.noIdentity || identity.db.id != databaseId {
      return Failed;
    }
    assert final.db.id == databaseId;
    NothingBehindIsClean(final.db, since);
    before, used := w.db, w.used;
    CleanEverywhereStays(final.db, w.db, target);
    var written := w.Await();
    if written.fails {
      return Failed;
    }
    VerifiedStays(before, used, w.db, databaseId, target, target);
    w.stored := Receipt(1, POLICY, databaseId, target);
    return Count(0);
  }

  /** The part behind the receipt: from a verified sequence up to now, and the final look. */
  method CheckFrom(w: World, databaseId: string, from: nat, ghost n: nat) returns (r: Result)
    requires w.Valid() && databaseId in w.used && Verified(w.db, databaseId, from, from) && n < |w.looks|
    modifies w`db, w`stored, w`future, w`used, w`looks
    ensures w.Valid() && w.GoesOn()
    ensures r.Count? && r.n > 0 ==> CountIsTrue(w.looks, n, r.n)
    ensures r == Count(0) ==> ZeroByScan(w.looks, n, databaseId) || ZeroByFullCheck(w.looks, n)
    ensures r == Failed ==> Disturbed(w.looks, n, databaseId)
    ensures w.stored == old(w.stored) ||
              (r == Count(0) && ZeroByScan(w.looks, n, databaseId) && w.stored.Receipt? && w.stored.databaseId == databaseId && w.stored.verifiedSequence >= from)
  {
    hide Possible, Evolves, ReceiptHolds, IsPlayed, Clean, CleanUpTo, Later, ZeroByScan, ZeroByFullCheck, IsPageCount, CountIsTrue, Disturbed, Verified;
    ghost var db0, used0 := w.db, w.used;
    var snapshot := w.Await();
    ghost var db, used := w.db, w.used;
    if snapshot.fails {
      FailedLookDisturbs(w.looks, n, databaseId);
      return Failed;
    }
    var target := snapshot.db.updateSeq;
    if snapshot.opaqueSequence || target < from {
      r := FallBack(w, n, databaseId);
      StillLater(db0, used0, db, used, w.db);
      return;
    }
    SnapshotVerifies(db0, used0, db, databaseId, from);
    ghost var atSnapshot := |w.looks| - 1;
    var outcome := ScanChanges(w, databaseId, from, target);
    ghost var db', used' := w.db, w.used;
    StillLater(db0, used0, db, used, db');
    match outcome {
      case ScanFailed =>
        FailedLookDisturbs(w.looks, n, databaseId);
        return Failed;
      case Found(count) =>
        PageCountIsTrue(w.looks, n, count);
        return Count(count);
      case Incomparable =>
        r := FallBack(w, n, databaseId);
        StillLater(db0, used0, db', used', w.db);
      case Through(since) =>
        r := FinalLook(w, databaseId, target, since, n, atSnapshot);
        StillLater(db0, used0, db', used', w.db);
    }
  }

  /** With a receipt the scan begins at its sequence, without one at the present sequence, after a look at everything. */
  method CheckSince(w: World, databaseId: string, initialSequence: nat, ghost n: nat) returns (r: Result)
    requires w.Valid() && databaseId in w.used && n < |w.looks| && (w.db.id == databaseId ==> initialSequence <= w.db.updateSeq)
    modifies w`db, w`stored, w`future, w`used, w`looks
    ensures w.Valid() && w.GoesOn()
    ensures r.Count? && r.n > 0 ==> CountIsTrue(w.looks, n, r.n)
    ensures r == Count(0) ==> ZeroByScan(w.looks, n, databaseId) || ZeroByFullCheck(w.looks, n)
    ensures r == Failed ==> Disturbed(w.looks, n, databaseId)
    ensures w.stored == old(w.stored) ||
              (r == Count(0) && ZeroByScan(w.looks, n, databaseId) && w.stored.Receipt? && w.stored.databaseId == databaseId)
  {
    hide Possible, Evolves, Clean, Compromised, IsFullCheck, IsPlayed, ZeroByScan, ZeroByFullCheck;
    var saved := w.stored;
    var valid := CleanChunkReceipt(saved, databaseId, initialSequence);
    var since := if valid then saved.verifiedSequence else initialSequence;
    if !valid {
      var full := FullLocalCheck(w);
      if full != Count(0) {
        if full == Failed {
          FailedLookDisturbs(w.looks, n, databaseId);
        } else {
          FullCountIsTrue(w.looks, n, |old(w.looks)|, full.n);
        }
        return full;
      }
    }
    r := CheckFrom(w, databaseId, since, n);
  }

  lemma SequenceStays(db: Database, used: set<string>, db': Database, databaseId: string)
    requires databaseId in used && (Later(db, db') || db'.id !in used)
    ensures db'.id == databaseId ==> db.id == databaseId && db.updateSeq <= db'.updateSeq
  {
  }

  /**
   * What a result means. A positive count was true of a state that was looked at. A 0 rests on the receipt, on a scan
   * behind which the database was clean, or on a look at everything. It comes to nothing only if it is disturbed. The
   * receipt only changes after a scan.
   */
  ghost predicate MeansWhatItSays(r: Result, looks: seq<Moment>, n: nat, saved: Stored, stored: Stored)
    requires n < |looks|
  {
    && (r.Count? && r.n > 0 ==> CountIsTrue(looks, n, r.n))
    && (r == Count(0) ==> ZeroByReceipt(saved, looks, n) || ZeroByScan(looks, n, looks[n].db.id) || ZeroByFullCheck(looks, n))
    && (r == Failed ==> Disturbed(looks, n, looks[n].db.id))
    && (stored == saved ||
          (r == Count(0) && ZeroByScan(looks, n, looks[n].db.id) && stored.Receipt? && stored.databaseId == looks[n].db.id))
  }

  method CheckIdentified(w: World, databaseId: string, ghost n: nat) returns (r: Result)
    requires w.Valid() && |w.looks| == n + 1 && databaseId == w.looks[n].db.id != "" && !w.looks[n].fails && !w.looks[n].noIdentity
    modifies w`db, w`stored, w`future, w`used, w`looks
    ensures w.Valid() && w.GoesOn() && MeansWhatItSays(r, w.looks, n, old(w.stored), w.stored)
    ensures n + 3 <= |w.script| && TakesQuickPath(old(w.stored), w.script[n], w.script[n + 1], w.script[n + 2]) ==>
              r == Count(0) && w.looks == w.script[..n + 3]
  {
    hide Possible, Evolves, ReceiptHolds, Clean, CleanUpTo, Later, Compromised, IsFullCheck, IsPlayed;
    hide CountIsTrue, Disturbed, ZeroByScan, ZeroByFullCheck, ZeroByReceipt;
    var initial := w.Await();
    ghost var db, used := w.db, w.used;
    PlayedInOrder(w.script, w.looks, w.future, w.db);
    if initial.fails {
      FailedLookDisturbs(w.looks, n, databaseId);
      return Failed;
    }
    if initial.opaqueSequence {
      r := FallBack(w, n, databaseId);
      StillLater(old(w.db), old(w.used), db, used, w.db);
      return;
    }
    var initialSequence := initial.db.updateSeq;
    assert WellFormed(w.looks[n + 1].db) && ReceiptHolds(w.stored, w.looks[n + 1].db, w.used);
    var loaded := w.Await();
    ghost var db', used' := w.db, w.used;
    StillLater(old(w.db), old(w.used), db, used, db');
    SequenceStays(db, used, db', databaseId);
    PlayedInOrder(w.script, w.looks, w.future, w.db);
    if loaded.fails {
      FailedLookDisturbs(w.looks, n, databaseId);
      return Failed;
    }
    var saved := w.stored;
    var valid := CleanChunkReceipt(saved, databaseId, initialSequence);
    if valid && saved.verifiedSequence == initialSequence {
      ReceiptCovers(saved, w.looks, n, used);
      return Count(0);
    }
    r := CheckSince(w, databaseId, initialSequence, n);
    StillLater(old(w.db), old(w.used), db', used', w.db);
  }

  /**
   * The whole check. Whatever happens in between, the receipt is true afterwards; and where the first looks agree with
   * it, nothing else is looked at.
   */
  method CountCompromisedChunksSinceReceipt(w: World) returns (r: Result)
    requires w.Valid()
    modifies w`db, w`stored, w`future, w`used, w`looks
    ensures w.Valid() && w.GoesOn() && |w.looks| > |old(w.looks)|
    ensures MeansWhatItSays(r, w.looks, |old(w.looks)|, old(w.stored), w.stored)
    ensures var n := |old(w.looks)|;
            n + 3 <= |w.script| && TakesQuickPath(old(w.stored), w.script[n], w.script[n + 1], w.script[n + 2]) ==>
              r == Count(0) && w.looks == w.script[..n + 3]
  {
    hide Possible, Evolves, ReceiptHolds, Clean, CleanUpTo, Later, Compromised, IsFullCheck, IsPlayed;
    hide CountIsTrue, Disturbed, ZeroByScan, ZeroByFullCheck, ZeroByReceipt;
    ghost var n := |w.looks|;
    var identity := w.Await();
    ghost var db, used := w.db, w.used;
    ghost var databaseId := w.looks[n].db.id;
    PlayedInOrder(w.script, w.looks, w.future, w.db);
    if identity.fails {
      FailedLookDisturbs(w.looks, n, databaseId);
      return Failed;
    }
    if identity.noIdentity || identity.db.id == "" {
      r := FallBack(w, n, databaseId);
    } else {
      r := CheckIdentified(w, identity.db.id, n);
    }
    StillLater(old(w.db), old(w.used), db, used, w.db);
  }

  lemma ReplacementIsPossible(db: Database, db': Database, future: seq<Moment>)
    requires |future| == 3 && future[0].db == db && future[1].db == db' && future[2].db == db'
    requires WellFormed(db) && WellFormed(db') && db'.id != db.id
    ensures Possible(db, {db.id}, future)
  {
    var used := {db.id} + {db.id};
    assert future[1..][1..][1..] == [];
    assert Possible(db', used + {db'.id} + {db'.id}, []);
    assert Possible(db', used + {db'.id}, future[1..][1..]);
    assert Possible(db, used, future[1..]);
  }

  const UNCLEAN := Database("b", 5, map["x" := Doc(1, false, true)])

  /** A world whose database is replaced by one that is not clean, between the first and the second look. */
  method ReplacedMeanwhile() returns (w: World)
    ensures fresh(w) && w.Valid() && w.looks == [] && w.stored == Receipt(1, POLICY, "a", 5)
    ensures w.script == [AtRest(Database("a", 5, map[])), AtRest(UNCLEAN), AtRest(UNCLEAN)]
  {
    var clean := Database("a", 5, map[]);
    w := new World;
    w.db, w.stored, w.used := clean, Receipt(1, POLICY, "a", 5), {"a"};
    w.future := [AtRest(clean), AtRest(UNCLEAN), AtRest(UNCLEAN)];
    w.script, w.looks := w.future, [];
    ReplacementIsPossible(clean, UNCLEAN, w.future);
  }

  /** Between the look at the identity and the look at the sequence the database is replaced by one that is not clean. */
  method QuickPathOnReplacedDatabase() returns (w: World, r: Result)
    ensures w.Valid() && r == Count(0) && !Clean(w.db)
  {
    w := ReplacedMeanwhile();
    assert Compromised(UNCLEAN, "x");
    hide Possible, Later, Evolves, MeansWhatItSays, IsPlayed, ReceiptHolds, WellFormed;
    r := CountCompromisedChunksSinceReceipt(w);
    assert w.looks[|w.looks| - 1].db == UNCLEAN;
  }
}
