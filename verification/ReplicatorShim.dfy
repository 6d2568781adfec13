/**
 * `replicateShim`: revisions are carried from a source to a target in batches, with a checkpoint on the target
 * for each mark of the source. A script answers for the outside world; where it ends, the process stops.
 */
module ReplicatorShim {

  import opened Options
  import opened ChangesFeed

  datatype Revision = Revision(id: string, rev: string)

  /** One change of the source, with the leaf revisions that `style: "all_docs"` lists. */
  type LeafFeed = Feed<seq<string>>

  function LeavesOf(row: Row<seq<string>>): set<Revision> {
    set rev | rev in row.value :: Revision(row.id, rev)
  }

  /** Every revision listed in front of a position is among `held`. */
  ghost predicate Holds(feed: LeafFeed, upTo: nat, held: set<Revision>) {
    upTo <= |feed| && forall i | 0 <= i < upTo && Current(feed, i) :: LeavesOf(feed[i]) <= held
  }

  lemma HoldsStays(feed: LeafFeed, upTo: nat, held: set<Revision>, feed': LeafFeed, held': set<Revision>)
    requires Holds(feed, upTo, held) && feed <= feed' && held <= held'
    ensures Holds(feed', upTo, held')
  {
    forall i | 0 <= i < upTo && Current(feed', i)
      ensures LeavesOf(feed'[i]) <= held'
    {
      CurrentBefore(feed, feed', i);
    }
  }

  // ----- one batch -----

  /** The changes listed between two positions. */
  function Results(feed: LeafFeed, from: nat, until: nat): (results: seq<Row<seq<string>>>)
    requires from <= until <= |feed|
    ensures forall i | from <= i < until && Current(feed, i) :: feed[i] in results
    decreases until - from
  {
    if from == until then []
    else (if Current(feed, from) then [feed[from]] else []) + Results(feed, from + 1, until)
  }

  lemma HoldsWithinFeed(feed: LeafFeed, upTo: nat, held: set<Revision>)
    requires Holds(feed, upTo, held)
    ensures upTo <= |feed|
  {
  }

  lemma NothingBetween(feed: LeafFeed, at: nat)
    requires at <= |feed|
    ensures Results(feed, at, at) == []
  {
  }

  lemma BatchTakesNextRow(feed: LeafFeed, from: nat, limit: nat)
    requires from <= |feed| && limit > 0 && NextRow(feed, from) < |feed|
    ensures feed[NextRow(feed, from)] in Results(feed, from, BatchEnd(feed, from, limit))
  {
    var next := NextRow(feed, from);
    assert BatchEnd(feed, from, limit) == BatchEnd(feed, next + 1, limit - 1);
  }

  /** A batch without a result means that nothing is listed any more. */
  lemma EmptyBatchIsTheEnd(feed: LeafFeed, from: nat, limit: nat, held: set<Revision>)
    requires from <= |feed| && limit > 0 && Results(feed, from, BatchEnd(feed, from, limit)) == []
    requires Holds(feed, from, held)
    ensures Holds(feed, |feed|, held)
  {
    if NextRow(feed, from) < |feed| {
      BatchTakesNextRow(feed, from, limit);
    }
  }

  /** buildRevsDiffParam: the revisions asked for, by document. */
  function ParamOf(results: seq<Row<seq<string>>>): (param: map<string, seq<string>>)
    ensures forall row | row in results :: row.id in param && forall rev | rev in row.value :: rev in param[row.id]
    ensures forall id | id in param :: forall rev | rev in param[id] :: exists row :: row in results && row.id == id && rev in row.value
  {
    if results == [] then map[]
    else
      var front, last := results[..|results| - 1], results[|results| - 1];
      var before := ParamOf(front);
      before[last.id := (if last.id in before then before[last.id] else []) + last.value]
  }

  method BuildRevsDiffParam(changesResults: seq<Row<seq<string>>>) returns (param: map<string, seq<string>>)
    ensures param == ParamOf(changesResults)
  {
    param := map[];
    for i := 0 to |changesResults|
      invariant param == ParamOf(changesResults[..i])
    {
      var change := changesResults[i];
      assert changesResults[..i + 1][..i] == changesResults[..i];
      param := param[change.id := (if change.id in param then param[change.id] else []) + change.value];
    }
    assert changesResults[..|changesResults|] == changesResults;
  }

  /** All the revisions in the parameter. */
  function Requested(param: map<string, seq<string>>): set<Revision> {
    set id, rev | id in param && rev in param[id] :: Revision(id, rev)
  }

  /** They are exactly the listed ones. */
  lemma RequestedIsListed(results: seq<Row<seq<string>>>)
    ensures Requested(ParamOf(results)) == set row, r | row in results && r in LeavesOf(row) :: r
  {
    var listed := set row, r | row in results && r in LeavesOf(row) :: r;
    forall r | r in Requested(ParamOf(results))
      ensures r in listed
    {
      var row :| row in results && row.id == r.id && r.rev in row.value;
      assert r in LeavesOf(row);
    }
  }

  /** Nothing is asked for that lies in front of a position up to which everything is held: replaying is idle. */
  lemma ReplayAsksForNothing(feed: LeafFeed, from: nat, until: nat, upTo: nat, target: set<Revision>)
    requires from <= until <= upTo && Holds(feed, upTo, target)
    ensures Requested(ParamOf(Results(feed, from, until))) <= target
  {
    RequestedIsListed(Results(feed, from, until));
    forall r | r in Requested(ParamOf(Results(feed, from, until)))
      ensures r in target
    {
      var row :| row in Results(feed, from, until) && r in LeavesOf(row);
      ResultsAreListed(feed, from, until, row);
    }
  }

  lemma {:induction false} ResultsAreListed(feed: LeafFeed, from: nat, until: nat, row: Row<seq<string>>)
    requires from <= until <= |feed| && row in Results(feed, from, until)
    ensures exists i :: from <= i < until && Current(feed, i) && feed[i] == row
    decreases until - from
  {
    if !(Current(feed, from) && feed[from] == row) {
      ResultsAreListed(feed, from + 1, until, row);
    }
  }

  /**
   * Behind a batch everything is held exactly if every requested revision is. The code stores the checkpoint
   * without looking at what came back, so a single withheld revision makes it unsafe.
   */
  lemma BatchIsHeldIff(feed: LeafFeed, from: nat, until: nat, held: set<Revision>)
    requires from <= until <= |feed| && Holds(feed, from, held)
    ensures Holds(feed, until, held) <==> Requested(ParamOf(Results(feed, from, until))) <= held
  {
    if Holds(feed, until, held) {
      ReplayAsksForNothing(feed, from, until, until, held);
    } else {
      RequestedIsListed(Results(feed, from, until));
      var i :| 0 <= i < until && Current(feed, i) && !(LeavesOf(feed[i]) <= held);
      var row := feed[i];
      assert row in Results(feed, from, until);
      var r :| r in LeavesOf(row) && r !in held;
      assert r in Requested(ParamOf(Results(feed, from, until)));
    }
  }

  /** The source lists a revision and does not return it: the end of the batch is no safe position. */
  lemma WithheldRevisionIsPassed()
    ensures var feed: LeafFeed := [Row("a", ["1-x"])];
            && Holds(feed, 0, {}) && BatchEnd(feed, 0, 1) == 1
            && Revision("a", "1-x") in Requested(ParamOf(Results(feed, 0, 1))) && !Holds(feed, 1, {})
  {
    var feed: LeafFeed := [Row("a", ["1-x"])];
    assert Current(feed, 0) && Revision("a", "1-x") in LeavesOf(feed[0]);
    RequestedIsListed(Results(feed, 0, 1));
    assert feed[0] in Results(feed, 0, 1);
  }

  lemma BatchIsHeld(feed: LeafFeed, from: nat, until: nat, held: set<Revision>, feed': LeafFeed, held': set<Revision>)
    requires from <= until <= |feed| && Holds(feed, from, held) && feed <= feed' && held <= held'
    requires Requested(ParamOf(Results(feed, from, until))) <= held'
    ensures Holds(feed', until, held')
  {
    HoldsStays(feed, from, held, feed, held');
    BatchIsHeldIff(feed, from, until, held');
    HoldsStays(feed, until, held', feed', held');
  }

  // ----- the protocol -----

  datatype Answer =
    | Fine
    | Broken                           // the call fails
    | Withheld(revisions: set<Revision>) // the source does not return these, or the target does not take them
    | Aborted                          // the controller has been aborted
    | Rebuilt(feed: LeafFeed)          // the source has been rebuilt; its mark is gone

  /** What the outside world brings: changes of the source, revisions the target got from elsewhere, the clock. */
  datatype Event = Event(appended: LeafFeed, others: set<Revision>, now: int, answer: Answer)

  datatype Outcome = Completed | Interrupted | Failed | Stopped

  /** How one turn of the loop ends: with the next position, or for good. */
  datatype Turn = Onwards(since: nat) | Ends(outcome: Outcome)

  // ----- what events come to -----

  predicate NothingWithheld(events: seq<Event>) {
    forall e | e in events :: !e.answer.Withheld?
  }

  /** No call fails and the source does not change. */
  predicate IsCalm(events: seq<Event>) {
    forall i | 0 <= i < |events| :: events[i].appended == [] && (events[i].answer.Fine? || events[i].answer.Withheld?)
  }

  lemma RestOfScript(script: seq<Event>)
    requires script != []
    ensures NothingWithheld(script) ==> NothingWithheld(script[1..]) && !script[0].answer.Withheld?
    ensures IsCalm(script) ==> IsCalm(script[1..]) && script[0].appended == [] && (script[0].answer.Fine? || script[0].answer.Withheld?)
  {
  }

  function FeedAfter(feed: LeafFeed, events: seq<Event>): LeafFeed {
    if events == [] then feed
    else
      var last := events[|events| - 1];
      if last.answer.Rebuilt? then last.answer.feed else FeedAfter(feed, events[..|events| - 1]) + last.appended
  }

  function AllLeaves(feed: LeafFeed): set<Revision> {
    set row, r | row in feed && r in LeavesOf(row) :: r
  }

  /** Every revision that the source has listed at some time. */
  function ListedBy(feed: LeafFeed, events: seq<Event>): set<Revision> {
    if events == [] then AllLeaves(feed)
    else
      var last := events[|events| - 1];
      ListedBy(feed, events[..|events| - 1]) + AllLeaves(last.appended) + if last.answer.Rebuilt? then AllLeaves(last.answer.feed) else {}
  }

  function OthersOf(events: seq<Event>): set<Revision> {
    set e, r | e in events && r in e.others :: r
  }

  function WithheldBy(events: seq<Event>): set<Revision> {
    set e, r | e in events && e.answer.Withheld? && r in e.answer.revisions :: r
  }

  lemma {:induction false} FeedWasListed(feed: LeafFeed, events: seq<Event>)
    ensures AllLeaves(FeedAfter(feed, events)) <= ListedBy(feed, events)
  {
    if events != [] {
      FeedWasListed(feed, events[..|events| - 1]);
    }
  }

  lemma OneMoreEvent(feed: LeafFeed, events: seq<Event>, e: Event)
    ensures FeedAfter(feed, events + [e]) == if e.answer.Rebuilt? then e.answer.feed else FeedAfter(feed, events) + e.appended
    ensures ListedBy(feed, events) <= ListedBy(feed, events + [e])
    ensures OthersOf(events + [e]) == OthersOf(events) + e.others
    ensures WithheldBy(events) <= WithheldBy(events + [e])
    ensures e.answer.Withheld? ==> e.answer.revisions <= WithheldBy(events + [e])
  {
    assert (events + [e])[..|events|] == events;
    assert e in events + [e];
  }

  lemma RequestedWasListed(feed: LeafFeed, events: seq<Event>, now: LeafFeed, from: nat, until: nat)
    requires now == FeedAfter(feed, events) && from <= until <= |now|
    ensures Requested(ParamOf(Results(now, from, until))) <= ListedBy(feed, events)
  {
    hide ListedBy, FeedAfter;
    var results := Results(now, from, until);
    RequestedIsListed(results);
    FeedWasListed(feed, events);
    forall r | r in Requested(ParamOf(results))
      ensures r in AllLeaves(now)
    {
      var row :| row in results && r in LeavesOf(row);
      ResultsAreListed(now, from, until, row);
    }
  }

  /** How a run that did not complete came to its end: by what the last event behind the `n`-th brought. */
  ghost predicate EndsRightly(outcome: Outcome, events: seq<Event>, script: seq<Event>, n: nat) {
    match outcome
    case Completed => true
    case Interrupted => |events| > n && events[|events| - 1].answer.Aborted?
    case Failed => |events| > n && events[|events| - 1].answer.Broken?
    case Stopped => script == []
  }

  /** The state in which the world was first seen. */
  datatype Start = Start(feed: LeafFeed, target: set<Revision>, lost: set<Revision>)

  class Replication {
    var feed: LeafFeed
    var mark: Option<int>
    var target: set<Revision>
    var checkpoints: map<int, nat>
    var script: seq<Event>

    ghost var lost: set<Revision>  // revisions that were asked for in vain
    ghost var marks: set<int>      // marks that have been used
    ghost var start: Start
    ghost var past: seq<Event>     // the events so far

    /** Everything listed in front of the checkpoint of the current mark is in the target, unless it was asked for in vain. */
    ghost predicate CheckpointIsSafe()
      reads this
    {
      mark.Some? && mark.value in checkpoints ==> Holds(feed, checkpoints[mark.value], target + lost)
    }

    /** The clock gives no time twice, so a new mark has no checkpoint. */
    ghost predicate ClockMovesOn()
      reads this
    {
      && checkpoints.Keys <= marks
      && (mark.Some? ==> mark.value in marks)
      && (forall i | 0 <= i < |script| :: script[i].now !in marks)
      && (forall i, j | 0 <= i < j < |script| :: script[i].now != script[j].now)
    }

    /**
     * The source lists what the events have made of its feed. Nothing is lost that was not withheld, and nothing gets
     * into the target but from others or from the source.
     */
    ghost predicate HistoryIsTrue()
      reads this
    {
      && feed == FeedAfter(start.feed, past)
      && lost <= start.lost + WithheldBy(past)
      && target <= start.target + OthersOf(past) + ListedBy(start.feed, past)
    }

    ghost predicate Valid()
      reads this
    {
      CheckpointIsSafe() && ClockMovesOn() && HistoryIsTrue()
    }

    /** While the mark stays, the feed only grows; the target only gains; the script is played event by event. */
    twostate predicate Progress()
      reads this
    {
      && (mark.Some? && mark == old(mark) ==> old(feed) <= feed)
      && old(target) <= target && old(lost) <= lost && old(marks) <= marks
      && old(past) <= past && past + script == old(past) + old(script)
      && ListedBy(start.feed, old(past)) <= ListedBy(start.feed, past) && WithheldBy(old(past)) <= WithheldBy(past)
      && (NothingWithheld(old(script)) ==> NothingWithheld(script) && lost == old(lost))
      && (IsCalm(old(script)) ==> IsCalm(script) && feed == old(feed))
      && (forall k | k in old(checkpoints) :: k in checkpoints && old(checkpoints)[k] <= checkpoints[k])
    }

    /** The source has been rebuilt since the `n`-th event. */
    ghost predicate RebuiltSince(n: nat)
      reads this
    {
      exists i :: n <= i < |past| && past[i].answer.Rebuilt?
    }

    /** The mark of the source only goes when the source is rebuilt. */
    twostate predicate MarkStaysOrGoes()
      reads this
    {
      marks == old(marks) && (mark == old(mark) || (mark == None && RebuiltSince(|old(past)|)))
    }

    /** While nothing but calm events come, the source is not rebuilt. */
    twostate lemma CalmSourceIsNotRebuilt()
      requires IsCalm(old(script)) && old(past) <= past && past + script == old(past) + old(script)
      ensures !RebuiltSince(|old(past)|)
    {
      forall i | |old(past)| <= i < |past|
        ensures !past[i].answer.Rebuilt?
      {
        assert past[i] == (past + script)[i] == old(script)[i - |old(past)|];
      }
    }

    method Next() returns (e: Option<Event>)
      requires Valid()
      modifies this`feed, this`mark, this`target, this`script, this`past
      ensures Valid() && Progress() && MarkStaysOrGoes()
      ensures if old(script) == [] then e == None && past == old(past) else e == Some(old(script)[0]) && past == old(past) + [e.value]
      ensures e.None? ==> feed == old(feed) && mark == old(mark) && target == old(target)
      ensures e.Some? && e.value.answer.Withheld? ==> e.value.answer.revisions <= WithheldBy(past) && !NothingWithheld(old(script))
      ensures e.Some? && IsCalm(old(script)) ==> e.value.answer.Fine? || e.value.answer.Withheld?
      ensures e.Some? ==> e.value.now !in marks && forall i | 0 <= i < |script| :: script[i].now != e.value.now
    {
      hide ListedBy, FeedAfter, OthersOf, WithheldBy, Holds, IsCalm, NothingWithheld;
      if script == [] {
        return None;
      }
      RestOfScript(script);
      var event := script[0];
      assert script == [event] + script[1..];
      OneMoreEvent(start.feed, past, event);
      ghost var before := past;
      assert before + ([event] + script[1..]) == before + [event] + script[1..];
      script, target := script[1..], target + event.others;
      past := past + [event];
      if event.answer.Rebuilt? {
        feed, mark := event.answer.feed, None;
        assert past[|old(past)|] == event;
      } else {
        feed := feed + event.appended;
        if mark.Some? && mark.value in checkpoints {
          HoldsStays(old(feed), checkpoints[mark.value], old(target) + lost, feed, target + lost);
        }
      }
      return Some(event);
    }

    /** The mark of the source: the old one, or a new one from the clock. */
    method UpsertMark(rewind: bool) returns (outcome: Outcome, m: int)
      requires Valid()
      modifies this`feed, this`mark, this`target, this`script, this`marks, this`past
      ensures Valid() && Progress() && EndsRightly(outcome, past, script, |old(past)|)
      ensures outcome == Completed ==> mark == Some(m) && m in marks && |past| > |old(past)|
      ensures outcome == Completed && rewind ==> Some(m) != old(mark)
      ensures outcome == Completed && !rewind && old(mark).Some? && !RebuiltSince(|old(past)|) ==> Some(m) == old(mark)
      ensures outcome == Completed && Some(m) != old(mark) ==> m == past[|past| - 1].now
      ensures IsCalm(old(script)) && old(script) != [] ==> outcome == Completed && |script| == |old(script)| - 1
      ensures outcome == Completed && Some(m) != old(mark) ==> m !in old(marks) && m !in checkpoints
      ensures outcome != Completed ==> MarkStaysOrGoes()
      ensures outcome in {Completed, Failed, Stopped}
    {
      hide ListedBy, FeedAfter, OthersOf, WithheldBy, Holds, IsCalm, NothingWithheld;
      m := 0;
      var e := Next();
      if e == None {
        return Stopped, m;
      }
      if e.value.answer.Broken? {
        return Failed, m;
      }
      if rewind || mark == None {
        mark, marks := Some(e.value.now), marks + {e.value.now};
      }
      return Completed, mark.value;
    }

    /** One batch behind its changes request; the result says whether its end may become the checkpoint. */
    method CarryOver(requested: set<Revision>) returns (outcome: Outcome)
      requires Valid() && requested <= ListedBy(start.feed, past)
      modifies this`feed, this`mark, this`target, this`script, this`lost, this`past
      ensures Valid() && Progress() && MarkStaysOrGoes() && EndsRightly(outcome, past, script, |old(past)|)
      ensures outcome == Completed ==> requested <= target + lost
      ensures lost <= old(lost) + (requested - old(target))
      ensures IsCalm(old(script)) && old(script) != [] && requested <= old(target) ==> outcome == Completed && |script| == |old(script)| - 1
      ensures IsCalm(old(script)) && |old(script)| >= 4 ==> outcome == Completed && |script| >= |old(script)| - 4
    {
      hide ListedBy, FeedAfter, OthersOf, WithheldBy, IsCalm, NothingWithheld, Holds;
      var diffed := Next();
      if diffed == None {
        return Stopped;
      }
      if diffed.value.answer.Broken? {
        return Failed;
      }
      var missing := requested - target;
      if missing == {} {
        assert forall r | r in requested :: r !in missing;
        return Completed;
      }
      ghost var known := target;
      outcome := FetchAndWrite(missing);
      if outcome != Completed {
        return;
      }
      assert forall r | r in requested :: r in missing || r in known;
      var refreshed := Next();
      if refreshed == None {
        return Stopped;
      }
      return if refreshed.value.answer.Broken? then Failed else Completed;
    }

    /** bulkGet at the source and bulkDocs at the target. */
    method FetchAndWrite(missing: set<Revision>) returns (outcome: Outcome)
      requires Valid() && missing <= ListedBy(start.feed, past)
      modifies this`feed, this`mark, this`target, this`script, this`lost, this`past
      ensures Valid() && Progress() && MarkStaysOrGoes() && EndsRightly(outcome, past, script, |old(past)|)
      ensures outcome == Completed ==> missing <= target + lost
      ensures lost <= old(lost) + missing
      ensures IsCalm(old(script)) && |old(script)| >= 2 ==> outcome == Completed && |script| >= |old(script)| - 2
    {
      hide ListedBy, FeedAfter, OthersOf, WithheldBy, NothingWithheld, Holds, IsCalm;
      var fetched := Next();
      if fetched == None {
        return Stopped;
      }
      if fetched.value.answer.Broken? {
        return Failed;
      }
      var docs := if fetched.value.answer.Withheld? then missing - fetched.value.answer.revisions else missing;
      var written := Next();
      if written == None {
        return Stopped;
      }
      if written.value.answer.Broken? {
        return Failed;
      }
      var taken := if written.value.answer.Withheld? then docs - written.value.answer.revisions else docs;
      Gain(taken, missing - taken);
      return Completed;
    }

    method Gain(taken: set<Revision>, ghost withheld: set<Revision>)
      requires Valid() && taken <= ListedBy(start.feed, past) && withheld <= WithheldBy(past)
      modifies this`target, this`lost
      ensures Valid() && target == old(target) + taken && lost == old(lost) + withheld
    {
      ghost var held := target + lost;
      target, lost := target + taken, lost + withheld;
      if mark.Some? && mark.value in checkpoints {
        HoldsStays(feed, checkpoints[mark.value], held, feed, target + lost);
      }
    }

    /** The upsert of the checkpoint document. */
    method SaveCheckpoint(m: int, since: nat) returns (outcome: Outcome)
      requires Valid() && m in marks && (mark == Some(m) ==> Holds(feed, since, target + lost))
      requires m in checkpoints ==> checkpoints[m] <= since
      modifies this`feed, this`mark, this`target, this`script, this`checkpoints, this`past
      ensures Valid() && Progress() && MarkStaysOrGoes() && EndsRightly(outcome, past, script, |old(past)|)
      ensures mark == Some(m) ==> Holds(feed, since, target + lost)
      ensures checkpoints == if outcome == Completed then old(checkpoints)[m := since] else old(checkpoints)
      ensures IsCalm(old(script)) && old(script) != [] ==> outcome == Completed && |script| == |old(script)| - 1
    {
      hide ListedBy, FeedAfter, OthersOf, WithheldBy, IsCalm, NothingWithheld, Holds;
      var e := Next();
      if mark == Some(m) {
        HoldsStays(old(feed), since, old(target) + lost, feed, target + lost);
      }
      if e == None {
        return Stopped;
      }
      if e.value.answer.Broken? {
        return Failed;
      }
      checkpoints := checkpoints[m := since];
      return Completed;
    }

    /** Behind the changes request: what the target lacks of a batch, and the checkpoint at its end. */
    method CarryBatch(key: int, results: seq<Row<seq<string>>>, ghost since: nat, lastSeq: nat) returns (outcome: Outcome)
      requires Valid() && since <= lastSeq <= |feed| && results == Results(feed, since, lastSeq)
      requires key in marks && (mark == Some(key) ==> Holds(feed, since, target + lost)) && (key in checkpoints ==> checkpoints[key] <= lastSeq)
      modifies this`feed, this`mark, this`target, this`script, this`lost, this`checkpoints, this`past
      ensures Valid() && Progress() && MarkStaysOrGoes() && EndsRightly(outcome, past, script, |old(past)|)
      ensures outcome == Completed && mark == Some(key) ==> Holds(feed, lastSeq, target + lost)
      ensures checkpoints == if outcome == Completed then old(checkpoints)[key := lastSeq] else old(checkpoints)
      ensures IsCalm(old(script)) && |old(script)| >= 5 ==> outcome == Completed && |script| >= |old(script)| - 5
    {
      hide Requested, ParamOf, Results, ListedBy, FeedAfter, OthersOf, WithheldBy, Holds, IsCalm, NothingWithheld;
      ghost var feed1, held1 := feed, target + lost;
      var param := BuildRevsDiffParam(results);
      RequestedWasListed(start.feed, past, feed, since, lastSeq);
      outcome := CarryOver(Requested(param));
      if outcome != Completed {
        return;
      }
      if mark == Some(key) {
        BatchIsHeld(feed1, since, lastSeq, held1, feed, target + lost);
      }
      outcome := SaveCheckpoint(key, lastSeq);
    }

    /** One turn of the loop: Done is how the run ends, Onwards where the next turn begins. */
    method OneBatch(key: int, since: nat, batchSize: nat) returns (turn: Turn)
      requires Valid() && batchSize > 0 && key in marks && (mark == Some(key) ==> Holds(feed, since, target + lost))
      requires key in checkpoints ==> checkpoints[key] == since
      modifies this`feed, this`mark, this`target, this`script, this`lost, this`checkpoints, this`past
      ensures Valid() && Progress() && MarkStaysOrGoes() && checkpoints - {key} == old(checkpoints) - {key}
      ensures turn.Onwards? && mark == Some(key) ==> Holds(feed, turn.since, target + lost)
      ensures turn == Ends(Completed) && mark == Some(key) ==> Holds(feed, |feed|, target + lost)
      ensures turn.Onwards? ==> |script| < |old(script)| && key in checkpoints && checkpoints[key] == turn.since
      ensures turn.Ends? ==> EndsRightly(turn.outcome, past, script, |old(past)|)
      ensures turn.Onwards? ==> turn.since > since
      ensures IsCalm(old(script)) && |old(script)| >= 6 ==> (turn == Ends(Completed) || turn.Onwards?) && |script| >= |old(script)| - 6
    {
      hide BatchEnd, Results, ListedBy, FeedAfter, OthersOf, WithheldBy, IsCalm, NothingWithheld, Holds;
      var changes := Next();
      if changes == None {
        return Ends(Stopped);
      }
      if changes.value.answer.Broken? {
        return Ends(Failed);
      }
      if mark == Some(key) {
        HoldsStays(old(feed), since, old(target) + lost, feed, target + lost);
      }
      var lastSeq := if since <= |feed| then BatchEnd(feed, since, batchSize) else since;
      var results := if since <= |feed| then Results(feed, since, lastSeq) else [];
      if since <= |feed| {
        NothingBetween(feed, since);
      }
      if results == [] {
        if mark == Some(key) {
          EmptyBatchIsTheEnd(feed, since, batchSize, target + lost);
        }
        return Ends(Completed);
      }
      if changes.value.answer.Aborted? {
        return Ends(Interrupted);
      }
      var carried := CarryBatch(key, results, since, lastSeq);
      return if carried == Completed then Onwards(lastSeq) else Ends(carried);
    }

    /** The mark is fetched or written, and its checkpoint is read and written back. */
    method Begin(rewind: bool) returns (outcome: Outcome, key: int, since: nat)
      requires Valid()
      modifies this`feed, this`mark, this`target, this`script, this`checkpoints, this`marks, this`past
      ensures Valid() && Progress() && EndsRightly(outcome, past, script, |old(past)|)
      ensures outcome == Completed ==>
                && key in marks && (mark == Some(key) ==> Holds(feed, since, target + lost)) && key in checkpoints && checkpoints[key] == since
                && (mark == Some(key) || (mark == None && RebuiltSince(|old(past)|))) && (Some(key) != old(mark) ==> key !in old(marks))
      ensures mark.Some? && mark != old(mark) ==> mark.value !in old(marks)
      ensures outcome == Completed && !rewind && old(mark).Some? && !RebuiltSince(|old(past)|) ==>
                Some(key) == old(mark) && since == if key in old(checkpoints) then old(checkpoints)[key] else 0
      ensures IsCalm(old(script)) && |old(script)| >= 2 ==> outcome == Completed && |script| == |old(script)| - 2
    {
      hide ListedBy, FeedAfter, OthersOf, WithheldBy, IsCalm, NothingWithheld;
      since := 0;
      outcome, key := UpsertMark(rewind);
      if outcome != Completed {
        return;
      }
      since := if key in checkpoints then checkpoints[key] else 0;
      if IsCalm(old(script)) {
        CalmSourceIsNotRebuilt();
        assert mark == Some(key);
      }
      outcome := SaveCheckpoint(key, since);
    }

    /** The loop: batch after batch, until nothing more is listed. */
    method CarryAll(key: int, since0: nat, batchSize: nat) returns (outcome: Outcome)
      requires Valid() && batchSize > 0 && key in marks && (mark == Some(key) ==> Holds(feed, since0, target + lost))
      requires key in checkpoints && checkpoints[key] == since0
      modifies this`feed, this`mark, this`target, this`script, this`lost, this`checkpoints, this`past
      ensures Valid() && Progress() && MarkStaysOrGoes() && EndsRightly(outcome, past, script, |old(past)|)
      ensures outcome == Completed && mark == Some(key) ==> Holds(feed, |feed|, target + lost)
      ensures IsCalm(old(script)) && |old(script)| >= 6 * (|old(feed)| + 1) && old(mark) == Some(key) ==> outcome == Completed
    {
      hide ListedBy, FeedAfter, OthersOf, WithheldBy, Holds, IsCalm, NothingWithheld;
      ghost var calm := IsCalm(script) && |script| >= 6 * (|feed| + 1) && mark == Some(key);
      if calm {
        HoldsWithinFeed(feed, since0, target + lost);
      }
      var since: nat := since0;
      while true
        invariant Valid() && Progress() && MarkStaysOrGoes() && key in marks && (mark == Some(key) ==> Holds(feed, since, target + lost))
        invariant key in checkpoints && checkpoints[key] == since
        invariant calm ==> IsCalm(script) && mark == Some(key) && since <= |feed| && |script| >= 6 * (|feed| - since + 1)
        decreases |script|
      {
        var turn := OneBatch(key, since, batchSize);
        if turn.Ends? {
          return turn.outcome;
        }
        if calm {
          CalmSourceIsNotRebuilt();
          HoldsWithinFeed(feed, turn.since, target + lost);
        }
        since := turn.since;
      }
    }

    /**
     * One run. Whatever happens, and wherever the process stops, what the current mark's checkpoint covers is in
     * the target, or was withheld when asked for; and after a run that completes, so is all that the source lists,
     * unless the source has been rebuilt meanwhile.
     */
    method ReplicateShim(rewind: bool, batchSize: nat) returns (outcome: Outcome)
      requires Valid() && batchSize > 0
      modifies this`feed, this`mark, this`target, this`script, this`lost, this`checkpoints, this`marks, this`past
      ensures Valid() && Progress() && EndsRightly(outcome, past, script, |old(past)|)
      ensures outcome == Completed ==> (mark.Some? && Holds(feed, |feed|, target + lost)) || RebuiltSince(|old(past)|)
      ensures mark.Some? && mark != old(mark) ==> mark.value !in old(marks)
      ensures outcome == Completed && !rewind && old(mark).Some? && !RebuiltSince(|old(past)|) ==> mark == old(mark)
      ensures IsCalm(old(script)) && |old(script)| >= 2 + 6 * (|old(feed)| + 1) ==> outcome == Completed
    {
      hide ListedBy, FeedAfter, OthersOf, WithheldBy, Holds, IsCalm, NothingWithheld;
      var key;
      var since: nat;
      outcome, key, since := Begin(rewind);
      if outcome != Completed {
        return;
      }
      if IsCalm(old(script)) {
        CalmSourceIsNotRebuilt();
      }
      outcome := CarryAll(key, since, batchSize);
    }
  }
}
