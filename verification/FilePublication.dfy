/**
 * Marks of publications in progress: a staged file replaces its target between two writes of the provenance
 * record, and a mark that is still there afterwards tells a missing target from a file the user deleted. The
 * operations run concurrently under locks; a step is one access to the store or to storage.
 */
module FilePublication {

  import opened CodeUnitOrder
  import opened Options

  type Token = nat
  type Revision = string
  type ProcessId = nat

  /** Paths with the same key are normalised to the same path. */
  datatype Path = Path(key: string, spelling: string)

  datatype Mark = Mark(revision: Revision, token: Token)

  /** `unknown` is an unreleased marker that makes every access fail. */
  datatype Record = Record(revision: Revision, mtime: Option<int>, reflected: bool, pending: Option<Mark>, unknown: bool)

  // ----- the transforms of a record -----

  function PendingOf(record: Option<Record>): Option<Mark> {
    if record.Some? then record.value.pending else None
  }

  function Reflected(current: Option<Record>, revision: Revision, mtime: Option<int>, reflected: bool, token: Option<Token>): Record {
    var pending := PendingOf(current);
    Record(revision, mtime, reflected, if pending.Some? && Some(pending.value.token) != token then pending else None, false)
  }

  function Begun(current: Option<Record>, revision: Revision, token: Token): Record {
    if current.Some? then current.value.(pending := Some(Mark(revision, token)))
    else Record(revision, None, false, Some(Mark(revision, token)), false)
  }

  // ----- the system -----

  /** The operations that hold the write lock of their paths, with what they have read so far. */
  datatype Process =
    | Publishing(path: Path, revision: Revision, token: Option<Token>)
    | Recovering(path: Path, seen: Option<bool>, markWhenSeen: Option<Mark>, found: Option<Option<Record>>)
    | Discarding(path: Path)
    | Moving(from: Path, target: Path, record: Option<Record>, checked: bool, written: bool)

  datatype Report = Report(path: Path, mark: Mark)

  /** `cleared` are the publications that were completed, found complete, or discarded with their document. */
  datatype System = System(
    records: map<Path, Record>,
    files: set<Path>,
    processes: map<ProcessId, Process>,
    nextToken: Token,
    cleared: set<Token>,
    reports: seq<Report>)

  function RecordAt(s: System, p: Path): Option<Record> {
    if p in s.records then Some(s.records[p]) else None
  }

  function MarkAt(s: System, p: Path): Option<Mark> {
    PendingOf(RecordAt(s, p))
  }

  /** Only the record of one path has changed. */
  ghost predicate OnlyChanges(s: System, s': System, p: Path) {
    forall q | q != p :: RecordAt(s', q) == RecordAt(s, q)
  }

  predicate IsReadable(s: System, p: Path) {
    p in s.records ==> !s.records[p].unknown
  }

  function KeysOf(process: Process): set<string> {
    if process.Moving? then {process.from.key, process.target.key} else {process.path.key}
  }

  predicate IsFree(s: System, process: Process) {
    forall i | i in s.processes :: KeysOf(s.processes[i]) !! KeysOf(process)
  }

  datatype Event =
    | Start(i: ProcessId, process: Process)
    | Begin(i: ProcessId)
    | Complete(i: ProcessId, observed: int)
    | Stat(i: ProcessId)
    | Get(i: ProcessId)
    | Finish(i: ProcessId)
    | Discard(i: ProcessId)
    | ReadFrom(i: ProcessId)
    | StatTarget(i: ProcessId)
    | EditTarget(i: ProcessId)
    | EditFrom(i: ProcessId)
    | Abort(i: ProcessId)
    | Crash
    | Reflect(path: Path, revision: Revision, mtime: Option<int>, reflected: bool)
    | Delete(path: Path)
    | FileAppears(path: Path)
    | FileVanishes(path: Path)

  predicate IsFresh(process: Process) {
    match process
    case Publishing(_, _, token) => token.None?
    case Recovering(_, seen, _, found) => seen.None? && found.None?
    case Discarding(_) => true
    case Moving(from, target, record, checked, written) => from != target && record.None? && !checked && !written
  }

  function Without(s: System, i: ProcessId): System {
    s.(processes := s.processes - {i})
  }

  function WithProcess(s: System, i: ProcessId, process: Process): System {
    s.(processes := s.processes[i := process])
  }

  function WithRecord(s: System, p: Path, record: Option<Record>): System {
    s.(records := if record.Some? then s.records[p := record.value] else s.records - {p})
  }

  function Clearing(s: System, mark: Option<Mark>): System {
    if mark.Some? then s.(cleared := s.cleared + {mark.value.token}) else s
  }

  predicate SameToken(a: Option<Mark>, b: Option<Mark>) {
    if a.None? || b.None? then a.None? && b.None? else a.value.token == b.value.token
  }

  /** A process that cannot read a record, or finds a mark it must not touch, throws and is gone. */
  function StepProcess(s: System, i: ProcessId, e: Event): System
    requires i in s.processes
  {
    var process := s.processes[i];
    if e.Begin? && process.Publishing? && process.token.None? then
      if !IsReadable(s, process.path) then Without(s, i)
      else
        var s' := WithRecord(s, process.path, Some(Begun(RecordAt(s, process.path), process.revision, s.nextToken)));
        WithProcess(s', i, process.(token := Some(s.nextToken))).(nextToken := s.nextToken + 1)
    else if e.Complete? && process.Publishing? && process.token.Some? then
      if !IsReadable(s, process.path) then Without(s, i)
      else
        var mark := MarkAt(s, process.path);
        var s' := WithRecord(s, process.path, Some(Reflected(RecordAt(s, process.path), process.revision, Some(e.observed), true, process.token)));
        Without(if mark.Some? && Some(mark.value.token) == process.token then Clearing(s', mark) else s', i)
    else if e.Stat? && process.Recovering? && process.seen.None? then
      WithProcess(s, i, process.(seen := Some(process.path in s.files), markWhenSeen := MarkAt(s, process.path)))
    else if e.Get? && process.Recovering? && process.seen.Some? && process.found.None? then
      if !IsReadable(s, process.path) then Without(s, i)
      else WithProcess(s, i, process.(found := Some(RecordAt(s, process.path))))
    else if e.Finish? && process.Recovering? && process.seen.Some? && process.found.Some? then
      var mark := PendingOf(process.found.value);
      if mark.None? then Without(s, i)
      else if !process.seen.value then Without(s.(reports := s.reports + [Report(process.path, mark.value)]), i)
      else if !IsReadable(s, process.path) || MarkAt(s, process.path).None? || MarkAt(s, process.path).value.token != mark.value.token then Without(s, i)
      else Without(Clearing(WithRecord(s, process.path, None), mark), i)
    else if e.Discard? && process.Discarding? then
      if !IsReadable(s, process.path) then Without(s, i)
      else Without(Clearing(WithRecord(s, process.path, None), MarkAt(s, process.path)), i)
    else if e.ReadFrom? && process.Moving? && process.record.None? then
      if !IsReadable(s, process.from) || RecordAt(s, process.from).None? then Without(s, i)
      else WithProcess(s, i, process.(record := RecordAt(s, process.from)))
    else if e.StatTarget? && process.Moving? && process.record.Some? && !process.checked then
      if process.record.value.pending.Some? && process.target !in s.files then Without(s, i)
      else WithProcess(s, i, process.(checked := true))
    else if e.EditTarget? && process.Moving? && process.checked && process.record.Some? && !process.written then
      if !IsReadable(s, process.target) || MarkAt(s, process.target).Some? then Without(s, i)
      else WithProcess(WithRecord(s, process.target, process.record), i, process.(written := true))
    else if e.EditFrom? && process.Moving? && process.written && process.record.Some? then
      if !IsReadable(s, process.from) || !SameToken(MarkAt(s, process.from), process.record.value.pending) then Without(s, i)
      else Without(WithRecord(s, process.from, None), i)
    else if e.Abort? then Without(s, i)
    else s
  }

  function Next(s: System, e: Event): System {
    match e
    case Start(i, process) => if i !in s.processes && IsFresh(process) && IsFree(s, process) then WithProcess(s, i, process) else s
    case Crash => s.(processes := map[])
    case Reflect(path, revision, mtime, reflected) =>
      if IsReadable(s, path) then WithRecord(s, path, Some(Reflected(RecordAt(s, path), revision, mtime, reflected, None))) else s
    case Delete(path) => if IsReadable(s, path) && MarkAt(s, path).None? then WithRecord(s, path, None) else s
    case FileAppears(path) => s.(files := s.files + {path})
    case FileVanishes(path) => s.(files := s.files - {path})
    case _ => if e.i in s.processes then StepProcess(s, e.i, e) else s
  }

  // ----- what every step keeps -----

  predicate IsOldMark(s: System, mark: Option<Mark>) {
    mark.Some? ==> mark.value.token < s.nextToken
  }

  /** What a process has read of the marks is still so: nobody else may change them meanwhile. */
  predicate IsUpToDate(s: System, process: Process) {
    match process
    case Publishing(path, _, token) => token.Some? ==> token.value < s.nextToken
    case Recovering(path, seen, markWhenSeen, found) =>
      && (seen.Some? ==> markWhenSeen == MarkAt(s, path))
      && (found.Some? ==> seen.Some? && PendingOf(found.value) == MarkAt(s, path))
    case Discarding(_) => true
    case Moving(from, target, record, checked, written) =>
      && from != target
      && (record.Some? ==> record.value.pending == MarkAt(s, from) && !record.value.unknown)
      && (checked ==> record.Some?)
      && (written ==> checked && MarkAt(s, target) == record.value.pending)
  }

  ghost predicate Inv(s: System) {
    && (forall i, j | i in s.processes && j in s.processes && i != j :: KeysOf(s.processes[i]) !! KeysOf(s.processes[j]))
    && (forall i | i in s.processes :: IsUpToDate(s, s.processes[i]))
    && (forall p :: IsOldMark(s, MarkAt(s, p)))
    && (forall t | t in s.cleared :: t < s.nextToken)
  }

  predicate IsStepOf(s: System, e: Event, i: ProcessId) {
    match e
    case Start(_, _) => false
    case Crash => false
    case Reflect(_, _, _, _) => false
    case Delete(_) => false
    case FileAppears(_) => false
    case FileVanishes(_) => false
    case _ => e.i == i
  }

  predicate Begins(s: System, e: Event, p: Path) {
    e.Begin? && e.i in s.processes && s.processes[e.i].Publishing? && s.processes[e.i].path == p
  }

  predicate Completes(s: System, e: Event, p: Path) {
    e.Complete? && e.i in s.processes && s.processes[e.i].Publishing? && s.processes[e.i].path == p && s.processes[e.i].token.Some?
  }

  predicate MovesTo(s: System, e: Event, p: Path) {
    e.EditTarget? && e.i in s.processes && s.processes[e.i].Moving? && s.processes[e.i].target == p && s.processes[e.i].record.Some?
  }

  /** A mark comes from a new publication or from a move only. */
  lemma MarkComesFrom(s: System, e: Event, p: Path)
    requires Inv(s) && MarkAt(Next(s, e), p).Some? && MarkAt(Next(s, e), p) != MarkAt(s, p)
    ensures (Begins(s, e, p) && MarkAt(Next(s, e), p).value.token == s.nextToken < Next(s, e).nextToken)
            || (MovesTo(s, e, p) && MarkAt(Next(s, e), p) == MarkAt(s, s.processes[e.i].from))
  {
    hide Next, MarkAt, IsUpToDate, KeysOf, IsStepOf;
    StepGivesMark(s, e, p);
  }

  /** What a record says when it changes: what was reflected, what a publication began with or came to, or what was moved there. */
  lemma RecordComesFrom(s: System, e: Event, p: Path)
    requires RecordAt(Next(s, e), p).Some? && RecordAt(Next(s, e), p) != RecordAt(s, p)
    ensures var record, mark := RecordAt(Next(s, e), p).value, MarkAt(s, p);
            if e.Reflect? then e.path == p && record == Record(e.revision, e.mtime, e.reflected, mark, false)
            else if e.Begin? then
              Begins(s, e, p) &&
              var begun := Some(Mark(s.processes[e.i].revision, s.nextToken));
              record == if p in s.records then s.records[p].(pending := begun) else Record(begun.value.revision, None, false, begun, false)
            else if e.Complete? then
              Completes(s, e, p) &&
              var kept := if mark.Some? && mark.value.token != s.processes[e.i].token.value then mark else None;
              record == Record(s.processes[e.i].revision, Some(e.observed), true, kept, false)
            else MovesTo(s, e, p) && Some(record) == s.processes[e.i].record
  {
  }

  lemma StepGivesMark(s: System, e: Event, p: Path)
    requires forall i | i in s.processes && IsStepOf(s, e, i) :: IsUpToDate(s, s.processes[i])
    requires MarkAt(Next(s, e), p).Some? && MarkAt(Next(s, e), p) != MarkAt(s, p)
    ensures (Begins(s, e, p) && MarkAt(Next(s, e), p).value.token == s.nextToken < Next(s, e).nextToken)
            || (MovesTo(s, e, p) && MarkAt(Next(s, e), p) == MarkAt(s, s.processes[e.i].from))
  {
    if (e.EditTarget? || e.Begin?) && e.i in s.processes {
      assert IsStepOf(s, e, e.i);
    }
  }

  lemma StepKeepsMarksOld(s: System, e: Event, p: Path)
    requires Inv(s)
    ensures IsOldMark(Next(s, e), MarkAt(Next(s, e), p))
  {
    assert IsOldMark(s, MarkAt(s, p));
    assert Next(s, e).nextToken >= s.nextToken;
    if MarkAt(Next(s, e), p).Some? && MarkAt(Next(s, e), p) != MarkAt(s, p) {
      MarkComesFrom(s, e, p);
      if MovesTo(s, e, p) {
        assert IsOldMark(s, MarkAt(s, s.processes[e.i].from));
      }
    }
  }

  function PathsOf(process: Process): set<Path> {
    if process.Moving? then {process.from, process.target} else {process.path}
  }

  lemma ProcessKeepsOtherMarks(s: System, i: ProcessId, e: Event, p: Path)
    requires i in s.processes && p !in PathsOf(s.processes[i])
    ensures MarkAt(StepProcess(s, i, e), p) == MarkAt(s, p)
  {
    hide IsReadable, SameToken;
  }

  /** A mark changes only by a process that holds its path. */
  lemma MarkStaysOtherwise(s: System, e: Event, p: Path)
    requires forall j | j in s.processes && IsStepOf(s, e, j) :: p !in PathsOf(s.processes[j])
    ensures MarkAt(Next(s, e), p) == MarkAt(s, p)
  {
    hide StepProcess;
    if !e.Start? && !e.Crash? && !e.Reflect? && !e.Delete? && !e.FileAppears? && !e.FileVanishes? && e.i in s.processes {
      assert IsStepOf(s, e, e.i);
      ProcessKeepsOtherMarks(s, e.i, e, p);
    }
  }

  /** Under its lock a mark changes by the holder only. */
  lemma LockedMarkStays(s: System, e: Event, i: ProcessId, p: Path)
    requires Inv(s) && i in s.processes && p.key in KeysOf(s.processes[i]) && !IsStepOf(s, e, i)
    ensures MarkAt(Next(s, e), p) == MarkAt(s, p)
  {
    hide IsUpToDate, IsOldMark, Next, MarkAt, IsStepOf;
    forall j | j in s.processes && IsStepOf(s, e, j)
      ensures p !in PathsOf(s.processes[j])
    {
      assert p.key !in KeysOf(s.processes[j]);
    }
    MarkStaysOtherwise(s, e, p);
  }

  lemma OthersStay(s: System, e: Event, i: ProcessId)
    requires i in Next(s, e).processes
    ensures i in s.processes && !IsStepOf(s, e, i) ==> Next(s, e).processes[i] == s.processes[i]
    ensures i !in s.processes ==> IsFresh(Next(s, e).processes[i]) && IsFree(s, Next(s, e).processes[i])
                                  && Next(s, e).processes == s.processes[i := Next(s, e).processes[i]]
    ensures i in s.processes ==> KeysOf(Next(s, e).processes[i]) == KeysOf(s.processes[i])
    ensures s.nextToken <= Next(s, e).nextToken
  {
  }

  lemma ProcessStaysUpToDate(s: System, e: Event, i: ProcessId)
    requires Inv(s) && i in Next(s, e).processes
    ensures IsUpToDate(Next(s, e), Next(s, e).processes[i])
  {
    if i in s.processes {
      assert IsUpToDate(s, s.processes[i]);
      if IsStepOf(s, e, i) {
        OwnStepStaysUpToDate(s, e, i);
      } else {
        var process := s.processes[i];
        OthersStay(s, e, i);
        if process.Moving? {
          LockedMarkStays(s, e, i, process.from);
          LockedMarkStays(s, e, i, process.target);
        } else {
          LockedMarkStays(s, e, i, process.path);
        }
      }
    }
  }

  lemma OwnStepStaysUpToDate(s: System, e: Event, i: ProcessId)
    requires i in s.processes && i in Next(s, e).processes && IsStepOf(s, e, i) && IsUpToDate(s, s.processes[i])
    ensures IsUpToDate(Next(s, e), Next(s, e).processes[i])
  {
  }

  lemma LocksStayExclusive(s: System, e: Event, i: ProcessId, j: ProcessId)
    requires Inv(s) && i in Next(s, e).processes && j in Next(s, e).processes && i != j
    ensures KeysOf(Next(s, e).processes[i]) !! KeysOf(Next(s, e).processes[j])
  {
    hide Next, KeysOf, MarkAt, IsUpToDate, IsOldMark;
    OthersStay(s, e, i);
    OthersStay(s, e, j);
  }

  /** What is cleared in a step is cleared at a path whose lock is held, where the mark goes. */
  lemma ClearedUnderLock(s: System, e: Event, t: Token)
    requires Inv(s) && t in Next(s, e).cleared && t !in s.cleared
    ensures (e.Complete? || e.Finish? || e.Discard?) && e.i in s.processes && !s.processes[e.i].Moving?
    ensures var p := s.processes[e.i].path;
            MarkAt(s, p).Some? && MarkAt(s, p).value.token == t && MarkAt(Next(s, e), p).None?
  {
    if e.Finish? && e.i in s.processes {
      assert IsUpToDate(s, s.processes[e.i]);
    }
  }

  lemma ClearedTokensAreOld(s: System, e: Event)
    requires Inv(s)
    ensures forall t | t in Next(s, e).cleared :: t < Next(s, e).nextToken
  {
    assert s.nextToken <= Next(s, e).nextToken;
    forall t | t in Next(s, e).cleared
      ensures t < s.nextToken
    {
      hide Next, MarkAt, KeysOf, IsUpToDate;
      if t !in s.cleared {
        ClearedUnderLock(s, e, t);
        assert IsOldMark(s, MarkAt(s, s.processes[e.i].path));
      }
    }
  }

  lemma StepKeepsInv(s: System, e: Event)
    requires Inv(s)
    ensures Inv(Next(s, e))
  {
    hide Next, MarkAt, IsUpToDate, IsOldMark, KeysOf;
    ClearedTokensAreOld(s, e);
    forall i, j | i in Next(s, e).processes && j in Next(s, e).processes && i != j
      ensures KeysOf(Next(s, e).processes[i]) !! KeysOf(Next(s, e).processes[j])
    {
      LocksStayExclusive(s, e, i, j);
    }
    forall i | i in Next(s, e).processes
      ensures IsUpToDate(Next(s, e), Next(s, e).processes[i])
    {
      ProcessStaysUpToDate(s, e, i);
    }
    forall p: Path
      ensures IsOldMark(Next(s, e), MarkAt(Next(s, e), p))
    {
      StepKeepsMarksOld(s, e, p);
    }
  }

  /** Why a mark may leave a path. */
  ghost predicate IsRightlyRemoved(s: System, e: Event, p: Path, mark: Mark) {
    match e
    case Begin(i) => // a new publication replaces it
      i in s.processes && s.processes[i].Publishing? && s.processes[i].path == p && MarkAt(Next(s, e), p) == Some(Mark(s.processes[i].revision, s.nextToken))
    case Complete(i, _) => // its own publication is complete
      i in s.processes && s.processes[i].Publishing? && s.processes[i].path == p && s.processes[i].token == Some(mark.token)
    case Finish(i) => // its target was there while it was pending
      i in s.processes && s.processes[i].Recovering? && s.processes[i].path == p && s.processes[i].seen == Some(true) && s.processes[i].markWhenSeen == Some(mark)
    case Discard(i) => // its document is deleted
      i in s.processes && s.processes[i].Discarding? && s.processes[i].path == p
    case EditFrom(i) => // it has moved along with its file
      i in s.processes && s.processes[i].Moving? && s.processes[i].from == p && MarkAt(Next(s, e), s.processes[i].target) == Some(mark)
    case _ => false
  }

  /** In no state that a run can reach does anything else take a mark away. */
  lemma MarkIsRightlyRemoved(s: System, e: Event, p: Path, mark: Mark)
    requires Inv(s) && MarkAt(s, p) == Some(mark) && MarkAt(Next(s, e), p) != Some(mark)
    ensures IsRightlyRemoved(s, e, p, mark)
  {
    hide Next, MarkAt, IsUpToDate, KeysOf, IsStepOf, IsRightlyRemoved;
    StepTakesMark(s, e, p, mark);
  }

  lemma StepTakesMark(s: System, e: Event, p: Path, mark: Mark)
    requires forall i | i in s.processes && IsStepOf(s, e, i) :: IsUpToDate(s, s.processes[i])
    requires MarkAt(s, p) == Some(mark) && MarkAt(Next(s, e), p) != Some(mark)
    ensures IsRightlyRemoved(s, e, p, mark)
  {
    if !e.Start? && !e.Crash? && !e.Reflect? && !e.Delete? && !e.FileAppears? && !e.FileVanishes? && e.i in s.processes {
      assert IsStepOf(s, e, e.i);
    }
  }

  /** The checks that a mark is still the one read before cannot fail: the locks already see to it. */
  lemma RecheckedMarkIsSame(s: System, i: ProcessId)
    requires Inv(s) && i in s.processes
    ensures var process := s.processes[i];
            && (process.Recovering? && process.found.Some? ==> PendingOf(process.found.value) == MarkAt(s, process.path))
            && (process.Moving? && process.written ==> SameToken(MarkAt(s, process.from), process.record.value.pending))
  {
    assert IsUpToDate(s, s.processes[i]);
  }

  // ----- runs -----

  function Run(s: System, events: seq<Event>): System
    decreases |events|
  {
    if events == [] then s else Run(Next(s, events[0]), events[1..])
  }

  /** A move between its two writes, of a record with a mark: the mark is at both paths. */
  predicate MovesMark(process: Process) {
    process.Moving? && process.written && process.record.Some? && process.record.value.pending.Some?
  }

  /** Such a move ends, by a failure or with the application, and leaves its mark at both paths. */
  predicate IsInterruption(s: System, e: Event) {
    match e
    case Abort(i) => i in s.processes && MovesMark(s.processes[i])
    case EditFrom(i) => i in s.processes && MovesMark(s.processes[i]) && !IsReadable(s, s.processes[i].from)
    case Crash => exists i :: i in s.processes && MovesMark(s.processes[i])
    case _ => false
  }

  predicate IsUninterrupted(s: System, events: seq<Event>)
    decreases |events|
  {
    events != [] ==> !IsInterruption(s, events[0]) && IsUninterrupted(Next(s, events[0]), events[1..])
  }

  predicate IsBeingMoved(s: System, p: Path, q: Path) {
    exists i :: i in s.processes && s.processes[i].Moving? && s.processes[i].written && {s.processes[i].from, s.processes[i].target} == {p, q}
  }

  predicate ShareToken(s: System, p: Path, q: Path) {
    p != q && MarkAt(s, p).Some? && MarkAt(s, q).Some? && MarkAt(s, p).value.token == MarkAt(s, q).value.token
  }

  ghost predicate TokensAreUnique(s: System) {
    forall p, q | ShareToken(s, p, q) :: IsBeingMoved(s, p, q)
  }

  /** No publication that is over is still marked, so that no later absence is taken for its gap. */
  ghost predicate NoneComesBack(s: System) {
    forall p :: MarkAt(s, p).Some? ==> MarkAt(s, p).value.token !in s.cleared
  }

  lemma MoverIsAlone(s: System, p: Path, q: Path, i: ProcessId)
    requires Inv(s) && IsBeingMoved(s, p, q) && i in s.processes && p.key in KeysOf(s.processes[i])
    ensures s.processes[i].Moving? && s.processes[i].written && {s.processes[i].from, s.processes[i].target} == {p, q}
  {
    var j :| j in s.processes && s.processes[j].Moving? && s.processes[j].written && {s.processes[j].from, s.processes[j].target} == {p, q};
    assert p in {s.processes[j].from, s.processes[j].target};
    assert p.key in KeysOf(s.processes[j]);
  }

  lemma NewMarkIsMoved(s: System, e: Event, p: Path, q: Path)
    requires Inv(s) && TokensAreUnique(s) && ShareToken(Next(s, e), p, q) && MarkAt(Next(s, e), p) != MarkAt(s, p)
    ensures IsBeingMoved(Next(s, e), p, q)
  {
    MarkComesFrom(s, e, p);
    assert MarkAt(Next(s, e), q) == MarkAt(s, q);
    assert IsOldMark(s, MarkAt(s, q));
    if MovesTo(s, e, p) {
      var process := s.processes[e.i];
      if q == process.from {
        var process' := process.(written := true);
        assert Next(s, e).processes[e.i] == process' && {process'.from, process'.target} == {p, q};
      } else {
        assert ShareToken(s, process.from, q);
        MoverIsAlone(s, process.from, q, e.i);
      }
    }
  }

  lemma WrittenMoveSteps(s: System, e: Event, i: ProcessId)
    requires i in s.processes && s.processes[i].Moving? && s.processes[i].written && IsUpToDate(s, s.processes[i])
    requires !e.Abort? && (e.EditFrom? ==> IsReadable(s, s.processes[i].from))
    requires MarkAt(s, s.processes[i].from).Some?
    ensures StepProcess(s, i, e) == s || MarkAt(StepProcess(s, i, e), s.processes[i].from).None?
  {
  }

  /** A move that has written its target stays as it is until it is interrupted or takes the mark from where it was. */
  lemma WrittenMoveGoesOn(s: System, e: Event, i: ProcessId)
    requires i in s.processes && s.processes[i].Moving? && s.processes[i].written && IsUpToDate(s, s.processes[i])
    requires !IsInterruption(s, e)
    requires MarkAt(Next(s, e), s.processes[i].from) == MarkAt(s, s.processes[i].from) != None
    ensures i in Next(s, e).processes && Next(s, e).processes[i] == s.processes[i]
  {
    if IsStepOf(s, e, i) {
      WrittenMoveSteps(s, e, i);
    } else {
      hide MarkAt, IsUpToDate;
      assert e.Crash? ==> MovesMark(s.processes[i]);
    }
  }

  lemma MoveGoesOn(s: System, e: Event, p: Path, q: Path)
    requires Inv(s) && TokensAreUnique(s) && ShareToken(s, p, q) && !IsInterruption(s, e)
    requires MarkAt(Next(s, e), p) == MarkAt(s, p) && MarkAt(Next(s, e), q) == MarkAt(s, q)
    ensures IsBeingMoved(Next(s, e), p, q)
  {
    assert IsBeingMoved(s, p, q);
    var j :| j in s.processes && s.processes[j].Moving? && s.processes[j].written && {s.processes[j].from, s.processes[j].target} == {p, q};
    assert IsUpToDate(s, s.processes[j]);
    assert s.processes[j].from in {p, q};
    WrittenMoveGoesOn(s, e, j);
  }

  lemma StepKeepsTokensUnique(s: System, e: Event)
    requires Inv(s) && TokensAreUnique(s) && !IsInterruption(s, e)
    ensures TokensAreUnique(Next(s, e))
  {
    hide Next, MarkAt, IsInterruption, Inv;
    var s' := Next(s, e);
    forall p, q | ShareToken(s', p, q)
      ensures IsBeingMoved(s', p, q)
    {
      if MarkAt(s', p) != MarkAt(s, p) {
        NewMarkIsMoved(s, e, p, q);
      } else if MarkAt(s', q) != MarkAt(s, q) {
        NewMarkIsMoved(s, e, q, p);
      } else {
        MoveGoesOn(s, e, p, q);
      }
    }
  }

  lemma StepBringsNoneBack(s: System, e: Event)
    requires Inv(s) && TokensAreUnique(s) && NoneComesBack(s)
    ensures NoneComesBack(Next(s, e))
  {
    hide IsUpToDate;
    var s' := Next(s, e);
    forall p | MarkAt(s', p).Some?
      ensures MarkAt(s', p).value.token !in s'.cleared
    {
      var t := MarkAt(s', p).value.token;
      if MarkAt(s', p) != MarkAt(s, p) {
        MarkComesFrom(s, e, p);
      }
      if t in s'.cleared && t !in s.cleared {
        ClearedUnderLock(s, e, t);
        var q := s.processes[e.i].path;
        assert ShareToken(s, q, p);
        MoverIsAlone(s, q, p, e.i);
      }
    }
  }

  /** As long as no move is interrupted, a publication that is over stays over: every later report is of a real gap. */
  lemma {:induction false} NothingComesBack(s: System, events: seq<Event>)
    requires Inv(s) && TokensAreUnique(s) && NoneComesBack(s) && IsUninterrupted(s, events)
    ensures var s' := Run(s, events);
            Inv(s') && TokensAreUnique(s') && NoneComesBack(s')
    decreases |events|
  {
    if events != [] {
      StepKeepsInv(s, events[0]);
      StepKeepsTokensUnique(s, events[0]);
      StepBringsNoneBack(s, events[0]);
      NothingComesBack(Next(s, events[0]), events[1..]);
    }
  }

  /** A missing publication is reported only of a mark that was pending when its target was seen to be absent. */
  lemma ReportIsOfGap(s: System, e: Event)
    requires Inv(s) && NoneComesBack(s) && Next(s, e).reports != s.reports
    ensures e.Finish? && e.i in s.processes && s.processes[e.i].Recovering? && s.processes[e.i].seen == Some(false)
    ensures var process := s.processes[e.i];
            && MarkAt(s, process.path).Some? && process.markWhenSeen == MarkAt(s, process.path)
            && Next(s, e).reports == s.reports + [Report(process.path, MarkAt(s, process.path).value)]
            && MarkAt(s, process.path).value.token !in s.cleared
  {
    assert IsUpToDate(s, s.processes[e.i]);
  }

  // ----- interrupted moves -----

  function RecoveryOf(p: Path): seq<Event> {
    [Start(0, Recovering(p, None, None, None)), Stat(0), Get(0), Finish(0)]
  }

  lemma {:induction false} RunOfTwo(s: System, events: seq<Event>, more: seq<Event>)
    ensures Run(s, events + more) == Run(Run(s, events), more)
    ensures IsUninterrupted(s, events + more) <==> IsUninterrupted(s, events) && IsUninterrupted(Run(s, events), more)
    decreases |events|
  {
    if events == [] {
      assert events + more == more;
    } else {
      assert (events + more)[1..] == events[1..] + more;
      RunOfTwo(Next(s, events[0]), events[1..], more);
    }
  }

  lemma RunOfFour(s: System, a: Event, b: Event, c: Event, d: Event)
    ensures Run(s, [a, b, c, d]) == Next(Next(Next(Next(s, a), b), c), d)
    ensures IsUninterrupted(s, [a, b, c, d]) <==>
              && !IsInterruption(s, a) && !IsInterruption(Next(s, a), b)
              && !IsInterruption(Next(Next(s, a), b), c) && !IsInterruption(Next(Next(Next(s, a), b), c), d)
  {
    hide Next, IsInterruption;
    var s1, s2, s3 := Next(s, a), Next(Next(s, a), b), Next(Next(Next(s, a), b), c);
    assert [a, b, c, d][1..] == [b, c, d] && [b, c, d][1..] == [c, d] && [c, d][1..] == [d] && [d][1..] == [];
    assert Run(s3, [d]) == Next(s3, d);
    assert Run(s2, [c, d]) == Run(s3, [d]);
    assert Run(s1, [b, c, d]) == Run(s2, [c, d]);
    assert IsUninterrupted(s3, [d]) <==> !IsInterruption(s3, d);
    assert IsUninterrupted(s2, [c, d]) <==> !IsInterruption(s2, c) && IsUninterrupted(s3, [d]);
    assert IsUninterrupted(s1, [b, c, d]) <==> !IsInterruption(s1, b) && IsUninterrupted(s2, [c, d]);
  }

  /** Looking for a missing publication, with nothing else going on. */
  lemma Recovers(s: System, p: Path)
    requires s.processes == map[] && IsReadable(s, p) && MarkAt(s, p).Some?
    ensures IsUninterrupted(s, RecoveryOf(p))
    ensures Run(s, RecoveryOf(p)) ==
              if p in s.files then Clearing(WithRecord(s, p, None), MarkAt(s, p))
              else s.(reports := s.reports + [Report(p, MarkAt(s, p).value)])
  {
    var start := Start(0, Recovering(p, None, None, None));
    RunOfFour(s, start, Stat(0), Get(0), Finish(0));
    var s1 := Next(s, start);
    assert s1 == s.(processes := map[0 := Recovering(p, None, None, None)]);
    var s2 := Next(s1, Stat(0));
    assert s2 == s.(processes := map[0 := Recovering(p, Some(p in s.files), MarkAt(s, p), None)]);
    var s3 := Next(s2, Get(0));
    assert s3 == s.(processes := map[0 := Recovering(p, Some(p in s.files), MarkAt(s, p), Some(RecordAt(s, p)))]);
    assert s3.processes - {0} == map[];
  }

  lemma SharedTokenComesBack(s: System, p: Path, q: Path)
    requires s.processes == map[] && IsReadable(s, p) && ShareToken(s, p, q)
    ensures var events := [FileAppears(p)] + RecoveryOf(p);
            IsUninterrupted(s, events) && !NoneComesBack(Run(s, events))
  {
    var s1 := Next(s, FileAppears(p));
    var events := [FileAppears(p)] + RecoveryOf(p);
    assert events[1..] == RecoveryOf(p);
    assert MarkAt(s1, p) == MarkAt(s, p) && IsReadable(s1, p);
    Recovers(s1, p);
    hide RecoveryOf;
    assert IsUninterrupted(s, events) && Run(s, events) == Run(s1, RecoveryOf(p));
    assert MarkAt(Run(s, events), q) == MarkAt(s, q);
  }

  /**
   * With nothing under way, whether a publication that is over can come back is decided by whether two paths
   * share a mark.
   */
  lemma NothingComesBackIff(s: System)
    requires Inv(s) && NoneComesBack(s) && s.processes == map[] && forall p :: IsReadable(s, p)
    ensures (forall events | IsUninterrupted(s, events) :: NoneComesBack(Run(s, events)))
            <==> forall p, q :: !ShareToken(s, p, q)
  {
    hide Run, IsUninterrupted, NoneComesBack, ShareToken, RecoveryOf, MarkAt, IsReadable;
    if p, q :| ShareToken(s, p, q) {
      SharedTokenComesBack(s, p, q);
    } else {
      assert TokensAreUnique(s);
      forall events | IsUninterrupted(s, events)
        ensures NoneComesBack(Run(s, events))
      {
        NothingComesBack(s, events);
      }
    }
  }

  function AtMove(s: System, from: Path, target: Path, record: Option<Record>, checked: bool, written: bool): System {
    s.(processes := map[0 := Moving(from, target, record, checked, written)])
  }

  lemma MoveStarts(s: System, from: Path, target: Path)
    requires s.processes == map[]
    ensures Next(s, Start(0, Moving(from, target, None, false, false))) ==
              if from == target then s else AtMove(s, from, target, None, false, false)
  {
  }

  lemma MoveReads(s: System, from: Path, target: Path)
    requires s.processes == map[]
    ensures var record := RecordAt(s, from);
            Next(AtMove(s, from, target, None, false, false), ReadFrom(0)) ==
              if IsReadable(s, from) && record.Some? then AtMove(s, from, target, record, false, false) else s
  {
  }

  lemma MoveChecks(s: System, from: Path, target: Path, record: Record)
    requires s.processes == map[]
    ensures Next(AtMove(s, from, target, Some(record), false, false), StatTarget(0)) ==
              if record.pending.Some? && target !in s.files then s else AtMove(s, from, target, Some(record), true, false)
  {
  }

  lemma MoveWrites(s: System, from: Path, target: Path, record: Record)
    requires s.processes == map[]
    ensures Next(AtMove(s, from, target, Some(record), true, false), EditTarget(0)) ==
              if !IsReadable(s, target) || MarkAt(s, target).Some? then s
              else AtMove(WithRecord(s, target, Some(record)), from, target, Some(record), true, true)
  {
  }

  lemma MoveEnds(s: System, from: Path, target: Path, record: Record)
    requires s.processes == map[] && IsReadable(s, from) && MarkAt(s, from) == record.pending
    ensures Next(AtMove(s, from, target, Some(record), true, true), EditFrom(0)) == WithRecord(s, from, None)
  {
  }

  lemma IdleStays(s: System, e: Event)
    requires s.processes == map[] && (e.ReadFrom? || e.StatTarget? || e.EditTarget? || e.EditFrom?)
    ensures Next(s, e) == s
  {
  }

  function MoveOf(a: Path, b: Path): seq<Event> {
    [Start(0, Moving(a, b, None, false, false)), ReadFrom(0), StatTarget(0), EditTarget(0)]
  }

  lemma MoveUpToTarget(a: Path, b: Path, record: Record, s: System)
    requires a != b && !record.unknown && s == System(map[a := record], {b}, map[], 1, {}, [])
    ensures Run(s, MoveOf(a, b)) == AtMove(s.(records := map[a := record, b := record]), a, b, Some(record), true, true)
  {
    hide Run, IsUninterrupted, IsInterruption, Next;
    RunOfFour(s, Start(0, Moving(a, b, None, false, false)), ReadFrom(0), StatTarget(0), EditTarget(0));
    MoveStarts(s, a, b);
    MoveReads(s, a, b);
    MoveChecks(s, a, b, record);
    MoveWrites(s, a, b, record);
    assert WithRecord(s, b, Some(record)).records == map[a := record, b := record];
  }

  lemma CrashedMove(a: Path, b: Path, record: Record, s: System)
    requires a != b && !record.unknown && s == System(map[a := record], {b}, map[], 1, {}, [])
    ensures Run(s, MoveOf(a, b) + [Crash]) == s.(records := map[a := record, b := record])
  {
    hide MoveOf;
    MoveUpToTarget(a, b, record, s);
    RunOfTwo(s, MoveOf(a, b), [Crash]);
    var s4 := Run(s, MoveOf(a, b));
    assert Run(s4, [Crash]) == Next(s4, Crash);
  }

  /** A move that ends between its two writes makes a publication that was found complete look missing where it was. */
  lemma InterruptedMoveReportsFalsely(a: Path, b: Path, record: Record, mark: Mark)
    requires a != b && record.pending == Some(mark) && !record.unknown && mark.token == 0
    ensures var s := System(map[a := record], {b}, map[], 1, {}, []);
            var s' := Run(s, MoveOf(a, b) + [Crash] + RecoveryOf(b) + RecoveryOf(a));
            s'.cleared == {0} && s'.reports == [Report(a, mark)]
  {
    hide Run, MoveOf, RecoveryOf, Next;
    var s := System(map[a := record], {b}, map[], 1, {}, []);
    CrashedMove(a, b, record, s);
    var s5 := s.(records := map[a := record, b := record]);
    Recovers(s5, b);
    var s6 := Run(s5, RecoveryOf(b));
    assert s6.records == map[a := record];
    Recovers(s6, a);
    RunOfTwo(s, MoveOf(a, b) + [Crash], RecoveryOf(b));
    RunOfTwo(s, MoveOf(a, b) + [Crash] + RecoveryOf(b), RecoveryOf(a));
  }

  // ----- the operations, each running alone -----

  /** What a move comes to when nothing happens in between. */
  function Moved(s: System, from: Path, target: Path): System {
    var record := RecordAt(s, from);
    if from == target || !IsReadable(s, from) || record.None? then s
    else if record.value.pending.Some? && target !in s.files then s
    else if !IsReadable(s, target) || MarkAt(s, target).Some? then s
    else WithRecord(WithRecord(s, target, record), from, None)
  }

  lemma RunOfOne(s: System, e: Event)
    ensures Run(s, [e]) == Next(s, e)
  {
    assert Run(Next(s, e), [e][1..]) == Next(s, e);
  }

  lemma MoveRuns(s: System, from: Path, target: Path)
    requires s.processes == map[]
    ensures Run(s, MoveOf(from, target) + [EditFrom(0)]) == Moved(s, from, target)
  {
    hide Run, IsUninterrupted, IsInterruption, Next;
    RunOfFour(s, Start(0, Moving(from, target, None, false, false)), ReadFrom(0), StatTarget(0), EditTarget(0));
    RunOfTwo(s, MoveOf(from, target), [EditFrom(0)]);
    RunOfOne(Run(s, MoveOf(from, target)), EditFrom(0));
    MoveStarts(s, from, target);
    MoveReads(s, from, target);
    IdleStays(s, ReadFrom(0));
    IdleStays(s, StatTarget(0));
    IdleStays(s, EditTarget(0));
    IdleStays(s, EditFrom(0));
    var read := RecordAt(s, from);
    if from != target && IsReadable(s, from) && read.Some? {
      var record := read.value;
      MoveChecks(s, from, target, record);
      MoveWrites(s, from, target, record);
      if IsReadable(s, target) && MarkAt(s, target).None? {
        var s' := WithRecord(s, target, read);
        assert RecordAt(s', from) == read;
        MoveEnds(s', from, target, record);
      }
    }
  }

  /** What may not be moved: what cannot be read, a gap, and what would come over another publication. */
  predicate MoveThrows(s: System, from: Path, target: Path) {
    && from != target
    && (|| !IsReadable(s, from)
        || (from in s.records
            && ((MarkAt(s, from).Some? && target !in s.files) || !IsReadable(s, target) || MarkAt(s, target).Some?)))
  }

  class FilePublicationCoordinator {
    var records: map<Path, Record>
    var files: set<Path>
    var nextToken: Token
    ghost var cleared: set<Token>
    ghost var reports: seq<Report>

    ghost function View(): System
      reads this
    {
      System(records, files, map[], nextToken, cleared, reports)
    }

    constructor (records: map<Path, Record>, files: set<Path>, nextToken: Token)
      ensures View() == System(records, files, map[], nextToken, {}, [])
    {
      this.records, this.files, this.nextToken := records, files, nextToken;
      cleared, reports := {}, [];
    }

    method Get(path: Path) returns (record: Option<Record>, thrown: bool)
      ensures thrown <==> !IsReadable(View(), path)
      ensures !thrown ==> record == RecordAt(View(), path)
    {
      record := if path in records then Some(records[path]) else None;
      thrown := record.Some? && record.value.unknown;
    }

    method Store(path: Path, next: Option<Record>)
      modifies this`records
      ensures View() == WithRecord(old(View()), path, next)
    {
      records := if next.Some? then records[path := next.value] else records - {path};
    }

    method Reflect(path: Path, revision: Revision, mtime: Option<int>, reflected: bool, token: Option<Token>) returns (thrown: bool)
      modifies this`records
      ensures thrown <==> !IsReadable(old(View()), path)
      ensures thrown ==> View() == old(View())
      ensures !thrown ==> View() == WithRecord(old(View()), path, Some(Reflected(RecordAt(old(View()), path), revision, mtime, reflected, token)))
      ensures token == None ==> View() == Next(old(View()), Event.Reflect(path, revision, mtime, reflected))
      ensures !thrown ==> OnlyChanges(old(View()), View(), path)
      ensures !thrown ==>
                var mark := MarkAt(old(View()), path);
                && path in records && records[path].(pending := None) == Record(revision, mtime, reflected, None, false)
                && records[path].pending == if mark == None || Some(mark.value.token) == token then None else mark
    {
      var current;
      current, thrown := Get(path);
      if !thrown {
        Store(path, Some(Reflected(current, revision, mtime, reflected, token)));
      }
    }

    method Delete(path: Path) returns (thrown: bool)
      modifies this`records
      ensures thrown <==> !IsReadable(old(View()), path) || MarkAt(old(View()), path).Some?
      ensures View() == Next(old(View()), Event.Delete(path))
      ensures if thrown then View() == old(View()) else path !in records && OnlyChanges(old(View()), View(), path)
    {
      var current;
      current, thrown := Get(path);
      if thrown || PendingOf(current).Some? {
        return true;
      }
      Store(path, None);
    }

    method Begin(path: Path, revision: Revision) returns (token: Option<Token>)
      modifies this
      ensures token.None? <==> !IsReadable(old(View()), path)
      ensures token.Some? ==> old(nextToken) <= token.value < nextToken && OnlyChanges(old(View()), View(), path)
      ensures token.Some? ==>
                var mark := Some(Mark(revision, token.value));
                RecordAt(View(), path) ==
                  Some(if path in old(records) then old(records)[path].(pending := mark) else Record(revision, None, false, mark, false))
      ensures token.None? ==> View() == old(View())
    {
      var current, thrown := Get(path);
      if thrown {
        return None;
      }
      token := Some(nextToken);
      nextToken := nextToken + 1;
      Store(path, Some(Begun(current, revision, token.value)));
    }

    /** The revision whose publication is missing, if there is one. */
    method MissingPublication(path: Path) returns (missing: Option<Revision>, thrown: bool)
      modifies this
      ensures thrown <==> !IsReadable(old(View()), path)
      ensures !thrown && MarkAt(old(View()), path).Some? ==> View() == Run(old(View()), RecoveryOf(path))
      ensures missing.Some? <==> !thrown && MarkAt(old(View()), path).Some? && path !in files
      ensures missing.Some? ==> missing.value == MarkAt(old(View()), path).value.revision
      ensures thrown || MarkAt(old(View()), path).None? ==> View() == old(View())
      ensures !thrown && MarkAt(old(View()), path).Some? ==>
                OnlyChanges(old(View()), View(), path) && RecordAt(View(), path) == if path in files then None else RecordAt(old(View()), path)
    {
      var stat := path in files;
      var record;
      record, thrown := Get(path);
      if thrown {
        return None, true;
      }
      var pending := PendingOf(record);
      if pending.Some? {
        Recovers(View(), path);
      }
      if !stat {
        if pending.Some? {
          reports := reports + [Report(path, pending.value)];
        }
        return if pending.Some? then Some(pending.value.revision) else None, false;
      }
      if pending.Some? {
        Store(path, None);
        cleared := cleared + {pending.value.token};
      }
      return None, false;
    }

    method DiscardForDatabaseDeletion(path: Path) returns (thrown: bool)
      modifies this`records, this`cleared
      ensures thrown <==> !IsReadable(old(View()), path)
      ensures thrown ==> View() == old(View())
      ensures !thrown ==> View() == Clearing(WithRecord(old(View()), path, None), MarkAt(old(View()), path))
      ensures !thrown ==> path !in records && OnlyChanges(old(View()), View(), path)
    {
      var current;
      current, thrown := Get(path);
      if !thrown {
        Store(path, None);
        cleared := if PendingOf(current).Some? then cleared + {PendingOf(current).value.token} else cleared;
      }
    }

    method Move(from: Path, target: Path) returns (thrown: bool)
      modifies this`records
      ensures View() == Run(old(View()), MoveOf(from, target) + [EditFrom(0)])
      ensures View() == Moved(old(View()), from, target)
      ensures thrown <==> MoveThrows(old(View()), from, target)
      ensures thrown ==> View() == old(View())
      ensures forall p | p != from && p != target :: RecordAt(View(), p) == RecordAt(old(View()), p)
      ensures !thrown && from != target ==> from !in records && RecordAt(View(), target) == if from in old(records) then RecordAt(old(View()), from) else RecordAt(old(View()), target)
    {
      MoveRuns(View(), from, target);
      hide Run, MoveOf;
      if from == target {
        return false;
      }
      var record;
      record, thrown := Get(from);
      if thrown || record.None? {
        return;
      }
      if record.value.pending.Some? && target !in files {
        return true;
      }
      var current, unreadable := Get(target);
      if unreadable || PendingOf(current).Some? {
        return true;
      }
      Store(target, record);
      Store(from, None);
    }
  }

  // ----- the locks -----

  /** A publication holds the write lock; every access to a record takes its provenance lock inside. */
  datatype Lock = WriteInParts(key: string) | FileProvenance(key: string)

  predicate Precedes(x: Lock, y: Lock) {
    (x.WriteInParts? && y.FileProvenance?) || (x.WriteInParts? == y.WriteInParts? && Less(x.key, y.key))
  }

  lemma PrecedesIsTransitive(x: Lock, y: Lock, z: Lock)
    requires Precedes(x, y) && Precedes(y, z)
    ensures Precedes(x, z)
  {
    if x.WriteInParts? == y.WriteInParts? == z.WriteInParts? {
      LessIsTransitive(x.key, y.key, z.key);
    }
  }

  /** The nested locks of an operation on some paths that edits the record of one of them. */
  function NestedLocks(keys: set<string>, edited: string): seq<Lock> {
    seq(|Ascending(keys)|, i requires 0 <= i < |Ascending(keys)| => WriteInParts(Ascending(keys)[i])) + [FileProvenance(edited)]
  }

  /** Locks are taken in one order. */
  lemma LocksAscend(keys: set<string>, edited: string, i: nat, j: nat)
    requires i < j < |NestedLocks(keys, edited)|
    ensures Precedes(NestedLocks(keys, edited)[i], NestedLocks(keys, edited)[j])
  {
    assert j < |Ascending(keys)| ==> Less(Ascending(keys)[i], Ascending(keys)[j]);
  }

  /** One who waits: for the lock number `taken` of its locks, holding the ones before. */
  datatype Waiter = Waiter(keys: set<string>, edited: string, taken: nat)

  predicate IsWaiter(w: Waiter) {
    w.taken < |NestedLocks(w.keys, w.edited)|
  }

  function Wanted(w: Waiter): Lock
    requires IsWaiter(w)
  {
    NestedLocks(w.keys, w.edited)[w.taken]
  }

  predicate WaitsFor(w: Waiter, v: Waiter)
    requires IsWaiter(w) && IsWaiter(v)
  {
    Wanted(w) in NestedLocks(v.keys, v.edited)[..v.taken]
  }

  lemma {:induction false} WantedLocksAscend(ws: seq<Waiter>, n: nat)
    requires 0 < n < |ws| && (forall i | 0 <= i < |ws| :: IsWaiter(ws[i]))
    requires forall i | 0 <= i < |ws| - 1 :: WaitsFor(ws[i], ws[i + 1])
    ensures Precedes(Wanted(ws[0]), Wanted(ws[n]))
    decreases n
  {
    var w, v := ws[n - 1], ws[n];
    assert WaitsFor(ws[n - 1], ws[n - 1 + 1]);
    var i :| 0 <= i < v.taken && NestedLocks(v.keys, v.edited)[i] == Wanted(w);
    LocksAscend(v.keys, v.edited, i, v.taken);
    if n > 1 {
      WantedLocksAscend(ws, n - 1);
      PrecedesIsTransitive(Wanted(ws[0]), Wanted(w), Wanted(v));
    }
  }

  /** No circle of operations waits for itself. */
  lemma NoDeadlock(ws: seq<Waiter>)
    requires |ws| > 1 && forall i | 0 <= i < |ws| :: IsWaiter(ws[i])
    requires forall i | 0 <= i < |ws| - 1 :: WaitsFor(ws[i], ws[i + 1])
    ensures ws[0] != ws[|ws| - 1]
  {
    var n := |ws| - 1;
    WantedLocksAscend(ws, n);
    LessIsTotal(Wanted(ws[0]).key, Wanted(ws[0]).key);
  }
}
