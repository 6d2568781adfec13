/**
 * The scan that reconciles storage and database after changes nobody watched, with its record of when each
 * file was last seen in storage. A listed pair may be out of date by the time it is processed.
 */
module OfflineScanner {

  import opened Options

  // ----- modification times, at a resolution of two seconds -----

  datatype Recency = BaseIsNew | TargetIsNew | Even

  const RESOLUTION := 2000

  /** The division truncates towards zero. */
  function Slot(mtime: int): int {
    if mtime >= 0 then mtime / RESOLUTION else -(-mtime / RESOLUTION)
  }

  /** How often a slot wraps around in 32 signed bits. */
  function Era(mtime: int): int {
    (Slot(mtime) + 0x8000_0000) / 0x1_0000_0000
  }

  function Truncated(mtime: int): int {
    ((Slot(mtime) + 0x8000_0000) % 0x1_0000_0000 - 0x8000_0000) * RESOLUTION
  }

  function CompareMTime(base: int, target: int): Recency {
    if Truncated(base) == Truncated(target) then Even
    else if Truncated(base) > Truncated(target) then BaseIsNew
    else TargetIsNew
  }

  function Order(x: int, y: int): Recency {
    if x == y then Even else if x > y then BaseIsNew else TargetIsNew
  }

  /** Times compare as their two-second slots do, exactly if no wrap-around lies between them that they do not outrun. */
  lemma ComparesSlotsIff(base: int, target: int)
    ensures CompareMTime(base, target) == Order(Slot(base), Slot(target))
            <==> Era(base) == Era(target)
                 || Slot(base) - Slot(target) > 0x1_0000_0000 * (Era(base) - Era(target)) > 0
                 || Slot(base) - Slot(target) < 0x1_0000_0000 * (Era(base) - Era(target)) < 0
  {
    var b, t := Slot(base), Slot(target);
    assert b == Truncated(base) / RESOLUTION + 0x1_0000_0000 * Era(base);
    assert t == Truncated(target) / RESOLUTION + 0x1_0000_0000 * Era(target);
  }

  /** From 7 February 2106 on, a later time can compare as earlier. */
  lemma TimesWrapAround()
    ensures CompareMTime(4_294_967_296_000, 0) == TargetIsNew
  {
    assert Slot(4_294_967_296_000) == 0x8000_0000;
  }

  // ----- what is to be done with a pair -----

  datatype Stat = Stat(mtime: int, size: nat)
  datatype Entry = Entry(mtime: int, size: nat, deleted: bool, conflicted: bool)

  datatype Mode = DbApply | NewerWins
  datatype ExtraOnLocal = Nothing | DeleteDbDeleted | DeleteDbMissing | AppendStorageOnly
  datatype FullScanOptions = FullScanOptions(mode: Mode, extraOnLocal: ExtraOnLocal, deleteLocalMissing: bool)

  datatype PairState = StorageOnly | DbOnly | DbOnlyDeleted | Both | BothDbDeleted
  datatype Action = UpdateDb | UpdateStorage | SyncNewer | DeleteLocal | DeleteDb | Skip
  datatype Outcome = Completed | Skipped | Failed

  function GetFilePairState(file: Option<Stat>, doc: Option<Entry>): PairState
    requires file.Some? || doc.Some?
  {
    if file.Some? && doc.Some? then if doc.value.deleted then BothDbDeleted else Both
    else if file.Some? then StorageOnly
    else if doc.value.deleted then DbOnlyDeleted
    else DbOnly
  }

  predicate ShouldDeleteLocalWhenRemoteMissing(options: FullScanOptions) {
    options.deleteLocalMissing || options.extraOnLocal.DeleteDbMissing?
  }

  predicate ShouldDeleteLocalWhenRemoteDeleted(options: FullScanOptions) {
    options.deleteLocalMissing || options.extraOnLocal.DeleteDbDeleted? || options.extraOnLocal.DeleteDbMissing?
  }

  function ResolveFilePairAction(state: PairState, options: FullScanOptions): Action {
    match (options.mode, state)
    case (DbApply, Both) => UpdateStorage
    case (DbApply, DbOnly) => UpdateStorage
    case (DbApply, StorageOnly) => if ShouldDeleteLocalWhenRemoteMissing(options) then DeleteLocal else Skip
    case (DbApply, BothDbDeleted) => if ShouldDeleteLocalWhenRemoteDeleted(options) then DeleteLocal else Skip
    case (DbApply, DbOnlyDeleted) => Skip
    case (NewerWins, Both) => SyncNewer
    case (NewerWins, StorageOnly) => if ShouldDeleteLocalWhenRemoteMissing(options) then DeleteLocal else UpdateDb
    case (NewerWins, DbOnly) => UpdateStorage
    case (NewerWins, BothDbDeleted) =>
      if ShouldDeleteLocalWhenRemoteDeleted(options) then DeleteLocal
      else if options.extraOnLocal.AppendStorageOnly? then UpdateDb
      else Skip
    case (NewerWins, DbOnlyDeleted) => Skip
  }

  predicate NotOlder(seen: int, mtime: int) {
    !CompareMTime(seen, mtime).TargetIsNew?
  }

  function Decide(file: Option<Stat>, doc: Option<Entry>, lastSeen: Option<int>, options: FullScanOptions): Action
    requires file.Some? || doc.Some?
  {
    var state := GetFilePairState(file, doc);
    if options.mode.NewerWins? && state.DbOnly? && lastSeen.Some? && NotOlder(lastSeen.value, doc.value.mtime) then DeleteDb
    else ResolveFilePairAction(state, options)
  }

  /** A pair that shows an offline deletion: the file is gone, it was seen here, and the entry is not newer. */
  predicate IsOfflineDeletion(file: Option<Stat>, doc: Option<Entry>, lastSeen: Option<int>) {
    && file.None? && doc.Some? && !doc.value.deleted
    && lastSeen.Some? && NotOlder(lastSeen.value, doc.value.mtime)
  }

  /**
   * Of an absent file, an entry is deleted exactly for an offline deletion in a scan where the newer side wins,
   * and the file is written exactly if the entry is live and there is none.
   */
  lemma AbsentFileIff(doc: Entry, lastSeen: Option<int>, options: FullScanOptions)
    ensures var action := Decide(None, Some(doc), lastSeen, options);
            && (action.DeleteDb? <==> options.mode.NewerWins? && IsOfflineDeletion(None, Some(doc), lastSeen))
            && (action.UpdateStorage? <==> !doc.deleted && !(options.mode.NewerWins? && IsOfflineDeletion(None, Some(doc), lastSeen)))
            && (action.Skip? <==> doc.deleted)
  {
  }

  /** A scan never deletes a database entry while its file is there, and deletes a file only when told to. */
  lemma PresentFileIff(file: Stat, doc: Option<Entry>, lastSeen: Option<int>, options: FullScanOptions)
    ensures var action := Decide(Some(file), doc, lastSeen, options);
            && !action.DeleteDb?
            && (action.DeleteLocal? <==>
                  || (doc.None? && ShouldDeleteLocalWhenRemoteMissing(options))
                  || (doc.Some? && doc.value.deleted && ShouldDeleteLocalWhenRemoteDeleted(options)))
  {
  }

  // ----- the scan and everything around it -----

  type Path = string

  /**
   * What the file handler and the size limits answer for a pair; `freshness` is the host's comparison of the two
   * sides. `keeps` says that writing an entry over a file leaves the file, which has its content or is preserved as
   * a conflicted revision. Of a deletion, `pending` says that a publication of the file is marked and `recovered` what is written of
   * it then; in a conflict, `knownRevision` says that it is known which revision storage showed, and `remaining`
   * which entry is left without it.
   */
  datatype Reply = Reply(succeeds: bool, fileTooLarge: bool, docTooLarge: bool, freshness: Recency, keeps: bool,
                         pending: bool, recovered: Option<Stat>, knownRevision: bool, remaining: Entry)

  /** What others do between two pairs. */
  datatype Change =
    | FileWritten(path: Path, stat: Stat)
    | FileRemoved(path: Path)
    | EntryStored(path: Path, entry: Entry)
    | EntryPurged(path: Path)
    | StatusSaved

  datatype PairPlan = PairPlan(before: seq<Change>, path: Path, reply: Reply)

  /** `interrupted` says that the application ends during the scan. */
  datatype Event =
    | Meanwhile(change: Change)
    | Scan(options: FullScanOptions, pairs: seq<PairPlan>, interrupted: bool)

  function Lookup<V>(m: map<Path, V>, path: Path): Option<V> {
    if path in m then Some(m[path]) else None
  }

  predicate HasRecord(fileMaps: map<Path, int>, path: Path, seen: int) {
    Lookup(fileMaps, path) == Some(seen)
  }

  predicate EntryIsNotNewer(database: map<Path, Entry>, path: Path, seen: int) {
    var entry := Lookup(database, path);
    entry.Some? && !entry.value.deleted ==> NotOlder(seen, entry.value.mtime)
  }

  // ----- what others do to a pair after it was listed -----

  function FileAfter(file: Option<Stat>, changes: seq<Change>, path: Path): Option<Stat> {
    if changes == [] then file
    else
      match changes[|changes| - 1]
      case FileWritten(p, stat) => if p == path then Some(stat) else FileAfter(file, changes[..|changes| - 1], path)
      case FileRemoved(p) => if p == path then None else FileAfter(file, changes[..|changes| - 1], path)
      case _ => FileAfter(file, changes[..|changes| - 1], path)
  }

  function EntryAfter(doc: Option<Entry>, changes: seq<Change>, path: Path): Option<Entry> {
    if changes == [] then doc
    else
      match changes[|changes| - 1]
      case EntryStored(p, entry) => if p == path then Some(entry) else EntryAfter(doc, changes[..|changes| - 1], path)
      case EntryPurged(p) => if p == path then None else EntryAfter(doc, changes[..|changes| - 1], path)
      case _ => EntryAfter(doc, changes[..|changes| - 1], path)
  }

  lemma {:induction false} ChangesInTurn(file: Option<Stat>, doc: Option<Entry>, earlier: seq<Change>, later: seq<Change>, path: Path)
    ensures FileAfter(file, earlier + later, path) == FileAfter(FileAfter(file, earlier, path), later, path)
    ensures EntryAfter(doc, earlier + later, path) == EntryAfter(EntryAfter(doc, earlier, path), later, path)
  {
    if later == [] {
      assert earlier + later == earlier;
    } else {
      assert (earlier + later)[..|earlier + later| - 1] == earlier + later[..|later| - 1];
      ChangesInTurn(file, doc, earlier, later[..|later| - 1], path);
    }
  }

  /** A database deletion: what was listed and decided on, what others did since, and what was there when it was carried out. */
  datatype Deletion = Deletion(path: Path, file: Option<Stat>, doc: Option<Entry>, lastSeen: Option<int>, since: seq<Change>,
                               currentFile: Option<Stat>, currentDoc: Option<Entry>)

  /** It was decided on the listed pair, and carried out on what had become of it. */
  predicate IsDecided(d: Deletion) {
    && IsOfflineDeletion(d.file, d.doc, d.lastSeen) && !d.doc.value.conflicted
    && d.currentFile == FileAfter(d.file, d.since, d.path)
    && d.currentDoc == EntryAfter(d.doc, d.since, d.path) && d.currentDoc.Some? && !d.currentDoc.value.deleted
  }

  /** What was deleted is an unconflicted entry, not newer than the record of its absent file. */
  predicate IsJustified(d: Deletion) {
    IsOfflineDeletion(d.currentFile, d.currentDoc, d.lastSeen) && !d.currentDoc.value.conflicted
  }

  /** Somebody wrote the file, and it was not removed again. */
  predicate FileCameBack(changes: seq<Change>, path: Path) {
    exists i :: 0 <= i < |changes| && changes[i].FileWritten? && changes[i].path == path && FileRemoved(path) !in changes[i + 1..]
  }

  predicate ConcernsEntry(change: Change, path: Path) {
    (change.EntryStored? || change.EntryPurged?) && change.path == path
  }

  /** The last entry that somebody stored is conflicted, or newer than the record. */
  predicate EntryWasReplaced(changes: seq<Change>, path: Path, seen: int) {
    exists i :: 0 <= i < |changes| && changes[i].EntryStored? && changes[i].path == path
                && (changes[i].entry.conflicted || !NotOlder(seen, changes[i].entry.mtime))
                && forall change | change in changes[i + 1..] :: !ConcernsEntry(change, path)
  }

  /** A deletion is justified exactly if since the listing the file has not come back, nor a newer or conflicted entry. */
  lemma DeletionIsJustifiedIff(d: Deletion)
    requires IsDecided(d)
    ensures IsJustified(d) <==> !FileCameBack(d.since, d.path) && !EntryWasReplaced(d.since, d.path, d.lastSeen.value)
  {
    hide FileCameBack, EntryWasReplaced, NotOlder;
    FileIsBackIff(d.since, d.path);
    EntryIsReplacedIff(d.doc, d.since, d.path, d.lastSeen.value);
  }

  lemma {:induction false} FileIsBackIff(changes: seq<Change>, path: Path)
    ensures FileAfter(None, changes, path).Some? <==> FileCameBack(changes, path)
  {
    if changes != [] {
      FileIsBackIff(changes[..|changes| - 1], path);
      WrittenBefore(changes, path);
    }
  }

  lemma WrittenBefore(changes: seq<Change>, path: Path)
    requires changes != []
    ensures var last := changes[|changes| - 1];
            FileCameBack(changes, path) <==>
              (last.FileWritten? && last.path == path) || (last != FileRemoved(path) && FileCameBack(changes[..|changes| - 1], path))
  {
    var n := |changes| - 1;
    var before := changes[..n];
    assert changes[n + 1..] == [];
    forall i | 0 <= i < n
      ensures changes[i] == before[i]
      ensures FileRemoved(path) !in changes[i + 1..] <==> changes[n] != FileRemoved(path) && FileRemoved(path) !in before[i + 1..]
    {
      assert changes[i + 1..] == before[i + 1..] + [changes[n]];
    }
  }

  lemma {:induction false} EntryIsReplacedIff(doc: Option<Entry>, changes: seq<Change>, path: Path, seen: int)
    requires doc.Some? && !doc.value.conflicted && NotOlder(seen, doc.value.mtime)
    ensures var entry := EntryAfter(doc, changes, path);
            entry.Some? && (entry.value.conflicted || !NotOlder(seen, entry.value.mtime)) <==> EntryWasReplaced(changes, path, seen)
  {
    hide NotOlder;
    if changes != [] {
      EntryIsReplacedIff(doc, changes[..|changes| - 1], path, seen);
      StoredBefore(changes, path, seen);
    }
  }

  lemma StoredBefore(changes: seq<Change>, path: Path, seen: int)
    requires changes != []
    ensures var n := |changes| - 1;
            EntryWasReplaced(changes, path, seen) <==>
              if ConcernsEntry(changes[n], path) then
                changes[n].EntryStored? && (changes[n].entry.conflicted || !NotOlder(seen, changes[n].entry.mtime))
              else EntryWasReplaced(changes[..n], path, seen)
  {
    hide NotOlder;
    var n := |changes| - 1;
    var before := changes[..n];
    assert changes[n + 1..] == [];
    forall i | 0 <= i < n
      ensures changes[i] == before[i]
      ensures (forall change | change in changes[i + 1..] :: !ConcernsEntry(change, path)) <==>
                !ConcernsEntry(changes[n], path) && forall change | change in before[i + 1..] :: !ConcernsEntry(change, path)
    {
      assert changes[i + 1..] == before[i + 1..] + [changes[n]];
    }
  }

  // ----- what the handlers make of one file -----

  /** What there is of a file: in storage, in the database, and in the last-seen record. */
  datatype Item = Item(file: Option<Stat>, entry: Option<Entry>, record: Option<int>)

  predicate IsGone(entry: Option<Entry>) {
    entry.None? || entry.value.deleted
  }

  predicate IsLive(doc: Option<Entry>) {
    doc.Some? && !doc.value.deleted && !doc.value.conflicted
  }

  /** Which side of a pair is the newer one; equal times tell nothing when the sizes differ. */
  function NewerSide(file: Stat, doc: Entry, freshness: Recency, writesConflicts: bool): Recency {
    if !freshness.Even? || file.size == doc.size then freshness
    else if file.size > 0 && doc.size == 0 && file.mtime > doc.mtime then BaseIsNew
    else if !writesConflicts then TargetIsNew
    else Even
  }

  /** The handler looks at the current entry, not at the listed one. */
  predicate IsReflected(item: Item, reply: Reply) {
    reply.succeeds && item.entry.Some?
  }

  /** What is in storage after an entry was written there. In a conflict nothing is, unless it is configured. */
  function Reflected(item: Item, forced: bool, reply: Reply, writesConflicts: bool): Option<Stat> {
    if !IsReflected(item, reply) || (item.entry.value.conflicted && !writesConflicts) || (item.file.Some? && !forced && reply.keeps) then item.file
    else if item.entry.value.deleted then None
    else Some(Stat(item.entry.value.mtime, item.entry.value.size))
  }

  /** The entry can be written to storage: it is still there, and no conflict keeps it back. */
  predicate Writable(entry: Entry, writesConflicts: bool) {
    !entry.deleted && (!entry.conflicted || writesConflicts)
  }

  /** Of an absent file, exactly a writable entry is written. */
  lemma WrittenIff(item: Item, reply: Reply, writesConflicts: bool)
    requires item.file.None? && IsReflected(item, reply)
    ensures Reflected(item, true, reply, writesConflicts).Some? <==> Writable(item.entry.value, writesConflicts)
  {
  }

  /** Whether the handler that is to delete the entry of a file answers that it has. */
  predicate DeletionIsAnswered(item: Item, reply: Reply) {
    reply.succeeds && if reply.pending && item.file.None? then item.entry.Some? else !IsGone(item.entry)
  }

  /** A publication that is marked and whose file is missing is recovered instead; in a conflict the displayed revision must be known. */
  predicate IsDeletedThen(item: Item, reply: Reply) {
    DeletionIsAnswered(item, reply) && !(reply.pending && item.file.None?) && (item.entry.value.conflicted ==> reply.knownRevision)
  }

  function AfterDeletion(item: Item, reply: Reply): Item {
    if IsDeletedThen(item, reply) then
      item.(entry := Some(if item.entry.value.conflicted then reply.remaining else item.entry.value.(deleted := true)))
    else if DeletionIsAnswered(item, reply) && reply.pending && item.file.None? then item.(file := reply.recovered)
    else item
  }

  predicate IsApplicable(action: Action, file: Option<Stat>, doc: Option<Entry>) {
    (action.UpdateDb? || action.SyncNewer? ==> file.Some?) && (action.UpdateStorage? || action.SyncNewer? ==> doc.Some?)
  }

  function SyncOutcome(file: Stat, doc: Entry, item: Item, reply: Reply, writesConflicts: bool): Outcome {
    if doc.conflicted || reply.fileTooLarge || reply.docTooLarge then Skipped
    else
      match NewerSide(file, doc, reply.freshness, writesConflicts)
      case Even => Completed
      case BaseIsNew => if reply.succeeds then Completed else Failed
      case TargetIsNew => if IsReflected(item, reply) then Completed else Failed
  }

  function OutcomeOf(action: Action, file: Option<Stat>, doc: Option<Entry>, item: Item, reply: Reply, writesConflicts: bool): Outcome
    requires IsApplicable(action, file, doc)
  {
    match action
    case UpdateDb => if reply.fileTooLarge then Skipped else if reply.succeeds then Completed else Failed
    case UpdateStorage => if reply.docTooLarge then Skipped else if IsReflected(item, reply) then Completed else Failed
    case SyncNewer => SyncOutcome(file.value, doc.value, item, reply, writesConflicts)
    case DeleteLocal => if reply.succeeds then Completed else Failed
    case DeleteDb => if DeletionIsAnswered(item, reply) then Completed else Failed
    case Skip => Skipped
  }

  function Synchronized(file: Stat, doc: Entry, item: Item, reply: Reply, writesConflicts: bool): Item {
    match NewerSide(file, doc, reply.freshness, writesConflicts)
    case Even => item
    case BaseIsNew => item.(entry := Some(Entry(file.mtime, file.size, false, false)))
    case TargetIsNew => item.(file := Reflected(item, false, reply, writesConflicts))
  }

  /**
   * What an action on a pair makes of the file. Only a completed pair leaves the impression that the file was seen
   * as it was listed in the database, even where nothing was written.
   */
  function ItemAfter(action: Action, file: Option<Stat>, doc: Option<Entry>, item: Item, reply: Reply, writesConflicts: bool): Item
    requires IsApplicable(action, file, doc)
  {
    if !OutcomeOf(action, file, doc, item, reply, writesConflicts).Completed? then item
    else
      match action
      case UpdateDb => item.(entry := Some(Entry(file.value.mtime, file.value.size, false, false)))
      case UpdateStorage => item.(file := Reflected(item, true, reply, writesConflicts), record := Some(doc.value.mtime))
      case SyncNewer =>
        Synchronized(file.value, doc.value, item, reply, writesConflicts)
        .(record := Some(if file.value.mtime > doc.value.mtime then file.value.mtime else doc.value.mtime))
      case DeleteLocal => item.(file := None, record := None)
      case DeleteDb => AfterDeletion(item, reply).(record := None)
      case Skip => item
  }

  /** Even if the handler says that it has deleted the entry of an absent file, the deletion holds: nothing is there to be written back. */
  predicate DeletionHolds(item: Item, reply: Reply) {
    DeletionIsAnswered(item, reply) ==>
      if reply.pending then reply.recovered.None? && IsGone(item.entry)
      else item.entry.value.conflicted ==> reply.knownRevision && reply.remaining.deleted
  }

  // ----- the scan as a function of what there was and what others do -----

  /**
   * `fileMaps` is the last-seen record in memory, `persisted` the saved one. `everStored` are the files that were in
   * storage at some time, `unwritten` those recorded as seen although they were not written.
   */
  datatype State = State(storage: map<Path, Stat>, database: map<Path, Entry>, fileMaps: map<Path, int>, persisted: map<Path, int>,
                         writesConflicts: bool, everStored: set<Path>, unwritten: set<Path>, deletions: seq<Deletion>)

  function Put<V>(m: map<Path, V>, path: Path, v: Option<V>): (r: map<Path, V>)
    ensures forall p: Path :: Lookup(r, p) == if p == path then v else Lookup(m, p)
    ensures v == Lookup(m, path) ==> r == m
  {
    if v.Some? then m[path := v.value] else m - {path}
  }

  function ItemOf(s: State, path: Path): Item {
    Item(Lookup(s.storage, path), Lookup(s.database, path), Lookup(s.fileMaps, path))
  }

  function WithItem(s: State, path: Path, item: Item): State {
    s.(storage := Put(s.storage, path, item.file), database := Put(s.database, path, item.entry), fileMaps := Put(s.fileMaps, path, item.record))
  }

  function Changed(s: State, change: Change): State {
    match change
    case FileWritten(path, stat) => s.(storage := s.storage[path := stat], everStored := s.everStored + {path})
    case FileRemoved(path) => s.(storage := s.storage - {path})
    case EntryStored(path, entry) => s.(database := s.database[path := entry])
    case EntryPurged(path) => s.(database := s.database - {path})
    case StatusSaved => s.(persisted := s.fileMaps)
  }

  function ChangedBy(s: State, changes: seq<Change>): State {
    if changes == [] then s else Changed(ChangedBy(s, changes[..|changes| - 1]), changes[|changes| - 1])
  }

  /** An action, and what is to be remembered of it. */
  function Performed(s: State, action: Action, path: Path, file: Option<Stat>, doc: Option<Entry>, since: seq<Change>, reply: Reply): State
    requires IsApplicable(action, file, doc)
  {
    var item := ItemOf(s, path);
    var next := ItemAfter(action, file, doc, item, reply, s.writesConflicts);
    var completed := OutcomeOf(action, file, doc, item, reply, s.writesConflicts).Completed?;
    WithItem(s, path, next)
    .(everStored := s.everStored + (if next.file.Some? then {path} else {}),
      unwritten := s.unwritten + (if action.UpdateStorage? && completed && next.file.None? then {path} else {}),
      deletions := s.deletions + (if action.DeleteDb? && IsDeletedThen(item, reply)
                                  then [Deletion(path, file, doc, item.record, since, item.file, item.entry)] else []))
  }

  /** A listed pair: a file that was listed is recorded as seen, and a conflicted entry is left alone. */
  function Processed(s: State, path: Path, file: Option<Stat>, doc: Option<Entry>, options: FullScanOptions, since: seq<Change>, reply: Reply): State
    requires file.Some? || doc.Some?
  {
    var t := if file.Some? then s.(fileMaps := s.fileMaps[path := file.value.mtime]) else s;
    if doc.Some? && doc.value.conflicted then t
    else Performed(t, Decide(file, doc, Lookup(t.fileMaps, path), options), path, file, doc, since, reply)
  }

  /** A file that was listed is recorded as seen before anything else. */
  function Seen(now: Item, file: Option<Stat>): Item {
    if file.Some? then now.(record := Some(file.value.mtime)) else now
  }

  function OutcomeOfPair(now: Item, file: Option<Stat>, doc: Option<Entry>, options: FullScanOptions, reply: Reply, writesConflicts: bool): Outcome
    requires file.Some? || doc.Some?
  {
    var item := Seen(now, file);
    if doc.Some? && doc.value.conflicted then Skipped
    else OutcomeOf(Decide(file, doc, item.record, options), file, doc, item, reply, writesConflicts)
  }

  function ItemAfterPair(now: Item, file: Option<Stat>, doc: Option<Entry>, options: FullScanOptions, reply: Reply, writesConflicts: bool): Item
    requires file.Some? || doc.Some?
  {
    var item := Seen(now, file);
    if doc.Some? && doc.value.conflicted then item
    else ItemAfter(Decide(file, doc, item.record, options), file, doc, item, reply, writesConflicts)
  }

  lemma ItemOfProcessed(s: State, path: Path, file: Option<Stat>, doc: Option<Entry>, options: FullScanOptions, since: seq<Change>, reply: Reply)
    requires file.Some? || doc.Some?
    ensures ItemOf(Processed(s, path, file, doc, options, since, reply), path) ==
              ItemAfterPair(ItemOf(s, path), file, doc, options, reply, s.writesConflicts)
  {
    hide Decide, ItemAfter, OutcomeOf, IsDeletedThen;
  }

  // ----- what a pair comes to, whatever action is chosen for it -----

  /** The file is the newer side, or its entry is empty and older than it. */
  predicate FileIsNewer(file: Stat, doc: Entry, reply: Reply) {
    || reply.freshness == BaseIsNew
    || (reply.freshness == Even && file.size > 0 && doc.size == 0 && file.mtime > doc.mtime)
  }

  /** The entry is the newer side, or as new and of another size, unless that would overwrite the file in a conflict. */
  predicate EntryIsNewer(file: Stat, doc: Entry, reply: Reply, writesConflicts: bool) {
    || reply.freshness == TargetIsNew
    || (reply.freshness == Even && file.size != doc.size && !writesConflicts && !FileIsNewer(file, doc, reply))
  }

  /** The handler writes the entry as it is now: it is there, and no conflict keeps it back. */
  predicate IsWritten(now: Item, reply: Reply, writesConflicts: bool) {
    reply.succeeds && now.entry.Some? && (now.entry.value.conflicted ==> writesConflicts)
  }

  function FileOf(entry: Entry): Option<Stat> {
    if entry.deleted then None else Some(Stat(entry.mtime, entry.size))
  }

  function EntryOf(file: Stat): Entry {
    Entry(file.mtime, file.size, false, false)
  }

  function OutcomeIf(fits: bool, succeeds: bool): Outcome {
    if !fits then Skipped else if succeeds then Completed else Failed
  }

  predicate Stays(now: Item, next: Item) {
    next.file == now.file && next.entry == now.entry
  }

  /** The file and its live entry: the newer side is taken over, or the entry always, if that is the mode. */
  predicate BothAreRight(file: Stat, doc: Entry, options: FullScanOptions, reply: Reply, writesConflicts: bool, now: Item, next: Item, outcome: Outcome) {
    if options.mode == DbApply then
      && outcome == OutcomeIf(!reply.docTooLarge, reply.succeeds && now.entry.Some?)
      && next.file == (if !reply.docTooLarge && IsWritten(now, reply, writesConflicts) then FileOf(now.entry.value) else now.file)
      && next.entry == now.entry && next.record == Some(if outcome == Completed then doc.mtime else file.mtime)
    else
      var fits := !reply.fileTooLarge && !reply.docTooLarge;
      && outcome == OutcomeIf(fits, (FileIsNewer(file, doc, reply) ==> reply.succeeds)
                                    && (EntryIsNewer(file, doc, reply, writesConflicts) ==> reply.succeeds && now.entry.Some?))
      && next.entry == (if fits && FileIsNewer(file, doc, reply) && reply.succeeds then Some(EntryOf(file)) else now.entry)
      && next.file == (if fits && EntryIsNewer(file, doc, reply, writesConflicts) && IsWritten(now, reply, writesConflicts) && (now.file.Some? ==> !reply.keeps)
                       then FileOf(now.entry.value) else now.file)
      && next.record == Some(if outcome == Completed && doc.mtime > file.mtime then doc.mtime else file.mtime)
  }

  /** A file whose entry is missing or deleted: it is deleted if the options say so, stored if they allow it, and left alone otherwise. */
  predicate FileAloneIsRight(file: Stat, deletes: bool, stores: bool, reply: Reply, now: Item, next: Item, outcome: Outcome) {
    if deletes then
      && outcome == OutcomeIf(true, reply.succeeds) && next.entry == now.entry
      && next.file == (if reply.succeeds then None else now.file) && next.record == if reply.succeeds then None else Some(file.mtime)
    else if stores then
      && outcome == OutcomeIf(!reply.fileTooLarge, reply.succeeds) && next.file == now.file && next.record == Some(file.mtime)
      && next.entry == if !reply.fileTooLarge && reply.succeeds then Some(EntryOf(file)) else now.entry
    else outcome == Skipped && Stays(now, next) && next.record == Some(file.mtime)
  }

  /** A live entry without its file: an offline deletion is handed to the handler, and any other is written. */
  predicate EntryAloneIsRight(doc: Entry, deletes: bool, reply: Reply, writesConflicts: bool, now: Item, next: Item, outcome: Outcome) {
    if !deletes then
      && outcome == OutcomeIf(!reply.docTooLarge, reply.succeeds && now.entry.Some?)
      && next.file == (if !reply.docTooLarge && IsWritten(now, reply, writesConflicts) then FileOf(now.entry.value) else now.file)
      && next.entry == now.entry && next.record == if outcome == Completed then Some(doc.mtime) else now.record
    else
      var isPending := reply.pending && now.file.None?;
      && outcome == OutcomeIf(true, reply.succeeds && now.entry.Some? && (isPending || !now.entry.value.deleted))
      && next.record == (if outcome == Completed then None else now.record)
      && next.file == (if outcome == Completed && isPending then reply.recovered else now.file)
      && next.entry == if outcome != Completed || isPending || (now.entry.value.conflicted && !reply.knownRevision) then now.entry
                       else if now.entry.value.conflicted then Some(reply.remaining) else Some(now.entry.value.(deleted := true))
  }

  /** What the turn of a pair makes of the file as it is by then, by what was listed, the options and the answers. */
  predicate PairIsRight(file: Option<Stat>, doc: Option<Entry>, options: FullScanOptions, reply: Reply, writesConflicts: bool, now: Item, next: Item, outcome: Outcome)
    requires file.Some? || doc.Some?
  {
    var deletesMissing := options.deleteLocalMissing || options.extraOnLocal == DeleteDbMissing;
    if doc.Some? && doc.value.conflicted then
      outcome == Skipped && Stays(now, next) && next.record == if file.Some? then Some(file.value.mtime) else now.record
    else
      match (file, doc)
      case (Some(f), Some(d)) =>
        if d.deleted then
          FileAloneIsRight(f, deletesMissing || options.extraOnLocal == DeleteDbDeleted,
                           options.mode == NewerWins && options.extraOnLocal == AppendStorageOnly, reply, now, next, outcome)
        else BothAreRight(f, d, options, reply, writesConflicts, now, next, outcome)
      case (Some(f), None) => FileAloneIsRight(f, deletesMissing, options.mode == NewerWins, reply, now, next, outcome)
      case (None, Some(d)) =>
        if d.deleted then outcome == Skipped && next == now
        else EntryAloneIsRight(d, options.mode == NewerWins && IsOfflineDeletion(None, doc, now.record), reply, writesConflicts, now, next, outcome)
  }

  lemma BothComeRight(file: Stat, doc: Entry, options: FullScanOptions, reply: Reply, writesConflicts: bool, now: Item)
    requires !doc.deleted && !doc.conflicted
    ensures BothAreRight(file, doc, options, reply, writesConflicts, now, ItemAfterPair(now, Some(file), Some(doc), options, reply, writesConflicts),
                         OutcomeOfPair(now, Some(file), Some(doc), options, reply, writesConflicts))
  {
    hide NotOlder;
  }

  lemma FileAloneComesRight(file: Stat, doc: Option<Entry>, options: FullScanOptions, reply: Reply, writesConflicts: bool, now: Item)
    requires doc.Some? ==> doc.value.deleted && !doc.value.conflicted
    ensures PairIsRight(Some(file), doc, options, reply, writesConflicts, now, ItemAfterPair(now, Some(file), doc, options, reply, writesConflicts),
                        OutcomeOfPair(now, Some(file), doc, options, reply, writesConflicts))
  {
    hide NotOlder, Reflected, Synchronized, SyncOutcome, AfterDeletion, DeletionIsAnswered;
  }

  lemma EntryAloneComesRight(doc: Entry, options: FullScanOptions, reply: Reply, writesConflicts: bool, now: Item)
    requires !doc.conflicted
    ensures PairIsRight(None, Some(doc), options, reply, writesConflicts, now, ItemAfterPair(now, None, Some(doc), options, reply, writesConflicts),
                        OutcomeOfPair(now, None, Some(doc), options, reply, writesConflicts))
  {
    hide NotOlder, Synchronized, SyncOutcome;
  }

  /** Whatever was listed: the turn makes of file, entry and record what it should. */
  lemma PairComesRight(file: Option<Stat>, doc: Option<Entry>, options: FullScanOptions, reply: Reply, writesConflicts: bool, now: Item)
    requires file.Some? || doc.Some?
    ensures PairIsRight(file, doc, options, reply, writesConflicts, now, ItemAfterPair(now, file, doc, options, reply, writesConflicts),
                        OutcomeOfPair(now, file, doc, options, reply, writesConflicts))
  {
    hide Decide, ItemAfter, OutcomeOf, BothAreRight, FileAloneIsRight, EntryAloneIsRight;
    if doc.None? || !doc.value.conflicted {
      if file.Some? && doc.Some? && !doc.value.deleted {
        BothComeRight(file.value, doc.value, options, reply, writesConflicts, now);
      } else if file.Some? {
        FileAloneComesRight(file.value, doc, options, reply, writesConflicts, now);
      } else {
        EntryAloneComesRight(doc.value, options, reply, writesConflicts, now);
      }
    }
  }

  lemma ProcessedIsRight(s: State, path: Path, file: Option<Stat>, doc: Option<Entry>, options: FullScanOptions, since: seq<Change>, reply: Reply)
    requires file.Some? || doc.Some?
    ensures var now, next := ItemOf(s, path), ItemOf(Processed(s, path, file, doc, options, since, reply), path);
            PairIsRight(file, doc, options, reply, s.writesConflicts, now, next, OutcomeOfPair(now, file, doc, options, reply, s.writesConflicts))
  {
    hide *;
    ItemOfProcessed(s, path, file, doc, options, since, reply);
    PairComesRight(file, doc, options, reply, s.writesConflicts, ItemOf(s, path));
  }

  /** The turn of one pair of a listing, and what others do before it. */
  function AfterTurn(s: State, plan: PairPlan, file: Option<Stat>, doc: Option<Entry>, options: FullScanOptions, since: seq<Change>): State {
    var t := ChangedBy(s, plan.before);
    if file.None? && doc.None? then t else Processed(t, plan.path, file, doc, options, since + plan.before, plan.reply)
  }

  /** What others have done by the turn of the last pair. */
  function Meanwhiles(pairs: seq<PairPlan>): seq<Change> {
    if pairs == [] then [] else Meanwhiles(pairs[..|pairs| - 1]) + pairs[|pairs| - 1].before
  }

  /** A scan works through the pairs of what there was when both sides were listed. */
  function AfterTurns(listed: State, options: FullScanOptions, pairs: seq<PairPlan>): State {
    if pairs == [] then listed
    else
      var n := |pairs| - 1;
      var path := pairs[n].path;
      AfterTurn(AfterTurns(listed, options, pairs[..n]), pairs[n], Lookup(listed.storage, path), Lookup(listed.database, path), options, Meanwhiles(pairs[..n]))
  }

  /** The record is loaded before a scan and saved behind it; when the application ends, the next start loads what was saved. */
  function Scanned(s: State, options: FullScanOptions, pairs: seq<PairPlan>, interrupted: bool): State {
    var t := AfterTurns(s.(fileMaps := s.persisted), options, pairs);
    if interrupted then t.(fileMaps := t.persisted) else t.(persisted := t.fileMaps)
  }

  function AfterEvent(s: State, event: Event): State {
    match event
    case Meanwhile(change) => Changed(s, change)
    case Scan(options, pairs, interrupted) => Scanned(s, options, pairs, interrupted)
  }

  function AfterEvents(s: State, events: seq<Event>): State {
    if events == [] then s else AfterEvent(AfterEvents(s, events[..|events| - 1]), events[|events| - 1])
  }

  // ----- records are of files that were there, and deletions of files that were absent -----

  predicate IsListing(pairs: seq<PairPlan>) {
    forall i, j | 0 <= i < j < |pairs| :: pairs[i].path != pairs[j].path
  }

  predicate Inv(s: State) {
    && s.storage.Keys <= s.everStored && s.fileMaps.Keys <= s.everStored + s.unwritten && s.persisted.Keys <= s.everStored + s.unwritten
    && forall d | d in s.deletions :: IsDecided(d) && d.path in s.everStored + s.unwritten
  }

  /** Between two states of a scan only others have dealt with a file. */
  predicate LeftToOthers(s: State, t: State, changes: seq<Change>, path: Path) {
    && Lookup(t.storage, path) == FileAfter(Lookup(s.storage, path), changes, path)
    && Lookup(t.database, path) == EntryAfter(Lookup(s.database, path), changes, path)
    && Lookup(t.fileMaps, path) == Lookup(s.fileMaps, path)
  }

  lemma ChangeKeepsInv(s: State, change: Change)
    ensures var t := Changed(s, change);
            && t.fileMaps == s.fileMaps && t.writesConflicts == s.writesConflicts && s.everStored <= t.everStored
            && t.unwritten == s.unwritten && t.deletions == s.deletions && (Inv(s) ==> Inv(t))
  {
    hide IsDecided;
  }

  lemma {:induction false} ChangesKeepInv(s: State, changes: seq<Change>)
    ensures var t := ChangedBy(s, changes);
            && t.fileMaps == s.fileMaps && t.writesConflicts == s.writesConflicts && s.everStored <= t.everStored
            && t.unwritten == s.unwritten && t.deletions == s.deletions && (Inv(s) ==> Inv(t))
  {
    hide Inv, Changed;
    if changes != [] {
      ChangesKeepInv(s, changes[..|changes| - 1]);
      ChangeKeepsInv(ChangedBy(s, changes[..|changes| - 1]), changes[|changes| - 1]);
    }
  }

  lemma ChangeIsLocal(s: State, change: Change, path: Path)
    ensures var t := Changed(s, change);
            && Lookup(t.storage, path) == (match change
                                           case FileWritten(p, stat) => if p == path then Some(stat) else Lookup(s.storage, path)
                                           case FileRemoved(p) => if p == path then None else Lookup(s.storage, path)
                                           case _ => Lookup(s.storage, path))
            && Lookup(t.database, path) == (match change
                                            case EntryStored(p, entry) => if p == path then Some(entry) else Lookup(s.database, path)
                                            case EntryPurged(p) => if p == path then None else Lookup(s.database, path)
                                            case _ => Lookup(s.database, path))
            && t.fileMaps == s.fileMaps
  {
  }

  lemma {:induction false} ChangesAreLocal(s: State, changes: seq<Change>, path: Path)
    ensures LeftToOthers(s, ChangedBy(s, changes), changes, path)
  {
    hide Changed, Lookup;
    if changes != [] {
      ChangesAreLocal(s, changes[..|changes| - 1], path);
      ChangeIsLocal(ChangedBy(s, changes[..|changes| - 1]), changes[|changes| - 1], path);
    }
  }

  lemma LeftToOthersInTurn(s: State, t: State, u: State, earlier: seq<Change>, later: seq<Change>, path: Path)
    requires LeftToOthers(s, t, earlier, path) && LeftToOthers(t, u, later, path)
    ensures LeftToOthers(s, u, earlier + later, path)
  {
    ChangesInTurn(Lookup(s.storage, path), Lookup(s.database, path), earlier, later, path);
  }

  lemma PerformedKeepsInv(s: State, action: Action, path: Path, file: Option<Stat>, doc: Option<Entry>, since: seq<Change>, reply: Reply)
    requires Inv(s) && IsApplicable(action, file, doc) && (file.Some? ==> path in s.everStored)
    requires action.DeleteDb? ==> IsOfflineDeletion(file, doc, Lookup(s.fileMaps, path)) && !doc.value.conflicted
    requires Lookup(s.storage, path) == FileAfter(file, since, path) && Lookup(s.database, path) == EntryAfter(doc, since, path)
    ensures Inv(Performed(s, action, path, file, doc, since, reply))
  {
    hide FileAfter, EntryAfter, NotOlder, NewerSide, Reflected, OutcomeOf, Put;
    var item, t := ItemOf(s, path), Performed(s, action, path, file, doc, since, reply);
    var deletion := Deletion(path, file, doc, item.record, since, item.file, item.entry);
    assert action.DeleteDb? && IsDeletedThen(item, reply) ==> IsDecided(deletion) && path in s.fileMaps;
    forall p
      ensures p in t.storage <==> Lookup(t.storage, p).Some?
      ensures p in t.fileMaps <==> Lookup(t.fileMaps, p).Some?
    {
    }
  }

  lemma ProcessedKeepsInv(s: State, path: Path, file: Option<Stat>, doc: Option<Entry>, options: FullScanOptions, since: seq<Change>, reply: Reply)
    requires Inv(s) && (file.Some? || doc.Some?) && (file.Some? ==> path in s.everStored)
    requires Lookup(s.storage, path) == FileAfter(file, since, path) && Lookup(s.database, path) == EntryAfter(doc, since, path)
    ensures Inv(Processed(s, path, file, doc, options, since, reply))
  {
    hide FileAfter, EntryAfter, NotOlder, Performed, IsDecided;
    var t := if file.Some? then s.(fileMaps := s.fileMaps[path := file.value.mtime]) else s;
    if doc.None? || !doc.value.conflicted {
      PerformedKeepsInv(t, Decide(file, doc, Lookup(t.fileMaps, path), options), path, file, doc, since, reply);
    }
  }

  lemma TurnIsLocal(s: State, plan: PairPlan, file: Option<Stat>, doc: Option<Entry>, options: FullScanOptions, since: seq<Change>, path: Path)
    requires plan.path != path
    ensures LeftToOthers(s, AfterTurn(s, plan, file, doc, options, since), plan.before, path)
  {
    hide FileAfter, EntryAfter, Processed, ChangedBy, Lookup;
    ChangesAreLocal(s, plan.before, path);
    if file.Some? || doc.Some? {
      ProcessedIsLocal(ChangedBy(s, plan.before), plan.path, file, doc, options, since + plan.before, plan.reply, path);
    }
  }

  /** What has become of a pair since it was listed is what others have done. */
  lemma {:induction false} TurnsAreLocal(listed: State, options: FullScanOptions, pairs: seq<PairPlan>, path: Path)
    requires forall plan | plan in pairs :: plan.path != path
    ensures LeftToOthers(listed, AfterTurns(listed, options, pairs), Meanwhiles(pairs), path)
  {
    if pairs == [] {
      ChangesAreLocal(listed, [], path);
    } else {
      hide LeftToOthers, Processed, ChangedBy;
      var n := |pairs| - 1;
      var s, plan := AfterTurns(listed, options, pairs[..n]), pairs[n];
      TurnsAreLocal(listed, options, pairs[..n], path);
      ChangesAreLocal(s, plan.before, path);
      TurnIsLocal(s, plan, Lookup(listed.storage, plan.path), Lookup(listed.database, plan.path), options, Meanwhiles(pairs[..n]), path);
      LeftToOthersInTurn(listed, s, AfterTurns(listed, options, pairs), Meanwhiles(pairs[..n]), plan.before, path);
    }
  }

  lemma ProcessedIsLocal(s: State, p: Path, file: Option<Stat>, doc: Option<Entry>, options: FullScanOptions, since: seq<Change>, reply: Reply, path: Path)
    requires p != path && (file.Some? || doc.Some?)
    ensures var t := Processed(s, p, file, doc, options, since, reply);
            ItemOf(t, path) == ItemOf(s, path) && t.persisted == s.persisted
  {
    hide ItemAfter, OutcomeOf, Decide;
  }

  /** The same of the turns behind a position. */
  lemma {:induction false} LaterTurnsAreLocal(listed: State, options: FullScanOptions, pairs: seq<PairPlan>, m: nat, path: Path)
    requires m <= |pairs| && forall plan | plan in pairs[m..] :: plan.path != path
    ensures LeftToOthers(AfterTurns(listed, options, pairs[..m]), AfterTurns(listed, options, pairs), Meanwhiles(pairs[m..]), path)
  {
    if m == |pairs| {
      assert pairs[..m] == pairs;
      ChangesAreLocal(AfterTurns(listed, options, pairs), [], path);
    } else {
      hide LeftToOthers, Processed, ChangedBy;
      var n := |pairs| - 1;
      var s, plan := AfterTurns(listed, options, pairs[..n]), pairs[n];
      assert pairs[..n][..m] == pairs[..m] && pairs[m..][..n - m] == pairs[..n][m..] && plan in pairs[m..];
      LaterTurnsAreLocal(listed, options, pairs[..n], m, path);
      TurnIsLocal(s, plan, Lookup(listed.storage, plan.path), Lookup(listed.database, plan.path), options, Meanwhiles(pairs[..n]), path);
      LeftToOthersInTurn(AfterTurns(listed, options, pairs[..m]), s, AfterTurns(listed, options, pairs), Meanwhiles(pairs[..n][m..]), plan.before, path);
    }
  }

  /** What a scan makes of one listed file: until its turn others change it, its pair comes to `next`, and what others change behind that stays. */
  predicate FileComesTo(s: State, t: State, options: FullScanOptions, pairs: seq<PairPlan>, interrupted: bool, k: nat, next: Item, outcome: Outcome)
    requires k < |pairs|
  {
    var path, earlier, later := pairs[k].path, Meanwhiles(pairs[..k + 1]), Meanwhiles(pairs[k + 1..]);
    var file, doc := Lookup(s.storage, path), Lookup(s.database, path);
    var now := Item(FileAfter(file, earlier, path), EntryAfter(doc, earlier, path), Lookup(s.persisted, path));
    && (if file.None? && doc.None? then next == now else PairIsRight(file, doc, options, pairs[k].reply, s.writesConflicts, now, next, outcome))
    && Lookup(t.storage, path) == FileAfter(next.file, later, path) && Lookup(t.database, path) == EntryAfter(next.entry, later, path)
    && (!interrupted ==> Lookup(t.persisted, path) == next.record)
  }

  /** It comes to what it should, on the script alone. */
  ghost predicate FileComesRight(s: State, t: State, options: FullScanOptions, pairs: seq<PairPlan>, interrupted: bool, k: nat)
    requires k < |pairs|
  {
    exists next, outcome :: FileComesTo(s, t, options, pairs, interrupted, k, next, outcome)
  }

  lemma TurnComesRight(listed: State, s: State, plan: PairPlan, options: FullScanOptions, since: seq<Change>)
    requires LeftToOthers(listed, s, since, plan.path) && s.writesConflicts == listed.writesConflicts
    ensures var path, earlier := plan.path, since + plan.before;
            var file, doc := Lookup(listed.storage, path), Lookup(listed.database, path);
            var now := Item(FileAfter(file, earlier, path), EntryAfter(doc, earlier, path), Lookup(listed.fileMaps, path));
            var next := ItemOf(AfterTurn(s, plan, file, doc, options, since), path);
            if file.None? && doc.None? then next == now
            else PairIsRight(file, doc, options, plan.reply, listed.writesConflicts, now, next, OutcomeOfPair(now, file, doc, options, plan.reply, listed.writesConflicts))
  {
    hide PairIsRight, OutcomeOfPair, Processed, FileAfter, EntryAfter;
    var t := ChangedBy(s, plan.before);
    ChangesAreLocal(s, plan.before, plan.path);
    ChangesKeepInv(s, plan.before);
    LeftToOthersInTurn(listed, s, t, since, plan.before, plan.path);
    var file, doc := Lookup(listed.storage, plan.path), Lookup(listed.database, plan.path);
    if file.Some? || doc.Some? {
      ProcessedIsRight(t, plan.path, file, doc, options, since + plan.before, plan.reply);
    }
  }

  lemma {:induction false} TurnsKeepSetting(listed: State, options: FullScanOptions, pairs: seq<PairPlan>)
    ensures AfterTurns(listed, options, pairs).writesConflicts == listed.writesConflicts
  {
    if pairs != [] {
      hide Decide, ItemAfter, OutcomeOf, ChangedBy, IsDeletedThen;
      var n := |pairs| - 1;
      TurnsKeepSetting(listed, options, pairs[..n]);
      ChangesKeepInv(AfterTurns(listed, options, pairs[..n]), pairs[n].before);
    }
  }

  lemma ScanComesRight(s: State, options: FullScanOptions, pairs: seq<PairPlan>, interrupted: bool, k: nat)
    requires IsListing(pairs) && k < |pairs|
    ensures FileComesRight(s, Scanned(s, options, pairs, interrupted), options, pairs, interrupted, k)
  {
    hide PairIsRight, OutcomeOfPair, AfterTurn, FileAfter, EntryAfter;
    var listed, plan, path := s.(fileMaps := s.persisted), pairs[k], pairs[k].path;
    var front := pairs[..k + 1];
    assert front[..k] == pairs[..k] && Meanwhiles(front) == Meanwhiles(pairs[..k]) + plan.before;
    TurnsAreLocal(listed, options, pairs[..k], path);
    TurnsKeepSetting(listed, options, pairs[..k]);
    TurnComesRight(listed, AfterTurns(listed, options, pairs[..k]), plan, options, Meanwhiles(pairs[..k]));
    LaterTurnsAreLocal(listed, options, pairs, k + 1, path);
    ItemBehindTurn(listed, options, pairs, k);
    var file, doc, next := Lookup(s.storage, path), Lookup(s.database, path), ItemOf(AfterTurns(listed, options, front), path);
    var now := Item(FileAfter(file, Meanwhiles(front), path), EntryAfter(doc, Meanwhiles(front), path), Lookup(s.persisted, path));
    var outcome := if file.None? && doc.None? then Skipped else OutcomeOfPair(now, file, doc, options, plan.reply, s.writesConflicts);
    assert FileComesTo(s, Scanned(s, options, pairs, interrupted), options, pairs, interrupted, k, next, outcome);
  }

  lemma ItemBehindTurn(listed: State, options: FullScanOptions, pairs: seq<PairPlan>, k: nat)
    requires k < |pairs|
    ensures var path := pairs[k].path;
            AfterTurns(listed, options, pairs[..k + 1]) ==
              AfterTurn(AfterTurns(listed, options, pairs[..k]), pairs[k], Lookup(listed.storage, path), Lookup(listed.database, path), options, Meanwhiles(pairs[..k]))
  {
    assert pairs[..k + 1][..k] == pairs[..k];
  }

  lemma TurnKeepsInv(listed: State, s: State, plan: PairPlan, options: FullScanOptions, since: seq<Change>)
    requires Inv(listed) && Inv(s) && listed.everStored <= s.everStored && LeftToOthers(listed, s, since, plan.path)
    ensures var t := AfterTurn(s, plan, Lookup(listed.storage, plan.path), Lookup(listed.database, plan.path), options, since);
            Inv(t) && s.everStored <= t.everStored
  {
    hide ItemAfter, OutcomeOf, Decide, ChangedBy, IsDecided;
    var file, doc := Lookup(listed.storage, plan.path), Lookup(listed.database, plan.path);
    var t := ChangedBy(s, plan.before);
    ChangesKeepInv(s, plan.before);
    ChangesAreLocal(s, plan.before, plan.path);
    LeftToOthersInTurn(listed, s, t, since, plan.before, plan.path);
    if file.Some? || doc.Some? {
      ProcessedKeepsInv(t, plan.path, file, doc, options, since + plan.before, plan.reply);
    }
  }

  lemma {:induction false} TurnsKeepInv(listed: State, options: FullScanOptions, pairs: seq<PairPlan>)
    requires Inv(listed) && IsListing(pairs)
    ensures Inv(AfterTurns(listed, options, pairs)) && listed.everStored <= AfterTurns(listed, options, pairs).everStored
  {
    if pairs != [] {
      hide Inv, Processed, ChangedBy, FileAfter, EntryAfter;
      var n := |pairs| - 1;
      var s, plan := AfterTurns(listed, options, pairs[..n]), pairs[n];
      TurnsKeepInv(listed, options, pairs[..n]);
      TurnsAreLocal(listed, options, pairs[..n], plan.path);
      TurnKeepsInv(listed, s, plan, options, Meanwhiles(pairs[..n]));
    }
  }

  predicate AreScans(events: seq<Event>) {
    forall e | e in events && e.Scan? :: e.options.mode.NewerWins? && IsListing(e.pairs)
  }

  /**
   * Over any run, failed deletions and ended applications included: only files that were in storage, or are noted as
   * unwritten, are recorded, and every database deletion was decided for a file that was absent then, on an unconflicted entry
   * not newer than its record.
   */
  lemma {:induction false} EventsKeepInv(s: State, events: seq<Event>)
    requires Inv(s) && forall e | e in events && e.Scan? :: IsListing(e.pairs)
    ensures Inv(AfterEvents(s, events))
  {
    hide IsDecided, AfterTurns, IsListing;
    if events != [] {
      var n := |events| - 1;
      var t, event := AfterEvents(s, events[..n]), events[n];
      EventsKeepInv(s, events[..n]);
      match event {
        case Meanwhile(change) => ChangeKeepsInv(t, change);
        case Scan(options, pairs, interrupted) => TurnsKeepInv(t.(fileMaps := t.persisted), options, pairs);
      }
    }
  }

  // ----- a deleted file stays deleted -----

  /**
   * The file is locally deleted: it is absent, and either its record is still there, in memory and saved,
   * and the entry is not newer, or the entry is gone, too.
   */
  predicate StaysDeleted(s: State, path: Path, seen: int) {
    && Lookup(s.storage, path).None?
    && ((HasRecord(s.fileMaps, path, seen) && HasRecord(s.persisted, path, seen) && EntryIsNotNewer(s.database, path, seen))
        || IsGone(Lookup(s.database, path)))
  }

  /** The change neither brings the file back nor makes its entry newer, nor revives an entry that is gone without a record. */
  predicate Undisturbing(s: State, change: Change, path: Path, seen: int) {
    match change
    case FileWritten(p, _) => p != path
    case EntryStored(p, entry) =>
      p == path ==> entry.deleted || (HasRecord(s.fileMaps, path, seen) && HasRecord(s.persisted, path, seen) && NotOlder(seen, entry.mtime))
    case _ => true
  }

  predicate UndisturbingAll(s: State, changes: seq<Change>, path: Path, seen: int) {
    changes == [] ||
    (var n := |changes| - 1;
     UndisturbingAll(s, changes[..n], path, seen) && Undisturbing(ChangedBy(s, changes[..n]), changes[n], path, seen))
  }

  lemma ChangeDisturbsIff(s: State, change: Change, path: Path, seen: int)
    requires StaysDeleted(s, path, seen)
    ensures StaysDeleted(Changed(s, change), path, seen) <==> Undisturbing(s, change, path, seen)
  {
    hide NotOlder;
  }

  lemma {:induction false} ChangesDoNotDisturb(s: State, changes: seq<Change>, path: Path, seen: int)
    requires StaysDeleted(s, path, seen) && UndisturbingAll(s, changes, path, seen)
    ensures StaysDeleted(ChangedBy(s, changes), path, seen)
  {
    hide Changed, StaysDeleted, Undisturbing;
    if changes != [] {
      var n := |changes| - 1;
      ChangesDoNotDisturb(s, changes[..n], path, seen);
      ChangeDisturbsIff(ChangedBy(s, changes[..n]), changes[n], path, seen);
    }
  }

  /**
   * A listed pair that shows an offline deletion: afterwards the file is still absent, and it is recorded as before or
   * its entry is gone, exactly if the deletion holds. So its condition is what `ConflictRestoresFile` fails.
   */
  lemma DeletionHoldsIff(s: State, path: Path, doc: Option<Entry>, options: FullScanOptions, since: seq<Change>, reply: Reply)
    requires options.mode.NewerWins? && IsLive(doc) && IsOfflineDeletion(None, doc, Lookup(s.fileMaps, path)) && path !in s.storage
    ensures var t := Processed(s, path, None, doc, options, since, reply);
            Lookup(t.storage, path).None? && (Lookup(t.fileMaps, path) == Lookup(s.fileMaps, path) || IsGone(Lookup(t.database, path)))
            <==> DeletionHolds(ItemOf(s, path), reply)
  {
    hide NotOlder;
  }

  /** What was listed of a deleted file, its entry or its record, asks for its deletion or for nothing. */
  predicate ListedDeleted(s: State, doc: Option<Entry>, path: Path, seen: int) {
    IsGone(doc) || (HasRecord(s.fileMaps, path, seen) && NotOlder(seen, doc.value.mtime))
  }

  lemma PairDisturbsIff(s: State, path: Path, seen: int, doc: Option<Entry>, options: FullScanOptions, since: seq<Change>, reply: Reply)
    requires doc.Some? && options.mode.NewerWins? && StaysDeleted(s, path, seen) && ListedDeleted(s, doc, path, seen)
    ensures StaysDeleted(Processed(s, path, None, doc, options, since, reply), path, seen)
            <==> (IsLive(doc) ==> DeletionHolds(ItemOf(s, path), reply))
  {
    hide NotOlder;
  }

  /** Neither what others do before the turn of a pair disturbs the file, nor, if it is the pair of the file, its deletion fails to hold. */
  predicate TurnUndisturbed(s: State, plan: PairPlan, doc: Option<Entry>, path: Path, seen: int) {
    && UndisturbingAll(s, plan.before, path, seen)
    && (plan.path == path && IsLive(doc) ==> DeletionHolds(ItemOf(ChangedBy(s, plan.before), path), plan.reply))
  }

  predicate TurnsUndisturbed(listed: State, options: FullScanOptions, pairs: seq<PairPlan>, path: Path, seen: int) {
    pairs == [] ||
    (var n := |pairs| - 1;
     && TurnsUndisturbed(listed, options, pairs[..n], path, seen)
     && TurnUndisturbed(AfterTurns(listed, options, pairs[..n]), pairs[n], Lookup(listed.database, pairs[n].path), path, seen))
  }

  predicate Undisturbed(s: State, events: seq<Event>, path: Path, seen: int) {
    events == [] ||
    (var n := |events| - 1;
     var t := AfterEvents(s, events[..n]);
     && Undisturbed(s, events[..n], path, seen)
     && match events[n]
        case Meanwhile(change) => Undisturbing(t, change, path, seen)
        case Scan(options, pairs, _) => TurnsUndisturbed(t.(fileMaps := t.persisted), options, pairs, path, seen))
  }

  lemma TurnDoesNotDisturb(s: State, plan: PairPlan, file: Option<Stat>, doc: Option<Entry>, options: FullScanOptions, since: seq<Change>, path: Path, seen: int)
    requires options.mode.NewerWins? && StaysDeleted(s, path, seen) && TurnUndisturbed(s, plan, doc, path, seen)
    requires plan.path == path ==> file.None? && ListedDeleted(s, doc, path, seen)
    ensures StaysDeleted(AfterTurn(s, plan, file, doc, options, since), path, seen)
  {
    hide NotOlder, Processed, ChangedBy, DeletionHolds, UndisturbingAll;
    var t := ChangedBy(s, plan.before);
    ChangesKeepInv(s, plan.before);
    ChangesDoNotDisturb(s, plan.before, path, seen);
    if plan.path != path && (file.Some? || doc.Some?) {
      ProcessedIsLocal(t, plan.path, file, doc, options, since + plan.before, plan.reply, path);
    } else if doc.Some? {
      PairDisturbsIff(t, path, seen, doc, options, since + plan.before, plan.reply);
    }
  }

  /** What was listed of a deleted file stays good for its decision, whatever happens before its turn. */
  lemma {:induction false} TurnsDoNotDisturb(listed: State, options: FullScanOptions, pairs: seq<PairPlan>, path: Path, seen: int)
    requires options.mode.NewerWins? && IsListing(pairs) && StaysDeleted(listed, path, seen) && TurnsUndisturbed(listed, options, pairs, path, seen)
    ensures StaysDeleted(AfterTurns(listed, options, pairs), path, seen)
  {
    if pairs != [] {
      hide NotOlder, AfterTurn, TurnUndisturbed, FileAfter, EntryAfter;
      var n := |pairs| - 1;
      var s, plan := AfterTurns(listed, options, pairs[..n]), pairs[n];
      TurnsDoNotDisturb(listed, options, pairs[..n], path, seen);
      if plan.path == path {
        TurnsAreLocal(listed, options, pairs[..n], path);
      }
      TurnDoesNotDisturb(s, plan, Lookup(listed.storage, plan.path), Lookup(listed.database, plan.path), options, Meanwhiles(pairs[..n]), path, seen);
    }
  }

  /**
   * Over any run of scans in which the newer side wins, failed deletions and ended applications included, a locally
   * deleted file is not written back, until somebody else writes it or makes its entry newer, or its deletion is
   * answered without holding.
   */
  lemma {:induction false} DeletedFileStaysDeleted(s: State, events: seq<Event>, path: Path, seen: int)
    requires AreScans(events) && StaysDeleted(s, path, seen) && Undisturbed(s, events, path, seen)
    ensures StaysDeleted(AfterEvents(s, events), path, seen)
  {
    if events != [] {
      hide NotOlder, AfterTurns, TurnsUndisturbed, Changed, Undisturbing, IsListing;
      var n := |events| - 1;
      var t, event := AfterEvents(s, events[..n]), events[n];
      DeletedFileStaysDeleted(s, events[..n], path, seen);
      match event {
        case Meanwhile(change) => ChangeDisturbsIff(t, change, path, seen);
        case Scan(options, pairs, interrupted) => TurnsDoNotDisturb(t.(fileMaps := t.persisted), options, pairs, path, seen);
      }
    }
  }

  // ----- while nobody touches it -----

  predicate QuietChange(change: Change, path: Path) {
    (change.FileWritten? ==> change.path != path) && (change.EntryStored? && change.path == path ==> change.entry.deleted && !change.entry.conflicted)
  }

  predicate QuietPlan(plan: PairPlan, path: Path) {
    (forall change | change in plan.before :: QuietChange(change, path)) && (plan.path == path ==> !plan.reply.pending)
  }

  /** Nobody writes the file or a live or conflicted entry of it, and no publication of it is pending. */
  predicate QuietEvent(event: Event, path: Path) {
    match event
    case Meanwhile(change) => QuietChange(change, path)
    case Scan(_, pairs, _) => forall plan | plan in pairs :: QuietPlan(plan, path)
  }

  predicate IsUnconflicted(s: State, path: Path) {
    path in s.database ==> !s.database[path].conflicted
  }

  lemma QuietChangeDoesNotDisturb(s: State, change: Change, path: Path, seen: int)
    requires IsUnconflicted(s, path) && QuietChange(change, path)
    ensures Undisturbing(s, change, path, seen) && IsUnconflicted(Changed(s, change), path)
  {
  }

  lemma {:induction false} QuietChanges(s: State, changes: seq<Change>, path: Path, seen: int)
    requires IsUnconflicted(s, path) && forall change | change in changes :: QuietChange(change, path)
    ensures UndisturbingAll(s, changes, path, seen) && IsUnconflicted(ChangedBy(s, changes), path)
  {
    hide Undisturbing, IsUnconflicted, Changed, QuietChange;
    if changes != [] {
      var n := |changes| - 1;
      QuietChanges(s, changes[..n], path, seen);
      QuietChangeDoesNotDisturb(ChangedBy(s, changes[..n]), changes[n], path, seen);
    }
  }

  lemma QuietTurn(s: State, plan: PairPlan, file: Option<Stat>, doc: Option<Entry>, options: FullScanOptions, since: seq<Change>, path: Path, seen: int)
    requires options.mode.NewerWins? && QuietPlan(plan, path) && IsUnconflicted(s, path) && (plan.path == path ==> file.None?)
    ensures TurnUndisturbed(s, plan, doc, path, seen) && IsUnconflicted(AfterTurn(s, plan, file, doc, options, since), path)
  {
    hide NotOlder, ChangedBy, UndisturbingAll, CompareMTime;
    QuietChanges(s, plan.before, path, seen);
    if plan.path != path && (file.Some? || doc.Some?) {
      ProcessedIsLocal(ChangedBy(s, plan.before), plan.path, file, doc, options, since + plan.before, plan.reply, path);
    }
  }

  lemma {:induction false} QuietTurns(listed: State, options: FullScanOptions, pairs: seq<PairPlan>, path: Path, seen: int)
    requires options.mode.NewerWins? && IsUnconflicted(listed, path) && path !in listed.storage && forall plan | plan in pairs :: QuietPlan(plan, path)
    ensures TurnsUndisturbed(listed, options, pairs, path, seen) && IsUnconflicted(AfterTurns(listed, options, pairs), path)
  {
    if pairs != [] {
      hide QuietPlan, AfterTurn, TurnUndisturbed, IsUnconflicted;
      var n := |pairs| - 1;
      var plan := pairs[n];
      QuietTurns(listed, options, pairs[..n], path, seen);
      QuietTurn(AfterTurns(listed, options, pairs[..n]), plan, Lookup(listed.storage, plan.path), Lookup(listed.database, plan.path), options, Meanwhiles(pairs[..n]), path, seen);
    }
  }

  /** While others leave it alone, a locally deleted file stays deleted over any run. */
  lemma {:induction false} UntouchedFileStaysDeleted(s: State, events: seq<Event>, path: Path, seen: int)
    requires AreScans(events) && StaysDeleted(s, path, seen) && IsUnconflicted(s, path) && forall event | event in events :: QuietEvent(event, path)
    ensures Undisturbed(s, events, path, seen) && StaysDeleted(AfterEvents(s, events), path, seen) && IsUnconflicted(AfterEvents(s, events), path)
  {
    if events != [] {
      hide NotOlder, AfterTurns, TurnsUndisturbed, IsListing, QuietPlan, QuietChange, Undisturbing, Changed;
      var n := |events| - 1;
      var t, event := AfterEvents(s, events[..n]), events[n];
      UntouchedFileStaysDeleted(s, events[..n], path, seen);
      assert QuietEvent(event, path);
      match event {
        case Meanwhile(change) => QuietChangeDoesNotDisturb(t, change, path, seen);
        case Scan(options, pairs, interrupted) => QuietTurns(t.(fileMaps := t.persisted), options, pairs, path, seen);
      }
      DeletedFileStaysDeleted(s, events, path, seen);
    }
  }

  // ----- which records are of files that were not written -----

  /** A pair that was listed for writing can be written at its turn. */
  predicate TurnWrites(s: State, plan: PairPlan, doc: Option<Entry>) {
    var t := ChangedBy(s, plan.before);
    IsLive(doc) && plan.path in t.database ==> Writable(t.database[plan.path], s.writesConflicts)
  }

  predicate TurnsWrite(listed: State, options: FullScanOptions, pairs: seq<PairPlan>) {
    pairs == [] ||
    (var n := |pairs| - 1;
     TurnsWrite(listed, options, pairs[..n]) && TurnWrites(AfterTurns(listed, options, pairs[..n]), pairs[n], Lookup(listed.database, pairs[n].path)))
  }

  predicate EventsWrite(s: State, events: seq<Event>) {
    events == [] ||
    (var n := |events| - 1;
     var t := AfterEvents(s, events[..n]);
     && EventsWrite(s, events[..n])
     && (events[n].Scan? ==> TurnsWrite(t.(fileMaps := t.persisted), events[n].options, events[n].pairs)))
  }

  /** A pair is recorded as written although nothing is in storage, exactly if it was listed for writing and could not be written. */
  lemma TurnWritesIff(s: State, path: Path, file: Option<Stat>, doc: Option<Entry>, options: FullScanOptions, since: seq<Change>, reply: Reply)
    requires file.Some? || doc.Some?
    ensures var t := Processed(s, path, file, doc, options, since, reply);
            var item := ItemOf(s, path);
            path in t.unwritten <==>
              || path in s.unwritten
              || (doc.Some? && !doc.value.conflicted && Decide(file, doc, if file.Some? then Some(file.value.mtime) else item.record, options).UpdateStorage?
                  && !reply.docTooLarge && IsReflected(item, reply)
                  && if item.entry.value.conflicted && !s.writesConflicts then item.file.None? else item.entry.value.deleted)
  {
    hide NotOlder, DeletionIsAnswered, SyncOutcome, Synchronized, AfterDeletion, IsDeletedThen, WithItem;
  }

  lemma TurnLeavesUnwritten(s: State, plan: PairPlan, file: Option<Stat>, doc: Option<Entry>, options: FullScanOptions, since: seq<Change>)
    requires TurnWrites(s, plan, doc)
    ensures AfterTurn(s, plan, file, doc, options, since).unwritten == s.unwritten
  {
    hide NotOlder, ChangedBy, SyncOutcome, Synchronized, AfterDeletion, DeletionIsAnswered, Put;
    ChangesKeepInv(s, plan.before);
  }

  lemma {:induction false} TurnsLeaveUnwritten(listed: State, options: FullScanOptions, pairs: seq<PairPlan>)
    requires TurnsWrite(listed, options, pairs)
    ensures AfterTurns(listed, options, pairs).unwritten == listed.unwritten
  {
    if pairs != [] {
      hide AfterTurn, TurnWrites;
      var n := |pairs| - 1;
      TurnsLeaveUnwritten(listed, options, pairs[..n]);
      TurnLeavesUnwritten(AfterTurns(listed, options, pairs[..n]), pairs[n], Lookup(listed.storage, pairs[n].path), Lookup(listed.database, pairs[n].path),
                          options, Meanwhiles(pairs[..n]));
    }
  }

  /** While every entry that was listed for writing can be written at its turn, only files that were in storage are recorded. */
  lemma {:induction false} EventsLeaveUnwritten(s: State, events: seq<Event>)
    requires EventsWrite(s, events)
    ensures AfterEvents(s, events).unwritten == s.unwritten
  {
    if events != [] {
      hide AfterTurns, TurnsWrite;
      var n := |events| - 1;
      var t, event := AfterEvents(s, events[..n]), events[n];
      EventsLeaveUnwritten(s, events[..n]);
      match event {
        case Meanwhile(change) => ChangeKeepsInv(t, change);
        case Scan(options, pairs, interrupted) => TurnsLeaveUnwritten(t.(fileMaps := t.persisted), options, pairs);
      }
    }
  }

  // ----- listings that others have made stale -----

  const NEWER_WINS := FullScanOptions(NewerWins, Nothing, false)

  /** The handler deletes what it is asked to delete, or the revision that storage showed. */
  const DELETES := Reply(true, false, false, Even, false, false, None, false, Entry(0, 0, false, false))

  /** A file was seen at 20 seconds, and is gone. */
  function OfflineDeletion(path: Path): State {
    State(map[], map[path := Entry(10_000, 5, false, false)], map[path := 20_000], map[path := 20_000], false, {path}, {}, [])
  }

  /** A scan in which one thing happens between the listing of a file and its turn. */
  function ScanMeanwhile(path: Path, before: seq<Change>): Event {
    Scan(NEWER_WINS, [PairPlan(before, path, DELETES)], false)
  }

  /** What such a scan makes of an absent file with a live entry. */
  lemma ScanOfAbsentFile(s: State, path: Path, before: seq<Change>)
    requires path !in s.storage && IsLive(Lookup(s.database, path)) && s.fileMaps == s.persisted
    ensures var t, t' := ChangedBy(s, before), AfterEvent(s, ScanMeanwhile(path, before));
            var doc, item := Lookup(s.database, path), ItemOf(t, path);
            var action := Decide(None, doc, item.record, NEWER_WINS);
            var next := ItemAfter(action, None, doc, item, DELETES, s.writesConflicts);
            && ItemOf(t', path) == next && t'.fileMaps == t'.persisted && t'.writesConflicts == s.writesConflicts
            && t'.everStored == t.everStored + (if next.file.Some? then {path} else {})
            && s.unwritten <= t'.unwritten && (action.UpdateStorage? && IsReflected(item, DELETES) && next.file.None? ==> path in t'.unwritten)
            && t'.deletions == s.deletions + (if action.DeleteDb? && IsDeletedThen(item, DELETES)
                                              then [Deletion(path, None, doc, item.record, before, item.file, item.entry)] else [])
  {
    hide Decide, ItemAfter, IsDeletedThen, IsReflected, DeletionIsAnswered, Changed;
    var plan, doc := PairPlan(before, path, DELETES), Lookup(s.database, path);
    assert [plan][..0] == [] && [] + before == before;
    assert s.(fileMaps := s.persisted) == s;
    ChangesKeepInv(s, before);
    assert AfterTurns(s, NEWER_WINS, [plan]) == Processed(ChangedBy(s, before), path, None, doc, NEWER_WINS, before, DELETES);
  }

  lemma OneChange(s: State, change: Change)
    ensures ChangedBy(s, []) == s && ChangedBy(s, [change]) == Changed(s, change)
  {
    assert [change][..0] == [];
  }

  lemma InTurn(s: State, a: Event, b: Event, c: Event)
    ensures AfterEvents(s, [a]) == AfterEvent(s, a)
    ensures AfterEvents(s, [a, b, c]) == AfterEvent(AfterEvent(AfterEvent(s, a), b), c)
  {
    hide AfterEvent;
    assert [a][..0] == [] && [a, b][..1] == [a] && [a, b, c][..2] == [a, b];
  }

  /** After the listing the file comes back, or a newer entry arrives: the entry is deleted all the same. */
  lemma StaleListingDeletes(path: Path, change: Change)
    requires change == FileWritten(path, Stat(99_000, 7)) || change == EntryStored(path, Entry(99_000, 7, false, false))
    ensures var t := AfterEvents(OfflineDeletion(path), [ScanMeanwhile(path, [change])]);
            IsGone(Lookup(t.database, path)) && |t.deletions| == 1 && !IsJustified(t.deletions[0])
  {
    hide AfterEvent;
    var s, scan := OfflineDeletion(path), ScanMeanwhile(path, [change]);
    InTurn(s, scan, scan, scan);
    OneChange(s, change);
    ScanOfAbsentFile(s, path, [change]);
    assert Decide(None, Lookup(s.database, path), Some(20_000), NEWER_WINS).DeleteDb?;
  }

  /**
   * After the listing a conflict arrives: the handler answers that it succeeded, and the record goes without a
   * deletion. Once the conflict is resolved, the next scan writes the deleted file back.
   */
  lemma ConflictRestoresFile(path: Path)
    ensures var entry := Entry(10_000, 5, false, false);
            var t := AfterEvents(OfflineDeletion(path), [ScanMeanwhile(path, [EntryStored(path, entry.(conflicted := true))]),
                                                         Meanwhile(EntryStored(path, entry)), ScanMeanwhile(path, [])]);
            Lookup(t.storage, path) == Some(Stat(10_000, 5)) && t.deletions == []
  {
    hide Scanned;
    var s, entry := OfflineDeletion(path), Entry(10_000, 5, false, false);
    var conflict, resolved := EntryStored(path, entry.(conflicted := true)), EntryStored(path, entry);
    InTurn(s, ScanMeanwhile(path, [conflict]), Meanwhile(resolved), ScanMeanwhile(path, []));
    OneChange(s, conflict);
    ScanOfAbsentFile(s, path, [conflict]);
    assert Decide(None, Some(entry), Some(20_000), NEWER_WINS).DeleteDb?;
    var t := AfterEvent(s, ScanMeanwhile(path, [conflict]));
    assert ItemOf(t, path) == Item(None, Some(conflict.entry), None);
    OneChange(Changed(t, resolved), conflict);
    ScanOfAbsentFile(Changed(t, resolved), path, []);
  }

  /**
   * Before an entry is written a conflict arrives: the handler answers that it succeeded, and a file that was never
   * there is recorded as seen. Once the conflict is resolved, the next scan takes it for deleted and deletes its entry.
   */
  lemma UnwrittenFileIsDeleted(path: Path)
    ensures var entry := Entry(10_000, 5, false, false);
            var t := AfterEvents(State(map[], map[path := entry], map[], map[], false, {}, {}, []),
                                 [ScanMeanwhile(path, [EntryStored(path, entry.(conflicted := true))]),
                                  Meanwhile(EntryStored(path, entry)), ScanMeanwhile(path, [])]);
            IsGone(Lookup(t.database, path)) && |t.deletions| == 1 && path !in t.everStored && path in t.unwritten
  {
    hide Scanned;
    var entry := Entry(10_000, 5, false, false);
    var s := State(map[], map[path := entry], map[], map[], false, {}, {}, []);
    var conflict, resolved := EntryStored(path, entry.(conflicted := true)), EntryStored(path, entry);
    InTurn(s, ScanMeanwhile(path, [conflict]), Meanwhile(resolved), ScanMeanwhile(path, []));
    OneChange(s, conflict);
    ScanOfAbsentFile(s, path, [conflict]);
    var t := AfterEvent(s, ScanMeanwhile(path, [conflict]));
    assert ItemOf(t, path) == Item(None, Some(conflict.entry), Some(10_000));
    assert Decide(None, Some(entry), Some(10_000), NEWER_WINS).DeleteDb?;
    OneChange(Changed(t, resolved), conflict);
    ScanOfAbsentFile(Changed(t, resolved), path, []);
  }

  // ----- the scan as it runs -----

  class Vault {
    var storage: map<Path, Stat>
    var database: map<Path, Entry>
    var fileMaps: map<Path, int>
    var persisted: map<Path, int>
    const writeDocumentsIfConflicted: bool

    ghost var everStored: set<Path>
    ghost var unwritten: set<Path>
    ghost var deletions: seq<Deletion>

    ghost function View(): State
      reads this
    {
      State(storage, database, fileMaps, persisted, writeDocumentsIfConflicted, everStored, unwritten, deletions)
    }

    ghost function Of(path: Path): Item
      reads this
    {
      ItemOf(View(), path)
    }

    constructor (storage: map<Path, Stat>, database: map<Path, Entry>, writeDocumentsIfConflicted: bool)
      ensures View() == State(storage, database, map[], map[], writeDocumentsIfConflicted, storage.Keys, {}, []) && Inv(View())
    {
      this.storage, this.database, fileMaps, persisted := storage, database, map[], map[];
      this.writeDocumentsIfConflicted := writeDocumentsIfConflicted;
      everStored, unwritten, deletions := storage.Keys, {}, [];
    }

    method Change(change: Change)
      modifies this
      ensures View() == Changed(old(View()), change)
    {
      match change {
        case FileWritten(path, stat) => storage, everStored := storage[path := stat], everStored + {path};
        case FileRemoved(path) => storage := storage - {path};
        case EntryStored(path, entry) => database := database[path := entry];
        case EntryPurged(path) => database := database - {path};
        case StatusSaved => persisted := fileMaps;
      }
    }

    method Changes(changes: seq<Change>)
      modifies this
      ensures View() == ChangedBy(old(View()), changes)
    {
      for i := 0 to |changes|
        invariant View() == ChangedBy(old(View()), changes[..i])
      {
        Change(changes[i]);
        assert changes[..i + 1][..i] == changes[..i];
      }
      assert changes[..|changes|] == changes;
    }

    method DbToStorage(path: Path, forced: bool, reply: Reply) returns (reflected: bool)
      modifies this`storage
      ensures reflected == IsReflected(old(Of(path)), reply)
      ensures View() == WithItem(old(View()), path, old(Of(path)).(file := Reflected(old(Of(path)), forced, reply, writeDocumentsIfConflicted)))
    {
      if !reply.succeeds || path !in database {
        return false;
      }
      var entry := database[path];
      if entry.conflicted && !writeDocumentsIfConflicted {
        return true;
      }
      if path in storage && !forced && reply.keeps {
        return true;
      }
      storage := if entry.deleted then storage - {path} else storage[path := Stat(entry.mtime, entry.size)];
      reflected := true;
    }

    method SyncFile(path: Path, file: Stat, doc: Entry, reply: Reply) returns (outcome: Outcome)
      modifies this`storage, this`database
      ensures outcome == SyncOutcome(file, doc, old(Of(path)), reply, writeDocumentsIfConflicted)
      ensures View() == WithItem(old(View()), path, if outcome.Completed? then Synchronized(file, doc, old(Of(path)), reply, writeDocumentsIfConflicted) else old(Of(path)))
    {
      if doc.conflicted || reply.fileTooLarge || reply.docTooLarge {
        return Skipped;
      }
      match NewerSide(file, doc, reply.freshness, writeDocumentsIfConflicted) {
        case Even => return Completed;
        case BaseIsNew =>
          if !reply.succeeds { return Failed; }
          database := database[path := Entry(file.mtime, file.size, false, false)];
        case TargetIsNew =>
          var reflected := DbToStorage(path, false, reply);
          if !reflected { return Failed; }
      }
      outcome := Completed;
    }

    method DeleteFileFromDB(path: Path, reply: Reply) returns (deleted: bool)
      modifies this`storage, this`database
      ensures deleted == DeletionIsAnswered(old(Of(path)), reply)
      ensures View() == WithItem(old(View()), path, AfterDeletion(old(Of(path)), reply))
    {
      if !reply.succeeds {
        return false;
      }
      if reply.pending && path !in storage {
        if path !in database {
          return false;
        }
        if reply.recovered.Some? {
          storage := storage[path := reply.recovered.value];
        }
        return true;
      }
      if path !in database || database[path].deleted {
        return false;
      }
      if database[path].conflicted && !reply.knownRevision {
        return true;
      }
      database := database[path := if database[path].conflicted then reply.remaining else database[path].(deleted := true)];
      deleted := true;
    }

    method UpdateFileMTimeInMap(path: Path, mtime: int)
      modifies this`fileMaps
      ensures fileMaps == old(fileMaps)[path := mtime]
    {
      fileMaps := fileMaps[path := mtime];
    }

    /** What an action has done to the pair. */
    twostate predicate Done(action: Action, path: Path, file: Option<Stat>, doc: Option<Entry>, reply: Reply, outcome: Outcome)
      requires IsApplicable(action, file, doc)
      reads this
    {
      && outcome == OutcomeOf(action, file, doc, old(Of(path)), reply, writeDocumentsIfConflicted)
      && View() == WithItem(old(View()), path, ItemAfter(action, file, doc, old(Of(path)), reply, writeDocumentsIfConflicted))
    }

    method UpdateToDatabase(path: Path, file: Option<Stat>, doc: Option<Entry>, reply: Reply) returns (outcome: Outcome)
      requires file.Some?
      modifies this`database
      ensures Done(UpdateDb, path, file, doc, reply, outcome)
    {
      if reply.fileTooLarge { return Skipped; }
      if !reply.succeeds { return Failed; }
      database := database[path := Entry(file.value.mtime, file.value.size, false, false)];
      outcome := Completed;
    }

    method UpdateToStorage(path: Path, file: Option<Stat>, doc: Option<Entry>, reply: Reply) returns (outcome: Outcome)
      requires doc.Some?
      modifies this`storage, this`fileMaps
      ensures Done(UpdateStorage, path, file, doc, reply, outcome)
    {
      if reply.docTooLarge { return Skipped; }
      var reflected := DbToStorage(path, true, reply);
      if !reflected { return Failed; }
      UpdateFileMTimeInMap(path, doc.value.mtime);
      outcome := Completed;
    }

    method SyncStorageAndDatabase(path: Path, file: Option<Stat>, doc: Option<Entry>, reply: Reply) returns (outcome: Outcome)
      requires file.Some? && doc.Some?
      modifies this`storage, this`database, this`fileMaps
      ensures Done(SyncNewer, path, file, doc, reply, outcome)
    {
      outcome := SyncFile(path, file.value, doc.value, reply);
      if outcome.Completed? {
        UpdateFileMTimeInMap(path, if file.value.mtime > doc.value.mtime then file.value.mtime else doc.value.mtime);
      }
    }

    method DeleteFromStorage(path: Path, file: Option<Stat>, doc: Option<Entry>, reply: Reply) returns (outcome: Outcome)
      modifies this`storage, this`fileMaps
      ensures Done(DeleteLocal, path, file, doc, reply, outcome)
    {
      if !reply.succeeds { return Failed; }
      storage, fileMaps := storage - {path}, fileMaps - {path};
      outcome := Completed;
    }

    /** The record of the file goes when the handler says that it has deleted the entry. */
    method DeleteFromDatabase(path: Path, file: Option<Stat>, doc: Option<Entry>, reply: Reply) returns (outcome: Outcome)
      modifies this`storage, this`database, this`fileMaps
      ensures Done(DeleteDb, path, file, doc, reply, outcome)
    {
      var deleted := DeleteFileFromDB(path, reply);
      if !deleted { return Failed; }
      fileMaps := fileMaps - {path};
      outcome := Completed;
    }

    method Perform(action: Action, path: Path, file: Option<Stat>, doc: Option<Entry>, reply: Reply) returns (outcome: Outcome)
      requires IsApplicable(action, file, doc)
      modifies this`storage, this`database, this`fileMaps
      ensures Done(action, path, file, doc, reply, outcome)
    {
      hide SyncOutcome, Synchronized, Reflected, IsReflected, DeletionIsAnswered, AfterDeletion;
      match action {
        case UpdateDb => outcome := UpdateToDatabase(path, file, doc, reply);
        case UpdateStorage => outcome := UpdateToStorage(path, file, doc, reply);
        case SyncNewer => outcome := SyncStorageAndDatabase(path, file, doc, reply);
        case DeleteLocal => outcome := DeleteFromStorage(path, file, doc, reply);
        case DeleteDb => outcome := DeleteFromDatabase(path, file, doc, reply);
        case Skip => outcome := Skipped;
      }
    }

    /** What is decided for a pair is done, and remembered. */
    method PerformAction(action: Action, path: Path, file: Option<Stat>, doc: Option<Entry>, ghost since: seq<Change>, reply: Reply) returns (outcome: Outcome)
      requires IsApplicable(action, file, doc)
      modifies this
      ensures View() == Performed(old(View()), action, path, file, doc, since, reply)
      ensures outcome == OutcomeOf(action, file, doc, old(Of(path)), reply, writeDocumentsIfConflicted)
    {
      hide ItemAfter, OutcomeOf, IsDeletedThen;
      ghost var item := Of(path);
      outcome := Perform(action, path, file, doc, reply);
      everStored := everStored + if path in storage then {path} else {};
      unwritten := unwritten + if action.UpdateStorage? && outcome.Completed? && path !in storage then {path} else {};
      if action.DeleteDb? && IsDeletedThen(item, reply) {
        deletions := deletions + [Deletion(path, file, doc, item.record, since, item.file, item.entry)];
      }
    }

    /** `since` is what others have done between the listing and the turn of the pair. */
    method ProcessFilePair(path: Path, file: Option<Stat>, doc: Option<Entry>, options: FullScanOptions, ghost since: seq<Change>, reply: Reply)
        returns (outcome: Outcome)
      requires file.Some? || doc.Some?
      modifies this
      ensures View() == Processed(old(View()), path, file, doc, options, since, reply)
      ensures outcome == OutcomeOfPair(old(Of(path)), file, doc, options, reply, writeDocumentsIfConflicted)
      ensures PairIsRight(file, doc, options, reply, writeDocumentsIfConflicted, old(Of(path)), Of(path), outcome)
    {
      hide NotOlder, Performed, OutcomeOf, ItemAfter, PairIsRight;
      ProcessedIsRight(View(), path, file, doc, options, since, reply);
      if file.Some? {
        UpdateFileMTimeInMap(path, file.value.mtime);
      }
      if doc.Some? && doc.value.conflicted {
        return Skipped;
      }
      var lastSeen := if path in fileMaps then Some(fileMaps[path]) else None;
      outcome := PerformAction(Decide(file, doc, lastSeen, options), path, file, doc, since, reply);
    }

    method PerformScan(options: FullScanOptions, pairs: seq<PairPlan>, interrupted: bool)
      modifies this
      ensures View() == Scanned(old(View()), options, pairs, interrupted)
      ensures IsListing(pairs) ==> forall k | 0 <= k < |pairs| :: FileComesRight(old(View()), View(), options, pairs, interrupted, k)
    {
      hide FileComesRight;
      forall k | 0 <= k < |pairs| && IsListing(pairs)
        ensures FileComesRight(View(), Scanned(View(), options, pairs, interrupted), options, pairs, interrupted, k)
      {
        ScanComesRight(View(), options, pairs, interrupted, k);
      }
      fileMaps := persisted;
      var files, docs := storage, database;
      ghost var listed := View();
      for i := 0 to |pairs|
        invariant View() == AfterTurns(listed, options, pairs[..i])
      {
        var path, file, doc := pairs[i].path, Lookup(files, pairs[i].path), Lookup(docs, pairs[i].path);
        Changes(pairs[i].before);
        if file.Some? || doc.Some? {
          var _ := ProcessFilePair(path, file, doc, options, Meanwhiles(pairs[..i]) + pairs[i].before, pairs[i].reply);
        }
        assert pairs[..i + 1][..i] == pairs[..i];
      }
      assert pairs[..|pairs|] == pairs;
      if interrupted {
        fileMaps := persisted; // what the next start reads before anything else
      } else {
        persisted := fileMaps;
      }
    }

    /** Any run, failed deletions and ended applications included. */
    method Run(events: seq<Event>)
      modifies this
      ensures View() == AfterEvents(old(View()), events)
    {
      for i := 0 to |events|
        invariant View() == AfterEvents(old(View()), events[..i])
      {
        match events[i] {
          case Meanwhile(change) => Change(change);
          case Scan(options, pairs, interrupted) => PerformScan(options, pairs, interrupted);
        }
        assert events[..i + 1][..i] == events[..i];
      }
      assert events[..|events|] == events;
    }
  }
}
