# Verified model of the synchronisation core

This project models, in Dafny 4.11, the parts of the LiveSync common library that decide what happens to a
user's text when several devices change it, and proves what they promise. Each module follows one part:

- `LineDiff`, `LineMerge`: the automatic merge of conflicting Markdown revisions, line by line, against a common
  base. The merge is characterised completely: when it refuses, and line by line what it yields.
- `JsonPatch`, `PatchLoops`, `PatchRoundTrip`: structural patches of JSON documents, and their round trip.
- `TwoPatches`, `ClashCheck`, `LeftMarks`, `UnchangedSide`, `ObjectMerge`, `ApartEdits`: the merge that applies two patches of one
  document. When it succeeds, when the order of the sides shows in it, when it leaves a reserved mark behind, and when
  a side that changed nothing is harmless: each of these is an if-and-only-if on the two patches or the two documents.
- `ConflictOrder`, `RevisionTrees`: which conflict is reviewed first, which base a merge starts from, and what
  garbage collection keeps for that merge.
- `Utf8`, `RabinKarp`, `ChunkGuarantees`, `ChunkSizes`: the content-defined chunker with its 32-bit rolling hash.
- `ChunkReceipt`: the incremental safety check of chunk ids, while other writers run between its awaits.
- `FastFetch`, `ReplicatorShim` (with `ChangesFeed`): two checkpointed transfers that may fail or stop anywhere.
- `RpcChunking`, `RpcRoom`: messages in pieces over a channel that loses, repeats and reorders them.
- `DeliveryClaims`, `ChunkFetchers`: reference counts of chunk deliveries, and the fetcher that holds the claims.
- `OfflineScanner`: the scan that tells a file deleted while nobody watched from one that has not arrived yet.
- `FilePublication`: marks of publications in progress, across concurrent operations and crashes.

The outside world is a parameter: a method that awaits takes its answers from a script (`future`, `script`,
`events`, `Reply`), which ends wherever the process stops, and other actors act between its elements; `RpcRoom` and
`FilePublication` are state machines whose steps may come in any order. Theorems quantify over all of these. A real
timer is an event that may fire at any moment. Where a contract speaks of what was seen on the way, the class keeps it
as a ghost history (`looks`, `past`) that its invariant ties to the script, or the run is a function of the script
(`AfterEvents`, `ReadAll`).

Where the code does less than its comments or tests say, the code is modelled, a concrete input shows the gap (named
first), and the exact condition under which the promise is met is proved (named second):

- A deletion at the end of a text is undone by the line merge (`LineDiff.TrailingDeletionIsUndone`,
  `SplitSpellsNewTextIff`).
- With equal modification times, which device merges decides the order of concurrent insertions
  (`LineMerge.EqualTimesLeaveOrderToDevice`, `SwappingSidesIff`).
- Undated conflicts of one generation are not reviewed in a fixed order: their difference is not a number, which a
  sort reads as zero, although the comment at src/managers/ConflictManager.ts:71-72 says that enumeration order gives
  no priority (`ConflictOrder.UndatedFollowEnumeration`, `FirstIsDeterminedIff`).
- The hash of a chunk keeps a residue of earlier chunks, so after a cut at the boundary pattern the window alone
  never decides (`ChunkGuarantees.CarriedHashDecides`, `WindowDecidesIff`, `NoWindowHashBehindPatternCut`).
- Applying a patch throws where it compares an object that has a property `toString`; deeper inside a new value such a
  property does no harm (`PatchRoundTrip.ToStringPropertyDefeatsPatch`, `NestedToStringIsHarmless`, `PatchRoundTrip`).
- The clash check of the object merge misses replacements that meet on both sides, so that the ages of the sides
  decide what is lost (`ObjectMerge.BothReplaceNull`, `ReplacedUnderAnEdit`, `MergeIsOrderIndependentIff`).
- A merge of clean documents can write a reserved mark into the result, where a change meets the deletion of its
  object (`ObjectMerge.MarkIsLeftBehind`, `MergeIsCleanIff`).
- A merge is refused, or undoes a change, because of an array that the other side left alone
  (`ObjectMerge.UnchangedPlainArrayClashes`, `DeletedArrayComesBack`, `MergeWithUnchangedSideIff`).
- A document without a list of chunks hides the chunks of its conflicting revisions from garbage collection
  (`RevisionTrees.ConflictOfChunklessWinner`, `NeededIsUsedIff`).
- The replication checkpoint moves on without looking at what arrived: it is safe exactly if every requested revision
  came (`ReplicatorShim.WithheldRevisionIsPassed`, `BatchIsHeldIff`).
- On its quick path the safety check does not look at the identity of the database again, so its 0 may be about a
  database that it has not identified (`ChunkReceipt.QuickPathOnReplacedDatabase`, `QuickPathIsSoundIff`).
- Modification times compare wrongly across a wrap-around of 2^32 slots of two seconds
  (`OfflineScanner.TimesWrapAround`, `ComparesSlotsIff`).
- The scan deletes entries on a listing that others may have made stale: also where the file has come back, or the
  entry has become newer (`OfflineScanner.StaleListingDeletes`, `DeletionIsJustifiedIff`). When a conflict arrives in
  between, the file handler answers that it succeeded without having done anything: the scan then drops the record of a
  live entry and later writes the deleted file back (`ConflictRestoresFile`, `DeletionHoldsIff`), or records a file that
  was never written and later deletes its entry (`UnwrittenFileIsDeleted`, `TurnWritesIff`).
- A rename of a file that is interrupted between its two writes can make a complete publication look missing
  (`FilePublication.InterruptedMoveReportsFalsely`, `NothingComesBackIff`).

## Model

| member | source | states |
|---|---|---|
| LineDiff.SplitDiffPiece | src/managers/ConflictManager.ts:153-190 | the loop that cuts diff entries into lines computes `Split`, and every line is in its place: for every diff without two deletions in a row the result has the old lines, keeps those of the kept blocks, and holds at each place the lines that the insertions put there |
| LineDiff.SplitPlacesLines | src/managers/ConflictManager.ts:160-190 | on the block diff alone: behind the i-th line of a deletion followed by an insertion stands the i-th inserted line, surplus insertions stand behind the last deleted line, and all others behind the lines in front of them |
| LineDiff.LinesEndAtLineFeeds | src/managers/ConflictManager.ts:160 | a text is cut exactly behind its line feeds: every line but the last ends with its only line feed |
| LineDiff.PairPieces | src/managers/ConflictManager.ts:173-179 | the inner loop over a deletion and its replacement computes the pairing |
| LineDiff.JoinOfLines | src/managers/ConflictManager.ts:160 | cutting a text into lines loses nothing and yields no empty line |
| LineDiff.SplitKeepsBothSides | src/managers/ConflictManager.ts:153-190 | for every diff the split diff spells the old text, and the new text followed by the lines of a deletion that had nothing behind it |
| LineDiff.UndeletedTailIsLastDeletion | src/managers/ConflictManager.ts:184-186 | for diffs without two deletions in a row, these lines are exactly those of a final deletion |
| LineDiff.SplitSpellsNewTextIff | src/managers/ConflictManager.ts:184-186 | the split diff spells the new text if and only if the diff does not end in a deletion |
| LineDiff.TrailingDeletionIsUndone | src/managers/ConflictManager.ts:184-186 | a concrete diff whose final deletion is undone |
| LineDiff.OldLinesAreLinesOfOldText | src/managers/ConflictManager.ts:146-151 | however the differ blocks a text of whole lines, the old side is the list of lines of the base |
| LineMerge.MergeLoop | src/managers/ConflictManager.ts:195-311 | the loop with its two cursors terminates and computes `Merge` |
| LineMerge.EditDeterminesDiff | src/managers/ConflictManager.ts:195-311 | kept lines and insertions per gap determine a diff, so the characterisation below leaves nothing open |
| LineMerge.MergeIsCorrect | src/managers/ConflictManager.ts:195-311 | for diffs of one base: refusal if and only if a line deleted on both sides is replaced differently or insertions concur under `preserveConcurrentInserts`; otherwise a base line survives if and only if both sides keep it, and every gap holds the positionwise merge of both sides' insertions; the panic and "weird condition" branches are never taken |
| LineMerge.MergeWithUnchangedIsOtherSide | src/managers/ConflictManager.ts:207-298 | if one side changed nothing the result is exactly the other side's diff |
| LineMerge.MergeOfEqualEdits | src/managers/ConflictManager.ts:207-242 | the same edit on both sides merges to that edit |
| LineMerge.MergeIsSymmetric | src/managers/ConflictManager.ts:247-251 | exchanging the sides together with their ages gives the same outcome, for any two diffs |
| LineMerge.SwappingSidesIff | src/managers/ConflictManager.ts:243-251 | exchanging the sides alone gives the same outcome if and only if the times differ, the merge is refused anyway, or no different insertions concur, or `preserveConcurrentInserts` is set |
| LineMerge.EqualTimesLeaveOrderToDevice | src/managers/ConflictManager.ts:247-251 | with equal times each of two devices merges its own first line in front of the other's |
| LineMerge.OrderInGapIff | src/managers/ConflictManager.ts:238-252 | the order of the sides shows in a gap if and only if the two insertions differ somewhere |
| LineMerge.MergedGapKeepsInsertions | src/managers/ConflictManager.ts:238-263 | each side's insertions are a subsequence of the merged gap, which holds nothing else |
| LineMerge.PreservingMergeTakesLongerGap | src/managers/ConflictManager.ts:243-246 | under `preserveConcurrentInserts` a merge that succeeds takes the longer of two gaps, one of which is a prefix of the other |
| LineMerge.SideIsWoven | src/managers/ConflictManager.ts:430-434 | the stored text, the items without deletions, is the base woven with the merged edit |
| LineMerge.MergeSensibly | src/managers/ConflictManager.ts:127-312 | missing and deleted revisions are refused; otherwise the characterisation of the merge holds for the lines of the base and the two edits that the block diffs describe, line by line and gap by gap, with the older side first |
| LineMerge.SplitDiffsAreAligned | src/managers/ConflictManager.ts:192-193 | both split diffs walk the same base lines, whatever blocks the differ chose |
| PatchLoops.CompareEntries | src/common/utils.patch.ts:34-93 | the loop over the new entries, in any order, finds every changed or added entry and leaves the deleted keys |
| PatchLoops.MarkDeleted | src/common/utils.patch.ts:93-97 | the loop that marks the keys that are gone |
| PatchLoops.GeneratePatchObj | src/common/utils.patch.ts:34-98 | both loops compute `Generate`, including when it throws |
| PatchLoops.ApplyPatch | src/common/utils.patch.ts:100-148 | the loop over the patch entries, in any order, computes `Apply`, including when it throws |
| PatchRoundTrip.PatchRoundTrip | src/common/utils.patch.ts:34-148 | for arbitrarily nested values without reserved marks and forbidden keys, with distinct ids and no null elements: a patch is generated; applying it succeeds if and only if no object that is compared with the deletion mark has a property `toString`; and then it yields the new value, up to the order of id-keyed arrays |
| PatchRoundTrip.RoundTripOfFields | src/common/utils.patch.ts:34-148 | the same for two objects at any depth, on an object that differs from the old one in the order of keyed arrays |
| PatchRoundTrip.ListedIsKeyed | src/common/utils.patch.ts:11-19 | an object made from an id-keyed array and back into one is the same object, with distinct ids |
| PatchRoundTrip.RoundTripOfArrays | src/common/utils.patch.ts:20-32 | an array, id-keyed or swapped as a whole, is what it should be after its entry is applied, if and only if nothing in the entry makes its comparison throw |
| PatchRoundTrip.NoChangeIff | src/common/utils.patch.ts:20-98 | a value has no patch to itself if and only if all its arrays are id-keyed |
| PatchRoundTrip.ForbiddenKeysThrow | src/common/utils.patch.ts:34-148 | a key `__proto__`, `constructor` or `prototype` makes the comparison throw, and the application of a patch that has it |
| PatchRoundTrip.ToStringPropertyDefeatsPatch | src/common/utils.patch.ts:108 | a change that adds a property `toString` to an object makes `applyPatch` throw in its comparison with the deletion mark |
| PatchRoundTrip.NestedToStringIsHarmless | src/common/utils.patch.ts:133-137 | inside a new value the same property is never compared |
| TwoPatches.NewSteps | src/common/utils.patch.ts:100-148 | a new value applied as a patch to another one throws if and only if, at some place, they are of kinds that do not go together |
| TwoPatches.NewMatchIff | src/common/utils.patch.ts:100-148 | where neither order throws, two new values for a key combine to the same if and only if they match place by place |
| TwoPatches.EntriesFail | src/common/utils.patch.ts:100-148 | of two entries of one key, deletions, replacements, objects and id-keyed arrays at any depth, the second throws on what the first has made if and only if `FailsAt` holds |
| TwoPatches.EntriesMatchIff | src/common/utils.patch.ts:100-148 | where neither order throws, the two orders of the entries give the same if and only if nothing is replaced that the other changes in its own way |
| TwoPatches.FieldsMatchIff | src/common/utils.patch.ts:100-148 | the same for two patches of one object, key by key |
| TwoPatches.ElementKeepsIdIff | src/common/utils.patch.ts:11-19 | an element of an id-keyed array keeps its id through two entries unless a change meets its deletion |
| LeftMarks.EntriesLeakIff | src/common/utils.patch.ts:133-137 | two entries of clean values whose arrays agree leave a clean value if and only if no change with a mark meets the deletion of its object |
| UnchangedSide.EntryIsHarmlessIff | src/common/utils.patch.ts:20-148 | the entry of a side that changed nothing, applied last, leaves what the other side made of the value and agrees with it on arrays, if and only if every array without ids that its comparison reaches was kept |
| UnchangedSide.KeptLeavesAgree | src/managers/ConflictManager.ts:345-361 | where those arrays were kept, the flattened patches carry the same leaf at every common path |
| ClashCheck.FindClash | src/managers/ConflictManager.ts:345-361 | the two loops over the flattened patches report a clash if and only if some path carries unequal leaves in both |
| ClashCheck.JoinedClashIff | src/common/utils.patch.ts:196-210 | joining the keys of a path by dots makes no difference where no key contains a dot |
| ClashCheck.DottedKeysCoincide | src/common/utils.patch.ts:196-210 | two different paths that are joined to the same text |
| ObjectMerge.MergeLeaves | src/managers/ConflictManager.ts:314-378 | the whole merge computes `MergeObject`, refusing missing and deleted revisions, clashes and throwing patches |
| ObjectMerge.CompatiblePatchesDoNotClash | src/managers/ConflictManager.ts:345-361 | the clash check never refuses compatible patches |
| ObjectMerge.CompatibleEntriesMatch | src/common/utils.patch.ts:100-148 | compatible entries of one key never throw on each other and match, deletions and id-keyed arrays included |
| ObjectMerge.MergeSucceedsIff | src/managers/ConflictManager.ts:336-372 | the merge succeeds if and only if no path clashes and the newer patch fits what the older one has made |
| ObjectMerge.MergeIsOrderIndependentIff | src/managers/ConflictManager.ts:336-372 | which side is newer makes no difference if and only if the merge is refused anyway, or the patches throw in both orders, or they throw in neither and match |
| ObjectMerge.MergeIsOrderIndependent | src/managers/ConflictManager.ts:336-372 | with compatible patches the merge succeeds, and which side is newer makes no difference |
| ApartEdits.ApartEditsMerge | src/managers/ConflictManager.ts:336-372 | edits in different places, in objects and id-keyed arrays at any depth, are merged whichever side is older and however leaves are compared: every place has what the side that edited it made of it, added keys are there and deleted ones are gone |
| ObjectMerge.MergeIsCleanIff | src/managers/ConflictManager.ts:336-372 | the result of merging clean documents is clean if and only if no change with a mark meets the deletion of its object |
| ObjectMerge.MergeWithUnchangedSideIff | src/managers/ConflictManager.ts:336-372 | merging with a side that equals the base gives, in both orders and on both sides, what the other side wrote, if and only if the other side kept every array without ids that is reached |
| ObjectMerge.MergeWithUnchangedSide | src/managers/ConflictManager.ts:336-372 | if the base's arrays are id-keyed this is so however leaves are compared, and the merge succeeds if and only if the one patch can be applied |
| ObjectMerge.BothReplaceNull | src/managers/ConflictManager.ts:345-361 | two replacements of null with different keys pass the clash check, and the newer one silently wins |
| ObjectMerge.ReplacedUnderAnEdit | src/managers/ConflictManager.ts:345-361 | an edit below a replaced value passes the clash check, and the ages decide between success and refusal |
| ObjectMerge.MarkIsLeftBehind | src/common/utils.patch.ts:133-137 | base {a:{b:1}}, one side {a:{}}, the older side {}: the merge is accepted and writes the deletion mark into the document |
| ObjectMerge.UnchangedPlainArrayClashes | src/common/utils.patch.ts:20-32 | an array without ids that only one side changed is refused |
| ObjectMerge.DeletedArrayComesBack | src/common/utils.patch.ts:20-32 | an array without ids that the older side deleted is put back by the side that left it alone |
| ConflictOrder.TiesIff | src/managers/ConflictManager.ts:62-85 | two candidates tie if and only if they are the same or undated candidates of one generation; the order is antisymmetric |
| ConflictOrder.BeforeIsTransitive | src/managers/ConflictManager.ts:67-85 | the comparison is transitive, ties included, so that sorting by it is meaningful |
| ConflictOrder.FirstIsOldest | src/managers/ConflictManager.ts:67-85 | first comes a candidate of the lowest generation: an undated one, if there is any, or else one of the earliest time, and among those of equal times the least hash |
| ConflictOrder.FirstIsDeterminedIff | src/managers/ConflictManager.ts:71-85 | every enumeration of the same conflicts puts the same one first if and only if no two different candidates of the lowest generation are undated |
| ConflictOrder.UndatedFollowEnumeration | src/managers/ConflictManager.ts:71-85 | two unreadable leaves of one generation: the one listed first is reviewed first |
| RevisionTrees.Branch | src/managers/ConflictManager.ts:391-394 | the revisions of a branch, each the parent of the one before, with descending generations and their true availability |
| RevisionTrees.CommonBaseIsNewestShared | src/managers/ConflictManager.ts:401-410 | the chosen base is the one newest revision that both branches still have, and there is none if and only if they share none |
| RevisionTrees.BaseIsKept | src/pouchdb/LiveSyncLocalDB.ts:344-360 | garbage collection keeps the very base that the merge would choose |
| RevisionTrees.ConflictIsKept | src/pouchdb/LiveSyncLocalDB.ts:344-360 | it keeps every available conflicting leaf |
| RevisionTrees.NeededIsUsed | src/pouchdb/LiveSyncLocalDB.ts:324-377 | the chunks of winner, conflicting leaf and base are all used, for every conflict of a document with a list of chunks |
| RevisionTrees.NeededIsUsedIff | src/pouchdb/LiveSyncLocalDB.ts:324-330 | all that merging needs is used if and only if the winner has a list of chunks or nothing is needed |
| RevisionTrees.ConflictOfChunklessWinner | src/pouchdb/LiveSyncLocalDB.ts:324-330 | a winner without a list of chunks whose conflict loses its only chunk |
| RevisionTrees.CollectKeptRevs | src/pouchdb/LiveSyncLocalDB.ts:336-361 | the loop over the conflicts collects exactly the revisions to keep |
| RevisionTrees.CollectUsed | src/pouchdb/LiveSyncLocalDB.ts:324-377 | what one document adds to `used`: a chunk is in it if and only if the winner has a list of chunks and the document is not deleted or in conflict, and the chunk is in that list, in that of an available revision on exactly one of the branches of winner and a conflict, or in that of their newest shared available revision |
| RevisionTrees.UsedByIff | src/pouchdb/LiveSyncLocalDB.ts:324-377 | the same if and only if, for each chunk, on the revision tree alone |
| RevisionTrees.KeepListIff | src/pouchdb/LiveSyncLocalDB.ts:336-361 | a revision is kept for a conflict if and only if it is available and on exactly one of the two branches, or the newest available one on both |
| RevisionTrees.Page | src/pouchdb/LiveSyncLocalDB.ts:303-375 | one page of listed changes, no more than the limit: the result is the position behind them, and `used` and `existing` are those of everything read so far |
| RevisionTrees.EverythingIsRead | src/pouchdb/LiveSyncLocalDB.ts:303-314 | however the feed grows between the pages, when a page comes back empty everything listed by then has been read; without other writers exactly that |
| RevisionTrees.AllChunks | src/pouchdb/LiveSyncLocalDB.ts:295-383 | page by page, with what others append before each page: for each chunk, `used` and `existing` are what the documents and chunks read by then make of it, said without the loop; what is read when a page is empty covers everything listed in the feed as it is then; no chunk of a live document and none that a merge of a listed document needs is existing but unused |
| Utf8.CutAtCharacter | src/string_and_binary/chunks.ts:625-629 | cutting well-formed UTF-8 in front of a byte that is no continuation byte gives two well-formed texts whose characters join to the whole |
| Utf8.NoFourContinuations | src/string_and_binary/chunks.ts:625-629 | well-formed UTF-8 never has four continuation bytes in a row |
| RabinKarp.ComputePowW | src/string_and_binary/chunks.ts:578-582 | the loop computes 47 multiplications by 31 modulo 2^32 |
| RabinKarp.SplitBuffer | src/string_and_binary/chunks.ts:592-649 | the loop over the buffer yields the chunks of the specification, which are the only ones that end where they may |
| RabinKarp.ChunksAreCutUp | src/string_and_binary/chunks.ts:597-640 | every chunk but the last ends at the first position from its start at which the size has reached the minimum and the closed form of the hash, modulo 2^32, is 1 modulo the average, or the size has reached the maximum, and the next byte of a text is no continuation byte |
| RabinKarp.CutsAreUnique | src/string_and_binary/chunks.ts:597-649 | there is only one way to cut a buffer so |
| RabinKarp.HashIsExact | src/string_and_binary/chunks.ts:597-607 | at every position the 32-bit hash equals, modulo 2^32, the polynomial of the bytes in the window plus the carried hash multiplied along |
| RabinKarp.HashHasClosedForm | src/string_and_binary/chunks.ts:578-607 | the closed form in powers of 31, over at most the last 48 bytes of the chunk, with the residue carried over the cut |
| RabinKarp.CarryVanishesIff | src/string_and_binary/chunks.ts:631-637 | a carried hash disappears if and only if it is a multiple of 2^32 |
| ChunkGuarantees.ChunksAreLossless | src/string_and_binary/chunks.ts:592-649 | the chunks of every buffer join to the buffer |
| ChunkGuarantees.ChunksAreBounded | src/string_and_binary/chunks.ts:609-649 | every chunk but the last reaches the minimum; binary chunks stay within the maximum; chunks of well-formed text are well-formed and at most three bytes longer |
| ChunkGuarantees.TextChunksDecodeToText | src/string_and_binary/chunks.ts:625-645 | decoding the chunks of a well-formed text one by one and joining them gives the text |
| ChunkGuarantees.CutsArePrefixStable | src/string_and_binary/chunks.ts:592-640 | buffers that agree on a prefix are scanned alike up to one byte before its end |
| ChunkGuarantees.CommonPrefixGivesCommonChunks | src/string_and_binary/chunks.ts:592-640 | every chunk that ends before the last agreed byte is a chunk of both buffers |
| ChunkGuarantees.WhatFollowsACut | src/string_and_binary/chunks.ts:631-640 | behind a cut the chunks are those of the remaining bytes begun with the carried hash |
| ChunkGuarantees.WindowDecidesIff | src/string_and_binary/chunks.ts:597-640 | the hash depends on the window alone if and only if the hash carried into the chunk is zero |
| ChunkGuarantees.NoWindowHashBehindPatternCut | src/string_and_binary/chunks.ts:612-637 | behind a cut at the boundary pattern that is never so |
| ChunkGuarantees.CarriedHashDecides | src/string_and_binary/chunks.ts:597-637 | 127 zero bytes and a one are cut off; the next zero byte has hash 31, while its window has hash 0 |
| ChunkSizes.SelectUnit | src/string_and_binary/chunks.ts:511-525 | the search for the unit terminates and computes `UnitFor` |
| ChunkSizes.UnitIsLeast | src/string_and_binary/chunks.ts:511-525 | it finds the least unit of its steps that keeps the estimate within 500, so the data is at most 2000 units |
| ChunkSizes.SizesAreOrdered | src/string_and_binary/chunks.ts:528-538 | in all modes 48 <= minimum <= average <= maximum |
| ChunkSizes.SizesAre | src/string_and_binary/chunks.ts:493-538 | the three sizes in plain arithmetic on data size and arguments |
| ChunkSizes.PlainTextHasFewChunks | src/string_and_binary/chunks.ts:511-538 | below 4 MiB a plain split never has more than 1000 chunks, well-formed or not |
| ChunkSizes.SplitPiecesRabinKarp | src/string_and_binary/chunks.ts:493-650 | the whole splitter: with the sizes as plain arithmetic on its arguments, every chunk ends at the first position at which it may; lossless, bounded, and few chunks for plain text |
| ChunkReceipt.NamespaceIsRange | src/pouchdb/negotiation.ts:91-109 | an id starts with "h:" if and only if it lies in the range from "h:" up to, but without, "h;" |
| ChunkReceipt.SelectorsCoverOutside | src/pouchdb/negotiation.ts:91-109 | the two selectors and the boundary id "h;" cover exactly the ids outside the namespace |
| ChunkReceipt.FullCheckIsClean | src/pouchdb/negotiation.ts:166-172 | three looks at different moments, the two selectors in either order, that find nothing prove that no document unchanged since before the first is compromised |
| ChunkReceipt.PageIsClean | src/pouchdb/negotiation.ts:196-216 | a page whose candidates turn out harmless, even when looked at later, moves the verified sequence to the end of the page |
| ChunkReceipt.ReceiptStaysTrue | src/pouchdb/negotiation.ts:147-157 | a receipt that is true stays true under any outside writes and any replacement of the database |
| ChunkReceipt.CountCompromisedChunks | src/pouchdb/negotiation.ts:116-128 | the result is exactly what the two queries, answered at different moments and in either order, found; a positive count was true at one of them, and `false` means that the last one failed |
| ChunkReceipt.FullLocalCheck | src/pouchdb/negotiation.ts:166-172 | the result is exactly what its two or three looks at the database give; a positive count was true at one of them, zero proves everything up to the sequence before the check clean, and `false` means that the last look failed |
| ChunkReceipt.ScanPage | src/pouchdb/negotiation.ts:195-217 | one page, exactly by what its one or two looks saw: a failed look, an incomparable or empty page, the number of listed live documents that the second look saw compromised, or the end of the page, up to which the verified sequence has moved |
| ChunkReceipt.ScanChanges | src/pouchdb/negotiation.ts:193-222 | the loop terminates; coming through, it has verified at least up to the target, and otherwise its last look failed, or sequences were incomparable, or a count is exactly that of the compromised documents of a page |
| ChunkReceipt.CheckFrom | src/pouchdb/negotiation.ts:190-237 | from the verified sequence to the final look: zero means that the database seen by the final look was clean, or that a look at everything found nothing; a positive count was true at a look; a receipt is only written for a database that the final look saw clean |
| ChunkReceipt.FinalLook | src/pouchdb/negotiation.ts:223-237 | zero, with the receipt written, if and only if nothing disturbs the final look at the sequence and the identity behind it; that look was at a clean database |
| ChunkReceipt.CountCompromisedChunksSinceReceipt | src/pouchdb/negotiation.ts:161-243 | whatever others write or replace between the awaits and whichever call fails, over the states that the awaits have shown: the receipt is true afterwards and only written after a scan; a positive count is exact, of a page or of everything, and was true of one of them; a zero rests on the receipt, on a final look at a clean database, or on a look at everything; `false` only comes of a failed call, an identity or sequence that does not agree, or a database written meanwhile; and where identity, sequence and receipt agree the result is zero and nothing else is looked at |
| ChunkReceipt.QuickPathIsSoundIff | src/pouchdb/negotiation.ts:180-187 | a sequence equal to the verified one proves the database clean if and only if it is the database that the receipt names |
| ChunkReceipt.QuickPathOnReplacedDatabase | src/pouchdb/negotiation.ts:180-187 | the database is replaced between the looks at its identity and at its sequence: the check returns zero on a database that is not clean |
| FastFetch.HoldsStays | src/pouchdb/StreamingFetch.ts:623-644 | a prefix that is stored stays stored while the feed grows and documents are superseded |
| FastFetch.ResponseFailure | src/pouchdb/StreamingFetch.ts:101-118 | 408, 429 and 500 upwards are failures of the transport and are retried, 401 and 403 are failures of authentication, all others of the protocol |
| FastFetch.Fetcher.SaveCheckpoint | src/pouchdb/StreamingFetch.ts:143-157 | only a position in front of which everything is local may be saved; a failing save is a storage failure |
| FastFetch.Fetcher.Flush | src/pouchdb/StreamingFetch.ts:174-224 | a batch becomes part of the checkpoint only after all of it is written, even if a write fails half-way |
| FastFetch.Fetcher.Write | src/pouchdb/StreamingFetch.ts:219-262 | between writes the buffer stays below 100 items and 2 MiB and completes the feed up to its last document |
| FastFetch.Fetcher.FlushThrough | src/pouchdb/StreamingFetch.ts:263-269 | a change without a document moves the checkpoint only behind what is written |
| FastFetch.Fetcher.FetchPage | src/pouchdb/StreamingFetch.ts:491-621 | a page that ends properly leaves everything up to its terminator local and saved; and if on the script its rows and calls succeed, it brings at least one row and at most its limit, and ends with its terminator, then it does end properly, at the position of the terminator; a failure that may be tried again comes of a call that failed, or nothing was taken in |
| FastFetch.Fetcher.FetchPages | src/pouchdb/StreamingFetch.ts:623-651 | the page loop ends only after a probe finds nothing more, and then the whole feed is local; it does end so on every script whose pages go well |
| FastFetch.Fetcher.FetchChanges | src/pouchdb/StreamingFetch.ts:368-671 | after any failure that is not one of storage, every document that was received is in the local database; a run whose calls succeed and suffice for the feed is done; a first request that fails for now fails the run, to be tried again, with nothing changed |
| FastFetch.Fetcher.FastFetch | src/serviceModules/Rebuilder.ts:483-573 | however the run ends, the feed has only grown by what the events brought, nothing is local that was not read, and the checkpoint names a durable prefix; a normal end means that the feed of the last probe is local; a resumed run takes nothing back; a failure comes of something that went wrong, a page without rows included; at most five attempts, all used up if a retryable failure remains; and up to four broken requests followed by a run that goes well are done at the attempt behind them |
| FastFetch.OneDocumentGoesWell | src/pouchdb/StreamingFetch.ts:491-651 | a run that goes well: a feed with one document and the ten calls that fetch it |
| ReplicatorShim.BuildRevsDiffParam | src/pouchdb/ReplicatorShim.ts:98-104 | the loop computes `ParamOf` |
| ReplicatorShim.RequestedIsListed | src/pouchdb/ReplicatorShim.ts:98-104 | the revisions asked for are exactly those listed in the batch, however often a document appears |
| ReplicatorShim.BatchIsHeldIff | src/pouchdb/ReplicatorShim.ts:175-222 | behind a batch the new checkpoint is safe if and only if every requested revision is in the target |
| ReplicatorShim.WithheldRevisionIsPassed | src/pouchdb/ReplicatorShim.ts:175-222 | a listed revision that the source does not return: the end of its batch is no safe position |
| ReplicatorShim.ReplayAsksForNothing | src/pouchdb/ReplicatorShim.ts:181-187 | replaying batches in front of a safe position asks for nothing |
| ReplicatorShim.EmptyBatchIsTheEnd | src/pouchdb/ReplicatorShim.ts:175-177 | an empty batch means that everything the source lists is held |
| ReplicatorShim.Replication.UpsertMark | src/pouchdb/ReplicatorShim.ts:155-159 | the mark of the source: without `rewind` the old one, if there is one, and otherwise a new one from the clock, which was never used before and has no checkpoint; without success the mark stays |
| ReplicatorShim.Replication.CarryOver | src/pouchdb/ReplicatorShim.ts:182-205 | after a batch every requested revision is in the target or was withheld; only revisions that the target lacked are asked for, and none is if it lacks none |
| ReplicatorShim.Replication.SaveCheckpoint | src/pouchdb/ReplicatorShim.ts:218-222 | the stored position is safe for the mark it is stored under |
| ReplicatorShim.Replication.OneBatch | src/pouchdb/ReplicatorShim.ts:174-223 | one turn of the loop keeps the position safe, with failure, abort, rebuilt source or stop at any call; the position moves on with every turn, and while nothing fails a turn goes on or completes |
| ReplicatorShim.Replication.ReplicateShim | src/pouchdb/ReplicatorShim.ts:134-231 | wherever the run stops, every revision listed in front of the current mark's checkpoint is in the target unless it was withheld when asked for; after a completed run so is everything the source lists, unless it has been rebuilt during the run; checkpoints only grow, nothing leaves the target, and while the mark stays the feed only grows by what the events appended; without `rewind` the mark stays unless the source is rebuilt; and while nothing fails and nothing is appended the run completes within six calls for every position of the feed and eight more |
| RpcChunking.SplitIntoChunks | src/rpc/chunking.ts:7-23 | the pieces join to the payload, and none but the last is cut short: with one more code unit it would exceed a step or the bound; all fit if and only if the payload fits as a whole or no code unit is too large, and always from three bytes on |
| RpcChunking.FitsIff | src/rpc/chunking.ts:12-21 | pieces that cannot be made smaller all fit if and only if every code unit does |
| RpcChunking.IncomingChunkBuffer.Add | src/rpc/chunking.ts:33-36 | an index out of range changes nothing, any other replaces that part |
| RpcChunking.IncomingChunkBuffer.MissingIndices | src/rpc/chunking.ts:38-44 | the loop lists the missing indices |
| RpcChunking.IncomingChunkBuffer.ToPayload | src/rpc/chunking.ts:50-60 | the loop joins the parts in order, or fails for a missing one |
| RpcChunking.CompleteIffNothingMissing | src/rpc/chunking.ts:38-48 | a buffer counts as complete if and only if nothing is missing, and then it has a payload |
| RpcChunking.CompleteStreamIsPayload | src/rpc/chunking.ts:46-60 | a complete buffer of a stream holds exactly the stream's payload |
| RpcChunking.RetransmissionCompletes | src/rpc/RpcRoom.ts:230-245 | once the pieces reported missing arrive, in any order and number, the stream is complete |
| RpcRoom.RpcRoom.SendEnvelope | src/rpc/RpcRoom.ts:164-185 | small envelopes go as they are, others as all pieces of a stream that is kept for retransmission |
| RpcRoom.RpcRoom.OnWireMessage | src/rpc/RpcRoom.ts:199-245 | handling a message computes `Receive`: state, answers and delivered payload |
| RpcRoom.StepKeepsInv | src/rpc/RpcRoom.ts:164-245 | every step of rooms and channel keeps packets, buffers and kept streams genuine |
| RpcRoom.RunsKeepIntegrity | src/rpc/RpcRoom.ts:164-245 | in every run, under loss, repetition and reordering, a delivered payload is exactly one that this peer sent, and a sender forgets a stream only after it was delivered |
| RpcRoom.ArrivedStreamIsDelivered | src/rpc/RpcRoom.ts:204-228 | in every run, a stream of which every piece has arrived, in any order and any number of times, has been handed on |
| RpcRoom.RawIsDelivered | src/rpc/RpcRoom.ts:199-203 | in every run, a raw message that has arrived has been handed on |
| RpcRoom.TimerAsksForMissing | src/rpc/RpcRoom.ts:187-197 | the timer of a stream that has begun to arrive asks for exactly the pieces that its receiver does not hold |
| RpcRoom.TimerBringsMissing | src/rpc/RpcRoom.ts:187-245 | once the request of the timer has arrived, every missing piece is on its way again, or the payload has been handed on |
| RpcRoom.AcknowledgedIsForgotten | src/rpc/RpcRoom.ts:229-234 | an acknowledgement without missing pieces makes the sender forget the stream |
| DeliveryClaims.CountsAfterClaim | src/managers/ChunkDeliveryCoordinator.ts:131-133 | counting a new claim in keeps every count equal to the number of live claims that hold the identifier |
| DeliveryClaims.CountsAfterRemoval | src/managers/ChunkDeliveryCoordinator.ts:87-96 | so does counting identifiers out that a claim gives up |
| DeliveryClaims.ChunkDeliveryCoordinator.IsClaimActiveFor | src/managers/ChunkDeliveryCoordinator.ts:153-155 | an identifier is active if and only if some unreleased claim still waits for it |
| DeliveryClaims.ChunkDeliveryCoordinator.RemoveActiveIds | src/managers/ChunkDeliveryCoordinator.ts:87-96 | the loop over the identifiers |
| DeliveryClaims.ChunkDeliveryCoordinator.DoClaim | src/managers/ChunkDeliveryCoordinator.ts:61-136 | a claim, whatever listeners do when notified |
| DeliveryClaims.ChunkDeliveryCoordinator.DoSettle | src/managers/ChunkDeliveryCoordinator.ts:120-129 | a settlement looks at its claim again after the listeners have run |
| DeliveryClaims.ChunkDeliveryCoordinator.DoRelease | src/managers/ChunkDeliveryCoordinator.ts:97-109 | a release is final and resolves the claim |
| DeliveryClaims.ChunkDeliveryCoordinator.DoDispose | src/managers/ChunkDeliveryCoordinator.ts:166-174 | afterwards no identifier is active and every claim is done |
| DeliveryClaims.ChunkDeliveryCoordinator.Perform | src/managers/ChunkDeliveryCoordinator.ts:61-174 | each action does what it is for whatever listeners do meanwhile, and where they do nothing it changes only the claim concerned |
| DeliveryClaims.ChunkDeliveryCoordinator.Run | src/managers/ChunkDeliveryCoordinator.ts:61-174 | over all nestings of claim, settle, release, touch, stall and dispose inside each other's notifications: counts are the numbers of live claims, and a claim is done if and only if nothing of it is pending |
| ChunkFetchers.ActiveIsPending | src/managers/ChunkFetcher.ts:80-116 | the coordinator counts each identifier the fetcher waits for exactly once, and no other |
| ChunkFetchers.LinkedAfterSettling | src/managers/ChunkFetcher.ts:134-139 | settling keeps `pendingClaims` a partition of the live claims' identifiers |
| ChunkFetchers.LinkedAfterRelease | src/managers/ChunkFetcher.ts:118-126 | so does giving a claim up |
| ChunkFetchers.ServedAfterStart | src/managers/ChunkFetcher.ts:180-189 | taking a batch out of the queue leaves every claimed identifier queued or served by a request |
| ChunkFetchers.ServedAfterWait | src/managers/ChunkFetcher.ts:150-163 | dropping identifiers whose claim was refused or replaced leaves none unserved |
| ChunkFetchers.ChunkFetcher.EnsureClaims | src/managers/ChunkFetcher.ts:80-116 | exactly the unclaimed identifiers are claimed, once |
| ChunkFetchers.ChunkFetcher.OnEvent | src/managers/ChunkFetcher.ts:71-78 | every requested identifier is claimed, exactly the unclaimed ones are added to the queue, without repetitions, and a start is scheduled if a request may begin |
| ChunkFetchers.UniqueAppends | src/managers/ChunkFetcher.ts:71-78 | new identifiers come behind the queue, in their order, each once |
| ChunkFetchers.ChunkFetcher.StartRequestMissing | src/managers/ChunkFetcher.ts:180-189 | only below the concurrency limit a request takes the first 100 identifiers out of the queue, claims those that are not claimed, and waits for the boundaries of their claims |
| ChunkFetchers.ChunkFetcher.EndWaiting | src/managers/ChunkFetcher.ts:150-163 | once its boundaries are resolved a request keeps exactly the identifiers whose claim is still the one it waited for and has entered, and ends if there are none |
| ChunkFetchers.ChunkFetcher.FinishRequesting | src/managers/ChunkFetcher.ts:275-286 | however a request ends, it is gone, its slot is free, its identifiers are not waited for any more, and the next start is scheduled if anything is queued |
| ChunkFetchers.ChunkFetcher.RunnerRejecting | src/managers/ChunkFetcher.ts:107-114 | the claim of a rejected runner is released, and its identifiers are neither queued nor waited for any more |
| ChunkFetchers.ChunkFetcher.Stalling | src/managers/ChunkFetcher.ts:128-132 | the same for a claim whose timer is armed; any other is left alone |
| ChunkFetchers.ChunkFetcher.Destroying | src/managers/ChunkFetcher.ts:57-68 | afterwards nothing is active |
| ChunkFetchers.ChunkFetcher.Step | src/managers/ChunkFetcher.ts:57-287 | each event does what it is for, and what is queued stays attended to |
| ChunkFetchers.ChunkFetcher.Run | src/managers/ChunkFetcher.ts:57-287 | over all interleavings: partition, at most `concurrency` requests, the coordinator's counts are one per awaited identifier; what is queued has a start scheduled or a request under way, and when there is neither nothing is waited for |
| OfflineScanner.ComparesSlotsIff | src/common/utils.ts:681-693 | times compare as their two-second slots do if and only if no wrap-around lies between them that they do not outrun |
| OfflineScanner.TimesWrapAround | src/common/utils.ts:681-693 | a time in 2106 that compares as older than one in 1970 |
| OfflineScanner.AbsentFileIff | src/serviceFeatures/offlineScanner.ts:1105-1182 | of an absent file the entry is deleted if and only if newer wins, it was seen and the entry is not newer; it is written if and only if the entry is live and this is not so |
| OfflineScanner.PresentFileIff | src/serviceFeatures/offlineScanner.ts:1105-1139 | a file that was listed never costs a database entry and is deleted if and only if the options say so for a missing or deleted entry |
| OfflineScanner.Vault.SyncFile | src/serviceFeatures/offlineScanner.ts:669-745 | which side wins, with sizes deciding under equal times, and what that makes of both sides |
| OfflineScanner.Vault.DbToStorage | src/serviceModules/ServiceFileHandlerBase.ts:1630-1670 | writing an entry to storage takes the current entry; in a conflict nothing is written, with the same answer |
| OfflineScanner.WrittenIff | src/serviceModules/ServiceFileHandlerBase.ts:1645-1670 | of an absent file exactly an entry that is live, and unconflicted unless conflicts are written, is written |
| OfflineScanner.Vault.ProcessFilePair | src/serviceFeatures/offlineScanner.ts:1144-1272 | one listed pair on what has become of it computes `Processed`: outcome, both sides, record and deletions, for every action; and it comes right: said on the pair, the options and the answers alone, what file and entry are afterwards |
| OfflineScanner.ProcessedIsRight | src/serviceFeatures/offlineScanner.ts:669-745 | of a file and an unconflicted live entry under newer-wins the entry becomes the file if and only if the file is the newer side, sizes deciding under equal times, and is stored, and the file becomes the entry if and only if the entry is newer and is written; under database-apply the entry is written; a lone file is stored or deleted as the options say, and so is the file of a deleted entry; otherwise neither side changes |
| OfflineScanner.PairComesRight | src/serviceFeatures/offlineScanner.ts:1105-1272 | the same for the decision and its execution without others in between |
| OfflineScanner.TurnsAreLocal | src/serviceFeatures/offlineScanner.ts:1370-1475 | until its turn, what has become of a listed file, its entry and its record is what others have done to it since the listing |
| OfflineScanner.DeletionHoldsIff | src/serviceFeatures/offlineScanner.ts:1219-1262 | after the turn of an offline deletion the file is absent, and recorded as before or its entry gone, if and only if the handler did not answer that it has deleted; or it recovered nothing for a pending publication whose entry was gone; or without one no conflict had arrived, or the displayed revision was known and left a deleted entry |
| OfflineScanner.TurnWritesIff | src/serviceFeatures/offlineScanner.ts:1191-1200 | a file is newly recorded as seen without being in storage if and only if its entry was to be written, the handler answered that it had, and the entry was deleted by then or kept back by a conflict |
| OfflineScanner.Vault.DeleteFileFromDB | src/serviceModules/ServiceFileHandlerBase.ts:1342-1399 | a pending publication is recovered instead; of a conflicted entry the displayed revision is deleted if it is known, and nothing otherwise, with the same answer; an unconflicted entry is deleted whatever its time is by then |
| OfflineScanner.Vault.DeleteFromDatabase | src/serviceFeatures/offlineScanner.ts:1219-1262 | the record of a file goes if and only if the handler says that it has deleted |
| OfflineScanner.DeletionIsJustifiedIff | src/serviceFeatures/offlineScanner.ts:1170-1182 | what a scan deletes is an unconflicted entry not newer than the record of its absent file, if and only if since the listing nobody brought the file back or stored a newer or conflicted entry that is still there |
| OfflineScanner.StaleListingDeletes | src/serviceModules/ServiceFileHandlerBase.ts:1394-1398 | a scan in which, after the listing, the file comes back or the entry becomes newer: the entry is deleted all the same |
| OfflineScanner.ConflictRestoresFile | src/serviceModules/ServiceFileHandlerBase.ts:1381-1391 | a run in which a conflict arrives between listing and turn: the record goes without a deletion, and the next scan writes the deleted file back |
| OfflineScanner.UnwrittenFileIsDeleted | src/serviceFeatures/offlineScanner.ts:1191-1200 | a run in which a conflict arrives before an entry is written: a file is recorded that was never in storage, and the next scan deletes its entry |
| OfflineScanner.Vault.PerformScan | src/serviceFeatures/offlineScanner.ts:1370-1475 | the scan over the listed pairs, with what others do before each turn, computes `Scanned`, ended early or not; and every listed file comes right at its turn |
| OfflineScanner.ScanComesRight | src/serviceFeatures/offlineScanner.ts:1370-1475 | over a whole scan of listed pairs, each file, entry and record is what its own turn, said on the pair alone, makes of what others had left there, and what others do to it afterwards |
| OfflineScanner.Vault.Run | src/serviceFeatures/offlineScanner.ts:1105-1531 | any run of scans, outside changes, saves and restarts computes `AfterEvents`, of which the following is proved |
| OfflineScanner.PairDisturbsIff | src/serviceFeatures/offlineScanner.ts:1144-1272 | a locally deleted file stays deleted through the turn of its pair if and only if its entry was not listed as live or its deletion holds |
| OfflineScanner.TurnsDoNotDisturb | src/serviceFeatures/offlineScanner.ts:1370-1475 | what was listed of a deleted file stays good for its decision, whatever others do before its turn |
| OfflineScanner.DeletedFileStaysDeleted | src/serviceFeatures/offlineScanner.ts:1105-1531 | over any run of newer-wins scans, failed deletions and restarts included, a locally deleted file with a saved record is not written back until somebody writes it or makes its entry newer, or revives an entry without a record, or its deletion does not hold |
| OfflineScanner.UntouchedFileStaysDeleted | src/serviceFeatures/offlineScanner.ts:1105-1531 | that is: never, while nobody writes the file or a live or conflicted entry of it and no publication of it is pending |
| OfflineScanner.EventsKeepInv | src/serviceFeatures/offlineScanner.ts:1105-1531 | over any run, records are of files that were once in storage or are noted as unwritten, and every database deletion was decided on a listed pair whose file was absent and whose entry was unconflicted and not newer than the record |
| OfflineScanner.EventsLeaveUnwritten | src/serviceFeatures/offlineScanner.ts:1191-1200 | while every entry that was listed for writing can be written at its turn, records are only of files once in storage |
| FilePublication.MarkComesFrom | src/serviceModules/FilePublicationCoordinator.ts:53-132 | a mark appears only by a new publication or by a move |
| FilePublication.RecordComesFrom | src/serviceModules/FilePublicationCoordinator.ts:53-132 | a record changes to what was reflected, what a publication began with or came to, or what was moved there, field by field |
| FilePublication.MarkIsRightlyRemoved | src/serviceModules/FilePublicationCoordinator.ts:53-132 | in every reachable state a mark leaves its path only by its own completion, because its target was seen while it was pending, by deletion of its document, along with its file, or for a new publication |
| FilePublication.LockedMarkStays | src/serviceModules/FilePublicationCoordinator.ts:24-26 | under the write lock of its path a mark changes by the holder only |
| FilePublication.RecheckedMarkIsSame | src/serviceModules/FilePublicationCoordinator.ts:97-101 | the re-checks of the token in recovery and move cannot fail |
| FilePublication.StepKeepsInv | src/serviceModules/FilePublicationCoordinator.ts:24-132 | every step, crash included, keeps locks exclusive and what each operation has read of the marks up to date |
| FilePublication.StepKeepsTokensUnique | src/serviceModules/FilePublicationCoordinator.ts:111-132 | no step but an interrupted move lets two paths share a mark beyond the move |
| FilePublication.NothingComesBack | src/serviceModules/FilePublicationCoordinator.ts:88-132 | in every run without an interrupted move a publication that is over is never marked again |
| FilePublication.ReportIsOfGap | src/serviceModules/FilePublicationCoordinator.ts:89-94 | a missing publication is reported only of a mark that was pending when its target was seen to be absent, and that is not over |
| FilePublication.NothingComesBackIff | src/serviceModules/FilePublicationCoordinator.ts:88-132 | with nothing under way, no uninterrupted run brings a finished publication back if and only if no two paths share a mark |
| FilePublication.InterruptedMoveReportsFalsely | src/serviceModules/FilePublicationCoordinator.ts:121-129 | a move that crashes between its two edits leads to a false report for the old path |
| FilePublication.MoveRuns | src/serviceModules/FilePublicationCoordinator.ts:111-132 | the steps of a move, run alone, come to moving the record, or to nothing where it throws |
| FilePublication.FilePublicationCoordinator.Reflect | src/serviceModules/FilePublicationCoordinator.ts:53-68 | the record says what was reflected, and keeps a mark if and only if it is of another token; no other record changes; without a token it is the step of the state machine |
| FilePublication.FilePublicationCoordinator.Delete | src/serviceModules/FilePublicationCoordinator.ts:70-75 | throws for an unreadable or marked record and otherwise deletes it |
| FilePublication.FilePublicationCoordinator.Begin | src/serviceModules/FilePublicationCoordinator.ts:77-86 | marks the path with a new token, keeps all else of an existing record and touches no other path |
| FilePublication.FilePublicationCoordinator.MissingPublication | src/serviceModules/FilePublicationCoordinator.ts:88-105 | run alone it comes to the steps of a recovery: it reports exactly a marked path without a file, and clears the mark of one with a file |
| FilePublication.FilePublicationCoordinator.DiscardForDatabaseDeletion | src/serviceModules/FilePublicationCoordinator.ts:107-109 | drops the record with its mark |
| FilePublication.FilePublicationCoordinator.Move | src/serviceModules/FilePublicationCoordinator.ts:111-132 | run alone it comes to the steps of a move; it throws if and only if a record cannot be read, a gap would be moved, or the target is marked |
| FilePublication.LocksAscend | src/serviceModules/FilePublicationCoordinator.ts:113-115 | sorted write locks first, a provenance lock inside: every operation takes its locks in one order |
| FilePublication.NoDeadlock | src/serviceModules/FilePublicationCoordinator.ts:38-51 | no circle of operations waits for itself |

## Left out

- `diff_match_patch`: an oracle whose diffs spell both texts in blocks of whole lines without two deletions in a row.
- The two loads and `JSON.parse` of the merges: revisions come parsed; the text of a merged object is not printed.
- ClashCheck.FindClash: paths are kept as sequences of keys; the code joins them by dots, so keys that contain dots can
  coincide (`JoinedClashIff` says that others cannot).
- ObjectMerge.CompatiblePatchesDoNotClash: `eq` stands for JavaScript's `==` between leaves, which also holds between some
  values of different types; the code compares arrays as JSON text, in which equal objects may list their keys in
  different orders and so differ.
- TwoPatches.NewSteps: an object patch that meets an array, and sets or deletes an index or the length of it, counts as
  throwing, and so does an array that meets an object with one of its indices for a key; the code carries most of these out.
- TwoPatches.EntriesFail: the same for a change of an object that meets an array in the object's place.
- ObjectMerge.MergeSucceedsIff, and all that is stated of two patches: such merges count as refused; and documents with a
  property `toString` anywhere are covered for one patch only (`PatchRoundTrip.PatchRoundTrip`,
  `ObjectMerge.MergeWithUnchangedSide`).
- Ids of array elements that are not strings: the code compares them loosely with the keys.
- The order of object keys, and the order of rebuilt arrays, which the model lists by ascending id.
- JSON values are values: `applyPatch` changes its argument in place, which shows only to holders of that argument.
- RevisionTrees.Branch: revision ids are a generation and a hash; the fallback generation of malformed ids is not modelled.
- RevisionTrees.AllChunks: a document that changes while its page is worked through is read as the page listed it.
- Byte order marks and replacement characters of the text reader, the async generator and base64 of binary chunks.
- ChunkReceipt.ScanPage: a page may be of any size; the limit of 256 changes is not enforced.
- The receipt store has one owner, and a database that is replaced gets an id never used before.
- FastFetch: stream decoding and progress reports; a sequence is a position in the feed.
- ReplicatorShim: the clock gives no time twice; live mode, the progress callback and `sortBySeq`.
- RpcRoom: stream ids are unique. At-most-once delivery is not claimed: a late duplicate can start a new buffer.
- DeliveryClaims: listeners do not throw; a stall limit of zero, which sets no timer, and finite replication activity.
- ChunkFetchers: the concurrency setting does not change during a run, requests only start from timers, and listeners do
  not call back into the fetcher.
- OfflineScanner: pairs run one at a time (they touch different keys), keys are not case-folded, a file handler that
  fails has changed nothing, the host's comparison of the two sides is a parameter, and the set of target files does
  not change; retry queues, early replication, folders in the place of files.
- OfflineScanner.Vault.SyncFile: storing a file replaces its entry; content that a store or a reflection preserves as a
  conflicted revision is not modelled as a conflict of the entry.
- OfflineScanner.DeletedFileStaysDeleted: a record that was never saved does not survive a crash, so it promises nothing then.
- FilePublication: publication, completion and discarding happen under the write lock of their path, as their callers do.
- FilePublication.FilePublicationCoordinator.Move: a failing store, and operations in between, are steps of the state
  machine; the methods of the class run alone and their store does not fail.
- The legacy splitters, encryption, hashing, settings, user interface, logging and the storage event manager.
