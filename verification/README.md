# FSX: crash-safe storage mutation, modelled and proved

FSX moves, shrinks and grows filesystems offline and promises that a crash at any moment loses
nothing. This project models the protocols behind that promise in Dafny and proves what they keep.

**Disks and crashes.** `Storage` is a map of durable cells with a list of pending writes. A flush
makes them durable; a crash resolves each written cell on its own to its old value, any value written
since the flush, or a torn value whose checksum fails. Devices record every medium they hold, so
"at every crash point" is a statement about every element of that trace. `CommitDisk` refines this
for the relocation commit: bitmap writes may land bit by bit, nodes and the superblock may tear.

**Relocation.** `ExtentTree` walks inode roots, index and leaf blocks as the program does, `TreeShape`
says which trees it accepts and what a file block then reads as.
`Relocation` states the invariant behind the commit: for some set of moves already switched, every
tree node is at its present place with its original entries redirected, present ranges are disjoint
and allocated, and data at both ends is what it was. `Commit` and `CommitRun` are the commit itself:
at every step the program sees every file whole, every crash image satisfies the invariant with at
most the one node written since the last flush torn, and the re-run starts from any of them. Devices
and journal remember whether a call failed, so "unless a device failed" is part of the contracts.
`Runs`, `Matching` and `Planner` are the allocation map, the geometry matcher and the owner planner,
ending in the counting argument that a completely covered plan empties the tail. `Example` is a small
plan that meets the hypotheses of the commit theorems, and of `UncheckedCommit`. `Staging` is the copying before the commit,
`StageRun` staging on disk and journal together, and staging followed by the commit. `FixedMetadata`
is what no relocation can move.

**Journal.** `Journal` and `JournalCodec` are the two alternating headers and the record list,
`Validate` the semantic pass with its declarative order, `History` the journals that
committing leaves, `Recovery` the rollback offer over whole runs with crashes.

**The rest.** `Resize` is the shrink finalizer and the same-group grow, `Gpt` the redundant partition
table, `Crc` the slicing CRC, `Endian`, `ImageCodec`, `Image` and `ImageWalk` the FSXIMG1 format,
`Fat` the windowed table reader, `Scheduler` the bounded I/O queue with all its threads, `Arithmetic`
and `Options` what they share.

Assumptions, each stated where it is used:

- A staged copy whose CRC equals the journalled one is the copy of its source (`Commit.Trusted`,
  `History.JournalTrusted`). `StageRun.ExactIsTrusted` derives this for a staging that ran from
  scratch; only a staging resumed over earlier copies, or copies changed since, needs it.
  A GPT entry array whose CRC equals the stored one is that array (`Gpt.Faithful`). `Crc` itself is exact.
- The commit starts from a filesystem whose trees scan and whose owned ranges are disjoint and
  allocated (`Relocation.Sound`). Safety needs no more; that every look-up succeeds also needs
  extents that are logically apart across leaves (`Commit.LogicallyApart`), because the scan compares
  logical order only inside one leaf.
- The free count of a group fits its descriptor field (`Resize.CountsFit`).
- Commands run one at a time, and a journal object is abandoned after any returned error.

Where text and code disagree: docs/SAFETY.md places the destination reservation before the copy;
the code copies during staging and reserves during the commit, and the model follows the code.

What turned out false of the code is stated as a lemma with the exact condition beside it:
`Journal.SecondCrashLosesCreated` and `AppendAtomicIff`, `History.LostSwitchRecord` and
`CommitCleanIff`, `Gpt.OddTableLost` and `SafeExactlyWhen`, `Resize.ShrinkThenGrow` (the reserved
count), `ImageWalk.OddSectorRefused` and `Image.CreatedHeader`, `CommitRun.LaggingDescriptor` and
`ResumeCommit`, `CommitRun.UncheckedCommit` and `CountsAtEnd`, `StageRun.NoIntentsRefused` and
`MatchJournal`, `Resize.InterruptedShrink`, `Scheduler.SecondStopReturnsEarly`
and `StopAgainLeavesNothingIff`, `Fat.StaleAfterFailure` with `FatStream.Get` and `StaleCanMislead`.

`dafny verify dfyconfig.toml` checks everything.

## Model

| member | source | states |
|---|---|---|
| `Crc.MakeTables` | src/core/crc.cpp:12-26 | every entry of the eight tables is its index clocked through the polynomial, row n after n further zero bytes |
| `Crc.Run` | src/core/crc.cpp:36-52 | slicing by eight equals the bit-at-a-time reflected CRC for every seed, polynomial and length |
| `Crc.SliceEight` | src/core/crc.cpp:41-47 | one eight-byte step of the fast loop is eight byte steps of the serial CRC |
| `Crc.TailByte` | src/core/crc.cpp:48-50 | one table look-up of the tail loop is eight serial bit steps |
| `Crc.SerialConcat` | src/core/crc.cpp:36-52 | the CRC of a concatenation is the CRC of the second part seeded with that of the first |
| `Crc.SerialLinear` | src/core/crc.cpp:41-47 | with the data fixed the serial CRC is linear in the seed, which is what table slicing relies on |
| `Crc.SerialPairLinear` | src/core/crc.cpp:36-52 | the serial CRC of combined seeds and combined data is the combination of the CRCs |
| `Crc.ChunkedCrc32c` | src/ext4/relocate.cpp:74-88 | reading in pieces of any sizes gives the CRC-32C of the whole, so staging and commit agree whatever their buffers |
| `Crc.CastagnoliCheckValue` | src/core/crc.cpp:28 | the CRC-32C of the digits 1 to 9 is the published check value E3069283 |
| `Crc.IeeeCheckValue` | src/core/crc.cpp:27 | the CRC-32 of the digits 1 to 9 is the published check value CBF43926 |
| `Journal.TransactionJournal.LoadStatus` | src/transaction/journal.cpp:258-314 | loading succeeds exactly when a valid newest header counts only valid contiguous records, and rebuilds the in-memory status |
| `Journal.LoadExactly` | src/transaction/journal.cpp:258-314 | loading gives a header and records exactly when the header's slot is not outranked, both slots are of one operation, and each counted cell holds its record with its number |
| `Journal.LastTransactionMeans` | src/transaction/journal.cpp:351-370 | the transaction number checkpoints carry is the largest among the records |
| `Journal.TransactionJournal.AppendBatch` | src/transaction/journal.cpp:318-350 | the media the device goes through, the new records, when it is full or read-only with no write in those cases, and an I/O error exactly when a device call failed |
| `Journal.TransactionJournal.WriteCheckpoint` | src/transaction/journal.cpp:351-370 | the media of the record append and of the phase header, the phase afterwards, and an I/O error exactly when a device call failed |
| `Journal.AppendAtomic` | src/transaction/journal.cpp:318-350 | a crash at any point of an append reloads as exactly the old or the new phase and records |
| `Journal.AppendCompletes` | src/transaction/journal.cpp:318-350 | a completed append loads as the old records followed by the batch |
| `Journal.UncoveredAppendLoses` | src/transaction/journal.cpp:339-340 | when the slot not written next does not repeat the current header, some crash of the append reloads as neither old nor new |
| `Journal.RunOrdered` | src/transaction/journal.cpp:222-370 | every image reachable from a created journal by operations, failures and crashes keeps its headers in order |
| `Journal.AppendAtomicIff` | src/transaction/journal.cpp:318-350 | on every image reachable from a created journal, an append is atomic against crashes if and only if the slot not written next repeats the current header |
| `Journal.CheckpointAtomic` | src/transaction/journal.cpp:351-370 | a crash in a checkpoint reloads as old, record added, or phase changed |
| `Journal.CheckpointCompletes` | src/transaction/journal.cpp:351-370 | a completed checkpoint loads with its record and the new phase |
| `Journal.SettledStep` | src/transaction/journal.cpp:318-370 | the newest header stays in the slot of its parity, and records are only added, whatever an operation leaves |
| `Journal.RunDurable` | src/transaction/journal.cpp:258-370 | over any run of operations, failures and crashes the journal loads and never loses a record |
| `Journal.AcknowledgedSurvives` | src/transaction/journal.cpp:318-350 | records of an acknowledged append are there after all later crashes |
| `Journal.CreatedIsCovered` | src/transaction/journal.cpp:222-228 | a new journal survives one crash although its newest header is in the wrong slot |
| `Journal.SecondCrashLosesCreated` | src/transaction/journal.cpp:224-226 | two crashes in a row right after creation can leave no readable header |
| `JournalCodec.HeaderRoundTrip` | src/transaction/journal.cpp:26-93 | every header that fits its fields decodes to itself, for any checksum |
| `JournalCodec.EncodedHeader` | src/transaction/journal.cpp:26-48 | each field of a written header is at its offset, unused bytes are zero, and the checksum is that of the first 4092 bytes |
| `JournalCodec.DecodedHeader` | src/transaction/journal.cpp:57-93 | bytes decode to a header exactly when its fields are at their offsets and the stored checksum is that of the first 4092 bytes |
| `JournalCodec.RecordRoundTrip` | src/transaction/journal.cpp:95-147 | every record that fits its fields decodes to itself, for any checksum |
| `JournalCodec.EncodedRecord` | src/transaction/journal.cpp:95-112 | each field of a written record is at its offset, unused bytes are zero, and the checksum is that of the first 124 bytes |
| `JournalCodec.DecodedRecord` | src/transaction/journal.cpp:114-147 | bytes decode to a record exactly when its fields are at their offsets and the stored checksum is that of the first 124 bytes |
| `JournalCodec.PublishedCodes` | include/fsx/journal.hpp:11-38 | the numbers of phases and record types |
| `Validate.IntentOf` | src/transaction/validate.cpp:75-95 | the first intent of a transaction, or none exactly when there is none |
| `Validate.Validator.Take` | src/transaction/validate.cpp:44-173 | one record adds an error exactly when it may not follow the records before it, and otherwise exactly the warnings those records call for |
| `Validate.ValidateJournal` | src/transaction/validate.cpp:32-195 | no errors exactly when every record may follow the earlier ones and a complete journal does not end dirty; a clean journal's warnings are counted exactly |
| `Validate.SeenMeans` | src/transaction/validate.cpp:176-182 | the closing checks can add nothing to a pass without errors |
| `Validate.FirstInOrder` | src/transaction/validate.cpp:75-100 | a transaction may begin exactly with a numbered intent of some length to another place |
| `Validate.LaterInOrder` | src/transaction/validate.cpp:97-160 | after its first intent a record is in order exactly when it keeps the geometry, switches or commits only a verified copy and releases only a switched owner |
| `Validate.StandaloneInOrder` | src/transaction/validate.cpp:44-70 | records of no transaction may come anywhere, checkpoints exactly with a phase from 1 to 11 |
| `History.CleanMeans` | src/transaction/validate.cpp:97-154 | in a clean journal a release follows its switch, a switch or commit follows a verified copy, and all follow an intent, with one geometry |
| `History.PrefixWellOrdered` | src/transaction/validate.cpp:44-173 | a clean journal cut short by a crash is still clean |
| `StageRun.MatchJournal` | src/ext4/relocate.cpp:370-399 | a resumed staging accepts a journal if and only if its intents are exactly those of the plan, and skips exactly the moves whose destination still has the checksum last recorded for it |
| `StageRun.NoIntentsRefused` | src/ext4/relocate.cpp:383-386 | a journal left by a crash before its intents were appended is refused, and stays as it is, so it is refused for ever |
| `StageRun.StageRelocation` | src/ext4/relocate.cpp:285-528 | staging on disk and journal together: every crash point keeps every file, the journal stays clean with checksums that are those of the sources, every copy recorded is durable, and completion ends in phase staged with all copies recorded; an empty plan is done before any check, each refusal has its exact condition, and apart from a cancelled copy it fails exactly when a device failed |
| `StageRun.StageBatch` | src/ext4/relocate.cpp:434-524 | copy, flush, read back, then record: whenever it returns, every copy it recorded is durable with its source's checksum; a failed or cancelled copy flushes nothing and attempts the paused checkpoint |
| `StageRun.ReadBack` | src/ext4/relocate.cpp:478-508 | the comparison agrees exactly when every destination reads back with the checksum of its copy |
| `StageRun.ExactIsTrusted` | src/ext4/relocate.cpp:434-524 | after a staging from scratch the journal can be trusted for any checksum function, with no assumption |
| `StageRun.StageThenCommit` | src/ext4/relocate.cpp:285-528 | staging then committing: no crash loses a file; unless cancelled or a device failed it completes with every owner moved, every block reading the same, and a clean journal |
| `Staging.CopyOne` | src/ext4/relocate.cpp:65-89 | copied: the destination holds the source's blocks, nothing else changes, and the checksum is that of the source; cancelled or failed: a prefix of them; an unwritten extent is left alone |
| `Staging.VerifyOne` | src/ext4/relocate.cpp:91-109 | the checksum of the destination as it reads back |
| `Staging.StagingCrashReads` | src/ext4/relocate.cpp:434-524 | on every crash image during staging each logical block of each inode reads as before |
| `Staging.CopyIsExact` | src/ext4/relocate.cpp:65-89 | a copied destination holds its source's contents and their checksum |
| `Staging.StagingInvisible` | src/ext4/relocate.cpp:434-524 | whatever part of staging reached the disk, every logical block of every inode reads the same and the plan still holds |
| `StageRun.ReadyToCommit` | src/ext4/relocate.cpp:525-528 | the staged filesystem meets every hypothesis of the commit, with nothing switched and a trusted journal |
| `History.VerifiedSums` | src/ext4/mutate.cpp:408-424 | accepts exactly the journals, ordered or not, whose last verified record of every move has its geometry, and returns those checksums |
| `History.CommitStaged` | src/ext4/mutate.cpp:403-568 | phase and journal refusals have their exact conditions and write nothing; no owner or bit is written unless metadata_finalize is in the journal; it breaks exactly when a device failed; completion finishes the plan, ends in phase compacted with every stage of every move recorded, marks clean honestly exactly when the counts come right, and leaves a clean journal exactly when it was clean and no switch record was lost; a cancelled run ends in phase metadata_paused |
| `History.MovesFit` | src/ext4/mutate.cpp:458-545 | the records of the first k moves are in order exactly when none of them was found switched without a record |
| `History.CommitCleanIff` | src/ext4/mutate.cpp:439-566 | a completed commit, first or resumed, leaves a clean journal exactly when every move found switched with its source still allocated had its switch recorded |
| `History.UninterruptedIsClean` | src/ext4/mutate.cpp:439-566 | a commit that finds nothing switched leaves a clean journal |
| `History.CommitLogged` | src/ext4/mutate.cpp:458-545 | the journal of a finished commit has every stage it did for every move, and that the move is committed |
| `History.FirstCommitQuiet` | src/ext4/mutate.cpp:439-566 | a commit from the staged state adds no record the validator warns about |
| `History.ShrinkKeepsClean` | src/ext4/resize.cpp:227-304 | the records of a finished shrink keep a clean journal clean and end with a clean filesystem in the phase of the header |
| `History.LostSwitchRecord` | src/ext4/mutate.cpp:509-535 | a crash between a durable switch and its record makes the resumed run finish with a journal the validator rejects |
| `History.SwitchThenCrash` | src/ext4/mutate.cpp:496-516 | that run itself: the switch as the commit does it, the crash before its record, and the commit again, which never completes with a clean journal |
| `Recovery.RollbackIsSafe` | src/transaction/recovery.cpp:13-68 | over every run of the journalled commands with crashes anywhere, an offered rollback means no owner and no bit has changed, and after the first change it is never offered again |
| `Recovery.InvariantStep` | src/ext4/mutate.cpp:403-448 | no step undoes a durable metadata_finalize, and metadata changes only behind one |
| `Recovery.PhaseAfterCut` | src/transaction/journal.cpp:351-370 | an interrupted journal operation leaves the old phase or the one it was writing |
| `Recovery.AssessMatchesCommands` | src/transaction/recovery.cpp:20-65 | rollback is offered exactly while staging may run, and each action names the command the phase admits |
| `Recovery.UnreadableNeedsReview` | src/transaction/recovery.cpp:15-18 | a journal without valid records or headers needs a person, and neither resuming nor rollback is offered |
| `Recovery.NoRollbackAfterCommit` | src/transaction/recovery.cpp:20-65 | once a commit has begun, paused or completed, no rollback is offered and the way is forward |
| `Recovery.CommandsAgree` | src/ext4/mutate.cpp:403-407 | the phases at which staging, commit and shrink start are those the commands themselves check |
| `ExtentTree.ParseContext.ParseNode` | src/ext4/extents.cpp:32-154 | the recursive walk over shared vectors and the visited set collects exactly the scan, or stops on the first violation |
| `ExtentTree.ScanTree` | src/ext4/extents.cpp:160-210 | the walk from an inode root equals the scan function |
| `TreeShape.ScansIffWellFormed` | src/ext4/extents.cpp:32-154 | the scan succeeds if and only if, along every path of entry indices, depths step down from at most 5, extents lie inside the filesystem and end where or before the next begins, keys ascend strictly and no block is reached twice; it visits exactly the blocks paths lead to |
| `TreeShape.ReadMeans` | src/ext4/extents.cpp:313-320 | a file block is unreadable exactly in an ill-formed tree, and a hole exactly when no extent of any leaf covers it |
| `TreeShape.ReadExtent` | src/ext4/extents.cpp:313-320 | otherwise it is the covering extent's block at the same distance, or zeros if that is unwritten |
| `ExtentTree.ScanNodeGathers` | src/ext4/extents.cpp:32-154 | everything collected comes from a node of the tree, with its container and entry index, and no block is visited twice |
| `ExtentTree.ScanNodeMoved` | src/ext4/extents.cpp:32-154 | a tree whose nodes were relocated and redirected scans to the relocated scan |
| `ExtentTree.PickExtent` | src/ext4/extents.cpp:313-320 | the search finds the covering extent with the least logical start, and none exactly when no extent covers the block |
| `ExtentTree.ReadPreserved` | src/ext4/extents.cpp:32-154 | if nodes and data are held at their present places every logical block reads the same |
| `Relocation.SafeReads` | src/ext4/mutate.cpp:458-545 | on every disk satisfying the invariant, each logical block of each inode reads as before the commit, or is unreadable because a node is torn |
| `Relocation.SafeInitially` | src/ext4/relocate.cpp:525-528 | the staged filesystem satisfies the invariant with no move switched |
| `Relocation.PresentApart` | src/ext4/mutate.cpp:458-545 | present ranges of different owners stay disjoint at every stage |
| `Relocation.ReserveSafe` | src/ext4/mutate.cpp:487-498 | reserving any part of a destination keeps the invariant |
| `Relocation.ReleaseSafe` | src/ext4/mutate.cpp:519-533 | releasing any part of a switched source keeps the invariant |
| `Relocation.CopySafe` | src/ext4/mutate.cpp:314-339 | re-copying a tree block to its unused destination keeps the invariant |
| `Relocation.DamageSafe` | src/ext4/mutate.cpp:180-306 | the present node of a tree, torn while its owner entry is rewritten, leaves the rest of the invariant standing |
| `Relocation.SwitchSafe` | src/ext4/mutate.cpp:180-306 | redirecting the one entry that refers to a source, when its copy is ready, keeps the invariant with that move switched |
| `CommitDisk.BitsGuarded` | src/ext4/mutate.cpp:75-136 | every mixture of old and new bits of a pending bitmap write is acceptable |
| `CommitDisk.NodeGuarded` | src/ext4/mutate.cpp:180-339 | while a node write is pending, old, new and torn node are acceptable, and no other node is torn |
| `CommitDisk.SuperGuarded` | src/ext4/mutate.cpp:166-178 | a pending clean mark is acceptable only with agreeing counts |
| `Commit.SetRange` | src/ext4/mutate.cpp:117-136 | the group loop sets or clears exactly the range and makes the touched groups, and no others, agree with their descriptors; refused exactly when a touched group's bitmap does not belong to its descriptor; it fails exactly when the device did |
| `Commit.SetGroup` | src/ext4/mutate.cpp:75-115 | refused without a write exactly when bitmap and descriptor do not belong together; otherwise one group's bits, free count and checksum change together, every intermediate disk acceptable |
| `Commit.FindOwner` | src/ext4/mutate.cpp:230-253 | the re-scan finds where the owner of a move refers to now |
| `Commit.LookupFinds` | src/ext4/mutate.cpp:230-253 | on every safe disk that is the source before the switch and the destination after it, in the moved container, when extents are logically apart |
| `Commit.LookupSound` | src/ext4/mutate.cpp:230-253 | even if extents overlap logically, whatever the look-up names as source or destination of a move is that move's owner entry |
| `Commit.UpdateOwner` | src/ext4/mutate.cpp:180-306 | the owner's entry, wherever its node now lives, is switched and nothing else changes, with every crash point acceptable; it fails exactly when the device did |
| `Commit.SwitchOwner` | src/ext4/mutate.cpp:496-512 | a stale copy is refused before any write; otherwise the copy is checked or renewed and the owner switched |
| `Commit.RefreshCopy` | src/ext4/mutate.cpp:314-339 | the tree block's copy equals its current content, with all crash points acceptable; it fails exactly when the device did |
| `Commit.CommitMove` | src/ext4/mutate.cpp:458-545 | from any stage an earlier run left, one iteration ends switched, reserved and released; it refuses only an ambiguous look-up, a half-done range, a stale copy or an unsealed bitmap, fails only with a device, and completing shows that none of the last three was there; however it ends, each record it appended is already true of the durable disk |
| `Commit.RecordCarries` | src/ext4/mutate.cpp:341-352 | the record of a move carries its number, both places, length, inode, file block and kind |
| `Commit.SortMoves` | src/ext4/mutate.cpp:450-457 | a permutation with data extents first by transaction, then tree blocks by ascending depth |
| `Planner.ReferredFirst` | src/ext4/mutate.cpp:450-457 | in that order whatever a planned tree block refers to is switched before the block itself moves |
| `Commit.AllDone` | src/ext4/mutate.cpp:546-566 | when every move is done the allocation is the old one with sources freed and destinations taken |
| `CommitRun.MarkState` | src/ext4/mutate.cpp:166-178 | the superblock state changes alone, no crash loses a file, and a clean mark is honest if the counts agree |
| `CommitRun.CommitMoves` | src/ext4/mutate.cpp:458-545 | all moves in order: every crash point acceptable; exactly the groups with stages left are rewritten; each refusal is explained by what the run found, a break exactly by a device failure |
| `CommitRun.CommitPlan` | src/ext4/mutate.cpp:439-566 | the whole commit: at every step the program sees every file whole and no crash image loses more than a torn node; owners and bits change only behind metadata_finalize; completion leaves owners at destinations, sources free, phase compacted last in the journal with the filesystem state it left, and counts that agree exactly when they could be told to come right; a cancelled run leaves phase metadata_paused; every other end is explained |
| `CommitRun.CountsAtEnd` | src/ext4/mutate.cpp:547-554 | the counts agree after the moves exactly when the superblock count was that of the start and every group agreed or had a stage left to do |
| `CommitRun.UncheckedCommit` | src/ext4/mutate.cpp:547-561 | without the final check, on counters that do not come right, nothing stops the commit and it marks a filesystem with wrong counts clean |
| `CommitRun.LaggingDescriptor` | src/ext4/mutate.cpp:81-135 | a crash that keeps a reserved bitmap and loses its descriptor leaves the move at a stage boundary, and yet no later run can complete |
| `CommitRun.ResumeCommit` | src/ext4/mutate.cpp:439-566 | re-run on what a crash left: it completes only if every move is at a stage boundary with a fresh copy and sealed bitmaps and the counts come right, and then, with logically separate extents, it does unless cancelled or a device fails; completion leaves every logical block as at the start |
| `CommitRun.RelocationConservesFree` | src/ext4/mutate.cpp:117-136 | a finished relocation has as many free blocks as before it |
| `CommitRun.AcceptableReads` | src/ext4/mutate.cpp:439-566 | on every crash image all inodes but at most one read exactly as before; that one reads the same or is refused by the scan |
| `CommitRun.ViewReads` | src/ext4/mutate.cpp:439-566 | at every step of the commit each logical block, read by the program itself, is what it was before |
| `CommitRun.ReadableIsUndamaged` | src/ext4/extents.cpp:32-154 | a crash image on which every inode scans has no torn tree node |
| `Runs.BuildAllocationGraph` | src/ext4/allocation.cpp:74-128 | a sorted, disjoint, maximal run encoding of the group bitmaps over exactly the data blocks, with the count of each kind |
| `Runs.RunEncoder.Take` | src/ext4/allocation.cpp:95-115 | one bit extends the open run or closes it and opens the next |
| `Runs.GroupsTile` | src/ext4/internal.cpp:111-121 | group starts and counts cover the data blocks without gap or overlap |
| `Runs.AppendEncodes` | src/ext4/allocation.cpp:11-15 | appending a run extends the encoding by exactly its blocks |
| `Runs.FullyAllocated` | src/ext4/relocate.cpp:121-138 | binary search and forward walk answer whether every block of the range is covered, with 64-bit overflow |
| `Runs.CountOverlaps` | src/ext4/verify.cpp:46-60 | zero exactly when the ranges are pairwise disjoint, in any order |
| `Runs.ValidateOwnerRanges` | src/ext4/relocate.cpp:140-166 | comparing sorted neighbours accepts exactly the pairwise disjoint ranges |
| `Runs.OverlapsAny` | src/ext4/verify.cpp:62-69 | on disjoint sorted ranges one binary search equals looking at all of them |
| `Runs.MeetsShares` | src/ext4/verify.cpp:56 | nonempty ranges meet exactly when they share a block |
| `Matching.CountsMatchRuns` | src/ext4/allocation.cpp:113-114 | the block counters are the total lengths of the runs |
| `Matching.MatchExtents` | src/ext4/allocation.cpp:173-199 | read as lists of blocks, the moves lay all sources in order against the first destinations, in at most one move per source and destination, never exhausted when capacity suffices |
| `Matching.BuildGeometry` | src/ext4/allocation.cpp:133-201 | each allocated block above the target is moved exactly once to distinct free blocks below it, and capacity is judged on the exact block counts |
| `Matching.NotExhausted` | src/ext4/allocation.cpp:182-185 | the exhausted error is unreachable while the destinations hold as many blocks as the sources |
| `Matching.BlocksPermuted` | src/ext4/allocation.cpp:159-160 | sorting the runs does not change the blocks they stand for |
| `Planner.FindBest` | src/ext4/relocate.cpp:24-34 | the first of the shortest slots that are long enough |
| `Planner.FreeList.Allocate` | src/ext4/relocate.cpp:23-41 | fails exactly when no slot is long enough; otherwise hands out the start of a least-waste slot and keeps exactly the other free blocks |
| `Planner.PlaceAll` | src/ext4/relocate.cpp:234-269 | owners are placed in order until one fits no slot; free blocks before are the placed ones and those left |
| `Planner.BuildOwnerPlan` | src/ext4/relocate.cpp:183-282 | refused exactly when retained owners overlap or fixed metadata is not allocated; otherwise moves follow the owners, longest data first and then tree blocks, to distinct free blocks below the target until one fits no block run left over, and coverage is complete exactly when owners and fixed metadata account for every allocated block above it |
| `Planner.FixedAllocated` | src/ext4/relocate.cpp:193-210 | accepts exactly when every bitmap and inode table block is covered by the allocated runs |
| `FixedMetadata.OverlapIsCard` | src/ext4/resize.cpp:167-171 | the overlap of a table with the tail is the number of blocks they share |
| `FixedMetadata.CountFixed` | src/ext4/resize.cpp:156-171 | the group loop counts zero exactly when no bitmap or inode table block lies in the tail |
| `Planner.PlanIsPlanned` | src/ext4/relocate.cpp:220-269 | on a sound filesystem a built plan meets every hypothesis of the commit theorems |
| `Planner.TailCovered` | src/ext4/relocate.cpp:271-281 | disjoint allocated ranges that count for the whole tail contain every allocated block of it |
| `Planner.PlanEmptiesTail` | src/ext4/relocate.cpp:271-282 | once all moves of a completely covered plan are done no block at or above the target is allocated |
| `Planner.CompletePlanReadiesShrink` | src/ext4/resize.cpp:149-154 | from such a plan to the shrink check: after the relocation it sees an empty tail |
| `Planner.AllocatedTail` | src/ext4/resize.cpp:150-155 | the sum over runs is the number of allocated blocks at or above the target |
| `Planner.ShrinkSeesEmptyTail` | src/ext4/resize.cpp:149-155 | no tail is counted exactly when no block there is allocated |
| `History.PlannedIsIdentified` | src/ext4/relocate.cpp:241-267 | planned moves have distinct nonzero transaction numbers, a length and another place to go |
| `Resize.MarkTail` | src/ext4/resize.cpp:251-260 | the tail bits are set in place, refused exactly when one was already set |
| `Resize.ClearRange` | src/ext4/resize.cpp:405 | the bits of the range are cleared in place and no others |
| `Resize.ShrinkAgrees` | src/ext4/resize.cpp:261-288 | with agreeing counts and a clear tail the "corrupt" branches cannot be taken and the counts agree afterwards |
| `Resize.ShrunkMeans` | src/ext4/resize.cpp:251-297 | bit by bit and count by count what a shrink leaves; a reserved count above the target becomes a twentieth of it |
| `Resize.GrowAgrees` | src/ext4/resize.cpp:399-425 | growing over unavailable bits keeps the counts equal to the clear bits |
| `Resize.GrownMeans` | src/ext4/resize.cpp:399-425 | bit by bit and count by count what growing leaves |
| `Resize.ShrinkThenGrow` | src/ext4/resize.cpp:183-453 | bitmap, block count and free counts come back exactly, and the reserved count exactly when it fitted the smaller size |
| `Resize.GrowThenShrink` | src/ext4/resize.cpp:183-453 | shrinking after growing gives the filesystem back, the reserved count exactly when it fitted |
| `Resize.WriteSuperCopies` | src/ext4/resize.cpp:61-80 | afterwards primary and every backup hold the new superblock and nothing else changed; a clean one is never visible without agreeing counts; it fails exactly when the device did |
| `Resize.WriteGroup` | src/ext4/resize.cpp:269-276 | afterwards the descriptor and every backup of it hold the new count; bitmap and descriptors reach the disk only behind a durable dirty mark; it fails exactly when the device did |
| `Resize.FinalizeShrink` | src/ext4/resize.cpp:183-311 | at every crash point a clean superblock implies agreeing counts; not ready exactly when an allocated or fixed block is in the tail or the target leaves the group, wrong phase exactly outside compacted and staged, failed exactly with a device, and never corrupt; bitmap and descriptor are written only once metadata_finalize is in the journal; done leaves exactly the shrunk filesystem with every superblock and descriptor backup, and is recorded only then |
| `Resize.InterruptedShrink` | src/ext4/resize.cpp:219-260 | after a crash in the group update the readiness check passes exactly when the shrunk bitmap has not landed, and the journal's phase admits no second run |
| `Resize.GrowWithinGroup` | src/ext4/resize.cpp:313-453 | the same for growing, backups included; refused without a write exactly when the range, the state, the bits or fixed metadata forbid it, failed exactly when the device did |
| `Resize.IsPower` | src/ext4/resize.cpp:19-23 | repeated division decides whether a number is a power of the base |
| `Resize.GroupHasSuper` | src/ext4/resize.cpp:24-36 | which groups hold a superblock backup under the three layouts |
| `Gpt.SideValidIff` | src/partition/gpt.cpp:78-135 | a side is accepted exactly when its header names itself and another sector, header and array lie on the disk outside the usable area, the array is just long enough and has the stored checksum |
| `Gpt.SideFails` | src/partition/gpt.cpp:78-135 | a header that is there but unsound is an error, one whose array does not check is merely no side |
| `Gpt.TableExactly` | src/partition/gpt.cpp:363-409 | case by case: an error, no valid side or refused entries give no table; two valid sides give one exactly when all shared fields agree and each names the other; one valid side is believed |
| `Gpt.WritePair` | src/partition/gpt.cpp:299-339 | every medium the disk goes through is backup writes on the old disk, primary writes on the new backup, or the finished pair; it fails exactly when the disk is too small or the device failed |
| `Gpt.HeadersPlaced` | src/partition/gpt.cpp:276-325 | the written headers carry the fields of the table started from and name each other; the backup array ends before the last sector, the primary array below the usable area |
| `Gpt.SplitBrainReported` | src/partition/gpt.cpp:393-396 | a power cut between the two flushes with a changed table reads as no table |
| `Gpt.TornPrimaryFallsBack` | src/partition/gpt.cpp:397 | a torn primary header that reads as no header falls back to the new table |
| `Gpt.CrashLeavesSide` | src/partition/gpt.cpp:326-338 | from a valid primary apart from the backup sectors, with a usable area below the new backup array, every crash image holds a complete old primary or new backup |
| `Gpt.NeverMixed` | src/partition/gpt.cpp:368-406 | after a crash anywhere reading yields the old table, the new table or an error, wherever the usable area ends |
| `Gpt.CompletedReads` | src/partition/gpt.cpp:340-346 | after completion with room for the primary array the new table is read exactly when the usable area ends below the backup array, and otherwise nothing is |
| `Gpt.SafeExactlyWhen` | src/partition/gpt.cpp:299-339 | from any side the reader accepts, a complete side survives every crash exactly when the starting primary is valid, its array does not reach the backup sectors, and the usable area ends below the new backup array |
| `Gpt.OddTableLost` | src/partition/gpt.cpp:299-339 | a valid table with usable sectors 34 to 980 of 1000 that a crash of the rewrite loses |
| `Gpt.HeadersAccepted` | src/partition/gpt.cpp:276-297 | each written header passes the reader's checks exactly when its array leaves the usable area alone |
| `Gpt.FinishedSides` | src/partition/gpt.cpp:276-339 | after completion each side reads back as the table when it is sound and as an error when it is not |
| `Scheduler.SharedQueue.Offer` | src/io/scheduler.cpp:105-112 | accepted, rejected or made to wait, with the queue grown exactly when accepted |
| `Scheduler.SharedQueue.Take` | src/io/scheduler.cpp:174-182 | takes the oldest task, sleeps, or leaves exactly when stopping with an empty queue |
| `Scheduler.SharedQueue.Finish` | src/io/scheduler.cpp:190-194 | drains are woken exactly when queue and workers are idle |
| `Scheduler.SharedQueue.constructor` | src/io/scheduler.cpp:94-99 | at least one worker and a depth no smaller than the workers |
| `Scheduler.InvStep` | src/io/scheduler.cpp:105-213 | every step of every thread keeps the bound, the order, the tickets, the wakeup counts and the order of a stop |
| `Scheduler.EveryInterleaving` | src/io/scheduler.cpp:105-213 | in every interleaving: bounded queue, first in first out, each task in one place, and a nonempty queue has a worker awake |
| `Scheduler.StepMonotone` | src/io/scheduler.cpp:171-196 | tasks become finished one at a time, by the worker that held them |
| `Scheduler.NothingLeftAfterStop` | src/io/scheduler.cpp:203-213 | when the stop that set the flag returns every accepted task has run |
| `Scheduler.DrainReturnsIdle` | src/io/scheduler.cpp:198-201 | drain returns only when everything accepted so far has finished |
| `Scheduler.InternalWorks` | src/io/scheduler.cpp:105-213 | every step a thread takes on its own decreases a measure |
| `Scheduler.BoundedProgress` | src/io/scheduler.cpp:105-213 | so without new calls no run goes on for ever |
| `Scheduler.QuietMeansDone` | src/io/scheduler.cpp:105-213 | where it ends nothing is stuck: no task, no waiting producer, no waiting drain, no half-done stop |
| `Scheduler.SecondStopReturnsEarly` | src/io/scheduler.cpp:206 | a second concurrent stop can return while an accepted task is still queued |
| `Scheduler.StopAgainLeavesNothingIff` | src/io/scheduler.cpp:203-213 | over every run, a second stop returns with nothing unfinished exactly when the queue is empty and no worker is active at that moment |
| `ImageCodec.HeaderRoundTrip` | src/ops/image.cpp:146-227 | a header reads back, refused exactly for its geometry or chunk count |
| `ImageCodec.RecordRoundTrip` | src/ops/image.cpp:161-273 | every record reads back |
| `ImageCodec.FooterRoundTrip` | src/ops/image.cpp:180-293 | a footer reads back, refused exactly when its totals do not add up |
| `ImageCodec.MadeHeader` | src/ops/image.cpp:146-159 | each field of a header is at its offset, unused bytes are zero, and the checksum is that of all bytes with its own field clear |
| `ImageCodec.MadeRecord` | src/ops/image.cpp:161-179 | the same for a record |
| `ImageCodec.MadeFooter` | src/ops/image.cpp:180-191 | the same for a footer |
| `ImageCodec.ParsedHeader` | src/ops/image.cpp:195-227 | bytes parse to a header exactly when its fields are at their offsets, the checksum matches, and the geometry is whole sectors, whole chunks and just enough of them |
| `ImageCodec.DecodedRecord` | src/ops/image.cpp:238-252 | bytes decode to a record exactly when its fields are at their offsets and the checksum matches |
| `ImageCodec.CheckedRecord` | src/ops/image.cpp:238-273 | a record is accepted at its place exactly when it describes that chunk of the source, stored whole or elided |
| `ImageCodec.ParsedFooter` | src/ops/image.cpp:275-293 | bytes parse to a footer exactly when its fields are at their offsets, the checksum matches, and the totals add up |
| `Endian.LEByte` | include/fsx/endian.hpp:8-39 | byte k of a stored number is its k-th digit to base 256 |
| `Endian.Sealed` | src/ops/image.cpp:156-157 | storing the checksum in its field changes nothing else, and clearing it gives back what was summed |
| `Image.AllZero` | src/ops/image.cpp:133-144 | the word-at-a-time scan answers whether every byte is zero |
| `Image.ChunkEdges` | src/ops/image.cpp:420-450 | the chunks tile the source without 64-bit overflow |
| `Image.Create` | src/ops/image.cpp:367-479 | writes exactly the image of the source with its totals, and refuses exactly the bad options |
| `Image.RecordMeans` | src/ops/image.cpp:420-450 | each record gives its chunk's place, length and checksum, and is elided exactly when asked for and every byte is zero |
| `ImageWalk.PartialRefused` | src/ops/image.cpp:414-466 | until the header is completed last, no reader takes the file for an image |
| `Image.ParsedTiles` | src/ops/image.cpp:238-273 | records that parse in sequence tile the source range |
| `Image.CreatedHeader` | src/ops/image.cpp:215-220 | create's header is accepted exactly when the sector size is a power of two in range |
| `ImageWalk.WalkImage` | src/ops/image.cpp:313-363 | accepts exactly the images whose header is complete, whose records lie one after another with matching payloads, whose footer counts them and after which nothing follows, unless cancelled; create's output exactly for an acceptable sector size; the accounting overflow is unreachable |
| `ImageWalk.Restore` | src/ops/image.cpp:495-613 | bytes past the source are untouched, a refusal before writing touches nothing, and success leaves the image's content, for a created image the source itself |
| `ImageWalk.CreatedContent` | src/ops/image.cpp:425-458 | the content of a created image is the source |
| `ImageWalk.ReadBack` | src/ops/image.cpp:571-611 | the read-back pass finds a mismatch exactly when some chunk of the target is not zero or lacks its checksum |
| `ImageWalk.OddSectorRefused` | src/ops/image.cpp:373-379 | a source with 768-byte sectors can be imaged and never read back |
| `Fat.DecodeIsEntry` | src/fs/fat.cpp:135-150 | the bytes at an entry's offset decode to that digit of the table read as one number, for 12, 16 and 32 bits |
| `Fat.WindowHolds` | src/fs/fat.cpp:127-134 | a refilled window contains the whole entry even across its 4 MiB edge |
| `Fat.FatStream.Get` | src/fs/fat.cpp:120-151 | the entry itself unless it answers from a window whose read failed, an error exactly when its own read fails, the end exactly past the table |
| `Fat.CheckReferences` | src/fs/fat.cpp:207-229 | counts exactly the clusters whose entry is 1 or lies between the last cluster and the bad mark; it fails only at a cluster whose read failed, with those before it counted |
| `Fat.NeverEnds` | src/fs/fat.cpp:106-110 | with the capacity check no lookup of the check runs off the table |
| `Fat.CompareCopies` | src/fs/fat.cpp:231-256 | no mismatch is counted exactly when every copy equals the first |
| `Fat.StaleAfterFailure` | src/fs/fat.cpp:129-133 | on a stream whose first read failed the next lookup answers 0 where the entry is 5 |
| `Fat.StaleCanMislead` | src/fs/fat.cpp:127-150 | for every table and entry some content of such a window gives a wrong answer, so the condition on the window is exact |

## Left out

- Byte offsets and capacity fields of ext4 structures (src/ext4/metadata.cpp): nodes, descriptors and superblocks are typed values that are valid or torn, and a descriptor holds the checksum of its bitmap under any checksum function.
- Real devices, file names, publication by rename, offline checks, cancellation signals: an abstract device whose calls may fail and a cancel choice at each loop head.
- The SSE4.2 path of src/core/crc.cpp, whose intrinsics cannot be seen.
- The order of equal elements in std::sort calls that are not stable: the model fixes one order, and the claims proved do not depend on it.
- The groupless block 0 of 1 KiB-block filesystems in verify_metadata (src/ext4/metadata.cpp).
- resize_partition and repair_redundancy before they call write_pair, and the contents of validate_entries (src/partition/gpt.cpp): the latter is a parameter of `Gpt.ReadTable`.
- Gpt.ReadTable: the protective MBR flag and the checksum flags of the returned table are not part of the content compared.
- ImageWalk.Restore: does not model a target device that loses or corrupts an acknowledged write, so its read-back pass never finds anything.
- ExtentTree.PickExtent: among overlapping extents with equal logical starts the model takes the first scanned, where the program's sort may order them either way.
- Validate.Validator.Take: the warnings of a journal that also has errors are not specified.
- StageRun.StageBatch: the copies of one batch run on a worker pool in the program; the model makes them one after another, and their ranges do not meet.
- StageRun.StageRelocation: the comparison of the journal's identity with the filesystem, and the capacity of a new journal, are not modelled.
- Recovery.RollbackIsSafe: covers the journalled commands; growing in place uses no journal and is not part of a run. The machine's rule that metadata changes only behind metadata_finalize is proved of the code in `History.CommitStaged` and `Resize.FinalizeShrink`, over a journal that is the list of its records; its own journal is the header slots of `Journal`.
- Scheduler.EveryInterleaving: the moments of thread creation and the I/O statistics counters are not modelled, and a task that throws counts as finished, as in the code.
- Report structures (StageReport, CommitReport, DeepIntegrityReport and the like): their counters are not modelled.
- Command line, progress display, size parsing, benchmarks, clone, scrub, MBR, and the other filesystem probes, which would add only easy members.
