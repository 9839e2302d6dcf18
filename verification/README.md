# Naiad: a verified model of its core

This project models six parts of Naiad in Dafny and proves what they promise. `dafny verify dfyconfig.toml` checks it.

| files | part of Naiad |
|---|---|
| `Hashes.dfy`, `Buckets.dfy`, `BucketBits.dfy` | 256-bit hashes, their hex form, and the prefix buckets that hide which hash is asked for |
| `Siblings.dfy`, `Relations.dfy`, `MatchSets.dfy` | aliases, implications, the tag search that inverts them, the precomputed relation index |
| `Pull.dfy`, `PullRuns.dfy`, `PullRecovery.dfy`, `PullOverlap.dfy`, `PullCode.dfy`, `PullSteps.dfy` | mirroring a remote store incrementally through buckets |
| `TagLane.dfy`, `StartupGate.dfy` | the cancellable query lane and the one-shot gate, as interleaved atomic steps |
| `Tags.dfy`, `Patterns.dfy`, `TagTexts.dfy`, `SystemPredicates.dfy`, `SystemTexts.dfy` | tag, wildcard and metadata syntax |
| `Queries.dfy`, `QueryTokens.dfy`, `QueryTerms.dfy`, `QueryConcat.dfy`, `QueryLaws.dfy` | query syntax |
| `Imports.dfy`, `ImportSink.dfy` | the buffering import sink over batch transactions |
| `Calendar.dfy` | dates from day counts |
| `Basics.dfy`, `Ordering.dfy` | results, powers of two, byte-wise string order, sorted lists |

Code that changes things step by step is modelled by methods with loops, arrays and classes, each proved against a
specification function; the laws are lemmas about those functions. The two concurrent components are state machines whose
steps are the atomic operations of the source; any request, canceller, firer or waiter may take the next step.

## How the pull is modelled

A store holds one row a pair of hash and tag, stamped with the sequence number of its last change. A client owns files in id
order and keeps a mirror, a cursor and a file marker. `Pull` says what one locked read plans, what a server answers and what
one locked merge does. `PullCode` carries a pull out: the server's range scan, the chunked fetch that keeps the lowest cursor,
the library's loops, and `pull_domain_delta` with its retry. `PullRuns` interleaves imports, store changes, re-seeds, restarts,
the steps of one delta pull (every chunk may see a different version of the store) and any number of file pulls;
`PullRecovery` and `PullOverlap` are about such runs. `PullSteps` shows that whatever `PullCode.PullDomainDelta` does to the
library, some run does, so that what holds of every run holds of it.

The database, the server's read and the wire are stated where they are used: a delta answer is exactly the rows of each bucket
newer than that bucket's `since` (`Pull.Received`), a merge clears the ranges of full buckets and applies each change to owned
files (`Pull.MergeDelta`), a file merge replaces the tags of one file (`Pull.MergeFile`). A pull of several files is several
file pulls that happen to read and write together.

Three results are about what the code does not promise.

* A file pull and a delta pull may overlap, since the daemon has no lock across a fetch, and a file pull is written without any
  check of what has happened since it read. `PullOverlap.FileWriteExact` says exactly when a write is harmless: the store still
  has, up to the stored cursor, the tags that were read. `PullRuns.AlwaysSyncedIff` says that a run without re-seeds keeps the
  mirror in step throughout if and only if all its file writes are.
  `PullOverlap.OverlapBringsBack` is a run with a harmful write: a deletion is merged by a delta pull between the read and the
  write, which brings the pair back while the stored cursor has passed the deletion, so no later incremental pull of that bucket
  repairs it. `PullOverlap.ReadOutlivesReseed` is another: the store is re-seeded between the read and the write, and the write
  puts the old store's pair in the place of the new one's, though the cursor has not passed the version read.
  What could the daemon test? If it knows that the store was not re-seeded since the read, comparing the stored cursor with the
  version read is the exact guard (`PullOverlap.UpToDateIsTheGuard`); if it does not, nothing is, short of a write that changes
  nothing (`PullOverlap.OnlyNoChangeIsSafe`). So `PullRuns.MirrorStaysInStep` holds on every run without re-seeds in which no
  written file pull has been overtaken, and `PullRuns.ApartStaysInStep` on every run without re-seeds and overlap. Runs with
  re-seeds come back in step with the recovering pull (`PullRecovery.LowCursorThenInStep`,
  `PullRecovery.GenerationChangeThenInStep`).
* A re-seed seen as a changed generation is repaired by the next pull that completes, however many fail before it, since the
  cursors are forgotten first (`PullRecovery.GenerationChangeRecovers`). A re-seed seen as a low cursor is repaired when the
  pull that saw it completes (`PullRecovery.LowCursorRecovers`). If that pull is given up while it asks again, the stored cursor
  stays, and once the new store has grown as far the next pull is incremental and keeps the old store's pairs:
  `PullRecovery.GivingUpLosesTheSign` is such a run.
  `PullRecovery.NextMergeRepairsIff` gives the exact condition after any history: the completing pull's own first reply was
  behind the stored cursor, or its locked read asked for the file's bucket from the start (no marker, no cursor above 0, or a
  file past the marker in that bucket).
* Parsing a concatenation of token lists is not always the concatenation of the parses, errors included. The law fails when an
  `or` at the seam follows a tag or a group that it can continue, unless what comes next makes it a dangling `or` all the same
  (nothing, another `or`, a dash, or a member in tokens that are a dangling `or` themselves); and when an `or` that starts the
  second list follows a lone last term that is read otherwise, or refused for another reason, because of it.
  `QueryConcat.QueryOfConcatIff` says that it fails in no other case. If the second list parses, it fails exactly
  when the first is a list that parses and ends with a tag or a group, then `or`, and the second does not start with a dash
  (`QueryConcat.ParsedContinuation`). A list that parses never ends in `or`, so it can be continued by anything that does not
  start with `or` (`QueryConcat.ParsesConcatenate`).

## Model

| member | source | states |
|---|---|---|
| `Hashes.ToHex` | crates/core/src/hash.rs:32-41 | the nibble loop prints exactly the big-endian hex form |
| `Hashes.HexOrder` | crates/core/src/hash.rs:32-41 | printing preserves order: the string order of two hashes of equal length is the order of their numbers |
| `Hashes.HexInjective` | crates/core/src/hash.rs:32-41 | two byte strings of one length with the same hex are equal |
| `Hashes.HexBelowSentinel` | crates/core/src/bucket.rs:40-46 | every printed hash is below the sentinel `g` |
| `Hashes.FromStr` | crates/core/src/hash.rs:55-81 | the byte-filling loop accepts exactly 64 hex digits of either case and yields the bytes they spell |
| `Hashes.HexRoundTrip` | crates/core/src/hash.rs:32-81 | parsing a printed hash gives it back |
| `Hashes.ParseThenPrint` | crates/core/src/hash.rs:55-81 | printing a parsed text gives its lower-case form |
| `Hashes.RejectedSpellsNothing` | crates/core/src/hash.rs:55-81 | a rejected text is not the hex of any hash in any case |
| `Buckets.MaskBytes` | crates/core/src/bucket.rs:11-32 | zeroing bytes and masking one of them is rounding the 256-bit number down to a multiple of 2^(256-bits), at every width including 0 and over 256 |
| `Buckets.ComputeBucketKey` | crates/core/src/bucket.rs:35-37 | the key is the printed rounded-down hash |
| `Buckets.PropagateCarry` | crates/core/src/bucket.rs:46-67 | the carry loop adds exactly what is owed: the bytes and the carry that falls off the top make up the whole sum |
| `Buckets.ComputeBucketUpper` | crates/core/src/bucket.rs:46-67 | the upper bound is the printed start of the next block, or the sentinel when there is none |
| `Buckets.RangeIsBucket` | crates/core/src/bucket.rs:35-67 | a hash shares a bucket key with `lo` if and only if it lies between key and upper bound in string order, sentinel included, at every width |
| `Buckets.UpperIsKey` | crates/core/src/bucket.rs:46-67 | an upper bound that is not the sentinel is the key of the next bucket |
| `Buckets.NoKeyBetween` | crates/core/src/bucket.rs:46-67 | no bucket key lies strictly between a key and its upper bound: buckets of one width tile the space |
| `Buckets.KeyReparses` | crates/daemon/src/ops.rs:2107-2118 | a printed key parses, and re-bucketing it gives the same key and the same upper bound |
| `Buckets.WidthsNest` | crates/core/src/bucket.rs:11-37 | re-bucketing at a coarser or equal width gives the original hash's key there |
| `Buckets.CoarserBucketsContain` | crates/core/src/bucket.rs:11-37 | hashes that share a bucket share every coarser one |
| `BucketBits.MaskedBit` | crates/core/src/bucket.rs:11-32 | masking keeps the leading bits, as many as the width, and clears the others |
| `BucketBits.SameBucketIffBitsAgree` | crates/core/src/bucket.rs:11-37 | two hashes have the same key at a width if and only if their first bits agree, as many as the width |
| `Siblings.Canonicalize` | crates/core/src/relations.rs:26-39 | the walk with a visited set ends on every sibling map, cycles included, at the canonical tag |
| `Siblings.CycleMin` | crates/core/src/relations.rs:41-52 | the second walk returns the least tag of the cycle |
| `Siblings.WalkEnds` | crates/core/src/relations.rs:26-39 | every walk over a finite map reaches a terminal or a cycle |
| `Siblings.CanonicalUnique` | crates/core/src/relations.rs:26-52 | a tag has one canonical form: the terminal it reaches, or else the least tag of the cycle it reaches |
| `Siblings.TerminalIsCanonical` | crates/core/src/relations.rs:26-39 | a tag that itself has no ideal is its own canonical form |
| `Siblings.WalkEndIsCanonical` | crates/core/src/relations.rs:26-39 | a tag without an ideal that the walk reaches is the canonical form of the tag it started from |
| `Siblings.CanonicalIsIdempotent` | crates/core/src/relations.rs:26-52 | canonicalizing twice is canonicalizing once |
| `Siblings.AliasAgreesWithIdeal` | crates/core/src/relations.rs:26-52 | a tag and its ideal have the same canonical form |
| `Siblings.CanonicalIffConnected` | crates/core/src/relations.rs:26-52 | two tags have the same canonical form if and only if a path of alias edges, followed either way, joins them |
| `Relations.EffectiveTags` | crates/core/src/relations.rs:58-82 | the worklist computes the tags implied by the canonicalized raw tags, on parent cycles too, and depends on the set of raw tags only |
| `Relations.EffectiveIsClosed` | crates/core/src/relations.rs:58-82 | the result holds every canonicalized raw tag and the canonical form of every parent of a member |
| `Relations.EffectiveIsLeast` | crates/core/src/relations.rs:58-82 | it is contained in every set with those two properties |
| `Relations.EffectiveMonotone` | crates/core/src/relations.rs:58-82 | more raw tags never remove an effective tag |
| `Relations.EffectiveIsCanonical` | crates/core/src/relations.rs:58-82 | every effective tag is canonical |
| `Relations.EffectiveIdempotent` | crates/core/src/relations.rs:58-82 | taking the effective tags of the result changes nothing |
| `MatchSets.MatchSet` | crates/core/src/relations.rs:292-347 | the backward search from scratch finds exactly the raw tags that match, whatever order the maps are visited in |
| `MatchSets.RelationGraph.MatchSet` | crates/core/src/relations.rs:262-288 | the search over the precomputed index finds exactly the same set |
| `MatchSets.MatchSetInvertsEffective` | crates/core/src/relations.rs:292-347 | a file's raw tags meet the match set of a query if and only if the canonical query is among its effective tags, for all sibling and parent maps |
| `MatchSets.AliasesSearchAlike` | crates/core/src/relations.rs:292-347 | an alias and its ideal find the same tags |
| `MatchSets.BuildReverse` | crates/core/src/relations.rs:128-150 | the reverse index lists, for each canonical parent, exactly the canonical children |
| `MatchSets.BuildPreimage` | crates/core/src/relations.rs:150-168 | the alias index lists, for each canonical tag, exactly the other tags of its family, each once |
| `MatchSets.RelationGraph.HasRelations` | crates/core/src/relations.rs:198-214 | the indicator is lit if and only if the canonical form has another tag of its family, a canonical parent or a canonical child |
| `MatchSets.RelationGraph.RelationsOf` | crates/core/src/relations.rs:217-254 | each section lists, ascending, the least ids up to the cap of exactly the aliases, canonical parents or canonical children, and counts them all |
| `MatchSets.IndicatorIffSomeTotal` | crates/core/src/relations.rs:198-254 | that is so if and only if some section has a total above zero, at every cap |
| `MatchSets.ParentsConverseOfChildren` | crates/core/src/relations.rs:217-254 | one canonical tag is in the parent section of another if and only if the other is in its child section |
| `MatchSets.AliasListsPartition` | crates/core/src/relations.rs:128-168 | each non-canonical tag is in the alias list of its canonical form and no other; no list holds its own canonical tag |
| `MatchSets.AliasSharesSections` | crates/core/src/relations.rs:217-254 | an alias and its canonical form have the same sections |
| `Pull.AppendExtends` | crates/server/src/store.rs:943-1010 | a change gives its pair its status and the next sequence number, and leaves every other pair as it was |
| `Pull.MakePlanFits` | crates/daemon/src/ops.rs:2049-2101 | the one locked read asks incrementally only for buckets none of whose files lies past the stored marker |
| `Pull.MergedPair` | crates/db/src/lib.rs:2978-3117 | for every pair of an owned file: a received row decides, otherwise a full bucket drops the pair and any other bucket leaves it |
| `Pull.FullBucketIsExact` | crates/daemon/src/ops.rs:2107-2135 | the mirror of a file in a bucket asked for from the start becomes the store as it was fetched |
| `Pull.MergeSyncs` | crates/daemon/src/ops.rs:2107-2135 | a merge keeps the mirror in step however the store grew while the chunks were read and since, and whatever was imported meanwhile |
| `Pull.FileMergeExact` | crates/daemon/src/ops.rs:1900-1927 | a file-scoped merge keeps the mirror in step if and only if, up to the cursor, the store still has the tags that were read, whatever version of whatever store that was |
| `Pull.OnlyTheGapMatters` | crates/daemon/src/ops.rs:1900-1927 | if the store has only grown since, that is about the tags changed after the version read and up to the cursor |
| `Pull.MergeFilesAt` | crates/db/src/lib.rs:2802-2950 | after a merge of several files every requested file that is owned has exactly its entries; every other pair and the cursors stay |
| `PullCode.LibraryDb.MergeForFiles` | crates/db/src/lib.rs:2802-2950 | the differences written file by file are that merge, and the count is of the pairs that were not there before, so a repeat counts none |
| `PullCode.Coalesce` | crates/daemon/src/ops.rs:1886-1898 | a hash that is sent more than once ends with the tags of all its groups |
| `PullCode.BucketDelta` | crates/server/src/store.rs:1304-1350 | the range scan returns exactly the rows in range newer than `since`, each once, deletions included |
| `PullCode.AnswerDelta` | crates/server/src/http.rs:1444-1460 | re-parsing and re-bucketing each key answers each bucket with its own `since` |
| `PullCode.FetchBucketDelta` | crates/netproto/src/lib.rs:1702-1815 | chunk by chunk every row is kept and the lowest cursor wins, for any tiling of the keys and any version of the store behind each chunk |
| `PullCode.LibraryDb.OwnedBucketKeysAfter` | crates/db/src/lib.rs:1607-1634 | the sorted distinct keys of the files after an id |
| `PullCode.LibraryDb.MergeMappingDelta` | crates/db/src/lib.rs:2978-3100 | the loops clear every full range and apply every change of an owned file in order, then store cursor and marker; nothing else changes |
| `PullCode.ReconcileStoreGeneration` | crates/daemon/src/ops.rs:1184-1219 | cursor and marker are forgotten exactly when a recorded generation differs; the announced one is recorded |
| `PullCode.FullBuckets` | crates/daemon/src/ops.rs:2107-2118 | the ranges cover a hash if and only if its bucket was asked for from the start |
| `PullCode.PullDomainDelta` | crates/daemon/src/ops.rs:2033-2150 | plan under the lock, fetch, ask again for everything exactly when a cursor behind the stored one came back, merge; the cursor becomes the lowest that the merged fetch met and the marker the number of files at the locked read; a failed fetch changes nothing |
| `PullCode.PullSyncs` | crates/daemon/src/ops.rs:2033-2150 | what such a pull merges leaves the mirror in step with the store it grew into |
| `PullCode.QuietPullIsExact` | crates/daemon/src/ops.rs:2033-2150 | read from an unchanging store, every file owned at the locked read ends up as the store has it |
| `PullCode.NextPullIsEmpty` | crates/daemon/src/ops.rs:2049-2135 | after a pull of a store that did not change, and no import meanwhile, the next one asks every bucket from that sequence number on and is answered with nothing |
| `PullCode.OnlyNewFilesAskAfresh` | crates/daemon/src/ops.rs:2049-2101 | after any pull the next one asks from the start for exactly the buckets of files imported since the locked read, and from the new cursor for all others |
| `PullSteps.PullIsRun` | crates/daemon/src/ops.rs:2033-2150 | whatever a pull does to the library, merged or given up, retried or not, a run of the protocol does: the locked read, imports, each chunk with the store it finds, the check of the cursor, the merge |
| `PullSteps.PullKeepsInStep` | crates/daemon/src/ops.rs:2033-2150 | so a pull of a store that only grows, whether it completes or fails, keeps the mirror in step |
| `PullRuns.BasicKept` | crates/daemon/src/ops.rs:2033-2150 | the bookkeeping of a pull in flight survives every step, re-seeds and restarts included |
| `PullRuns.MirrorKept` | crates/daemon/src/ops.rs:2049-2135 | every step but a re-seed and a harmful file write keeps the mirror in step |
| `PullRuns.SyncKept` | crates/daemon/src/ops.rs:2049-2135 | so does every step but a re-seed and an overtaken file write, if all waiting file pulls read this store |
| `PullRuns.AlwaysSyncedIff` | crates/daemon/src/ops.rs:1900-1927 | a run without re-seeds keeps the mirror in step throughout if and only if every file write in it is harmless |
| `PullRuns.MirrorStaysInStep` | crates/daemon/src/ops.rs:2049-2135 | in every run without re-seeds and overtaken file writes, for every file up to the marker and every tag last changed up to the cursor, the mirror has the pair if and only if the store says Current |
| `PullRuns.ApartStaysInStep` | crates/daemon/src/ops.rs:1900-1927 | the same for every run without re-seeds in which no delta pull merges between the read and the write of a file pull |
| `PullOverlap.FileWriteExact` | crates/daemon/src/ops.rs:1900-1927 | a file write keeps the mirror in step if and only if the store still has, up to the stored cursor, the tags that were read, re-seeds since the read included |
| `PullOverlap.OverlapBringsBack` | crates/daemon/src/ops.rs:1900-1927 | a run in which an overtaken file write brings a deleted pair back behind the cursor |
| `PullOverlap.ReadOutlivesReseed` | crates/daemon/src/ops.rs:1900-1927 | a run in which a file write after a re-seed puts the old store's pair in the place of the new one's, though the cursor has not passed the version read |
| `PullOverlap.UpToDateIsTheGuard` | crates/daemon/src/ops.rs:1900-1927 | for a file up to the marker, the write is safe for every store that grew out of the version read and every mirror in step with it, if and only if the stored cursor has not passed that version |
| `PullOverlap.OnlyNoChangeIsSafe` | crates/daemon/src/ops.rs:1900-1927 | for a file up to the marker, the write is safe for every store at all that the mirror is in step with, re-seeded ones included, if and only if it changes nothing (with cursor 0: adds nothing) |
| `PullRecovery.NewGenerationForgets` | crates/daemon/src/ops.rs:1184-1219 | a recorded generation that differs clears cursor and marker |
| `PullRecovery.ForgottenKept` | crates/daemon/src/ops.rs:2033-2150 | nothing but a merge remembers them again, and until then every pull asks for everything |
| `PullRecovery.RestartSeesGeneration` | crates/daemon/src/ops.rs:1184-1219 | after a restart, the handshake and its reconciliation a store of another generation has been noticed, whatever was in flight before |
| `PullRecovery.RestartNeedsHandshake` | crates/daemon/src/ops.rs:1184-1219 | after a restart no pull begins before the handshake has been made again |
| `PullRecovery.GenerationChangeRecovers` | crates/daemon/src/ops.rs:1184-1219 | a re-seed seen as a changed generation is repaired by the next pull that completes, whatever is imported, written, given up or restarted before it |
| `PullRecovery.LowCursorPullsAll` | crates/daemon/src/ops.rs:2101-2106 | a returned cursor behind the stored one makes this pull ask for everything |
| `PullRecovery.LowCursorRecovers` | crates/daemon/src/ops.rs:2101-2106 | a re-seed seen as a low cursor is repaired when the pull that saw it completes |
| `PullRecovery.MergeRecovers` | crates/daemon/src/ops.rs:2081-2135 | when a pull that asks for everything merges, the mirror of every file owned at its locked read equals the store as fetched, whatever mirror, cursor and marker it started from and whatever happened meanwhile |
| `PullRecovery.RepairedIffFull` | crates/db/src/lib.rs:2978-3117 | a merge repairs a file whatever the mirror held if and only if the file's bucket was asked for from the start |
| `PullRecovery.NextMergeRepairsIff` | crates/daemon/src/ops.rs:2049-2135 | after any history, failed pulls and restarts included, the next pull that completes repairs a file whatever the mirror held if and only if its own first reply was behind the stored cursor or its locked read asked for the bucket from the start |
| `PullRecovery.GivingUpLosesTheSign` | crates/daemon/src/ops.rs:2101-2106 | a run in which the pull that saw a low cursor is given up and the next completed pull leaves a stale pair and misses a new one |
| `PullRecovery.RecoveryRestoresSync` | crates/daemon/src/ops.rs:2081-2135 | if the store only grew while a pull that asks for everything read it, its merge puts the mirror back in step, whatever file pulls still wait |
| `PullRecovery.LowCursorThenInStep` | crates/daemon/src/ops.rs:2101-2135 | in any run with re-seeds, once a pull has seen a low cursor and completes without a further re-seed, the mirror is in step and stays so, until the store is re-seeded again, if and only if every file write is harmless |
| `PullRecovery.GenerationChangeThenInStep` | crates/daemon/src/ops.rs:1184-1219 | the same once a changed generation is reconciled and the next pull to complete does so without a further re-seed, however many are given up before |
| `PullRecovery.RecoveredStaysInStep` | crates/daemon/src/ops.rs:2033-2150 | and when no file pull from an older store still waits at that merge, it is enough that no later write is overtaken |
| `TagLane.StepKeeps` | crates/daemon/src/tag_lane.rs:62-207 | the invariant of phase, delivery flag, worker, canceller and lock survives every step of any request |
| `TagLane.InterruptHitsOnlyItsOwner` | crates/daemon/src/tag_lane.rs:176-207 | in every run an interrupt for a request happens only while that request holds the connection |
| `TagLane.NoHandoffBeforeAck` | crates/daemon/src/tag_lane.rs:138-161 | while an interrupt is on its way no step takes the connection from its owner |
| `TagLane.ClosuresExclude` | crates/daemon/src/tag_lane.rs:62-117 | closures run one at a time, each while its request holds the connection |
| `TagLane.HistoryOf` | crates/daemon/src/tag_lane.rs:81-104 | a request is interrupted at most once, its canceller loads the phase at most three times, and one cancelled in the queue never runs its closure and is never interrupted |
| `TagLane.RunsUnlessCancelled` | crates/daemon/src/tag_lane.rs:62-135 | in every run the closure of a finished request has run, and a request that is gone without having run was cancelled; one whose future was not dropped has run when it is gone |
| `TagLane.DropCancels` | crates/daemon/src/tag_lane.rs:164-207 | when a drop is over, its request has finished uninterrupted, was cancelled in the queue, or was interrupted exactly once |
| `TagLane.NeverStartsCancelled` | crates/daemon/src/tag_lane.rs:81-104 | no step starts the closure of a request that was cancelled before, or that does not hold the connection |
| `TagLane.UndisturbedIsServed` | crates/daemon/src/tag_lane.rs:62-135 | a request that comes when the connection is free and is left alone is added, runs its closure, finishes and gives the connection back |
| `TagLane.DroppedInQueue` | crates/daemon/src/tag_lane.rs:164-207 | one that is dropped while it waits is cancelled in the queue, by one load and one swap, whoever holds the connection |
| `TagLane.PhaseAdvances` | crates/daemon/src/tag_lane.rs:119-207 | the phase word only moves up |
| `TagLane.StuckOwnerIsReleased` | crates/daemon/src/tag_lane.rs:138-161 | an owner waiting in `finish` always has a canceller whose next steps release it |
| `TagLane.NoDeadlock` | crates/daemon/src/tag_lane.rs:62-207 | while some worker has not left, a worker or a canceller already under way can step, even if no further future is ever dropped |
| `TagLane.RestMeansServed` | crates/daemon/src/tag_lane.rs:62-207 | a lane in which nothing more can step has served every request: each is gone, and has run or was cancelled |
| `TagLane.SchedulesAreFinite` | crates/daemon/src/tag_lane.rs:62-207 | with no new requests, no schedule is longer than a measure of what is left plus two steps for each spurious wake in it |
| `StartupGate.FlagNeverResets` | crates/daemon/src/startup_gate.rs:45-56 | once fired, always fired |
| `StartupGate.NoLostWakeup` | crates/daemon/src/startup_gate.rs:45-79 | a waiter asleep and unnotified while the flag is set has a firer about to notify, and that step wakes it |
| `StartupGate.ReleasedMeansFired` | crates/daemon/src/startup_gate.rs:60-79 | leaving without the timeout means the gate was fired |
| `StartupGate.EveryWaiterIsFree` | crates/daemon/src/startup_gate.rs:60-79 | after the notify step every waiter gets out without the timeout, in one step, or two if it is about to register |
| `StartupGate.FiredGateNeverBlocks` | crates/daemon/src/startup_gate.rs:36-43 | on a gate that starts released nobody waits |
| `StartupGate.FiringReleases` | crates/daemon/src/startup_gate.rs:45-56 | whatever has happened before, one more call to fire sets the flag, and the first one also wakes every waiter that waits |
| `StartupGate.TimeoutReleases` | crates/daemon/src/startup_gate.rs:60-79 | a waiter that waits can always time out, and is then released; no other waiter, firer or flag changes |
| `StartupGate.CallsWait` | crates/daemon/src/startup_gate.rs:60-79 | a call to wait is over at its first look on a released gate, and waits, registered, on an armed one |
| `Tags.NormalizeIdempotent` | crates/core/src/tag.rs:71-76 | normalizing twice is normalizing once |
| `Tags.TagRoundTrip` | crates/core/src/tag.rs:47-97 | printing and parsing gives a tag back if and only if it is well-formed |
| `Tags.ParsedIsWellFormed` | crates/core/src/tag.rs:47-68 | parsing yields only well-formed tags |
| `Tags.ParsePrintParse` | crates/core/src/tag.rs:47-97 | for every text that parses, its printed form parses to the same tag, leading-colon forms included |
| `Tags.ShowTagInjective` | crates/core/src/tag.rs:85-97 | different well-formed tags print differently |
| `Tags.TagErrors` | crates/core/src/tag.rs:47-68 | a text is refused exactly when it is blank, or has a namespace, a colon and then nothing but blanks |
| `TagTexts.NamespacedText` | crates/core/src/tag.rs:47-76 | a text with a colon after something that is not blank: both halves are normalized, and it is refused exactly if the second is blank |
| `TagTexts.LeadingColonText` | crates/core/src/tag.rs:47-76 | a text that starts with a colon has no namespace; the colon is dropped exactly if there is another |
| `TagTexts.BareText` | crates/core/src/tag.rs:47-76 | a text without a colon is all subtag |
| `TagTexts.NormalizeOfConcat` | crates/core/src/tag.rs:71-76 | blanks between two parts become one space, blanks at the ends vanish |
| `TagTexts.NormalizeOfWord` | crates/core/src/tag.rs:71-76 | a word is lower-cased |
| `TagTexts.CaseDoesNotMatter` | crates/core/src/tag.rs:47-76 | texts that differ only in case are both refused or are the same tag |
| `TagTexts.ParsedHasNoCapital` | crates/core/src/tag.rs:71-76 | a parsed tag holds no capital letter |
| `TagTexts.TrimCuts` | crates/core/src/tag.rs:47-50 | trimming takes away blanks at both ends, and all of them |
| `TagTexts.AsciiBlanks` | crates/core/src/tag.rs:71-76 | the ASCII blanks are tab, line feed, vertical tab, form feed, carriage return and space |
| `Patterns.PatternRoundTrip` | crates/core/src/query.rs:23-75 | printing and parsing gives a pattern back if and only if it is well-formed |
| `Patterns.ParsedPatternIsWellFormed` | crates/core/src/query.rs:35-75 | parsing yields only well-formed patterns |
| `Patterns.ShowPatternInjective` | crates/core/src/query.rs:23-33 | different well-formed patterns print differently |
| `TagTexts.NamespacedPattern` | crates/core/src/query.rs:35-75 | a wildcard text with a colon: refused exactly if its namespace is blank or has a star or its other half has none, else both halves normalized |
| `TagTexts.BarePattern` | crates/core/src/query.rs:35-75 | a wildcard text without a colon: refused exactly if it has no star or nothing beside stars |
| `SystemPredicates.CompareExact` | crates/core/src/query.rs:183-248 | a comparison means the number times its unit, and is refused exactly when the product exceeds a signed 64-bit number |
| `SystemTexts.ComparisonExactly` | crates/core/src/query.rs:183-219 | a text is a comparison if and only if it is a field, an operator, digits and a unit of that field, with a product that fits |
| `SystemTexts.Spelling` | crates/core/src/query.rs:183-208 | fields and operators are spelled as the documentation says |
| `SystemTexts.UnitTable` | crates/core/src/query.rs:221-248 | each unit is a multiple of the one before, 1024 for sizes and 1000, 60 and 60 for durations; every other unit is refused |
| `SystemTexts.NumberOfConcat` | crates/core/src/query.rs:209-218 | digits are read in base ten |
| `SystemTexts.TypesAndOrigins` | crates/core/src/query.rs:159-182 | whatever follows the sign, trimmed, is the type or the origin, unless it is blank; `manual` asks for rows without one |
| `SystemTexts.SystemIgnoresCase` | crates/core/src/query.rs:142-219 | texts that differ only in case are both refused or are the same predicate |
| `SystemTexts.SystemIgnoresBlanks` | crates/core/src/query.rs:142-219 | so are texts that differ only in blanks around them |
| `SystemPredicates.SystemRoundTrip` | crates/core/src/query.rs:131-219 | printing and parsing gives a metadata predicate back if and only if it is well-formed |
| `SystemPredicates.ParsedSystemIsWellFormed` | crates/core/src/query.rs:142-219 | parsing yields only well-formed metadata predicates |
| `Queries.Tokenize` | crates/core/src/query.rs:317-336 | the character loop computes the tokens |
| `Queries.TokensAreClean` | crates/core/src/query.rs:317-336 | tokens are never empty and never hold a quote |
| `Queries.TokensOfConcat` | crates/core/src/query.rs:317-336 | texts with closed quotes, joined by a blank, tokenize one after the other |
| `Queries.TokensOfQuoted` | crates/core/src/query.rs:317-336 | quoting each token and joining with blanks writes any clean token list down |
| `QueryTokens.TokensAtBreak` | crates/core/src/query.rs:317-336 | at a blank with an even number of quotes before it, a text falls into two that tokenize apart |
| `QueryTokens.OneToken` | crates/core/src/query.rs:317-336 | a text without such a blank is one token, itself without its quotes |
| `QueryTokens.TokensKeepText` | crates/core/src/query.rs:317-336 | the tokens end to end are the text without its quotes and unquoted blanks |
| `QueryTokens.PlainWord` | crates/core/src/query.rs:317-336 | a word without quotes is its own token |
| `QueryTokens.QuotedPhrase` | crates/core/src/query.rs:309-336 | a quoted phrase, blanks and all, is part of the token around it |
| `QueryTerms.TagTerms` | crates/core/src/query.rs:285-458 | a tag is wanted, `=` takes it literally, `-` excludes it, `-=` both |
| `QueryTerms.WildTerms` | crates/core/src/query.rs:285-458 | the same for a term with a star |
| `QueryTerms.SystemTerms` | crates/core/src/query.rs:285-458 | `system:` in any case makes a metadata predicate, which can be excluded and not taken literally |
| `QueryTerms.OrGroup` | crates/core/src/query.rs:417-444 | tags with `or` in any case between them are one group, each with its own mode |
| `QueryTerms.DanglingOrs` | crates/core/src/query.rs:350-458 | nothing at all and an `or` with a side missing are refused |
| `QueryTerms.NotJoined` | crates/core/src/query.rs:350-458 | an excluded term, a wildcard or a metadata predicate on either side of `or` is refused, each for its own reason |
| `QueryTerms.DashAfterEquals` | crates/core/src/query.rs:350-458 | a dash behind `=` is refused |
| `Queries.ReadGroup` | crates/core/src/query.rs:417-444 | the inner loop reads exactly the or-group that starts at a token, with its errors |
| `Queries.ReadClause` | crates/core/src/query.rs:360-455 | one turn of the parser reads exactly one predicate, with the source's errors in the source's order |
| `Queries.ParseQuery` | crates/core/src/query.rs:350-458 | the indexed loops compute the parse of the token list |
| `QueryConcat.QueryOfConcatIff` | crates/core/src/query.rs:350-458 | for any two non-empty lists, parsing one after the other is parsing both, errors included, if and only if no `or` at the seam joins them or meets a term that minds it |
| `QueryConcat.ParsedContinuation` | crates/core/src/query.rs:350-458 | if the second list parses, that fails exactly when the first is a list that parses and ends with a tag or a group, then `or`, and the second does not start with a dash |
| `QueryConcat.QueryOfConcat` | crates/core/src/query.rs:350-458 | in particular it holds when the first list does not end with `or` and the second does not start with it |
| `QueryConcat.ParsesConcatenate` | crates/core/src/query.rs:350-458 | whatever parses can be continued by anything that does not start with `or` |
| `QueryConcat.OrReachesAcross` | crates/core/src/query.rs:417-444 | an `or` between two plain tags, at the end of the first list, joins them, though the first list alone is refused |
| `QueryConcat.TextsConcatenate` | crates/core/src/query.rs:317-458 | a text with closed quotes that parses can be continued, after a blank, by any text whose tokens do not start with `or` |
| `QueryLaws.ParsedIsParseable` | crates/core/src/query.rs:350-458 | every parse yields well-formed parts, no stars in plain tags, and or-groups of at least two members |
| `QueryLaws.ParseableExactly` | crates/core/src/query.rs:350-458 | those are exactly the queries some token list parses as |
| `QueryLaws.QueryRoundTrip` | crates/core/src/query.rs:317-458 | every query without quotes in its parts is got back from the quoted, space-joined text written for it; a term that could be mistaken for an operator gets a blank inside its quotes |
| `QueryLaws.ParsedTextIsWritable` | crates/core/src/query.rs:317-458 | no text parses as any other query |
| `QueryLaws.PlainTermsAreNotPadded` | crates/core/src/query.rs:285-313 | a term that cannot be mistaken for an operator is written as it is |
| `Imports.StreamsAreIndependent` | crates/daemon/src/plugins.rs:155-206 | writing the mapping, sibling and parent streams apart is applying every record in turn |
| `Imports.RerunConverges` | crates/daemon/src/plugins.rs:54-58 | an import that failed part of the way converges when it is run again |
| `Imports.StagedIsTheLast` | crates/daemon/src/plugins.rs:155-206 | the status staged for a file and a tag is that of the last record that gives it one |
| `Imports.StagedStays` | crates/daemon/src/plugins.rs:155-206 | and stays as it was if none does |
| `Imports.IdealIsTheLast` | crates/daemon/src/plugins.rs:155-206 | the ideal of a tag is the one that the last sibling record from it names, deleted ones and self-relations left out |
| `Imports.IdealStays` | crates/daemon/src/plugins.rs:155-206 | and stays as it was if there is none |
| `Imports.ParentsExactly` | crates/daemon/src/plugins.rs:155-206 | a tag implies another if and only if it did before or some such parent record says so |
| `Imports.RelationsCounted` | crates/db/src/lib.rs:5313-5400 | the relations counted are the records of two different tags that are not deleted |
| `ImportSink.InternTagCached` | crates/db/src/lib.rs:1736-1757 | cached, pending and stored ids agree, a new tag gets an unused id, no table changes its meaning |
| `ImportSink.ImportDb.StageMappingsBatch` | crates/db/src/lib.rs:5271-5300 | a committed batch is its records staged in turn; a failed one changes neither rows nor cache |
| `ImportSink.ImportDb.AddSiblingsBatch` | crates/db/src/lib.rs:5313-5352 | the same for siblings; the count is of the positions with two different tags |
| `ImportSink.ImportDb.AddParentsBatch` | crates/db/src/lib.rs:5365-5400 | the same for parents |
| `ImportSink.BatchSink.FlushMappings` | crates/daemon/src/plugins.rs:92-110 | flushing keeps the invariant of buffers, counts and tables, and writes nothing after a failure |
| `ImportSink.BatchSink.FlushSiblings` | crates/daemon/src/plugins.rs:113-127 | the same, adding the applied relations to the count |
| `ImportSink.BatchSink.FlushParents` | crates/daemon/src/plugins.rs:130-144 | the same |
| `ImportSink.BatchSink.Mapping` | crates/daemon/src/plugins.rs:156-176 | a mapping is taken and counted, or refused after a failure; a full buffer is flushed |
| `ImportSink.BatchSink.Relation` | crates/daemon/src/plugins.rs:178-206 | a relation is taken unless deleted, or refused after a failure; a full buffer is flushed |
| `ImportSink.BatchSink.Finish` | crates/daemon/src/plugins.rs:148-152 | without an error the tables are those of applying every record taken one at a time, whatever the batch size, and the counts are of the mapping records and of the relation records of two different tags that are not deleted; after one, nothing further is written |
| `ImportSink.RunImport` | crates/daemon/src/plugins.rs:449-477 | success means the whole stream was applied, and reports how many mappings and how many live relations of two different tags, by kind, the records hold; after an error of the plugin so was every record it handed over; after a failed transaction nothing more is tried, a first part of each stream is written, and a rerun converges |
| `Calendar.CivilIsExact` | crates/cli/src/main.rs:943-954 | every day number, negative ones too, yields a valid date whose day count is that number |
| `Calendar.DayNumberIsInverted` | crates/daemon/src/ops.rs:2950-2961 | every valid date is the one its day count yields |
| `Calendar.NextDayIsTomorrow` | crates/cli/src/main.rs:943-954 | the next day number yields the calendar's next day |
| `Calendar.EpochIsDayZero` | crates/cli/src/main.rs:943-954 | day 0 is 1970-01-01 |
| `Calendar.TomorrowCountsOneMore` | crates/cli/src/main.rs:943-954 | the day count follows the calendar's leap and month rules |
| `Calendar.NumbersAscend` | crates/daemon/src/ops.rs:2950-2961 | earlier dates have smaller day counts |
| `Calendar.MinuteHoldsSecond` | crates/cli/src/main.rs:934-940 | the printed date, hour and minute are those the second lies in, before the epoch too |

## Left out

- The database itself: SQL text, migrations, indexes and triggers. The calls the pull and the sink make are modelled by what they write.
- Failing statements inside the pull's merge: a merge either happens as a whole or the pull is given up before it.
- Hash domains beside the native one: provenance bits, the SHA-256 key source and its translation map, and the whole-repository mode. One domain is modelled.
- Two overlapping delta pulls of one service. At most one is in flight.
- Removing an owned file, and changes to the library between two steps other than imports and file pulls.
- Where a tag came from (`origin`), timestamps, statistics and notices of a pull.
- Response budgets, size caps and the adaptive choice of chunks: any tiling of the key list is allowed instead.
- A sequence number of 2^63 and above, which no store can hold; `PullCode.Served` says so where the wire starts from the largest unsigned number.
- Re-seeds that show neither as a changed generation nor as a low cursor, or as a low cursor to a pull that is then given up: a later pull repairs what `PullRecovery.NextMergeRepairsIff` says and nothing is claimed about the other rows they leave behind.
- Unicode case. Lower-casing is ASCII, whitespace is Unicode; `to_lowercase` of other letters is not modelled.
- Hash text is a string of characters; the source counts bytes, which refuses the same texts.
- `TagLane.StepKeeps`: atomics, locks, the condition variable and the interrupt are single sequentially consistent steps; memory ordering, the executor and how soon SQLite notices an interrupt are not modelled.
- `StartupGate.NoLostWakeup`: the timeout is a step that is always enabled for a sleeping waiter; durations are not modelled.
- `TagLane` and `StartupGate` are values with a step function rather than classes, since what they promise is about interleavings of steps and not about one call.
- `ImportSink.BatchSink.Finish`: other writers of the same tables between two flushes are not modelled; the sink has the library to itself.
- `ImportSink.RunImport`: the step after a successful import that resolves staged mappings against owned files is not modelled, nor are a plugin's panics; its errors are.
- `Calendar.CivilIsExact`: day counts are unbounded integers; the overflow of 64-bit arithmetic near its limits is not modelled, nor is the padding of the printed form.
- Hash functions, signatures, keys, HTTP, scanning and watching, thumbnails, settings and the user interface.
- Evaluating wildcards and metadata predicates against stored files, which happens in SQL.
