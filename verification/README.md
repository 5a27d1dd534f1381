# Verified model of the receiver runtime

This project models the parts of the receiver that schedule, hand over and reuse work,
and proves what they promise on every input, every run and every interleaving:

- **Two-core stage 3** (`WorkSteal`): two cores claim candidates from one slot array
  through a `fetch_add` counter, with a stop condition that may fire at any poll.
- **Batches of the FST4 monitor** (`Fst4Batches`, `Fst4Runs`): send, drain, blocking
  receive, over any number of batches, and the deadline that is checked after the claim.
- **Best-k selection** (`TopK`, `StableTopK`, `HeapTies`, `TieBreaks`): the bounded heap of
  pass 2, its split over two cores, and what becomes of ties.
- **The speculative slot** (`Speculative`, `Deadlines`, `InTimeCount`): early and late
  candidate budgets, coarse retries, what sets a deadline, what is cut and what is counted,
  one row per message.
- **The incremental spectrogram task** (`Stage1` is its meaning, `Stage1Worker` the
  task in place, `Stage1Runs`, `Stage1Windows`, `Stage1Sums`, `Stage1Pairing` and `Stage1Gain`
  what holds on its runs; `PairKernel` and `Allsum` its two kernels; `RealRows` why one transform serves
  two audio rows).
- **The FFT backend** (`ExactRing`, `MixedRadix`: the reshaped mixed-radix transform is
  the direct DFT; `FftTables`, `FftFull`, `FftLock`: the install-once twiddle registry
  and its lock).
- **The C boundary** (`StreamRing`, `Fingerprint`, `DecodeSession`, `SizedStruct`).
- **Two small state machines** (`Waterfall`, `WorkerArena`).

Concurrent code is a state machine whose steps are single memory operations, run by any
tasks in any order; the clock, the allocator, the stop condition and the queue peeks are
arbitrary answers. Code that changes things in place is a class or a method over arrays,
tied by its `ensures` to a function whose properties are then proved as lemmas. Samples,
levels and indices carry their machine ranges where overflow could matter. Only `Dafny`
files are in the project; `dafny verify dfyconfig.toml` checks it.

## What the proofs found

Places where the code does something other than its own documentation says. Each has a
lemma with the exact condition, and the model follows the code.

- **A subtracting decode keeps the wrong transform.** The session keeps the transform an
  engine returns under the fingerprint of the audio the caller passed. The staged search
  (`sic_early`), and FT8's SIC rounds with a known list, return the transform of the audio
  that was left after subtraction. A later plain decode of the same slot passes the
  fingerprint check and is offered it (`DecodeSession.StagedDecodePoisonsTheCache`; exactly
  when, over whole runs: `DecodeSession.CacheIsRightExactly`).
- **The arena is exclusive only once the allocation has succeeded.** A claim, or a repeated
  reservation, that sees its owner in `OWNER` while that owner's allocation is still
  running can be served the block another owner reserves after the first one failed
  (`WorkerArena.ExclusiveIffAllocated`, with such a run in `WorkerArena.AClaimIsRobbed`). A
  reservation made from `main` before any task starts, as its documentation asks, is
  outside that window.
- **A reset strands a bundle.** A reset in mid-slot does not take back a bundle that has
  left: from then on every k-th bundle is paired with the wrong slot, and the samples the
  bundle points at are overwritten (`Stage1Pairing.FifoPairsExactly`,
  `Stage1Pairing.LateResetMispairs`, `Stage1Pairing.ResetFreesThePrefix`).
- **The gain depends on the chunking.** It is locked at the end of the first chunk that
  reaches sample 12 000, not from the first 12 000 samples
  (`Stage1Gain.FirstSecondSetsTheGain`, `Stage1Gain.GainDependsOnChunking`).
- **`n_in_time` is not the rows decoded in time.** It is documented as how many of the
  returned rows were decoded before the slot boundary. Duplicates that are removed stay
  counted, and so does a row claimed by the boundary that ends after it; early retries never
  are, nor is a batch that is not split because the deadline comes no later than the
  boundary. So it errs both ways (`InTimeCount.DuplicateCounted`,
  `InTimeCount.StraddlingCounted`, `InTimeCount.RetryNotCounted`,
  `InTimeCount.UnsplitNotCounted`; exactly when it is right: `InTimeCount.InTimeExactly`,
  `InTimeCount.InTimeByStages`; when a batch is split: `Deadlines.SplitsExactly`).
- **`n_cut` is not 0 whenever the budget is disabled, nor whenever the slot finished inside
  it.** A usable slot-end hint or a key-up guard sets a deadline although the budget is
  disabled, and what it leaves unclaimed is cut (`Deadlines.KeyUpCutsAFirstAttempt`; exactly
  when: `Deadlines.CutWithBudgetDisabled`). And with no deadline at all, early retries are
  cut when the slot is already queued (`Speculative.CutWithoutDeadline`). It is 0 exactly
  when every batch was claimed to its end and every gate was open
  (`Speculative.CutIsZeroExactly`).
- **A key-up guard of 0 does not leave only the budget**: a usable hint is a deadline at
  key-up then too (`Deadlines.HintAloneIsADeadline`).
- **Merged coarse cells do not share one retry**: each failure retries the first cell
  (`Speculative.RetriesShareCells`, `Speculative.MergedCellsRetryTwice`).
- **The bounded heap is not stable on ties**: it evicts the earliest of its worst entries
  (`HeapTies.HeapKeepsTies`), so the split may keep other candidates than one core would,
  though never other qualities (`TopK.SplitMatchesWhole`, `TopK.SplitMayDiffer`). It keeps
  the same ones under every drain order exactly when no tie crosses the cut or one of three
  conditions on the two halves holds (`TieBreaks.SplitSameExactly`).
- **Setting the epoch moves the dates of samples already buffered**
  (`StreamRing.EpochRedatesTheBuffer`).

## Model

| member | source | states |
|---|---|---|
| WorkSteal.RunIsSplit | embedded-poc/embedded-shared/src/dual_core.rs:1533-1671 | on every interleaving and every pattern of stop answers, the joined result is that of some claim order: the claimed indices are a prefix, its rows and failures come out once each, the rest comes back in order, and the counter overshoots by at most one per core |
| WorkSteal.SplitIsReachable | embedded-poc/embedded-shared/src/dual_core.rs:1638-1670 | conversely every claim order of every prefix is the outcome of some run |
| WorkSteal.ClaimsAreExclusive | embedded-poc/embedded-shared/src/dual_core.rs:1646-1653 | no slot is in two hands, and a core about to take a slot finds it occupied |
| WorkSteal.RunsTerminate | embedded-poc/embedded-shared/src/dual_core.rs:1638-1670 | every run ends within five steps per candidate, and never gets stuck |
| WorkSteal.SplitAttemptsPrefix | embedded-poc/embedded-shared/src/dual_core.rs:1581-1595 | whoever claimed what, rows and failures are exactly the claimed prefix's, as multisets, and `unclaimed` is the suffix |
| WorkSteal.DecodedFailedPartition | embedded-poc/embedded-shared/src/dual_core.rs:1664-1668 | what was tried splits into what decoded and what failed |
| WorkSteal.ResumeIsOneCall | embedded-poc/embedded-shared/src/dual_core.rs:836-877 | stopping at the slot boundary and resuming on the unclaimed meets the contract of one call |
| Fst4Batches.BatchesDoNotOverlap | embedded-poc/embedded-shared/src/fst4_dual_core.rs:345-381 | over any sequence of batches, between batches the worker is idle and nothing is in flight, and during one everything in flight is that batch's |
| Fst4Batches.EveryOutcomeLegal | embedded-poc/embedded-shared/src/fst4_dual_core.rs:227-258 | every batch that returned claimed a prefix of its own indices, worked each core's claims in order, and lost at most each core's last claim to the deadline |
| Fst4Batches.EachIndexAtMostOnce | embedded-poc/embedded-shared/src/fst4_dual_core.rs:227-244 | no index is worked twice; an in-range claim nobody worked is the last claim of a core the deadline stopped |
| Fst4Batches.SharesCoverAll | embedded-poc/embedded-shared/src/fst4_dual_core.rs:366-380 | the two cores' results together are the single core's as a multiset |
| Fst4Batches.CollectMembers | embedded-poc/embedded-shared/src/fst4_dual_core.rs:227-244 | a result is in a share's list exactly when some index of the share returned it |
| Fst4Batches.SingleCoreList | embedded-poc/embedded-shared/src/fst4_dual_core.rs:264-276 | and in the single core's exactly when some index below n did, one entry for each that returned anything |
| Fst4Batches.UntimedEqualsSingleCore | embedded-poc/embedded-shared/src/fst4_monitor.rs:738-784 | without a deadline every index is worked exactly once and the rank-sorted result is the single core's list, leaving no hole |
| Fst4Batches.SortedIsUnique | embedded-poc/embedded-shared/src/fst4_monitor.rs:782-784 | a list whose ranks differ has one rank-sorted arrangement |
| Fst4Runs.TimedIsAPrefixLessTwo | embedded-poc/embedded-shared/src/fst4_monitor.rs:628-674 | with a deadline the rank-sorted result is one core's list of a prefix of the indices, less exactly one for each core the deadline stopped |
| Fst4Runs.OutcomeIsReachable | embedded-poc/embedded-shared/src/fst4_dual_core.rs:227-258 | conversely every legal outcome of a next batch is that of some run, whatever ran before, with a clock that passes the deadline at most once |
| Fst4Runs.SomethingCanHappen | embedded-poc/embedded-shared/src/fst4_dual_core.rs:339-381 | no reachable state is stuck, and inside a batch it is the batch that can go on |
| Fst4Runs.BatchesReturn | embedded-poc/embedded-shared/src/fst4_dual_core.rs:345-381 | a batch of n items returns within 3n + 6 events, in whatever order they come |
| Fst4Batches.DrainSingle | embedded-poc/embedded-shared/src/fst4_dual_core.rs:264-276 | the single-core loop returns the results of the indices before the first late check, all of them when there is no deadline |
| Fst4Batches.FillIsComplete | embedded-poc/embedded-shared/src/fst4_monitor.rs:341-409 | a matrix filled by row in parallel is the row-by-row one in whatever order the writes land |
| TopK.RefineCandidates | mfsk-core/src/ft8/decode_block/process_candidates.rs:1163-1237 | the heap loop computes the selection function |
| TopK.RefineIsTop | mfsk-core/src/ft8/decode_block/process_candidates.rs:1208-1236 | the bounded heap selects min(len, k) candidates, none worse than one it dropped, in descending order, whatever order it is drained in |
| TopK.Pass2Split | embedded-poc/embedded-shared/src/dual_core.rs:1490-1521 | the two-core selection computes its function |
| TopK.MergeIsTop | embedded-poc/embedded-shared/src/dual_core.rs:1517-1520 | best k of two best-k halves, merged, sorted and cut, is a best k of the whole |
| TopK.SplitMatchesWhole | embedded-poc/embedded-shared/src/dual_core.rs:1490-1521 | the split returns min(len, k) candidates with the qualities one core would have got, position by position |
| HeapTies.HeapKeepsTies | mfsk-core/src/ft8/decode_block/process_candidates.rs:1182-1226 | at every quality that at most k entries exceed, the heap keeps all of those and, of the ties, the last ones among the first k entries that reach it |
| HeapTies.HeapIsKept | mfsk-core/src/ft8/decode_block/process_candidates.rs:1208-1226 | the indexed heap holds what the input-order list holds that lets go of its first worst entry |
| TieBreaks.SplitSameExactly | embedded-poc/embedded-shared/src/dual_core.rs:1490-1521 | of distinct candidates the split keeps one core's, for all drain orders of the three heaps, if and only if no tie crosses the cut, or the head half has nothing reaching the k-th quality, or overflows the heap with everything above it, or has the needed ties while the tail's come last |
| TieBreaks.AgreeingSplit | embedded-poc/embedded-shared/src/dual_core.rs:1490-1521 | that condition suffices for any candidates and any three drain orders |
| TieBreaks.DisagreeingSplit | embedded-poc/embedded-shared/src/dual_core.rs:1517-1520 | without it some drain order has the split keep a candidate one core lets go |
| TopK.SplitMayDiffer | mfsk-core/src/ft8/decode_block/process_candidates.rs:1182-1184 | with a tie across the cut the split can keep a candidate one core evicts |
| StableTopK.StableHalves | embedded-poc/embedded-shared/src/dual_core.rs:1517-1520 | were each core's selection stable, the split would return the very list one core would |
| Speculative.RunSpeculativeSlot | embedded-poc/embedded-shared/src/dual_core.rs:568-1040 | rows, in-time count, cut and fallback counters are those of the stages played out on any timing, and all empty for a slot dropped at the floor |
| Speculative.Pass2Selects | embedded-poc/embedded-shared/src/dual_core.rs:1490-1521 | the two-core selection returns as many candidates as it may, which is all the slot's accounting needs of it |
| Speculative.FirstAttempts | embedded-poc/embedded-shared/src/dual_core.rs:836-877 | the first-attempt batch, whole or in two around the boundary, and how many rows the first part had |
| Speculative.BatchesAre | embedded-poc/embedded-shared/src/dual_core.rs:814-983 | the early batch is pass 2 of the ready candidates on the prefix, the early retries pass 2 of theirs on the prefix, the late batch pass 2 of the deferred candidates on the whole slot, the tail what was left over and then pass 2 of the late retries on the whole slot |
| Speculative.RetriesAre | embedded-poc/embedded-shared/src/dual_core.rs:888-961 | early retries are those of the first attempts' failures, late ones those of the deferred candidates' |
| Speculative.BudgetsAre | embedded-poc/embedded-shared/src/dual_core.rs:787-797 | shared, the early budget is the number of ready candidates among the first `max_cand` and the late one the rest; otherwise all of it, and what the early batch left |
| Speculative.Pass1Is | embedded-poc/embedded-shared/src/dual_core.rs:725-730 | every candidate found, in order, at its fine position if fine sync ran |
| Speculative.FilterSplits | embedded-poc/embedded-shared/src/dual_core.rs:798-799 | the partition takes the entries that pass, in their order |
| Speculative.EarlierStagesWin | embedded-poc/embedded-shared/src/dual_core.rs:1004-1007 | of two rows of one message the earlier stage's is returned |
| Speculative.FallbackIsTheTried | embedded-poc/embedded-shared/src/dual_core.rs:900-993 | `n_fallback` is the retries tried, on the prefix and on the whole slot |
| InTimeCount.InTimeExactly | embedded-poc/embedded-shared/src/dual_core.rs:168-174 | `n_in_time` plus the remaining rows it missed is the documented number plus the remaining rows counted late plus the duplicates counted, as far as uncounted rows remain; so it is that number exactly when these cancel |
| InTimeCount.InTimeWhenCountedIsTrue | embedded-poc/embedded-shared/src/dual_core.rs:1008-1012 | when the rows counted are those in time, it is right if and only if no counted row was a duplicate or no other row remains |
| InTimeCount.InTimeByStages | embedded-poc/embedded-shared/src/dual_core.rs:805-811 | when only early retries fall either side of the boundary, it is right if and only if as many counted rows were duplicates as early retries in time remain, or more and no other uncounted row remains |
| InTimeCount.StraddlingCounted | embedded-poc/embedded-shared/src/dual_core.rs:838-850 | a row claimed by the boundary and decoded after it is reported as 1 |
| InTimeCount.UnsplitNotCounted | embedded-poc/embedded-shared/src/dual_core.rs:833-836 | a row in time of a batch that was not split is reported as 0 |
| InTimeCount.DuplicateCounted | embedded-poc/embedded-shared/src/dual_core.rs:1008-1012 | a slot of three rows that reports 2 where 1 was in time |
| InTimeCount.RetryNotCounted | embedded-poc/embedded-shared/src/dual_core.rs:888-903 | a slot whose one row, an early retry in time, is reported as 0 |
| Speculative.BudgetIsSpentExactly | embedded-poc/embedded-shared/src/dual_core.rs:787-943 | with the budget shared or not, the early and late first attempts owed are together exactly min(pass-1 candidates, `max_cand`) |
| Speculative.EveryCandidateIsCounted | embedded-poc/embedded-shared/src/dual_core.rs:877-998 | every first attempt and retry the slot owed is tried, or in `n_cut`, exactly once; tried retries are `n_fallback` |
| Speculative.RowsAreOfTheTried | embedded-poc/embedded-shared/src/dual_core.rs:836-997 | each batch splits into tried and left; the rows are those of what was tried on that stage's audio; retries left over start the tail |
| Speculative.FirstIsHonest | embedded-poc/embedded-shared/src/dual_core.rs:819-876 | splitting the batch at the boundary tries the same candidates in the same order as one call |
| Speculative.CutIsZeroExactly | embedded-poc/embedded-shared/src/dual_core.rs:877-998 | on any timing `n_cut` is 0 if and only if every batch was claimed to its end and every gate something waited at was open |
| Speculative.CutWithoutDeadline | embedded-poc/embedded-shared/src/dual_core.rs:208-212 | where no deadline fires, the boundary ahead or not, `n_cut` is the early retries if the slot was already queued, else 0; so 0 exactly when the gate was open or nothing was to be retried |
| Deadlines.StopsExactly | embedded-poc/embedded-shared/src/dual_core.rs:517-552 | first attempts can be stopped, before the slot arrives and after, if and only if a budget, a usable hint or a guard is set; a retry on the prefix always can |
| Deadlines.ReachedExactly | embedded-poc/embedded-shared/src/dual_core.rs:517-545 | a poll stops at every reading from the deadline on, from a queued slot's key-up less the guard, or for a retry at any queued slot, and at no other |
| Deadlines.EarlyStopsAt | embedded-poc/embedded-shared/src/dual_core.rs:738-763 | with no slot queued the early stop fires from the end of the budget or from key-up at a usable hint, whichever is first |
| Deadlines.LateStopsAt | embedded-poc/embedded-shared/src/dual_core.rs:915-924 | once the slot is received also from its own key-up if there is a guard |
| Deadlines.UsableHint | embedded-poc/embedded-shared/src/dual_core.rs:703-714 | a hint is used exactly when key-up by it is within 7.5 s of the bundle's arrival |
| Deadlines.CutWithBudgetDisabled | embedded-poc/embedded-shared/src/dual_core.rs:208-212 | with the budget disabled `n_cut` is 0 of every slot, early retries at a closed gate apart, if and only if there is no usable hint and no guard |
| Deadlines.KeyUpCutsAFirstAttempt | embedded-poc/embedded-shared/src/dual_core.rs:738-751 | a slot with budget and guard 0 and a hint, whose only first attempt is cut at key-up |
| Deadlines.HintAloneIsADeadline | embedded-poc/embedded-shared/src/dual_core.rs:324-326 | with budget and guard 0 the deadline is half a second past a usable hint, and there is none without |
| Deadlines.SplitsExactly | embedded-poc/embedded-shared/src/dual_core.rs:833-836 | the batch is split at the boundary if and only if that is ahead, the guard is below 500 ms and the budget lasts beyond it |
| Speculative.CutWithNoBudgetToBlame | embedded-poc/embedded-shared/src/dual_core.rs:888-905 | a one-candidate slot with no deadline that cuts its retry |
| Speculative.CoarseRetryCandidates | embedded-poc/embedded-shared/src/dual_core.rs:1066-1087 | the retry loop computes its function |
| Speculative.RetryIsOfCells | embedded-poc/embedded-shared/src/dual_core.rs:1078-1085 | each retry is the first coarse cell that fine sync had brought to that failure's position, in the order of the failures, and differs from it |
| Speculative.RetriesShareCells | embedded-poc/embedded-shared/src/dual_core.rs:1058-1065 | one retry per failure fine sync had moved; two retries are of one cell exactly when two such failures are at one position |
| Speculative.MergedCellsRetryTwice | embedded-poc/embedded-shared/src/dual_core.rs:1062-1064 | two cells merged by fine sync retry the first cell twice |
| Speculative.DedupByMessage | embedded-poc/embedded-shared/src/dual_core.rs:1043-1056 | the in-place removal loop computes its function |
| Speculative.KeepFirstIsFirst | embedded-poc/embedded-shared/src/dual_core.rs:999-1007 | every message keeps exactly one row, the first that carried it |
| Stage1Worker.WorkerCtx.Receive | embedded-poc/embedded-shared/src/stage1_inc.rs:501-522 | one message changes the task's whole state as the machine's step does |
| Stage1Worker.WorkerCtx.IngestSamples | embedded-poc/embedded-shared/src/stage1_inc.rs:533-564 | a chunk is appended and advanced over, or dropped whole if it would overrun |
| Stage1Worker.WorkerCtx.AdvancePairs | embedded-poc/embedded-shared/src/stage1_inc.rs:566-644 | gain lock, pair loop and emit, never computing into an emptied buffer |
| Stage1Worker.WorkerCtx.ComputePairInto | embedded-poc/embedded-shared/src/stage1_inc.rs:1071-1109 | the next pair's two rows and their columns in both tables are written, its waterfall row offered, and nothing else |
| Stage1Worker.WorkerCtx.EmitSpecBundle | embedded-poc/embedded-shared/src/stage1_inc.rs:646-702 | the spectrogram and both tables move into the bundle; fresh ones only if more pairs will come |
| Stage1Worker.WorkerCtx.FinalizeSlot | embedded-poc/embedded-shared/src/stage1_inc.rs:1238-1307 | the slot is flushed, sent, and the buffers swap |
| Stage1Worker.WorkerCtx.ResetInProgress | embedded-poc/embedded-shared/src/stage1_inc.rs:528-531 | the slot in progress is discarded, sent bundles are not |
| Stage1Worker.AutoShift | embedded-poc/embedded-shared/src/stage1_inc.rs:571-578 | the gain search loop computes its function |
| Stage1Runs.ProgressIgnoresChunking | embedded-poc/embedded-shared/src/stage1_inc.rs:601-640 | however the samples are chunked, pairs computed are 0 below 12 000 samples and min(limit, (fill-960)/1920) from there, and the bundle has left exactly from 960+1920*emit samples on |
| Stage1Runs.SentBundleIsAPrefix | embedded-poc/embedded-shared/src/pipeline.rs:86-95 | the bundle shares the slot's buffer, points at a prefix of its samples, and is never early |
| Stage1Runs.SentBundleIsTheSpectrum | embedded-poc/embedded-shared/src/stage1_inc.rs:682-700 | rows below `valid_rows` are the spectrum of that prefix at the slot's gain, the rest are zero |
| Stage1Runs.RunInv | embedded-poc/embedded-shared/src/stage1_inc.rs:501-644 | buffer, peak, lock, pair count and spectrogram of the slot in progress are right after every message, before and after its bundle has left |
| Stage1Runs.LaterRowsAreTheSpectrum | embedded-poc/embedded-shared/src/stage1_inc.rs:601-611 | with a waterfall the rows computed after the bundle has left are the slot's spectrum from the bundle's last row on; without one nothing is computed |
| Stage1Sums.SentSumsAreTheRows | embedded-poc/embedded-shared/src/pipeline.rs:73-84 | the two tables a bundle carries are the direct tone sums of its valid rows, and zero past them |
| Stage1Sums.RunSums | embedded-poc/embedded-shared/src/stage1_inc.rs:1101-1102 | after every message both tables hold the sums of exactly the pairs computed |
| Stage1Sums.RunTicks | embedded-poc/embedded-shared/src/stage1_inc.rs:1104-1127 | the rows offered to the waterfall are the slots' pairs in order, each from its own two spectrogram rows |
| Stage1Runs.RowsOfPrefix | embedded-poc/embedded-shared/src/stage1_inc.rs:620-629 | a pair reads nothing past the samples the loop waited for |
| Stage1Windows.BundleLevels | embedded-poc/embedded-shared/src/stage1_inc.rs:1083-1100 | row m of a bundle is, at every bin, the level of the half-sums of the transform of samples 960 m to 960 m + 1919 at the slot's gain (beside the pair's other window), written out from the samples; rows past the valid ones are zero |
| Stage1Windows.ProgressLevels | embedded-poc/embedded-shared/src/stage1_inc.rs:1083-1100 | and so is every computed row of the slot in progress, before and after its bundle has left |
| Stage1Windows.RowOfItsWindow | embedded-poc/embedded-shared/src/stage1_inc.rs:870-908 | where the transform is exact on the pair, row m is the level of the spectrum of its own window alone |
| Stage1Windows.RowReadsItsWindow | embedded-poc/embedded-shared/src/stage1_inc.rs:1083-1100 | so audio that agrees on that window has that row |
| Stage1Runs.LongChunkDropped | embedded-poc/embedded-shared/src/stage1_inc.rs:533-548 | a chunk that would take the slot past 180 000 samples is dropped whole |
| Stage1Pairing.BundleCount | embedded-poc/embedded-shared/src/stage1_inc.rs:646-702 | bundles sent = slots sent + resets that came too late + the one the slot in progress has sent |
| Stage1Pairing.SlotAndItsBundle | embedded-poc/embedded-shared/src/stage1_inc.rs:1280-1306 | slot k's own bundle is number k + late resets, in the same buffer, a prefix of its samples with their spectrum |
| Stage1Pairing.BundlePointsAtAll | embedded-poc/embedded-shared/src/stage1_inc.rs:675-682 | a bundle points at everything received when it leaves |
| Stage1Pairing.FifoPairsExactly | embedded-poc/embedded-shared/src/stage1_inc.rs:693-695 | pairing by order of receipt is right for every slot if and only if no reset came too late before the last of them |
| Stage1Pairing.LateResetMispairs | embedded-poc/embedded-shared/src/stage1_inc.rs:524-531 | a chunk that sends the bundle, a reset and a slot end: a run that mispairs |
| Stage1Pairing.SlotBufferUnwritten | embedded-poc/embedded-shared/src/pipeline.rs:57-70 | a completed slot's buffer is unwritten until the next SlotEnd |
| Stage1Pairing.BundlePrefixUnwritten | embedded-poc/embedded-shared/src/pipeline.rs:57-70 | the prefix a bundle points at is unwritten while samples keep coming |
| Stage1Pairing.ResetFreesThePrefix | embedded-poc/embedded-shared/src/stage1_inc.rs:524-531 | after a reset the next sample overwrites the first one the bundle points at |
| Stage1Gain.ShiftIsSetAtLock | embedded-poc/embedded-shared/src/stage1_inc.rs:570-580 | the shift in force is that of the peak of everything received when the lock fell |
| Stage1Gain.ShiftIsLeast | embedded-poc/embedded-shared/src/stage1_inc.rs:571-578 | it is the least shift that reaches the target peak, or 8 |
| Stage1Gain.ShiftMeets | embedded-poc/embedded-shared/src/stage1_inc.rs:571-578 | it lifts the peak to 7680, or is 8, and no smaller one does |
| Stage1Gain.PeakIsLargest | embedded-poc/embedded-shared/src/stage1_inc.rs:549-560 | the peak is the largest magnitude received, at least 1 |
| Stage1Gain.FirstSecondSetsTheGain | embedded-poc/embedded-shared/src/stage1_inc.rs:1239-1247 | it is that of the first 12 000 samples if and only if the rest of that chunk was not loud enough to lower it |
| Stage1Gain.GainDependsOnChunking | embedded-poc/embedded-shared/src/stage1_inc.rs:1241-1242 | one audio, two chunkings, two gains |
| PairKernel.PackPair | embedded-poc/embedded-shared/src/stage1_inc.rs:713-754 | packing writes the scaled, clamped window samples and zeros past them, inside i32 |
| PairKernel.PackReadsWindows | embedded-poc/embedded-shared/src/stage1_inc.rs:713-754 | it depends on the two windows only |
| PairKernel.Demux | embedded-poc/embedded-shared/src/stage1_inc.rs:757-857 | the unrolled loop with its hoisted DC bin writes the one-bin formula at every bin of both rows, inside i32 and u32, and nothing else |
| PairKernel.PairKernelI16 | embedded-poc/embedded-shared/src/stage1_inc.rs:713-857 | one pair's rows are the formula's on the transform of the packed windows |
| PairKernel.DemuxSeparates | embedded-poc/embedded-shared/src/stage1_inc.rs:870-908 | of a packed transform A+iB with Hermitian A and B the halves are exactly A[k] and B[k] |
| RealRows.RealRowIsHermitian | embedded-poc/embedded-shared/src/stage1_inc.rs:870-908 | a real row's transform is conjugate at the mirror bin, over any exact ring with a conjugation |
| RealRows.OneTransformTwoRows | embedded-poc/embedded-shared/src/stage1_inc.rs:870-908 | one complex transform of a+ib yields both rows' transforms |
| Allsum.SlideSum | embedded-poc/embedded-shared/src/stage1_inc.rs:1190-1236 | a carrier's sum is the one two bins below, plus the next tone, less the first, clamp included |
| Allsum.UpdateOneHalf | embedded-poc/embedded-shared/src/stage1_inc.rs:1190-1236 | the two sliding windows write the direct seven-tap sum at every carrier, through integers an f32 holds exactly |
| Allsum.SevenTones | embedded-poc/embedded-shared/src/stage1_inc.rs:1214-1219 | that sum is of the seven bins two apart, where none is clamped |
| Allsum.AccumulateRows | embedded-poc/embedded-shared/src/stage1_inc.rs:1168-1188 | one column per finished row, the others untouched |
| Allsum.BandsNeverClamp | embedded-poc/embedded-shared/src/stage1_inc.rs:215-223 | in a band `band_for` yields the tone clamp fires for no carrier if and only if the spectrogram has 13 bins or more |
| Allsum.WideEnough | embedded-poc/embedded-shared/src/stage1_inc.rs:209-213 | `n_freq_for` yields at least 17 |
| Allsum.BandEdges | embedded-poc/embedded-shared/src/stage1_inc.rs:215-223 | a band runs between the bins nearest to its edges, less what the top tones need |
| Allsum.ShippedBands | embedded-poc/embedded-shared/src/stage1_inc.rs:205-223 | the shipped halves are 465 carriers each of a 977-bin spectrogram |
| MixedRadix.CooleyTukey | embedded-poc/embedded-shared/src/esp_dsp_fft.rs:1440-1480 | rows, twiddles and columns give the direct sum at k = N1*k2+k1, for every N1, N2 and input over any exact ring |
| MixedRadix.MixedRadixProcess | embedded-poc/embedded-shared/src/esp_dsp_fft.rs:1416-1481 | the five steps in place leave the direct DFT of what the buffer held |
| MixedRadix.DirectDft | embedded-poc/embedded-shared/src/esp_dsp_fft.rs:756-769 | the matrix-vector loop computes the same sum |
| FftTables.VisibleLengthHasItsTable | embedded-poc/embedded-shared/src/esp_dsp_fft.rs:664-680 | on every interleaving a visible length stands over its own table, and no length is in two slots |
| FftTables.LookupReturnsItsLength | embedded-poc/embedded-shared/src/esp_dsp_fft.rs:614-634 | a completed lookup returns a table generated for its length |
| FftTables.LookupsAgreeForever | embedded-poc/embedded-shared/src/esp_dsp_fft.rs:614-684 | all lookups of a length return one pointer, for ever |
| FftLock.LockedIffHeld | embedded-poc/embedded-shared/src/esp_dsp_fft.rs:623-634 | on every run the install lock is taken if and only if some task is inside the critical section, and then one is |
| FftLock.StepNearer | embedded-poc/embedded-shared/src/esp_dsp_fft.rs:614-684 | each step of a lookup but a wait brings it nearer to its return; the program stops only where the heap refuses or eight other lengths are installed |
| FftLock.SomeoneIsInside | embedded-poc/embedded-shared/src/esp_dsp_fft.rs:625-630 | a task that waits waits for another, which can step |
| FftLock.InsideIsBounded | embedded-poc/embedded-shared/src/esp_dsp_fft.rs:631-633 | a task that stays inside uses up its steps: it is out within 22 of its own |
| FftLock.ReturnsAlone | embedded-poc/embedded-shared/src/esp_dsp_fft.rs:614-684 | a lookup whose length is installed or still fits, and that need not wait, returns its table and leaves the lock free |
| FftLock.WaiterReturns | embedded-poc/embedded-shared/src/esp_dsp_fft.rs:614-684 | and one that has to wait does once the one inside is out |
| FftTables.PanicHasACause | embedded-poc/embedded-shared/src/esp_dsp_fft.rs:644-684 | on every run the program has stopped only because a table was refused, or because all eight slots carried other lengths when one was to be stored |
| FftTables.NinthLengthStops | embedded-poc/embedded-shared/src/esp_dsp_fft.rs:669-684 | and an installer that faces eight other lengths stores nothing and stops it within its remaining scan steps, whatever the other tasks do |
| FftFull.NinthLengthNeverReturns | embedded-poc/embedded-shared/src/esp_dsp_fft.rs:614-684 | once eight slots hold other lengths they always do, and no lookup of a ninth ever has a table to return |
| FftFull.NinthLengthWearsOut | embedded-poc/embedded-shared/src/esp_dsp_fft.rs:614-684 | each of its steps but a wait at the lock stops the program or leaves it fewer steps to that |
| FftFull.NineLengthsStop | embedded-poc/embedded-shared/src/esp_dsp_fft.rs:669-684 | a run that fills the slots, and its continuation that asks for a ninth length and stops |
| StreamRing.StreamInner.RingPush | mfsk-ffi/src/lib.rs:3610-3620 | the ring is the unread end of the history, the newest slot of it |
| StreamRing.StreamInner.TakeSlotI16 | mfsk-ffi/src/lib.rs:3735-3756 | one slot is copied out, dated and consumed, or nothing happens |
| StreamRing.StreamInner.DrainForDecode | mfsk-ffi/src/lib.rs:3808-3826 | the slot leaves the ring before the decode, whatever comes of it |
| StreamRing.StreamInner.ClearAll | mfsk-ffi/src/lib.rs:3763-3768 | everything buffered is dropped, the clock kept |
| StreamRing.ClearEmpties | mfsk-ffi/src/lib.rs:3763-3768 | after a clear nothing is buffered and no slot is ready until a slot's worth has been pushed; the clock stays |
| StreamRing.TakeTakesTheOldest | mfsk-ffi/src/lib.rs:3735-3756 | a take hands over the oldest slot's worth and leaves the rest |
| StreamRing.PushKeepsTheNewest | mfsk-ffi/src/lib.rs:3610-3620 | a push keeps the newest of what was buffered and pushed |
| StreamRing.PushAllIsOnePush | mfsk-ffi/src/lib.rs:3610-3620 | how samples are cut into pushes does not matter |
| StreamRing.RingRefinesHistory | mfsk-ffi/src/lib.rs:3501-3520 | on every run the history is what was pushed, taken + buffered = pushed, at most a slot is buffered, and slots handed over are ordered disjoint windows |
| StreamRing.SamplesConserved | mfsk-ffi/src/lib.rs:3610-3620 | every sample is handed over, dropped or buffered, once |
| StreamRing.SlotsAreDatedApart | mfsk-ffi/src/lib.rs:3522-3530 | with no epoch change, successive slots are dated a slot plus the gap apart |
| StreamRing.GapsAreDrops | mfsk-ffi/src/lib.rs:3613-3619 | and the gap is exactly what was dropped between them |
| StreamRing.EpochRedatesTheBuffer | mfsk-ffi/src/lib.rs:3697-3714 | a new epoch dates the next sample as told and moves buffered ones by the clock's correction; they keep their dates if and only if the clocks agree |
| StreamRing.BufferedSampleJumps | mfsk-ffi/src/lib.rs:3702-3704 | a buffered sample whose date jumps by almost 100 seconds |
| Fingerprint.AudioFingerprint | mfsk-ffi/src/lib.rs:2101-2110 | the hash loop computes its function, in 64-bit wrap-around |
| Fingerprint.MixInjective | mfsk-ffi/src/lib.rs:2105-2108 | each step is injective in the state and in the sample |
| Fingerprint.MixReaches | mfsk-ffi/src/lib.rs:2105-2108 | and surjective in both |
| Fingerprint.LengthIsHashed | mfsk-ffi/src/lib.rs:2103-2104 | buffers of different lengths start from different states |
| Fingerprint.SampleWord | mfsk-ffi/src/lib.rs:2106 | a sample is hashed as its two's complement word |
| Fingerprint.OneSampleEditChangesIt | mfsk-ffi/src/lib.rs:2094-2110 | changing exactly one sample always changes the fingerprint |
| DecodeSession.V2Decoder.RunDecode | mfsk-ffi/src/lib.rs:2126-2344 | what a decode leaves on the handle, for every search and mode |
| DecodeSession.V2Decoder.SetKeepFftCache | mfsk-ffi/src/lib.rs:2585-2601 | refused without the capability; switching off drops the cache |
| DecodeSession.V2Decoder.SetKeepKnown | mfsk-ffi/src/lib.rs:2539-2555 | refused without the capability; switching off drops the list |
| DecodeSession.NothingKeptUnasked | mfsk-ffi/src/lib.rs:2521-2601 | on every run nothing is kept with keeping off, and what is kept is kept for the last decode's audio |
| DecodeSession.KeepingKnown | mfsk-ffi/src/lib.rs:2539-2555 | keeping the list is on exactly when it was switched on and not off since, on a mode with a handle |
| DecodeSession.KnownIsKept | mfsk-ffi/src/lib.rs:2170-2172 | with keeping on and a decode since, the known list is exactly the last decode's rows, and every next request but a narrow one carries it |
| DecodeSession.CacheIsOffered | mfsk-ffi/src/lib.rs:2141-2168 | likewise the last decode's transform is kept, and offered to a next request for the same audio |
| DecodeSession.SearchPriority | mfsk-ffi/src/lib.rs:2260-2330 | narrow before staged before rounds; only FT8 has the first two, only FT8 and FT4 the third |
| DecodeSession.OneSampleEditTransformsAfresh | mfsk-ffi/src/lib.rs:2141-2150 | after a one-sample edit the cache is never offered |
| DecodeSession.SameAudioReuses | mfsk-ffi/src/lib.rs:2566-2577 | the same audio again is offered the transform the engine returned |
| DecodeSession.OfferedItsOwnTransform | mfsk-ffi/src/lib.rs:2143-2145 | that transform is the audio's own exactly when the first decode did not subtract, or had nothing to subtract, and was not itself offered a wrong one |
| DecodeSession.CacheIsOfOrigin | mfsk-ffi/src/lib.rs:2126-2344 | on every run the kept transform is the one built by the last decode that did not reuse what it was offered, under that audio's fingerprint |
| DecodeSession.CacheIsRightExactly | mfsk-ffi/src/lib.rs:1653-1660 | on every run over buffers the fingerprint tells apart, what is kept is the last audio's transform if and only if the decode that built it did not subtract, or had nothing to subtract |
| DecodeSession.CacheIsRight | mfsk-ffi/src/lib.rs:1653-1660 | in particular a run that never subtracts keeps only right caches |
| DecodeSession.StagedDecodePoisonsTheCache | mfsk-core/src/ft8/decode.rs:1749-1770 | a staged decode, then a plain one of the same slot: the plain one is offered the residual's transform |
| SizedStruct.WriteSizeVersioned | mfsk-ffi/src/lib.rs:1597-1610 | the declared prefix is written, headed by the size written, and nothing past it |
| SizedStruct.InitKeepsTheRest | mfsk-ffi/src/lib.rs:1728-1769 | bytes at and past the declared size are untouched, for every declared size |
| SizedStruct.WriteBySizeWord | mfsk-ffi/src/lib.rs:1597-1610 | a size word of 0, or of 92 and more, has all 92 bytes written and 92 told; one of 1 to 91 exactly that many |
| SizedStruct.ReadParamsChecked | mfsk-ffi/src/lib.rs:1980-2043 | the overlay, the checks in their order, and the parse |
| SizedStruct.ReadIsThePrefixOverDefaults | mfsk-ffi/src/lib.rs:1994-2004 | an accepted read is the caller's bytes up to the declared size and the defaults' after it |
| SizedStruct.ReadBySizeWord | mfsk-ffi/src/lib.rs:1986-2004 | and an accepted read takes the caller's bytes up to there, the defaults' from there on |
| SizedStruct.DepthBySizeWord | mfsk-ffi/src/lib.rs:2033-2040 | the depth is the caller's if it is in the prefix and not 0, else the defaults' |
| SizedStruct.FieldOffsets | mfsk-ffi-abi/src/lib.rs:492-535 | which bytes each field is read from |
| SizedStruct.FirstErrorIsReported | mfsk-ffi/src/lib.rs:2007-2031 | the error is that of the first field out of range, in the order of the checks |
| SizedStruct.SizeAndDepthResolve | mfsk-ffi/src/lib.rs:2033-2042 | the size is full, and "mode default" resolves to the default depth |
| SizedStruct.WordFieldIsTheCallers | mfsk-ffi/src/lib.rs:1994-2004 | a word field wholly inside the prefix is the caller's, one wholly past it the default |
| SizedStruct.RefusedExactly | mfsk-ffi/src/lib.rs:2007-2031 | for every declared size, refused exactly when one of three enums or two bools is out of range as far as the prefix covers it, the rest of a partly covered enum being the default's |
| SizedStruct.ParseImage | mfsk-ffi-abi/src/lib.rs:492-535 | a struct laid out and read back is itself |
| SizedStruct.ImageParse | mfsk-ffi-abi/src/lib.rs:492-535 | valid bytes read and laid out are themselves |
| SizedStruct.InitThenReadIsDefaults | mfsk-ffi/src/lib.rs:1718-1769 | initialising any declared size and reading back over the same defaults returns them |
| Waterfall.WfRowBuilder.Push | embedded-poc/embedded-shared/src/waterfall.rs:195-209 | the rows handed over are those of the whole stream that its blocks completed |
| Waterfall.WfRowBuilder.WindowedRow | embedded-poc/embedded-shared/src/waterfall.rs:216-249 | the two-segment copy is the last 2048 samples, oldest first, times the window |
| Waterfall.RowCadence | embedded-poc/embedded-shared/src/waterfall.rs:193-209 | for any block sizes row r ends exactly at sample 2048 + 2000 r, its k-th entry is sample 2000 r + k times window[k], and there are no others |
| WorkerArena.OneOwnerSucceeds | embedded-poc/embedded-shared/src/worker_arena.rs:88-128 | any two reservations that returned true did so for one block, and those that had allocated or found their owner's allocation made are of its owner |
| WorkerArena.ClaimsAgree | embedded-poc/embedded-shared/src/worker_arena.rs:56-60 | all successful claims get the same block, as large as each asked |
| WorkerArena.SettledClaimIsOwn | embedded-poc/embedded-shared/src/worker_arena.rs:134-152 | a claim that looked after its owner's allocation gets that owner's block, or nothing |
| WorkerArena.PublishedClaim | embedded-poc/embedded-shared/src/worker_arena.rs:134-152 | once a block is published a claim gets it exactly when its owner is the block's and it is large enough |
| WorkerArena.FirstReservation | embedded-poc/embedded-shared/src/worker_arena.rs:88-128 | with no owner a reservation succeeds exactly if the allocator does, and leaves nothing behind if not |
| WorkerArena.RepeatedReservation | embedded-poc/embedded-shared/src/worker_arena.rs:90-97 | once an allocation has succeeded another owner is refused, and the same allocates nothing |
| WorkerArena.CallsEnd | embedded-poc/embedded-shared/src/worker_arena.rs:88-152 | every call ends within four of its own steps |
| WorkerArena.AClaimIsRobbed | embedded-poc/embedded-shared/src/worker_arena.rs:90-152 | a run of two tasks in which FT8's claim gets the block FST4 reserved |
| WorkerArena.ExclusiveIffAllocated | embedded-poc/embedded-shared/src/worker_arena.rs:90-152 | from any reachable state, a call that has just seen its owner can only ever be served that owner's block if and only if the allocation has already succeeded |

## Left out

- Memory orderings: atomics are sequentially consistent; the acquire and release annotations of the registry, the arena and the claim counter are taken as sufficient for that.
- WorkerArena.OneOwnerSucceeds: does not say that a repeated reservation that looked before its owner's allocation succeeded is of the block's owner, because the code lets it return true for another's; WorkerArena.ExclusiveIffAllocated says exactly when.
- Fst4Runs.TimedIsAPrefixLessTwo: `work` gives what the one call for an index returned, so the clock readings in a monitor hit are those of that call; what another call would have read is not modelled.
- TieBreaks.SplitSameExactly: the drain order is any order; which one the standard library's heap has is not modelled, so without the condition some order differs, not necessarily that one. Of equal candidates only the sufficient half is stated, since they cannot be told apart.
- InTimeCount.InTimeExactly: which rows were decoded by the boundary is an arbitrary answer, since the code does not record it.
- MixedRadix.MixedRadixProcess: does not model the sc16 rows' scaling, the rounding and the clamp of the write-back, because the statement is about exact arithmetic; the 256- and 15-point inner transforms are assumed to compute their DFTs.
- Waterfall.WfRowBuilder.WindowedRow: products are exact reals, not f32.
- SizedStruct.InitKeepsTheRest: asks for four readable bytes, which reading the size already needs, also for declared sizes 1 to 3.
- The sync-quality, fine-sync and decode functions, coarse sync, FEC and message codecs: parameters of the models.
- The timing probes of the spectrogram task, how two rows map to a waterfall row's palette, and whether the waterfall's queue was full; `wf_row`'s palette mapping.
- Deadlines.CutWithBudgetDisabled: a batch may be left short wherever something could have stopped it; that successive polls read a clock that only runs forward is not modelled.
- The arithmetic of the slot floor and of the slack for fine sync, and telemetry: what they compare with the clock is an arbitrary answer.
- The resamplers and the float push paths of the stream, and wrap-around of its 64-bit counters.
- The session's hash table, callbacks, budgets and row emission.
- `wspr_dual_core.rs`, the planners, FreeRTOS, WiFi, display, board, build, Java, Kotlin and Swift code.
