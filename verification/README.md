# Verified model of the reflection memory service

This project models the parts of the memory service that are hard to get right and
proves what they promise, in Dafny. `dafny verify dfyconfig.toml` checks all of it.

## What is modelled

**The snapshot queue** (`QueueModel`, `QueueInvariant`, `QueueRuns`, `QueueTheorems`,
`QueueOutcomes`, `QueueGenerations`, `QueueHistories`, `QueueService`). One segment has rows of jobs, at most one target with an optional staged
extraction, and at most one committed segment. Each transaction is a function on these
tables, and the class `SegmentQueue` runs it statement by statement. A run is any
interleaving of requests, claims, slow publications, commits, failures, restarts, operator
actions and deployments, and claims live for ever, so stale and crashed workers are part
of every run.

- A fingerprint is what is hashed (SHA-256 is taken as injective). The segment ID is a hash of
  the session and the start of the range: of the start user message on boundary version 1, of
  the start source message on versions 2 and 3. These columns are constant here. On version 2
  the parser and the schema force the start and end user messages to be equal, so
  `Boundary.user` stands for both; on version 3 there are none.
- A projection fingerprint is what it hashes too: range, summary and version, of which the source
  hashes the end of the range. Segments and staged results carry theirs.
- `Job.recoveries` and `Extraction.origin` are history variables that no branch reads.
- The unique index of the jobs covers the row key and not the user messages of the range
  (`Boundary.key`, `Boundary.user`). `EnqueueFailsIff` says when that matters, and two runs
  show that it does.
- An ignored row gets the column default 0 as its generation.
- Which of several claimable rows is oldest, and when a retry time comes, is left open.

**The segment planner** (`SegmentPlan`, `SegmentTheorems`, `SegmentReplan`,
`SegmentTargets`, `SegmentGreedy`, `SegmentSession`, `SegmentPlanner`). Plans are functions of the records and the manifest; the methods are the
planner's loops. Native segment IDs are injective in the first message.

**The cursor projection** (`CursorModel`, `CursorTheorems`, `CursorChoice`, `CursorModes`,
`CursorProjector`). Token
estimates, the provider's measurements and the cost of a notice are arbitrary parameters of
the input; the methods work on arrays and moving indices like the source.

**The model client** (`AsciiJson`, `JsonScan`, `JsonTheorems`, `JsonLiterals`, `JsonErrors`,
`JsonMeaning`, `Batching`, `PromptBudget`, `PromptTheorems`, `PromptOrder`, `PromptBuilder`,
`Utf8Agreement`). Strings are UTF-16 code units, and lengths
in UTF-8 are computed from them, lone surrogates included. JSON is a tree that keeps its white
space, so that it stands for every text of the grammar.

**The private slots of a configuration** (`SecretModel`, `SecretTheorems`, `SecretBinding`,
`SecretExact`, `SecretConverter`). A draft is a JSON tree with tokens. `Settings` is the walk over open
options; the results about recording and binding hold for any draft at all.

**Framing** (`Framing`). The texts that are hashed into fingerprints, and readers for them.

**Retries** (`RetryModel`, `RetryTheorems`, `RetryProgress`, `RetryService`). A key runs from wait to wait;
every reply of the network is possible at every wait, and a session may be cleared at any time.

**The worker** (`WorkerModel`, `WorkerTheorems`, `WorkerProgress`, `WorkerService`). An event is what runs
between two waits of the claiming loop, of a task or of the lane. The lane is its chain of
promises.

## What the proofs found

- In a queue that started empty two branches can never run: the one of a failed attempt that
  drops a target the segment covers (`QueueTheorems.FailureKeepsTarget`), and the one of a
  commit that keeps a segment of a higher version (`QueueTheorems.CommitWritesItsSnapshot`).
  The same holds for the corrupt-payload branches of a claim.
- Generations are not globally fresh. The next generation falls exactly when a request settles
  on a row that alone carries the highest generation, above the segment's
  (`QueueGenerations.GenerationFallsIff`), and a run of ten events hands generation 2 to two
  different contents (`QueueHistories.GenerationIsHandedOutTwice`). Freshness is therefore
  stated relative to claims (`StaleForEver`).
- Two requests whose ranges share a row key but not a user message can fail: one behind a
  running row, one of a lower version (`QueueHistories.LostBoundaryJobOccurs`,
  `UniqueViolationOccurs`; exactly when, `QueueTheorems.EnqueueFailsIff`).
- A task that ends while a claim is out is not heard. `WorkerTheorems.CompletionIsMissed` is a
  run in which the loop goes to sleep over a free session with nobody left to wake it, and
  `CompletionIsMissedIff` says exactly when an empty answer leaves it so. No property of safety
  depends on it.
- A summary whose request fits is passed over when an earlier one within the target does not fit:
  the search then goes on message by message (`CursorModes.FiresBeyondSummary`).
- The planner's error about segments that are not contiguous cannot occur.

## Model

| member | source | states |
|---|---|---|
| `QueueTheorems.CommitsAreCurrent` | server/src/database.ts:2672-3042 | Over any reachable state and any event, the committed segment changes only by a commit of a claim that holds its lease and whose snapshot the target still carries; it then stores the staged extraction, whose contents are those committed and which was extracted from exactly the claimed fingerprint, at a strictly higher generation and no lower projection version |
| `QueueTheorems.PublicationsAreCurrent` | server/src/database.ts:2444-2562 | A staged result appears or changes only by a publication of a current claim, and is the extraction of the claimed source, marked with the running validator version |
| `QueueTheorems.StaleClaimWritesNothing` | server/src/database.ts:613-660 | Publishing, committing or failing under a claim that is not current leaves the segment, the staged result and the target as they are |
| `QueueTheorems.StaleForEver` | server/src/database.ts:613-660 | A claim that is once out of date never becomes current again, over any further interleaving, even when equal content comes back |
| `QueueTheorems.StaleClaimNeverWrites` | server/src/database.ts:637-660 | After any further run a stale claim still changes neither segment nor target |
| `QueueTheorems.RetargetOutdatesClaims` | server/src/database.ts:1484-1592 | Every enqueue that sets a new target makes every outstanding claim stale |
| `QueueTheorems.ReturningContentIsNotTheClaim` | server/src/database.ts:1484-1592 | Content going from A to B and back to A while a worker holds the first claim: its answer about the first A is never stored, whatever happens in between |
| `QueueTheorems.SegmentRises` | server/src/database.ts:2672-3042 | Over any run the committed generation and projection version never fall, and two different commits never share a generation |
| `QueueTheorems.EligibleIffSettled` | server/src/database.ts:81-121 | A committed summary is eligible for search exactly when a segment exists and no target is outstanding |
| `QueueTheorems.EnqueueReaches` | server/src/database.ts:1191-1619 | What each outcome of an enqueue means: below a version already accepted and nothing changed, the same snapshot with a priority that did not fall, already committed, or the target with a generation above all others |
| `QueueTheorems.EnqueueFailsIff` | server/src/database.ts:1493-1553 | An enqueue fails exactly when its row key is taken by a row of another user boundary that the branch taken may not overwrite |
| `QueueHistories.LostBoundaryJobOccurs` | server/src/database.ts:1546-1553 | From an empty store: a request, its claim, and a request with the same row key and another user boundary that loses its job to the running row and changes nothing |
| `QueueHistories.UniqueViolationOccurs` | server/src/database.ts:1284-1325 | From an empty store: a request, and one of a lower version with the same row key and another user boundary that violates the unique index |
| `QueueGenerations.GenerationFallsIff` | server/src/database.ts:1398-1492 | In every reachable state and for every event, the generation that would be handed out next falls exactly if the event is a request that settles on a row which alone carries the highest generation, above the segment's |
| `QueueHistories.GenerationIsHandedOutTwice` | server/src/database.ts:1398-1492 | From an empty store: a run of ten events in which two different contents are the target under generation 2 |
| `QueueTheorems.TargetJobIsOpen` | server/src/database.ts:1593-1612 | The target's job exists and is pending at the target's snapshot, running, or failed and retryable; never succeeded or superseded |
| `QueueTheorems.WaitingTargetIsClaimed` | server/src/database.ts:1954-2206 | A pending target is selected by the claim query as soon as nothing runs; the claim carries exactly the target's snapshot, and a staged result only of that very source |
| `QueueTheorems.ClaimsNeverPoison` | server/src/database.ts:2085-2188 | The branches that fail a row with a corrupt payload are unreachable |
| `QueueTheorems.OutdatedWorkRequeues` | server/src/database.ts:2349-2442 | Publishing, committing or failing by an out-of-date worker that still holds its lease puts the latest target to work with a fresh budget and leaves nothing running; a call that is refused for its arguments changes nothing |
| `QueueTheorems.RecoveryRequeues` | server/src/database.ts:1828-1952 | After crash recovery nothing runs and the target's job waits or has failed at the target's own snapshot |
| `QueueTheorems.FailureKeepsTarget` | server/src/database.ts:2318-2346 | The branch of a failed attempt that drops a target which the segment covers is never taken |
| `QueueTheorems.CommitWritesItsSnapshot` | server/src/database.ts:2782-2837 | A successful commit always writes the claimed snapshot: the branch that keeps a segment of a higher version is never taken |
| `QueueTheorems.WorkerPassCommits` | server/src/worker.ts:134-200 | A claim, a publication and a commit take a waiting target to the committed segment |
| `QueueTheorems.TargetIsReachable` | scripts/src/backfill.ts:722-735 | From every reachable state with a target, a restart, a retry if needed and one worker pass commit that target: no work is lost, and a target whose job is superseded does not occur |
| `QueueInvariant.EnqueueKeeps` | server/src/database.ts:1191-1619 | Enqueue keeps the invariant: unique row keys, lease exactly on running rows, at most one running job, unfinished rows belong to the target, target above the segment and every other running job, segment extracted from its own fingerprint |
| `QueueInvariant.RequeueKeeps` | server/src/database.ts:2349-2442 | Requeueing keeps the invariant, leaves nothing running and makes the target's row equal to the target |
| `QueueInvariant.CommitKeeps` | server/src/database.ts:2672-3042 | Committing keeps the invariant in every branch |
| `QueueInvariant.RecoverKeeps` | server/src/database.ts:1828-1952 | Recovery keeps the invariant and leaves nothing running |
| `QueueRuns.NextKeepsLeasedRows` | server/src/database.ts:613-660 | No transaction touches a row that still runs under an older lease, so a worker with a valid lease sees the row it claimed |
| `QueueRuns.AttemptsKeep` | server/src/worker.ts:245-257 | Attempts never exceed the budget plus the crash recoveries since the last reset, and a pending job always has an attempt left |
| `QueueRuns.Reachable` | server/src/database.ts:1191-2442 | Every state reachable from an empty store by any interleaving satisfies the invariant, the facts about claims and the attempt accounting |
| `QueueOutcomes.FailureDecides` | server/src/database.ts:2221-2346 | In every reachable state the failed attempt of a current claim leaves target, segment and other rows alone; its row keeps snapshot, payload, priority and attempts, loses its lease, and waits again exactly if the failure is not terminal and the attempt is below the budget, and has failed otherwise |
| `QueueOutcomes.FailureIsClaimedAgain` | server/src/worker.ts:245-257 | Below the budget a retryable failure and one claim hand out the same snapshot at the next attempt, without an operator |
| `QueueOutcomes.BudgetRunsOut` | server/src/worker.ts:245-257 | A job that always fails gets exactly the attempts that the budget leaves it and has then failed, with its target still there |
| `QueueOutcomes.ClaimReusesIff` | server/src/database.ts:2007-2060 | A claim counts one attempt more and brings along the staged result exactly if it is eligible |
| `QueueOutcomes.RecoveryDecides` | server/src/database.ts:1828-1952 | Recovery puts the target's interrupted job back to waiting at the target's snapshot, with its attempts if it ran at that snapshot and none otherwise, supersedes any other interrupted row and leaves the rest |
| `QueueOutcomes.RetryableIff` | server/src/database.ts:1636-1694 | A job can be retried or dismissed exactly if it is the target's and has failed |
| `QueueOutcomes.RetryDecides` | server/src/database.ts:1700-1761 | A retry leaves the target waiting with a fresh budget and drops the staged result exactly if the extraction is to start again; nothing else changes |
| `QueueOutcomes.DismissalDecides` | server/src/database.ts:1763-1808 | A dismissal supersedes the row and gives up the target, and changes nothing else |
| `QueueOutcomes.RefreshDecides` | server/src/database.ts:1337-1396 | The same snapshot again: the priority is the higher of the two, a failed job starts again exactly if its staged result is no longer eligible, a running job is left alone |
| `QueueOutcomes.SettleDecides` | server/src/database.ts:1398-1482 | Content that is committed already leaves a succeeded row at the segment's snapshot and changes no other row, target or segment |
| `QueueService.SegmentQueue.Enqueue` | server/src/database.ts:1191-1619 | The five outcomes of an ingest request, statement by statement; the new tables and the result are those of the transaction in QueueModel and the invariant holds again |
| `QueueService.SegmentQueue.EnqueueTarget` | server/src/database.ts:1484-1612 | Generation, upsert on the unique key, target replacement and superseding of the other rows; proved equal to its function in QueueModel |
| `QueueService.SegmentQueue.HighestGeneration` | server/src/database.ts:1484-1492 | The largest generation among segment, target and jobs, by a loop over the rows; proved equal to its function in QueueModel |
| `QueueService.SegmentQueue.ClaimJob` | server/src/database.ts:1954-2206 | The claim; its corrupt-payload branch is proved dead; the new tables and the result are those of the transaction in QueueModel and the invariant holds again |
| `QueueService.SegmentQueue.RequeueLatestTarget` | server/src/database.ts:2349-2442 | Giving up a job and putting the latest target to work; proved equal to its function in QueueModel |
| `QueueService.SegmentQueue.PublishExtraction` | server/src/database.ts:2444-2562 | The fenced publication; the new tables and the result are those of the transaction in QueueModel and the invariant holds again |
| `QueueService.SegmentQueue.CommitResolution` | server/src/database.ts:2672-3042 | The fenced commit; the new tables and the result are those of the transaction in QueueModel and the invariant holds again |
| `QueueService.SegmentQueue.FinishFailedAttempt` | server/src/database.ts:2221-2346 | The end of a failed attempt, with or without retry; the new tables and the result are those of the transaction in QueueModel and the invariant holds again |
| `QueueService.SegmentQueue.RecoverRunningJobs` | server/src/database.ts:1828-1952 | Crash recovery of every running row; the new tables and the result are those of the transaction in QueueModel and the invariant holds again |
| `QueueService.SegmentQueue.RetryFailedJob` | server/src/database.ts:1700-1761 | An operator's retry, with or without restarting the extraction; the new tables and the result are those of the transaction in QueueModel and the invariant holds again |
| `QueueService.SegmentQueue.SupersedeFailedJob` | server/src/database.ts:1763-1808 | An operator's dismissal of a failed job; the new tables and the result are those of the transaction in QueueModel and the invariant holds again |
| `SegmentTheorems.PackPartitions` | packages/opencode-v2-core/src/segmentation.ts:272-294 | Greedy packing loses, repeats and reorders nothing; each closed chunk is within the soft limit or one record, and the open rest is below it |
| `SegmentTheorems.PackResumes` | packages/opencode-v2-core/src/segmentation.ts:272-294 | From any closed boundary on, packing only the fresh records gives the rest of the full packing |
| `SegmentTheorems.IncrementalPlanning` | packages/opencode-v2-plugin/src/index.ts:534-552 | Behind any closed segment of a plan, the plan of the fresh records is exactly the rest of the full plan, and the closed segments cover exactly the records before |
| `SegmentTheorems.AppendingKeepsClosedSegments` | packages/opencode-v2-core/src/segmentation.ts:272-294 | Appending records never changes a segment that was closed |
| `SegmentSession.SessionSubmitsThePlan` | packages/opencode-v2-plugin/src/index.ts:534-552 | Over a session of growing transcripts, planning only the records behind the last submitted message, whatever submissions fail: what was submitted is the beginning of the one-shot plan of the last transcript, and all of it once a turn goes through |
| `SegmentSession.SessionKeepsStep` | packages/opencode-v2-plugin/src/index.ts:401-410 | After every turn the submitted segments are the first closed segments of the whole transcript and the stored message is the last of them |
| `SegmentPlan.SortIsPermutation` | packages/opencode-v2-core/src/segmentation.ts:103-107 | Sorting the anchors loses and adds none |
| `SegmentPlan.KeptAreDisjoint` | packages/opencode-v2-core/src/segmentation.ts:103-128 | Anchors that survive conflict resolution are ordered and disjoint and come from the manifest |
| `SegmentPlan.AnchorsForAreOrdered` | packages/opencode-v2-core/src/segmentation.ts:68-129 | Whatever the manifest holds, resolved anchors are ordered, disjoint and inside the transcript, so the planner's contiguity error cannot occur |
| `SegmentTargets.LocateDecides` | packages/opencode-v2-core/src/segmentation.ts:83-102 | A manifest entry is dropped exactly if one of its ends is lost, and refused exactly if its ends are reversed, its range too large or its ID wrong; otherwise it is located where its ends are |
| `SegmentTargets.TargetsWin` | packages/opencode-v2-core/src/segmentation.ts:107-126 | If the anchors are resolved, every located start has exactly one kept anchor, and a located target is kept itself, whatever boundaries start there too |
| `SegmentTargets.KeptComeFromEntries` | packages/opencode-v2-core/src/segmentation.ts:103-128 | A kept anchor is what some entry locates, and a kept boundary means that no target starts there |
| `SegmentTargets.AnchorIsPlanned` | packages/opencode-v2-core/src/segmentation.ts:226-270 | The range of a kept anchor within the complete records is planned exactly, closed exactly if a record follows or its weight is at the limit, unless it is open and no open snapshot is wanted |
| `SegmentTargets.TargetIsPlanned` | packages/opencode-v2-core/src/segmentation.ts:107-126 | So an outstanding target within the complete records is planned again exactly as it stands |
| `SegmentGreedy.PackIsGreedy` | packages/opencode-v2-core/src/segmentation.ts:272-294 | A chunk is closed at the first record that reaches the limit or before one that would pass it, never without need and never too late; what is left open is below the limit |
| `SegmentGreedy.HydratesIff` | packages/opencode-v2-core/src/segmentation.ts:297-316 | A range hydrates exactly if the transcript holds it complete and in order, and to exactly its messages |
| `SegmentGreedy.ValidIff` | packages/opencode-v2-core/src/segmentation.ts:318-330 | A request is accepted exactly if its messages are those of the transcript |
| `SegmentReplan.SlicesAreWellPlanned` | packages/opencode-v2-core/src/segmentation.ts:206-295 | Every plan, around any anchors, runs without gap from the first record on; only its last segment may be open, and only when open snapshots are wanted |
| `SegmentReplan.PlanShape` | packages/opencode-v2-core/src/segmentation.ts:206-295 | The segments are a prefix of the complete records before the first incomplete one, in order, and all of them when open snapshots are allowed |
| `SegmentReplan.PlannedWithinLimit` | packages/opencode-v2-core/src/segmentation.ts:206-295 | Each planned segment is within the soft limit, is a single record, or is exactly a range the manifest fixed |
| `SegmentReplan.ManifestIsLocated` | packages/opencode-v2-core/src/segmentation.ts:83-102 | Every boundary of a plan is located again exactly where its segment was |
| `SegmentReplan.ReplanIsFixedPoint` | packages/opencode-v2-core/src/segmentation.ts:226-270 | Planning again with the plan's own closed segments as manifest returns the same plan |
| `SegmentReplan.ReplanAfterGrowth` | packages/opencode-v2-core/src/segmentation.ts:226-270 | Planning again from these boundaries over a longer transcript keeps every closed segment |
| `SegmentReplan.PlannedRequestsAreValid` | packages/opencode-v2-core/src/segmentation.ts:297-330 | Each planned request hydrates back to its own messages and passes validation, now and after the transcript has grown |
| `SegmentPlanner.ValidateRecords` | packages/opencode-v2-core/src/segmentation.ts:50-66 | Succeeds exactly on unique matching IDs and texts within the limit, and returns the index of each ID |
| `SegmentPlanner.LocateAnchors` | packages/opencode-v2-core/src/segmentation.ts:78-102 | The manifest entries found in the transcript, or the first error |
| `SegmentPlanner.KeepAnchors` | packages/opencode-v2-core/src/segmentation.ts:103-128 | One anchor for each start, a target before a boundary, conflicts and overlaps refused |
| `SegmentPlanner.PackRange` | packages/opencode-v2-core/src/segmentation.ts:229-255 | The packing loop between two anchors |
| `SegmentPlanner.PlanNativeSegments` | packages/opencode-v2-core/src/segmentation.ts:206-295 | The planner's loops return exactly the plan of SegmentPlan, with its errors |
| `CursorTheorems.CallsAreLatest` | packages/opencode-v2-plugin/src/cursor.ts:108-121 | The call a result is matched with is the latest one of its ID before it |
| `CursorProjector.ToolSafeStarts` | packages/opencode-v2-plugin/src/cursor.ts:108-127 | The difference array marks a start safe exactly when no matched call and result lie on different sides of it |
| `CursorProjector.MarkPairs` | packages/opencode-v2-plugin/src/cursor.ts:109-121 | After the pass over the parts the array holds exactly the differences of all matched pairs |
| `CursorTheorems.TailIsSafe` | packages/opencode-v2-plugin/src/cursor.ts:419-466 | In every mode, trimmed or not, the tail starts at a safe index |
| `CursorTheorems.TailKeepsCalls` | packages/opencode-v2-plugin/src/cursor.ts:345-417 | No tool result is sent without its matched call |
| `CursorTheorems.FitSize` | packages/opencode-v2-plugin/src/cursor.ts:385-417 | Trimming changes the size estimate by the notice and the dropped messages and by nothing else |
| `CursorTheorems.HeuristicSize` | packages/opencode-v2-plugin/src/cursor.ts:345-417 | A heuristic estimate, trimmed or not, is system plus notice plus the summed costs of the tail that is sent |
| `CursorTheorems.RunsAreMaximal` | packages/opencode-v2-plugin/src/cursor.ts:270-293 | Markers are exactly the maximal runs of ID-bearing messages that no summary covers |
| `CursorTheorems.ShownIsLongestSuffix` | packages/opencode-v2-plugin/src/cursor.ts:247-260 | The summaries shown are the longest newest-first suffix within the budget |
| `CursorTheorems.ArchiveAccounts` | packages/opencode-v2-plugin/src/cursor.ts:234-294 | In both forms of the archive: with summaries it names the omitted count, shows the longest newest-first suffix within the budget and marks exactly the uncovered runs; with the cached block it marks exactly the runs behind the last message the block covers; `missing` counts the marks |
| `CursorProjector.SweepMissing` | packages/opencode-v2-plugin/src/cursor.ts:270-293 | The two-pointer sweep over sorted, possibly nested or overlapping ranges agrees with naive membership |
| `CursorProjector.SelectSummaries` | packages/opencode-v2-plugin/src/cursor.ts:247-260 | The newest-first walk within the budget |
| `CursorProjector.BuildArchive` | packages/opencode-v2-plugin/src/cursor.ts:234-294 | The whole archive block, from summaries or from the cached block |
| `CursorProjector.FindCut` | packages/opencode-v2-plugin/src/cursor.ts:204-219 | The start behind an archived message: past its tool messages, or back to a safe start |
| `CursorProjector.FitBudget` | packages/opencode-v2-plugin/src/cursor.ts:385-417 | The trimming loops: forward while over the hard budget, back to keep calls |
| `CursorProjector.ChooseFireCut` | packages/opencode-v2-plugin/src/cursor.ts:438-457 | The first summary cut within the target, or a further cut when summaries lag behind |
| `CursorProjector.SelectCursorProjection` | packages/opencode-v2-plugin/src/cursor.ts:143-466 | The whole selection with its three modes, equal to the reference selection on every input |
| `CursorTheorems.SelectHoldsLatestUser` | packages/opencode-v2-plugin/src/cursor.ts:296-341 | The latest ID-bearing user message is in the tail or copied in the notice, whatever mode is chosen |
| `CursorModes.ModeIsDecided` | packages/opencode-v2-plugin/src/cursor.ts:419-466 | On every input: the stored cut is kept exactly if its request fits the soft budget; otherwise everything is sent exactly if it fits soft, or there are fewer than two messages, or no cut exists, or the fired request is over hard while everything is not; otherwise the request archives through the chosen cut and stores it |
| `CursorModes.FireCutIsChosen` | packages/opencode-v2-plugin/src/cursor.ts:438-457 | The chosen cut: the first located summary's that leaves a tail within the target, else the last one's; if its request is over soft, the first further message's within the target, else the last further one |
| `CursorModes.ChosenIsUnique` | packages/opencode-v2-plugin/src/cursor.ts:438-457 | These words determine one cut |
| `CursorModes.FiresThroughEarliestSummary` | packages/opencode-v2-plugin/src/cursor.ts:438-466 | If nothing else fits soft and the first summary within the target does, the request archives through exactly that summary, is sent untrimmed and stores its message |
| `CursorModes.FiresBeyondSummary` | packages/opencode-v2-plugin/src/cursor.ts:446-466 | If that summary's request is over soft, the first further message within the target is taken, even where a later summary would fit |
| `CursorChoice.LocatedAre` | packages/opencode-v2-plugin/src/cursor.ts:188-196 | Exactly the summaries with both ends in the transcript and in order are located, and where they lie |
| `CursorChoice.IncludedAre` | packages/opencode-v2-plugin/src/cursor.ts:247 | Of these exactly the ones that end by the cut are included, each as often as it is located |
| `CursorChoice.CutStarts` | packages/opencode-v2-plugin/src/cursor.ts:204-219 | A cut starts behind the tool messages of its message if that is safe and something is left, else at the last safe start up to the next message; there is none exactly if the message is unknown or that is the beginning |
| `CursorChoice.AnchorIffArchived` | packages/opencode-v2-plugin/src/cursor.ts:220-230 | A user message is copied exactly if it is archived: the latest for a fresh cut, the recorded one for a kept cut |
| `CursorChoice.NoticeIs` | packages/opencode-v2-plugin/src/cursor.ts:296-341 | A notice stands in front exactly if something is archived or dropped; its count and its copied message |
| `CursorChoice.SizeIs` | packages/opencode-v2-plugin/src/cursor.ts:345-380 | A measurement counts before a bound, a bound only where asked for, the estimate only without both |
| `CursorChoice.FitDropsLeast` | packages/opencode-v2-plugin/src/cursor.ts:385-417 | A request within the hard budget is sent as it is; otherwise the tail starts at the first safe message at which it fits, and if there is none at the last safe one |
| `CursorTheorems.SelectIsFresh` | packages/opencode-v2-plugin/src/cursor.ts:220-230 | The state a request leaves behind is what the next request needs to keep that promise |
| `CursorTheorems.LatestUserSurvives` | packages/opencode-v2-plugin/src/index.ts:557-560 | Over a whole session of growing histories, threading the stored cut and anchor from request to request, every request holds the latest user message |
| `CursorTheorems.SoftIsWithinHard` | packages/opencode-v2-core/src/projection.ts:12-38 | A usable budget has soft within hard, which the selection relies on |
| `JsonTheorems.FirstValueIsExact` | server/src/clients.ts:344-410 | For every object, array or string of the grammar of RFC 8259, with white space before and any text behind, the scan ends exactly at the end of that value |
| `JsonTheorems.ValueIsNeutral` | server/src/clients.ts:352-383 | Reading any value of the grammar leaves the bracket stack as it was, whatever brackets, quotes and escapes its strings hold |
| `JsonTheorems.TrailingTextIsIrrelevant` | server/src/clients.ts:344-410 | For any content, valid or not: once an object, array or string has ended, any other text may follow it |
| `JsonLiterals.FirstLiteralIsExact` | server/src/clients.ts:397-404 | For true, false, null and every number of the grammar the scan ends exactly at its end if and only if the text behind does not continue the number |
| `JsonLiterals.NumberIsExact` | server/src/clients.ts:398-403 | The pattern for numbers, part by part: whole, fraction and exponent end exactly where they were written unless more digits, a fraction or an exponent follow |
| `JsonScan.ParseFirst` | server/src/clients.ts:344-410 | The scanner as a whole, with its five errors |
| `JsonErrors.BeginningIsUnfinished` | server/src/clients.ts:383-396 | Every proper beginning of an object, array or string is refused as unterminated, with the error of its kind |
| `JsonErrors.WrongBracketIsRefused` | server/src/clients.ts:368-376 | A bracket closed by one of the other kind is refused as mismatched, whatever values stand before and whatever text behind |
| `JsonErrors.BlankHoldsNoValue` | server/src/clients.ts:344-350 | White space alone holds no value |
| `JsonErrors.OtherTextIsInvalid` | server/src/clients.ts:397-402 | Text that starts like no value is refused as invalid |
| `JsonScan.FindClose` | server/src/clients.ts:352-383 | The loop over brackets, strings and escapes |
| `JsonScan.FindQuote` | server/src/clients.ts:384-396 | The loop over a string |
| `AsciiJson.CompactAscii` | server/src/clients.ts:330-342 | The result is the escaped text and has no code unit above 0x7f |
| `AsciiJson.AsciiDecodesToTheSame` | server/src/clients.ts:330-342 | ASCII escaping of any valid string body keeps the string it stands for under section 7 of RFC 8259 |
| `AsciiJson.StringRoundTrip` | server/src/clients.ts:330-342 | Every string, lone surrogates included, survives printing and escaping |
| `JsonMeaning.AsciiKeepsMeaning` | server/src/clients.ts:330-342 | The escaped text of a whole JSON value is again a text of the grammar with the same meaning, keys and nested values included |
| `Batching.PartitionEmbeddingInputs` | server/src/clients.ts:276-301 | Fails exactly when a text is over 30,000 bytes, at the first such text; otherwise the batches concatenate to the input, none is empty, each is within 128 items and 100,000 bytes, and no other order-preserving partition within the limits has fewer |
| `Batching.GreedyIsMinimal` | server/src/clients.ts:276-301 | Batches that take all they can are as few as possible |
| `Batching.GreedyIsUnique` | server/src/clients.ts:276-301 | They are determined by the texts alone |
| `Utf8Agreement.CountsAgree` | server/src/clients.ts:276-287 | Bytes and characters counted over UTF-16 units are those of the UTF-8 encoding of the text |
| `PromptBudget.ReplaceSize` | server/src/clients.ts:556-582 | Replacing a candidate changes the recomputed size of the whole prompt by what it changes of that candidate |
| `PromptBuilder.Builder.Edit` | server/src/clients.ts:556-582 | Under the running counter an edit is kept exactly when the prompt, measured from scratch, stays within 1,000,000 bytes; afterwards the counter is that size again |
| `PromptBuilder.Builder.FillCandidate` | server/src/clients.ts:550-583 | One candidate: its truncated description, then its first ten aliases, each kept if it fits |
| `PromptBuilder.ResolutionPromptMentions` | server/src/clients.ts:524-607 | The candidates, or the first of three reasons why there are none: a name over 500 characters, identities over the budget, candidates of one mention that show the same |
| `PromptBuilder.TruncateUtf8Bytes` | server/src/clients.ts:507-518 | The loop keeps the longest run of whole characters within the limit |
| `PromptTheorems.TruncateIsLongest` | server/src/clients.ts:507-518 | What is kept is within the limit and one character more would not be |
| `PromptTheorems.FilledIsMaximal` | server/src/clients.ts:543-583 | The filled prompt is within its budget and every candidate shows all it can |
| `PromptTheorems.DroppedDescriptionDoesNotFit` | server/src/clients.ts:556-566 | A description that was left out does not fit into the finished prompt either |
| `PromptTheorems.DroppedAliasDoesNotFit` | server/src/clients.ts:568-582 | The aliases shown are the offered ones in order, but for those that do not fit into the finished prompt |
| `PromptTheorems.IdentityIsWhatIsShown` | server/src/clients.ts:586-601 | Two identity texts are equal exactly if name, description and aliases are equal |
| `PromptBuilder.PromptIsGood` | server/src/clients.ts:524-607 | A prompt that is handed out is within its budget, maximal, and tells the candidates of each mention apart |
| `PromptBuilder.RefusedExactly` | server/src/clients.ts:524-607 | A prompt is refused exactly for a name of more than 500 characters, identities over the budget, or two candidates of a mention that show the same, in this order |
| `PromptOrder.DescriptionIsDecided` | server/src/clients.ts:550-566 | A description is shown exactly if it fits behind everything before it with everything from there on bare |
| `PromptOrder.AliasIsDecided` | server/src/clients.ts:568-582 | Aliases are decided one after another, behind the description: an offer is added exactly if it is not empty and fits behind everything before it |
| `SecretBinding.OptionsRoundTrip` | scripts/src/opencode-v2-config.ts:410-437 | For every option tree the conversion is complete exactly if all its keys are declared, and then binding gives the tree back |
| `SecretBinding.ExternaliseThenBind` | scripts/src/opencode-v2-config.ts:148-242 | Wherever a complete draft holds the converted settings of a source value, the bound configuration holds that value |
| `SecretBinding.BindingFillsTheSlots` | scripts/src/opencode-v2-config.ts:182-242 | Binding a complete conversion succeeds and changes the draft at its slots only, each to the value at its source path |
| `SecretBinding.CompletePlacesAll` | scripts/src/opencode-v2-config.ts:1267-1289 | In a complete conversion each slot stands in exactly one place, which is the destination it records |
| `SecretBinding.DestinationsAreDistinct` | scripts/src/opencode-v2-config.ts:206-208 | No two slots of a complete conversion have the same destination |
| `SecretBinding.RootTokenIsIncomplete` | scripts/src/opencode-v2-config.ts:1271-1289 | A draft that is itself a token has no destination path, so its conversion is never complete |
| `SecretTheorems.SettingsHide` | scripts/src/opencode-v2-config.ts:410-437 | Whatever is reported, the converted tree holds no string that is not public, no undeclared key, and below a private key no leaf at all |
| `SecretTheorems.SettingsFill` | scripts/src/opencode-v2-config.ts:303-326 | If nothing is reported, filling the slots of a converted tree from their source paths gives the tree back |
| `SecretTheorems.ReportsUndeclared` | scripts/src/opencode-v2-config.ts:359-375 | The walk reports something exactly if some key of the tree is not declared |
| `SecretExact.ExactlyPrivateLeaves` | scripts/src/opencode-v2-config.ts:410-437 | In a tree with declared keys exactly the private leaves become tokens: strings that are not public, and every leaf below a private key; everything else stays |
| `SecretExact.PrivateWords` | scripts/src/opencode-v2-config.ts:428-432 | A key with one of the seven words in it is private, in any case and wherever the word stands |
| `SecretExact.PrivateApiKey` | scripts/src/opencode-v2-config.ts:428-432 | So is one in which one unit parts api from key |
| `SecretExact.BindsIff` | scripts/src/opencode-v2-config.ts:185-240 | Binding succeeds exactly if every slot has a source value of its kind, a place of its own, and its own placeholder still standing there |
| `SecretConverter.Converter.MakeSlot` | scripts/src/opencode-v2-config.ts:303-326 | One slot, or the report of a value that is no string |
| `SecretConverter.Converter.WalkSettings` | scripts/src/opencode-v2-config.ts:410-437 | The walk over an option tree, pushing slots and reports |
| `SecretConverter.Converter.WritePlaceholders` | scripts/src/opencode-v2-config.ts:1267-1284 | The walk that overwrites tokens by placeholders and records where they stood |
| `SecretConverter.Converter.FinalizeDraft` | scripts/src/opencode-v2-config.ts:1267-1289 | Finalizing and the report of slots without a place |
| `SecretConverter.BindConvertedConfig` | scripts/src/opencode-v2-config.ts:182-242 | The binding loop: equal to the reference binding, with every refusal |
| `Framing.SourceRoundTrip` | src/reflection_service/domain.py:35-46 | Reading the framed text gives back exactly the session, boundaries and messages, whatever digits and colons they hold |
| `Framing.SourceInjective` | src/reflection_service/domain.py:35-46 | Two sources are hashed from the same bytes exactly if they are equal |
| `Framing.ProjectionRoundTrip` | src/reflection_service/domain.py:48-58 | Reading the framed projection gives back exactly its parts |
| `Framing.ProjectionInjective` | src/reflection_service/domain.py:48-58 | Two projections are hashed from the same bytes exactly if they are equal |
| `Framing.EncodeInjective` | src/reflection_service/domain.py:37-46 | UTF-8 text is determined by its bytes |
| `Framing.FrameExamples` | src/reflection_service/domain.py:36-37 | Frames count bytes: a two-byte character, a part that looks like a frame, and the empty part |
| `RetryTheorems.ConfirmedOnce` | packages/opencode-v2-plugin/src/ingestion.ts:186-199 | Over every sequence of calls, replies and clearings: once a retry is confirmed, none is posted and none confirmed again until the key is cleared |
| `RetryTheorems.RepostNeedsRejection` | packages/opencode-v2-plugin/src/ingestion.ts:200-206 | Between two posts of an uncleared key the first was rejected over HTTP and a later read showed the failed job unchanged |
| `RetryTheorems.CallsEndWell` | packages/opencode-v2-plugin/src/ingestion.ts:223-270 | A call that returns a job never returns a failed one |
| `RetryProgress.GivesUpOnlyWhenConfirmed` | packages/opencode-v2-plugin/src/ingestion.ts:226-231 | Over every run a call ends with the error of a spent retry only if a retry has been confirmed since the key was last cleared |
| `RetryProgress.FailedJobIsPosted` | packages/opencode-v2-plugin/src/ingestion.ts:226-242 | A failed job on a key at rest, with no pending attempt and no confirmed retry, is posted at once |
| `RetryProgress.RejectedPostIsRepeated` | packages/opencode-v2-plugin/src/ingestion.ts:200-206 | After a post rejected over HTTP and a read that shows the job unchanged, the next failed call posts again |
| `RetryProgress.ReconciledRejectionIsRepeated` | packages/opencode-v2-plugin/src/ingestion.ts:223-242 | A call that reads the rejected job unchanged posts it again itself |
| `RetryProgress.ProofConfirms` | packages/opencode-v2-plugin/src/ingestion.ts:190-199 | Wherever a call waits, a reply that shows the job pending, running, succeeded or failed anew confirms the retry, settles the key and ends the call |
| `RetryProgress.LostPostIsReconciled` | packages/opencode-v2-plugin/src/ingestion.ts:204-222 | A post without an answer stays pending, and the next call only reads |
| `RetryProgress.OtherJobIsRefused` | packages/opencode-v2-plugin/src/ingestion.ts:164-178 | A reply about another job fails the call and leaves the key as it was |
| `RetryTheorems.RunsAreAllowed` | packages/opencode-v2-plugin/src/ingestion.ts:157-273 | The invariant of a key over every run, from which both theorems follow |
| `RetryService.Ingestion.RetryJob` | packages/opencode-v2-plugin/src/ingestion.ts:157-234 | The start of a call, up to its first request; other keys stay as they are |
| `RetryService.Ingestion.Reply` | packages/opencode-v2-plugin/src/ingestion.ts:186-272 | What each reply does in each place a call can wait |
| `RetryService.Ingestion.Clear` | packages/opencode-v2-plugin/src/ingestion.ts:415-425 | Forgetting a session, also while a call waits |
| `WorkerTheorems.WithinConcurrency` | server/src/worker.ts:317-407 | Tasks never exceed the concurrency limit |
| `WorkerTheorems.SessionsAreApart` | server/src/worker.ts:345-398 | Two tasks being processed never share a session, although tasks finish while a claim is out |
| `WorkerTheorems.OneResolves` | server/src/worker.ts:66-92 | At most one task is in the resolution lane |
| `WorkerTheorems.FirstInFirstOut` | server/src/worker.ts:69-92 | Tasks start to resolve in the order in which they entered the lane |
| `WorkerTheorems.LaneMoves` | server/src/worker.ts:85-91 | While a task is queued, one resolves or the first of the queue may start, also after operations that threw |
| `WorkerTheorems.TailResolvedIs` | server/src/worker.ts:73-82 | The promise chain up to a run has resolved exactly if every earlier run has released |
| `WorkerTheorems.SettledBeforeUnlock` | server/src/worker.ts:289-306 | When the worker lock is given up there is no task, no taken session and nobody in the lane |
| `WorkerTheorems.WaitsAreWarranted` | server/src/worker.ts:449-480 | A loop that waits unwoken, or rests without the lock, has missed no stop, no wake request and no free slot |
| `WorkerProgress.CompletionEndsSleep` | server/src/worker.ts:371-385 | In every reachable sleep after an empty answer, the completion of any task that is there leaves the loop woken |
| `WorkerProgress.EmptyAnswerWaitsForTasks` | server/src/worker.ts:369-385 | As a run: an empty answer beside tasks in flight puts the loop to sleep, and once one of them settles it has been woken, whatever they do in between |
| `WorkerProgress.ClaimedJobIsTakenOn` | server/src/worker.ts:345-398 | A claimed job always becomes a task, also when the loop is stopping |
| `WorkerProgress.FreeSlotIsClaimedFor` | server/src/worker.ts:328-348 | A loop at its turn claims exactly if a slot is free, and leaves out exactly the sessions being processed |
| `WorkerProgress.CompletionFreesSlot` | server/src/worker.ts:334-344 | A completion ends the wait for a slot |
| `WorkerProgress.StaleStartsBackoff` | server/src/worker.ts:391-397 | A stale result makes the loop back off |
| `WorkerProgress.StaleBacksOff` | server/src/worker.ts:328-333 | And no claim is sent before the backoff has ended |
| `WorkerProgress.LoopGoesOn` | server/src/worker.ts:449-480 | After every wait a loop that is not stopping goes on where it should |
| `WorkerProgress.BackoffThenClaims` | server/src/worker.ts:328-348 | Behind a backoff a free slot is claimed for |
| `WorkerProgress.StoppingClaimsNoMore` | server/src/worker.ts:327-360 | A stopping loop claims no more and drains |
| `WorkerTheorems.CompletionIsMissedIff` | server/src/worker.ts:345-385 | In every reachable state an empty answer to a claim leaves the loop asleep, unwoken, over a session that has become free since exactly if it is not stopping, no wake is requested and the active sessions are no longer those that the claim left out; and no completion for such a session is still to come exactly if one of them has no task any more |
| `WorkerTheorems.CompletionIsMissed` | server/src/worker.ts:324-385 | A run from the start in which that happens: the only task ends during a claim that left its session out, and only the poll interval can end the sleep |
| `WorkerTheorems.RunKeeps` | server/src/worker.ts:317-422 | The invariant of lane, sessions, limit and waits over every run |
| `WorkerService.Worker.WorkLoop` | server/src/worker.ts:328-348 | One turn of the loop up to its next wait; the new state is that event's in WorkerModel and the invariant holds |
| `WorkerService.Worker.ClaimAnswered` | server/src/worker.ts:345-398 | What a claim's answer does, also while stopping; the new state is that event's in WorkerModel and the invariant holds |
| `WorkerService.Worker.WaitForWork` | server/src/worker.ts:449-480 | The wait for work: at once, or asleep; proved equal to its function in WorkerModel |
| `WorkerService.Worker.EnterTheLane` | server/src/worker.ts:69-84 | Taking a promise behind the tail; the new state is that event's in WorkerModel and the invariant holds |
| `WorkerService.Worker.StartInLane` | server/src/worker.ts:84-86 | Starting in the lane, alone; the new state is that event's in WorkerModel and the invariant holds |
| `WorkerService.Worker.LeaveTheLane` | server/src/worker.ts:86-91 | Releasing the lane after a result or an error; the new state is that event's in WorkerModel and the invariant holds |
| `WorkerService.Worker.Processed` | server/src/worker.ts:409-422 | The end of a task's processing frees its session; the new state is that event's in WorkerModel and the invariant holds |
| `WorkerService.Worker.Settled` | server/src/worker.ts:360-366 | The end of a task's promise, and who hears of it; the new state is that event's in WorkerModel and the invariant holds |
| `WorkerService.Worker.StopWorking` | server/src/worker.ts:122-126 | Stopping wakes whoever waits; the new state is that event's in WorkerModel and the invariant holds |
| `WorkerService.Worker.ClaimThrows` | server/src/worker.ts:317-407 | A claim that fails ends the loop; the new state is that event's in WorkerModel and the invariant holds |
| `WorkerService.Worker.RestWithoutLock` | server/src/worker.ts:278-312 | Resting after a refused lock or a failed loop, which uses up a wake request; the new state is that event's in WorkerModel and the invariant holds |
| `WorkerService.Worker.Lock` | server/src/worker.ts:278-295 | Taking the lock and starting with no task and no session; the new state is that event's in WorkerModel and the invariant holds |
| `WorkerService.Worker.Unlock` | server/src/worker.ts:289-306 | The lock goes only after every task has settled; the new state is that event's in WorkerModel and the invariant holds |

## Left out

- Batching.PartitionEmbeddingInputs: the message of the error is its byte count only.
- CursorTheorems.SelectHoldsLatestUser: takes soft within hard, which `SoftIsWithinHard` proves of every budget the plugin computes.
- QueueRuns.Reachable: takes a budget of at least one attempt, the least that the settings admit.
- WorkerTheorems.SettledBeforeUnlock: says nothing of a lock that the database drops by itself when a connection breaks.
- SecretConverter.Converter.WritePlaceholders: the tree is a value that the walk returns anew; in the source the nodes are overwritten in place, and the sharing of one node between two places is seen as one token that stands twice.
- PromptBuilder.Builder.Edit: a candidate is a value in a sequence, so aliasing of two candidates is not captured.
- Ownership of sources, quarantine, legacy rows without a fingerprint, statistics, search, and the storage of entities and aliases.
- The validation fingerprint of a staged result: it is written with the result from the same target, so the validator version stands for it.
- The start of a session from stored summaries, and the restart of its submissions after a revert.
- Timestamps, retry times, error texts and the order of claims by priority and age.
- The row locks of the database: each transaction is one atomic step, and one elected worker claims.
- The choice of jobs across segments by session; the worker model takes from a claim only that its session was not excluded.
- Parsing and validating the scanned slice of a model response, the requests themselves, prompt texts and timing.
- Token estimates, provider measurements and the text of notices and summaries: parameters or parts.
- The shares of the context limit, 0.05 and 0.25 in floating point, are integer divisions by 20 and 4.
- Cached archive blocks are kept as their parts, and reverted histories are not modelled; the IDs of notices are not computed.
- The ledger of dispositions, schema decoding, fingerprints and asset mappings of a configuration: each can only refuse more conversions and bindings.
- The slots of single fields outside open options (names, URLs, headers, arguments): `Slot` kinds are modelled, and the results about recording and binding cover them, but not the walk that finds them.
- The identifier of a slot is its number, so its uniqueness needs no check.
- The other fields of the ingestion client (`submitted`, `idle`, `revisions`) and the sweep over sessions.
- Backfill planning and the hydration of old sessions: `packages/shared` is not part of this model.
