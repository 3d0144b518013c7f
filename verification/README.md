# Verified model of the durable-state algorithms

A Dafny 4.11 model of the parts of the server that keep state across crashes,
retries and interleavings, with proofs of what they promise.
`dafny verify dfyconfig.toml` checks everything.

A SQL table or a directory is a finite map or sequence, a synchronous block or SQL
transaction is one atomic step, and time is an integer read from a clock. A protocol
is given by a state, its steps, and theorems over every legal sequence of steps.
Where the source updates state in place, a class holds the same fields, and each of
its methods is proved to make the step the theorems speak about.

What the vocabulary of those theorems comes to is stated and proved once more from
rows, times, lines, bytes, log entries and literal limits, without that vocabulary:
in `SnapshotRoots`, `SnapshotCaptureTrace`, `EventTranscript`, `PatchFormat`,
`PatchEffect`, `PatchFiles`, `OutboxTimes`, `JsonText`, `ReceiptRetention`,
`VerifierDependencies`, `AcpDocument`, `AcpValidity`, `LockoutHistory` and
`ApprovalHistory`.

| module | what it models |
|---|---|
| `SnapshotTypes`, `TerminalTail`, `SnapshotGc`, `SnapshotGcSafety`, `SnapshotGcExact`, `SnapshotGcStore`, `SnapshotRoots` | the sliced mark/sweep collector of the snapshot store: which snapshots it may never touch, what it reclaims, when it ends |
| `SnapshotCapture`, `SnapshotCaptureTrace` | capture transactions, crashes and startup reconciliation of the same store |
| `SnapshotCaptureGc`, `SnapshotCaptureGcExact`, `SnapshotGraceExact`, `SnapshotCaptureFaults` | captures, the collector and changing roots in one run: what keeps a snapshot readable, how exact that is, and runs in which one is lost |
| `FileLock` | the multi-key first-come-first-served lock around file mutations |
| `EventLog`, `EventTranscript` | telemetry ingress: batched, coalesced flushing with workflow events as barriers |
| `PatchText`, `PatchParser`, `PatchHunks`, `PatchApply`, `PatchFormat`, `PatchEffect`, `PatchFiles` | the patch format, fuzzy hunk placement, and the staged overlay |
| `DispatchOutbox`, `OutboxTimes` | leases, fencing tokens, retry budget, suspension and redrive |
| `CanonicalJson`, `JsonText`, `MutationReceipts`, `ReceiptRetention` | canonical request text and at-most-once execution |
| `VerifierSchedule`, `VerifierDependencies` | dependency selection and batch scheduling of acceptance checks |
| `AcpResult`, `AcpDocument`, `AcpValidity` | the byte budget and the text of a final agent result |
| `FailureWindow`, `LockoutHistory` | password-failure windows and lockouts |
| `ApprovalPaging`, `ApprovalHistory` | approval requests and keyset paging over the pending ones |
| `Common`, `CodeUnits` | an optional value, sequence algebra, and strings as UTF-16 code units |

## What the proofs found

Each of these is a lemma below, with its exact condition over all runs, and where it
is a fault, a concrete run.

- While a root is torn, the collector restarts its mark at every check and reclaims
  nothing: the age map keeps the last terminal entry of a ref, while the coverage
  check accepts any of them. It lasts until the young entry is past retention
  (`SnapshotGcExact.SliceSteps`, `TornMeansYoungThenOld`, `TornKeepsRestarting`,
  `TwoSessionsAreTorn`, `LivelockExists`, `CompletesOnceAged`).
- Startup reconciliation never removes a temporary manifest file; those left are the
  ones of captures that crashed or failed before renaming theirs
  (`SnapshotCapture.TemporaryManifestSurvives`).
- A capture does not look again at blobs it has published. When a collection comes
  before its manifest and a blob is enumerated, past the grace and named by no kept
  manifest, the manifest lands incomplete (`SnapshotCaptureGcExact.CollectionBreaksIff`,
  `SnapshotCaptureFaults.EveryGraceCanBeOutlasted`).
- The grace of a blob counts from the time its last publisher staged its copy, so a
  slow capture can take away the protection of a quick one
  (`SnapshotCaptureGcExact.PublishingExposesIff`,
  `SnapshotCaptureFaults.AgedCopyBreaksCapture`).
- The grace does not protect a manifest that is published again while the mark in
  progress has it on its expired list (`SnapshotGraceExact.ListedIsTakenIff`,
  `SnapshotCaptureFaults.RepublishedIsRemoved`).
- A blocked batch with a mutating criterion drops its other criteria without a result
  (`VerifierSchedule.RoundDrops`, `MutatorHidesCompanion`).
- The per-key lockout ends with the failure window, before `lockedUntilMs` unless the
  window took no more than a millisecond (`FailureWindow.LockHoldsIffWindowIsInstant`,
  `FailureBeforeLockEnds`).
- The global failure window can hold one failure more than its limit, when the limit
  was reached at one instant and the next failure comes as the lock ends; the span
  bound holds nevertheless (`FailureWindow.GlobalWindowOverflowsIff`,
  `GlobalWindowOverflows`, `FailuresAreBounded`).

## Model

| member | source | states |
|---|---|---|
| `SnapshotGcSafety.PinSafety` | src/filesystem-snapshot-store.ts:1077-1293 | a snapshot that is intact and is a protected root (strong, within retention or in the terminal tail) at every slice stays intact: no sequence of slices, root changes, mark restarts, process restarts, captures and clock movements removes its manifest or a blob it names |
| `SnapshotGcSafety.SliceIsSafe` | src/filesystem-snapshot-store.ts:1117-1278 | one slice on any world keeps the collector invariant and removes nothing of a root that is protected when the slice re-checks the roots |
| `SnapshotGcSafety.ExpireDeletes` | src/filesystem-snapshot-store.ts:1221-1231 | the expire loop removes only manifests on the expired list and touches nothing else |
| `SnapshotGcSafety.SliceSparesRecent` | src/filesystem-snapshot-store.ts:1256-1265 | a slice removes no blob file within the orphan grace, marked or not |
| `SnapshotGcSafety.SliceKeepsRetained` | src/filesystem-snapshot-store.ts:1152-1207 | a slice keeps every file of a ref that the mark in progress retains, or will retain when it comes to it, root or not |
| `SnapshotGcSafety.SweepDeletes` | src/filesystem-snapshot-store.ts:1240-1272 | the sweep loop never removes a blob whose hash is marked |
| `SnapshotGcExact.Completes` | src/filesystem-snapshot-store.ts:1131-1293 | under every schedule of page sizes and time budgets in which each slice handles an item, with fixed roots and a clock that moves as it likes, the collection ends (lexicographic measure) with what a one-shot mark and sweep leaves, once no root is torn any more; a root torn only after it was retained does no harm |
| `SnapshotGcExact.CompletesUnlessRestarted` | src/filesystem-snapshot-store.ts:1131-1293 | the same as long as the mark is thrown away only finitely often, whatever the roots look like |
| `SnapshotGcExact.CompletesOnceAged` | src/filesystem-snapshot-store.ts:1117-1293 | every fair schedule whose clock passes the retention of every terminal entry completes |
| `SnapshotGcExact.SliceSteps` | src/filesystem-snapshot-store.ts:1131-1278 | one slice throws its mark away exactly when a ref that was classified as expired is still protected at its check, and then nothing has been deleted and the ref is torn; otherwise it lowers the measure or completes the collection exactly |
| `SnapshotGcExact.MarkInProgress` | src/filesystem-snapshot-store.ts:1131-1293 | until the collection completes, every slice works on a mark begun at some earlier slice on the original files |
| `SnapshotGcExact.FixedClockIsExact` | src/filesystem-snapshot-store.ts:1131-1293 | at a fixed clock, the disk after the slice that completes the collection holds exactly the manifests the retention rule keeps and exactly the blobs that are not enumerated, in grace, or named by a kept manifest |
| `SnapshotGcExact.UnnamedIsReclaimed` | src/filesystem-snapshot-store.ts:1240-1293 | an aged enumerated blob that no manifest names is gone after a completed collection |
| `SnapshotGcExact.CompletesIffNoTornRoot` | src/filesystem-snapshot-store.ts:1117-1218 | with roots and clock fixed the collection completes if and only if no root is torn; otherwise the mark restarts for ever and no file is ever deleted |
| `SnapshotGcExact.TornKeepsRestarting` | src/filesystem-snapshot-store.ts:1215-1218 | while a root stays torn, every slice of every schedule has more to do and leaves the disk as it was, however the clock moves |
| `SnapshotGcExact.TornMeansYoungThenOld` | src/filesystem-snapshot-store.ts:1117-1136 | a root is torn exactly when its ref is a terminal root twice, the last occurrence past retention and an earlier one not, with no strong pin, tail place or orphan grace to save it |
| `SnapshotGcExact.TwoSessionsAreTorn` | src/filesystem-snapshot-store.ts:1136-1171 | a concrete store, one snapshot of an old and a recent finished session, whose root is torn exactly between two given times |
| `SnapshotGcExact.FairExists` | src/filesystem-snapshot-store.ts:1077-1098 | every store and every clock that never goes back have a schedule of sound listings in which each slice handles an item |
| `SnapshotGcExact.LivelockExists` | src/filesystem-snapshot-store.ts:1215-1218 | on that store, at a time in between, a fair schedule on which every slice has more to do and none deletes anything |
| `SnapshotGcExact.CoverageHolds` | src/filesystem-snapshot-store.ts:1117-1129 | with nothing protected on the expired list the live roots stay covered by the mark, so neither the clock nor the deletions the collector makes itself force a restart |
| `SnapshotGcExact.NextPageCovers` | src/filesystem-snapshot-store.ts:1305-1381 | one page of the blob enumeration: every blob file of the chosen layout that was ahead of the cursors is on the page or still ahead, and the cursors move forward |
| `SnapshotRoots.RootsAre` | src/filesystem-snapshot-store.ts:941-1057 | what is protected, told from the rows alone: a ref is a root exactly when it is a baseline, or some row of it is not terminal, or some terminal row of it ended (or, without an end time, has a manifest made) less than the retention ago, or it is among the first retainPerWorkspace refs of a stable sort of the terminal entries by age |
| `SnapshotRoots.TerminalListsRows` | src/filesystem-snapshot-store.ts:960-1041 | the terminal entries are the terminal rows that have an end time or a manifest, each once, in row order, with the end time first and the manifest time otherwise |
| `SnapshotRoots.CoveredIff` | src/filesystem-snapshot-store.ts:1117-1129 | the re-check passes exactly when each of those roots is retained, or neither listed as expired nor on disk |
| `SnapshotRoots.RootsStayReadable` | src/filesystem-snapshot-store.ts:1077-1293 | a snapshot that is readable and is a root in that sense at every slice is readable at the end: its manifest and every file it lists are there |
| `SnapshotRoots.CollectionLeaves` | src/filesystem-snapshot-store.ts:1131-1293 | what a completed collection at a fixed clock leaves, told from rows and files: the manifests of baselines, of rows that are not terminal, of refs whose last terminal row is young, of the newest terminal entries and those within the grace; and the blobs that these name, that are within the grace or not enumerated |
| `SnapshotRoots.YoungBlobStays` | src/filesystem-snapshot-store.ts:1256-1265 | no slice removes a blob file younger than the grace |
| `SnapshotRoots.NewestOutlivesRetention` | src/filesystem-snapshot-store.ts:1123-1171 | a terminal row forty days old is a root under limits of ten and thirty days, and is none with a tail of zero |
| `SnapshotGcStore.SnapshotStore.CollectRoots` | src/filesystem-snapshot-store.ts:941-1041 | the loop over baselines and rows computes the strong pins and the terminal list, in row order |
| `SnapshotGcStore.SnapshotStore.BeginMark` | src/filesystem-snapshot-store.ts:1133-1151 | starting a mark computes the roots, the age map (last entry of a ref wins) and the tail, and opens the manifest listing |
| `SnapshotGcStore.SnapshotStore.MarkSome` | src/filesystem-snapshot-store.ts:1132-1207 | the classify and mark loops with their cursors, budget and page limit are the marking part of a slice |
| `SnapshotGcStore.SnapshotStore.CurrentRootsAreCovered` | src/filesystem-snapshot-store.ts:1117-1129 | the re-check answers whether every strong root and every terminal root in retention or tail is retained, or absent from both the expired list and the disk |
| `SnapshotGcStore.SnapshotStore.ExpireSome` | src/filesystem-snapshot-store.ts:1221-1231 | the expire loop with its cursor is the expire part of a slice |
| `SnapshotGcStore.SnapshotStore.NextGcBlobPage` | src/filesystem-snapshot-store.ts:1305-1381 | shard probing, flat listing and shard reading with their cursors produce the next page |
| `SnapshotGcStore.SnapshotStore.SweepSome` | src/filesystem-snapshot-store.ts:1240-1278 | the sweep loop is the sweep part of a slice and says whether more is left |
| `SnapshotGcStore.SnapshotStore.GcSlice` | src/filesystem-snapshot-store.ts:1077-1293 | the whole call changes memory and disk exactly as the slice function on which safety and exactness are proved |
| `TerminalTail.TerminalTailRefs` | src/filesystem-snapshot-store.ts:1043-1057 | the bounded insertion loop returns the refs of the first N elements of the full stable sort by descending age stamp, for every list and every N |
| `TerminalTail.SortedIsStableSort` | src/filesystem-snapshot-store.ts:1043-1057 | the specification is descending and leaves equal stamps in list order |
| `TerminalTail.StableSortIsUnique` | src/filesystem-snapshot-store.ts:1043-1057 | two descending lists with the same entries of each age in the same order are equal |
| `TerminalTail.TailOfAnyStableSort` | src/filesystem-snapshot-store.ts:1043-1057 | the tail is that of any stable sort of the list |
| `TerminalTail.Splice` | src/filesystem-snapshot-store.ts:1043-1057 | one turn of the loop, a position search and a splice with overflow removal, is insertion into the cut list |
| `TerminalTail.TailSurvivesDeletion` | src/filesystem-snapshot-store.ts:941-1057 | deleting manifests outside the tail does not move the tail, although the ages of fallback rows come from manifests |
| `SnapshotCapture.CaptureIsCrashConsistent` | src/filesystem-snapshot-store.ts:438-495 | with any captures interleaved, sharing blobs, failing or cut off by a crash after any step, reconciliation included, every manifest in the store names only blobs in the store; what reconciliation leaves has no staging and no journal, and every published blob and manifest |
| `SnapshotCapture.CaptureProceeds` | src/filesystem-snapshot-store.ts:625-703 | a capture never blocks itself: its next staged blob is there to publish, the final blob check succeeds, and a committed capture is complete in the store |
| `SnapshotCapture.TemporaryManifestSurvives` | src/filesystem-snapshot-store.ts:480-493 | over every run that ends with nothing active, the temporary manifests that reconciliation leaves are exactly those of captures that crashed or failed between writing the file and renaming it |
| `SnapshotCapture.SomeTemporaryManifestSurvives` | src/filesystem-snapshot-store.ts:657-703 | a run without a crash that leaves one |
| `SnapshotCaptureTrace.ManifestsAreWhatWasWalked` | src/filesystem-snapshot-store.ts:438-495 | over every run each manifest lists exactly the files and links that the walk of its capture met, each as often; the journal of a capture under way says how far it is; and a capture that has ended leaves no staging directory, no journal and no temporary manifest |
| `SnapshotCapture.CaptureStore.PublishStagedBlob` | src/filesystem-snapshot-store.ts:625-655 | publishing puts the blob on disk, loses nothing published, leaves every other capture alone, and enables the next publication or the manifest |
| `SnapshotCapture.CaptureStore.PublishStagedManifest` | src/filesystem-snapshot-store.ts:669-703 | the manifest is published exactly when every named blob was published by this capture or is on disk; otherwise nothing lands |
| `SnapshotCapture.CaptureStore.RunStartupReconciliation` | src/filesystem-snapshot-store.ts:886-931 | both loops, one removal after another, each of them a step of the model, remove every journal and every staging directory, and nothing without a transactions directory |
| `SnapshotCaptureGc.GraceProtectsCaptures` | src/filesystem-snapshot-store.ts:625-703 | over every run of captures, slices, root changes, restarts and time on any store: as long as every slice finds the blobs that captures have published spared (a file within the grace, or named by the manifest of a protected root), every capture that has published its blobs has all of them on disk, before and after its manifest lands |
| `SnapshotCaptureGc.CaptureStaysIntact` | src/filesystem-snapshot-store.ts:480-495 | a captured snapshot stays readable from the moment its manifest lands, whatever else runs, if it is sheltered at every slice: a protected root, or retained by the mark in progress, or unknown to the mark with its manifest within the grace and its blobs spared |
| `SnapshotCaptureGc.SliceShelters` | src/filesystem-snapshot-store.ts:1131-1278 | one slice leaves a sheltered snapshot readable |
| `SnapshotCaptureGcExact.CollectionBreaksIff` | src/filesystem-snapshot-store.ts:669-683 | in every reachable state between two collections, some collection makes a capture publish an incomplete manifest exactly when no root is torn, the files of a blob it has published are all enumerated and past the grace, and no manifest that the retention rule keeps names it |
| `SnapshotCaptureGcExact.EachCollectionBreaksIff` | src/filesystem-snapshot-store.ts:1240-1272 | the same for each collection, however it is sliced |
| `SnapshotCaptureGcExact.PublishingExposesIff` | src/filesystem-snapshot-store.ts:625-632 | one capture publishing a blob exposes another that no collection could break before exactly when the file it replaces is within the grace, its own copy was staged longer ago than the grace, and nothing else protects the blob |
| `SnapshotCaptureGcExact.SnapshotSurvivesIff` | src/filesystem-snapshot-store.ts:1168-1181 | in every reachable state between two collections, a collection leaves a readable snapshot readable exactly when the retention rule keeps it; for a snapshot that is no root, as long as its manifest is within the grace |
| `SnapshotGraceExact.FileIsTakenIff` | src/filesystem-snapshot-store.ts:1251-1272 | after some history of the store a slice can remove a blob file exactly when it is past the grace and no manifest of a protected root names it |
| `SnapshotGraceExact.ManifestIsTakenIff` | src/filesystem-snapshot-store.ts:1168-1231 | after some history of the store a slice can remove a manifest that its mark has not listed as expired exactly when it is not a protected root and past the grace |
| `SnapshotGraceExact.ListedIsTakenIff` | src/filesystem-snapshot-store.ts:1221-1231 | a slice can remove a manifest the mark has listed as expired, published again or not, exactly when it is ahead of the expire cursor and the roots are covered, whatever its age |
| `SnapshotCaptureFaults.EveryGraceCanBeOutlasted` | src/filesystem-snapshot-store.ts:480-491 | for every configuration, a run in which a single slow capture publishes a manifest that names a collected blob |
| `SnapshotCaptureFaults.AgedCopyBreaksCapture` | src/filesystem-snapshot-store.ts:625-632 | for every positive grace, a run in which a capture within the grace is broken because another one publishes its old copy of the same content over the new one |
| `SnapshotCaptureFaults.RepublishedIsRemoved` | src/filesystem-snapshot-store.ts:1221-1231 | for every positive grace, a run in which a manifest that has just been published again is removed by the next slice |
| `FileLock.LockIsCorrect` | src/mutation-version.ts:11-31 | for any number of operations over any key sets: operations sharing a key never run together, each key is served in arrival order, the earliest unfinished operation can proceed, an absent tail means all operations on the key finished, and the map is empty exactly at quiescence |
| `FileLock.CanDrain` | src/mutation-version.ts:11-31 | from every reachable state some schedule without new arrivals finishes every operation |
| `FileLock.Coordinator.Arrive` | src/mutation-version.ts:13-20 | arriving reads the current tails of the distinct keys, then becomes the tail of each |
| `FileLock.Coordinator.Finish` | src/mutation-version.ts:25-31 | leaving removes exactly the tails that are still the own ticket |
| `EventLog.TranscriptIsPreserved` | src/event-log.ts:359-489 | over every run of arrivals, retries, conflicting ids, partial flushes and workflow events, each session's log followed by its pending rows spells the accepted fragments in order, character by character with types interleaved and fragment by fragment, each id once |
| `EventLog.NewBarrier` | src/event-log.ts:608-616 | a workflow event is logged after exactly what its session had accepted before it |
| `EventLog.FlushKeeps` | src/event-log.ts:397-479 | a batch of which any number of groups commits keeps every session's transcript and every earlier barrier |
| `EventLog.CommitTakesPrefix` | src/event-log.ts:403-476 | committing the first picked rows takes exactly their symbols off the front of every session's pending stream, whether one session or all are flushed |
| `EventLog.EventsKeepStream` | src/event-log.ts:440-476 | coalesced events spell and count what their rows did |
| `EventLog.RunsAreUnique` | src/event-log.ts:425-439 | the maximal runs of a batch are determined by the batch |
| `EventLog.KeyDecides` | src/event-log.ts:431-432 | coalescing keys are equal exactly when session, type and workspace are, no workspace counting as the empty one |
| `EventLog.EventStore.GroupAdjacent` | src/event-log.ts:425-439 | the grouping loop yields the maximal runs of equal keys, losing and reordering nothing |
| `EventLog.EventStore.AppendTelemetryIngress` | src/event-log.ts:359-395 | refuses other types and reused ids with other content, tells a retry from a first arrival, and inserts one pending row for the latter |
| `EventLog.EventStore.FlushTelemetryIngressBatch` | src/event-log.ts:397-479 | one batch commits the runs of at most 512 selected pending rows and does nothing when a flush is already running |
| `EventLog.EventStore.FlushTelemetryIngress` | src/event-log.ts:481-489 | flushing ends, leaves nothing selected pending, and returns the number of rows that were |
| `EventLog.EventStore.AppendEvent` | src/event-log.ts:595-616 | a workflow event is a full flush of its session followed by one insertion; an existing id returns the existing event |
| `EventTranscript.NothingSaidIsLost` | src/event-log.ts:359-489 | over every run, letter by letter and from the payloads' own text: what the log says for a session and then what its waiting rows say is what its accepted fragments said, and each workflow event stands behind just what its session had said before it |
| `EventTranscript.FlushLogs` | src/event-log.ts:425-479 | a flush appends one event for each group it commits: the session and type all its rows have in common, the workspace of the first and, up to absence, of all, the texts one after another, and how many they are; a group ends only where session, workspace or type changes |
| `EventTranscript.FlushTakes` | src/event-log.ts:397-476 | a flush marks the first so many of the rows that are not committed and belong to the session (all, if none is named), 512 at the most and all of those when every group commits; every row keeps its id and content |
| `EventTranscript.ArrivalIs` | src/event-log.ts:359-395 | a fragment is taken in exactly when it is an output or thought delta and its id is new, and changes nothing otherwise |
| `PatchParser.ParsePrint` | src/apply-patch.ts:52-186 | parsing a printed patch gives back its actions, for every non-empty list of printable actions |
| `PatchParser.ParsePatch` | src/apply-patch.ts:52-162 | the index loop over lines with its current hunk returns the recursive specification of the format, errors included |
| `PatchParser.ReadAction` | src/apply-patch.ts:64-158 | one action: headers, environment line, add, delete, update with move, and their error cases |
| `PatchParser.ReadHunks` | src/apply-patch.ts:108-148 | the hunk loop with its mutable current hunk is the recursive reading of a hunk body |
| `PatchParser.HunksRoundTrip` | src/apply-patch.ts:108-148 | printed hunks are read back from any position, up to the next header or the end |
| `PatchFormat.PatchLinesAre` | src/apply-patch.ts:164-176 | the lines of a patch, with plain newlines, trimmed, and without a here-document of at least four lines around them |
| `PatchFormat.PatchIs` | src/apply-patch.ts:52-60 | a patch is read as the actions between its two markers; without a marker, with a refused line or without any action it is refused |
| `PatchFormat.LinesWithoutAction` | src/apply-patch.ts:64-75 | blank lines are skipped, and so is an environment line with a name; without one it is refused |
| `PatchFormat.AddIs` | src/apply-patch.ts:77-92 | an added file is the lines behind plus signs up to the next header, each ended by a newline; none, or a line without the sign, is refused |
| `PatchFormat.DeleteIs` | src/apply-patch.ts:95-98 | a delete line names the file to delete |
| `PatchFormat.UpdateIs` | src/apply-patch.ts:100-157 | an update line, with a move destination on the next line or without, takes the hunks that follow; with neither it is refused |
| `PatchFormat.OtherLinesAreRefused` | src/apply-patch.ts:178-186 | a line that is neither blank nor a header is refused |
| `PatchFormat.HunkHeaderIs` | src/apply-patch.ts:136-142 | a line beginning with two at signs closes the hunk before it, which must not be empty, and gives the change context of the next |
| `PatchFormat.ChangeIs` | src/apply-patch.ts:144-149 | lines behind plus and minus signs are added and removed lines |
| `PatchFormat.ContextIs` | src/apply-patch.ts:133-147 | a line behind a space is context, even one that looks like a header inside a hunk; the end-of-file marker is not |
| `PatchFormat.MarkersAre` | src/apply-patch.ts:121-131 | the end-of-file marker belongs to the hunk being read and is refused outside one; blank lines between hunks and the note on a missing newline mean nothing |
| `PatchFormat.ClosingIs` | src/apply-patch.ts:113-118 | a hunk that is being read counts when the next header or the end closes it, if it has any lines; an empty one is refused |
| `PatchFormat.OtherHunkLinesAreRefused` | src/apply-patch.ts:150-151 | any other line of an update is refused |
| `PatchFormat.TrimIs` | src/apply-patch.ts:258-262 | trimming takes white space off both ends, and all of it |
| `PatchFormat.SpaceIs` | src/apply-patch.ts:261-262 | which characters trimming drops, by their codes |
| `PatchFormat.LinesAre` | src/apply-patch.ts:164-165 | lines are joined by newlines, and a text has just one list of lines |
| `PatchHunks.ApplyHunks` | src/apply-patch.ts:275-310 | applying hunks succeeds exactly when the original lines decompose into increasing disjoint regions, each at the first match after the cursor under the strictest level that matches; the result is the decomposition with new lines in place of old ones |
| `PatchHunks.ApplyToLines` | src/apply-patch.ts:275-305 | the splicing loop yields the assembled decomposition, or shows that some hunk cannot be placed |
| `PatchHunks.FindSequence` | src/apply-patch.ts:254-273 | the three-level search returns the first allowed match under the strictest level that matches anywhere, or -1 when no level matches |
| `PatchHunks.FoundIsUnique` | src/apply-patch.ts:254-273 | the search result is determined by its specification |
| `PatchHunks.FoundShifts` | src/apply-patch.ts:254-273 | the search sees only what lies at or after the cursor |
| `PatchHunks.RegionsAreUnique` | src/apply-patch.ts:275-305 | a file has at most one decomposition for a list of hunks |
| `PatchHunks.PlaceableOrNot` | src/apply-patch.ts:275-305 | no list of hunks both decomposes a file and fails on it |
| `PatchHunks.EndOfFileRegion` | src/apply-patch.ts:290-296 | the region of an end-of-file hunk ends at the last line |
| `PatchHunks.SpliceKeepsAligned` | src/apply-patch.ts:303-304 | one splice leaves the part after the cursor a suffix of the original |
| `PatchHunks.ReadBack` | src/apply-patch.ts:245-252 | lines written with a line ending are read back with it |
| `PatchEffect.OldLinesAre` | src/apply-patch.ts:286-291 | the lines a hunk looks for are its context and removed lines, each at the place given by the number of such lines before it, and nothing else |
| `PatchEffect.NewLinesAre` | src/apply-patch.ts:292-294 | the lines it leaves are its context and added lines, each at its place, and nothing else |
| `PatchEffect.ExchangeReverses` | src/apply-patch.ts:286-294 | exchanging added and removed lines exchanges what a hunk looks for and what it leaves |
| `PatchEffect.ContextChangesNothing` | src/apply-patch.ts:275-310 | hunks that hold only context lines, matching exactly, leave the lines of the file as they are |
| `PatchEffect.PatchedIs` | src/apply-patch.ts:275-310 | the result of applying hunks, line by line: each line no hunk covers stands where the hunks before it moved it, each context or added line of a hunk stands at its place in it, and there are no others; newlines are those of the file |
| `PatchEffect.PlacedIs` | src/apply-patch.ts:279-300 | where a hunk stands: after the first place of its change context, at the first place of the lines it looks for, at the strictest of three levels (equal, but for white space at the end, but for white space at both ends) at which they stand anywhere, and at the end of the file if marked so |
| `PatchFormat.FileLinesAre` | src/apply-patch.ts:245-252 | the lines of a file, joined again, are its text with plain newlines, but for a last one |
| `PatchFormat.EndingsAre` | src/apply-patch.ts:247-248 | every carriage return before a newline goes and nothing else does; going back, one is put before every newline |
| `PatchApply.StagingRefinesRunning` | src/apply-patch.ts:364-437 | staging a list of actions fails exactly when running them one by one fails, and the files seen through the overlay are those that running leaves (re-adds, chained moves, source equal to destination included) |
| `PatchApply.StageRefinesRun` | src/apply-patch.ts:370-418 | one staged action is one action on the overlaid files |
| `PatchApply.Workspace.Commit` | src/apply-patch.ts:420-432 | all writes, then all deletions, turn the files into the overlaid view |
| `PatchApply.Workspace.ApplyPatch` | src/apply-patch.ts:364-437 | a patch either leaves the files its actions in order would leave, or fails and leaves every file alone |
| `PatchFiles.UpdateDoes` | src/apply-patch.ts:404-418 | an updated file must be there, its hunks found and its destination accepted; it has the patched text and its old mode, at the destination only |
| `PatchFiles.AddDoes` | src/apply-patch.ts:385-391 | an added file has the given text; it keeps the mode of the file it replaces, and a new one is readable by all and writable by its owner |
| `PatchFiles.DeleteDoes` | src/apply-patch.ts:396-402 | a deleted file must be there, and is gone |
| `PatchFiles.RefusedPathFails` | src/apply-patch.ts:193-201 | an action on a path that is refused fails |
| `PatchFiles.OthersAreLeftAlone` | src/apply-patch.ts:364-437 | a patch leaves every file alone that none of its actions names |
| `PatchFiles.LastWord` | src/apply-patch.ts:364-437 | the last action on a file decides: an added file has just the added text and a deleted one is gone, whatever came before |
| `DispatchOutbox.FencingAndBudget` | src/dispatch-outbox.ts:108-407 | over every run each token ends at most once (one successful release, completion, failure or suspension, none after a reaping), only as granted and before expiry; claim columns go together; logical keys are unique; the failure count is the failures since creation or redrive, below three, and three exactly when dead-lettered |
| `DispatchOutbox.StaleClaimIsInert` | src/dispatch-outbox.ts:246-326 | a claim whose token was used or reaped, or whose lease is over, changes nothing and reports failure |
| `DispatchOutbox.CompletedIsAbsorbing` | src/dispatch-outbox.ts:273-280 | a completed row is never changed again by any run |
| `DispatchOutbox.ReapingIsFree` | src/dispatch-outbox.ts:193-228 | reaping resets the claim columns only: no failure is counted, and no other claim is affected |
| `DispatchOutbox.Outbox.EnqueueEvent` | src/dispatch-outbox.ts:108-151 | enqueueing a known logical key returns the existing row and changes nothing; otherwise one pending row is added |
| `DispatchOutbox.Outbox.Candidate` | src/dispatch-outbox.ts:157-170 | the candidate is an eligible row with the least availability time, and there is none only when no row is eligible |
| `DispatchOutbox.Outbox.ClaimNextEvent` | src/dispatch-outbox.ts:153-191 | claiming grants the candidate under a fresh token that passes the fence |
| `DispatchOutbox.Outbox.PresentClaim` | src/dispatch-outbox.ts:256-326 | release, completion, failure and suspension change the row exactly when the fence holds, with dead-lettering at the third failure and doubled backoff at the second |
| `DispatchOutbox.Outbox.ReapExpiredClaims` | src/dispatch-outbox.ts:193-228 | exactly the claims past expiry plus the lease go back to pending |
| `DispatchOutbox.Outbox.ResumeSuspended` | src/dispatch-outbox.ts:328-352 | a malformed key or prefix is refused; otherwise exactly the matching suspended rows become pending |
| `DispatchOutbox.Outbox.RedriveDeadLetter` | src/dispatch-outbox.ts:383-407 | only a dead-lettered row is redriven, with its counters reset |
| `OutboxTimes.LeaseLasts` | src/dispatch-outbox.ts:153-191 | a claim granted at a time passes the fence exactly at the times before the end of its lease, through any steps that neither present it nor reap its row, which then is as it was but claimed once more; it can be reaped exactly when its grace is over, too |
| `OutboxTimes.ReturnMeans` | src/dispatch-outbox.ts:256-319 | a released row waits its delay, a row failed for the first or second time its delay or twice that, a new, resumed or redriven row until its time: before it nothing changes the row, and from then on every claim whose filters admit it finds it until it is claimed |
| `OutboxTimes.Finality` | src/dispatch-outbox.ts:273-326 | a completed row is kept for good with its time, a row failed three times is put aside until redriven, a suspended one until resumed |
| `OutboxTimes.TransitionRecords` | src/dispatch-outbox.ts:256-326 | a transition records its reason, counts a failure and nothing else, concerns its own row alone, and ends the claim |
| `OutboxTimes.EnqueuedOnce` | src/dispatch-outbox.ts:108-151 | a key that is in the table is left alone; a new one gets a fresh row, with the revision given, or the payload's, or zero |
| `OutboxTimes.KeysAreForever` | src/dispatch-outbox.ts:108-407 | no step changes the key or the payload of a row |
| `OutboxTimes.RedriveStartsAfresh` | src/dispatch-outbox.ts:383-407 | a redriven row is what it was when enqueued, available at once |
| `OutboxTimes.ClaimTakesOldest` | src/dispatch-outbox.ts:157-170 | a claim takes, of the pending rows whose time has come and that its filters admit, one whose time came first, and none only when there is none |
| `OutboxTimes.ResumeAccepts` | src/dispatch-outbox.ts:328-332 | which keys and prefixes a resume accepts |
| `OutboxTimes.ResumeAsks` | src/dispatch-outbox.ts:333-341 | a resume asks for the suspended rows of its type with the value under the key and, if a prefix is given, a recorded reason that begins with it |
| `CanonicalJson.CanonicalIsInjective` | src/mutation-receipts.ts:40-45 | two values without undefined have equal canonical text if and only if they are equal up to object key order |
| `CanonicalJson.CanonicalReadsBack` | src/mutation-receipts.ts:40-45 | canonical text parses back to the value with its keys sorted |
| `CanonicalJson.CanonicalIsPrinted` | src/mutation-receipts.ts:40-45 | the canonical text is the plain serialization of the value with sorted keys |
| `CanonicalJson.SameIffNormal` | src/mutation-receipts.ts:40-45 | equality up to key order is equality of the sorted forms |
| `CanonicalJson.ReadQuoted` | src/mutation-receipts.ts:41-41 | an escaped string, lone surrogates and pairs included, is read back and ends where it ended |
| `CanonicalJson.PrintIsOneLine` | src/mutation-receipts.ts:47-49 | serialized text holds no raw newline |
| `CanonicalJson.RequestTextDetermines` | src/mutation-receipts.ts:47-49 | the hashed text determines the operation, and the request up to key order |
| `JsonText.EscapeOne` | src/mutation-receipts.ts:41-41 | how each character stands in a string: the two-character escapes, the six-character ones with lower-case digits for other controls and lone surrogates, and itself |
| `JsonText.EscapeConcat` | src/mutation-receipts.ts:41-41 | strings are escaped piece by piece, wherever no surrogate pair is cut |
| `JsonText.EscapePair` | src/mutation-receipts.ts:41-41 | a surrogate pair needs no escape |
| `JsonText.PrintedIs` | src/mutation-receipts.ts:40-45 | the text of every value: the three words, a number as rendered, a quoted string, items and members with commas between and colons after the keys |
| `JsonText.NormalIs` | src/mutation-receipts.ts:43-44 | normalizing puts the keys of every object in the order of their code units and changes nothing else |
| `JsonText.LessIsKeyBefore` | src/mutation-receipts.ts:44-44 | a key comes before another that it is a proper prefix of, or that has the greater code unit where they first differ |
| `JsonText.HashedTextIs` | src/mutation-receipts.ts:47-49 | what is hashed is the operation, a newline, and the text of the normalized request |
| `MutationReceipts.AtMostOnce` | src/mutation-receipts.ts:90-208 | over all retries, conflicting reuses, interleavings, crashes and maintenance passes, a key is executed at most once plus the number of times its completed receipt was pruned, and every replay returns the recorded result |
| `MutationReceipts.PendingIsKept` | src/mutation-receipts.ts:103-157 | a pending receipt is changed only by its own completion and is never deleted; nothing is executed for its key but by its own run |
| `MutationReceipts.OrphanIsNeverExecuted` | src/mutation-receipts.ts:121-126 | a pending receipt whose run was lost stays, and its mutation is never executed again |
| `MutationReceipts.ConflictIffDifferent` | src/mutation-receipts.ts:103-126 | a known id conflicts exactly with the requests that differ by more than key order; equal ones get the same decision as the original |
| `MutationReceipts.ResultReadsBack` | src/mutation-receipts.ts:113-119 | a stored result parses back to the same value |
| `MutationReceipts.ReceiptStore.BeginMutation` | src/mutation-receipts.ts:90-126 | the insert-or-read transaction decides new, replay, pending or conflict from the row that was there |
| `MutationReceipts.ReceiptStore.CompleteMutation` | src/mutation-receipts.ts:127-134 | a result is stored exactly when it is serializable and the caller's pending receipt is still there |
| `MutationReceipts.ReceiptStore.RunWithMutationReceipt` | src/mutation-receipts.ts:170-208 | an uninterrupted run executes exactly when admitted, and a retry then replays its result |
| `MutationReceipts.ReceiptStore.Reconcile` | src/mutation-receipts.ts:135-157 | at most the limit of completed receipts past retention are deleted, oldest first; a negative retention is refused |
| `ReceiptRetention.DecisionIs` | src/mutation-receipts.ts:90-126 | what a request is told at any moment of any run: without an id receipts are not used; with one it is new exactly when the id was not begun since it was last pruned, conflicts exactly when it differs by more than key order from the request the id was begun with, and otherwise replays the result finished last or is told there is none yet |
| `ReceiptRetention.CompletionIsRecorded` | src/mutation-receipts.ts:127-134 | over every run, a run that was executed records its result when it comes to its end, if that can be serialized, and nothing otherwise |
| `ReceiptRetention.PrunedAfterRetention` | src/mutation-receipts.ts:135-143 | over every run, a receipt is pruned later than the retention after its mutation was finished, and at any moment the receipts a pass may prune are exactly those of the mutations finished longer ago than that and not pruned since |
| `VerifierSchedule.SchedulingIsSafe` | src/mission-verifier.ts:678-805 | for every dependency graph and every order and outcome of checks: runs are bounded and never stuck, a check starts only when all its prerequisites passed, a mutating check runs alone, no criterion has two results, and at the end a criterion has no result exactly when a round dropped it |
| `VerifierSchedule.EveryCriterionIsReported` | src/mission-verifier.ts:768-805 | without mutating criteria, or with one check at a time, and the binding held, every selected criterion has exactly one result |
| `VerifierSchedule.BatchPrefersRunnable` | src/mission-verifier.ts:780-783 | runnable criteria that mutate nothing are taken first, up to the limit; blocked ones only when nothing is runnable; a single criterion when every runnable one mutates |
| `VerifierSchedule.RoundDrops` | src/mission-verifier.ts:780-791 | a round loses criteria exactly when nothing is runnable and its blocked batch holds a mutating criterion and another one |
| `VerifierSchedule.MutatorHidesCompanion` | src/mission-verifier.ts:784-789 | a concrete run in which a blocked plain criterion never gets a result because a mutating one shares its batch |
| `VerifierSchedule.RunsAreBounded` | src/mission-verifier.ts:768-805 | the length of a run is bounded by the number of criteria |
| `VerifierSchedule.ExpandSelection` | src/mission-verifier.ts:649-664 | the fixpoint loop ends with the least dependency-closed superset of the explicit selection |
| `VerifierSchedule.SelectCriteria` | src/mission-verifier.ts:639-675 | the criteria that take part are the checkable ones that selection, scope, affected areas and phase allow |
| `VerifierSchedule.FocusedRunsPrerequisites` | src/mission-verifier.ts:665-675 | a focused run includes exactly those prerequisites of its criteria that are checkable and not withheld by the phase |
| `VerifierSchedule.Scheduler.ScheduleRound` | src/mission-verifier.ts:769-795 | one turn of the loop up to its first await: record the unreachable, or take a batch, skip the blocked and start the rest |
| `VerifierSchedule.Scheduler.FinishCheck` | src/mission-verifier.ts:745-760 | a check that comes back gets its criterion the one result it has, takes no other result back, keeps the scheduling invariant, and leaves no mutating check running |
| `VerifierSchedule.Scheduler.AwaitAll` | src/mission-verifier.ts:791-796 | every check of a batch comes back, in any order, before the next round |
| `VerifierSchedule.Scheduler.RunAll` | src/mission-verifier.ts:768-796 | the whole loop terminates for every outcome of the checks |
| `VerifierSchedule.Scheduler.Report` | src/mission-verifier.ts:807-810 | once the binding is lost, no result is reported as passed |
| `VerifierDependencies.PrerequisitesDecide` | src/mission-verifier.ts:686-692 | over every run, read from the log: a criterion starts only when the last result of each prerequisite in this run is passed, or it has none and is persisted as passed; and a criterion recorded without a start is inconclusive and had a prerequisite for which that does not hold |
| `VerifierDependencies.MutationsAreAlone` | src/mission-verifier.ts:785-791 | between the starts of two criteria of which one mutates, the earlier one has come back |
| `VerifierDependencies.FewAtATime` | src/mission-verifier.ts:782-782 | at no moment do more checks run than the limit |
| `VerifierDependencies.NothingStartsOnceLost` | src/mission-verifier.ts:768-768 | once the binding is lost, nothing is started |
| `VerifierDependencies.BatchIsNext` | src/mission-verifier.ts:769-783 | who is next, told from the log: of the waiting criteria with every prerequisite cleared, the first that mutate nothing, as many as may run; without any cleared, the first whose prerequisites all have a status; otherwise the first of those alone |
| `VerifierDependencies.RoundStarts` | src/mission-verifier.ts:780-796 | a round starts exactly the cleared ones of those and leaves the others waiting, in order |
| `VerifierDependencies.RoundLeavesOut` | src/mission-verifier.ts:784-789 | a round drops nothing unless one of its criteria mutates, and then all but the first mutating one |
| `VerifierDependencies.LastRound` | src/mission-verifier.ts:770-779 | when each waiting criterion has a prerequisite without any status, all are recorded, in order, and the run is over |
| `VerifierDependencies.SelectedIsReached` | src/mission-verifier.ts:649-664 | an explicit selection expands to exactly what a chain of dependencies leads to |
| `VerifierDependencies.TakesPart` | src/mission-verifier.ts:639-675 | what takes part, by the request: checkable, final ones only in the final phase or when named, reached from the named ones, and affected |
| `AcpResult.SerializeFinalAcpResult` | src/acp-registry.ts:76-104 | the result never exceeds 2 MiB; it is the whole result around the longest tail of the output that fits, or the identity fields around that tail when the result alone is too large |
| `AcpResult.FitSerializedOutput` | src/acp-registry.ts:53-73 | the binary search keeps the whole output if it fits, else its longest proper tail that fits, else none of it |
| `AcpResult.CompactFits` | src/acp-registry.ts:86-103 | the compact tier always has room even when every byte escapes to six, so the last fallback is never taken |
| `AcpResult.TruncateUtf8Tail` | src/acp-registry.ts:24-30 | cutting bytes and skipping continuation bytes gives the longest suffix of characters within the limit |
| `AcpResult.TailStart` | src/acp-registry.ts:24-30 | the specified start: the suffix fits and every longer one does not |
| `AcpResult.DecodeEncode` | src/acp-registry.ts:25-29 | UTF-8 bytes decode to the text with lone surrogates replaced |
| `AcpResult.TruncatedIsMonotone` | src/acp-registry.ts:53-73 | a larger tail budget never serializes to less |
| `AcpResult.SerializedSize` | src/acp-registry.ts:39-50 | the serialized size is the size without output plus the escaped output |
| `AcpResult.OutputReadsBack` | src/acp-registry.ts:32-50 | the output text put into a document is the output text extracted from it |
| `AcpResult.EscapedSize` | src/acp-registry.ts:49-51 | escaping at most multiplies the bytes by six |
| `AcpDocument.FinalResultIs` | src/acp-registry.ts:76-104 | the final result, in bytes: at most two mebibytes; all fields of the result if these fit without output, else the compact ones; around the whole output if that fits, else the longest proper end of it that does |
| `AcpDocument.StringifyIsPrint` | src/acp-registry.ts:39-51 | the text of a document is what JSON.stringify prints, code unit by code unit |
| `AcpDocument.CompactIs` | src/acp-registry.ts:86-98 | the compact document keeps six named fields in order: a string's last 4096 bytes, a truth value, a number or null, and nothing else |
| `AcpDocument.CutIs` | src/acp-registry.ts:24-30 | cutting to a number of bytes leaves the longest end of whole characters that has no more |
| `AcpDocument.Utf8Is` | src/acp-registry.ts:25-29 | the bytes of a character, by the table of RFC 3629 |
| `AcpDocument.OutputIs` | src/acp-registry.ts:39-47 | the one message that stands for the output |
| `AcpDocument.PutIs` | src/acp-registry.ts:39-47 | setting a field gives it the value and leaves the others and their order |
| `AcpDocument.LookupIs` | src/acp-registry.ts:77-98 | a field is found by the first entry of its name |
| `AcpDocument.BytesAre` | src/acp-registry.ts:25-29 | characters are encoded one by one, and decoding gives them back but for halves of surrogate pairs |
| `AcpDocument.ContentsOfOne` | src/acp-registry.ts:32-44 | what text a message and a part have, and that anything else has none |
| `AcpDocument.ContentsConcat` | src/acp-registry.ts:36-42 | the texts of several parts are theirs one after another |
| `AcpDocument.AllContentsConcat` | src/acp-registry.ts:34-42 | the texts of several messages are theirs one after another |
| `AcpDocument.JoinedBy` | src/acp-registry.ts:43-43 | the texts are joined by newlines |
| `AcpDocument.OutputTextIs` | src/acp-registry.ts:32-33 | only a list of messages has an output text |
| `AcpValidity.FinalResultReadsBack` | src/acp-registry.ts:76-104 | the final result is valid JSON: read again it gives back the document, with nothing left over |
| `FailureWindow.FailuresAreBounded` | src/oauth-provider.ts:205-254 | for every interleaving of keys, purges and clock readings, any span of AUTH_LOCKOUT_MS holds fewer than twice the limit of recorded failures, per key since its last success and per domain since the last success there |
| `FailureWindow.BoundIsAttained` | src/oauth-provider.ts:182-225 | the key bound is exact: a concrete run puts one failure less than twice the limit into one span |
| `FailureWindow.DomainBoundIsAttained` | src/oauth-provider.ts:182-225 | the domain bound is exact, too |
| `FailureWindow.LockHoldsIffWindowIsInstant` | src/oauth-provider.ts:182-218 | a full key is refused until AUTH_LOCKOUT_MS after the first failure of its window while lockedUntilMs is that long after its last; so it is refused all the time until lockedUntilMs exactly when the window took at most a millisecond |
| `FailureWindow.FailureBeforeLockEnds` | src/oauth-provider.ts:182-218 | a run in which a wrong password is looked at and recorded before the lockedUntilMs of its full key |
| `FailureWindow.GlobalWindowOverflowsIff` | src/oauth-provider.ts:205-225 | a global window holds at most its limit, and one failure more exactly when the limit was reached at its first instant and the next failure came exactly AUTH_LOCKOUT_MS later |
| `FailureWindow.GlobalWindowOverflows` | src/oauth-provider.ts:205-225 | a run that brings a global tracker to one failure more than its limit |
| `FailureWindow.Provider.IsLockedOut` | src/oauth-provider.ts:182-194 | the check answers from both trackers and forgets an expired key tracker |
| `FailureWindow.Provider.RecordFailure` | src/oauth-provider.ts:205-225 | a failure advances the key tracker and the domain tracker, each with its own limit |
| `FailureWindow.Provider.AdvanceFailureWindow` | src/oauth-provider.ts:52-61 | a failure joins the window or restarts it when it is over; the lockout is the caller's decision |
| `FailureWindow.Provider.ClearFailures` | src/oauth-provider.ts:227-233 | after a success the key is not refused at any time, no failure of the key or the domain counts any more, and other keys and the other domain keep what they have |
| `FailureWindow.Provider.PurgeExpiredFailures` | src/oauth-provider.ts:244-253 | exactly the expired key trackers are removed and counted |
| `FailureWindow.Provider.Authorize` | src/oauth-provider.ts:303-337 | access is granted exactly for a correct password that is not locked out, and failures are recorded only when not locked out |
| `LockoutHistory.LockedOutIff` | src/oauth-provider.ts:182-225 | who is locked out at any moment of any run, told from the recorded failures: windows of five minutes beginning with the first failure after the one before is over; a key with five in its last window while that lasts, a domain for five minutes after the fiftieth or a later one of a window |
| `LockoutHistory.AttemptRecords` | src/oauth-provider.ts:303-337 | an attempt leaves nothing on record when locked out in that sense, a success when the password is correct, and otherwise a failure at its time |
| `LockoutHistory.PurgeForgets` | src/oauth-provider.ts:244-253 | a purge keeps just the keys whose window is not over |
| `ApprovalPaging.PagingIsComplete` | src/approval-requests.ts:241-276 | following nextBefore with any limits while requests are created, decided, expired and consumed between pages gives a strictly descending list without repetition that holds every request pending throughout |
| `ApprovalPaging.PagesJoin` | src/approval-requests.ts:241-276 | consecutive pages descend, stay below their cursor and skip nothing that matched all along |
| `ApprovalPaging.DecisionsAreFinal` | src/approval-requests.ts:278-442 | a decided row changes only by being consumed, an approval grants the scope its option declares, and successful consumptions are as many as consumed one-shot approvals |
| `ApprovalPaging.ApprovalManager.CreateRequest` | src/approval-requests.ts:132-219 | creation is refused for an inactive workspace or a taken id, and otherwise adds one pending row with its default options and expiry |
| `ApprovalPaging.ApprovalManager.ListPendingPage` | src/approval-requests.ts:241-276 | a page holds the greatest matches below the cursor, at most the clamped limit, and says whether any are left |
| `ApprovalPaging.ApprovalManager.ExpirePending` | src/approval-requests.ts:343-373 | at most the limit of lapsed pending rows expire, by expiry and id |
| `ApprovalPaging.ApprovalManager.ResolveRequest` | src/approval-requests.ts:278-341 | resolving expires first, decides a pending row exactly when option, effect and scope agree, and expires once more when reading it back |
| `ApprovalPaging.ApprovalManager.CheckDecision` | src/approval-requests.ts:282-326 | the checks on option, effect and scope, in order, accept exactly the consistent decisions and give the scope the option declares |
| `ApprovalPaging.ApprovalManager.ConsumeApprovedOperation` | src/approval-requests.ts:415-442 | exactly one unconsumed one-shot approval of the key is consumed, the latest resolved, if there is one |
| `ApprovalHistory.ConsumptionIsEarned` | src/approval-requests.ts:415-442 | over every run from an empty table: a call uses up a request only if that was created with the call's key and later approved for one execution, and none twice; it is refused exactly when all those have been used up, and takes one approved last |
| `ApprovalHistory.AcceptedIff` | src/approval-requests.ts:282-326 | which decisions a pending request accepts, as a table over its first option with the id, and what scope they grant |
| `ApprovalHistory.CreatedIsBorn` | src/approval-requests.ts:132-176 | a request is created with a choice to approve once or to deny when none are given, and with an expiry of a day for a tool of a work session and of ten minutes for any other tool, unless one is given |
| `ApprovalHistory.LapsesFromExpiry` | src/approval-requests.ts:343-357 | a pending request lapses from its expiry on, and never without one |
| `ApprovalHistory.LapsesInOrder` | src/approval-requests.ts:358-359 | those that expired first lapse first, and of those that expired together the lesser id |
| `ApprovalHistory.MatchMeans` | src/approval-requests.ts:252-264 | a page may list the pending rows of the workspace and origin asked for, created before the cursor or with it under a lesser id |
| `ApprovalHistory.NewestFirst` | src/approval-requests.ts:265-268 | a listing is by creation time, newest first, and by greater id within one |

## Left out

Snapshot store:
- One `gcSlice` call is atomic. The code awaits inside it, so nothing is claimed for a ref that becomes a root after the slice's own check, nor for a manifest republished while the expire loop runs.
- The time budget is given as the number of turns each loop gets; the listing a directory cursor yields is the one at its opening, each name once.
- Dry runs, unreadable or corrupt manifests and baselines, a failing root provider (all of them throw or only count), directory entries that are no manifests, high-water brake, metrics, corruption counters.
- SnapshotGcExact.Completes: one blob layout at a time is enumerated, sharded or flat, as in the code; a flat blob in a sharded store is never visited.
- `storageAccounting`, whose classification depends on manifest order, and size estimates.
- SnapshotCaptureGcExact.CollectionBreaksIff: speaks of a collection that begins in the state and runs at its clock; for a mark that is under way, `SnapshotGraceExact` says what some history of slices and other changes lets one slice take.
- The check of a capture's blobs and the rename of its manifest are one step, and so is the slice that runs inside a capture over the high-water mark. The branches for a rename that reports an existing file are left out, since a rename replaces it.
- File walking, hashing and symbolic-link checks of a capture, and the order in which a manifest lists its entries (some order of what was walked); renames are atomic, and content hashes are injective.

File lock:
- The mutation itself, file versions, and the ordering of keys, which does not affect the protocol.

Event log:
- Fragments without an id (the in-memory buffer regroups them by type and is not chronological), compaction, pruning of committed rows, publishing and waiters. Subscribers do not call back into the store.
- The channel labels of a coalesced payload; workspace correlation by lookup; identifiers hold no NUL character; payload hashes are injective.

Patches:
- Path confinement and symbolic links (a resolver function is a parameter), case-only renames, conflicts between a directory and a file at commit, a write that fails half-way through the commit, temporary files and the difference text of the result. Code points outside the basic plane count as one character.

Outbox:
- Subscribers and their notification, the read-only queries, and payload fields that are not texts. Row ids and tokens are fresh.

Receipts:
- The text hashed must be free of lone surrogates in the operation name for the hash to determine it (UTF-8 replaces them); SHA-256 is taken to be injective. Values with undefined, NaN, holes or `toJSON` are not modelled, and a number stands for its rendering.
- The sample of pending receipts that `reconcile` reports.
- Executions without a mutation id, which have no receipt.

Verifier:
- Running commands and probes, evidence reuse and persistence, leases, findings. A check is its start, its outcome and whether the workspace binding was lost. Criterion ids are unique. Which paths touch an affected area is a parameter.

Result budget:
- Numbers are given as rendered text of at most 25 characters; objects with `toJSON`, cycles or undefined members are not modelled.

Failure windows:
- Authorization codes and their purge, the retry hint, and the constant-time comparison.

Approvals:
- Waiter detaching and reattaching, deadlines, and the columns no query here reads. `consumeApprovedDirectOperation` differs from the modelled consumption only in the columns it selects by. Whether the workspace is active is a parameter. Ids are compared by code unit, and the clock stands still during one call.

Not modelled at all: HTTP, MCP and ACP transport, Git, worktrees, child processes, the sandbox, the command line, `deployment-lock.ts` (its file steps depend on process liveness), the mission ledger and policy rules, and the small guarded updates of the goal store, lifecycle coordinator and continuations.
