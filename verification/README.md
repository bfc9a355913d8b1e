# T.U.S.H.E.R. synchronisation, verified

A Dafny 4.11 model of the synchronisation engine of T.U.S.H.E.R. and proofs of its properties.
`dafny verify dfyconfig.toml` checks all of it.

## What is modelled

**The replicated catalogue.** `Catalogue` is one node's store as a value: registered folders, the
`files` table, the append-only log, and the four writing operations, each a transaction that leaves
nothing behind when it fails. `Store.MetadataDb` is the object, each method proved against the value
operation. `Reconciler` is the causal decision table and the application of its verdicts. Everything
that depends on a conflict copy's name is proved for every rule of type `Naming`;
`Reconciler.SourceName(fmt)` is the rule the code uses, for any date format.

* `StoreLaws` — what the four writing operations and the log queries promise, as relations between the
  store before, the store after, and the result; the methods of `Store.MetadataDb` ensure them too.
  `VerdictLaws` — the exact condition of every verdict, what carrying it out does, and a batch as a trace.
* `Runs` — every reachable state: the catalogue is the last-event-per-path fold of its log, log
  entries of a path strictly progress in (version, is-delete), and tombstones stay. The condition on
  conflict copies is exact: the copy's name is free, or holds a lower version, or already is that copy.
* `Survival` — which contents survive a remote event, and how two diverged nodes end up with both.
* `Batch` — snapshot-then-apply against one-at-a-time, equality up to timestamps, retries, absorption.
* `Lineage`, `Snapshot`, `Repull`, `Mesh` — a chain of nodes that pull from each other, with cut and
  repeated pulls and restarts, which forget the cursor, in any interleaving. `Mesh.MeshConverges` is the
  main theorem: nodes that are caught up hold the author's live files. `Snapshot.SnapshotPullShowsLogIff`
  says exactly when a batch with repeated paths is safe to judge against one snapshot, and
  `Repull.RepullConflictIff` exactly when judging again what was already taken in meets a conflict.
* `Coordinator` — a round of pulling with its cursor, and file-system echoes. `Delta` is the delta
  protocol as a machine with interleaved triggers, time-outs and late answers, and `ExactlyOnce` says
  for every run of it whether each event was delivered once.

**The resumable transfer.** `Tiling` is the sender's chunk arithmetic. `Transfer` spells every
handler of the receiver out as its list of effects on disk and memory, so that a run can stop between
any two of them, in the middle of a write, with or without losing memory. `Resume` proves that after
any such history one attempt completes, save one interruption: the crash between moving the finished
file and removing its checkpoint. `Gap` takes that in too and says, for every history, exactly when an
attempt succeeds. `ReceiverLaws` says what each message does to files, checkpoints and memory, and
what is answered, for every receiver. `Placement` is about arbitrary messages. `Endpoints` holds the receiver and sender
objects.

**The stream.** `Codec` is the frame decoder on a growing buffer, `ChunkJson` the size of a chunk
message as JSON text (RFC 8259, sections 5 and 6).

**Two timed machines.** `Debounce` is the watcher's debouncer, on the path arithmetic of `Components`,
and `Suppression` says over whole runs how long a suppressed path stays silent.
`Failover` is the maintenance of the connection to one peer, with the exact condition under which it
reaches the best transport; `Manager` holds the tables for all peers, placeholder names included, and
the object.

Hashes, JSON parsing, path cleaning and date formats are function parameters; the clock, the network
and the disk are inputs of each step. Where a theorem needs that a hash has no collision, it says so.

Where code and documentation differ the model follows the code. The metadata README gives
`(folder_id, relative_path)` as the primary key of `files`; the schema makes `file_id` the key, so a
second file with the same content is refused (`Catalogue.LocalUpsertSucceedsIff`). It also describes a
conflict as equal versions with different hashes; the code branches in more cases
(`Reconciler.ConflictIff`). Going back to the local network fails for a peer connected over Tailscale
whose first local candidate is dead while another one answers, and a manual connection is never given up
for a better one (`Failover.FailoverIff`). After a restart the whole log of a peer is judged again, and a
file that was edited twice is branched although nothing happened to it (`Mesh.RestartBranchesOldEdit`).

## Model

| member | source | states |
|---|---|---|
| Paths.NormalizeIsProjection | crates/tusher-metadata/src/db.rs:532-534 | normalizing yields a path without backslashes or leading slash, and leaves exactly such paths alone |
| Paths.NormalizeKeepsTheRest | crates/tusher-metadata/src/db.rs:532-534 | normalizing drops the separators in front and turns the other backslashes, and nothing else |
| Paths.ConflictPathSpelled | crates/tusher-metadata/src/reconciler.rs:133-158 | the conflict name of a file with an extension, letter by letter: directory, stem, mark, short node, time, extension |
| Paths.ConflictPathSpelledPlain | crates/tusher-metadata/src/reconciler.rs:133-158 | the same for names without an extension, hidden files included |
| Paths.ConflictPathCarriesMarker | crates/tusher-metadata/src/reconciler.rs:133-158 | every conflict name contains the marker, also as stored |
| Paths.ConflictPathDiffers | crates/tusher-metadata/src/reconciler.rs:133-158 | a conflict copy is never stored on the disputed path, for all paths, nodes and times |
| Reconciler.SourceNamingIsGood | crates/tusher-metadata/src/reconciler.rs:108-112 | the code's naming rule is one the theorems quantify over |
| Reconciler.ConflictIff | crates/tusher-metadata/src/reconciler.rs:80-125 | a conflict is branched exactly when two live contents differ and the incoming one is not a later edit |
| VerdictLaws.DeleteLocalIff | crates/tusher-metadata/src/reconciler.rs:46-60 | a delete is carried out exactly on a live row it is at least as new as, whatever the ids, and names the row's id |
| VerdictLaws.DownloadIff | crates/tusher-metadata/src/reconciler.rs:9-104 | a file is fetched exactly for an upsert of an unknown path, over an older tombstone, or superseding the live row |
| VerdictLaws.UpToDateIff | crates/tusher-metadata/src/reconciler.rs:33-43 | nothing is fetched exactly for an upsert of the live content; the version is the higher of the two |
| VerdictLaws.IgnoreIff | crates/tusher-metadata/src/reconciler.rs:27-79 | an event is ignored exactly if it deletes what is not live or is newer, or edits a tombstone at least as new |
| VerdictLaws.BranchIff | crates/tusher-metadata/src/reconciler.rs:80-125 | a conflict is branched exactly for another content than the live one's that does not supersede it, with the event's fields |
| VerdictLaws.ApplyKeepsPromises | crates/tusher-metadata/src/service.rs:110-187 | for every action, the event it is carried out as, and what that does to rows and log |
| VerdictLaws.DeleteTakesEffect | crates/tusher-metadata/src/service.rs:145-156 | after a delete at least as new as the live row, whatever its file id, the row is a tombstone of its version and the log has it |
| VerdictLaws.CarryIff | crates/tusher-sync/src/coordinator.rs:413-511 | an action goes through exactly if its pull request can be sent and the store takes it |
| VerdictLaws.PullAllTraced | crates/tusher-sync/src/coordinator.rs:413-511 | a batch is every event's verdict on the store at the start, carried out in order up to the first failure |
| Reconciler.TargetIsOwnPath | crates/tusher-metadata/src/reconciler.rs:9-130 | a verdict is carried out on the event's own path, exactly unless it is a conflict |
| Reconciler.RemoteStepKeepsInvIff | crates/tusher-metadata/src/service.rs:95-187 | exactly when one reconcile-then-apply keeps the catalogue the fold of a progressing log |
| Catalogue.PutRemoteKeepsInvIff | crates/tusher-metadata/src/db.rs:353-421 | a remote upsert keeps the invariant exactly when its row is absent, of lower version, or identical |
| Catalogue.BuryRemoteKeepsInv | crates/tusher-metadata/src/db.rs:424-473 | a remote delete above the row's rank succeeds and keeps the invariant |
| Catalogue.LocalUpsertKeepsInv | crates/tusher-metadata/src/db.rs:201-290 | a local edit keeps the invariant |
| Catalogue.LocalDeleteKeepsInv | crates/tusher-metadata/src/db.rs:293-350 | a local delete keeps the invariant |
| Catalogue.LocalUpsertSucceedsIff | crates/tusher-metadata/src/db.rs:49-62 | a local edit is refused exactly for an unknown folder, or a new path whose content id is taken |
| Catalogue.ReplayIsTop | crates/tusher-metadata/src/db.rs:66-78 | in a progressing log every entry is at or below its path's last one |
| Store.MetadataDb.AddFolder | crates/tusher-metadata/src/db.rs:85-100 | registers a folder and changes nothing else |
| Store.MetadataDb.GetFile | crates/tusher-metadata/src/db.rs:139-166 | finds the row of the normalized path |
| StoreLaws.LocalUpsertEdits | crates/tusher-metadata/src/db.rs:201-290 | the new live row, its id, version and log entry field by field, no other row changed; refused exactly for an unknown folder or a taken id |
| Store.MetadataDb.RecordLocalUpsert | crates/tusher-metadata/src/db.rs:201-290 | the same of the object, and unchanged on failure |
| StoreLaws.LocalDeleteDeletes | crates/tusher-metadata/src/db.rs:293-350 | exactly for a live row: the tombstone one version up with its fields, one delete entry with size 0, that entry returned; else nothing |
| Store.MetadataDb.RecordLocalDelete | crates/tusher-metadata/src/db.rs:293-350 | the same of the object |
| StoreLaws.PutRemoteTakes | crates/tusher-metadata/src/db.rs:353-421 | the row is the event's, its entry is logged exactly if the log has none of this path, version and content; refused exactly for an unknown folder or a taken id |
| Store.MetadataDb.ApplyRemoteUpsert | crates/tusher-metadata/src/db.rs:353-421 | the same of the object, or nothing changed and the error returned |
| StoreLaws.BuryRemoteBuries | crates/tusher-metadata/src/db.rs:424-473 | a row there is becomes a tombstone of the event's version, and the entry is logged with size 0 exactly if the log has no delete of this path and version |
| Store.MetadataDb.ApplyRemoteDelete | crates/tusher-metadata/src/db.rs:424-473 | the same of the object, or rolled back |
| StoreLaws.EventsSinceDelivers | crates/tusher-metadata/src/db.rs:476-521 | the folder's first events above the number, in order, none missing up to the last one, as many as there are or the limit allows |
| Store.MetadataDb.GetEventsSince | crates/tusher-metadata/src/db.rs:476-521 | the same of the object, with the folder's latest number |
| Store.MetadataDb.GetLatestEventSeq | crates/tusher-metadata/src/db.rs:523-529 | the folder's highest event number, 0 if none, stated of the log entries |
| Runs.NextKeepsInvIff | crates/tusher-metadata/src/db.rs:201-473 | for every operation, exactly when it keeps the invariant |
| Runs.StepDoes | crates/tusher-metadata/src/db.rs:201-473 | every step of a run keeps the promise of its operation |
| Runs.ReachableInv | crates/tusher-metadata/src/db.rs:201-473 | in every reachable state the catalogue equals the last-event-per-path fold of the log, which progresses lexicographically |
| Runs.VersionsNeverDrop | crates/tusher-metadata/src/db.rs:219-225 | from any point of a run to any later one no row disappears and no version goes down |
| Runs.OccupiedConflictNameStepsBack | crates/tusher-metadata/src/service.rs:159-183 | after a run of three steps a conflict copy lands on a later row and takes its version back, so the condition is needed |
| Runs.NoResurrection | crates/tusher-metadata/src/reconciler.rs:46-79 | a tombstoned path without the marker is untouched by any run whose upserts for it are no newer |
| Survival.IncomingContentIsKept | crates/tusher-metadata/src/reconciler.rs:64-125 | after an upsert its content is live in place or in the copy, or a tombstone at least as new stands |
| Survival.LocalContentYieldsOnlyToLater | crates/tusher-metadata/src/reconciler.rs:80-104 | a live content is replaced only by a strictly higher version, and deleted only by one at least as high |
| Survival.OtherRowsUntouched | crates/tusher-metadata/src/service.rs:110-187 | no row but the event's and its copy's changes |
| Survival.ConflictLosesNothingIff | crates/tusher-metadata/src/reconciler.rs:105-125 | branching loses no live content exactly when the copy's name holds no other live content |
| Survival.ExchangeKeepsBoth | crates/tusher-metadata/src/service.rs:159-183 | after a symmetric exchange of equal-version edits both nodes hold both contents |
| Survival.LocalEditSupersedes | crates/tusher-metadata/src/db.rs:216-289 | a local edit raises the version by one under the path's own id, logs itself last, and touches no other row |
| Batch.PullRefinesSteps | crates/tusher-metadata/src/service.rs:95-108 | snapshot-then-apply equals one at a time, with the same first failure, when no action writes a later event's path |
| Batch.DistinctNamesSuffice | crates/tusher-metadata/src/service.rs:99-105 | a batch whose paths and conflict names are pairwise distinct meets the conditions of refinement and retry on any store |
| Batch.SecondDeliveryIsAbsorbed | crates/tusher-metadata/src/db.rs:391-398 | a second delivery of any event succeeds and changes timestamps at most |
| Batch.AfterInterruption | crates/tusher-sync/src/coordinator.rs:413-511 | after a cut batch, what was applied is settled and the rest is judged as before |
| Batch.SameSaysAllButTimes | crates/tusher-metadata/src/db.rs:353-473 | what equality up to timestamps means for rows and log entries |
| Batch.RetryIsSafe | crates/tusher-sync/src/coordinator.rs:413-517 | retrying a whole batch after a failure anywhere ends like one clean run, up to timestamps, failures included |
| Lineage.FreshVerdict | crates/tusher-metadata/src/reconciler.rs:9-130 | a newer event of a single author is never a conflict and its verdict brings the row to it |
| Lineage.PullFollows | crates/tusher-sync/src/coordinator.rs:413-517 | a pull without repeated paths, complete or cut, leaves a follower of the log, without any conflict |
| Lineage.FollowerIsSingleAuthor | crates/tusher-metadata/src/db.rs:391-417 | a relay's own log meets the replay hypotheses again |
| Snapshot.SnapshotPullShowsLogIff | crates/tusher-metadata/src/service.rs:95-108 | a complete pull with repeated paths shows the author's log exactly if the row of every path was behind its last event, or behind none of the earlier ones |
| Snapshot.SnapshotPullFollows | crates/tusher-metadata/src/service.rs:95-187 | such a pull goes through, keeps the invariant, meets no conflict and leaves a follower |
| Snapshot.DeleteInSameBatchIsLost | crates/tusher-metadata/src/service.rs:99-105 | a file created and deleted within one batch stays alive on a consumer that did not have it |
| Repull.RepullConflictIff | crates/tusher-sync/src/coordinator.rs:351-417 | a pull that starts at or before what is already followed meets a conflict exactly if an upsert sent again has its path live with another content |
| Repull.RepullShowsLogIff | crates/tusher-metadata/src/service.rs:95-108 | without such upserts, exactly when a complete pull of that kind shows the author's log |
| Repull.RepullFollows | crates/tusher-metadata/src/service.rs:95-187 | such a pull keeps the invariant, meets no conflict and leaves a follower |
| Repull.RetryBranchesOldEdit | crates/tusher-sync/src/coordinator.rs:413-511 | if a pull was cut after an edit that replaces an earlier one of the same delta, judging the delta again meets a conflict |
| Mesh.ReachableMesh | crates/tusher-sync/src/coordinator.rs:351-520 | in every run of edits, restarts and pulls, complete or cut, every node follows its predecessor's log |
| Mesh.MeshConverges | crates/tusher-sync/src/coordinator.rs:351-520 | along the chain every caught-up node holds exactly the author's live paths and hashes |
| Mesh.SweepConverges | crates/tusher-sync/src/coordinator.rs:351-520 | after any regular run, one undisturbed pull of every node in turn leaves all with the author's live files |
| Mesh.EditShows | crates/tusher-metadata/src/db.rs:201-350 | an edit of the author is among its live files unless refused |
| Mesh.EraseShows | crates/tusher-metadata/src/db.rs:293-350 | an erased file is not among the author's live files |
| Mesh.PullsNeverConflict | crates/tusher-metadata/src/reconciler.rs:105-125 | no pull of such a run meets a conflict, and an undisturbed one catches up |
| Mesh.PullConflictIff | crates/tusher-metadata/src/reconciler.rs:80-125 | exactly which events of any delta, after such a run, are conflicts; without a restart or a cut pull none |
| Mesh.RestartConflictIff | crates/tusher-sync/src/coordinator.rs:40-50 | a node that was caught up and restarts meets a conflict exactly if a path is live with another content than some edit of its past |
| Mesh.RestartBranchesOldEdit | crates/tusher-sync/src/coordinator.rs:40-50 | a file edited twice is branched by every node that has both edits and restarts |
| Coordinator.EchoIsSilent | crates/tusher-sync/src/coordinator.rs:599-656 | the file-system echo of any applied verdict records nothing |
| Coordinator.FileSeenEdits | crates/tusher-sync/src/coordinator.rs:592-643 | a change on disk is recorded as an edit exactly unless the row is live with this content and size |
| Coordinator.FileGoneDeletes | crates/tusher-sync/src/coordinator.rs:645-683 | a removal on disk is recorded as a delete of the row if that is live |
| Coordinator.UnansweredRound | crates/tusher-sync/src/coordinator.rs:351-400 | a round that asks nothing or gets no manifest leaves store and cursors, and is an error exactly in the second case |
| Coordinator.AnsweredRound | crates/tusher-sync/src/coordinator.rs:402-520 | a round with a manifest goes through its verdicts up to the first failure, and moves this cursor to the manifest's number exactly if there is none |
| Coordinator.CursorMovesOnlyOnSuccess | crates/tusher-sync/src/coordinator.rs:513-517 | for every input, cursors change only in an answered round that went through, and every error leaves them |
| Coordinator.RoundIsMeshPull | crates/tusher-sync/src/coordinator.rs:351-520 | whatever number triggers it, a round answered from the peer's log is the mesh's pull, or none if the cursor has reached the number; the cursor moves only on success, to the latest number |
| Coordinator.RetriedRound | crates/tusher-sync/src/coordinator.rs:413-517 | a failed round leaves the cursor, and its retry ends like one clean round, up to timestamps |
| Coordinator.SyncCoordinator.RegisterFolder | crates/tusher-sync/src/coordinator.rs:82-103 | the folder is registered in memory and in the store |
| Coordinator.SyncCoordinator.ReconcileRemoteEvents | crates/tusher-metadata/src/service.rs:95-108 | every event is judged against the same store |
| Coordinator.SyncCoordinator.ApplyReconciliationAction | crates/tusher-metadata/src/service.rs:110-187 | the store after an action, or unchanged with failure reported |
| Coordinator.SyncCoordinator.DoReconcile | crates/tusher-sync/src/coordinator.rs:351-520 | store, cursors and result of a round, for every answer of the network |
| Coordinator.SyncCoordinator.ReconcileWithPeer | crates/tusher-sync/src/coordinator.rs:324-349 | the guard is given back, and a trigger that finds it taken changes nothing |
| Coordinator.SyncCoordinator.OnFileSeen | crates/tusher-sync/src/coordinator.rs:592-643 | a change on disk is recorded unless the catalogue has this content |
| Coordinator.SyncCoordinator.OnFileGone | crates/tusher-sync/src/coordinator.rs:645-683 | a removal on disk is recorded unless the catalogue has it deleted |
| Delta.AtMostOneRound | crates/tusher-sync/src/coordinator.rs:330-346 | under any interleaving at most one round is inside the guard |
| Delta.RoundBegins | crates/tusher-sync/src/coordinator.rs:330-395 | a trigger enters only a free guard, and a round asks from the cursor exactly if that is below the number |
| Delta.RoundGivesUp | crates/tusher-sync/src/coordinator.rs:342-400 | giving up frees the guard and keeps the cursor |
| Delta.RoundTakesIn | crates/tusher-sync/src/coordinator.rs:402-517 | a manifest moves the cursor exactly if all went through, and frees the guard in either case |
| Delta.RoundCatchesUp | crates/tusher-sync/src/coordinator.rs:351-517 | an undisturbed round brings the next events, at most 500, and the cursor to the folder's latest number |
| Delta.CursorNeverGoesBack | crates/tusher-sync/src/coordinator.rs:513-517 | the cursor never decreases, late answers included |
| Delta.NothingIsSkipped | crates/tusher-sync/src/coordinator.rs:390-417 | even with late answers no event up to the cursor is missing |
| ExactlyOnce.ExactlyOnceIff | crates/tusher-sync/src/coordinator.rs:351-417 | in every run the successful deltas concatenate to the folder's log up to the cursor, exactly if no answer taken in was cut at 500 or started behind the cursor with events of the folder in between |
| ExactlyOnce.DeliveredExactlyOnceIff | crates/tusher-metadata/src/db.rs:476-529 | without late answers, exactly if none was cut |
| ExactlyOnce.OnlyRepeatsAreAdded | crates/tusher-sync/src/coordinator.rs:390-417 | if none was cut, what was taken in is the folder's log in order with repeats added, and there are repeats exactly if an answer started behind the cursor |
| ExactlyOnce.LateAnswerRepeats | crates/tusher-sync/src/coordinator.rs:402-417 | a late answer delivers again just the events between its first number and the cursor |
| ExactlyOnce.RepeatHappens | crates/tusher-sync/src/coordinator.rs:402-417 | a run that delivers an event twice |
| Tiling.ExactTiling | crates/tusher-transfer/src/sender.rs:134-148 | chunks are in order, adjoin, end the file, and no length is negative or empty except for the empty file |
| Tiling.Covered | crates/tusher-transfer/src/sender.rs:134-148 | every byte position is in a chunk |
| Tiling.Disjoint | crates/tusher-transfer/src/sender.rs:134-148 | chunks do not overlap |
| Tiling.WellCutIff | crates/tusher-transfer/src/sender.rs:78-82 | the cut is a proper one exactly when the number of chunks fits u32 |
| Resume.CutKeepsInv | crates/tusher-transfer/src/receiver.rs:54-253 | a handler cut between any two effects, torn, or with memory lost keeps every checkpointed chunk right |
| Resume.HappenKeepsInvIff | crates/tusher-transfer/src/receiver.rs:183-253 | of everything that can happen to a transfer, exactly a completion cut between move and clean-up, with a checkpoint that claims something, breaks the invariant |
| Resume.HistoryKeepsInv | crates/tusher-transfer/src/receiver.rs:54-253 | any history of cut handlers, crashes and foreign transfers outside that gap keeps every checkpointed chunk right |
| Resume.AttemptFromInv | crates/tusher-transfer/src/sender.rs:129-186 | from such a state an attempt places the source and skips exactly the checkpointed chunks |
| Resume.InitAnnounces | crates/tusher-transfer/src/sender.rs:78-101 | the announced size, hash and number of chunks are those of the source |
| Resume.ChunkCarries | crates/tusher-transfer/src/sender.rs:134-163 | a chunk carries the source's bytes at its offset and their hash, a full chunk unless it ends the source |
| Resume.BadAckEndsAttempt | crates/tusher-transfer/src/sender.rs:137-186 | chunks go out in order, existing ones are skipped, and the first one not acknowledged ends the attempt |
| Resume.AttemptStages | crates/tusher-transfer/src/sender.rs:91-230 | chunks are sent only after an acknowledged init, and the completion only after all of them |
| Resume.ResumeCompletes | crates/tusher-transfer/src/sender.rs:64-230 | after any interrupted attempts outside that gap one attempt places bytes equal to the source, with sent + skipped = total |
| Gap.CrashInGapPoisons | crates/tusher-transfer/src/receiver.rs:225-229 | a crash between move and clean-up leaves a checkpoint that claims everything and no partial file |
| Gap.PoisonedNeverRecovers | crates/tusher-transfer/src/receiver.rs:80-122 | from there every attempt fails and changes nothing, unless the file is all zeros |
| Gap.AttemptSucceedsIff | crates/tusher-transfer/src/receiver.rs:195-210 | an attempt succeeds exactly when every chunk its checkpoint claims is on disk as in the source, and then places the source |
| Gap.ResumeSucceedsIff | crates/tusher-transfer/src/receiver.rs:54-253 | the same after every history without exception, and without a crash between move and clean-up the chunks always are there |
| Placement.CheckpointsAreProven | crates/tusher-transfer/src/receiver.rs:142-171 | under arbitrary messages a chunk is checkpointed only after data matching its hash was written to the partial file at its place |
| Placement.PlacedFilesAreVerified | crates/tusher-transfer/src/receiver.rs:188-225 | under arbitrary messages a placed file's hash is the completing one and one that an init of this transfer announced, for this destination |
| Placement.LatestInitDecidesIff | crates/tusher-transfer/src/receiver.rs:80-122 | the file goes where the latest init asked exactly if that init resumed nothing or a checkpoint with that destination |
| Placement.PlacingPlan | crates/tusher-transfer/src/receiver.rs:183-253 | only a completion whose three hashes agree places a file, and it places the whole partial file |
| ReceiverLaws.InitDoes | crates/tusher-transfer/src/receiver.rs:78-131 | an init resumes or starts the checkpoint, sees that the partial file exists, zeros if new, and reports the chunks |
| ReceiverLaws.NamelessInitFails | crates/tusher-transfer/src/receiver.rs:65-77 | an init without a name is refused and does nothing |
| ReceiverLaws.ChunkAckIff | crates/tusher-transfer/src/receiver.rs:142-180 | a chunk is accepted exactly if its data matches its hash and there is a partial file |
| ReceiverLaws.RefusedChunkDoesNothing | crates/tusher-transfer/src/receiver.rs:142-154 | a chunk that is not accepted changes nothing, wherever its handler is cut |
| ReceiverLaws.AcceptedChunkDoes | crates/tusher-transfer/src/receiver.rs:156-180 | an accepted chunk changes the file at its place only, and is checkpointed if the transfer is active |
| ReceiverLaws.TornWrite | crates/tusher-transfer/src/receiver.rs:163-165 | cut within the write, some first bytes are on disk and nothing is checkpointed |
| ReceiverLaws.TornCheckpoint | crates/tusher-transfer/src/receiver.rs:167-171 | cut within saving the checkpoint, the data is on disk and the checkpoint is unreadable |
| ReceiverLaws.CompleteDoes | crates/tusher-transfer/src/receiver.rs:183-253 | a completion places the whole file exactly if the three hashes agree, and otherwise only forgets the active state |
| ReceiverLaws.UnknownCompleteFails | crates/tusher-transfer/src/receiver.rs:188-191 | a completion of an unknown transfer fails and does nothing |
| Endpoints.FileReceiver.HandleInit | crates/tusher-transfer/src/receiver.rs:54-131 | the object's new state and reply are those of the complete plan |
| Endpoints.FileReceiver.HandleChunk | crates/tusher-transfer/src/receiver.rs:134-180 | as above; a mismatch changes nothing and is answered so, and accepted is exactly a matching chunk with a partial file |
| Endpoints.FileReceiver.HandleComplete | crates/tusher-transfer/src/receiver.rs:183-253 | as above |
| Endpoints.FileSender.SendChunks | crates/tusher-transfer/src/sender.rs:129-186 | the chunk loop against its recursive form |
| Endpoints.FileSender.SendFileWithTargetPath | crates/tusher-transfer/src/sender.rs:64-230 | the attempt against its value form; from a sound receiver the file arrives whole |
| Codec.BigEndianRoundTrip | crates/tusher-core/src/protocol.rs:176-213 | the length field reads back as the length modulo 2^32 |
| Codec.RoundTripIff | crates/tusher-core/src/protocol.rs:162-216 | a frame is read back, consuming exactly 8 + length bytes, exactly when its payload is within the limit |
| Codec.FrameLayout | crates/tusher-core/src/protocol.rs:205-216 | the bytes of a frame: TUSH, the length modulo 2^32 with the highest byte first, the payload |
| Codec.DecodeSays | crates/tusher-core/src/protocol.rs:162-200 | one decode call for every buffer, errors included: what it waits for, refuses and consumes |
| Codec.BadFrameEndsTheStream | crates/tusher-core/src/protocol.rs:162-200 | messages before a bad frame are found, and nothing after it |
| Codec.PartialFrameWaits | crates/tusher-core/src/protocol.rs:164-188 | an incomplete frame, wherever cut, asks for more |
| Codec.FragmentationDoesNotMatter | crates/tusher-core/src/protocol.rs:162-200 | any byte stream, good or bad, decodes the same however it is cut into reads |
| Codec.StreamRoundTrip | crates/tusher-core/src/protocol.rs:162-216 | any fragmentation of encoded messages within the limit decodes to exactly those messages |
| Codec.Encode | crates/tusher-core/src/protocol.rs:205-216 | appends exactly one frame to the buffer |
| Codec.Decode | crates/tusher-core/src/protocol.rs:162-200 | result and remaining buffer of one decode call; nothing consumed when incomplete |
| Codec.ReadAll | crates/tusher-core/src/protocol.rs:162-200 | a connection's reads against the stream function |
| ChunkJson.DecimalReadsBack | crates/tusher-core/src/protocol.rs:79-85 | the decimal text of a number stands for it |
| ChunkJson.DefaultChunkFits | crates/tusher-transfer/src/sender.rs:10 | a chunk of at most 2 MiB, whatever its bytes, is below the frame limit as JSON |
| ChunkJson.ChunkSizeIsSafeIff | crates/tusher-transfer/src/sender.rs:134-163 | the chunk sizes with which every chunk of every file is within the frame limit are exactly those up to 4194251 bytes |
| Debounce.DebounceGroups | crates/tusher-sync/src/watcher.rs:161-304 | accepted events split in order into the non-empty groups of the firings and those waiting, each firing at least the interval after its group |
| Debounce.SuppressedPathsAreSilent | crates/tusher-sync/src/watcher.rs:248-256 | nothing is emitted while the path's latest suppression runs |
| Suppression.SuppressedUntilTheEnd | crates/tusher-sync/src/watcher.rs:84-87 | until a suppression is over, whatever happens meanwhile, no raw event of the path is accepted and no firing of it emits |
| Suppression.AcceptedFromTheEnd | crates/tusher-sync/src/watcher.rs:185-210 | from its end on raw events of the path are accepted again, if not ignored |
| Suppression.RawAcceptedIff | crates/tusher-sync/src/watcher.rs:185-210 | exactly which raw events are accepted, and the deadline they set |
| Suppression.IgnoredNames | crates/tusher-sync/src/watcher.rs:29-47 | exactly which names are ignored |
| Suppression.UnderComponents | crates/tusher-sync/src/watcher.rs:202-208 | a folder takes what is below its root, by components and not by letters |
| Debounce.FiringTellsTheDisk | crates/tusher-sync/src/watcher.rs:231-300 | what a firing emits is the disk's state at the path, and when it emits nothing |
| Components.RelativeLeadsBack | crates/tusher-sync/src/watcher.rs:50-62 | exactly when a path has a relative one, which joined to its root has the path's components again if all names below the root are ordinary and without backslashes |
| Components.PartsAfter | crates/tusher-sync/src/watcher.rs:50-62 | what follows a separator is one more component, unless it is nothing or "."; ".." counts |
| Components.OrdinariesSplit | crates/tusher-sync/src/watcher.rs:50-62 | names are kept component by component, in order |
| Components.NormalizeRelativePath | crates/tusher-sync/src/watcher.rs:50-62 | the loop over the components against the relative path |
| Debounce.FolderWatcher.SuppressPath | crates/tusher-sync/src/watcher.rs:84-87 | the path is suppressed until now plus the duration |
| Debounce.FolderWatcher.AddFolder | crates/tusher-sync/src/watcher.rs:138-151 | the folder's root is registered |
| Debounce.FolderWatcher.OnRawEvent | crates/tusher-sync/src/watcher.rs:185-210 | a raw event under a registered folder restarts the path's deadline, unless ignored or suppressed |
| Debounce.FolderWatcher.OnTimer | crates/tusher-sync/src/watcher.rs:221-301 | a tick fires exactly the due paths, each once, and sends exactly what the firings emit |
| Failover.FailoverIff | crates/tusher-network/src/manager.rs:302-447 | from any state, after three rounds the peer is on the best transport exactly unless it started on a working connection that is never given up for a better one, which it then keeps |
| Failover.BoundedFailover | crates/tusher-network/src/manager.rs:302-447 | with at most one local address and no manual connection, within three rounds the best transport is reached and then kept, with at most two misses |
| Failover.OneRound | crates/tusher-network/src/manager.rs:302-394 | a round leaves a stuck peer stuck, and settles any other or adds one miss on a dead connection |
| Failover.RoundDoes | crates/tusher-network/src/manager.rs:302-394 | a round gives the connection up exactly when switched off or at the third miss, and redials the first candidate that answers; else it goes back to the first local one, or counts the ping |
| Failover.MissesStayBelowThree | crates/tusher-network/src/manager.rs:338-352 | between rounds the miss counter is at most 2, whatever the network does |
| Failover.SecondLanIsNotProbed | crates/tusher-network/src/manager.rs:377-390 | with two local candidates a peer can stay on the slower transport for ever |
| Manager.CandidatesStaySorted | crates/tusher-network/src/manager.rs:122-138 | adding a candidate keeps the list sorted and adds nothing else |
| Manager.DiscoverDoes | crates/tusher-network/src/manager.rs:122-150 | a new address is slotted in behind its equals, and a peer without a connection is dialled |
| Manager.KeepIsMaintain | crates/tusher-network/src/manager.rs:308-393 | maintaining one peer in the tables is its round, and other peers do not change |
| Manager.EveryPeerFailsOverIff | crates/tusher-network/src/manager.rs:302-394 | rounds over all peers, each in any order, bring every peer to its best transport exactly unless that peer was stuck |
| Manager.PlaceholderMoves | crates/tusher-network/src/manager.rs:424-440 | a dial answered under another name moves the candidate and the connection there; its list stays sorted exactly if the address comes last in order or was there |
| Manager.ConnectionManager.AddCandidate | crates/tusher-network/src/manager.rs:122-150 | the tables after a discovery, which dials when there is no connection |
| Manager.ConnectionManager.AttemptConnectBestCandidate | crates/tusher-network/src/manager.rs:396-447 | the first candidate that answers is connected, under the name that answers |
| Manager.ConnectionManager.MaintainPeer | crates/tusher-network/src/manager.rs:308-393 | the tables after one round for one peer |
| Manager.ConnectionManager.MaintainConnections | crates/tusher-network/src/manager.rs:302-394 | one round for every peer with candidates, once each, in some order |

## Left out

- Versions, sizes and event numbers are unbounded: the casts between u64 and SQLite's i64 are not modelled, so versions from 2^63 on are outside the model.
- The filename and created_at columns: derived from the path, and never read back.
- The two clock reads of one apply are one input.
- Local edits between reconciling and applying: the store's lock is released there; theorems on single steps are about atomic steps, `Batch` is about a batch with nothing in between.
- Folder removal, members and listings: no state the synchronisation depends on.
- Paths.ConflictPathDiffers: the parts of a path are cut at the last '/' and the last '.'; `Path`'s treatment of trailing and repeated separators, of `.` components and of Windows separators is not modelled.
- Mesh.MeshConverges: one author and one folder, at most 500 events a delta, and per pull either no repeated path or an undisturbed pull in which each path's last event wins and no superseded edit is judged again; `ExactlyOnce.ExactlyOnceIff`, `Repull.RetryBranchesOldEdit`, `Snapshot.SnapshotPullShowsLogIff` and `Mesh.RestartConflictIff` show what goes wrong otherwise.
- Batch.PullRefinesSteps: one direction; a batch that violates the condition may still agree with single steps by chance.
- ExactlyOnce.ExactlyOnceIff: one folder's requests per connection, because the code does not match an answer to its folder, and one life of the coordinator, because a restart forgets the cursor.
- Delta.CursorNeverGoesBack: one life of the coordinator; a restart sets the cursor to 0.
- Files on disk behind the catalogue in a pull: suppressing the watcher, sending the pull request and removing the file are a single outcome of the step.
- Resume.ResumeCompletes: one source and one chunk size per transfer id; a different file under the same id is not modelled. Crashes in the gap are covered by `Gap.ResumeSucceedsIff`.
- A crash is the death of the process: what was written stays written. The receiver never syncs to disk (receiver.rs lines 163-165), so a power failure can keep a checkpoint and lose its data.
- Gap.AttemptSucceedsIff: for a hash without a collision on the source.
- Cleaning of file names: a parameter; its component rules would add only easy members.
- The in-place write of the partial file is a sequence replaced in a map, because a write past the end extends the file.
- The sender's time-outs and the channel: a sender is answered directly, and an attempt that gets no answer is a cut history.
- Debounce.FolderWatcher.OnTimer: hashing a file takes no time; all suppression checks of one tick use its time; paths as keys are compared as text, where `PathBuf` compares components.
- Failover.FailoverIff: a network that holds still and a list in priority order; `Manager.PlaceholderMoves` says when a list leaves that order.
- Manager.EveryPeerFailsOverIff: whoever answers at a peer's candidates is that peer; incoming connections are not modelled.
- Handshake, pairing, discovery, cryptography, user interfaces and foreign-function bindings.
