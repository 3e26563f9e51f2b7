# Verified model of the fibe-distilled control plane

fibe-distilled deploys Playgrounds: one SQLite row and one Compose project each, worked on at the
same time by deployment tasks, request handlers, a background sweep and other deployments' builds.
This project models the protocols between them and the text transformations they rely on, and
proves properties of every run and every input. `dafny verify dfyconfig.toml` checks all of it.

The modules, hardest first:

- `Deployment`, `DeploymentProgress`, `DeploymentOutcome`, `StopWins`, `DeleteWins`, `MetadataHistory`,
  `RequestEffects`, `LosingRuns`: one row, whether the project's containers are up on the runtime
  Marquee, any number of deployment tasks with program counters, stop, delete, PATCH, rename, extend and
  restart requests, builds for pushes, and the background saves of source sync and expiration,
  interleaved step by step. The read and the compare-and-swap of a progress write are separate steps,
  and so are the read and the plain save of a failed deployment and of a background pass, and the
  beginning of a push build, its reload of the row and its plain save; a handler's reload and save is
  one step.
- `PlaygroundStore`: the statements that write the row, and the retry loop of a guarded progress
  save, against other callers that act before every statement.
- `BuildReuse`, `BuildOutcome`: build records, the query for equivalent builds, waiting, reuse and fresh
  builds, for any number of workers.
- `SourceSyncLocks`: the keyed, reference-counted lock table, for any number of threads and keys. A
  thread holds at most one key, as the source does: plans are synced one after the other.
- `GitHistory`, `SourceSync`: commit graphs, the two history classifiers, and checkout updates.
- `OrphanSweep`, `Expiration`: what the background pass destroys, and on the strength of which reads.
- `Branches`, `PortMappings`, `BuildArgs`, `CheckoutPaths`, `ShellQuoting`, `CreationSteps`: the
  transformations. `Text` holds the string functions they share.

Some promises do not hold as stated. The code is modelled as it is, and an exact condition is proved:

- A stop is overwritten if and only if, when it was accepted, a plain save to another status was on its way:
  a failed deployment between its last look at the row and its error save, a source sync or expiration pass
  between its read and its save, or a running push build that turns out ready (`StopWins.StopWinsIff`; losing
  runs in `LosingRuns.ErrorSaveOverridesStop`, `LosingRuns.BackgroundSaveOverridesStop` and
  `LosingRuns.PushBuildOverridesStop`). This is exact for the steps modelled, with no later start, deletion or
  half-failed Compose deploy.
- A stop that is not overwritten ends with the containers down and the row stopped, unless a push build that
  failed saved back the status `stopping` it had read, after the stop finished and with no stop after it
  (`StopWins.StopWinsOverDeploy`, an if and only if; it happens in `LosingRuns.FailedPushBuildStrandsStop`).
- Deployments and background saves are invisible in the user's metadata if and only if no plain save landed
  over edits, other than a rename, made since its read (`MetadataHistory.DeploymentsAreInvisibleIff`;
  `LosingRuns.ErrorSaveRevertsExtension` shows an extension taken back).
- The storage-side branch normaliser does not trim the default branch, so it is idempotent if and only if
  the default is trimmed, blank, or listed under its trimmed name (`Branches.IdempotentIff`). Its callers trim.
- Marking a ledger as interrupted is never idempotent by itself; the status guard of the row makes
  recovery idempotent (`CreationSteps.LedgerRecoveryNeverIdempotent`, `CreationSteps.RecoveringTwiceIsOnce`).
- A swept project is live at some moment from the row read on if and only if in between a row was inserted
  under its name or moved onto the Marquee (`OrphanSweep.SweepDestroysLiveIff`; both happen in
  `OrphanSweep.ReusedNameIsSwept` and `OrphanSweep.MovedRowIsSwept`, as names have one-second resolution).

Assumptions, all explicit in the model: every committed write of a row gets a fresh `updated_at`
(deleting a Playspec or a Marquee clears the row's reference without one and is not modelled); every
runtime command acts on the one configured runtime Marquee, as the source resolves it; commit stores
agree on the commits they share; where a commit of a history is missing from the store, what native Git
counts there, and whether a pull goes through there, are arbitrary parameters; a pull moves a branch
only to a head it found to contain the old one; `strings.ToLower` and `url.Parse` are arbitrary
functions; the SHA-256 digest of a build identity stands for its input; port endpoints are decimal
numbers in 1..65535, as `internal/composefile/service/port_mappings.go` checks.

## Model

| member | source | states |
|---|---|---|
| `StopWins.StopWinsOverDeploy` | internal/worker/deploy.go:136-186 | In every interleaving, after a stop accepted while no plain save to another status is on its way, with no later start, deletion or half-failed Compose deploy, once all tasks, stop requests and background saves have returned the containers are down, and the row is stopped, or stopping exactly when a push build of before the accept put that status back last |
| `StopWins.StopWinsOutright` | internal/worker/deploy.go:136-186 | With no push build in flight at the accept either, neither building nor about to write stopping back, the row ends stopped and the containers are down |
| `StopWins.StopWinsIff` | internal/playground/operations.go:241-291 | Under the same conditions on later steps, the row stays stopping or stopped to the end if and only if no plain save to another status was on its way at the accept: no error save, no background save, no running push build that turns out ready |
| `StopWins.LastStopWinsIff` | internal/worker/deploy_failure.go:153-159 | For the last accepted stop, while no background save writes stopping or stopped itself, the row ends stopped if and only if no such save was on its way |
| `DeleteWins.DeleteLeavesNothing` | internal/playground/http.go:186-231 | After a deletion accepted while no plain save to another status was on its way, with no stop accepted and no half-failed Compose deploy since, if all deployments have returned when the row is removed then no containers are up at that moment, and from then on there is neither a row nor a container |
| `LosingRuns.ErrorSaveOverridesStop` | internal/worker/deploy_failure.go:223-240 | A concrete run in which the error save of a failed deployment overwrites the stop |
| `LosingRuns.BackgroundSaveOverridesStop` | internal/worker/playguard.go:430-436 | A concrete run in which a background save, read before the accept, overwrites a finished stop |
| `LosingRuns.PushBuildOverridesStop` | internal/worker/github_webhook.go:269-320 | A concrete run in which a push build, begun on a running row before the accept, turns out ready and takes the finished stop to has_changes |
| `LosingRuns.FailedPushBuildStrandsStop` | internal/worker/github_webhook.go:303-320 | A concrete run in which a push build that failed reads stopping and saves it back after the stop has finished |
| `LosingRuns.ErrorSaveRevertsExtension` | internal/worker/deploy_failure.go:223-240 | A concrete run in which the error save takes back an extension: the metadata is no longer what the edits make of it |
| `StopWins.NoTaskIsStuck` | internal/worker/deploy.go:13-40 | Every task that has not returned can take a step, in every reachable state |
| `StopWins.TasksProgress` | internal/worker/deploy_failure.go:19-33 | Every step of a task brings it nearer to its return, except a progress write that was overtaken |
| `DeploymentOutcome.DeploymentSucceeds` | internal/worker/deploy.go:13-46 | On any row that is pending, in progress, running, changed, in error or stopped, a deployment that is left alone and none of whose work fails returns, with the row running and the containers up |
| `DeploymentOutcome.UndisturbedSucceeds` | internal/worker/deploy.go:13-46 | Whenever an undisturbed deployment has returned, the row is running and the containers are up if none of its work failed, and the row is in error if some did |
| `DeploymentOutcome.FinishedIsRunning` | internal/worker/deploy.go:130-156 | In every run, a deployment that returns with a landed write leaves the row running, and one of its own earlier steps left the containers up |
| `DeploymentOutcome.FinishedWentThrough` | internal/worker/deploy.go:55-186 | In every run, a finished deployment has rendered, prepared the host, synced the sources, built, deployed Compose and observed it, in this order, found the row pending or in progress before each of the last five, and once more at the end |
| `DeploymentOutcome.CleanUpEffect` | internal/worker/deploy_failure.go:161-180 | In every run a deployment cleans up only after a step of its own that left the containers up, and then brings them down exactly if a stop or a deletion has won |
| `DeploymentProgress.ProgressCommits` | internal/worker/deploy_failure.go:35-60 | A progress write lands only on the very row the task read, whose status passes its guard at that moment (pending or in progress, unless it is the start), and changes nothing of it but status, payload and updated_at |
| `DeploymentProgress.RetryMeansOvertaken` | internal/worker/deploy_failure.go:19-49 | A progress write is retried only if another write was committed between its read and its swap |
| `DeploymentProgress.OvertakenRetries` | internal/worker/deploy_failure.go:19-49 | A write that is overtaken is tried again while the row is there; when it is gone the task returns, or goes on with the failure it is recording |
| `DeploymentProgress.StartCommits` | internal/worker/deploy_failure.go:82-90 | A landed start takes the row from its start status, one of pending, in progress, running, has changes, error and stopped, to in progress |
| `DeploymentProgress.StartsAreSeparated` | internal/worker/deploy_steps.go:23-28 | Between two landed starts, the later one not from in_progress, some commit took the row out of in_progress |
| `MetadataHistory.DeploymentsAreInvisibleIff` | internal/worker/deploy_failure.go:51-60 | For every run: erasing all steps of deployments and background saves leaves the same name, Playspec, Marquee, overrides and expiry at every moment, if and only if no plain save landed over edits other than a rename made since its read |
| `MetadataHistory.DeploymentsAreInvisible` | internal/worker/deploy_failure.go:35-60 | In particular whenever no plain save landed: progress writes alone are always invisible |
| `MetadataHistory.QuietWindowIsHarmless` | internal/worker/deploy_failure.go:153-159 | A plain save is harmless when no PATCH of more than the name and no extension came between its read and itself |
| `MetadataHistory.HeldIsLastSeen` | internal/worker/deploy_failure.go:62-75 | What a plain save holds is the row at its last read |
| `MetadataHistory.UnguardedSavePutsBack` | internal/storage/store_playgrounds.go:68-91 | A plain save keeps the current name and puts back all other metadata as of its read |
| `RequestEffects.MergedValues` | internal/playground/payload.go:272-284 | Merged overrides hold under every path of keys the incoming value, or where the incoming ones are silent the value there was, and nothing else |
| `RequestEffects.PatchEffect` | internal/playground/http.go:123-183 | A PATCH writes what it names and nothing else, and turns a pending, in-progress or running row to has_changes exactly when its Playspec, Marquee, environment or overrides now differ |
| `RequestEffects.PatchedOverrides` | internal/playground/payload.go:272-284 | The overrides after a PATCH in any run, path by path |
| `RequestEffects.ExtendEffect` | internal/playground/expiration.go:52-79 | An extension adds its duration to the expiry, or to the present moment when the expiry is not ahead, and changes nothing else |
| `RequestEffects.ExtendAllowedIff` | internal/playground/expiration.go:59-66 | It is granted exactly to rows that are not completed, being destroyed, stopping or stopped |
| `Deployment.EventKeepsInv` | internal/storage/store_playgrounds.go:68-132 | Every step keeps names trimmed, versions fresh, and the row a task has read identical to the stored row of that version |
| `Deployment.RunInv` | internal/worker/deploy.go:13-186 | The same in every reachable state, for all tasks |
| `PlaygroundStore.ProgressKeepsMeta` | internal/worker/deploy_failure.go:51-60 | Merging the latest metadata and swapping leaves the read row's metadata unchanged |
| `PlaygroundStore.SwapAfterRead` | internal/storage/store_playgrounds.go:94-120 | A swap succeeds after a read exactly when no other write was committed in between |
| `PlaygroundStore.Table.Save` | internal/storage/store_playgrounds.go:68-91 | The row becomes the caller's, except the name when the stored row is newer |
| `PlaygroundStore.Table.SaveIfCurrent` | internal/storage/store_playgrounds.go:94-120 | Writes exactly when status and updated_at still match; otherwise returns the latest row untouched |
| `PlaygroundStore.Table.Rename` | internal/storage/store_playgrounds.go:123-131 | Changes the name and updated_at and nothing else |
| `PlaygroundStore.Table.TrySaveProgress` | internal/worker/deploy_failure.go:35-49 | One own commit that passes the guard and keeps the metadata, or none; a retry is asked for only after a foreign commit |
| `PlaygroundStore.Table.SaveProgressWhen` | internal/worker/deploy_failure.go:19-33 | The loop ends, makes at most one commit of its own, and tries at most once more than others commit |
| `BuildReuse.EventKeepsInv` | internal/worker/builds.go:64-107 | Every protocol step keeps the invariant of records and workers and undoes no settled record |
| `BuildReuse.RunInv` | internal/worker/builds.go:64-107 | The invariant in every reachable state |
| `BuildReuse.RecordsSettle` | internal/worker/builds.go:309-353 | No record disappears; one that has left pending keeps plan, commit and image and never returns to it; a finished one is never written again |
| `BuildReuse.NoWaitCycles` | internal/worker/builds.go:181-197 | A waiting worker's own record is pending without commit, nobody polls it, and the record it polls belongs to no waiting worker |
| `BuildReuse.OwnRecordNeverListed` | internal/worker/builds.go:185-187 | The test that skips the worker's own record never fires |
| `BuildReuse.ReuseProvenance` | internal/worker/builds.go:204-318 | Every reused record traces through finitely many reuses to one whose own image build was started, with the same scope, branch, commit, digest, platform and image |
| `BuildReuse.ListingIsQuery` | internal/storage/store_build_records.go:62-70 | The candidates are exactly the successful or building records of the same commit, branch, digest and platform, and of the same Prop, or without one the same playground and service, each once, newest first |
| `BuildReuse.VerifiedReusable` | internal/worker/builds.go:217-232 | The first candidate with the status and an image reference whose image is not absent decides: found when it is there, an error when the check ends in one; nothing is found exactly when all are absent |
| `BuildReuse.PollReusable` | internal/worker/builds.go:252-307 | The first turn that ends the loop within 45 minutes decides, cancellation included: the record as read when it succeeded and its image is there, an error, or nothing; and it takes no more turns than that |
| `BuildReuse.WaitForCandidates` | internal/worker/builds.go:181-202 | The first other build in flight, begun within 45 minutes, whose wait answers anything decides, after at most 1350 polls per candidate |
| `BuildReuse.NoWorkerIsStuck` | internal/worker/builds.go:64-107 | Every worker that has not finished can take a step other than failing or giving up |
| `BuildReuse.WorkersProgress` | internal/worker/builds.go:64-107 | Every step of a worker brings it nearer to its end, by phase and then by remaining candidates |
| `BuildReuse.FindReusable` | internal/worker/builds.go:161-179 | The first finished build whose image is not absent decides; when all are absent, the builds in flight do; a found build has an image reference and its image has been seen by a check or a poll |
| `BuildReuse.FoundIsEquivalent` | internal/worker/builds.go:161-179 | What the search finds is a stored record of the same commit, branch, digest, platform and scope, with an image, given that polled records keep their plan and commit (`BuildReuse.RecordsSettle`) |
| `BuildOutcome.FinishedBuildIsRecorded` | internal/worker/builds.go:87-107 | In every run, a worker that finishes its image build leaves its record successful, with the plan it was created for and the commit and image it had resolved |
| `BuildOutcome.ReuseIsRecorded` | internal/worker/builds.go:309-318 | In every run, a worker that reuses an image leaves its record successful, with its own plan and commit and the image of an equivalent other record |
| `BuildOutcome.TakenIsReady` | internal/worker/builds.go:181-242 | A worker takes only a finished build with an image reference, or the build in flight it came to, begun by another within 45 minutes and with an image reference; it waits for just such builds in flight and skips all others |
| `BuildOutcome.FinishedBuildIsReused` | internal/worker/builds.go:204-215 | For any two equivalent plans, a run in which the first builds and the second, coming later, ends with the first image |
| `BuildOutcome.BuildInFlightIsReused` | internal/worker/builds.go:244-250 | The same when the second comes while the first is building, no more than 45 minutes after it began: it waits for it |
| `SourceSyncLocks.EventKeepsInv` | internal/worker/source_sync.go:106-130 | Every critical section keeps listing, counting and holding consistent |
| `SourceSyncLocks.LockSafety` | internal/worker/source_sync.go:99-130 | At every point of every run: one thread per key inside; refs of every entry ever made equals the threads registered on it, and is positive exactly while the entry is in the map; a key is in the map exactly while it has threads; the idle map is empty |
| `SourceSyncLocks.CallbackRanUnderLock` | internal/worker/source_sync.go:99-130 | In every run, a thread that leaves withLock has registered, then taken the free mutex of its entry, been inside holding it until it released it, and released it before leaving |
| `SourceSyncLocks.ThreadSteps` | internal/worker/source_sync.go:99-130 | The own steps of a thread: take the mutex when nobody holds it, give it back, leave |
| `SourceSyncLocks.FreeEntryIsTaken` | internal/worker/source_sync.go:119-120 | A waiting thread whose entry nobody holds can be inside after its next step |
| `SourceSyncLocks.DeletionIsSafe` | internal/worker/source_sync.go:121-129 | Deletion happens only in the last leaver's release, with nobody waiting on, holding or referring to the entry |
| `SourceSyncLocks.EntryIsStable` | internal/worker/source_sync.go:107-118 | A registered thread keeps its key and its entry |
| `SourceSyncLocks.NoDeadlock` | internal/worker/source_sync.go:99-130 | While any thread is registered, some registered thread can step |
| `SourceSyncLocks.KeyedLocks.RegisterThread` | internal/worker/source_sync.go:107-117 | First critical section of lock is the Register step |
| `SourceSyncLocks.KeyedLocks.EnterEntry` | internal/worker/source_sync.go:119-119 | Acquiring the entry mutex is the Enter step |
| `SourceSyncLocks.KeyedLocks.UnlockEntry` | internal/worker/source_sync.go:121-121 | Releasing the entry mutex is the Unlock step |
| `SourceSyncLocks.KeyedLocks.UnregisterThread` | internal/worker/source_sync.go:122-128 | Dropping the reference, and the key at zero, is the Unregister step |
| `GitHistory.AncestorSet` | internal/runtime/git_runtime.go:589-602 | The worklist traversal returns exactly the reachable commits, and fails exactly when one is missing |
| `GitHistory.Walk` | internal/runtime/git_runtime.go:491-503 | A traversal that tolerates missing commits finds exactly the reachable ones: what a pull can find |
| `GitHistory.BranchRelation` | internal/runtime/git_runtime.go:556-587 | same, behind, ahead or diverged, by reachability of one head from the other |
| `GitHistory.GitCliBranchRelation` | internal/runtime/git_runtime.go:378-401 | Over complete histories, the relation by the counts of commits on one side only; over a history with gaps, the relation of whatever counts native Git prints, or the failure |
| `GitHistory.NoneAheadIff` | internal/runtime/git_runtime.go:393-400 | No commit on one side only if and only if that side's head is reachable from the other |
| `GitHistory.ClassifiersAgree` | internal/runtime/git_runtime.go:378-401 | On every finite commit graph with both histories complete: ok is same or behind, and ahead and diverged coincide |
| `SourceSync.UpdateAdvances` | internal/runtime/git_runtime.go:264-313 | No update, over complete histories or not, takes a commit or a branch away, or moves a branch except to a head with the old head as ancestor; other branches stay |
| `SourceSync.NoCommitLost` | internal/runtime/git_runtime.go:264-313 | The same over any sequence of updates and local commits with the upstream moving arbitrarily |
| `SourceSync.BlockedKeepsHeads` | internal/runtime/git_runtime.go:320-363 | A dirty, ahead, diverged or unverifiable checkout keeps every branch head; dirty work, a failed fetch, a missing upstream and a failed checkout are answered exactly when they occur |
| `SourceSync.RefusedIff` | internal/runtime/git_runtime.go:476-489 | Over complete histories, the update refuses as ahead or diverged exactly when the local head is not contained in the upstream, as ahead exactly when it then contains the upstream, and never as unverifiable |
| `SourceSync.UnverifiableIff` | internal/runtime/git_runtime.go:378-401 | A history is unverifiable exactly when it has gaps and go-git has to walk it, or native Git gives no counts |
| `SourceSync.FastForwardIsDone` | internal/runtime/git_runtime.go:264-313 | Whichever the implementation, a clean checkout whose head, if there is one, is contained in the branch head of an answering remote, with complete histories, ends on the branch at that head |
| `SourceSync.SyncedIsUpstream` | internal/runtime/git_runtime.go:264-313 | A successful update, with the remote unmoved, ends at a head that contains the upstream head, and exactly at the upstream head unless native Git judged a history with gaps |
| `SourceSync.ToolsAgree` | internal/runtime/git_runtime.go:263-313 | With the compared heads complete at both contacts, the update depends neither on the implementation nor on what either answers over gaps |
| `SourceSync.ImplementationsAgree` | internal/runtime/git_runtime.go:263-313 | Run on equal copies with such histories, the two implementations end in the same repository with the same outcome |
| `SourceSync.JudgedByReachability` | internal/runtime/git_runtime.go:350-401 | Over complete histories both verdicts are: proceed if and only if the upstream contains the local head, else ahead if and only if the local contains the upstream, else diverged |
| `SourceSync.EnsureFFOnlyWithCli` | internal/runtime/git_runtime.go:350-363 | The specified verdict of native Git |
| `SourceSync.VerifyBranchRelation` | internal/runtime/git_runtime.go:476-489 | The specified verdict of go-git |
| `SourceSync.WorkingCopy.FetchOrigin` | internal/runtime/git_runtime.go:528-542 | A successful fetch adds objects and replaces the remote-tracking branches; a failed one changes nothing |
| `SourceSync.WorkingCopy.CheckoutBranch` | internal/runtime/git_runtime.go:544-554 | Switches to the branch, creating it at its upstream only when absent |
| `SourceSync.WorkingCopy.PullFastForward` | internal/runtime/git_runtime.go:491-503 | Moves the branch only by fast-forward, to a head that contains the old one, and does so whenever the remote answers with such a head and complete histories; over a history with gaps it may go through or fail |
| `SourceSync.WorkingCopy.UpdateWithCli` | internal/runtime/git_runtime.go:290-312 | The native implementation is the specified update, failing contacts and any answers over gaps included, and updates every checkout that can be fast-forwarded |
| `SourceSync.WorkingCopy.UpdateWithGoGit` | internal/runtime/git_runtime.go:271-288 | The go-git implementation is the specified update, failing contacts and pulls over gaps included, and updates every checkout that can be fast-forwarded |
| `OrphanSweep.CurrentRemoteProjects` | internal/playguard/policy.go:50-60 | Exactly the trimmed projects that some row owns on the Marquee |
| `OrphanSweep.StaleRemoteProjects` | internal/playguard/policy.go:62-74 | Exactly the listed, non-blank projects that no row owns |
| `OrphanSweep.SelectStale` | internal/worker/playguard.go:134-155 | What the selection computes from the listing and the rows of the moment, by trimmed names, is exactly what the row-read step of the step system leaves to reap |
| `OrphanSweep.RemoteHost.Sweep` | internal/worker/playguard.go:165-183 | Destroys exactly the unowned listed directories whose destroy does not fail; a failure stops none of the others |
| `OrphanSweep.StaysOrphaned` | internal/worker/playguard.go:134-155 | With fresh names and no row moved in, a used name without a row never gets one again |
| `OrphanSweep.SweepDestroysLiveIff` | internal/worker/playguard.go:134-174 | In every run a swept project has no row on the Marquee at the row read, and has one at some moment until the destruction if and only if a row was inserted under its name or moved in since |
| `OrphanSweep.SweepNeverDestroysLive` | internal/worker/playguard.go:134-174 | With fresh names and no row moved in it therefore has no row at the row read, nor at any later time |
| `OrphanSweep.ReusedNameIsSwept` | internal/storage/store_playgrounds.go:54-57 | Without fresh names a live row's directory is destroyed |
| `OrphanSweep.MovedRowIsSwept` | internal/playground/http.go:123-146 | Nor is a row safe that a PATCH moves onto the swept Marquee after the row read |
| `OrphanSweep.UndisturbedSweepIsComplete` | internal/worker/playguard.go:134-174 | An undisturbed successful sweep leaves only directories that belong to rows |
| `Expiration.OwnClaimMatchesIff` | internal/worker/playguard.go:502-528 | A row matches its own claim exactly when it is due and expirable |
| `Expiration.ClaimMatchesIff` | internal/worker/playguard.go:518-540 | A row matches an earlier claim exactly when it is due and its status, expiry, Marquee and project are those of the claim |
| `Expiration.Pass.EnforceExpiration` | internal/worker/playguard.go:331-366 | Against arbitrary concurrent changes: destroys exactly after a clean check and a re-validated claim; after a successful destroy without error the row is gone, stopped or moved by someone else; a failed destroy is reported unless the claim lapsed; a dirty row is kept and marked, one without runtime stopped, one not due left alone. With no other work, the exact row and answer in each case |
| `Expiration.Pass.ExpireRuntime` | internal/worker/playguard.go:344-356 | After the inspection, destroys exactly when it was clean and the re-read row matches the claim |
| `Expiration.Pass.CompleteRuntimeExpiration` | internal/worker/playguard.go:357-366 | Marks a dirty Playground; destroys a clean one once, then settles the row |
| `Expiration.Pass.MarkExpiredWithoutRuntime` | internal/worker/playguard.go:368-377 | Stops a still current row without touching any runtime |
| `Expiration.Pass.DeleteExpired` | internal/worker/playguard.go:448-458 | Ends without error only with the row gone, stopped or moved by someone else |
| `Expiration.Pass.MarkDestroyedSuperseded` | internal/worker/playguard.go:460-477 | The same for a row that changed while the destroy ran |
| `Expiration.Pass.RecordDestroyError` | internal/worker/playguard.go:438-446 | A failed destroy is reported unless the claim lapsed |
| `Branches.SortStrings` | internal/storage/scans_props.go:56-63 | The sorted list of exactly the given distinct names |
| `Branches.MoveFirst` | internal/storage/scans_props.go:65-77 | For any list: the first entry with the name in front, the others in their order, shifted in the same backing array; unchanged when the name is blank or absent |
| `Branches.OrderedNames` | internal/storage/scans_props.go:55-63 | The keys of the map, sorted, with the default branch first |
| `Branches.PropBranchRecordMap` | internal/storage/scans_props.go:28-53 | The map the loop builds from records, names and default |
| `Branches.NormalizePropBranchRecords` | internal/storage/scans_props.go:14-26 | The listing of that map: default first and flagged, the rest sorted |
| `Branches.NormalisedIsNormalForm` | internal/storage/scans_props.go:14-77 | For every trimmed default and every other input: unique, trimmed, non-empty names, exactly those given, default first and the rest sorted, exactly the default flagged |
| `Branches.NormalFormFixed` | internal/storage/scans_props.go:14-77 | A list in normal form is its own normalisation |
| `Branches.IdempotentIff` | internal/storage/scans_props.go:28-53 | Normalising twice equals once if and only if the default is trimmed, blank, or listed under its trimmed name |
| `Branches.PaddedDefaultGrows` | internal/storage/scans_props.go:45-52 | A concrete padded default for which it does not |
| `Branches.Prop.EncodeBranches` | internal/storage/scans_props.go:109-120 | Stores the normalised records and leaves their names on the Prop |
| `Branches.DecodePropBranches` | internal/storage/scans_props.go:122-138 | Decodes records or legacy names to the normalised records, and refuses null and malformed text |
| `Branches.EncodeDecodeIdentity` | internal/storage/scans_props.go:109-138 | Encoding then decoding is the identity on stored Props, encoding again changes nothing, and a legacy name array decodes to the same names |
| `Branches.NormalizeBranchRecords` | internal/prop/helpers.go:271-335 | The API-side normaliser, by the same listing, each record with its sync time or, without one, the given one |
| `Branches.ApiOutputUnchanged` | internal/prop/helpers.go:271-335 | Storage normalisation leaves the API normaliser's output unchanged |
| `PortMappings.PrintParse` | internal/composefile/service/port_specs.go:69-107 | Parsing a printed `host:container/proto` gives back its container and protocol, whatever the host text |
| `PortMappings.PortsRoundTrip` | internal/composefile/service/port_specs.go:54-107 | The Compose port syntax reads back what remapping writes, the one fact about syntax that the results below rest on |
| `PortMappings.ApplyPortMapping` | internal/composefile/service/port_specs.go:20-36 | Removes the entries of the container port and appends one with the first non-empty protocol |
| `PortMappings.ApplyPortMappings` | internal/composefile/service/port_specs.go:11-18 | The mappings one after the other |
| `PortMappings.SequentialIsOnePass` | internal/composefile/service/port_specs.go:11-36 | The loop equals one pass: untouched entries, then one entry per last mapping of each container |
| `PortMappings.UnmappedKept` | internal/composefile/service/port_specs.go:20-36 | Unmapped and unparseable entries keep content and order |
| `PortMappings.MappedExactlyOnce` | internal/composefile/service/port_specs.go:11-36 | Each mapped container port has exactly one entry, with the last requested host |
| `PortMappings.MappedEntry` | internal/composefile/service/port_specs.go:11-36 | After all mappings exactly one entry serves a mapped container: the host of its last mapping, the container, and the protocol named first for it in the original list |
| `PortMappings.UnmappedComeFirst` | internal/composefile/service/port_specs.go:20-36 | The list begins with exactly the entries no mapping names, unchanged and in order, and all others serve mapped containers |
| `PortMappings.LongReadsAsShort` | internal/composefile/service/port_specs.go:69-107 | The long form of a port reads like the short one |
| `PortMappings.ProtocolAnyCase` | internal/composefile/service/port_specs.go:94-107 | tcp and udp are recognised in any case and between blanks, and nothing else is |
| `PortMappings.ProtocolSurvives` | internal/composefile/service/port_specs.go:20-36 | The first non-empty protocol seen survives remapping |
| `PortMappings.RemappingIsIdempotent` | internal/composefile/service/port_specs.go:11-107 | Applying the same mappings again changes nothing |
| `BuildArgs.ParseDockerBuildArgs` | internal/domain/helpers.go:40-53 | The loop computes the specified parse |
| `BuildArgs.PaddedArg` | internal/domain/helpers.go:68-87 | White space around name and value does not matter: the entry is the name, `=` and the trimmed value |
| `BuildArgs.PaddedName` | internal/domain/helpers.go:68-87 | The same for a part without a value |
| `BuildArgs.OtherParts` | internal/domain/helpers.go:68-87 | A part without a name is dropped; one whose name is not letters, digits and underscores after a letter or underscore is malformed |
| `BuildArgs.NormalizedIsCanonical` | internal/domain/helpers.go:68-87 | Every normalised entry is canonical |
| `BuildArgs.CanonicalIsFixed` | internal/domain/helpers.go:68-87 | A canonical entry normalises to itself |
| `BuildArgs.ParsedIsCanonical` | internal/domain/helpers.go:40-87 | All entries of an accepted string are canonical and free of commas |
| `BuildArgs.ParsePrintFixedPoint` | internal/domain/helpers.go:40-53 | Joining the parsed entries and parsing again gives the same list |
| `BuildArgs.FoldedUnique` | internal/buildrecord/plans.go:205-240 | The last-wins map of a list is unique |
| `BuildArgs.NormalizedArgs` | internal/buildrecord/plans.go:205-240 | The hashed map is the last-wins fold of the entries |
| `BuildArgs.IdentityForService` | internal/buildrecord/plans.go:205-240 | The identity holds the parsed list and that map |
| `BuildArgs.HashedKeysAreNames` | internal/buildrecord/plans.go:205-240 | Every hashed key is a valid argument name |
| `BuildArgs.HashedValue` | internal/buildrecord/plans.go:205-224 | What is hashed under a name is the value of its last entry, empty when that has none |
| `BuildArgs.PrintedArgsHashTheSame` | internal/buildrecord/plans.go:205-240 | Printed and reparsed arguments hash to the same map |
| `CheckoutPaths.GeneratedProjectIsValid` | internal/storage/store_playgrounds.go:41-59 | Every project name made at insertion passes the Compose project validator |
| `CheckoutPaths.ProjectsDiffer` | internal/storage/store_playgrounds.go:52-55 | Two projects made for one name are the same exactly when they are made in the same second |
| `CheckoutPaths.SlugFixed` | internal/storage/names.go:32-39 | A lower-case name of letters, digits and single inner dashes is its own slug |
| `CheckoutPaths.CheckoutPathIsValid` | internal/optfibe/source_paths.go:15-88 | For every valid project, repository text and branch text the checkout path passes its validator unchanged |
| `CheckoutPaths.CheckoutTextIsValid` | internal/optfibe/layout.go:42-54 | A path from safe components is clean, trimmed and below its props directory |
| `CheckoutPaths.AcceptedIsBelowProps` | internal/optfibe/layout.go:42-54 | Every accepted path, cleaned, is the props root followed by one or more ordinary segments |
| `CheckoutPaths.CleanRootedIsPlain` | internal/optfibe/layout.go:42-54 | Cleaning an absolute path gives an absolute path of ordinary segments that never climbs above the root |
| `CheckoutPaths.CleanRelativeIsPlain` | internal/runtime/build_types.go:64-75 | A relative path without parent segments cleans to a valid file-system path |
| `CheckoutPaths.DockerfileStaysInContext` | internal/runtime/build_types.go:50-75 | An accepted Dockerfile path joined to a clean context stays strictly below it |
| `CheckoutPaths.CollectPathParts` | internal/optfibe/source_paths.go:65-76 | The loop collects the non-empty trimmed parts in order |
| `CheckoutPaths.SpellingsAgree` | internal/optfibe/source_paths.go:28-76 | The URL of a repository, with or without .git and trailing slashes, gives the directory of its owner and name |
| `CheckoutPaths.ScpSpelling` | internal/optfibe/source_paths.go:28-76 | and its scp-like address the same one |
| `CheckoutPaths.PathHasParentSegment` | internal/optfibe/layout.go:56-64 | Finds a parent segment exactly when there is one |
| `CheckoutPaths.SafePathComponent` | internal/optfibe/source_paths.go:78-88 | Never empty, a dot name, or framed by separators; only safe characters |
| `CheckoutPaths.ReplacedKeeps` | internal/optfibe/source_paths.go:78-88 | Sanitising keeps exactly the allowed characters, in order |
| `CheckoutPaths.ReplacedIsDashed` | internal/optfibe/source_paths.go:78-88 | and leaves one dash for every run of others |
| `CheckoutPaths.SafeComponentFixed` | internal/optfibe/source_paths.go:78-88 | A lower-case component of allowed characters and single inner dashes stays as it is, so different ones have different directories |
| `ShellQuoting.QuotingRoundTrip` | internal/runtime/helpers.go:19-22 | Tokenising the joined quotes of any argument list by sections 2.2.2, 2.2.3 and 2.3 of the POSIX.1-2017 Shell Command Language gives back the list |
| `ShellQuoting.QuotingInjective` | internal/runtime/helpers.go:19-22 | Different argument lists have different command lines |
| `ShellQuoting.LocalDockerBuildCommand` | internal/runtime/local_docker_build.go:62-68 | The loop builds the specified command line |
| `ShellQuoting.DockerBuildCommandWords` | internal/runtime/local_docker_build.go:62-68 | The shell splits that line into the assignment, docker, build and exactly the arguments |
| `CreationSteps.Ledger.Upsert` | internal/worker/deploy_steps.go:63-81 | The in-place loop is the specified update |
| `CreationSteps.RecordedOnce` | internal/worker/deploy_steps.go:63-81 | A recorded phase has exactly one entry, with its old place and start time if it had one; all others are untouched |
| `CreationSteps.PhaseIsRecorded` | internal/worker/deploy_steps.go:43-81 | A phase recorded as running and then with its outcome has one entry: outcome, error, time of end, and the time it was first begun |
| `CreationSteps.LedgerHistory` | internal/worker/deploy_steps.go:43-81 | Under any sequence of records and recoveries, phase names are unique, every entry has a start time, and places, names and start times never change |
| `CreationSteps.Ledger.MarkInterrupted` | internal/storage/store_recovery.go:110-134 | The backward scan is the specified recovery |
| `CreationSteps.RecoveryIsOneFailure` | internal/storage/store_recovery.go:110-134 | Exactly the last running or pending entry fails, or one entry is appended when there is none |
| `CreationSteps.LedgerRecoveryNeverIdempotent` | internal/storage/store_recovery.go:110-134 | On the bare ledger a second recovery always changes something |
| `CreationSteps.RecoveryStore.Recover` | internal/storage/store_recovery.go:33-84 | Puts the decodable interrupted rows in error, in order, counts them and reports the undecodable, up to the first update the database refuses; every other row stays |
| `CreationSteps.PartlyIsTable` | internal/storage/store_recovery.go:56-70 | Going through the rows one after the other recovers each for itself |
| `CreationSteps.RecoveringTwiceIsOnce` | internal/storage/store_recovery.go:33-107 | Recovering all rows twice equals once, at whatever times |
| `CreationSteps.RecoveryTouchesInterrupted` | internal/storage/store_recovery.go:33-107 | A row changes exactly when it is pending or in progress and decodes: status, one ledger failure, details, message and reasons as recorded |

## Left out

- HTTP routing and response shaping, authentication, compatibility tables, configuration, log aggregation: large tables settled by reading one branch.
- Docker, Compose, Traefik, GitHub, route probes, files and processes: each is a step that succeeds or fails, or a change of a flag.
- YAML and JSON text, SQL text and scanning: the model starts from decoded values and atomic statements.
- `StartRuntimePlayground` and the background runtime refresh and repair (`internal/worker/refresh*.go`): they save the row without a guard or return without cleanup, so the stop and metadata theorems do not cover runs with them.
- The error state that a failed stop or destroy command saves, and the row that an expiration deletes.
- StopWins.StopWinsOverDeploy: says nothing of a deploy command that fails after bringing containers up (the source cleans up only after a deploy that succeeded).
- Failures of the stop, destroy and down commands, and handlers that give up between their steps: the stop theorem is about requests that complete.
- A handler's separate reload and save: taken as one step; two handlers interleaving inside that step are not modelled.
- DeleteWins.DeleteLeavesNothing: a task that finds the row gone returns without cleanup, and the orphan sweep collects what it left, so nothing is claimed of deployments still under way when the row is removed; the stop theorems exclude deletions.
- Claims that two deployments of a row never overlap, or that no image is built twice: the code does not provide them.
- Creation steps inside a progress write: the row's generated and diagnostic columns are one opaque value in `Deployment`; the ledger is modelled in `CreationSteps`.
- BuildReuse.EventKeepsInv: the image check is any answer at any time; that `docker build` tags what it was asked to tag is assumed.
- BuildReuse.WaitForCandidates: the deadline timer is taken as firing after 1350 turns of the two-second ticker.
- GitHistory.GitCliBranchRelation: what native Git answers over a history with missing commits is any answer, so nothing is claimed of when the two implementations agree there.
- SourceSync.WorkingCopy.PullFastForward: go-git's pull is taken as fast-forward only, as native Git is asked for explicitly; worktree contents are one dirty flag.
- Expiration.Pass.EnforceExpiration: a read is an atomic snapshot; saving over a row that changed since the last read is modelled as the plain update it is.
- The here-document that wraps the local build command (`internal/runtime/local_docker_build.go:70-77`).
- ShellQuoting.QuotingRoundTrip: expansion characters are rejected outside single quotes instead of expanded, since the quoted form never has them there.
- Invalid UTF-8 in paths and names, and integer widths of ids and times.
