/** Deployments of one Playground among the requests that change it
    (`internal/worker/deploy.go`, `deploy_failure.go`, `deploy_steps.go`;
    `internal/playground/operations.go`, `http.go`, `expiration.go`).

    One row, whether the project's containers are up on the runtime Marquee, any number of
    deployment tasks, stop, delete, PATCH, rename and extend requests, and the unguarded
    background saves of `internal/worker/playguard.go`, interleaved step by step. */
module Deployment {
  import opened Text
  import opened PlaygroundStore

  // ---------------------------------------------------------------- the deployment program

  /** The work of a deployment besides `DeployCompose`. */
  datatype Stage = Render | PrepareHost | SyncSources | Build | Observe

  /** One step of `DeployPlayground`.  `cleanup`: when this step finds the deployment superseded,
      the runtime is stopped or destroyed again before the task returns. */
  datatype Op =
    | Start                                  // first progress write, from the start status
    | Progress(cleanup: bool)                // guarded progress write
    | Confirm(cleanup: bool, adopts: bool)   // requireActiveDeployment
    | Work(stage: Stage, cleanup: bool)
    | Up                                     // DeployCompose
    | Finalize                               // last progress write, status running

  const PROGRAM: seq<Op> := [
    Start, Work(Render, false), Progress(false), Progress(false),                                 // compose_render
    Progress(false), Confirm(false, false), Work(PrepareHost, false), Progress(false),            // host_prerequisites
    Progress(false), Confirm(false, false), Work(SyncSources, false), Progress(false),            // source_sync
    Progress(false), Confirm(false, false), Work(Build, false), Progress(false), Progress(false), // builds
    Progress(false), Confirm(false, false), Up, Progress(true), Confirm(true, true),              // compose_deploy
    Progress(true), Confirm(true, false), Work(Observe, true), Progress(true), Confirm(true, false), // runtime_observe
    Finalize]

  /** The step right after `DeployCompose`. */
  const AFTER_UP := 20

  datatype Phase =
    | Ready                       // about to take its current step
    | Saving(seen: Row)           // has read the row for a progress write
    | CleaningUp(winner: Status)  // superseded by this status
    | Rechecking                  // its work failed and the failed step is recorded
    | Marking(seen: Row)          // about to save the error over the row it has read
    | Returned

  /** A running deployment.  `status` is the status its copy of the row carries; `failing` that its
      work failed; `lost` the status, if any, that superseded the record of the failed step. */
  datatype Task = Task(startedFrom: Status, op: nat, status: Status, failing: bool, lost: Option<Status>, phase: Phase)

  /** A stop request after its claim: Compose is still to be stopped, the final status to be saved, or done. */
  datatype Stop = StopsCompose | SavesStopped | StopDone

  datatype Delete = DestroysCompose | DeletesRow | DeleteDone

  /** A background save: it holds the row it has read and the status it is going to write over
      whatever is stored then.  Source sync (`clearResolvedSourceSyncFailure`,
      `recordSourceSyncFailure`) and expiration (`markExpiredDirty`, `markExpiredWithoutRuntime`,
      `recordExpirationDestroyError`, `markDestroyedExpirationSuperseded`) all have this shape.
      A build for a GitHub push, begun while the row was in one of these statuses, reads the row
      when it has ended (`saveGitHubPushBuildResult`), whatever the status is by then: it writes
      `has_changes` when it turned out ready, and the status it has read when it failed. */
  datatype Saver = Building(ready: bool) | Holding(seen: Row, writes: Status) | SaverDone

  datatype State = State(row: Option<Row>, up: bool, clock: nat, tasks: map<int, Task>, stops: map<int, Stop>,
                         deletes: map<int, Delete>, savers: map<int, Saver>)

  datatype ExpiryEdit = KeepExpiry | NeverExpire | ExpireAt(time: int)

  /** What a PATCH asks for. */
  datatype Edit = Edit(name: Option<string>, playspec: Option<int>, marquee: Option<int>,
                       env: Option<map<string, string>>, services: Option<map<string, Override>>, expiry: ExpiryEdit)

  datatype Event =
    // a deployment task
    | Spawn(id: int, startedFrom: Status)
    | Read(id: int)
    | Swap(id: int, payload: int)
    | Check(id: int)
    | Run(id: int)
    | RunFails(id: int, leftUp: bool)
    | CleanUp(id: int)
    | Recheck(id: int)
    | MarkError(id: int, payload: int)
    // requests, each reload and save being one step
    | StopAccept(id: int, expected: Status)
    | StopCompose(id: int)
    | StopFinish(id: int)
    | DeleteAccept(id: int, expected: Status)
    | DeleteCompose(id: int)
    | DeleteFinish(id: int)
    | Patch(edit: Edit)
    | Rename(name: string)
    | Extend(now: int, duration: int)
    | ComposeDown                 // a hard restart, or an expiration that destroys the runtime
    // background saves: the read, and the save some time later
    | Look(id: int, writes: Status)
    | PushBegins(id: int, ready: bool)
    | PushEnds(id: int)
    | SaveBack(id: int, payload: int)

  // ---------------------------------------------------------------- a task's steps

  /** The step the task is at is a progress write: one of the program's, or the record of a failed step. */
  predicate AtSave(t: Task) {
    t.op < |PROGRAM| && (t.failing || PROGRAM[t.op].Start? || PROGRAM[t.op].Progress? || PROGRAM[t.op].Finalize?)
  }

  function GuardOf(t: Task): Guard
    requires AtSave(t)
  {
    if !t.failing && PROGRAM[t.op].Start? then StartFrom(t.startedFrom) else WhileActive
  }

  /** The status a progress write carries. */
  function WrittenStatus(t: Task): Status
    requires AtSave(t)
  {
    if t.failing then t.status
    else if PROGRAM[t.op].Start? then InProgress
    else if PROGRAM[t.op].Finalize? then Running
    else t.status
  }

  predicate CleansUp(op: Op) {
    (op.Progress? || op.Confirm? || op.Work?) && op.cleanup
  }

  function Return(t: Task): Task {
    t.(phase := Returned)
  }

  function Advance(t: Task): Task {
    if t.op + 1 < |PROGRAM| then t.(op := t.op + 1, phase := Ready) else Return(t)
  }

  /** The task found the row moved to `winner`. */
  function Beaten(t: Task, winner: Status): Task
    requires t.op < |PROGRAM|
  {
    if CleansUp(PROGRAM[t.op]) then t.(phase := CleaningUp(winner)) else Return(t)
  }

  /** The record of a failed step is over, successfully or not. */
  function ToRecheck(t: Task, lost: Option<Status>): Task {
    t.(lost := lost, phase := Rechecking)
  }

  /** A failed task leaves; being superseded while it recorded the failed step still counts. */
  function LeaveFailed(t: Task): Task
    requires t.op < |PROGRAM|
  {
    if t.lost.Some? then Beaten(t, t.lost.value) else Return(t)
  }

  /** `trySaveDeploymentProgress`, up to the guard. */
  function AfterRead(t: Task, row: Option<Row>): Task
    requires AtSave(t)
  {
    if row.None? then (if t.failing then ToRecheck(t, None) else Return(t))
    else if GuardOf(t).Allows(row.value.status) then t.(phase := Saving(row.value))
    else if t.failing then ToRecheck(t, Some(row.value.status))
    else Beaten(t, row.value.status)
  }

  /** The swap of the read row for the task's copy succeeds. */
  predicate Swaps(s: State, e: Event) {
    && e.Swap? && e.id in s.tasks && s.tasks[e.id].phase.Saving?
    && StillCurrent(s.row, s.tasks[e.id].phase.seen.status, s.tasks[e.id].phase.seen.version)
  }

  function SwapWrites(t: Task, payload: int, now: nat): Row
    requires AtSave(t) && t.phase.Saving?
  {
    var own := Row(WrittenStatus(t), t.phase.seen.meta, payload, t.phase.seen.version);
    SwappedRow(PreserveLatestMetadata(own, t.phase.seen), now)
  }

  function AfterSwap(t: Task, swapped: bool, row: Option<Row>): Task
    requires AtSave(t)
  {
    if swapped then (if t.failing then ToRecheck(t, None) else Advance(t.(status := WrittenStatus(t))))
    else if row.Some? then t.(phase := Ready)
    else if t.failing then ToRecheck(t, None)
    else Return(t)
  }

  /** `requireActiveDeployment` between steps. */
  function AfterCheck(t: Task, row: Option<Row>): Task
    requires t.op < |PROGRAM| && PROGRAM[t.op].Confirm?
  {
    if row.None? then Return(t)
    else if !Active(row.value.status) then Beaten(t, row.value.status)
    else Advance(if PROGRAM[t.op].adopts then t.(status := row.value.status) else t)
  }

  /** `failDeployment`, up to the save of the error. */
  function AfterRecheck(t: Task, row: Option<Row>): Task
    requires t.op < |PROGRAM|
  {
    if row.None? then LeaveFailed(t)
    else if !Active(row.value.status) then Beaten(t, row.value.status)
    else t.(phase := Marking(row.value))
  }

  /** The statuses for which `cleanupSupersededRuntimeByStatus` acts: it stops or destroys Compose. */
  predicate BringsDown(winner: Status) {
    winner == Stopping || winner == Stopped || winner == Destroying
  }

  // ---------------------------------------------------------------- requests

  /** `mergeAnyMaps`: nested objects are merged, anything else is replaced. */
  function MergeOverrides(base: Override, incoming: Override): (r: Override)
    ensures incoming.Object? ==> r.Object?
    decreases incoming
  {
    if base.Object? && incoming.Object? then
      Object(map k | k in base.fields.Keys + incoming.fields.Keys ::
               if k !in incoming.fields then base.fields[k]
               else if k in base.fields then MergeOverrides(base.fields[k], incoming.fields[k])
               else incoming.fields[k])
    else incoming
  }

  /** `playgroundPayload.apply` */
  function Edited(m: Meta, e: Edit): Meta {
    Meta(e.name.GetOr(m.name),
         if e.playspec.Some? then e.playspec else m.playspec,
         if e.marquee.Some? then e.marquee else m.marquee,
         e.env.GetOr(m.env),
         if e.services.Some? then MergeOverrides(Object(m.services), Object(e.services.value)).fields else m.services,
         match e.expiry case KeepExpiry => m.expiresAt case NeverExpire => None case ExpireAt(time) => Some(time))
  }

  predicate RuntimeConfigChanged(a: Meta, b: Meta) {
    a.playspec != b.playspec || a.marquee != b.marquee || a.env != b.env || a.services != b.services
  }

  /** `markRuntimeConfigChanged` */
  function PatchedStatus(status: Status, before: Meta, after: Meta): Status {
    if RuntimeConfigChanged(before, after)
        && (status == Pending || status == InProgress || status == Running) then HasChanges else status
  }

  function Extended(m: Meta, now: int, duration: int): Meta {
    var base := if m.expiresAt.Some? && m.expiresAt.value > now then m.expiresAt.value else now;
    m.(expiresAt := Some(base + duration))
  }

  predicate CanExtend(status: Status) {
    status != Completed && status != Destroying && status != Stopping && status != Stopped
  }

  /** A handler's save of the row it has just reloaded. */
  function Resaved(row: Row, status: Status, meta: Meta, now: nat): Row {
    SavedRow(row, row.(status := status, meta := meta), now)
  }

  // ---------------------------------------------------------------- the step relation

  predicate Enabled(s: State, e: Event) {
    match e
    case Spawn(t, _) => t !in s.tasks
    case Read(t) => t in s.tasks && s.tasks[t].phase.Ready? && AtSave(s.tasks[t])
    case Swap(t, _) => t in s.tasks && s.tasks[t].phase.Saving? && AtSave(s.tasks[t])
    case Check(t) =>
      && t in s.tasks && s.tasks[t].phase.Ready? && !s.tasks[t].failing
      && s.tasks[t].op < |PROGRAM| && PROGRAM[s.tasks[t].op].Confirm?
    case Run(t) => AtWork(s, t)
    case RunFails(t, leftUp) => AtWork(s, t) && (leftUp ==> PROGRAM[s.tasks[t].op].Up?)
    case CleanUp(t) => t in s.tasks && s.tasks[t].phase.CleaningUp?
    case Recheck(t) => t in s.tasks && s.tasks[t].phase.Rechecking? && s.tasks[t].op < |PROGRAM|
    case MarkError(t, _) => t in s.tasks && s.tasks[t].phase.Marking? && s.tasks[t].op < |PROGRAM|
    case StopAccept(h, expected) => h !in s.stops && s.row.Some? && s.row.value.status == expected
    case StopCompose(h) => h in s.stops && s.stops[h].StopsCompose?
    case StopFinish(h) => h in s.stops && s.stops[h].SavesStopped?
    case DeleteAccept(h, expected) => h !in s.deletes && s.row.Some? && s.row.value.status == expected
    case DeleteCompose(h) => h in s.deletes && s.deletes[h].DestroysCompose?
    case DeleteFinish(h) => h in s.deletes && s.deletes[h].DeletesRow?
    case Patch(_) => s.row.Some?
    case Rename(_) => s.row.Some?
    case Extend(_, _) => s.row.Some? && CanExtend(s.row.value.status)
    case ComposeDown => true
    case Look(b, writes) => b !in s.savers && s.row.Some? && Reconciled(s.row.value.status)
          && (Reconciled(writes) || writes == Stopped)
    case PushBegins(b, _) => b !in s.savers && s.row.Some? && Reconciled(s.row.value.status)
    case PushEnds(b) => b in s.savers && s.savers[b].Building?
    case SaveBack(b, _) => b in s.savers && s.savers[b].Holding?
  }

  /** The statuses of rows that source sync and expiration work on; they write one of these, or `stopped`. */
  predicate Reconciled(status: Status) {
    status == Running || status == HasChanges || status == Failed
  }

  predicate AtWork(s: State, t: int) {
    && t in s.tasks && s.tasks[t].phase.Ready? && !s.tasks[t].failing && s.tasks[t].op < |PROGRAM|
    && (PROGRAM[s.tasks[t].op].Work? || PROGRAM[s.tasks[t].op].Up?)
  }

  predicate IsTaskEvent(e: Event) {
    e.Read? || e.Swap? || e.Check? || e.Run? || e.RunFails? || e.CleanUp? || e.Recheck? || e.MarkError?
  }

  /** The row after the step. */
  function RowAfter(s: State, e: Event): Option<Row>
    requires Enabled(s, e)
  {
    match e
    case Swap(t, payload) => if Swaps(s, e) then Some(SwapWrites(s.tasks[t], payload, s.clock)) else s.row
    case MarkError(t, payload) =>
      if s.row.None? then None
      else Some(SavedRow(s.row.value, s.tasks[t].phase.seen.(status := Failed, payload := payload), s.clock))
    case SaveBack(b, payload) =>
      if s.row.None? then None
      else Some(SavedRow(s.row.value, s.savers[b].seen.(status := s.savers[b].writes, payload := payload), s.clock))
    case StopAccept(_, _) => Some(Resaved(s.row.value, Stopping, s.row.value.meta, s.clock))
    case StopFinish(_) =>
      if s.row.Some? && s.row.value.status == Stopping
          then Some(Resaved(s.row.value, Stopped, s.row.value.meta, s.clock))
      else s.row
    case DeleteAccept(_, _) =>
      if s.row.value.meta.marquee.None? then s.row
          else Some(Resaved(s.row.value, Destroying, s.row.value.meta, s.clock))
    case DeleteFinish(_) => None
    case Patch(edit) =>
      var meta := Edited(s.row.value.meta, edit);
      Some(Resaved(s.row.value, PatchedStatus(s.row.value.status, s.row.value.meta, meta), meta, s.clock))
    case Rename(name) => Some(RenamedRow(s.row.value, name, s.clock))
    case Extend(now, duration) =>
      Some(Resaved(s.row.value, s.row.value.status, Extended(s.row.value.meta, now, duration), s.clock))
    case _ => s.row
  }

  predicate UpAfter(s: State, e: Event)
    requires Enabled(s, e)
  {
    match e
    case Run(t) => s.up || PROGRAM[s.tasks[t].op].Up?
    case RunFails(t, leftUp) => s.up || leftUp
    case CleanUp(t) => s.up && !BringsDown(s.tasks[t].phase.winner)
    case StopCompose(_) => false
    case DeleteCompose(_) => false
    case ComposeDown => false
    case _ => s.up
  }

  function TaskAfter(s: State, e: Event): Task
    requires Enabled(s, e) && IsTaskEvent(e)
  {
    var t := s.tasks[e.id];
    match e
    case Read(_) => AfterRead(t, s.row)
    case Swap(_, _) => AfterSwap(t, Swaps(s, e), s.row)
    case Check(_) => AfterCheck(t, s.row)
    case Run(_) => Advance(t)
    case RunFails(_, _) => t.(failing := true)
    case CleanUp(_) => Return(t)
    case Recheck(_) => AfterRecheck(t, s.row)
    case MarkError(_, _) => LeaveFailed(t)
  }

  function TasksAfter(s: State, e: Event): map<int, Task>
    requires Enabled(s, e)
  {
    if e.Spawn? then s.tasks[e.id := Task(e.startedFrom, 0, InProgress, false, None, Ready)]
    else if IsTaskEvent(e) then s.tasks[e.id := TaskAfter(s, e)]
    else s.tasks
  }

  function StopsAfter(s: State, e: Event): map<int, Stop>
    requires Enabled(s, e)
  {
    match e
    case StopAccept(h, _) => s.stops[h := if s.row.value.meta.marquee.Some? then StopsCompose else SavesStopped]
    case StopCompose(h) => s.stops[h := SavesStopped]
    case StopFinish(h) => s.stops[h := StopDone]
    case _ => s.stops
  }

  function DeletesAfter(s: State, e: Event): map<int, Delete>
    requires Enabled(s, e)
  {
    match e
    case DeleteAccept(h, _) => s.deletes[h := if s.row.value.meta.marquee.Some? then DestroysCompose else DeletesRow]
    case DeleteCompose(h) => s.deletes[h := DeletesRow]
    case DeleteFinish(h) => s.deletes[h := DeleteDone]
    case _ => s.deletes
  }

  function SaversAfter(s: State, e: Event): map<int, Saver>
    requires Enabled(s, e)
  {
    match e
    case Look(b, writes) => s.savers[b := Holding(s.row.value, writes)]
    case PushBegins(b, ready) => s.savers[b := Building(ready)]
    case PushEnds(b) =>
      s.savers[b := if s.row.None? then SaverDone
                    else Holding(s.row.value, if s.savers[b].ready then HasChanges else s.row.value.status)]
    case SaveBack(b, _) => s.savers[b := SaverDone]
    case _ => s.savers
  }

  function Apply(s: State, e: Event): State
    requires Enabled(s, e)
  {
    State(RowAfter(s, e), UpAfter(s, e), s.clock + 1, TasksAfter(s, e), StopsAfter(s, e), DeletesAfter(s, e),
        SaversAfter(s, e))
  }

  /** Any existing row, any containers, and nothing in progress. */
  ghost predicate Initial(s: State) {
    && s.row.Some? && s.row.value.version < s.clock && Trimmed(s.row.value.meta.name)
    && s.tasks == map[] && s.stops == map[] && s.deletes == map[] && s.savers == map[]
  }

  ghost predicate IsRun(ss: seq<State>, es: seq<Event>) {
    && |ss| == |es| + 1 && Initial(ss[0])
    && forall i :: 0 <= i < |es| ==> Enabled(ss[i], es[i]) && ss[i + 1] == Apply(ss[i], es[i])
  }

  // ---------------------------------------------------------------- what every run keeps

  /** A row a task has read: older than now and, while its `updated_at` is still there, the row itself. */
  predicate SeenOk(s: State, seen: Row) {
    && seen.version < s.clock && Trimmed(seen.meta.name)
    && (s.row.Some? ==> seen.version <= s.row.value.version)
    && (s.row.Some? && s.row.value.version == seen.version ==> s.row.value == seen)
  }

  predicate TaskOk(s: State, t: Task) {
    && t.op < |PROGRAM| && (!t.phase.Returned? ==> Active(t.status))
    && (t.failing ==> PROGRAM[t.op].Work? || PROGRAM[t.op].Up?)
    && (t.phase.Saving? ==> AtSave(t) && SeenOk(s, t.phase.seen) && GuardOf(t).Allows(t.phase.seen.status))
    && (t.phase.Marking? ==> SeenOk(s, t.phase.seen) && Active(t.phase.seen.status))
  }

  predicate SaverOk(s: State, b: Saver) {
    b.Holding? ==> SeenOk(s, b.seen)
  }

  ghost predicate Inv(s: State) {
    && (s.row.Some? ==> s.row.value.version < s.clock && Trimmed(s.row.value.meta.name))
    && (forall t :: t in s.tasks ==> TaskOk(s, s.tasks[t]))
    && (forall b :: b in s.savers ==> SaverOk(s, s.savers[b]))
  }

  /** A step leaves the row as it was, removes it, or writes it with a trimmed name and a fresh `updated_at`. */
  lemma WritesAreFresh(s: State, e: Event)
    requires Inv(s) && Enabled(s, e)
    ensures var row := RowAfter(s, e);
            row == s.row || row.None? || (row.value.version == s.clock && Trimmed(row.value.meta.name) && s.row.Some?)
  {
  }

  lemma StepKeepsTask(s: State, e: Event, t: Task)
    requires Inv(s) && Enabled(s, e) && TaskOk(s, t)
    ensures TaskOk(Apply(s, e), t)
  {
    WritesAreFresh(s, e);
  }

  lemma StepKeepsSaver(s: State, e: Event, b: Saver)
    requires Inv(s) && Enabled(s, e) && SaverOk(s, b)
    ensures SaverOk(Apply(s, e), b)
  {
    WritesAreFresh(s, e);
  }

  /** A task that reads the row. */
  lemma LookMovesTask(s: State, e: Event)
    requires Inv(s) && Enabled(s, e) && (e.Read? || e.Check? || e.Recheck?)
    ensures TaskOk(Apply(s, e), TaskAfter(s, e))
  {
    assert TaskOk(s, s.tasks[e.id]);
    assert RowAfter(s, e) == s.row;
  }

  lemma SwapMovesTask(s: State, e: Event)
    requires Inv(s) && Enabled(s, e) && e.Swap?
    ensures TaskOk(Apply(s, e), TaskAfter(s, e))
  {
    var t := s.tasks[e.id];
    assert TaskOk(s, t);
    var t' := AfterSwap(t, Swaps(s, e), s.row);
    assert t'.phase.Ready? || t'.phase.Rechecking? || t'.phase.Returned?;
  }

  lemma WorkMovesTask(s: State, e: Event)
    requires Inv(s) && Enabled(s, e) && (e.Run? || e.RunFails? || e.CleanUp? || e.MarkError?)
    ensures TaskOk(Apply(s, e), TaskAfter(s, e))
  {
    assert TaskOk(s, s.tasks[e.id]);
    assert !TaskAfter(s, e).phase.Saving? && !TaskAfter(s, e).phase.Marking?;
  }

  lemma StepMovesTask(s: State, e: Event)
    requires Inv(s) && Enabled(s, e) && IsTaskEvent(e)
    ensures TaskOk(Apply(s, e), TaskAfter(s, e))
  {
    if e.Read? || e.Check? || e.Recheck? {
      LookMovesTask(s, e);
    } else if e.Swap? {
      SwapMovesTask(s, e);
    } else {
      WorkMovesTask(s, e);
    }
  }

  lemma EventKeepsInv(s: State, e: Event)
    requires Inv(s) && Enabled(s, e)
    ensures Inv(Apply(s, e))
  {
    var s' := Apply(s, e);
    WritesAreFresh(s, e);
    if IsTaskEvent(e) { StepMovesTask(s, e); }
    forall t | t in s'.tasks ensures TaskOk(s', s'.tasks[t]) {
      if t in s.tasks && !(IsTaskEvent(e) && e.id == t) { StepKeepsTask(s, e, s.tasks[t]); }
    }
    forall b | b in s'.savers ensures SaverOk(s', s'.savers[b]) {
      if b in s.savers { StepKeepsSaver(s, e, s.savers[b]); }
    }
  }

  lemma {:induction false} RunInv(ss: seq<State>, es: seq<Event>, i: nat)
    requires IsRun(ss, es) && i < |ss|
    ensures Inv(ss[i])
    decreases i
  {
    if i > 0 {
      RunInv(ss, es, i - 1);
      EventKeepsInv(ss[i - 1], es[i - 1]);
    }
  }
}
