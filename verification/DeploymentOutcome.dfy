/** What a deployment achieves: one that finishes has gone through all its stages, in order, and has
    brought the project's containers up; and one that nobody disturbs finishes. */
module DeploymentOutcome {
  import opened Text
  import opened PlaygroundStore
  import opened Deployment
  import opened DeploymentProgress
  import opened StopWins

  // ---------------------------------------------------------------- every step of the program is taken

  /** The task's step finds the row active. */
  predicate Confirms(s: State, e: Event, t: int) {
    e == Check(t) && (StatusIs(s.row, Pending) || StatusIs(s.row, InProgress))
  }

  /** What it takes to leave a step of the program behind. */
  predicate Leaves(s: State, e: Event, s': State, t: int) {
    && t in s.tasks && s.tasks[t].op < |PROGRAM|
    && var op := PROGRAM[s.tasks[t].op];
       && (op.Work? ==> e == Run(t))
       && (op.Up? ==> e == Run(t) && s'.up)
       && (op.Confirm? ==> Confirms(s, e, t))
  }

  /** A step leaves a task where it is in its program, or moves it one step on. */
  predicate OneStepOn(s: State, e: Event, s': State, t: int) {
    t in s'.tasks && s'.tasks[t].op > 0 ==>
      && t in s.tasks
      && (s'.tasks[t].op == s.tasks[t].op || (s'.tasks[t].op == s.tasks[t].op + 1 && Leaves(s, e, s', t)))
  }

  lemma LooksGoOneOn(s: State, e: Event, t: int)
    requires Inv(s) && Enabled(s, e) && IsTaskEvent(e) && e.id == t && (e.Read? || e.Check? || e.Recheck?)
    ensures OneStepOn(s, e, Apply(s, e), t)
  {
    assert TaskOk(s, s.tasks[t]);
  }

  lemma WritesGoOneOn(s: State, e: Event, t: int)
    requires Inv(s) && Enabled(s, e) && IsTaskEvent(e) && e.id == t && (e.Swap? || e.MarkError?)
    ensures OneStepOn(s, e, Apply(s, e), t)
  {
    assert TaskOk(s, s.tasks[t]);
  }

  lemma WorkGoesOneOn(s: State, e: Event, t: int)
    requires Inv(s) && Enabled(s, e) && IsTaskEvent(e) && e.id == t && (e.Run? || e.RunFails? || e.CleanUp?)
    ensures OneStepOn(s, e, Apply(s, e), t)
  {
    assert TaskOk(s, s.tasks[t]);
  }

  lemma StepsGoOneOn(s: State, e: Event, t: int)
    requires Inv(s) && Enabled(s, e)
    ensures OneStepOn(s, e, Apply(s, e), t)
  {
    if !IsTaskEvent(e) || e.id != t {
    } else if e.Read? || e.Check? || e.Recheck? {
      LooksGoOneOn(s, e, t);
    } else if e.Swap? || e.MarkError? {
      WritesGoOneOn(s, e, t);
    } else {
      WorkGoesOneOn(s, e, t);
    }
  }

  /** The first `n` steps of the run go one by one through the task's program. */
  ghost predicate OneByOne(ss: seq<State>, es: seq<Event>, t: int, n: nat)
    requires n < |ss| && n <= |es|
  {
    if n == 0 then t !in ss[0].tasks
    else OneByOne(ss, es, t, n - 1) && OneStepOn(ss[n - 1], es[n - 1], ss[n], t)
  }

  lemma {:induction false} RunsGoOneByOne(ss: seq<State>, es: seq<Event>, t: int, n: nat)
    requires IsRun(ss, es) && n < |ss|
    ensures OneByOne(ss, es, t, n)
  {
    if n > 0 {
      RunsGoOneByOne(ss, es, t, n - 1);
      RunInv(ss, es, n - 1);
      StepsGoOneOn(ss[n - 1], es[n - 1], t);
    }
  }

  /** Up to this moment the run goes one by one through the task's program, and the task is here in it. */
  ghost predicate Reached(ss: seq<State>, es: seq<Event>, t: int, op: nat, i: nat) {
    i < |ss| && i <= |es| && t in ss[i].tasks && ss[i].tasks[t].op == op && OneByOne(ss, es, t, i)
  }

  lemma {:induction false} FindPass(ss: seq<State>, es: seq<Event>, t: int, op: nat, here: nat, i: nat)
      returns (u: nat)
    requires op < here && Reached(ss, es, t, here, i)
    ensures u < i && Reached(ss, es, t, op, u) && Leaves(ss[u], es[u], ss[u + 1], t)
    decreases i
  {
    if ss[i - 1].tasks[t].op > op {
      u := FindPass(ss, es, t, op, ss[i - 1].tasks[t].op, i - 1);
    } else {
      u := i - 1;
    }
  }

  /** The task is about to do this stage's work. */
  predicate AtStage(s: State, t: int, stage: Stage) {
    t in s.tasks && s.tasks[t].op < |PROGRAM| && PROGRAM[s.tasks[t].op].Work? && PROGRAM[s.tasks[t].op].stage == stage
  }

  /** The task returns with the progress write it has just landed. */
  predicate Finishes(ss: seq<State>, es: seq<Event>, j: nat) {
    && j < |es| && j + 1 < |ss| && es[j].Swap? && ss[j + 1].row != ss[j].row
    && es[j].id in ss[j + 1].tasks && ss[j + 1].tasks[es[j].id].phase.Returned?
  }

  lemma FinishIsLast(ss: seq<State>, es: seq<Event>, j: nat)
    requires IsRun(ss, es) && Finishes(ss, es, j)
    ensures es[j].id in ss[j].tasks && ss[j].tasks[es[j].id].op == |PROGRAM| - 1
    ensures StatusIs(ss[j + 1].row, Running)
  {
    RunInv(ss, es, j);
    assert TaskOk(ss[j], ss[j].tasks[es[j].id]);
  }

  /** The task has come this far, and does its work now. */
  ghost predicate WorksAt(ss: seq<State>, es: seq<Event>, t: int, op: nat, u: nat) {
    u < |es| && es[u] == Run(t) && Reached(ss, es, t, op, u)
  }

  /** Before it went on from this step the task did its work there. */
  lemma Worked(ss: seq<State>, es: seq<Event>, t: int, op: nat, here: nat, i: nat) returns (u: nat)
    requires op < here && Reached(ss, es, t, here, i)
    requires op < |PROGRAM| && (PROGRAM[op].Work? || PROGRAM[op].Up?)
    ensures u < i && WorksAt(ss, es, t, op, u) && (PROGRAM[op].Up? ==> ss[u + 1].up)
  {
    u := FindPass(ss, es, t, op, here, i);
  }

  /** The task has come this far, and its step finds the row active. */
  ghost predicate ConfirmsAt(ss: seq<State>, es: seq<Event>, t: int, op: nat, c: nat) {
    c < |es| && Reached(ss, es, t, op, c) && Confirms(ss[c], es[c], t)
  }

  lemma Confirmed(ss: seq<State>, es: seq<Event>, t: int, op: nat, here: nat, i: nat) returns (c: nat)
    requires op < here && Reached(ss, es, t, here, i)
    requires op < |PROGRAM| && PROGRAM[op].Confirm?
    ensures c < i && ConfirmsAt(ss, es, t, op, c)
  {
    c := FindPass(ss, es, t, op, here, i);
  }

  /** Work that comes right after a check. */
  lemma CheckedWork(ss: seq<State>, es: seq<Event>, t: int, op: nat, here: nat, i: nat) returns (c: nat, u: nat)
    requires 0 < op < here && Reached(ss, es, t, here, i)
    requires op < |PROGRAM| && (PROGRAM[op].Work? || PROGRAM[op].Up?) && PROGRAM[op - 1].Confirm?
    ensures c < u < i && ConfirmsAt(ss, es, t, op - 1, c)
    ensures WorksAt(ss, es, t, op, u) && (PROGRAM[op].Up? ==> ss[u + 1].up)
  {
    u := Worked(ss, es, t, op, here, i);
    c := Confirmed(ss, es, t, op - 1, op, u);
  }

  lemma SourcesChecked(ss: seq<State>, es: seq<Event>, t: int, i: nat) returns (c: nat, u: nat)
    requires Reached(ss, es, t, 13, i)
    ensures c < u < i && ConfirmsAt(ss, es, t, 9, c) && WorksAt(ss, es, t, 10, u) && AtStage(ss[u], t, SyncSources)
  {
    c, u := CheckedWork(ss, es, t, 10, 13, i);
  }

  lemma BuildsChecked(ss: seq<State>, es: seq<Event>, t: int, i: nat) returns (c: nat, u: nat)
    requires Reached(ss, es, t, 18, i)
    ensures c < u < i && ConfirmsAt(ss, es, t, 13, c) && WorksAt(ss, es, t, 14, u) && AtStage(ss[u], t, Build)
  {
    c, u := CheckedWork(ss, es, t, 14, 18, i);
  }

  lemma HostChecked(ss: seq<State>, es: seq<Event>, t: int, i: nat) returns (c: nat, u: nat)
    requires Reached(ss, es, t, 9, i)
    ensures c < u < i && ConfirmsAt(ss, es, t, 5, c) && WorksAt(ss, es, t, 6, u) && AtStage(ss[u], t, PrepareHost)
  {
    c, u := CheckedWork(ss, es, t, 6, 9, i);
  }

  lemma Rendered(ss: seq<State>, es: seq<Event>, t: int, i: nat) returns (u: nat)
    requires Reached(ss, es, t, 5, i)
    ensures u < i && WorksAt(ss, es, t, 1, u) && AtStage(ss[u], t, Render)
  {
    u := Worked(ss, es, t, 1, 5, i);
  }

  lemma ObservationChecked(ss: seq<State>, es: seq<Event>, t: int, i: nat) returns (c: nat, u: nat)
    requires Reached(ss, es, t, 26, i)
    ensures c < u < i && ConfirmsAt(ss, es, t, 23, c) && WorksAt(ss, es, t, 24, u) && AtStage(ss[u], t, Observe)
  {
    c, u := CheckedWork(ss, es, t, 24, 26, i);
  }

  lemma ComposeChecked(ss: seq<State>, es: seq<Event>, t: int, i: nat) returns (c: nat, u: nat)
    requires Reached(ss, es, t, 23, i)
    ensures c < u < i && ConfirmsAt(ss, es, t, 18, c) && WorksAt(ss, es, t, 19, u) && ss[u + 1].up
  {
    c, u := CheckedWork(ss, es, t, 19, 23, i);
  }

  lemma CheckedAtLast(ss: seq<State>, es: seq<Event>, t: int, i: nat) returns (c: nat)
    requires Reached(ss, es, t, |PROGRAM| - 1, i)
    ensures c < i && ConfirmsAt(ss, es, t, 26, c)
  {
    c := Confirmed(ss, es, t, 26, |PROGRAM| - 1, i);
  }

  /** Main result, for every run: a deployment that returns with a landed write leaves the row
      `running`, and before that one of its own steps left the project's containers up. */
  lemma FinishedIsRunning(ss: seq<State>, es: seq<Event>, j: nat) returns (u: nat)
    requires IsRun(ss, es) && Finishes(ss, es, j)
    ensures StatusIs(ss[j + 1].row, Running)
    ensures u < j && es[u] == Run(es[j].id) && ss[u + 1].up
  {
    FinishIsLast(ss, es, j);
    RunsGoOneByOne(ss, es, es[j].id, j);
    u := Worked(ss, es, es[j].id, 19, |PROGRAM| - 1, j);
  }

  /** The row is found active, and then the work is done. */
  predicate Checked(ss: seq<State>, es: seq<Event>, t: int, c: nat, u: nat) {
    c < u && u < |es| && u < |ss| && Confirms(ss[c], es[c], t) && es[u] == Run(t)
  }

  lemma WentUpToBuild(ss: seq<State>, es: seq<Event>, t: int, i: nat) returns (w: Course)
    requires Reached(ss, es, t, 18, i)
    ensures w.render < w.hostCheck < w.host < w.syncCheck < w.sync < w.buildCheck < w.build < i
    ensures es[w.render] == Run(t) && AtStage(ss[w.render], t, Render)
    ensures Checked(ss, es, t, w.hostCheck, w.host) && AtStage(ss[w.host], t, PrepareHost)
    ensures Checked(ss, es, t, w.syncCheck, w.sync) && AtStage(ss[w.sync], t, SyncSources)
    ensures Checked(ss, es, t, w.buildCheck, w.build) && AtStage(ss[w.build], t, Build)
  {
    var buildCheck, build := BuildsChecked(ss, es, t, i);
    var syncCheck, sync := SourcesChecked(ss, es, t, buildCheck);
    var hostCheck, host := HostChecked(ss, es, t, syncCheck);
    var render := Rendered(ss, es, t, hostCheck);
    w := Course(render, hostCheck, host, syncCheck, sync, buildCheck, build, i, i, i, i, i);
  }

  lemma WentUpToEnd(ss: seq<State>, es: seq<Event>, t: int, j: nat)
      returns (upCheck: nat, up: nat, observeCheck: nat, observe: nat, lastCheck: nat)
    requires Reached(ss, es, t, |PROGRAM| - 1, j)
    ensures upCheck < up < observeCheck < observe < lastCheck < j && Reached(ss, es, t, 18, upCheck)
    ensures Checked(ss, es, t, upCheck, up) && ss[up + 1].up
    ensures Checked(ss, es, t, observeCheck, observe) && AtStage(ss[observe], t, Observe)
    ensures Confirms(ss[lastCheck], es[lastCheck], t)
  {
    lastCheck := CheckedAtLast(ss, es, t, j);
    observeCheck, observe := ObservationChecked(ss, es, t, lastCheck);
    upCheck, up := ComposeChecked(ss, es, t, observeCheck);
  }

  /** Positions of one deployment's work, and of the checks of the row before it and at the end. */
  datatype Course = Course(render: nat, hostCheck: nat, host: nat, syncCheck: nat, sync: nat, buildCheck: nat,
                           build: nat, upCheck: nat, up: nat, observeCheck: nat, observe: nat, lastCheck: nat) {
    predicate InOrder(end: nat) {
      && render < hostCheck < host < syncCheck < sync < buildCheck < build
      && build < upCheck < up < observeCheck < observe < lastCheck < end
    }
  }

  /** Main result, for every run: a finished deployment has rendered, prepared the host, synced the
      sources, built, deployed Compose and observed it, in this order; after rendering it began no
      work without finding the row still active first, and it found it active once more at the end. */
  lemma FinishedWentThrough(ss: seq<State>, es: seq<Event>, j: nat) returns (w: Course)
    requires IsRun(ss, es) && Finishes(ss, es, j)
    ensures w.InOrder(j)
    ensures var t := es[j].id;
            && es[w.render] == Run(t) && AtStage(ss[w.render], t, Render)
            && Checked(ss, es, t, w.hostCheck, w.host) && AtStage(ss[w.host], t, PrepareHost)
            && Checked(ss, es, t, w.syncCheck, w.sync) && AtStage(ss[w.sync], t, SyncSources)
            && Checked(ss, es, t, w.buildCheck, w.build) && AtStage(ss[w.build], t, Build)
            && Checked(ss, es, t, w.upCheck, w.up) && ss[w.up + 1].up
            && Checked(ss, es, t, w.observeCheck, w.observe) && AtStage(ss[w.observe], t, Observe)
            && Confirms(ss[w.lastCheck], es[w.lastCheck], t)
  {
    var t := es[j].id;
    FinishIsLast(ss, es, j);
    RunsGoOneByOne(ss, es, t, j);
    var upCheck, up, observeCheck, observe, lastCheck := WentUpToEnd(ss, es, t, j);
    w := WentUpToBuild(ss, es, t, upCheck);
    w := w.(upCheck := upCheck, up := up, observeCheck := observeCheck, observe := observe, lastCheck := lastCheck);
  }

  // ---------------------------------------------------------------- cleaning up

  /** The task is bringing the containers down again. */
  predicate IsCleaning(s: State, t: int) {
    t in s.tasks && s.tasks[t].phase.CleaningUp?
  }

  /** A task starts to clean up only from a step after `DeployCompose`, and goes on from there. */
  predicate CleansAfterUp(s: State, s': State, t: int) {
    IsCleaning(s', t) ==> s'.tasks[t].op > 19 || (IsCleaning(s, t) && s.tasks[t].op == s'.tasks[t].op)
  }

  lemma LooksCleanAfterUp(s: State, e: Event, t: int)
    requires Inv(s) && Enabled(s, e) && IsTaskEvent(e) && e.id == t && (e.Read? || e.Check? || e.Recheck?)
    ensures CleansAfterUp(s, Apply(s, e), t)
  {
    assert TaskOk(s, s.tasks[t]);
  }

  lemma OthersCleanAfterUp(s: State, e: Event, t: int)
    requires Inv(s) && Enabled(s, e) && IsTaskEvent(e) && e.id == t && (!e.Read? && !e.Check? && !e.Recheck?)
    ensures CleansAfterUp(s, Apply(s, e), t)
  {
    assert TaskOk(s, s.tasks[t]);
  }

  lemma StepsCleanAfterUp(s: State, e: Event, t: int)
    requires Inv(s) && Enabled(s, e)
    ensures CleansAfterUp(s, Apply(s, e), t)
  {
    if IsTaskEvent(e) && e.id == t {
      if e.Read? || e.Check? || e.Recheck? {
        LooksCleanAfterUp(s, e, t);
      } else {
        OthersCleanAfterUp(s, e, t);
      }
    }
  }

  lemma {:induction false} CleanersAreLate(ss: seq<State>, es: seq<Event>, t: int, i: nat)
    requires IsRun(ss, es) && i < |ss| && IsCleaning(ss[i], t)
    ensures ss[i].tasks[t].op > 19
    decreases i
  {
    RunInv(ss, es, i - 1);
    StepsCleanAfterUp(ss[i - 1], es[i - 1], t);
    if IsCleaning(ss[i - 1], t) { CleanersAreLate(ss, es, t, i - 1); }
  }

  /** In every run a deployment cleans up only after a step of its own that left the containers up,
      and then brings them down exactly if a stop or a deletion has won. */
  lemma CleanUpEffect(ss: seq<State>, es: seq<Event>, i: nat) returns (u: nat)
    requires IsRun(ss, es) && i < |es| && es[i].CleanUp?
    ensures u < i && es[u] == Run(es[i].id) && ss[u + 1].up
    ensures IsCleaning(ss[i], es[i].id)
    ensures ss[i + 1].up <==> ss[i].up && ss[i].tasks[es[i].id].phase.winner !in {Stopping, Stopped, Destroying}
  {
    var t := es[i].id;
    CleanersAreLate(ss, es, t, i);
    RunsGoOneByOne(ss, es, t, i);
    u := Worked(ss, es, t, 19, ss[i].tasks[t].op, i);
  }

  // ---------------------------------------------------------------- a deployment on its own

  /** All there is, besides the row and the containers, is this one task: its copy is active and the
      row is as it last wrote it.  It has its whole course still before it, or it has come to its end. */
  ghost predicate Alone(s: State, t: int, from: Status) {
    && t in s.tasks && s.row.Some?
    && var task, status := s.tasks[t], s.row.value.status;
       && task.op < |PROGRAM| && task.lost.None? && task.startedFrom == from && StartAllowed(from)
       && (if task.phase.Returned? then
             if task.failing then status == Failed else status == Running && s.up
           else
             && task.status == InProgress
             && (status == if task.op == 0 then from else InProgress)
             && (task.op > 19 ==> s.up) && (task.phase.Saving? ==> s.row == Some(task.phase.seen)))
       && (task.phase.CleaningUp? ==> false)
       && (task.phase.Rechecking? || task.phase.Marking? ==> task.failing)
  }

  /** A step of this task, not overtaken by anybody. */
  predicate OwnStep(e: Event, t: int) {
    IsTaskEvent(e) && e.id == t
  }

  lemma AloneReads(s: State, e: Event, t: int, from: Status)
    requires Inv(s) && Alone(s, t, from) && Enabled(s, e) && OwnStep(e, t) && (e.Read? || e.Check? || e.Recheck?)
    ensures Alone(Apply(s, e), t, from)
  {
    assert TaskOk(s, s.tasks[t]);
  }

  lemma AloneWrites(s: State, e: Event, t: int, from: Status)
    requires Inv(s) && Alone(s, t, from) && Enabled(s, e) && OwnStep(e, t) && (e.Swap? || e.MarkError?)
    ensures Alone(Apply(s, e), t, from)
    ensures e.Swap? ==> Swaps(s, e)
  {
    assert TaskOk(s, s.tasks[t]);
  }

  lemma AloneWorks(s: State, e: Event, t: int, from: Status)
    requires Inv(s) && Alone(s, t, from) && Enabled(s, e) && OwnStep(e, t) && (e.Run? || e.RunFails? || e.CleanUp?)
    ensures Alone(Apply(s, e), t, from)
  {
    assert TaskOk(s, s.tasks[t]);
  }

  lemma StaysAlone(s: State, e: Event, t: int, from: Status)
    requires Inv(s) && Alone(s, t, from) && Enabled(s, e) && OwnStep(e, t)
    ensures Alone(Apply(s, e), t, from) && (e.Swap? ==> Swaps(s, e))
    ensures Apply(s, e).tasks[t].failing <==> s.tasks[t].failing || e.RunFails?
  {
    if e.Read? || e.Check? || e.Recheck? {
      AloneReads(s, e, t, from);
    } else if e.Swap? || e.MarkError? {
      AloneWrites(s, e, t, from);
    } else {
      AloneWorks(s, e, t, from);
    }
  }

  /** One deployment is started on a row of a startable status, and from then on takes all the steps. */
  predicate OnItsOwn(ss: seq<State>, es: seq<Event>, t: int) {
    && es != [] && |ss| == |es| + 1 && ss[0].row.Some? && es[0] == Spawn(t, ss[0].row.value.status)
    && ss[0].row.value.status in {Pending, InProgress, Running, HasChanges, Failed, Stopped}
    && forall i :: 0 < i < |es| ==> OwnStep(es[i], t)
  }

  predicate WorkFailed(es: seq<Event>, i: nat)
    requires i <= |es|
  {
    exists k :: 0 <= k < i && es[k].RunFails?
  }

  lemma {:induction false} AloneAllAlong(ss: seq<State>, es: seq<Event>, t: int, i: nat)
    requires IsRun(ss, es) && OnItsOwn(ss, es, t) && 0 < i < |ss|
    ensures Alone(ss[i], t, ss[0].row.value.status)
    ensures ss[i].tasks[t].failing <==> WorkFailed(es, i)
    decreases i
  {
    if i > 1 {
      AloneAllAlong(ss, es, t, i - 1);
      RunInv(ss, es, i - 1);
      StaysAlone(ss[i - 1], es[i - 1], t, ss[0].row.value.status);
      if WorkFailed(es, i - 1) {
        var k :| 0 <= k < i - 1 && es[k].RunFails?;
        assert 0 <= k < i;
      }
    }
  }

  /** Main result: whenever an undisturbed deployment has returned, the row is `running` and the
      containers are up if none of its work failed, and the row is in error if some did. */
  lemma UndisturbedSucceeds(ss: seq<State>, es: seq<Event>, t: int, k: nat)
    requires IsRun(ss, es) && OnItsOwn(ss, es, t) && 0 < k < |ss|
    requires t in ss[k].tasks && ss[k].tasks[t].phase.Returned?
    ensures !WorkFailed(es, k) ==> StatusIs(ss[k].row, Running) && ss[k].up
    ensures WorkFailed(es, k) ==> StatusIs(ss[k].row, Failed)
  {
    AloneAllAlong(ss, es, t, k);
  }

  lemma OneMoreStep(ss: seq<State>, es: seq<Event>, t: int, e: Event)
    requires IsRun(ss, es) && OnItsOwn(ss, es, t) && !WorkFailed(es, |es|)
    requires Enabled(ss[|es|], e) && OwnStep(e, t) && !e.RunFails?
    ensures var ss', es' := ss + [Apply(ss[|es|], e)], es + [e];
            IsRun(ss', es') && OnItsOwn(ss', es', t) && !WorkFailed(es', |es'|)
  {
    var ss', es' := ss + [Apply(ss[|es|], e)], es + [e];
    forall i | 0 <= i < |es'| ensures Enabled(ss'[i], es'[i]) && ss'[i + 1] == Apply(ss'[i], es'[i]) {
      if i < |es| { assert ss'[i] == ss[i] && ss'[i + 1] == ss[i + 1] && es'[i] == es[i]; }
    }
    forall i | 0 <= i < |es'| ensures !es'[i].RunFails? && (i > 0 ==> OwnStep(es'[i], t)) {
      if i < |es| { assert es'[i] == es[i]; }
    }
  }

  /** A deployment that has got this far by itself gets to its end. */
  lemma {:induction false} GoesOn(ss: seq<State>, es: seq<Event>, t: int) returns (ss': seq<State>, es': seq<Event>)
    requires IsRun(ss, es) && OnItsOwn(ss, es, t) && !WorkFailed(es, |es|)
    requires t in ss[|es|].tasks && ss[|es|].tasks[t].op < |PROGRAM|
    ensures IsRun(ss', es') && OnItsOwn(ss', es', t) && !WorkFailed(es', |es'|) && ss <= ss' && es <= es'
    ensures t in ss'[|es'|].tasks && ss'[|es'|].tasks[t].phase.Returned?
    decreases Distance(ss[|es|].tasks[t])
  {
    if ss[|es|].tasks[t].phase.Returned? {
      return ss, es;
    }
    var e := NoTaskIsStuck(ss, es, |es|, t);
    OneMoreStep(ss, es, t, e);
    ss', es' := ss + [Apply(ss[|es|], e)], es + [e];
    AloneAllAlong(ss, es, t, |es|);
    RunInv(ss, es, |es|);
    StaysAlone(ss[|es|], e, t, ss[0].row.value.status);
    TasksProgress(ss', es', |es|);
    ss', es' := GoesOn(ss', es', t);
  }

  /** Main result: on any row of a startable status, a deployment that is left alone, and none of
      whose work fails, does return, with the row `running` and the containers up. */
  lemma DeploymentSucceeds(s0: State, t: int) returns (ss: seq<State>, es: seq<Event>)
    requires Initial(s0) && s0.row.value.status in {Pending, InProgress, Running, HasChanges, Failed, Stopped}
    ensures IsRun(ss, es) && ss[0] == s0 && OnItsOwn(ss, es, t) && !WorkFailed(es, |es|)
    ensures var end := ss[|es|];
            && t in end.tasks && end.tasks[t].phase.Returned?
            && StatusIs(end.row, Running) && end.up
  {
    es := [Spawn(t, s0.row.value.status)];
    ss := [s0, Apply(s0, es[0])];
    ss, es := GoesOn(ss, es, t);
    UndisturbedSucceeds(ss, es, t, |es|);
  }
}
