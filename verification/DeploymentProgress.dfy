/** What the guarded progress writes of deployments guarantee in every run: they never land on
    a row their guard rejects, they are retried only when overtaken, and a start from a settled
    status claims the row. */
module DeploymentProgress {
  import opened Text
  import opened PlaygroundStore
  import opened Deployment

  // ---------------------------------------------------------------- guarded commits

  /** The first progress write of a deployment lands. */
  predicate StartCommit(s: State, e: Event) {
    Swaps(s, e) && s.tasks[e.id].op == 0 && !s.tasks[e.id].failing
  }

  predicate StatusIs(row: Option<Row>, status: Status) {
    row.Some? && row.value.status == status
  }

  /** A progress write that lands finds the row exactly as the task read it, so its guard holds
      at that moment; it leaves the metadata as it was just before and carries the task's status. */
  lemma ProgressCommits(ss: seq<State>, es: seq<Event>, i: nat)
    requires IsRun(ss, es) && i < |es| && Swaps(ss[i], es[i])
    ensures var t := ss[i].tasks[es[i].id];
            && AtSave(t) && ss[i].row == Some(t.phase.seen) && GuardOf(t).Allows(ss[i].row.value.status)
            && (StatusIs(ss[i].row, Pending) || StatusIs(ss[i].row, InProgress) || StartCommit(ss[i], es[i]))
            && ss[i + 1].row
               == Some(ss[i].row.value.(status := WrittenStatus(t), payload := es[i].payload, version := ss[i].clock))
  {
    RunInv(ss, es, i);
    var t := ss[i].tasks[es[i].id];
    assert TaskOk(ss[i], t);
    TrimSpaceFixed(t.phase.seen.meta.name);
  }

  /** From position `from` to `till` the task has not moved and its row was read in between. */
  predicate ReadAt(ss: seq<State>, es: seq<Event>, t: int, seen: Row, from: nat, till: nat) {
    && from < till < |ss| && from < |es| && |ss| == |es| + 1
    && es[from] == Read(t) && ss[from].row == Some(seen)
    && forall i :: from < i <= till ==> t in ss[i].tasks && ss[i].tasks[t].phase == Saving(seen)
  }

  lemma OthersUnmoved(s: State, e: Event, t: int)
    requires Enabled(s, e) && t in TasksAfter(s, e) && !(IsTaskEvent(e) && e.id == t) && !(e.Spawn? && e.id == t)
    ensures t in s.tasks && TasksAfter(s, e)[t] == s.tasks[t]
  {
  }

  lemma OnlyReadsSave(s: State, e: Event)
    requires Inv(s) && Enabled(s, e) && IsTaskEvent(e) && TaskAfter(s, e).phase.Saving?
    ensures e == Read(e.id) && s.row == Some(TaskAfter(s, e).phase.seen)
  {
    assert TaskOk(s, s.tasks[e.id]);
  }

  /** A task that is about to save either read the row in this step or was about to save the same row before. */
  predicate SavesWhatItRead(s: State, e: Event, s': State, t: int) {
    t in s'.tasks && s'.tasks[t].phase.Saving? ==>
      if IsTaskEvent(e) && e.id == t then e == Read(t) && s.row == Some(s'.tasks[t].phase.seen)
      else t in s.tasks && s.tasks[t].phase == s'.tasks[t].phase
  }

  lemma SavingStep(s: State, e: Event, t: int)
    requires Inv(s) && Enabled(s, e)
    ensures SavesWhatItRead(s, e, Apply(s, e), t)
  {
    var s' := Apply(s, e);
    if t in s'.tasks && s'.tasks[t].phase.Saving? {
      if IsTaskEvent(e) && e.id == t {
        OnlyReadsSave(s, e);
      } else {
        OthersUnmoved(s, e, t);
      }
    }
  }

  lemma SavingSteps(ss: seq<State>, es: seq<Event>, t: int, i: nat)
    requires IsRun(ss, es) && i < |es|
    ensures SavesWhatItRead(ss[i], es[i], ss[i + 1], t)
  {
    RunInv(ss, es, i);
    SavingStep(ss[i], es[i], t);
  }

  lemma {:induction false} FindRead(ss: seq<State>, es: seq<Event>, t: int, till: nat) returns (from: nat)
    requires IsRun(ss, es) && till < |ss| && t in ss[till].tasks && ss[till].tasks[t].phase.Saving?
    ensures ReadAt(ss, es, t, ss[till].tasks[t].phase.seen, from, till)
  {
    forall i | 0 <= i < |es| ensures SavesWhatItRead(ss[i], es[i], ss[i + 1], t) { SavingSteps(ss, es, t, i); }
    assert t !in ss[0].tasks;
    from := FindReadBack(ss, es, t, till);
  }

  lemma {:induction false} FindReadBack(ss: seq<State>, es: seq<Event>, t: int, till: nat) returns (from: nat)
    requires |ss| == |es| + 1 && forall i :: 0 <= i < |es| ==> SavesWhatItRead(ss[i], es[i], ss[i + 1], t)
    requires till < |ss| && t !in ss[0].tasks && t in ss[till].tasks && ss[till].tasks[t].phase.Saving?
    ensures ReadAt(ss, es, t, ss[till].tasks[t].phase.seen, from, till)
    decreases till
  {
    var e := es[till - 1];
    assert SavesWhatItRead(ss[till - 1], e, ss[till - 1 + 1], t);
    if IsTaskEvent(e) && e.id == t {
      from := till - 1;
    } else {
      from := FindReadBack(ss, es, t, till - 1);
    }
  }

  lemma {:induction false} FindWrite(ss: seq<State>, from: nat, till: nat) returns (k: nat)
    requires from < till < |ss| && ss[from].row != ss[till].row
    ensures from <= k < till && ss[k].row != ss[k + 1].row
    decreases till - from
  {
    if ss[from].row != ss[from + 1].row {
      k := from;
    } else {
      k := FindWrite(ss, from + 1, till);
    }
  }

  /** A progress write is retried only if some other write was committed between its read and its swap. */
  lemma RetryMeansOvertaken(ss: seq<State>, es: seq<Event>, j: nat) returns (read: nat, k: nat)
    requires IsRun(ss, es) && j < |es| && es[j].Swap? && !Swaps(ss[j], es[j])
    ensures read < k < j && es[read] == Read(es[j].id)
    ensures ss[k].row != ss[k + 1].row && !(IsTaskEvent(es[k]) && es[k].id == es[j].id)
  {
    var t := es[j].id;
    read := FindRead(ss, es, t, j);
    assert ss[read + 1].row == ss[read].row;
    assert ss[j].row != ss[read].row;
    k := FindWrite(ss, read + 1, j);
    assert ss[k].tasks[t].phase == ss[k + 1].tasks[t].phase;
    if IsTaskEvent(es[k]) && es[k].id == t {
      RunInv(ss, es, k);
      OnlyReadsSave(ss[k], es[k]);
    }
  }

  /** What comes of a swap that does not land: the task reads and swaps again when the row is still
      there; when it is gone the task returns, unless it is recording a failure, which it then goes on with. */
  lemma OvertakenRetries(ss: seq<State>, es: seq<Event>, i: nat)
    requires IsRun(ss, es) && i < |es| && es[i].Swap? && ss[i + 1].row == ss[i].row
    ensures var t := es[i].id;
            && t in ss[i].tasks && t in ss[i + 1].tasks
            && ss[i + 1].tasks[t].op == ss[i].tasks[t].op && ss[i + 1].tasks[t].failing == ss[i].tasks[t].failing
            && var phase := ss[i + 1].tasks[t].phase;
               if ss[i].row.Some? then phase.Ready?
               else if ss[i].tasks[t].failing then phase.Rechecking?
               else phase.Returned?
  {
    RunInv(ss, es, i);
    assert TaskOk(ss[i], ss[i].tasks[es[i].id]);
  }

  // ---------------------------------------------------------------- start races

  lemma {:induction false} FindExit(ss: seq<State>, status: Status, from: nat, till: nat) returns (k: nat)
    requires from < till < |ss| && StatusIs(ss[from].row, status) && !StatusIs(ss[till].row, status)
    ensures from <= k < till && StatusIs(ss[k].row, status) && !StatusIs(ss[k + 1].row, status)
    decreases till - from
  {
    if StatusIs(ss[from + 1].row, status) {
      k := FindExit(ss, status, from + 1, till);
    } else {
      k := from;
    }
  }

  /** A landed start takes the row from the status it was started from, a startable one, to `in_progress`. */
  lemma StartCommits(ss: seq<State>, es: seq<Event>, i: nat)
    requires IsRun(ss, es) && i < |es| && StartCommit(ss[i], es[i])
    ensures var from := ss[i].tasks[es[i].id].startedFrom;
            && from in {Pending, InProgress, Running, HasChanges, Failed, Stopped}
            && StatusIs(ss[i].row, from) && StatusIs(ss[i + 1].row, InProgress)
  {
    ProgressCommits(ss, es, i);
  }

  /** Two starts race for one row: if the later one was started from any status other than
      `in_progress`, a commit between the two took the row out of `in_progress`. */
  lemma StartsAreSeparated(ss: seq<State>, es: seq<Event>, i: nat, j: nat) returns (k: nat)
    requires IsRun(ss, es) && i < j < |es| && StartCommit(ss[i], es[i]) && StartCommit(ss[j], es[j])
    requires ss[j].tasks[es[j].id].startedFrom != InProgress
    ensures i < k < j && StatusIs(ss[k].row, InProgress) && !StatusIs(ss[k + 1].row, InProgress)
  {
    StartCommits(ss, es, i);
    StartCommits(ss, es, j);
    k := FindExit(ss, InProgress, i + 1, j);
  }
}
