/** A stop beats every deployment in flight: whatever the interleaving, once all tasks, requests
    and background work have returned the row is `stopped` and the project's containers are
    down, unless an unguarded save was already on its way when the stop was accepted. */
module StopWins {
  import opened Text
  import opened PlaygroundStore
  import opened Deployment
  import opened DeploymentProgress

  /** The conditions of the claim on one later step: no new start is committed, no request
      deletes the row, and Compose does not fail half-way up. */
  predicate Undisturbed(s: State, e: Event) {
    && !StartCommit(s, e)
    && !e.DeleteAccept? && !e.DeleteFinish?
    && !(e.RunFails? && e.leftUp)
  }

  /** A failed deployment is between its last look at the row and its unguarded error save. */
  predicate IsMarking(s: State, t: int) {
    t in s.tasks && s.tasks[t].phase.Marking?
  }

  predicate StopStatus(status: Status) {
    status == Stopping || status == Stopped
  }

  /** A background save is going to write a status other than `stopping` and `stopped`: it already
      holds the row to write over, or is a push build that will turn out ready. */
  predicate IsOverwriting(s: State, b: int) {
    && b in s.savers
    && ((s.savers[b].Holding? && !StopStatus(s.savers[b].writes)) || (s.savers[b].Building? && s.savers[b].ready))
  }

  /** No unguarded save that would take the row out of `stopping` and `stopped` is on its way. */
  ghost predicate NonePending(s: State) {
    (forall t :: !IsMarking(s, t)) && (forall b :: !IsOverwriting(s, b))
  }

  predicate StopPending(s: State, h: int) {
    h in s.stops && !s.stops[h].StopDone?
  }

  /** This request is still going to stop Compose. */
  predicate WillStop(s: State, h: int) {
    h in s.stops && s.stops[h].StopsCompose?
  }

  /** This task is going to bring the containers down: it has just brought them up and not looked
      at the row since, or it has seen that it was superseded. */
  predicate WillCleanUp(s: State, t: int) {
    && t in s.tasks
    && ((s.tasks[t].op == AFTER_UP && s.tasks[t].phase.Ready?)
        || (s.tasks[t].phase.CleaningUp? && BringsDown(s.tasks[t].phase.winner)))
  }

  predicate Stoppish(row: Option<Row>) {
    StatusIs(row, Stopping) || StatusIs(row, Stopped)
  }

  /** Whatever runs has someone to bring it down. */
  ghost predicate UpHandled(s: State) {
    s.up ==> (exists h :: WillStop(s, h)) || (exists t :: WillCleanUp(s, t))
  }

  /** What holds from an accepted stop on. */
  ghost predicate StopInv(s: State) {
    Stoppish(s.row) && NonePending(s) && UpHandled(s)
  }

  /** No progress write lands any more, except a start. */
  lemma OnlyStartsLand(s: State, e: Event)
    requires Inv(s) && Enabled(s, e) && Stoppish(s.row) && Swaps(s, e)
    ensures StartCommit(s, e)
  {
    assert TaskOk(s, s.tasks[e.id]);
  }

  lemma StaysNonePending(s: State, e: Event)
    requires Enabled(s, e) && Stoppish(s.row) && NonePending(s)
    ensures NonePending(Apply(s, e))
  {
    forall t ensures !IsMarking(Apply(s, e), t) { assert !IsMarking(s, t); }
    forall b ensures !IsOverwriting(Apply(s, e), b) { assert !IsOverwriting(s, b); }
  }

  lemma StaysStoppish(s: State, e: Event)
    requires Inv(s) && Enabled(s, e) && Stoppish(s.row) && NonePending(s) && Undisturbed(s, e)
    ensures Stoppish(RowAfter(s, e))
  {
    assert e.MarkError? ==> IsMarking(s, e.id);
    assert e.SaveBack? ==> !IsOverwriting(s, e.id);
    if Swaps(s, e) { OnlyStartsLand(s, e); }
  }

  /** A task that is going to clean up either still is after the step, or has just done it. */
  lemma CleanerKeepsCleaning(s: State, e: Event, t: int)
    requires Inv(s) && Enabled(s, e) && Stoppish(s.row) && Undisturbed(s, e) && WillCleanUp(s, t)
    ensures WillCleanUp(Apply(s, e), t) || !Apply(s, e).up
  {
    assert TaskOk(s, s.tasks[t]);
  }

  /** Containers that the step brings up belong to a task that will clean up. */
  lemma UpIsWatched(s: State, e: Event)
    requires Inv(s) && Enabled(s, e) && Undisturbed(s, e) && !s.up && UpAfter(s, e)
    ensures WillCleanUp(Apply(s, e), e.id)
  {
    assert e.Run? && TaskOk(s, s.tasks[e.id]);
  }

  lemma UpStaysHandled(s: State, e: Event)
    requires Inv(s) && Enabled(s, e) && Stoppish(s.row) && UpHandled(s) && Undisturbed(s, e)
    ensures UpHandled(Apply(s, e))
  {
    var s' := Apply(s, e);
    if s'.up {
      if !s.up {
        UpIsWatched(s, e);
      } else if h :| WillStop(s, h) {
        assert WillStop(s', h);
      } else {
        var t :| WillCleanUp(s, t);
        CleanerKeepsCleaning(s, e, t);
      }
    }
  }

  lemma StepKeepsStopInv(s: State, e: Event)
    requires Inv(s) && Enabled(s, e) && StopInv(s) && Undisturbed(s, e)
    ensures StopInv(Apply(s, e))
  {
    StaysStoppish(s, e);
    StaysNonePending(s, e);
    UpStaysHandled(s, e);
  }

  /** The stop accepted at position `a` has Compose to stop. */
  predicate Accepted(ss: seq<State>, es: seq<Event>, a: nat) {
    a < |es| && a < |ss| && es[a].StopAccept? && ss[a].row.Some? && ss[a].row.value.meta.marquee.Some?
  }

  lemma AcceptStarts(s: State, e: Event)
    requires Inv(s) && Enabled(s, e) && e.StopAccept? && s.row.value.meta.marquee.Some? && NonePending(s)
    ensures StopInv(Apply(s, e))
  {
    var s' := Apply(s, e);
    assert WillStop(s', e.id);
    forall t ensures !IsMarking(s', t) { assert !IsMarking(s, t); }
    forall b ensures !IsOverwriting(s', b) { assert !IsOverwriting(s, b); }
  }

  lemma {:induction false} StopInvHolds(ss: seq<State>, es: seq<Event>, a: nat, k: nat)
    requires IsRun(ss, es) && a < k < |ss| && Accepted(ss, es, a)
    requires NonePending(ss[a]) && forall i :: a < i < k ==> Undisturbed(ss[i], es[i])
    ensures StopInv(ss[k])
    decreases k
  {
    RunInv(ss, es, k - 1);
    if k == a + 1 {
      AcceptStarts(ss[a], es[a]);
    } else {
      StopInvHolds(ss, es, a, k - 1);
      StepKeepsStopInv(ss[k - 1], es[k - 1]);
    }
  }

  /** Everything in flight has come to its end. */
  ghost predicate Settled(s: State) {
    && (forall t :: t in s.tasks ==> s.tasks[t].phase.Returned?)
    && (forall h :: h in s.stops ==> s.stops[h].StopDone?)
    && (forall b :: b in s.savers ==> s.savers[b].SaverDone?)
  }

  // ---------------------------------------------------------------- `stopping` is left again

  /** A background save lands and writes `stopping`. */
  predicate SavesStopping(s: State, e: Event) {
    e.SaveBack? && e.id in s.savers && s.savers[e.id].Holding? && s.savers[e.id].writes == Stopping && s.row.Some?
  }

  /** The save at position `i` put `stopping` back, and there it has remained. */
  predicate PutBack(ss: seq<State>, es: seq<Event>, i: nat, k: nat) {
    && i < k < |ss| && i < |es| && SavesStopping(ss[i], es[i])
    && forall j :: i < j <= k ==> StatusIs(ss[j].row, Stopping)
  }

  /** The row is `stopping` because a request is at it, or because a save put it back. */
  ghost predicate StoppingExplained(ss: seq<State>, es: seq<Event>, a: nat, k: nat)
    requires k < |ss|
  {
    StatusIs(ss[k].row, Stopping) ==>
      (exists h :: StopPending(ss[k], h)) || (exists i :: a < i < k && PutBack(ss, es, i, k))
  }

  lemma OnlyStopsWriteStopping(s: State, e: Event)
    requires Inv(s) && Enabled(s, e) && Stoppish(s.row) && NonePending(s) && Undisturbed(s, e)
    requires StatusIs(RowAfter(s, e), Stopping)
    ensures e.StopAccept? || SavesStopping(s, e) || (StatusIs(s.row, Stopping) && !e.StopFinish?)
  {
    assert e.MarkError? ==> IsMarking(s, e.id);
    if Swaps(s, e) { OnlyStartsLand(s, e); }
  }

  lemma StepKeepsExplained(ss: seq<State>, es: seq<Event>, a: nat, k: nat)
    requires IsRun(ss, es) && a < k < |es| && StopInv(ss[k]) && Undisturbed(ss[k], es[k])
    requires StoppingExplained(ss, es, a, k)
    ensures StoppingExplained(ss, es, a, k + 1)
  {
    RunInv(ss, es, k);
    var s, e, s' := ss[k], es[k], ss[k + 1];
    if StatusIs(s'.row, Stopping) {
      OnlyStopsWriteStopping(s, e);
      if e.StopAccept? {
        assert StopPending(s', e.id);
      } else if SavesStopping(s, e) {
        assert PutBack(ss, es, k, k + 1);
      } else if h :| StopPending(s, h) {
        assert StopPending(s', h);
      } else {
        var i :| a < i < k && PutBack(ss, es, i, k);
        assert PutBack(ss, es, i, k + 1);
      }
    }
  }

  lemma {:induction false} ExplainedHolds(ss: seq<State>, es: seq<Event>, a: nat, k: nat)
    requires IsRun(ss, es) && a < k < |ss| && Accepted(ss, es, a)
    requires NonePending(ss[a]) && forall i :: a < i < k ==> Undisturbed(ss[i], es[i])
    ensures StoppingExplained(ss, es, a, k)
    decreases k
  {
    if k == a + 1 {
      assert StopPending(ss[k], es[a].id);
    } else {
      ExplainedHolds(ss, es, a, k - 1);
      StopInvHolds(ss, es, a, k - 1);
      StepKeepsExplained(ss, es, a, k - 1);
    }
  }

  /** What is left of the background work that was there at the accept. */
  ghost predicate OnlyOldSavers(s0: State, s: State) {
    forall b :: b in s.savers && !s.savers[b].SaverDone? ==>
      b in s0.savers && (s0.savers[b] == s.savers[b] || s0.savers[b].Building?)
  }

  lemma SaversStayOld(s0: State, s: State, e: Event)
    requires Enabled(s, e) && Stoppish(s.row) && OnlyOldSavers(s0, s)
    ensures OnlyOldSavers(s0, Apply(s, e))
  {
  }

  /** None begins while the row is `stopping` or `stopped`. */
  lemma {:induction false} SaversAreOld(ss: seq<State>, es: seq<Event>, a: nat, k: nat)
    requires IsRun(ss, es) && a < k < |ss| && Accepted(ss, es, a)
    requires NonePending(ss[a]) && forall i :: a < i < k ==> Undisturbed(ss[i], es[i])
    ensures OnlyOldSavers(ss[a], ss[k])
    decreases k
  {
    if k > a + 1 {
      SaversAreOld(ss, es, a, k - 1);
      StopInvHolds(ss, es, a, k - 1);
      SaversStayOld(ss[a], ss[k - 1], es[k - 1]);
    }
  }

  /** A push build that has not saved its result: still building, or about to write `stopping`
      because it failed and read the row at that status. */
  predicate PushInFlight(s: State, b: int) {
    b in s.savers && (s.savers[b].Building? || (s.savers[b].Holding? && s.savers[b].writes == Stopping))
  }

  /** Where the row ends up as `stopping`: a push build in flight at the accept put it back after the last finish. */
  ghost predicate StuckStopping(ss: seq<State>, es: seq<Event>, a: nat, k: nat)
    requires a < |ss|
  {
    exists i :: a < i < k && PutBack(ss, es, i, k) && PushInFlight(ss[a], es[i].id)
  }

  /** Main result: after a stop accepted while no unguarded save was on its way to another status,
      with no later start or deletion, once all tasks, stop requests and background work have
      returned, in whatever interleaving, the project's containers are down and the row is
      `stopped`, if and only if no failed push build put `stopping` back for good. */
  lemma StopWinsOverDeploy(ss: seq<State>, es: seq<Event>, a: nat, k: nat)
    requires IsRun(ss, es) && a < k < |ss| && Accepted(ss, es, a)
    requires NonePending(ss[a]) && forall i :: a < i < k ==> Undisturbed(ss[i], es[i])
    requires Settled(ss[k])
    ensures !ss[k].up && Stoppish(ss[k].row)
    ensures StatusIs(ss[k].row, Stopped) <==> !StuckStopping(ss, es, a, k)
  {
    StopInvHolds(ss, es, a, k);
    ExplainedHolds(ss, es, a, k);
    if StatusIs(ss[k].row, Stopping) {
      var i :| a < i < k && PutBack(ss, es, i, k);
      SaversAreOld(ss, es, a, i);
    }
  }

  /** Without a push build in flight at the accept there is no exception. */
  lemma StopWinsOutright(ss: seq<State>, es: seq<Event>, a: nat, k: nat)
    requires IsRun(ss, es) && a < k < |ss| && Accepted(ss, es, a)
    requires NonePending(ss[a]) && forall i :: a < i < k ==> Undisturbed(ss[i], es[i])
    requires forall b :: !PushInFlight(ss[a], b)
    requires Settled(ss[k])
    ensures StatusIs(ss[k].row, Stopped) && !ss[k].up
  {
    StopWinsOverDeploy(ss, es, a, k);
  }

  // ---------------------------------------------------------------- the condition is exact

  /** The save writes `stopped` or `stopping`: an expired Playground without runtime, or one whose
      destroy was superseded, or a failed push build that read the row at that status. */
  predicate SavesStop(s: State, e: Event) {
    e.SaveBack? && e.id in s.savers && s.savers[e.id].Holding? && StopStatus(s.savers[e.id].writes)
  }

  /** An unguarded save over the stop is still to come. */
  ghost predicate SomePending(s: State) {
    s.row.Some? && ((exists t :: IsMarking(s, t)) || (exists b :: IsOverwriting(s, b)))
  }

  lemma MarkingLands(s: State, e: Event, t: int)
    requires Inv(s) && Enabled(s, e) && s.row.Some? && IsMarking(s, t)
    ensures IsMarking(Apply(s, e), t) || StatusIs(RowAfter(s, e), Failed)
  {
  }

  lemma OverwritingLands(s: State, e: Event, b: int)
    requires Inv(s) && Enabled(s, e) && s.row.Some? && IsOverwriting(s, b)
    ensures IsOverwriting(Apply(s, e), b) || (RowAfter(s, e).Some? && !Stoppish(RowAfter(s, e)))
  {
  }

  lemma RowStays(s: State, e: Event)
    requires Enabled(s, e) && s.row.Some? && !e.DeleteFinish?
    ensures RowAfter(s, e).Some?
  {
  }

  /** The unguarded saves land as long as the row is there. */
  lemma PendingLands(s: State, e: Event)
    requires Inv(s) && Enabled(s, e) && Undisturbed(s, e) && SomePending(s)
    ensures SomePending(Apply(s, e)) || !Stoppish(RowAfter(s, e))
    ensures RowAfter(s, e).Some?
  {
    RowStays(s, e);
    if t :| IsMarking(s, t) {
      MarkingLands(s, e, t);
    } else {
      var b :| IsOverwriting(s, b);
      OverwritingLands(s, e, b);
    }
  }

  /** A lost stop does not come back by itself. */
  lemma StaysLost(s: State, e: Event)
    requires Inv(s) && Enabled(s, e) && Undisturbed(s, e) && !e.StopAccept? && !SavesStop(s, e)
    requires s.row.Some? && !Stoppish(s.row)
    ensures RowAfter(s, e).Some? && !Stoppish(RowAfter(s, e))
  {
    assert Swaps(s, e) ==> TaskOk(s, s.tasks[e.id]);
  }

  /** Where the row is no longer what the stop made of it. */
  lemma {:induction false} FindLoss(ss: seq<State>, es: seq<Event>, a: nat, k: nat) returns (j: nat)
    requires IsRun(ss, es) && a < k < |ss| && SomePending(ss[a]) && !SomePending(ss[k])
    requires forall i :: a <= i < k ==> Undisturbed(ss[i], es[i])
    ensures a < j <= k && ss[j].row.Some? && !Stoppish(ss[j].row)
    decreases k - a
  {
    RunInv(ss, es, a);
    PendingLands(ss[a], es[a]);
    if SomePending(ss[a + 1]) {
      j := FindLoss(ss, es, a + 1, k);
    } else {
      j := a + 1;
    }
  }

  lemma {:induction false} LossRemains(ss: seq<State>, es: seq<Event>, j: nat, k: nat)
    requires IsRun(ss, es) && j <= k < |ss| && ss[j].row.Some? && !Stoppish(ss[j].row)
    requires forall i :: j <= i < k ==> Undisturbed(ss[i], es[i]) && !es[i].StopAccept? && !SavesStop(ss[i], es[i])
    ensures ss[k].row.Some? && !Stoppish(ss[k].row)
    decreases k
  {
    if j < k {
      LossRemains(ss, es, j, k - 1);
      RunInv(ss, es, k - 1);
      StaysLost(ss[k - 1], es[k - 1]);
    }
  }

  lemma SettledIsNotPending(s: State)
    requires Settled(s)
    ensures !SomePending(s)
  {
  }

  lemma PendingAtAccept(s: State, e: Event)
    requires Enabled(s, e) && e.StopAccept? && !NonePending(s)
    ensures SomePending(Apply(s, e)) && SomePending(s) && Undisturbed(s, e)
  {
    var s' := Apply(s, e);
    if t :| IsMarking(s, t) {
      assert IsMarking(s', t);
    } else {
      var b :| IsOverwriting(s, b);
      assert IsOverwriting(s', b);
    }
  }

  /** The condition is exact: the row stays `stopping` or `stopped` from the accepted stop to the
      end if and only if no unguarded save was on its way to another status when it was accepted. */
  lemma StopWinsIff(ss: seq<State>, es: seq<Event>, a: nat, k: nat)
    requires IsRun(ss, es) && a < k < |ss| && Accepted(ss, es, a)
    requires forall i :: a < i < k ==> Undisturbed(ss[i], es[i])
    requires Settled(ss[k])
    ensures (forall j :: a < j <= k ==> Stoppish(ss[j].row)) <==> NonePending(ss[a])
  {
    if NonePending(ss[a]) {
      forall j | a < j <= k ensures Stoppish(ss[j].row) { StopInvHolds(ss, es, a, j); }
    } else {
      PendingAtAccept(ss[a], es[a]);
      SettledIsNotPending(ss[k]);
      var j := FindLoss(ss, es, a, k);
    }
  }

  /** And for the last accepted stop, while no background save writes `stopped` or `stopping`
      itself, that is whether the row ends `stopped`. */
  lemma LastStopWinsIff(ss: seq<State>, es: seq<Event>, a: nat, k: nat)
    requires IsRun(ss, es) && a < k < |ss| && Accepted(ss, es, a)
    requires forall i :: a < i < k ==> Undisturbed(ss[i], es[i]) && !es[i].StopAccept? && !SavesStop(ss[i], es[i])
    requires Settled(ss[k])
    ensures StatusIs(ss[k].row, Stopped) <==> NonePending(ss[a])
  {
    if NonePending(ss[a]) {
      StopWinsOverDeploy(ss, es, a, k);
    } else {
      PendingAtAccept(ss[a], es[a]);
      SettledIsNotPending(ss[k]);
      var j := FindLoss(ss, es, a, k);
      LossRemains(ss, es, j, k);
    }
  }

  // ---------------------------------------------------------------- tasks come to an end

  /** A task can always go on: what the settled end needs does come about if steps are taken. */
  lemma NoTaskIsStuck(ss: seq<State>, es: seq<Event>, k: nat, t: int) returns (e: Event)
    requires IsRun(ss, es) && k < |ss| && t in ss[k].tasks && !ss[k].tasks[t].phase.Returned?
    ensures Enabled(ss[k], e) && IsTaskEvent(e) && e.id == t && !e.RunFails?
  {
    RunInv(ss, es, k);
    var task := ss[k].tasks[t];
    assert TaskOk(ss[k], task);
    match task.phase
    case Saving(_) => e := Swap(t, 0);
    case CleaningUp(_) => e := CleanUp(t);
    case Rechecking => e := Recheck(t);
    case Marking(_) => e := MarkError(t, 0);
    case Ready =>
      if AtSave(task) {
        e := Read(t);
      } else if PROGRAM[task.op].Confirm? {
        e := Check(t);
      } else {
        e := Run(t);
      }
  }

  /** How far a task is from returning. */
  function Distance(t: Task): nat
    requires t.op < |PROGRAM|
  {
    var phase := match t.phase
      case Ready => if t.failing then 6 else 8
      case Saving(_) => if t.failing then 5 else 7
      case Rechecking => 4
      case Marking(_) => 3
      case CleaningUp(_) => 2
      case Returned => 0;
    if t.phase.Returned? then 0 else (|PROGRAM| - t.op) * 10 + phase
  }

  /** The task is back where it was, its swap overtaken. */
  predicate Retries(s: State, e: Event) {
    e.Swap? && !Swaps(s, e)
  }

  lemma SwapProgress(s: State, e: Event)
    requires Inv(s) && Enabled(s, e) && e.Swap?
    ensures var t, t' := s.tasks[e.id], TaskAfter(s, e);
            && t.op < |PROGRAM| && t'.op < |PROGRAM|
            && (Distance(t') < Distance(t) || (Retries(s, e) && t' == t.(phase := Ready)))
  {
    assert TaskOk(s, s.tasks[e.id]);
  }

  lemma StepProgress(s: State, e: Event)
    requires Inv(s) && Enabled(s, e) && IsTaskEvent(e) && !e.Swap?
    ensures var t, t' := s.tasks[e.id], TaskAfter(s, e);
            t.op < |PROGRAM| && t'.op < |PROGRAM| && Distance(t') < Distance(t)
  {
    assert TaskOk(s, s.tasks[e.id]);
  }

  /** Every step of a task brings it nearer to its return, except a swap that was overtaken: with
      `RetryMeansOvertaken`, a deployment that is not kept busy by other writers ends. */
  lemma TasksProgress(ss: seq<State>, es: seq<Event>, i: nat)
    requires IsRun(ss, es) && i < |es| && IsTaskEvent(es[i])
    ensures var t, t' := ss[i].tasks[es[i].id], ss[i + 1].tasks[es[i].id];
            && t.op < |PROGRAM| && t'.op < |PROGRAM|
            && (Distance(t') < Distance(t) || (Retries(ss[i], es[i]) && t' == t.(phase := Ready)))
  {
    RunInv(ss, es, i);
    if es[i].Swap? {
      SwapProgress(ss[i], es[i]);
    } else {
      StepProgress(ss[i], es[i]);
    }
  }
}
