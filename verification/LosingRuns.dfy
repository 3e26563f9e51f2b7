/** Concrete runs in which a stop or a user's edit is lost: the conditions of `StopWins` and
    `MetadataHistory` do fail. */
module LosingRuns {
  import opened Text
  import opened PlaygroundStore
  import opened Deployment
  import opened DeploymentProgress
  import opened MetadataHistory
  import opened StopWins

  ghost predicate Steps(s: State, e: Event, s': State) {
    Enabled(s, e) && Apply(s, e) == s'
  }

  /** A run so far. */
  datatype Trace = Trace(ss: seq<State>, es: seq<Event>)

  ghost predicate RunTo(r: Trace, s: State) {
    IsRun(r.ss, r.es) && r.ss[|r.es|] == s
  }

  lemma Then(r: Trace, s: State, e: Event, s': State) returns (r': Trace)
    requires RunTo(r, s) && Steps(s, e, s')
    ensures RunTo(r', s') && r' == Trace(r.ss + [s'], r.es + [e])
  {
    r' := Trace(r.ss + [s'], r.es + [e]);
    forall i | 0 <= i < |r'.es| ensures Enabled(r'.ss[i], r'.es[i]) && r'.ss[i + 1] == Apply(r'.ss[i], r'.es[i]) {
      if i < |r.es| {
        assert r'.ss[i] == r.ss[i] && r'.es[i] == r.es[i] && r'.ss[i + 1] == r.ss[i + 1];
      }
    }
  }

  const DEMO := Row(Pending, Meta("demo", None, Some(1), map[], map[], None), 0, 0)

  // ---------------------------------------------------------------- a failed deployment

  const FRESH := State(Some(DEMO), false, 1, map[], map[], map[], map[])
  const BEGUN := Task(Pending, 0, InProgress, false, None, Ready)
  const BROKEN := BEGUN.(op := 1, failing := true)

  function World(status: Status, version: nat, clock: nat, task: Task, stops: map<int, Stop>): State {
    State(Some(DEMO.(status := status, version := version)), false, clock, map[1 := task], stops, map[], map[])
  }

  const STARTED := World(InProgress, 3, 4, BEGUN.(op := 1), map[])
  const RECORDED := World(InProgress, 6, 7, BROKEN.(phase := Rechecking), map[])
  const HOPELESS := World(InProgress, 6, 8, BROKEN.(phase := Marking(DEMO.(status := InProgress, version := 6))), map[])

  /** No unguarded save so far. */
  predicate NoneSaved(es: seq<Event>) {
    forall i :: 0 <= i < |es| ==> !es[i].MarkError? && !es[i].SaveBack?
  }

  const READING := World(Pending, 0, 3, BEGUN.(phase := Saving(DEMO)), map[])

  /** A deployment reads the row. */
  lemma TaskReads() returns (r: Trace)
    ensures RunTo(r, READING) && NoneSaved(r.es)
  {
    assert Trimmed("demo");
    r := Trace([FRESH], []);
    r := Then(r, FRESH, Spawn(1, Pending), World(Pending, 0, 2, BEGUN, map[]));
    r := Then(r, World(Pending, 0, 2, BEGUN, map[]), Read(1), READING);
  }

  /** It starts. */
  lemma TaskStarts() returns (r: Trace)
    ensures RunTo(r, STARTED) && NoneSaved(r.es)
  {
    TrimSpaceFixed("demo");
    r := TaskReads();
    r := Then(r, READING, Swap(1, 0), STARTED);
  }

  const FAILING := World(InProgress, 3, 5, BROKEN, map[])

  /** Its rendering fails. */
  lemma TaskFails() returns (r: Trace)
    ensures RunTo(r, FAILING) && NoneSaved(r.es)
  {
    r := TaskStarts();
    r := Then(r, STARTED, RunFails(1, false), FAILING);
  }

  /** The failed step is recorded. */
  lemma TaskBreaks() returns (r: Trace)
    ensures RunTo(r, RECORDED) && NoneSaved(r.es)
  {
    TrimSpaceFixed("demo");
    r := TaskFails();
    var saving := World(InProgress, 3, 6, BROKEN.(phase := Saving(DEMO.(status := InProgress, version := 3))), map[]);
    r := Then(r, FAILING, Read(1), saving);
    r := Then(r, saving, Swap(1, 0), RECORDED);
  }

  /** It looks at the row for the last time. */
  lemma TaskIsHopeless() returns (r: Trace)
    ensures RunTo(r, HOPELESS) && NoneSaved(r.es)
  {
    r := TaskBreaks();
    r := Then(r, RECORDED, Recheck(1), HOPELESS);
  }

  const LOSING := World(Stopping, 8, 10, HOPELESS.tasks[1], map[9 := SavesStopped])

  /** A stop is accepted and Compose is stopped while the error save is still to come. */
  lemma StopIsAccepted() returns (r: Trace, a: nat)
    ensures RunTo(r, LOSING) && a + 2 == |r.es| && r.ss[a] == HOPELESS
    ensures r.es[a..] == [StopAccept(9, InProgress), StopCompose(9)]
  {
    TrimSpaceFixed("demo");
    r := TaskIsHopeless();
    a := |r.es|;
    var accepted := World(Stopping, 8, 9, HOPELESS.tasks[1], map[9 := Stop.StopsCompose]);
    r := Then(r, HOPELESS, StopAccept(9, InProgress), accepted);
    r := Then(r, accepted, StopCompose(9), LOSING);
  }

  const LOST := World(Failed, 10, 11, BROKEN.(phase := Returned), map[9 := SavesStopped])
  const GONE := World(Failed, 10, 12, BROKEN.(phase := Returned), map[9 := StopDone])

  lemma ErrorIsSaved()
    ensures Steps(LOSING, MarkError(1, 0), LOST)
  {
    TrimSpaceFixed("demo");
  }

  lemma StopGivesUp()
    ensures Steps(LOST, StopFinish(9), GONE)
  {
  }

  /** A stop accepted between a failed task's last look at the row and its error save is lost,
      although everything has returned. */
  lemma ErrorSaveOverridesStop() returns (r: Trace, a: nat)
    ensures IsRun(r.ss, r.es) && a + 4 == |r.es| && r.ss[a] == HOPELESS && r.ss[|r.es|] == GONE
    ensures r.es[a..] == [StopAccept(9, InProgress), StopCompose(9), MarkError(1, 0), StopFinish(9)]
    ensures !NonePending(HOPELESS) && Settled(GONE) && StatusIs(GONE.row, Failed)
  {
    assert IsMarking(HOPELESS, 1);
    r, a := StopIsAccepted();
    ErrorIsSaved();
    r := Then(r, LOSING, MarkError(1, 0), LOST);
    StopGivesUp();
    r := Then(r, LOST, StopFinish(9), GONE);
  }

  // ---------------------------------------------------------------- a lost edit

  function Dated(status: Status, expiresAt: Option<int>, version: nat, clock: nat, task: Task): State {
    var row := Row(status, DEMO.meta.(expiresAt := expiresAt), 0, version);
    State(Some(row), false, clock, map[1 := task], map[], map[], map[])
  }

  const EXTENDED := Dated(InProgress, Some(5), 8, 9, HOPELESS.tasks[1])
  const REVERTED := Dated(Failed, None, 9, 10, BROKEN.(phase := Returned))

  lemma TaskIsOvertaken() returns (r: Trace)
    ensures RunTo(r, EXTENDED) && NoneSaved(r.es) && |r.es| > 0 && r.es[|r.es| - 1] == Event.Extend(0, 5)
  {
    TrimSpaceFixed("demo");
    r := TaskIsHopeless();
    r := Then(r, HOPELESS, Event.Extend(0, 5), EXTENDED);
  }

  lemma ExtensionIsReverted()
    ensures Steps(EXTENDED, MarkError(1, 0), REVERTED)
  {
    TrimSpaceFixed("demo");
  }

  /** An extension granted in the same window is taken back: from then on the metadata is not
      what the users' edits alone make of it. */
  lemma ErrorSaveRevertsExtension() returns (r: Trace, i: nat)
    ensures IsRun(r.ss, r.es) && i + 1 == |r.es| && i > 0
    ensures r.es[i - 1] == Event.Extend(0, 5) && r.es[i] == MarkError(1, 0)
    ensures r.ss[i] == EXTENDED && r.ss[i + 1] == REVERTED
    ensures !EditsOnly(r.ss, r.es, i + 1) && !RenamedOnly(r.ss, r.es, i)
  {
    r := TaskIsOvertaken();
    i := |r.es|;
    var es := r.es;
    ExtensionIsReverted();
    r := Then(r, EXTENDED, MarkError(1, 0), REVERTED);
    assert r.es[..i] == es;
    EditIsLost(r, i);
  }

  lemma EditIsLost(r: Trace, i: nat)
    requires IsRun(r.ss, r.es) && i + 1 == |r.es| && NoneSaved(r.es[..i]) && UnguardedLands(r.ss[i], r.es[i])
    requires MetaOf(r.ss[i + 1].row) != MetaOf(r.ss[i].row)
    ensures !EditsOnly(r.ss, r.es, i + 1) && !RenamedOnly(r.ss, r.es, i)
  {
    forall j | 0 <= j < i ensures !UnguardedLands(r.ss[j], r.es[j]) { assert r.es[..i][j] == r.es[j]; }
    HarmlessSavesAreInvisible(r.ss, r.es, i);
    assert EditsOnly(r.ss, r.es, i);
    ReplayStep(MetaOf(r.ss[0].row), r.es, i);
    StepInvisibleIff(r.ss, r.es, i);
  }

  // ---------------------------------------------------------------- background saves

  function Halting(status: Status, version: nat, clock: nat, up: bool, stop: Stop, savers: map<int, Saver>): State {
    State(Some(DEMO.(status := status, version := version)), up, clock, map[], map[9 := stop], map[], savers)
  }

  function Busy(clock: nat, savers: map<int, Saver>): State {
    State(Some(DEMO.(status := Running)), true, clock, map[], map[], map[], savers)
  }

  lemma StopGoesDown(r0: Trace, clock: nat, savers: map<int, Saver>) returns (r: Trace)
    requires clock > 0 && RunTo(r0, Busy(clock, savers))
    ensures RunTo(r, Halting(Stopping, clock, clock + 2, false, SavesStopped, savers))
    ensures r.es == r0.es + [StopAccept(9, Running), StopCompose(9)] && r0.ss <= r.ss
  {
    TrimSpaceFixed("demo");
    var accepted := Halting(Stopping, clock, clock + 1, true, Stop.StopsCompose, savers);
    r := Then(r0, Busy(clock, savers), StopAccept(9, Running), accepted);
    r := Then(r, accepted, StopCompose(9), Halting(Stopping, clock, clock + 2, false, SavesStopped, savers));
  }

  /** A stop that is not held up. */
  lemma StopCompletes(r0: Trace, clock: nat, savers: map<int, Saver>) returns (r: Trace)
    requires clock > 0 && RunTo(r0, Busy(clock, savers))
    ensures RunTo(r, Halting(Stopped, clock + 2, clock + 3, false, StopDone, savers))
    ensures r.es == r0.es + [StopAccept(9, Running), StopCompose(9), StopFinish(9)] && r0.ss <= r.ss
  {
    TrimSpaceFixed("demo");
    r := StopGoesDown(r0, clock, savers);
    r := Then(r, Halting(Stopping, clock, clock + 2, false, SavesStopped, savers), StopFinish(9),
              Halting(Stopped, clock + 2, clock + 3, false, StopDone, savers));
  }

  const WATCHED := Busy(2, map[5 := Holding(DEMO.(status := Running), HasChanges)])

  lemma SaverLooks() returns (r: Trace)
    ensures RunTo(r, WATCHED) && |r.es| == 1
  {
    assert Trimmed("demo");
    r := Then(Trace([Busy(1, map[])], []), Busy(1, map[]), Look(5, HasChanges), WATCHED);
  }

  /** So is a stop accepted and completed between the read and the save of a background pass. */
  lemma BackgroundSaveOverridesStop() returns (r: Trace)
    ensures IsRun(r.ss, r.es) && |r.es| == 5 && !NonePending(r.ss[1]) && Settled(r.ss[5])
    ensures r.es[1..] == [StopAccept(9, Running), StopCompose(9), StopFinish(9), SaveBack(5, 0)]
    ensures StatusIs(r.ss[4].row, Stopped) && StatusIs(r.ss[5].row, HasChanges)
  {
    TrimSpaceFixed("demo");
    var first := SaverLooks();
    assert IsOverwriting(first.ss[1], 5);
    r := StopCompletes(first, 2, WATCHED.savers);
    assert r.ss[1] == WATCHED;
    r := Then(r, Halting(Stopped, 4, 5, false, StopDone, WATCHED.savers), SaveBack(5, 0),
              Halting(HasChanges, 5, 6, false, StopDone, map[5 := SaverDone]));
  }

  // ---------------------------------------------------------------- push builds

  const BUILDING := Busy(2, map[5 := Building(true)])

  lemma PushBuildBegins() returns (r: Trace)
    ensures RunTo(r, BUILDING) && |r.es| == 1
  {
    assert Trimmed("demo");
    r := Then(Trace([Busy(1, map[])], []), Busy(1, map[]), PushBegins(5, true), BUILDING);
  }

  const HALTED := Halting(Stopped, 4, 5, false, StopDone, BUILDING.savers)
  const HELD := map[5 := Holding(DEMO.(status := Stopped, version := 4), HasChanges)]
  const BUILT := Halting(Stopped, 4, 6, false, StopDone, HELD)
  const CHANGED := Halting(HasChanges, 6, 7, false, StopDone, map[5 := SaverDone])

  lemma ReadyBuildEnds()
    ensures Steps(HALTED, PushEnds(5), BUILT)
  {
  }

  lemma ReadyBuildSaves()
    ensures Steps(BUILT, SaveBack(5, 0), CHANGED)
  {
    TrimSpaceFixed("demo");
  }

  /** So is a stop accepted and completed while a build for a push is running that turns out ready. */
  lemma PushBuildOverridesStop() returns (r: Trace)
    ensures IsRun(r.ss, r.es) && |r.es| == 6 && r.ss[1] == BUILDING && r.ss[4] == HALTED && r.ss[6] == CHANGED
    ensures r.es[1..] == [StopAccept(9, Running), StopCompose(9), StopFinish(9), PushEnds(5), SaveBack(5, 0)]
    ensures !NonePending(BUILDING) && Settled(CHANGED)
    ensures StatusIs(HALTED.row, Stopped) && StatusIs(CHANGED.row, HasChanges)
  {
    assert IsOverwriting(BUILDING, 5);
    r := PushBuildBegins();
    r := StopCompletes(r, 2, BUILDING.savers);
    ReadyBuildEnds();
    r := Then(r, HALTED, PushEnds(5), BUILT);
    ReadyBuildSaves();
    r := Then(r, BUILT, SaveBack(5, 0), CHANGED);
  }

  const DOOMED := Busy(2, map[5 := Building(false)])
  const STALE := map[5 := Holding(DEMO.(status := Stopping, version := 2), Stopping)]

  const OVERTAKEN := Halting(Stopping, 2, 5, false, SavesStopped, STALE)
  const FINISHED := Halting(Stopped, 5, 6, false, StopDone, STALE)
  const STRANDED := Halting(Stopping, 6, 7, false, StopDone, map[5 := SaverDone])

  lemma DoomedBuildBegins() returns (r: Trace)
    ensures RunTo(r, DOOMED) && |r.es| == 1
  {
    assert Trimmed("demo");
    r := Then(Trace([Busy(1, map[])], []), Busy(1, map[]), PushBegins(5, false), DOOMED);
  }

  const GOING_DOWN := Halting(Stopping, 2, 4, false, SavesStopped, DOOMED.savers)

  lemma FailedBuildEnds()
    ensures Steps(GOING_DOWN, PushEnds(5), OVERTAKEN)
  {
  }

  /** A build for a push begins that is going to fail, and ends while a stop is under way. */
  lemma FailedBuildReadsStopping() returns (r: Trace)
    ensures RunTo(r, OVERTAKEN) && |r.es| == 4 && r.ss[1] == DOOMED
    ensures r.es[1..] == [StopAccept(9, Running), StopCompose(9), PushEnds(5)]
  {
    r := DoomedBuildBegins();
    r := StopGoesDown(r, 2, DOOMED.savers);
    assert r.ss[1] == DOOMED;
    FailedBuildEnds();
    r := Then(r, GOING_DOWN, PushEnds(5), OVERTAKEN);
  }

  lemma StopStillFinishes()
    ensures Steps(OVERTAKEN, StopFinish(9), FINISHED)
  {
    TrimSpaceFixed("demo");
  }

  lemma FailedBuildSaves()
    ensures Steps(FINISHED, SaveBack(5, 0), STRANDED)
  {
    TrimSpaceFixed("demo");
  }

  /** Its save puts `stopping` back after the stop has finished, and nobody is left to finish it:
      the exception of `StopWinsOverDeploy` does occur. */
  lemma FailedPushBuildStrandsStop() returns (r: Trace)
    ensures IsRun(r.ss, r.es) && |r.es| == 6 && r.ss[1] == DOOMED && r.ss[5] == FINISHED && r.ss[6] == STRANDED
    ensures r.es[1..] == [StopAccept(9, Running), StopCompose(9), PushEnds(5), StopFinish(9), SaveBack(5, 0)]
    ensures NonePending(DOOMED) && Settled(STRANDED)
    ensures StatusIs(FINISHED.row, Stopped) && StatusIs(STRANDED.row, Stopping)
  {
    r := FailedBuildReadsStopping();
    StopStillFinishes();
    r := Then(r, OVERTAKEN, StopFinish(9), FINISHED);
    FailedBuildSaves();
    r := Then(r, FINISHED, SaveBack(5, 0), STRANDED);
  }
}
