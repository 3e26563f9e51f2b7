/** The user's metadata over whole runs: deployments and background saves leave no trace in it,
    except where one of the unguarded saves puts back what has been edited since it looked
    (`preserveLatestDeploymentMetadata` and `savePlaygroundErrorState` in
    `internal/worker/deploy_failure.go`, the plain saves in `internal/worker/playguard.go`). */
module MetadataHistory {
  import opened Text
  import opened PlaygroundStore
  import opened Deployment
  import opened DeploymentProgress

  function MetaOf(row: Option<Row>): Option<Meta> {
    if row.Some? then Some(row.value.meta) else None
  }

  function Named(m: Meta, name: string): Meta {
    m.(name := TrimSpace(name))
  }

  /** What a request does to the metadata: an edit, a deletion, or nothing. */
  function UserEdit(m: Option<Meta>, e: Event): Option<Meta> {
    if m.None? then None
    else match e
      case Patch(edit) => Some(Named(Edited(m.value, edit), Edited(m.value, edit).name))
      case Rename(name) => Some(Named(m.value, name))
      case Extend(now, duration) => Some(Extended(m.value, now, duration))
      case DeleteFinish(_) => None
      case _ => m
  }

  /** The metadata that a list of events leaves. */
  function Replay(m: Option<Meta>, es: seq<Event>): Option<Meta> {
    if es == [] then m else UserEdit(Replay(m, es[..|es| - 1]), es[|es| - 1])
  }

  /** Steps of deployments and background saves. */
  predicate IsWorkerEvent(e: Event) {
    IsTaskEvent(e) || e.Spawn? || e.Look? || e.PushBegins? || e.PushEnds? || e.SaveBack?
  }

  /** The events of deployments and background saves taken out. */
  function WithoutWorkers(es: seq<Event>): seq<Event> {
    if es == [] then []
    else if IsWorkerEvent(es[|es| - 1]) then WithoutWorkers(es[..|es| - 1])
    else WithoutWorkers(es[..|es| - 1]) + [es[|es| - 1]]
  }

  /** At position `j` the metadata is what the users' edits alone make of the initial one. */
  ghost predicate EditsOnly(ss: seq<State>, es: seq<Event>, j: nat)
    requires |ss| == |es| + 1 && j < |ss|
  {
    MetaOf(ss[j].row) == Replay(MetaOf(ss[0].row), WithoutWorkers(es[..j]))
  }

  lemma {:induction false} ReplaySplit(m: Option<Meta>, a: seq<Event>, b: seq<Event>)
    ensures Replay(m, a + b) == Replay(Replay(m, a), b)
  {
    if b == [] {
      assert a + b == a;
    } else {
      ReplaySplit(m, a, b[..|b| - 1]);
      assert (a + b)[..|a + b| - 1] == a + b[..|b| - 1];
    }
  }

  lemma {:induction false} WithoutSplit(a: seq<Event>, b: seq<Event>)
    ensures WithoutWorkers(a + b) == WithoutWorkers(a) + WithoutWorkers(b)
  {
    if b == [] {
      assert a + b == a;
    } else {
      WithoutSplit(a, b[..|b| - 1]);
      assert (a + b)[..|a + b| - 1] == a + b[..|b| - 1];
    }
  }

  /** One more event in the replay. */
  lemma ReplayStep(m: Option<Meta>, es: seq<Event>, i: nat)
    requires i < |es|
    ensures Replay(m, WithoutWorkers(es[..i + 1]))
         == if IsWorkerEvent(es[i]) then Replay(m, WithoutWorkers(es[..i]))
             else UserEdit(Replay(m, WithoutWorkers(es[..i])), es[i])
  {
    assert es[..i + 1][..i] == es[..i];
    var rest := WithoutWorkers(es[..i]);
    assert (rest + [es[i]])[..|rest|] == rest;
  }

  // ---------------------------------------------------------------- the unguarded saves

  /** A failed deployment or a background save writes over the row, guarded by nothing. */
  predicate UnguardedLands(s: State, e: Event) {
    (e.MarkError? || e.SaveBack?) && s.row.Some?
  }

  /** `l` is a read of the row for the unguarded save `e`. */
  predicate LooksFor(l: Event, e: Event) {
    || (e.MarkError? && l == Recheck(e.id))
    || (e.SaveBack? && (l.Look? || l.PushEnds?) && l.id == e.id)
  }

  /** Position of the last read for `e` before `i`. */
  function LastLook(es: seq<Event>, e: Event, i: nat): (r: nat)
    requires i <= |es|
    ensures r <= i && (r < i ==> LooksFor(es[r], e)) && forall j :: r < j < i ==> !LooksFor(es[j], e)
  {
    if i == 0 then 0
    else if LooksFor(es[i - 1], e) then i - 1
    else
      var r := LastLook(es, e, i - 1);
      if r == i - 1 then i else r
  }

  /** The row that the save holds. */
  predicate Holds(s: State, e: Event, seen: Row) {
    || (e.MarkError? && e.id in s.tasks && s.tasks[e.id].phase == Marking(seen))
    || (e.SaveBack? && e.id in s.savers && s.savers[e.id].Holding? && s.savers[e.id].seen == seen)
  }

  lemma OnlyRechecksMark(s: State, l: Event, t: int, seen: Row)
    requires Inv(s) && Enabled(s, l) && IsTaskEvent(l) && l.id == t && TaskAfter(s, l).phase == Marking(seen)
    ensures l == Recheck(t) && s.row == Some(seen)
  {
    assert TaskOk(s, s.tasks[t]);
  }

  lemma OnlyLooksHold(s: State, l: Event, e: Event, seen: Row)
    requires Inv(s) && Enabled(s, l) && Holds(Apply(s, l), e, seen) && !Holds(s, e, seen)
    ensures LooksFor(l, e) && s.row == Some(seen)
  {
    if e.MarkError? {
      assert IsTaskEvent(l) && l.id == e.id;
      OnlyRechecksMark(s, l, e.id, seen);
    }
  }

  /** What is held is the row of the last read. */
  lemma {:induction false} HeldIsLastSeen(ss: seq<State>, es: seq<Event>, e: Event, seen: Row, i: nat)
    requires IsRun(ss, es) && i < |ss| && Holds(ss[i], e, seen)
    ensures var r := LastLook(es, e, i); r < i && ss[r].row == Some(seen)
    decreases i
  {
    RunInv(ss, es, i - 1);
    var s, l := ss[i - 1], es[i - 1];
    if !Holds(s, e, seen) {
      OnlyLooksHold(s, l, e, seen);
    } else if LooksFor(l, e) {
      LooksAnew(s, l, e, seen);
    } else {
      HeldIsLastSeen(ss, es, e, seen, i - 1);
    }
  }

  lemma LooksAnew(s: State, l: Event, e: Event, seen: Row)
    requires Enabled(s, l) && LooksFor(l, e)
    ensures !Holds(s, e, seen)
  {
  }

  lemma StepMeta(ss: seq<State>, es: seq<Event>, i: nat)
    requires IsRun(ss, es) && i < |es| && !UnguardedLands(ss[i], es[i])
    ensures MetaOf(ss[i + 1].row)
          == if IsWorkerEvent(es[i]) then MetaOf(ss[i].row) else UserEdit(MetaOf(ss[i].row), es[i])
  {
    RunInv(ss, es, i);
    if Swaps(ss[i], es[i]) {
      ProgressCommits(ss, es, i);
    } else if ss[i].row.Some? {
      TrimSpaceFixed(ss[i].row.value.meta.name);
    }
  }

  /** An unguarded save keeps a concurrent rename and puts back all other metadata as last read. */
  lemma UnguardedSavePutsBack(ss: seq<State>, es: seq<Event>, i: nat)
    requires IsRun(ss, es) && i < |es| && UnguardedLands(ss[i], es[i])
    ensures var r := LastLook(es, es[i], i);
            && r < i && ss[r].row.Some?
            && MetaOf(ss[i + 1].row) == Some(ss[r].row.value.meta.(name := ss[i].row.value.meta.name))
  {
    RunInv(ss, es, i);
    var s, e := ss[i], es[i];
    var seen := if e.MarkError? then s.tasks[e.id].phase.seen else s.savers[e.id].seen;
    HeldIsLastSeen(ss, es, e, seen, i);
    SavedMeta(s, e, seen);
  }

  lemma SavedMeta(s: State, e: Event, seen: Row)
    requires Inv(s) && Enabled(s, e) && UnguardedLands(s, e) && Holds(s, e, seen)
    ensures MetaOf(RowAfter(s, e)) == Some(seen.meta.(name := s.row.value.meta.name))
  {
    if e.MarkError? {
      assert TaskOk(s, s.tasks[e.id]);
    } else {
      assert SaverOk(s, s.savers[e.id]);
    }
    TrimSpaceFixed(s.row.value.meta.name);
  }

  predicate SameButName(a: Option<Meta>, b: Option<Meta>) {
    a.Some? && b.Some? && b.value == a.value.(name := b.value.name)
  }

  /** The users' edits between the last read for the unguarded save at `i` and the save itself
      come to nothing but a rename. */
  ghost predicate RenamedOnly(ss: seq<State>, es: seq<Event>, i: nat)
    requires |ss| == |es| + 1 && i < |es|
  {
    var r := LastLook(es, es[i], i);
    SameButName(MetaOf(ss[r].row), Replay(MetaOf(ss[r].row), WithoutWorkers(es[r..i])))
  }

  /** While the history is the users' own, it can be replayed from any point of it. */
  lemma ReplayFrom(ss: seq<State>, es: seq<Event>, r: nat, i: nat)
    requires IsRun(ss, es) && r <= i < |ss| && EditsOnly(ss, es, r) && EditsOnly(ss, es, i)
    ensures MetaOf(ss[i].row) == Replay(MetaOf(ss[r].row), WithoutWorkers(es[r..i]))
  {
    assert es[..r] + es[r..i] == es[..i];
    WithoutSplit(es[..r], es[r..i]);
    ReplaySplit(MetaOf(ss[0].row), WithoutWorkers(es[..r]), WithoutWorkers(es[r..i]));
  }

  /** The history stays the users' own over one step exactly when that step is no unguarded save
      over other edits than a rename. */
  lemma StepInvisibleIff(ss: seq<State>, es: seq<Event>, i: nat)
    requires IsRun(ss, es) && i < |es| && forall j :: 0 <= j <= i ==> EditsOnly(ss, es, j)
    ensures EditsOnly(ss, es, i + 1) <==> (UnguardedLands(ss[i], es[i]) ==> RenamedOnly(ss, es, i))
  {
    ReplayStep(MetaOf(ss[0].row), es, i);
    assert EditsOnly(ss, es, i);
    if UnguardedLands(ss[i], es[i]) {
      var r := LastLook(es, es[i], i);
      UnguardedSavePutsBack(ss, es, i);
      assert EditsOnly(ss, es, r);
      ReplayFrom(ss, es, r, i);
    } else {
      StepMeta(ss, es, i);
    }
  }

  ghost predicate HistoryIsEdits(ss: seq<State>, es: seq<Event>, k: nat)
    requires |ss| == |es| + 1 && k < |ss|
  {
    forall j :: 0 <= j <= k ==> EditsOnly(ss, es, j)
  }

  ghost predicate SavesAreHarmless(ss: seq<State>, es: seq<Event>, k: nat)
    requires |ss| == |es| + 1 && k < |ss|
  {
    forall i :: 0 <= i < k && UnguardedLands(ss[i], es[i]) ==> RenamedOnly(ss, es, i)
  }

  lemma {:induction false} HarmlessSavesAreInvisible(ss: seq<State>, es: seq<Event>, k: nat)
    requires IsRun(ss, es) && k < |ss| && SavesAreHarmless(ss, es, k)
    ensures HistoryIsEdits(ss, es, k)
    decreases k
  {
    if k == 0 {
      assert es[..0] == [];
    } else {
      HarmlessSavesAreInvisible(ss, es, k - 1);
      StepInvisibleIff(ss, es, k - 1);
    }
  }

  lemma InvisibleSaveIsHarmless(ss: seq<State>, es: seq<Event>, k: nat, i: nat)
    requires IsRun(ss, es) && i < k < |ss| && HistoryIsEdits(ss, es, k) && UnguardedLands(ss[i], es[i])
    ensures RenamedOnly(ss, es, i)
  {
    assert EditsOnly(ss, es, i + 1);
    StepInvisibleIff(ss, es, i);
  }

  /** Main result, for every run: up to position `k` the metadata is at every moment what the
      users' edits alone make of it, so that erasing all steps of deployments and background saves
      leaves the same history, if and only if no unguarded save landed over other edits than a
      rename made since it looked. */
  lemma DeploymentsAreInvisibleIff(ss: seq<State>, es: seq<Event>, k: nat)
    requires IsRun(ss, es) && k < |ss|
    ensures HistoryIsEdits(ss, es, k) <==> SavesAreHarmless(ss, es, k)
  {
    if HistoryIsEdits(ss, es, k) {
      forall i | 0 <= i < k && UnguardedLands(ss[i], es[i]) ensures RenamedOnly(ss, es, i) {
        InvisibleSaveIsHarmless(ss, es, k, i);
      }
    }
    if SavesAreHarmless(ss, es, k) {
      HarmlessSavesAreInvisible(ss, es, k);
    }
  }

  /** Without a landed unguarded save there is no condition left. */
  lemma DeploymentsAreInvisible(ss: seq<State>, es: seq<Event>, k: nat)
    requires IsRun(ss, es) && k < |ss|
    requires forall i :: 0 <= i < k ==> !UnguardedLands(ss[i], es[i])
    ensures EditsOnly(ss, es, k)
  {
    HarmlessSavesAreInvisible(ss, es, k);
  }

  // ---------------------------------------------------------------- the condition, by events

  /** The event leaves all metadata but the name alone, whatever it is applied to. */
  predicate LeavesAllButName(e: Event) {
    && !e.Extend? && !e.DeleteFinish?
    && (e.Patch? ==> e.edit == Edit(e.edit.name, None, None, None, None, KeepExpiry))
  }

  predicate Quiet(es: seq<Event>) {
    forall e :: e in es ==> LeavesAllButName(e)
  }

  lemma {:induction false} QuietReplay(m: Option<Meta>, es: seq<Event>)
    requires m.Some? && Quiet(es)
    ensures SameButName(m, Replay(m, WithoutWorkers(es)))
  {
    if es != [] {
      var n := |es| - 1;
      assert es[n] in es && Quiet(es[..n]);
      QuietReplay(m, es[..n]);
      ReplayStep(m, es, n);
      assert es[..n + 1] == es;
    }
  }

  lemma LookedAtRow(ss: seq<State>, es: seq<Event>, i: nat)
    requires IsRun(ss, es) && i < |es| && UnguardedLands(ss[i], es[i])
    ensures LastLook(es, es[i], i) < i && MetaOf(ss[LastLook(es, es[i], i)].row).Some?
  {
    UnguardedSavePutsBack(ss, es, i);
  }

  /** A save is harmless when no PATCH of more than the name and no extension came between its
      read and itself. */
  lemma QuietWindowIsHarmless(ss: seq<State>, es: seq<Event>, i: nat)
    requires IsRun(ss, es) && i < |es| && UnguardedLands(ss[i], es[i])
    requires Quiet(es[LastLook(es, es[i], i)..i])
    ensures RenamedOnly(ss, es, i)
  {
    LookedAtRow(ss, es, i);
    var r := LastLook(es, es[i], i);
    QuietReplay(MetaOf(ss[r].row), es[r..i]);
  }
}
