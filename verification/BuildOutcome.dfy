/** What workers of `BuildReuse` achieve: whose commit and image a finished record carries, and
    that an equivalent second build does reuse the first, finished or in flight. */
module BuildOutcome {
  import opened Text
  import opened BuildReuse

  // ---------------------------------------------------------------- every run

  /** The worker's record was created for this plan. */
  ghost predicate CreatedAt(ss: seq<State>, es: seq<Event>, w: int, id: int, plan: Plan, c: nat) {
    c < |ss| && c < |es| && es[c].Create? && es[c].worker == w && es[c].plan == plan && ss[c].nextId == id
  }

  /** A worker has just been created, or it has kept its record and plan, and what it had resolved. */
  predicate KeepsTo(s: State, e: Event, s': State, w: int) {
    w in s'.workers && !s'.workers[w].Finished? ==>
      var p' := s'.workers[w];
      if e.worker == w && e.Create? then p'.Created? && p'.plan == e.plan && p'.id == s.nextId
      else
        && w in s.workers && !s.workers[w].Finished?
        && var p := s.workers[w];
           && p'.id == p.id && p'.plan == p.plan
           && (if e.worker == w && e.Resolve? then p'.Resolved? && p'.commit == e.commit && p'.imageRef == e.imageRef
               else
                 && p'.Created? == p.Created? && (p.Reusing? ==> p'.Reusing?)
                 && (!p'.Created? ==> p'.commit == p.commit)
                 && (!p'.Created? && !p'.Reusing? ==> p'.imageRef == p.imageRef))
  }

  lemma StepsKeepTo(s: State, e: Event, w: int)
    requires Enabled(s, e)
    ensures KeepsTo(s, e, Apply(s, e), w)
  {
  }

  /** What a worker knows is what it was created for, and what it resolved. */
  lemma {:induction false} WorkerHistory(ss: seq<State>, es: seq<Event>, w: int, i: nat) returns (c: nat, r: nat)
    requires IsRun(ss, es) && i < |ss| && w in ss[i].workers && !ss[i].workers[w].Finished?
    ensures var p := ss[i].workers[w];
            && c < i && CreatedAt(ss, es, w, p.id, p.plan, c)
            && (!p.Created? ==> c < r < i && es[r].Resolve? && es[r].worker == w && es[r].commit == p.commit
                                && (!p.Reusing? ==> es[r].imageRef == p.imageRef))
  {
    forall k | 0 <= k < |es| ensures KeepsTo(ss[k], es[k], ss[k + 1], w) { StepsKeepTo(ss[k], es[k], w); }
    c, r := HistoryBack(ss, es, w, i);
  }

  lemma {:induction false} HistoryBack(ss: seq<State>, es: seq<Event>, w: int, i: nat) returns (c: nat, r: nat)
    requires |ss| == |es| + 1 && forall k :: 0 <= k < |es| ==> KeepsTo(ss[k], es[k], ss[k + 1], w)
    requires i < |ss| && w !in ss[0].workers && w in ss[i].workers && !ss[i].workers[w].Finished?
    ensures var p := ss[i].workers[w];
            && c < i && CreatedAt(ss, es, w, p.id, p.plan, c)
            && (!p.Created? ==> c < r < i && es[r].Resolve? && es[r].worker == w && es[r].commit == p.commit
                                && (!p.Reusing? ==> es[r].imageRef == p.imageRef))
    decreases i
  {
    assert KeepsTo(ss[i - 1], es[i - 1], ss[i - 1 + 1], w);
    if es[i - 1].worker == w && es[i - 1].Create? {
      c, r := i - 1, i;
    } else {
      c, r := HistoryBack(ss, es, w, i - 1);
      if es[i - 1].worker == w && es[i - 1].Resolve? { r := i - 1; }
    }
  }

  /** Main result, for every run: a worker that finishes its own image build leaves its record
      successful, with the plan it was created for and the commit and image it had resolved. */
  lemma FinishedBuildIsRecorded(ss: seq<State>, es: seq<Event>, j: nat) returns (c: nat, r: nat)
    requires IsRun(ss, es) && j < |es| && es[j].FinishBuild?
    ensures c < r < j && r < |es| && c < |es| && es[r].Resolve? && es[r].worker == es[j].worker
    ensures var id := ss[c].nextId;
            && es[c].Create? && CreatedAt(ss, es, es[j].worker, id, es[c].plan, c) && id in ss[j + 1].db
            && var record := ss[j + 1].db[id];
               && record.status == Success && !record.reused && record.plan == es[c].plan
               && record.commit == es[r].commit && record.imageRef == es[r].imageRef
               && id in ss[j + 1].started
  {
    RunInv(ss, es, j);
    RunInv(ss, es, j + 1);
    var p := ss[j].workers[es[j].worker];
    assert WorkerInv(ss[j], p);
    c, r := WorkerHistory(ss, es, es[j].worker, j);
    TrimSpaceFixed(p.commit);
    TrimSpaceFixed(p.imageRef);
    assert RecordInv(ss[j + 1], p.id);
  }

  predicate Takes(e: Event) {
    e.TakeSuccess? || e.TakeBuilding? || e.PollFinds?
  }

  /** What a worker takes has an image reference and is finished, or is another's build begun within
      45 minutes, whose image is there already; it waits for just such builds, and skips all others. */
  lemma TakenIsReady(ss: seq<State>, es: seq<Event>, i: nat)
    requires IsRun(ss, es) && i < |es| && (Takes(es[i]) || es[i].Wait? || es[i].Skip?)
    ensures es[i].worker in ss[i].workers && es[i].worker in ss[i + 1].workers
    ensures var p, p' := ss[i].workers[es[i].worker], ss[i + 1].workers[es[i].worker];
            && (p.Checking? || p.Waiting?)
            && (Takes(es[i]) ==> p'.Reusing? && TrimSpace(p'.source.record.imageRef) != "")
            && (es[i].TakeSuccess? || es[i].PollFinds? ==> p'.source.record.status == Success)
            && (es[i].TakeBuilding? ==> InFlight(p'.source, p.id, p.now))
            && (es[i].Wait? ==> p.next < |p.candidates| && InFlight(p.candidates[p.next], p.id, p.now))
            && (es[i].Skip? ==> p.next < |p.candidates| && !InFlight(p.candidates[p.next], p.id, p.now))
  {
  }

  /** The source of a worker about to reuse an image has an image reference. */
  predicate SourceKept(s: State, e: Event, s': State, w: int) {
    w in s'.workers && s'.workers[w].Reusing? ==>
      (e.worker == w && Takes(e) && TrimSpace(s'.workers[w].source.record.imageRef) != "")
      || (w in s.workers && s.workers[w] == s'.workers[w])
  }

  lemma StepsKeepSource(s: State, e: Event, w: int)
    requires Enabled(s, e)
    ensures SourceKept(s, e, Apply(s, e), w)
  {
  }

  lemma {:induction false} SourceHasImage(ss: seq<State>, es: seq<Event>, w: int, i: nat)
    requires IsRun(ss, es) && i < |ss| && w in ss[i].workers && ss[i].workers[w].Reusing?
    ensures TrimSpace(ss[i].workers[w].source.record.imageRef) != ""
    decreases i
  {
    StepsKeepSource(ss[i - 1], es[i - 1], w);
    if w in ss[i - 1].workers && ss[i - 1].workers[w] == ss[i].workers[w] {
      SourceHasImage(ss, es, w, i - 1);
    }
  }

  /** Main result, for every run: a worker that reuses an image leaves its record successful, with
      its own plan and resolved commit, and with the image of an equivalent record of that commit. */
  lemma ReuseIsRecorded(ss: seq<State>, es: seq<Event>, j: nat) returns (c: nat, r: nat, source: int)
    requires IsRun(ss, es) && j < |es| && es[j].SaveReused?
    ensures c < r < j && r < |es| && c < |es| && es[r].Resolve? && es[r].worker == es[j].worker
    ensures var id := ss[c].nextId;
            && es[c].Create? && CreatedAt(ss, es, es[j].worker, id, es[c].plan, c)
            && id in ss[j + 1].db && source in ss[j + 1].db
            && var record, origin := ss[j + 1].db[id], ss[j + 1].db[source];
               && record.status == Success && record.reused && record.reusedFrom == Some(source)
               && record.plan == es[c].plan && record.commit == es[r].commit
               && record.imageRef == origin.imageRef && TrimSpace(record.imageRef) != ""
               && source != id && Asked(record.plan, record.commit, origin)
  {
    RunInv(ss, es, j);
    RunInv(ss, es, j + 1);
    var p := ss[j].workers[es[j].worker];
    assert WorkerInv(ss[j], p);
    c, r := WorkerHistory(ss, es, es[j].worker, j);
    SourceHasImage(ss, es, es[j].worker, j);
    source := p.source.id;
    assert Provenance(ss[j + 1], p.id) && RecordInv(ss[j + 1], p.id);
  }

  // ---------------------------------------------------------------- an equivalent second build

  /** A run so far. */
  datatype Trace = Trace(ss: seq<State>, es: seq<Event>)

  ghost predicate RunTo(r: Trace, s: State) {
    IsRun(r.ss, r.es) && r.ss[|r.es|] == s
  }

  lemma Then(r: Trace, s: State, e: Event, s': State) returns (r': Trace)
    requires RunTo(r, s) && Enabled(s, e) && Apply(s, e) == s'
    ensures RunTo(r', s') && r' == Trace(r.ss + [s'], r.es + [e])
  {
    r' := Trace(r.ss + [s'], r.es + [e]);
    forall i | 0 <= i < |r'.es| ensures Enabled(r'.ss[i], r'.es[i]) && r'.ss[i + 1] == Apply(r'.ss[i], r'.es[i]) {
      if i < |r.es| {
        assert r'.ss[i] == r.ss[i] && r'.es[i] == r.es[i] && r'.ss[i + 1] == r.ss[i + 1];
      }
    }
  }

  /** A commit or an image reference as it is resolved. */
  predicate Resolvable(s: string) {
    s != "" && Trimmed(s)
  }

  function Started(plan: Plan, commit: string, image: string, now: int): Record {
    Record(plan, commit, Building, image, false, None, now)
  }

  /** The state with worker 1 building. */
  function FirstRunning(plan: Plan, commit: string, image: string, now: int): State {
    State(map[1 := Started(plan, commit, image, now)], 2, map[1 := Running(1, plan, commit, image)], map[1 := 0],
          {1}, 1)
  }

  function First(plan: Plan, now: int, p: Worker): State {
    State(map[1 := NewPendingRecord(plan, now)], 2, map[1 := p], map[], {}, 0)
  }

  lemma FirstResolves(plan: Plan, commit: string, image: string, now: int) returns (r: Trace)
    requires Resolvable(commit) && Resolvable(image)
    ensures RunTo(r, First(plan, now, Resolved(1, plan, commit, image)))
    ensures r.es == [Create(1, plan, now), Resolve(1, commit, image)]
  {
    r := Then(Trace([EMPTY], []), EMPTY, Create(1, plan, now), First(plan, now, Created(1, plan)));
    r := Then(r, First(plan, now, Created(1, plan)), Resolve(1, commit, image),
              First(plan, now, Resolved(1, plan, commit, image)));
  }

  /** With no earlier record, a worker looks for one in vain and starts to build. */
  lemma FirstStarts(plan: Plan, commit: string, image: string, now: int) returns (r: Trace)
    requires Resolvable(commit) && Resolvable(image)
    ensures RunTo(r, FirstRunning(plan, commit, image, now))
    ensures r.es == [Create(1, plan, now), Resolve(1, commit, image), List(1, now), StartBuild(1)]
  {
    r := FirstResolves(plan, commit, image, now);
    NothingListed(map[1 := NewPendingRecord(plan, now)], plan, commit, 2);
    var checking := First(plan, now, Checking(1, plan, commit, image, [], 0, now));
    r := Then(r, First(plan, now, Resolved(1, plan, commit, image)), List(1, now), checking);
    r := Then(r, checking, StartBuild(1), FirstRunning(plan, commit, image, now));
  }

  lemma {:induction false} NothingListed(db: map<int, Record>, plan: Plan, commit: string, bound: nat)
    requires forall id :: id in db ==> db[id].status == Pending
    ensures Listing(db, plan, commit, bound) == []
  {
    if bound > 0 { NothingListed(db, plan, commit, bound - 1); }
  }

  lemma OneListed(db: map<int, Record>, plan: Plan, commit: string)
    requires db.Keys == {1, 2} && db[2].status == Pending
    requires db[1].status == Success || db[1].status == Building
    requires Asked(plan, commit, db[1])
    ensures Listing(db, plan, commit, 3) == [Candidate(1, db[1])]
  {
    assert 0 !in db.Keys && 1 in db.Keys && 2 in db.Keys;
    assert Listing(db, plan, commit, 1) == [];
    assert Listing(db, plan, commit, 2) == [Candidate(1, db[1])];
  }

  /** Worker 1 with its record, and worker 2 with its own pending one. */
  function Two(first: Record, p: Worker, plan: Plan, now: int, q: Worker, clock: nat): State {
    State(map[1 := first, 2 := NewPendingRecord(plan, now)], 3, map[1 := p, 2 := q], map[1 := 0], {1}, clock)
  }

  /** The second worker comes, for an equivalent build of the same commit, and lists the first's record. */
  lemma SecondLists(r0: Trace, first: Record, p: Worker, clock: nat, plan: Plan, commit: string, image: string,
        now: int)
      returns (r: Trace)
    requires RunTo(r0, State(map[1 := first], 2, map[1 := p], map[1 := 0], {1}, clock))
    requires Resolvable(commit) && Resolvable(image) && Asked(plan, commit, first)
    requires first.status == Success || first.status == Building
    ensures RunTo(r, Two(first, p, plan, now, Checking(2, plan, commit, image, [Candidate(1, first)], 0, now), clock))
    ensures r.es == r0.es + [Create(2, plan, now), Resolve(2, commit, image), List(2, now)]
  {
    var before := State(map[1 := first], 2, map[1 := p], map[1 := 0], {1}, clock);
    var created := Two(first, p, plan, now, Created(2, plan), clock);
    r := Then(r0, before, Create(2, plan, now), created);
    var resolved := Two(first, p, plan, now, Resolved(2, plan, commit, image), clock);
    r := Then(r, created, Resolve(2, commit, image), resolved);
    OneListed(resolved.db, plan, commit);
    r := Then(r, resolved, List(2, now),
              Two(first, p, plan, now, Checking(2, plan, commit, image, [Candidate(1, first)], 0, now), clock));
  }

  lemma SecondReuses(r0: Trace, first: Record, clock: nat, plan: Plan, commit: string, now: int) returns (r: Trace)
    requires first.status == Success
    requires RunTo(r0, Two(first, Finished, plan, now, Reusing(2, plan, commit, Candidate(1, first)), clock))
    ensures IsRun(r.ss, r.es) && r.es == r0.es + [SaveReused(2)]
    ensures r.ss[|r.es|].db
         == map[1 := first, 2 := Record(plan, commit, Success, first.imageRef, true, Some(1), now)]
  {
    var before := Two(first, Finished, plan, now, Reusing(2, plan, commit, Candidate(1, first)), clock);
    r := Then(r0, before, SaveReused(2), Apply(before, SaveReused(2)));
  }

  lemma FirstFinishes(plan: Plan, commit: string, image: string, now: int)
    requires Resolvable(commit) && Resolvable(image)
    ensures Enabled(FirstRunning(plan, commit, image, now), FinishBuild(1))
    ensures Apply(FirstRunning(plan, commit, image, now), FinishBuild(1))
         == State(map[1 := Record(plan, commit, Success, image, false, None, now)], 2, map[1 := Finished],
                  map[1 := 0], {1}, 2)
  {
    TrimSpaceFixed(commit);
    TrimSpaceFixed(image);
  }

  /** Main result: for any two plans of one scope, branch, digest and platform, and any commit, there
      is a run in which the first builds and the second, coming later, ends with the first's image. */
  lemma FinishedBuildIsReused(a: Plan, b: Plan, commit: string, image: string, own: string, now: int, later: int)
      returns (r: Trace)
    requires Resolvable(commit) && Resolvable(image) && Resolvable(own)
    requires Asked(b, commit, Record(a, commit, Success, image, false, None, now))
    ensures IsRun(r.ss, r.es)
    ensures r.es == [Create(1, a, now), Resolve(1, commit, image), List(1, now), StartBuild(1), FinishBuild(1)]
                    + [Create(2, b, later), Resolve(2, commit, own), List(2, later), TakeSuccess(2, 0), SaveReused(2)]
    ensures r.ss[|r.es|].db == map[1 := Record(a, commit, Success, image, false, None, now),
                                   2 := Record(b, commit, Success, image, true, Some(1), later)]
  {
    r := FirstStarts(a, commit, image, now);
    FirstFinishes(a, commit, image, now);
    var first := Record(a, commit, Success, image, false, None, now);
    r := Then(r, FirstRunning(a, commit, image, now), FinishBuild(1),
              State(map[1 := first], 2, map[1 := Finished], map[1 := 0], {1}, 2));
    r := SecondLists(r, first, Finished, 2, b, commit, own, later);
    TrimSpaceFixed(image);
    r := Then(r, Two(first, Finished, b, later, Checking(2, b, commit, own, [Candidate(1, first)], 0, later), 2),
              TakeSuccess(2, 0), Two(first, Finished, b, later, Reusing(2, b, commit, Candidate(1, first)), 2));
    r := SecondReuses(r, first, 2, b, commit, later);
  }

  lemma FirstFinishesForSecond(a: Plan, b: Plan, commit: string, image: string, now: int, later: int, q: Worker)
    requires Resolvable(commit) && Resolvable(image)
    ensures var s := Two(Started(a, commit, image, now), Running(1, a, commit, image), b, later, q, 1);
            && Enabled(s, FinishBuild(1))
            && Apply(s, FinishBuild(1))
               == Two(Record(a, commit, Success, image, false, None, now), Finished, b, later, q, 2)
  {
    TrimSpaceFixed(commit);
    TrimSpaceFixed(image);
  }

  /** The second waits for the first, and finds its record finished. */
  lemma SecondWaits(r0: Trace, a: Plan, b: Plan, commit: string, image: string, own: string, now: int, later: int)
      returns (r: Trace)
    requires Resolvable(commit) && Resolvable(image) && later - now <= 2700
    requires var running := Started(a, commit, image, now);
             RunTo(r0, Two(running, Running(1, a, commit, image), b, later,
                           Checking(2, b, commit, own, [Candidate(1, running)], 0, later), 1))
    ensures var first := Record(a, commit, Success, image, false, None, now);
            RunTo(r, Two(first, Finished, b, later, Reusing(2, b, commit, Candidate(1, first)), 2))
    ensures r.es == r0.es + [Wait(2), FinishBuild(1), PollFinds(2)]
  {
    var running, first := Started(a, commit, image, now), Record(a, commit, Success, image, false, None, now);
    var p, listed := Running(1, a, commit, image), [Candidate(1, running)];
    var waiting := Waiting(2, b, commit, own, listed, 0, later);
    r := Then(r0, Two(running, p, b, later, Checking(2, b, commit, own, listed, 0, later), 1), Wait(2),
              Two(running, p, b, later, waiting, 1));
    FirstFinishesForSecond(a, b, commit, image, now, later, waiting);
    r := Then(r, Two(running, p, b, later, waiting, 1), FinishBuild(1), Two(first, Finished, b, later, waiting, 2));
    PollSeesFirst(first, b, commit, own, listed, later);
    r := Then(r, Two(first, Finished, b, later, waiting, 2), PollFinds(2),
              Two(first, Finished, b, later, Reusing(2, b, commit, Candidate(1, first)), 2));
  }

  lemma PollSeesFirst(first: Record, b: Plan, commit: string, own: string, listed: seq<Candidate>, later: int)
    requires listed != [] && listed[0].id == 1 && first.status == Success && Resolvable(first.imageRef)
    ensures var s := Two(first, Finished, b, later, Waiting(2, b, commit, own, listed, 0, later), 2);
            && Enabled(s, PollFinds(2))
            && Apply(s, PollFinds(2))
               == Two(first, Finished, b, later, Reusing(2, b, commit, Candidate(1, first)), 2)
  {
    TrimSpaceFixed(first.imageRef);
    assert Polls(Two(first, Finished, b, later, Waiting(2, b, commit, own, listed, 0, later), 2), 2, 1);
  }

  /** Main result: and when the second comes while the first is building, no more than 45 minutes
      after it began, there is a run in which it waits for it and ends with its image. */
  lemma BuildInFlightIsReused(a: Plan, b: Plan, commit: string, image: string, own: string, now: int, later: int)
      returns (r: Trace)
    requires Resolvable(commit) && Resolvable(image) && Resolvable(own) && later - now <= 2700
    requires Asked(b, commit, Record(a, commit, Success, image, false, None, now))
    ensures IsRun(r.ss, r.es)
    ensures r.es == [Create(1, a, now), Resolve(1, commit, image), List(1, now), StartBuild(1)]
                    + [Create(2, b, later), Resolve(2, commit, own), List(2, later)]
                    + [Wait(2), FinishBuild(1), PollFinds(2)] + [SaveReused(2)]
    ensures r.ss[|r.es|].db == map[1 := Record(a, commit, Success, image, false, None, now),
                                   2 := Record(b, commit, Success, image, true, Some(1), later)]
  {
    var running := Started(a, commit, image, now);
    r := FirstStarts(a, commit, image, now);
    r := SecondLists(r, running, Running(1, a, commit, image), 1, b, commit, own, later);
    r := SecondWaits(r, a, b, commit, image, own, now, later);
    r := SecondReuses(r, Record(a, commit, Success, image, false, None, now), 2, b, commit, later);
  }
}
