/** Build records: creation, reuse of equivalent builds, waiting on builds in flight, and
    fresh builds (`internal/worker/builds.go`, `internal/storage/store_build_records.go`,
    record shapes in `internal/buildrecord/plans.go`), for any number of workers. */
module BuildReuse {
  import opened Text

  datatype Status = Pending | Building | Success | Failed

  /** The immutable part of a build: where it is asked for and what identifies its image. */
  datatype Plan = Plan(propId: Option<int>, playgroundId: int, serviceName: string, branch: string, digest: string,
        platform: string)

  /** A stored record.  `reusedFrom` is the record id that the log line of a reused record names. */
  datatype Record = Record(plan: Plan, commit: string, status: Status, imageRef: string, reused: bool,
        reusedFrom: Option<int>, startedAt: int)

  datatype Candidate = Candidate(id: int, record: Record)

  function NewPendingRecord(plan: Plan, now: int): Record {
    Record(plan, "", Pending, "", false, None, now)
  }

  /** Prop, or playground and service when there is no Prop. */
  predicate SameScope(a: Plan, b: Plan) {
    if a.propId.Some? then b.propId == a.propId
    else b.propId.None? && b.playgroundId == a.playgroundId && b.serviceName == a.serviceName
  }

  /** Same scope, branch, identity digest and platform. */
  predicate Equivalent(a: Plan, b: Plan) {
    SameScope(a, b) && a.branch == b.branch && a.digest == b.digest && a.platform == b.platform
  }

  /** `ListReusableBuildRecords`' condition. */
  predicate Reusable(plan: Plan, commit: string, r: Record) {
    Equivalent(plan, r.plan) && r.commit == commit && (r.status == Success || r.status == Building)
  }

  /** `ListReusableBuildRecords` over the ids below `bound`, newest first. */
  function Listing(db: map<int, Record>, plan: Plan, commit: string, bound: nat): seq<Candidate> {
    if bound == 0 then []
    else if bound - 1 in db && Reusable(plan, commit, db[bound - 1]) then
      [Candidate(bound - 1, db[bound - 1])] + Listing(db, plan, commit, bound - 1)
    else Listing(db, plan, commit, bound - 1)
  }

  /** The record is of this commit, branch, identity digest and platform, and of the same Prop, or
      when there is none, of the same playground and service. */
  predicate Asked(plan: Plan, commit: string, r: Record) {
    && r.commit == commit && r.plan.branch == plan.branch && r.plan.digest == plan.digest
    && r.plan.platform == plan.platform && r.plan.propId == plan.propId
    && (plan.propId.None? ==> r.plan.playgroundId == plan.playgroundId && r.plan.serviceName == plan.serviceName)
  }

  /** The listing holds exactly the reusable stored records, each once, by descending id. */
  lemma {:induction false} ListingIsQuery(db: map<int, Record>, plan: Plan, commit: string, bound: nat)
    ensures var l := Listing(db, plan, commit, bound);
            && (forall c ::
                  c in l <==> (0 <= c.id < bound && c.id in db && c.record == db[c.id]
                               && (c.record.status == Success || c.record.status == Building)
                               && Asked(plan, commit, c.record)))
            && (forall i, j :: 0 <= i < j < |l| ==> l[i].id > l[j].id)
  {
    if bound > 0 {
      ListingIsQuery(db, plan, commit, bound - 1);
      var l, rest := Listing(db, plan, commit, bound), Listing(db, plan, commit, bound - 1);
      forall i, j | 0 <= i < j < |l| ensures l[i].id > l[j].id {
        assert l[j] in rest;
        if l != rest && i == 0 { assert l[0].id == bound - 1; }
      }
    }
  }

  // ---------------------------------------------------------------- protocol state

  /** What a worker knows: its record's id, the commit and image it resolved, and how far it is.
      `now` is the time at which it started looking at builds in flight. */
  datatype Worker =
    | Created(id: int, plan: Plan)
    | Resolved(id: int, plan: Plan, commit: string, imageRef: string)
    | Checking(id: int, plan: Plan, commit: string, imageRef: string, candidates: seq<Candidate>, next: nat, now: int)
    | Waiting(id: int, plan: Plan, commit: string, imageRef: string, candidates: seq<Candidate>, next: nat, now: int)
    | Reusing(id: int, plan: Plan, commit: string, source: Candidate)
    | Running(id: int, plan: Plan, commit: string, imageRef: string)
    | Finished

  /** Record ids are handed out in order and never given back.  For the specification only,
      `left` numbers records by when they stopped being pending, and `started` holds those
      whose own image build was started. */
  datatype State = State(db: map<int, Record>, nextId: nat, workers: map<int, Worker>, left: map<int, nat>,
        started: set<int>, clock: nat)

  const EMPTY := State(map[], 1, map[], map[], {}, 0)

  datatype Event =
    | Create(worker: int, plan: Plan, now: int)
    | Resolve(worker: int, commit: string, imageRef: string)
    | ResolveFails(worker: int, commit: string)
    | List(worker: int, now: int)
    | TakeSuccess(worker: int, index: nat)          // first pass: a finished build whose image is there
    | TakeBuilding(worker: int)                     // second pass: still building, but its image is there
    | Wait(worker: int)                             // second pass: poll it
    | Skip(worker: int)                             // second pass: not worth waiting for
    | PollFinds(worker: int)                        // the polled build succeeded and its image is there
    | PollEnds(worker: int)                         // failed, gone, image missing, or deadline
    | SaveReused(worker: int)
    | StartBuild(worker: int)
    | FinishBuild(worker: int)
    | Fail(worker: int)                             // any error recorded on the worker's own record
    | Abandon(worker: int)                          // an error that is not recorded, or a crash

  /** 45 minutes, in seconds. */
  const STALE := 2700

  /** A candidate is polled every two seconds until the same time limit. */
  const MAX_POLLS := 1350

  /** `waitForReusableBuildCandidates` considers this candidate. */
  predicate WorthWaiting(c: Candidate, currentId: int, now: int) {
    c.id != currentId && c.record.status == Building && c.record.startedAt >= now - STALE
  }

  predicate HasImage(r: Record, status: Status) {
    r.status == status && TrimSpace(r.imageRef) != ""
  }

  /** The worker is in its pass over builds in flight and has a candidate to look at. */
  predicate AtCandidate(s: State, w: int) {
    w in s.workers && s.workers[w].Checking? && s.workers[w].next < |s.workers[w].candidates|
  }

  /** The record that a waiting worker polls. */
  predicate Polls(s: State, w: int, id: int) {
    && w in s.workers && s.workers[w].Waiting? && s.workers[w].next < |s.workers[w].candidates|
    && s.workers[w].candidates[s.workers[w].next].id == id
  }

  predicate Enabled(s: State, e: Event) {
    var known := e.worker in s.workers;
    match e
    case Create(w, _, _) => !known
    case Resolve(w, commit, imageRef) => known && s.workers[w].Created? && commit != "" && Trimmed(commit)
          && imageRef != "" && Trimmed(imageRef)
    case ResolveFails(w, _) => known && s.workers[w].Created? && s.workers[w].id in s.db
    case List(w, _) => known && s.workers[w].Resolved?
    case TakeSuccess(w, i) =>
      known && s.workers[w].Checking? && s.workers[w].next == 0 && i < |s.workers[w].candidates|
          && HasImage(s.workers[w].candidates[i].record, Success)
    case TakeBuilding(w) =>
      && AtCandidate(s, w)
      && var p := s.workers[w];
         WorthWaiting(p.candidates[p.next], p.id, p.now) && HasImage(p.candidates[p.next].record, Building)
    case Wait(w) =>
      AtCandidate(s, w) && var p := s.workers[w]; WorthWaiting(p.candidates[p.next], p.id, p.now)
    case Skip(w) =>
      AtCandidate(s, w) && var p := s.workers[w]; !WorthWaiting(p.candidates[p.next], p.id, p.now)
    case PollFinds(w) =>
      known && s.workers[w].Waiting? && exists id :: id in s.db && Polls(s, w, id) && HasImage(s.db[id], Success)
    case PollEnds(w) => known && s.workers[w].Waiting?
    case SaveReused(w) => known && s.workers[w].Reusing? && s.workers[w].id in s.db
    case StartBuild(w) => known && s.workers[w].Checking? && !AtCandidate(s, w) && s.workers[w].id in s.db
    case FinishBuild(w) => known && s.workers[w].Running? && s.workers[w].id in s.db
    case Fail(w) =>
      && known && (s.workers[w].Resolved? || s.workers[w].Checking? || s.workers[w].Waiting? || s.workers[w].Running?)
      && s.workers[w].id in s.db
    case Abandon(w) => known && !s.workers[w].Finished?
  }

  function Move(s: State, w: int, worker: Worker): State {
    s.(workers := s.workers[w := worker])
  }

  /** The worker saves its own record. */
  function Save(s: State, w: int, worker: Worker, id: int, r: Record): State {
    s.(db := s.db[id := r], workers := s.workers[w := worker],
       left := if id in s.left || r.status == Pending then s.left else s.left[id := s.clock],
       started := if r.status == Building then s.started + {id} else s.started,
       clock := s.clock + 1)
  }

  /** What the worker's copy of its record holds when it saves it without having reused an image. */
  function Own(s: State, p: Worker, commit: string, imageRef: string, status: Status): Record
    requires !p.Finished? && p.id in s.db
  {
    Record(p.plan, commit, status, imageRef, false, None, s.db[p.id].startedAt)
  }

  function ReusedRecord(s: State, p: Worker): Record
    requires p.Reusing? && p.id in s.db
  {
    Record(p.plan, p.commit, Success, p.source.record.imageRef, true, Some(p.source.id), s.db[p.id].startedAt)
  }

  function Apply(s: State, e: Event): State
    requires Enabled(s, e)
  {
    var w := e.worker;
    if e.Create? then
      s.(db := s.db[s.nextId := NewPendingRecord(e.plan, e.now)], nextId := s.nextId + 1,
          workers := s.workers[w := Created(s.nextId, e.plan)])
    else
      var p := s.workers[w];
      match e
      case Resolve(_, commit, imageRef) => Move(s, w, Resolved(p.id, p.plan, commit, imageRef))
      case ResolveFails(_, commit) => Save(s, w, Finished, p.id, Own(s, p, commit, "", Failed))
      case List(_, now) => Move(s, w,
            Checking(p.id, p.plan, p.commit, p.imageRef, Listing(s.db, p.plan, p.commit, s.nextId), 0, now))
      case TakeSuccess(_, i) => Move(s, w, Reusing(p.id, p.plan, p.commit, p.candidates[i]))
      case TakeBuilding(_) => Move(s, w, Reusing(p.id, p.plan, p.commit, p.candidates[p.next]))
      case Wait(_) => Move(s, w, Waiting(p.id, p.plan, p.commit, p.imageRef, p.candidates, p.next, p.now))
      case Skip(_) => Move(s, w, Checking(p.id, p.plan, p.commit, p.imageRef, p.candidates, p.next + 1, p.now))
      case PollFinds(_) =>
        var id := p.candidates[p.next].id;
        Move(s, w, Reusing(p.id, p.plan, p.commit, Candidate(id, s.db[id])))
      case PollEnds(_) => Move(s, w, Checking(p.id, p.plan, p.commit, p.imageRef, p.candidates, p.next + 1, p.now))
      case SaveReused(_) => Save(s, w, Finished, p.id, ReusedRecord(s, p))
      case StartBuild(_) => Save(s, w, Running(p.id, p.plan, p.commit, p.imageRef), p.id,
            Own(s, p, p.commit, p.imageRef, Building))
      case FinishBuild(_) => Save(s, w, Finished, p.id, Own(s, p, TrimSpace(p.commit), TrimSpace(p.imageRef), Success))
      case Fail(_) => Save(s, w, Finished, p.id, Own(s, p, p.commit, p.imageRef, Failed))
      case Abandon(_) => Move(s, w, Finished)
  }

  // ---------------------------------------------------------------- the invariant

  /** The worker has not saved its record yet. */
  predicate Unsaved(p: Worker) {
    p.Created? || p.Resolved? || p.Checking? || p.Waiting? || p.Reusing?
  }

  /** What a snapshot still says about the stored record: it has left pending, it was built or
      itself reused, and its build, commit and image are the ones listed. */
  predicate Tracks(s: State, plan: Plan, commit: string, c: Candidate) {
    && c.id in s.db && c.id in s.left && (c.id in s.started || s.db[c.id].reused)
    && Equivalent(plan, c.record.plan) && c.record.commit == commit
    && s.db[c.id].plan == c.record.plan && s.db[c.id].commit == c.record.commit
        && s.db[c.id].imageRef == c.record.imageRef
  }

  ghost predicate WorkerInv(s: State, p: Worker) {
    && (!p.Finished? ==> p.id in s.db && s.db[p.id].plan == p.plan && !s.db[p.id].reused)
    && (Unsaved(p) ==> s.db[p.id].status == Pending && s.db[p.id].commit == "")
    && (p.Running? ==>
          s.db[p.id].status == Building && s.db[p.id].commit == p.commit && s.db[p.id].imageRef == p.imageRef)
    && (p.Resolved? || p.Checking? || p.Waiting? || p.Running? ==> Trimmed(p.commit) && Trimmed(p.imageRef))
    && (p.Checking? || p.Waiting? ==> forall i :: 0 <= i < |p.candidates| ==>
        Tracks(s, p.plan, p.commit, p.candidates[i]))
    && (p.Waiting? ==> p.next < |p.candidates|)
    && (p.Reusing? ==> Tracks(s, p.plan, p.commit, p.source))
  }

  /** A reused record names an equivalent record of the same commit and image that left pending earlier. */
  predicate Provenance(s: State, id: int)
    requires id in s.db
  {
    var r := s.db[id];
    r.reused ==>
      && r.status == Success && r.reusedFrom.Some?
      && var f := r.reusedFrom.value;
         && f in s.db && f in s.left && id in s.left && s.left[f] < s.left[id] && (f in s.started || s.db[f].reused)
         && Equivalent(r.plan, s.db[f].plan) && s.db[f].commit == r.commit && s.db[f].imageRef == r.imageRef
  }

  /** The bookkeeping of one record. */
  predicate RecordInv(s: State, id: int)
    requires id in s.db
  {
    && 0 <= id < s.nextId
    && (s.db[id].status != Pending <==> id in s.left)
    && (id in s.left ==> s.left[id] < s.clock)
    && (s.db[id].status == Building || (s.db[id].status == Success && !s.db[id].reused) ==> id in s.started)
    && (s.db[id].reused ==> s.db[id].status == Success)
  }

  /** Two running workers own different records. */
  predicate Apart(p: Worker, q: Worker) {
    !p.Finished? && !q.Finished? ==> p.id != q.id
  }

  ghost predicate Inv(s: State) {
    && (forall id :: id in s.db ==> RecordInv(s, id) && Provenance(s, id))
    && (forall id :: id in s.left ==> id in s.db)
    && (forall w :: w in s.workers ==> WorkerInv(s, s.workers[w]))
    && (forall v, w :: v in s.workers && w in s.workers && v != w ==> Apart(s.workers[v], s.workers[w]))
  }

  // ---------------------------------------------------------------- what no step undoes

  /** From `s` to `t`, records are kept; one that has left pending never goes back and keeps its
      plan, commit and image; a finished one does not change at all. */
  predicate KeptRecord(s: State, t: State, id: int)
    requires id in s.db
  {
    && id in t.db && t.db[id].plan == s.db[id].plan
    && (id in s.left ==>
          && id in t.left && t.left[id] == s.left[id] && t.db[id].status != Pending
              && t.db[id].reused == s.db[id].reused
          && t.db[id].commit == s.db[id].commit && t.db[id].imageRef == s.db[id].imageRef)
    && (s.db[id].status == Success || s.db[id].status == Failed ==> t.db[id] == s.db[id])
  }

  ghost predicate Kept(s: State, t: State) {
    && (forall id :: id in s.db ==> KeptRecord(s, t, id))
    && s.started <= t.started
  }

  lemma MoveKeepsInv(s: State, w: int, worker: Worker)
    requires Inv(s) && w in s.workers && !s.workers[w].Finished?
    requires WorkerInv(s, worker) && (worker.Finished? || worker.id == s.workers[w].id)
    ensures Inv(Move(s, w, worker)) && Kept(s, Move(s, w, worker))
  {
    var t := Move(s, w, worker);
    forall v | v in t.workers ensures WorkerInv(t, t.workers[v]) {
      SameWorkerInv(s, t, t.workers[v]);
    }
  }

  /** A worker's facts survive when its own record is untouched and all others are kept. */
  lemma SameWorkerInv(s: State, t: State, p: Worker)
    requires WorkerInv(s, p) && Kept(s, t)
    requires !p.Finished? ==> p.id in t.db && t.db[p.id] == s.db[p.id]
    ensures WorkerInv(t, p)
  {
    if p.Checking? || p.Waiting? {
      forall i | 0 <= i < |p.candidates| ensures Tracks(t, p.plan, p.commit, p.candidates[i]) {
        assert Tracks(s, p.plan, p.commit, p.candidates[i]);
        assert KeptRecord(s, t, p.candidates[i].id);
      }
    }
    if p.Reusing? {
      assert KeptRecord(s, t, p.source.id);
    }
  }

  lemma SameProvenance(s: State, t: State, id: int)
    requires Inv(s) && Kept(s, t) && id in s.db && id in t.db && t.db[id] == s.db[id]
    ensures Provenance(t, id)
  {
    assert KeptRecord(s, t, id);
    if s.db[id].reused {
      assert Provenance(s, id);
      assert KeptRecord(s, t, s.db[id].reusedFrom.value);
    }
  }

  /** A record about to be saved fits what is stored. */
  predicate Fits(s: State, p: Worker, r: Record)
    requires !p.Finished? && p.id in s.db
  {
    && r.plan == p.plan && r.status != Pending
    && (p.Running? ==> r.commit == p.commit && r.imageRef == p.imageRef && !r.reused)
    && (r.status == Success && !r.reused ==> p.Running?)
    && (r.reused ==> r.status == Success)
  }

  lemma SaveKeepsRecords(s: State, w: int, worker: Worker, r: Record)
    requires Inv(s) && w in s.workers && !s.workers[w].Finished? && Fits(s, s.workers[w], r)
    ensures var t := Save(s, w, worker, s.workers[w].id, r);
            Kept(s, t) && forall id :: id in t.db ==> RecordInv(t, id)
  {
    var p := s.workers[w];
    var t := Save(s, w, worker, p.id, r);
    assert WorkerInv(s, p);
    assert RecordInv(s, p.id);
    forall id | id in s.db ensures KeptRecord(s, t, id) {
      assert RecordInv(s, id);
    }
    forall id | id in t.db ensures RecordInv(t, id) {
      assert RecordInv(s, id);
    }
  }

  lemma SaveKeepsInv(s: State, w: int, worker: Worker, r: Record)
    requires Inv(s) && w in s.workers && !s.workers[w].Finished? && Fits(s, s.workers[w], r)
    requires worker.Finished? || worker.id == s.workers[w].id
    requires var t := Save(s, w, worker, s.workers[w].id, r); WorkerInv(t, worker) && Provenance(t, s.workers[w].id)
    ensures var t := Save(s, w, worker, s.workers[w].id, r); Inv(t) && Kept(s, t)
  {
    var p := s.workers[w];
    var t := Save(s, w, worker, p.id, r);
    SaveKeepsRecords(s, w, worker, r);
    forall id | id in t.db ensures Provenance(t, id) {
      if id != p.id { SameProvenance(s, t, id); }
    }
    forall v | v in t.workers ensures WorkerInv(t, t.workers[v]) {
      if v != w {
        assert Apart(s.workers[v], p);
        SameWorkerInv(s, t, t.workers[v]);
      }
    }
  }

  lemma CreateKeepsInv(s: State, e: Event)
    requires Inv(s) && Enabled(s, e) && e.Create?
    ensures Inv(Apply(s, e)) && Kept(s, Apply(s, e))
  {
    var t := Apply(s, e);
    assert forall id :: id in s.db ==> id != s.nextId by {
      forall id | id in s.db ensures id != s.nextId { assert RecordInv(s, id); }
    }
    assert s.nextId !in s.left;
    assert Kept(s, t);
    forall id | id in t.db ensures RecordInv(t, id) && Provenance(t, id) {
      if id in s.db {
        assert RecordInv(s, id);
        SameProvenance(s, t, id);
      }
    }
    forall v | v in t.workers ensures WorkerInv(t, t.workers[v]) {
      if v != e.worker { SameWorkerInv(s, t, t.workers[v]); }
    }
    forall u, v | u in t.workers && v in t.workers && u != v ensures Apart(t.workers[u], t.workers[v]) {
      if u in s.workers { assert WorkerInv(s, s.workers[u]); }
      if v in s.workers { assert WorkerInv(s, s.workers[v]); }
    }
  }

  lemma ListKeepsInv(s: State, e: Event)
    requires Inv(s) && Enabled(s, e) && e.List?
    ensures Inv(Apply(s, e)) && Kept(s, Apply(s, e))
  {
    var p := s.workers[e.worker];
    var listing := Listing(s.db, p.plan, p.commit, s.nextId);
    ListingIsQuery(s.db, p.plan, p.commit, s.nextId);
    forall i | 0 <= i < |listing| ensures Tracks(s, p.plan, p.commit, listing[i]) {
      assert listing[i] in listing;
      assert RecordInv(s, listing[i].id);
    }
    assert WorkerInv(s, p);
    MoveKeepsInv(s, e.worker, Checking(p.id, p.plan, p.commit, p.imageRef, listing, 0, e.now));
  }

  /** Events that only change what a worker knows. */
  lemma LookingKeepsInv(s: State, e: Event)
    requires Inv(s) && Enabled(s, e)
    requires e.Resolve? || e.TakeSuccess? || e.TakeBuilding? || e.Wait? || e.Skip? || e.PollFinds? || e.PollEnds?
          || e.Abandon?
    ensures Inv(Apply(s, e)) && Kept(s, Apply(s, e))
  {
    var p := s.workers[e.worker];
    assert WorkerInv(s, p);
    if e.PollFinds? {
      assert Tracks(s, p.plan, p.commit, p.candidates[p.next]);
    }
    var worker := Apply(s, e).workers[e.worker];
    assert WorkerInv(s, worker);
    MoveKeepsInv(s, e.worker, worker);
  }

  lemma SavingKeepsInv(s: State, e: Event)
    requires Inv(s) && Enabled(s, e)
    requires e.ResolveFails? || e.StartBuild? || e.FinishBuild? || e.Fail?
    ensures Inv(Apply(s, e)) && Kept(s, Apply(s, e))
  {
    var p := s.workers[e.worker];
    assert WorkerInv(s, p);
    if e.FinishBuild? {
      TrimSpaceFixed(p.commit);
      TrimSpaceFixed(p.imageRef);
    }
    var t := Apply(s, e);
    assert Fits(s, p, t.db[p.id]);
    SaveKeepsInv(s, e.worker, t.workers[e.worker], t.db[p.id]);
  }

  lemma SaveReusedKeepsInv(s: State, e: Event)
    requires Inv(s) && Enabled(s, e) && e.SaveReused?
    ensures Inv(Apply(s, e)) && Kept(s, Apply(s, e))
  {
    var p := s.workers[e.worker];
    assert WorkerInv(s, p);
    assert RecordInv(s, p.id) && RecordInv(s, p.source.id);
    var t := Apply(s, e);
    assert Fits(s, p, t.db[p.id]);
    SaveKeepsInv(s, e.worker, Finished, t.db[p.id]);
  }

  lemma EventKeepsInv(s: State, e: Event)
    requires Inv(s) && Enabled(s, e)
    ensures Inv(Apply(s, e)) && Kept(s, Apply(s, e))
  {
    if e.Create? {
      CreateKeepsInv(s, e);
    } else if e.List? {
      ListKeepsInv(s, e);
    } else if e.SaveReused? {
      SaveReusedKeepsInv(s, e);
    } else if e.ResolveFails? || e.StartBuild? || e.FinishBuild? || e.Fail? {
      SavingKeepsInv(s, e);
    } else {
      LookingKeepsInv(s, e);
    }
  }

  // ---------------------------------------------------------------- every run

  ghost predicate IsRun(ss: seq<State>, es: seq<Event>) {
    && |ss| == |es| + 1 && ss[0] == EMPTY
    && forall i :: 0 <= i < |es| ==> Enabled(ss[i], es[i]) && ss[i + 1] == Apply(ss[i], es[i])
  }

  lemma {:induction false} RunInv(ss: seq<State>, es: seq<Event>, i: nat)
    requires IsRun(ss, es) && i < |ss|
    ensures Inv(ss[i])
    decreases i
  {
    if i > 0 {
      RunInv(ss, es, i - 1);
      EventKeepsInv(ss[i - 1], es[i - 1]);
    }
  }

  /** Records settle: over any stretch of a run no record disappears, none that has left pending
      returns to it or changes build, commit or image, and a finished record is never written again. */
  lemma {:induction false} RecordsSettle(ss: seq<State>, es: seq<Event>, i: nat, j: nat)
    requires IsRun(ss, es) && i <= j < |ss|
    ensures Kept(ss[i], ss[j])
    decreases j
  {
    if i == j {
      RunInv(ss, es, i);
    } else {
      RecordsSettle(ss, es, i, j - 1);
      RunInv(ss, es, j - 1);
      EventKeepsInv(ss[j - 1], es[j - 1]);
      KeptTransitive(ss[i], ss[j - 1], ss[j]);
    }
  }

  lemma KeptTransitive(s: State, t: State, u: State)
    requires Kept(s, t) && Kept(t, u)
    ensures Kept(s, u)
  {
    forall id | id in s.db ensures KeptRecord(s, u, id) {
      assert KeptRecord(s, t, id) && KeptRecord(t, u, id);
    }
  }

  /** No wait cycles: at every point of every run, a worker that waits for another build still
      has its own record pending, without a commit, so that no other worker polls it, and the
      record it polls belongs to no waiting worker. */
  lemma NoWaitCycles(ss: seq<State>, es: seq<Event>, i: nat, w: int, id: int)
    requires IsRun(ss, es) && i < |ss| && Polls(ss[i], w, id)
    ensures var s := ss[i];
            && s.workers[w].id in s.db && s.db[s.workers[w].id].status == Pending && s.db[s.workers[w].id].commit == ""
            && (forall v :: !Polls(s, v, s.workers[w].id))
            && (forall v :: v in s.workers && s.workers[v].Waiting? ==> s.workers[v].id != id)
  {
    RunInv(ss, es, i);
    var s := ss[i];
    assert WorkerInv(s, s.workers[w]);
    forall v | v in s.workers && s.workers[v].Waiting? ensures s.workers[v].id != id && !Polls(s, v, s.workers[w].id) {
      assert WorkerInv(s, s.workers[v]);
      assert Tracks(s, s.workers[w].plan, s.workers[w].commit, s.workers[w].candidates[s.workers[w].next]);
      assert RecordInv(s, id) && RecordInv(s, s.workers[w].id);
      var q := s.workers[v];
      assert Tracks(s, q.plan, q.commit, q.candidates[q.next]);
    }
  }

  /** A worker's own record is never among its candidates: the test that skips it never fires. */
  lemma OwnRecordNeverListed(ss: seq<State>, es: seq<Event>, i: nat, w: int, k: nat)
    requires IsRun(ss, es) && i < |ss| && w in ss[i].workers
    requires ss[i].workers[w].Checking? || ss[i].workers[w].Waiting?
    requires k < |ss[i].workers[w].candidates|
    ensures ss[i].workers[w].candidates[k].id != ss[i].workers[w].id
  {
    RunInv(ss, es, i);
    var s, p := ss[i], ss[i].workers[w];
    assert WorkerInv(s, p);
    assert Tracks(s, p.plan, p.commit, p.candidates[k]);
    assert RecordInv(s, p.id);
  }

  /** The first record reuses the image of the second. */
  predicate TookFrom(s: State, id: int, source: int) {
    id in s.db && source in s.db && s.db[id].reused && s.db[id].reusedFrom == Some(source)
  }

  /** Records passing an image on, from the first of the list to its last. */
  ghost predicate Passes(s: State, chain: seq<int>) {
    && |chain| > 0 && chain[|chain| - 1] in s.db
    && forall i, j :: 0 <= i < j < |chain| && j == i + 1 ==> TookFrom(s, chain[i], chain[j])
  }

  lemma PassesCons(s: State, id: int, rest: seq<int>)
    requires Passes(s, rest) && TookFrom(s, id, rest[0])
    ensures Passes(s, [id] + rest)
  {
    var chain := [id] + rest;
    forall i, j | 0 <= i < j < |chain| && j == i + 1 ensures TookFrom(s, chain[i], chain[j]) {
      assert chain[j] == rest[j - 1];
      if i > 0 { assert chain[i] == rest[i - 1]; }
    }
  }

  /** Same scope, branch, digest, platform, commit and image. */
  predicate SameBuild(a: Record, b: Record) {
    Equivalent(a.plan, b.plan) && a.commit == b.commit && a.imageRef == b.imageRef
  }

  lemma {:induction false} ChainFrom(s: State, id: int) returns (chain: seq<int>)
    requires Inv(s) && id in s.db && (id in s.started || s.db[id].reused)
    requires id in s.left
    ensures Passes(s, chain) && chain[0] == id && (s.db[id].reused ==> |chain| >= 2)
    ensures var root := chain[|chain| - 1];
            !s.db[root].reused && root in s.started && SameBuild(s.db[id], s.db[root])
    decreases s.left[id]
  {
    if s.db[id].reused {
      assert Provenance(s, id);
      var f := s.db[id].reusedFrom.value;
      var rest := ChainFrom(s, f);
      assert TookFrom(s, id, rest[0]);
      PassesCons(s, id, rest);
      chain := [id] + rest;
    } else {
      chain := [id];
    }
  }

  /** Main result: in every reachable database, a reused successful record traces back through
      finitely many reuses to a record whose image was not reused but built for it, with the
      same scope, branch, commit, identity digest, platform and image. */
  lemma ReuseProvenance(ss: seq<State>, es: seq<Event>, i: nat, id: int) returns (chain: seq<int>)
    requires IsRun(ss, es) && i < |ss| && id in ss[i].db && ss[i].db[id].reused
    ensures Passes(ss[i], chain) && chain[0] == id && |chain| >= 2
    ensures var root := chain[|chain| - 1];
            && !ss[i].db[root].reused && root in ss[i].started
            && var a, b := ss[i].db[id], ss[i].db[root];
               && a.status == Success && a.imageRef == b.imageRef && a.commit == b.commit
               && a.plan.digest == b.plan.digest && a.plan.branch == b.plan.branch && a.plan.platform == b.plan.platform
               && a.plan.propId == b.plan.propId
               && (a.plan.propId.None? ==>
                   a.plan.playgroundId == b.plan.playgroundId && a.plan.serviceName == b.plan.serviceName)
  {
    RunInv(ss, es, i);
    assert RecordInv(ss[i], id) && Provenance(ss[i], id);
    chain := ChainFrom(ss[i], id);
  }

  // ---------------------------------------------------------------- workers come to an end

  /** A worker that has not finished can take a step other than giving up. */
  lemma NoWorkerIsStuck(ss: seq<State>, es: seq<Event>, i: nat, w: int) returns (e: Event)
    requires IsRun(ss, es) && i < |ss| && w in ss[i].workers && !ss[i].workers[w].Finished?
    ensures Enabled(ss[i], e) && e.worker == w && !e.Abandon? && !e.Fail?
  {
    RunInv(ss, es, i);
    var s, p := ss[i], ss[i].workers[w];
    assert WorkerInv(s, p);
    match p
    case Created(_, _) => e := Resolve(w, "c", "i");
    case Resolved(_, _, _, _) => e := List(w, 0);
    case Checking(_, _, _, _, _, _, _) =>
      if !AtCandidate(s, w) {
        e := StartBuild(w);
      } else if WorthWaiting(p.candidates[p.next], p.id, p.now) {
        e := Wait(w);
      } else {
        e := Skip(w);
      }
    case Waiting(_, _, _, _, _, _, _) => e := PollEnds(w);
    case Reusing(_, _, _, _) => e := SaveReused(w);
    case Running(_, _, _, _) => e := FinishBuild(w);
  }

  /** How far a worker has come, and what it still has to look at there. */
  function Rank(p: Worker): nat {
    match p
    case Created(_, _) => 5
    case Resolved(_, _, _, _) => 4
    case Checking(_, _, _, _, _, _, _) => 3
    case Waiting(_, _, _, _, _, _, _) => 3
    case Reusing(_, _, _, _) => 2
    case Running(_, _, _, _) => 1
    case Finished => 0
  }

  function Remaining(p: Worker): nat {
    if p.Checking? && p.next <= |p.candidates| then 2 * (|p.candidates| - p.next) + 1
    else if p.Waiting? && p.next <= |p.candidates| then 2 * (|p.candidates| - p.next)
    else 0
  }

  /** Lexicographically nearer to its end. */
  predicate Nearer(p': Worker, p: Worker) {
    Rank(p') < Rank(p) || (Rank(p') == Rank(p) && Remaining(p') < Remaining(p))
  }

  /** Every step of a worker brings it nearer to its end: it builds, reuses, fails or gives up
      after finitely many, whatever the others do. */
  lemma WorkersProgress(ss: seq<State>, es: seq<Event>, i: nat)
    requires IsRun(ss, es) && i < |es| && !es[i].Create?
    ensures var w := es[i].worker;
            w in ss[i].workers && w in ss[i + 1].workers && Nearer(ss[i + 1].workers[w], ss[i].workers[w])
  {
    RunInv(ss, es, i);
    assert WorkerInv(ss[i], ss[i].workers[es[i].worker]);
  }

  // ---------------------------------------------------------------- the search for a reusable build

  /** What the runtime answers about a candidate's image. */
  datatype Image = Present | Absent | Unreachable

  datatype Lookup = Found(source: Candidate) | NotFound | Error

  function Check(c: Candidate, status: Status, image: int -> Image): Lookup {
    if !HasImage(c.record, status) then NotFound
    else match image(c.id)
      case Present => Found(c)
      case Absent => NotFound
      case Unreachable => Error
  }

  /** The answer is that of the first candidate, in listing order, that settles the search. */
  ghost predicate FirstOf(outcomes: seq<Lookup>, r: Lookup) {
    if r == NotFound then forall i :: 0 <= i < |outcomes| ==> outcomes[i] == NotFound
    else exists i :: 0 <= i < |outcomes| && outcomes[i] == r && forall j :: 0 <= j < i ==> outcomes[j] == NotFound
  }

  function Checks(candidates: seq<Candidate>, status: Status, image: int -> Image): seq<Lookup> {
    seq(|candidates|, i requires 0 <= i < |candidates| => Check(candidates[i], status, image))
  }

  /** The candidate has this status and an image reference. */
  predicate Eligible(c: Candidate, status: Status) {
    c.record.status == status && TrimSpace(c.record.imageRef) != ""
  }

  /** No candidate before `i` with this status and an image reference has its image, and each check says so. */
  predicate AbsentBefore(candidates: seq<Candidate>, status: Status, image: int -> Image, i: nat)
    requires i <= |candidates|
  {
    forall j :: 0 <= j < i && Eligible(candidates[j], status) ==> image(candidates[j].id) == Absent
  }

  /** `verifiedReusableBuildRecord`: the first eligible candidate whose image is not absent decides:
      it is found when the image is there, and the check's error is returned when there is one. */
  method VerifiedReusable(candidates: seq<Candidate>, status: Status, image: int -> Image) returns (r: Lookup)
    ensures FirstOf(Checks(candidates, status, image), r)
    ensures r.Found? ==> r.source in candidates && Eligible(r.source, status) && image(r.source.id) == Present
    ensures forall i :: 0 <= i < |candidates| && AbsentBefore(candidates, status, image, i)
                        && Eligible(candidates[i], status) ==>
              (image(candidates[i].id) == Present ==> r == Found(candidates[i]))
              && (image(candidates[i].id) == Unreachable ==> r == Error)
    ensures AbsentBefore(candidates, status, image, |candidates|) <==> r == NotFound
  {
    ghost var outcomes := Checks(candidates, status, image);
    for i := 0 to |candidates|
      invariant forall j :: 0 <= j < i ==> outcomes[j] == NotFound
      invariant AbsentBefore(candidates, status, image, i)
    {
      var candidate := candidates[i];
      assert outcomes[i] == Check(candidate, status, image);
      if HasImage(candidate.record, status) {
        match image(candidate.id) {
          case Present => return Found(candidate);
          case Unreachable => return Error;
          case Absent =>
        }
      }
    }
    return NotFound;
  }

  /** What one turn of the poll loop meets: the request is cancelled, or a tick reads the record. */
  datatype Tick = Cancelled | Gone | StoreError | Read(record: Record, image: Image)

  /** The turn ends the poll; building, and pending, records keep it going. */
  predicate Conclusive(tick: Tick) {
    tick.Read? ==> tick.record.status == Success || tick.record.status == Failed
  }

  function TickResult(id: int, tick: Tick): Lookup {
    match tick
    case Cancelled => Error
    case Gone => NotFound
    case StoreError => Error
    case Read(record, image) => Check(Candidate(id, record), Success, (_) => image)
  }

  /** The first conclusive turn decides, from turn `t` on; the deadline leaves nothing found. */
  function PollResult(id: int, ticks: nat -> Tick, t: nat): Lookup
    decreases MAX_POLLS - t
  {
    if t >= MAX_POLLS then NotFound
    else if Conclusive(ticks(t)) then TickResult(id, ticks(t))
    else PollResult(id, ticks, t + 1)
  }

  /** What a conclusive turn answers: the record as it now is, when it succeeded and its image is
      there; an error when the request, the store or the image check ends in one; nothing otherwise. */
  predicate Answers(id: int, tick: Tick, r: Lookup) {
    match tick
    case Cancelled => r == Error
    case StoreError => r == Error
    case Gone => r == NotFound
    case Read(record, image) =>
      if Eligible(Candidate(id, record), Success) && image == Present then r == Found(Candidate(id, record))
      else if Eligible(Candidate(id, record), Success) && image == Unreachable then r == Error
      else r == NotFound
  }

  predicate Ends(tick: Tick) {
    tick.Cancelled? || tick.Gone? || tick.StoreError? || tick.record.status == Success || tick.record.status == Failed
  }

  /** The first turn that ends the poll, within 45 minutes of one turn every two seconds. */
  ghost predicate FirstEnd(ticks: nat -> Tick, t: nat) {
    t < 1350 && Ends(ticks(t)) && forall u: nat :: u < t ==> !Ends(ticks(u))
  }

  ghost predicate PollAnswers(id: int, ticks: nat -> Tick, r: Lookup) {
    || (exists t: nat :: FirstEnd(ticks, t) && Answers(id, ticks(t), r))
    || ((forall t: nat :: t < 1350 ==> !Ends(ticks(t))) && r == NotFound)
  }

  lemma {:induction false} PollResultAnswers(id: int, ticks: nat -> Tick, t: nat)
    requires t <= MAX_POLLS && forall u: nat :: u < t ==> !Ends(ticks(u))
    ensures PollAnswers(id, ticks, PollResult(id, ticks, t))
    decreases MAX_POLLS - t
  {
    if t < MAX_POLLS {
      if Conclusive(ticks(t)) {
        assert FirstEnd(ticks, t) && Answers(id, ticks(t), TickResult(id, ticks(t)));
      } else {
        PollResultAnswers(id, ticks, t + 1);
      }
    }
  }

  /** `pollReusableBuildRecord`: it ends at the first conclusive turn, or at the deadline. */
  method PollReusable(id: int, ticks: nat -> Tick) returns (r: Lookup, ghost polls: nat)
    ensures r == PollResult(id, ticks, 0)
    ensures PollAnswers(id, ticks, r)
    ensures polls <= MAX_POLLS && forall t :: 0 <= t < polls - 1 ==> !Conclusive(ticks(t))
    ensures polls < MAX_POLLS ==> polls > 0 && Conclusive(ticks(polls - 1))
  {
    PollResultAnswers(id, ticks, 0);
    polls := 0;
    for t := 0 to MAX_POLLS
      invariant polls == t && PollResult(id, ticks, 0) == PollResult(id, ticks, t)
      invariant forall u :: 0 <= u < t ==> !Conclusive(ticks(u))
    {
      polls := polls + 1;
      match ticks(t) {
        case Cancelled => return Error, polls;
        case Gone => return NotFound, polls;
        case StoreError => return Error, polls;
        case Read(record, image) =>
          if record.status == Success {
            r := VerifiedReusable([Candidate(id, record)], Success, (_) => image);
            SingleCheck(Candidate(id, record), Success, (_) => image, r);
            return;
          } else if record.status == Failed {
            return NotFound, polls;
          }
      }
    }
    return NotFound, polls;
  }

  lemma SingleCheck(c: Candidate, status: Status, image: int -> Image, r: Lookup)
    requires FirstOf(Checks([c], status, image), r)
    ensures r == Check(c, status, image)
  {
    var outcomes := Checks([c], status, image);
    assert |outcomes| == 1 && outcomes[0] == Check(c, status, image);
  }

  /** What waiting for one candidate amounts to. */
  function Outcome(c: Candidate, currentId: int, now: int, image: int -> Image, ticks: nat -> Tick): Lookup {
    if !WorthWaiting(c, currentId, now) then NotFound
    else if Check(c, Building, image) != NotFound then Check(c, Building, image)
    else PollResult(c.id, ticks, 0)
  }

  function Outcomes(candidates: seq<Candidate>, currentId: int, now: int, image: int -> Image,
        ticks: int -> nat -> Tick)
    : seq<Lookup>
  {
    seq(|candidates|, i requires 0 <= i < |candidates| =>
      Outcome(candidates[i], currentId, now, image, ticks(candidates[i].id)))
  }

  /** A build in flight that is not the searcher's own and began within the last 45 minutes. */
  predicate InFlight(c: Candidate, currentId: int, now: int) {
    c.id != currentId && c.record.status == Building && now - c.record.startedAt <= 2700
  }

  /** What waiting for a build in flight answers: the build itself when its image is there already,
      the check's error when there is one, and otherwise what polling it answers. */
  ghost predicate WaitAnswers(c: Candidate, image: int -> Image, ticks: nat -> Tick, r: Lookup) {
    if Eligible(c, Building) && image(c.id) == Present then r == Found(c)
    else if Eligible(c, Building) && image(c.id) == Unreachable then r == Error
    else PollAnswers(c.id, ticks, r)
  }

  lemma OutcomeAnswers(c: Candidate, currentId: int, now: int, image: int -> Image, ticks: nat -> Tick)
    ensures var r := Outcome(c, currentId, now, image, ticks);
            if InFlight(c, currentId, now) then WaitAnswers(c, image, ticks, r) else r == NotFound
  {
    PollResultAnswers(c.id, ticks, 0);
  }

  /** The first build in flight whose wait answers anything decides. */
  ghost predicate FlightAnswers(candidates: seq<Candidate>, currentId: int, now: int, image: int -> Image,
        ticks: int -> nat -> Tick, r: Lookup)
  {
    exists i :: DecidedAt(candidates, currentId, now, image, ticks, r, i)
  }

  /** Nothing comes of waiting for the builds in flight before `i`, and `i` decides, if there is one. */
  ghost predicate DecidedAt(candidates: seq<Candidate>, currentId: int, now: int, image: int -> Image,
        ticks: int -> nat -> Tick, r: Lookup, i: int)
  {
    && 0 <= i <= |candidates|
    && (forall j :: 0 <= j < i && InFlight(candidates[j], currentId, now) ==>
          WaitAnswers(candidates[j], image, ticks(candidates[j].id), NotFound))
    && (if i == |candidates| then r == NotFound
        else r != NotFound && InFlight(candidates[i], currentId, now)
             && WaitAnswers(candidates[i], image, ticks(candidates[i].id), r))
  }

  lemma FirstOutcomeAnswers(candidates: seq<Candidate>, currentId: int, now: int, image: int -> Image,
        ticks: int -> nat -> Tick, r: Lookup)
    requires FirstOf(Outcomes(candidates, currentId, now, image, ticks), r)
    ensures FlightAnswers(candidates, currentId, now, image, ticks, r)
  {
    var outcomes := Outcomes(candidates, currentId, now, image, ticks);
    var i := |outcomes|;
    if r != NotFound {
      i :| 0 <= i < |outcomes| && outcomes[i] == r && forall j :: 0 <= j < i ==> outcomes[j] == NotFound;
    }
    forall j | 0 <= j < |outcomes|
          ensures InFlight(candidates[j], currentId, now) ==>
                WaitAnswers(candidates[j], image, ticks(candidates[j].id), outcomes[j])
          ensures !InFlight(candidates[j], currentId, now) ==> outcomes[j] == NotFound {
      OutcomeAnswers(candidates[j], currentId, now, image, ticks(candidates[j].id));
    }
    assert DecidedAt(candidates, currentId, now, image, ticks, r, i);
  }

  /** `waitForReusableBuildCandidates`: it ends after at most one time limit's worth of polls per candidate. */
  method WaitForCandidates(candidates: seq<Candidate>, currentId: int, now: int, image: int -> Image,
                           ticks: int -> nat -> Tick)
      returns (r: Lookup, ghost polls: nat)
    ensures FirstOf(Outcomes(candidates, currentId, now, image, ticks), r)
    ensures FlightAnswers(candidates, currentId, now, image, ticks, r)
    ensures polls <= MAX_POLLS * |candidates|
  {
    polls := 0;
    ghost var outcomes := Outcomes(candidates, currentId, now, image, ticks);
    for i := 0 to |candidates|
      invariant forall j :: 0 <= j < i ==> outcomes[j] == NotFound
      invariant polls <= MAX_POLLS * i
    {
      var candidate := candidates[i];
      assert outcomes[i] == Outcome(candidate, currentId, now, image, ticks(candidate.id));
      if !WorthWaiting(candidate, currentId, now) {
        continue;
      }
      r := VerifiedReusable([candidate], Building, image);
      SingleCheck(candidate, Building, image, r);
      if r == NotFound {
        ghost var turns;
        r, turns := PollReusable(candidate.id, ticks(candidate.id));
        polls := polls + turns;
      }
      if r != NotFound {
        FirstOutcomeAnswers(candidates, currentId, now, image, ticks, r);
        return;
      }
    }
    r := NotFound;
    FirstOutcomeAnswers(candidates, currentId, now, image, ticks, r);
  }

  /** Somebody has seen the image: the check of a listed build, or the turn of a poll that read a
      listed build's record as finished. */
  ghost predicate ImageSeen(candidates: seq<Candidate>, image: int -> Image, ticks: int -> nat -> Tick,
        source: Candidate)
  {
    && TrimSpace(source.record.imageRef) != ""
    && ((source in candidates && (source.record.status == Success || source.record.status == Building)
         && image(source.id) == Present)
        || (source.record.status == Success
            && (exists c :: c in candidates && c.id == source.id && c.record.status == Building)
            && (exists t: nat :: t < 1350 && ticks(source.id)(t) == Tick.Read(source.record, Present))))
  }

  lemma FlightImageSeen(candidates: seq<Candidate>, currentId: int, now: int, image: int -> Image,
        ticks: int -> nat -> Tick, r: Lookup)
    requires FlightAnswers(candidates, currentId, now, image, ticks, r) && r.Found?
    ensures ImageSeen(candidates, image, ticks, r.source)
  {
    var i :| DecidedAt(candidates, currentId, now, image, ticks, r, i);
    var c := candidates[i];
    if !(Eligible(c, Building) && image(c.id) == Present) {
      var t: nat :| FirstEnd(ticks(c.id), t) && Answers(c.id, ticks(c.id)(t), r);
    }
  }

  /** `findReusableBuildRecord`: the first finished build whose image is not absent decides; when all
      are absent, the builds in flight do. */
  method FindReusable(candidates: seq<Candidate>, currentId: int, now: int, image: int -> Image,
        ticks: int -> nat -> Tick)
      returns (r: Lookup)
    ensures FirstOf(Checks(candidates, Success, image) + Outcomes(candidates, currentId, now, image, ticks), r)
    ensures forall i :: 0 <= i < |candidates| && AbsentBefore(candidates, Success, image, i)
                        && Eligible(candidates[i], Success) ==>
              (image(candidates[i].id) == Present ==> r == Found(candidates[i]))
              && (image(candidates[i].id) == Unreachable ==> r == Error)
    ensures AbsentBefore(candidates, Success, image, |candidates|) ==>
              FlightAnswers(candidates, currentId, now, image, ticks, r)
    ensures r.Found? ==> ImageSeen(candidates, image, ticks, r.source)
  {
    ghost var finished := Checks(candidates, Success, image);
    ghost var inFlight := Outcomes(candidates, currentId, now, image, ticks);
    r := VerifiedReusable(candidates, Success, image);
    if r != NotFound {
      FirstOfLeft(finished, inFlight, r);
      return;
    }
    ghost var polls;
    r, polls := WaitForCandidates(candidates, currentId, now, image, ticks);
    FirstOfRight(finished, inFlight, r);
    if r.Found? { FlightImageSeen(candidates, currentId, now, image, ticks, r); }
  }

  lemma FirstOfLeft(a: seq<Lookup>, b: seq<Lookup>, r: Lookup)
    requires FirstOf(a, r) && r != NotFound
    ensures FirstOf(a + b, r)
  {
    var i :| 0 <= i < |a| && a[i] == r && forall j :: 0 <= j < i ==> a[j] == NotFound;
    assert (a + b)[i] == r && forall j :: 0 <= j < i ==> (a + b)[j] == NotFound;
  }

  lemma FirstOfRight(a: seq<Lookup>, b: seq<Lookup>, r: Lookup)
    requires FirstOf(a, NotFound) && FirstOf(b, r)
    ensures FirstOf(a + b, r)
  {
    if r != NotFound {
      var i :| 0 <= i < |b| && b[i] == r && forall j :: 0 <= j < i ==> b[j] == NotFound;
      var k := |a| + i;
      assert (a + b)[k] == r && forall j :: 0 <= j < k ==> (a + b)[j] == NotFound;
    }
  }

  lemma AnswerIndex(a: seq<Lookup>, b: seq<Lookup>, r: Lookup) returns (i: nat)
    requires FirstOf(a + b, r) && r.Found?
    ensures i < |a| + |b| && r == if i < |a| then a[i] else b[i - |a|]
  {
    i :| 0 <= i < |a + b| && (a + b)[i] == r;
  }

  /** Every answer the search can give comes from some candidate: checked, or polled. */
  lemma AnswerHasCandidate(l: seq<Candidate>, currentId: int, now: int, image: int -> Image,
        ticks: int -> nat -> Tick, r: Lookup)
      returns (c: Candidate)
    requires FirstOf(Checks(l, Success, image) + Outcomes(l, currentId, now, image, ticks), r) && r.Found?
    ensures c in l
    ensures r == Check(c, Success, image) || r == Check(c, Building, image) || r == PollResult(c.id, ticks(c.id), 0)
  {
    var finished, inFlight := Checks(l, Success, image), Outcomes(l, currentId, now, image, ticks);
    var i := AnswerIndex(finished, inFlight, r);
    if i < |finished| {
      c := l[i];
      assert finished[i] == Check(c, Success, image);
    } else {
      c := l[i - |finished|];
      assert inFlight[i - |finished|] == Outcome(c, currentId, now, image, ticks(c.id));
    }
  }

  /** Whatever the search finds from a listing is a build of the same scope, branch, digest,
      platform and commit, provided polled records still are what was listed. */
  lemma FoundIsEquivalent(db: map<int, Record>, plan: Plan, commit: string, bound: nat, currentId: int, now: int,
                          image: int -> Image, ticks: int -> nat -> Tick, r: Lookup)
    requires var l := Listing(db, plan, commit, bound);
             FirstOf(Checks(l, Success, image) + Outcomes(l, currentId, now, image, ticks), r)
    requires forall id, t :: id in db && ticks(id)(t).Read? ==>
               ticks(id)(t).record.plan == db[id].plan && ticks(id)(t).record.commit == db[id].commit
    requires r.Found?
    ensures r.source.id in db && Asked(plan, commit, db[r.source.id]) && Asked(plan, commit, r.source.record)
    ensures TrimSpace(r.source.record.imageRef) != ""
  {
    var l := Listing(db, plan, commit, bound);
    var c := AnswerHasCandidate(l, currentId, now, image, ticks, r);
    ListingIsQuery(db, plan, commit, bound);
    assert c.id in db && c.record == db[c.id] && Reusable(plan, commit, db[c.id]);
    if r == PollResult(c.id, ticks(c.id), 0) { PollFindsRead(c.id, ticks(c.id), 0); }
  }

  lemma {:induction false} PollFindsRead(id: int, ticks: nat -> Tick, t: nat)
    requires PollResult(id, ticks, t).Found?
    ensures var r := PollResult(id, ticks, t);
            r.source.id == id && HasImage(r.source.record, Success)
            && exists u: nat :: ticks(u).Read? && ticks(u).record == r.source.record
    decreases MAX_POLLS - t
  {
    if Conclusive(ticks(t)) {
      assert ticks(t).Read?;
    } else {
      PollFindsRead(id, ticks, t + 1);
    }
  }
}
