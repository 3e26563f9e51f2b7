/** The Playguard sweep of remote project directories that no row owns any more
    (`reconcileOwnedRemoteOrphans` in `internal/worker/playguard.go`, selection policy in
    `internal/playguard/policy.go`). */
module OrphanSweep {
  import opened Text

  datatype Row = Row(marqueeId: Option<int>, composeProject: Option<string>)

  // ---------------------------------------------------------------- selection policy

  /** `MatchesRemoteProject` */
  predicate MatchesRemoteProject(pg: Row, marqueeId: int, project: string) {
    && pg.marqueeId == Some(marqueeId)
    && pg.composeProject.Some?
    && TrimSpace(pg.composeProject.value) == TrimSpace(project)
  }

  /** Some row owns the project on this Marquee. */
  ghost predicate Owned(rows: seq<Row>, marqueeId: int, project: string) {
    exists i :: 0 <= i < |rows| && MatchesRemoteProject(rows[i], marqueeId, project)
  }

  /** `CurrentRemoteProjects` */
  method CurrentRemoteProjects(rows: seq<Row>, marqueeId: int) returns (current: set<string>)
    ensures forall p :: Trimmed(p) ==> (p in current <==> Owned(rows, marqueeId, p))
    ensures forall p :: p in current ==> Trimmed(p)
  {
    current := {};
    for i := 0 to |rows|
      invariant forall p :: Trimmed(p) ==> (p in current <==> Owned(rows[..i], marqueeId, p))
      invariant forall p :: p in current ==> Trimmed(p)
    {
      var pg := rows[i];
      forall p ensures Owned(rows[..i + 1], marqueeId, p)
            <==> Owned(rows[..i], marqueeId, p) || MatchesRemoteProject(pg, marqueeId, p) {
        OwnedSnoc(rows[..i], pg, marqueeId, p);
        assert rows[..i + 1] == rows[..i] + [pg];
      }
      forall p: string ensures Trimmed(p) ==> TrimSpace(p) == p { TrimSpaceFixed(p); }
      var own := if pg.composeProject.Some? then TrimSpace(pg.composeProject.value) else "";
      if MatchesRemoteProject(pg, marqueeId, own) {
        current := current + {TrimSpace(pg.composeProject.value)};
      }
    }
    assert rows[..|rows|] == rows;
  }

  lemma OwnedSnoc(rows: seq<Row>, pg: Row, marqueeId: int, p: string)
    ensures Owned(rows + [pg], marqueeId, p) <==> Owned(rows, marqueeId, p) || MatchesRemoteProject(pg, marqueeId, p)
  {
    if Owned(rows, marqueeId, p) {
      var i :| 0 <= i < |rows| && MatchesRemoteProject(rows[i], marqueeId, p);
      assert MatchesRemoteProject((rows + [pg])[i], marqueeId, p);
    }
    assert (rows + [pg])[|rows|] == pg;
  }

  /** One of the first `n` listed projects is this one, trimmed. */
  ghost predicate SomeTrimsTo(remote: seq<string>, n: nat, project: string)
    requires n <= |remote|
  {
    exists i :: 0 <= i < n && TrimSpace(remote[i]) == project
  }

  /** `StaleRemoteProjects`: the listed projects, trimmed, that no row owns. */
  method StaleRemoteProjects(remote: seq<string>, rows: seq<Row>, marqueeId: int) returns (stale: seq<string>)
    ensures forall p :: p in stale <==> p != "" && !Owned(rows, marqueeId, p) && SomeTrimsTo(remote, |remote|, p)
  {
    var current := CurrentRemoteProjects(rows, marqueeId);
    stale := [];
    for i := 0 to |remote|
      invariant forall p :: p in stale <==> p != "" && !Owned(rows, marqueeId, p) && SomeTrimsTo(remote, i, p)
    {
      var project := TrimSpace(remote[i]);
      assert Trimmed(project);
      if project != "" && project !in current {
        stale := stale + [project];
      }
    }
  }

  /** `reapOwnedRemoteProjects` after the two reads: each stale project is destroyed on its
      own, and a failure does not stop the others. */
  class RemoteHost {
    var dirs: set<string>

    method Sweep(listing: seq<string>, rows: seq<Row>, marqueeId: int, failing: set<string>)
          returns (failed: set<string>)
      requires forall i :: 0 <= i < |listing| ==> Trimmed(listing[i]) && listing[i] != ""
      modifies this
      ensures forall p :: p in dirs <==> p in old(dirs) && (p !in listing || Owned(rows, marqueeId, p) || p in failing)
      ensures forall p :: p in failed <==> p in failing && p in listing && !Owned(rows, marqueeId, p)
    {
      var stale := StaleRemoteProjects(listing, rows, marqueeId);
      forall p ensures p in stale <==> p in listing && !Owned(rows, marqueeId, p) {
        StaleIsListed(listing, p);
      }
      failed := {};
      for i := 0 to |stale|
        invariant forall p :: p in dirs <==> p in old(dirs) && (p !in stale[..i] || p in failing)
        invariant forall p :: p in failed <==> p in failing && p in stale[..i]
      {
        assert stale[..i + 1] == stale[..i] + [stale[i]];
        if stale[i] in failing {
          failed := failed + {stale[i]};
        } else {
          dirs := dirs - {stale[i]};
        }
      }
      assert stale[..|stale|] == stale;
    }
  }

  lemma StaleIsListed(listing: seq<string>, p: string)
    requires forall i :: 0 <= i < |listing| ==> Trimmed(listing[i]) && listing[i] != ""
    ensures p in listing <==> p != "" && SomeTrimsTo(listing, |listing|, p)
  {
    forall i | 0 <= i < |listing| ensures TrimSpace(listing[i]) == listing[i] { TrimSpaceFixed(listing[i]); }
    if p in listing {
      var i :| 0 <= i < |listing| && listing[i] == p;
      assert TrimSpace(listing[i]) == p;
    }
  }

  // ---------------------------------------------------------------- the sweep among other work

  datatype Phase = Idle | Listed(listing: set<string>) | Reaping(todo: set<string>)

  /** Rows by id (a row keeps its project for life), the managed directories, every
      project name a row or a directory has ever had, the names rows have ever had, and the sweep. */
  datatype World = World(rows: map<int, Live>, dirs: set<string>, used: set<string>, inserted: set<string>,
        sweep: Phase)

  datatype Live = Live(marqueeId: Option<int>, project: string)

  datatype Event =
    | InsertRow(id: int, row: Live)
    | DeleteRow(id: int)
    | MoveRow(id: int, target: Option<int>)   // a PATCH of the Marquee, or its deletion
    | MakeDir(project: string)      // a deployment creates its workspace
    | RemoveDir(project: string)    // a delete or an expiration destroys one
    | ListDirs
    | ReadRows(marqueeId: int)
    | Reap(project: string, ok: bool)
    | Finish

  ghost predicate HasRow(s: World, marqueeId: int, project: string) {
    exists id :: id in s.rows && s.rows[id] == Live(Some(marqueeId), project)
  }

  ghost predicate DirsOwned(s: World, marqueeId: int) {
    forall project :: project in s.dirs ==> HasRow(s, marqueeId, project)
  }

  /** Rows come before directories: a workspace is made only for a project whose row has been inserted. */
  ghost predicate Possible(s: World, e: Event) {
    match e
    case InsertRow(id, row) => id !in s.rows
    case DeleteRow(id) => id in s.rows
    case MoveRow(id, _) => id in s.rows
    case MakeDir(project) => project in s.inserted
    case RemoveDir(project) => true
    case ListDirs => s.sweep.Idle?
    case ReadRows(_) => s.sweep.Listed?
    case Reap(project, _) => s.sweep.Reaping? && project in s.sweep.todo
    case Finish => s.sweep == Reaping({})
  }

  /** A new row's project name has not been used before, and no row is moved onto the Marquee from elsewhere. */
  predicate Orderly(s: World, e: Event, marqueeId: int) {
    && (e.InsertRow? ==> e.row.project !in s.used)
    && (e.MoveRow? && e.id in s.rows && e.target == Some(marqueeId) ==> s.rows[e.id].marqueeId == Some(marqueeId))
  }

  ghost function Stale(s: World, marqueeId: int, listing: set<string>): set<string> {
    set p | p in listing && !HasRow(s, marqueeId, p)
  }

  /** A row as the steps see it: by its trimmed project name. */
  predicate Shows(row: Row, live: Live) {
    row.composeProject.Some? && live == Live(row.marqueeId, TrimSpace(row.composeProject.value))
  }

  ghost predicate Shown(rows: seq<Row>, live: Live) {
    exists i :: 0 <= i < |rows| && Shows(rows[i], live)
  }

  ghost predicate Present(s: World, live: Live) {
    exists id :: id in s.rows && s.rows[id] == live
  }

  /** The rows that were read are the rows of this moment, up to rows without a project. */
  ghost predicate Snapshot(rows: seq<Row>, s: World) {
    forall live :: Shown(rows, live) <==> Present(s, live)
  }

  lemma OwnedIffShown(rows: seq<Row>, marqueeId: int, p: string)
    requires Trimmed(p)
    ensures Owned(rows, marqueeId, p) <==> Shown(rows, Live(Some(marqueeId), p))
  {
    TrimSpaceFixed(p);
    assert forall row :: MatchesRemoteProject(row, marqueeId, p) <==> Shows(row, Live(Some(marqueeId), p));
  }

  lemma OwnedIffHasRow(rows: seq<Row>, s: World, marqueeId: int, p: string)
    requires Snapshot(rows, s) && Trimmed(p)
    ensures Owned(rows, marqueeId, p) <==> HasRow(s, marqueeId, p)
  {
    OwnedIffShown(rows, marqueeId, p);
    assert Present(s, Live(Some(marqueeId), p)) <==> HasRow(s, marqueeId, p);
  }

  ghost function Apply(s: World, e: Event): World
    requires Possible(s, e)
  {
    match e
    case InsertRow(id, row) =>
      s.(rows := s.rows[id := row], used := s.used + {row.project}, inserted := s.inserted + {row.project})
    case DeleteRow(id) => s.(rows := s.rows - {id})
    case MoveRow(id, target) => s.(rows := s.rows[id := s.rows[id].(marqueeId := target)])
    case MakeDir(project) => s.(dirs := s.dirs + {project}, used := s.used + {project})
    case RemoveDir(project) => s.(dirs := s.dirs - {project})
    case ListDirs => s.(sweep := Listed(s.dirs))
    case ReadRows(marqueeId) => s.(sweep := Reaping(Stale(s, marqueeId, s.sweep.listing)))
    case Reap(project, ok) =>
      s.(sweep := Reaping(s.sweep.todo - {project}), dirs := if ok then s.dirs - {project} else s.dirs)
    case Finish => s.(sweep := Idle)
  }

  /** `reconcileOwnedRemoteOrphans` between its two reads and the first destruction: run on the
      listing it took and the rows it just read, the selection leaves to reap exactly what the
      `ReadRows` step of the system leaves to reap. */
  method SelectStale(ghost s: World, listing: seq<string>, rows: seq<Row>, marqueeId: int) returns (todo: seq<string>)
    requires forall i :: 0 <= i < |listing| ==> Trimmed(listing[i]) && listing[i] != ""
    requires s.sweep == Listed(set p | p in listing) && Snapshot(rows, s)
    ensures Apply(s, ReadRows(marqueeId)) == s.(sweep := Reaping(set p | p in todo))
  {
    todo := StaleRemoteProjects(listing, rows, marqueeId);
    forall p ensures p in todo <==> p in Stale(s, marqueeId, s.sweep.listing) {
      StaleIsListed(listing, p);
      if p in listing { OwnedIffHasRow(rows, s, marqueeId, p); }
    }
    assert (set p | p in todo) == Stale(s, marqueeId, s.sweep.listing);
  }

  /** Every name in sight has been used. */
  ghost predicate NamesUsed(s: World) {
    && s.dirs <= s.used && s.inserted <= s.used
    && (forall id :: id in s.rows ==> s.rows[id].project in s.used)
    && (s.sweep.Listed? ==> s.sweep.listing <= s.used)
    && (s.sweep.Reaping? ==> s.sweep.todo <= s.used)
  }

  ghost predicate IsRun(ss: seq<World>, es: seq<Event>, marqueeId: int) {
    && |ss| == |es| + 1 && NamesUsed(ss[0]) && ss[0].sweep.Idle?
    && (forall i :: 0 <= i < |es| ==> Possible(ss[i], es[i]) && ss[i + 1] == Apply(ss[i], es[i]))
    && (forall i :: 0 <= i < |es| && es[i].ReadRows? ==> es[i].marqueeId == marqueeId)
  }

  ghost predicate AllOrderly(ss: seq<World>, es: seq<Event>, marqueeId: int) {
    |ss| == |es| + 1 && forall i :: 0 <= i < |es| ==> Orderly(ss[i], es[i], marqueeId)
  }

  lemma {:induction false} RunNamesUsed(ss: seq<World>, es: seq<Event>, marqueeId: int, i: nat)
    requires IsRun(ss, es, marqueeId) && i < |ss|
    ensures NamesUsed(ss[i])
    decreases i
  {
    if i > 0 {
      RunNamesUsed(ss, es, marqueeId, i - 1);
    }
  }

  /** The row read that produced the list being reaped. */
  lemma {:induction false} ReapedAfterRead(ss: seq<World>, es: seq<Event>, marqueeId: int, p: string, k: nat)
        returns (read: nat)
    requires IsRun(ss, es, marqueeId) && k < |ss| && ss[k].sweep.Reaping? && p in ss[k].sweep.todo
    ensures read < k && es[read].ReadRows? && !HasRow(ss[read], marqueeId, p) && p in ss[read].used
    decreases k
  {
    var s := ss[k - 1];
    RunNamesUsed(ss, es, marqueeId, k - 1);
    if es[k - 1].ReadRows? {
      read := k - 1;
    } else {
      read := ReapedAfterRead(ss, es, marqueeId, p, k - 1);
    }
  }

  /** The step gives the project a row on the Marquee: an insertion under its name, or a move of one of its rows. */
  predicate Takes(s: World, e: Event, marqueeId: int, project: string) {
    || (e.InsertRow? && e.row == Live(Some(marqueeId), project))
    || (e.MoveRow? && e.id in s.rows && s.rows[e.id].project == project && e.target == Some(marqueeId))
  }

  lemma TakenHasRow(s: World, e: Event, marqueeId: int, p: string)
    requires Possible(s, e) && Takes(s, e, marqueeId, p)
    ensures HasRow(Apply(s, e), marqueeId, p)
  {
    var s' := Apply(s, e);
    assert s'.rows[e.id] == Live(Some(marqueeId), p);
  }

  lemma OnlyTakingGivesRow(s: World, e: Event, marqueeId: int, p: string)
    requires Possible(s, e) && !HasRow(s, marqueeId, p) && HasRow(Apply(s, e), marqueeId, p)
    ensures Takes(s, e, marqueeId, p)
  {
    var s' := Apply(s, e);
    var id :| id in s'.rows && s'.rows[id] == Live(Some(marqueeId), p);
    assert id in s.rows ==> s.rows[id] != Live(Some(marqueeId), p);
  }

  /** A project without a row gets one only through a step that takes its name. */
  lemma {:induction false} FindTaking(ss: seq<World>, es: seq<Event>, marqueeId: int, p: string, from: nat, till: nat)
      returns (i: nat)
    requires IsRun(ss, es, marqueeId) && from <= till < |ss|
    requires !HasRow(ss[from], marqueeId, p) && HasRow(ss[till], marqueeId, p)
    ensures from <= i < till && Takes(ss[i], es[i], marqueeId, p)
    decreases till
  {
    if HasRow(ss[till - 1], marqueeId, p) {
      i := FindTaking(ss, es, marqueeId, p, from, till - 1);
    } else {
      i := till - 1;
      OnlyTakingGivesRow(ss[i], es[i], marqueeId, p);
    }
  }

  ghost predicate LiveWithin(ss: seq<World>, marqueeId: int, p: string, from: nat, till: nat)
    requires from <= till < |ss|
  {
    exists j :: from <= j <= till && HasRow(ss[j], marqueeId, p)
  }

  predicate TakenWithin(ss: seq<World>, es: seq<Event>, marqueeId: int, p: string, from: nat, till: nat)
    requires from <= till < |ss| && till <= |es|
  {
    exists i :: from <= i < till && Takes(ss[i], es[i], marqueeId, p)
  }

  /** From a moment without a row on, the project has one at some moment if and only if some step
      in between took its name. */
  lemma LiveIffTaken(ss: seq<World>, es: seq<Event>, marqueeId: int, p: string, from: nat, till: nat)
    requires IsRun(ss, es, marqueeId) && from <= till < |ss| && !HasRow(ss[from], marqueeId, p)
    ensures LiveWithin(ss, marqueeId, p, from, till) <==> TakenWithin(ss, es, marqueeId, p, from, till)
  {
    if LiveWithin(ss, marqueeId, p, from, till) {
      var j :| from <= j <= till && HasRow(ss[j], marqueeId, p);
      var i := FindTaking(ss, es, marqueeId, p, from, j);
    }
    if TakenWithin(ss, es, marqueeId, p, from, till) {
      var i :| from <= i < till && Takes(ss[i], es[i], marqueeId, p);
      TakenHasRow(ss[i], es[i], marqueeId, p);
      assert HasRow(ss[i + 1], marqueeId, p);
    }
  }

  /** Main result, for every run: the project that a sweep destroys had no row on the runtime
      Marquee at the row read that condemned it, and it has one at some moment from then until the
      destruction if and only if in between a row was inserted under its name or moved in. */
  lemma SweepDestroysLiveIff(ss: seq<World>, es: seq<Event>, marqueeId: int, k: nat) returns (read: nat)
    requires IsRun(ss, es, marqueeId) && k < |es| && es[k].Reap?
    ensures read < k && es[read].ReadRows? && !HasRow(ss[read], marqueeId, es[k].project)
    ensures LiveWithin(ss, marqueeId, es[k].project, read, k)
          <==> TakenWithin(ss, es, marqueeId, es[k].project, read, k)
  {
    read := ReapedAfterRead(ss, es, marqueeId, es[k].project, k);
    LiveIffTaken(ss, es, marqueeId, es[k].project, read, k);
  }

  lemma {:induction false} NamesStayUsed(ss: seq<World>, es: seq<Event>, marqueeId: int, p: string, i: nat, j: nat)
    requires IsRun(ss, es, marqueeId) && i <= j < |ss| && p in ss[i].used
    ensures p in ss[j].used
    decreases j
  {
    if i < j { NamesStayUsed(ss, es, marqueeId, p, i, j - 1); }
  }

  lemma OrderlyTakesNoUsedName(s: World, e: Event, marqueeId: int, p: string)
    requires Possible(s, e) && Orderly(s, e, marqueeId) && p in s.used && !HasRow(s, marqueeId, p)
    ensures !Takes(s, e, marqueeId, p)
  {
  }

  /** A used name that has no row never gets one again. */
  lemma {:induction false} StaysOrphaned(ss: seq<World>, es: seq<Event>, marqueeId: int, p: string, i: nat, j: nat)
    requires IsRun(ss, es, marqueeId) && AllOrderly(ss, es, marqueeId) && i <= j < |ss|
    requires p in ss[i].used && !HasRow(ss[i], marqueeId, p)
    ensures p in ss[j].used && !HasRow(ss[j], marqueeId, p)
    decreases j
  {
    NamesStayUsed(ss, es, marqueeId, p, i, j);
    if i < j {
      StaysOrphaned(ss, es, marqueeId, p, i, j - 1);
      OrderlyTakesNoUsedName(ss[j - 1], es[j - 1], marqueeId, p);
      if HasRow(ss[j], marqueeId, p) { OnlyTakingGivesRow(ss[j - 1], es[j - 1], marqueeId, p); }
    }
  }

  /** So with fresh project names and no row moved in, the condition is never met: a swept project
      has no row on the runtime Marquee at the row read, nor at any later time. */
  lemma SweepNeverDestroysLive(ss: seq<World>, es: seq<Event>, marqueeId: int, k: nat) returns (read: nat)
    requires IsRun(ss, es, marqueeId) && AllOrderly(ss, es, marqueeId) && k < |es| && es[k].Reap?
    ensures read < k && es[read].ReadRows?
    ensures forall j :: read <= j < |ss| ==> !HasRow(ss[j], marqueeId, es[k].project)
  {
    var p := es[k].project;
    read := ReapedAfterRead(ss, es, marqueeId, p, k);
    forall j | read <= j < |ss| ensures !HasRow(ss[j], marqueeId, p) {
      StaysOrphaned(ss, es, marqueeId, p, read, j);
    }
  }

  /** The condition is met: a name inserted again between the row read and the reap is swept while its row is live. */
  lemma ReusedNameIsSwept() returns (ss: seq<World>, es: seq<Event>)
    ensures IsRun(ss, es, 1) && !AllOrderly(ss, es, 1)
    ensures es[|es| - 1] == Reap("demo", true) && HasRow(ss[|ss| - 1], 1, "demo") && "demo" !in ss[|ss| - 1].dirs
  {
    var row := Live(Some(1), "demo");
    var s0 := World(map[], {"demo"}, {"demo"}, {"demo"}, Idle);
    var s1 := s0.(sweep := Listed({"demo"}));
    var s2 := s0.(sweep := Reaping({"demo"}));
    var s3 := s2.(rows := map[7 := row]);
    var s4 := s3.(sweep := Reaping({}), dirs := {});
    es := [ListDirs, ReadRows(1), InsertRow(7, row), Reap("demo", true)];
    ss := [s0, s1, s2, s3, s4];
    assert Apply(s0, es[0]) == s1;
    assert Stale(s1, 1, {"demo"}) == {"demo"};
    assert Apply(s1, es[1]) == s2;
    assert s2.used + {"demo"} == s2.used;
    assert Apply(s2, es[2]) == s3;
    assert s3.sweep.todo - {"demo"} == {} && s3.dirs - {"demo"} == {};
    assert Apply(s3, es[3]) == s4;
    assert Takes(ss[2], es[2], 1, "demo") && !Orderly(ss[2], es[2], 1);
    assert s4.rows[7] == row;
  }

  /** And in the other way: a row moved onto the Marquee after the row read loses its directory. */
  lemma MovedRowIsSwept() returns (ss: seq<World>, es: seq<Event>)
    ensures IsRun(ss, es, 1) && !AllOrderly(ss, es, 1)
    ensures es[|es| - 1] == Reap("demo", true) && HasRow(ss[|ss| - 1], 1, "demo") && "demo" !in ss[|ss| - 1].dirs
  {
    var s0 := World(map[7 := Live(Some(2), "demo")], {"demo"}, {"demo"}, {"demo"}, Idle);
    var s1 := s0.(sweep := Listed({"demo"}));
    var s2 := s0.(sweep := Reaping({"demo"}));
    var s3 := s2.(rows := map[7 := Live(Some(1), "demo")]);
    var s4 := s3.(sweep := Reaping({}), dirs := {});
    es := [ListDirs, ReadRows(1), MoveRow(7, Some(1)), Reap("demo", true)];
    ss := [s0, s1, s2, s3, s4];
    assert Apply(s0, es[0]) == s1;
    assert Stale(s1, 1, {"demo"}) == {"demo"};
    assert Apply(s1, es[1]) == s2;
    assert s2.rows[7 := Live(Some(1), "demo")] == s3.rows;
    assert Apply(s2, es[2]) == s3;
    assert s3.sweep.todo - {"demo"} == {} && s3.dirs - {"demo"} == {};
    assert Apply(s3, es[3]) == s4;
    assert Takes(ss[2], es[2], 1, "demo") && !Orderly(ss[2], es[2], 1);
    assert s4.rows[7] == Live(Some(1), "demo");
  }

  /** The reaps of an undisturbed sweep. */
  ghost predicate OnlySuccessfulReaps(es: seq<Event>, from: nat) {
    forall i :: from <= i < |es| ==> es[i].Reap? && es[i].ok
  }

  lemma {:induction false} ReapsRemoveTodo(ss: seq<World>, es: seq<Event>, marqueeId: int, from: nat, k: nat)
    requires IsRun(ss, es, marqueeId) && from <= k < |ss| && OnlySuccessfulReaps(es, from)
    requires ss[from].sweep.Reaping?
    ensures ss[k].sweep.Reaping? && ss[k].rows == ss[from].rows
    ensures ss[k].dirs - ss[k].sweep.todo == ss[from].dirs - ss[from].sweep.todo
    decreases k
  {
    if from < k {
      ReapsRemoveTodo(ss, es, marqueeId, from, k - 1);
      assert es[k - 1].Reap? && es[k - 1].ok;
      assert ss[k] == Apply(ss[k - 1], es[k - 1]);
    }
  }

  /** A sweep that is not disturbed and succeeds leaves only directories that belong to rows. */
  lemma UndisturbedSweepIsComplete(ss: seq<World>, es: seq<Event>, marqueeId: int, k: nat)
    requires IsRun(ss, es, marqueeId) && k + 2 <= |es|
    requires es[k].ListDirs? && es[k + 1].ReadRows? && OnlySuccessfulReaps(es, k + 2)
    requires ss[|ss| - 1].sweep == Reaping({})
    ensures DirsOwned(ss[|ss| - 1], marqueeId)
  {
    var read := ss[k + 2];
    assert ss[k + 1] == Apply(ss[k], es[k]) && read == Apply(ss[k + 1], es[k + 1]);
    ReapsRemoveTodo(ss, es, marqueeId, k + 2, |ss| - 1);
    var last := ss[|ss| - 1];
    forall p | p in last.dirs ensures HasRow(last, marqueeId, p) {
      assert p in last.dirs - last.sweep.todo;
      assert p in read.dirs && p !in Stale(ss[k + 1], marqueeId, ss[k].dirs);
      assert HasRow(ss[k + 1], marqueeId, p);
    }
  }
}
