/** Updating an existing source checkout (`updateGitCheckout` and both of its
    implementations in `internal/runtime/git_runtime.go`). */
module SourceSync {
  import opened Text
  import opened GitHistory

  /** A checkout: its object store, local branches, remote-tracking branches, current branch, and worktree state. */
  datatype Repo = Repo(objects: Graph, branches: map<string, Commit>, tracking: map<string, Commit>,
                       head: string, dirty: bool)

  /** What the remote holds at the moment it is contacted, and whether the contact succeeds. */
  datatype Origin = Origin(objects: Graph, branches: map<string, Commit>, reachable: bool)

  datatype Outcome =
    | Synced | DirtyWork | FetchFailed | MissingUpstream | CheckoutFailed | HistoryUnverifiable
    | AheadOfUpstream | DivergedFromUpstream | PullFailed

  /** What updates the checkout, and its answers where a history has gaps: the counts native Git
      prints there, if any, and whether the pull goes through there. */
  datatype Tool = GoGit(pullsOverGaps: bool) | Native(counts: Counts, pullsOverGaps: bool)

  datatype Verdict = Unreadable | Proceed | RefuseAhead | RefuseDiverged

  /** Commits are content-addressed: any two stores agree on the commits they share. */
  ghost predicate Within(g: Graph, world: Graph) {
    Extends(g, world)
  }

  ghost predicate Consistent(repo: Repo, fetched: Origin, pulled: Origin, world: Graph) {
    Within(repo.objects, world) && Within(fetched.objects, world) && Within(pulled.objects, world)
  }

  // ---------------------------------------------------------------- the update, step by step

  /** `fetch --all --prune`. */
  function Fetch(repo: Repo, origin: Origin): Repo {
    repo.(objects := repo.objects + origin.objects, tracking := origin.branches)
  }

  /** Switch to the branch, creating it at its upstream when there is no local one. */
  function Checkout(repo: Repo, branch: string): Repo
    requires branch in repo.tracking
  {
    if branch in repo.branches then repo.(head := branch)
    else repo.(branches := repo.branches[branch := repo.tracking[branch]], head := branch)
  }

  ghost predicate BothComplete(g: Graph, local: Commit, upstream: Commit) {
    Complete(g, local) && Complete(g, upstream)
  }

  /** `pull --ff-only`, which contacts the remote again.  It moves the branch only to a head that is
      found to contain the old one; whether it gets that far over a history with gaps is up to the tool. */
  ghost function Pull(repo: Repo, branch: string, origin: Origin, overGaps: bool): (Repo, Outcome)
    requires branch in repo.branches
  {
    if !origin.reachable || branch !in origin.branches then (repo, PullFailed)
    else
      var r := repo.(objects := repo.objects + origin.objects,
                     tracking := repo.tracking[branch := origin.branches[branch]]);
      var local, upstream := r.branches[branch], origin.branches[branch];
      if !overGaps && !BothComplete(r.objects, local, upstream) then (r, PullFailed)
      else if Reaches(r.objects, upstream, local) then (r.(branches := r.branches[branch := upstream]), Synced)
      else if Reaches(r.objects, local, upstream) then (r, Synced)
      else (r, PullFailed)
  }

  /** The history check.  go-git walks both histories unless the two heads are the same commit;
      native Git's counts are exact over complete histories. */
  ghost function Judge(g: Graph, local: Commit, upstream: Commit, tool: Tool): Verdict {
    match tool
    case GoGit(_) =>
      if local != upstream && !BothComplete(g, local, upstream) then Unreadable
      else
        (match BranchRelationSpec(g, local, upstream)
         case Ahead => RefuseAhead
         case Diverged => RefuseDiverged
         case _ => Proceed)
    case Native(overGaps, _) =>
      var counts :=
        if BothComplete(g, local, upstream) then Some((AheadCount(g, local, upstream), AheadCount(g, upstream, local)))
        else overGaps;
      if counts.None? then Unreadable
      else
        (match ClassifyCounts(counts.value.0, counts.value.1)
         case CliAhead => RefuseAhead
         case CliDiverged => RefuseDiverged
         case CliOk => Proceed)
  }

  /** Over complete histories both tools judge by reachability. */
  lemma JudgedByReachability(g: Graph, local: Commit, upstream: Commit, tool: Tool)
    requires BothComplete(g, local, upstream)
    ensures var verdict := Judge(g, local, upstream, tool);
            && (verdict == Proceed <==> Reaches(g, upstream, local))
            && (verdict == RefuseAhead <==> !Reaches(g, upstream, local) && Reaches(g, local, upstream))
            && (verdict == RefuseDiverged <==> !Reaches(g, upstream, local) && !Reaches(g, local, upstream))
  {
    ClassifiersAgree(g, local, upstream);
    ReachesSelf(g, local);
  }

  /** The whole update: `fetched` and `pulled` are the remote at its two contacts. */
  ghost function Update(repo: Repo, branch: string, fetched: Origin, pulled: Origin, canCheckout: bool, tool: Tool)
    : (Repo, Outcome)
  {
    if repo.dirty then (repo, DirtyWork)
    else if !fetched.reachable then (repo, FetchFailed)
    else
      var r1 := Fetch(repo, fetched);
      if branch !in fetched.branches then (r1, MissingUpstream)
      else if !canCheckout then (r1, CheckoutFailed)
      else
        var r2 := Checkout(r1, branch);
        match Judge(r2.objects, r2.branches[branch], r2.tracking[branch], tool)
        case Unreadable => (r2, HistoryUnverifiable)
        case RefuseAhead => (r2, AheadOfUpstream)
        case RefuseDiverged => (r2, DivergedFromUpstream)
        case Proceed => Pull(r2, branch, pulled, tool.pullsOverGaps)
  }

  // ---------------------------------------------------------------- no commits are lost

  lemma UnionExtends(a: Graph, b: Graph, world: Graph)
    requires Within(a, world) && Within(b, world)
    ensures Extends(a, a + b) && Within(a + b, world)
  {
  }

  /** Nothing is taken from the store, and every branch there was is still there, at its old
      head or at one that has the old head as an ancestor. */
  ghost predicate Advanced(before: Repo, after: Repo) {
    && Extends(before.objects, after.objects)
    && (forall b :: b in before.branches ==>
        b in after.branches && Reaches(after.objects, after.branches[b], before.branches[b]))
  }

  ghost predicate SameHeads(before: Repo, after: Repo) {
    forall b :: b in before.branches ==> b in after.branches && after.branches[b] == before.branches[b]
  }

  lemma SameHeadsAdvance(before: Repo, after: Repo)
    requires Extends(before.objects, after.objects) && SameHeads(before, after)
    ensures Advanced(before, after)
  {
    forall c { ReachesSelf(after.objects, c); }
  }

  lemma PullAdvances(repo: Repo, branch: string, origin: Origin, overGaps: bool, world: Graph)
    requires branch in repo.branches && Within(repo.objects, world) && Within(origin.objects, world)
    ensures Advanced(repo, Pull(repo, branch, origin, overGaps).0)
    ensures Within(Pull(repo, branch, origin, overGaps).0.objects, world)
    ensures forall b :: b in repo.branches && b != branch ==>
          Pull(repo, branch, origin, overGaps).0.branches[b] == repo.branches[b]
  {
    UnionExtends(repo.objects, origin.objects, world);
    var after := Pull(repo, branch, origin, overGaps).0;
    assert Extends(repo.objects, after.objects);
    forall b | b in repo.branches
          ensures b in after.branches && Reaches(after.objects, after.branches[b], repo.branches[b]) {
      ReachesSelf(after.objects, repo.branches[b]);
    }
  }

  lemma AdvancedTransitive(a: Repo, b: Repo, c: Repo)
    requires Advanced(a, b) && Advanced(b, c)
    ensures Advanced(a, c)
  {
    forall x | x in a.branches ensures x in c.branches && Reaches(c.objects, c.branches[x], a.branches[x]) {
      ReachesInExtension(b.objects, c.objects, b.branches[x], a.branches[x]);
      ReachesTransitive(c.objects, c.branches[x], b.branches[x], a.branches[x]);
    }
  }

  lemma FetchAdvances(repo: Repo, fetched: Origin, world: Graph)
    requires Within(repo.objects, world) && Within(fetched.objects, world)
    ensures Advanced(repo, Fetch(repo, fetched)) && Within(Fetch(repo, fetched).objects, world)
    ensures Fetch(repo, fetched).branches == repo.branches
  {
    UnionExtends(repo.objects, fetched.objects, world);
    SameHeadsAdvance(repo, Fetch(repo, fetched));
  }

  lemma CheckoutAdvances(repo: Repo, branch: string)
    requires branch in repo.tracking
    ensures Advanced(repo, Checkout(repo, branch)) && Checkout(repo, branch).objects == repo.objects
    ensures forall b :: b in repo.branches ==> Checkout(repo, branch).branches[b] == repo.branches[b]
  {
    SameHeadsAdvance(repo, Checkout(repo, branch));
  }

  /** The states an update can end in. */
  lemma UpdateEnds(repo: Repo, branch: string, fetched: Origin, pulled: Origin, canCheckout: bool, tool: Tool)
    ensures var after := Update(repo, branch, fetched, pulled, canCheckout, tool).0;
            || after == repo
            || after == Fetch(repo, fetched)
            || (branch in fetched.branches &&
                var r2 := Checkout(Fetch(repo, fetched), branch);
                after == r2 || after == Pull(r2, branch, pulled, tool.pullsOverGaps).0)
  {
  }

  ghost predicate AdvancedOn(before: Repo, after: Repo, branch: string, world: Graph) {
    && Advanced(before, after) && Within(after.objects, world)
    && forall b :: b in before.branches && b != branch ==> after.branches[b] == before.branches[b]
  }

  lemma AdvancedOnTransitive(a: Repo, b: Repo, c: Repo, branch: string, world: Graph)
    requires AdvancedOn(a, b, branch, world) && AdvancedOn(b, c, branch, world)
    ensures AdvancedOn(a, c, branch, world)
  {
    AdvancedTransitive(a, b, c);
  }

  lemma CheckedOutAdvances(repo: Repo, branch: string, fetched: Origin, world: Graph)
    requires Within(repo.objects, world) && Within(fetched.objects, world)
    ensures AdvancedOn(repo, Fetch(repo, fetched), branch, world)
    ensures branch in fetched.branches ==>
              AdvancedOn(repo, Checkout(Fetch(repo, fetched), branch), branch, world)
  {
    FetchAdvances(repo, fetched, world);
    if branch in fetched.branches {
      CheckoutAdvances(Fetch(repo, fetched), branch);
      AdvancedOnTransitive(repo, Fetch(repo, fetched), Checkout(Fetch(repo, fetched), branch), branch, world);
    }
  }

  /** An update, whatever its outcome, only adds objects and only moves branches forward, and no
      branch but the requested one. */
  lemma UpdateAdvances(repo: Repo, branch: string, fetched: Origin, pulled: Origin, canCheckout: bool, tool: Tool,
        world: Graph)
    requires Consistent(repo, fetched, pulled, world)
    ensures AdvancedOn(repo, Update(repo, branch, fetched, pulled, canCheckout, tool).0, branch, world)
  {
    SameHeadsAdvance(repo, repo);
    CheckedOutAdvances(repo, branch, fetched, world);
    UpdateEnds(repo, branch, fetched, pulled, canCheckout, tool);
    if branch in fetched.branches {
      var r2 := Checkout(Fetch(repo, fetched), branch);
      var r3 := Pull(r2, branch, pulled, tool.pullsOverGaps).0;
      PullAdvances(r2, branch, pulled, tool.pullsOverGaps, world);
      AdvancedOnTransitive(repo, r2, r3, branch, world);
    }
  }

  /** A dirty checkout is not touched at all; an ahead or diverged branch keeps its head, as do
      all other branches, and the outcome says so. */
  lemma BlockedKeepsHeads(repo: Repo, branch: string, fetched: Origin, pulled: Origin, canCheckout: bool, tool: Tool)
    ensures var (after, outcome) := Update(repo, branch, fetched, pulled, canCheckout, tool);
            && (outcome == DirtyWork <==> repo.dirty)
            && (repo.dirty ==> after == repo)
            && (outcome == FetchFailed <==> !repo.dirty && !fetched.reachable)
            && (outcome == FetchFailed ==> after == repo)
            && (outcome == MissingUpstream <==> !repo.dirty && fetched.reachable && branch !in fetched.branches)
            && (outcome == CheckoutFailed
                <==> !repo.dirty && fetched.reachable && branch in fetched.branches && !canCheckout)
            && (outcome in {MissingUpstream, CheckoutFailed, HistoryUnverifiable, AheadOfUpstream,
                DivergedFromUpstream, PullFailed}
                ==> SameHeads(repo, after))
  {
  }

  /** The local head the update judges: a branch it has to create starts at its upstream. */
  ghost function LocalHead(repo: Repo, branch: string, fetched: Origin): Commit
    requires branch in fetched.branches
  {
    if branch in repo.branches then repo.branches[branch] else fetched.branches[branch]
  }

  /** Exactly when the history cannot be verified: it has gaps, and go-git has to walk it, or native
      Git gives no counts. */
  lemma UnverifiableIff(repo: Repo, branch: string, fetched: Origin, pulled: Origin, canCheckout: bool, tool: Tool)
    ensures Update(repo, branch, fetched, pulled, canCheckout, tool).1 == HistoryUnverifiable <==>
            && !repo.dirty && fetched.reachable && branch in fetched.branches && canCheckout
            && var local, upstream := LocalHead(repo, branch, fetched), fetched.branches[branch];
               && !BothComplete(repo.objects + fetched.objects, local, upstream)
               && (match tool case GoGit(_) => local != upstream case Native(counts, _) => counts.None?)
  {
  }

  /** Exactly when a clean checkout of an existing branch is refused for its history. */
  lemma RefusedIff(repo: Repo, branch: string, fetched: Origin, pulled: Origin, tool: Tool)
    requires !repo.dirty && fetched.reachable && branch in repo.branches && branch in fetched.branches
    requires BothComplete(repo.objects + fetched.objects, repo.branches[branch], fetched.branches[branch])
    ensures var g, outcome := repo.objects + fetched.objects, Update(repo, branch, fetched, pulled, true, tool).1;
            var local, upstream := repo.branches[branch], fetched.branches[branch];
            && (outcome in {AheadOfUpstream, DivergedFromUpstream} <==> !Reaches(g, upstream, local))
            && (outcome == AheadOfUpstream <==> !Reaches(g, upstream, local) && Reaches(g, local, upstream))
            && outcome != HistoryUnverifiable
  {
    JudgedByReachability(repo.objects + fetched.objects, repo.branches[branch], fetched.branches[branch], tool);
  }

  /** When the remote does not move between the two contacts, a successful update leaves the branch
      at a head that contains the upstream's, and exactly at the upstream's head unless native Git
      judged a history with gaps. */
  lemma SyncedIsUpstream(repo: Repo, branch: string, origin: Origin, tool: Tool, world: Graph)
    requires Consistent(repo, origin, origin, world)
    requires Update(repo, branch, origin, origin, true, tool).1 == Synced
    ensures branch in origin.branches
    ensures var after, upstream := Update(repo, branch, origin, origin, true, tool).0, origin.branches[branch];
            && branch in after.branches && Reaches(after.objects, after.branches[branch], upstream)
            && (tool.GoGit? || BothComplete(repo.objects + origin.objects, LocalHead(repo, branch, origin), upstream)
                ==> after.branches[branch] == upstream)
  {
    UnionExtends(repo.objects, origin.objects, world);
    var r2 := Checkout(Fetch(repo, origin), branch);
    var g, local, upstream := r2.objects, r2.branches[branch], origin.branches[branch];
    assert g + origin.objects == g;
    ReachesSelf(g, upstream);
    if BothComplete(g, local, upstream) { JudgedByReachability(g, local, upstream, tool); }
  }

  /** The checkout is clean and can be fast-forwarded: the remote answers both times, and each time
      the branch's head there contains the local head, if there is one, with complete histories. */
  ghost predicate CanFastForward(repo: Repo, branch: string, fetched: Origin, pulled: Origin) {
    && !repo.dirty && fetched.reachable && branch in fetched.branches
    && var g, local := repo.objects + fetched.objects, LocalHead(repo, branch, fetched);
       && BothComplete(g, local, fetched.branches[branch]) && Reaches(g, fetched.branches[branch], local)
       && (pulled == fetched
           || (pulled.reachable && branch in pulled.branches
               && var g' := g + pulled.objects;
                  BothComplete(g', local, pulled.branches[branch]) && Reaches(g', pulled.branches[branch], local)))
  }

  /** Main result: whichever tool there is, a checkout that can be fast-forwarded is updated: it ends
      on the branch, at the remote's head, with the worktree clean. */
  lemma FastForwardIsDone(repo: Repo, branch: string, fetched: Origin, pulled: Origin, tool: Tool)
    requires CanFastForward(repo, branch, fetched, pulled)
    ensures var (after, outcome) := Update(repo, branch, fetched, pulled, true, tool);
            && outcome == Synced && branch in pulled.branches && branch in after.branches && branch in after.tracking
            && after.branches[branch] == after.tracking[branch] == pulled.branches[branch]
            && after.head == branch && !after.dirty
  {
    var r2 := Checkout(Fetch(repo, fetched), branch);
    JudgedByReachability(r2.objects, r2.branches[branch], fetched.branches[branch], tool);
    assert pulled == fetched ==> r2.objects + pulled.objects == r2.objects;
  }

  // ---------------------------------------------------------------- any sequence of updates

  datatype Event =
    | Sync(branch: string, fetched: Origin, pulled: Origin, canCheckout: bool, tool: Tool)
    | Edit(dirty: bool)                               // the user leaves the worktree dirty or clean
    | LocalCommit(commit: Commit, parents: seq<Commit>) // the user commits on the current branch

  ghost predicate Possible(repo: Repo, e: Event, world: Graph) {
    match e
    case Sync(_, fetched, pulled, _, _) => Within(fetched.objects, world) && Within(pulled.objects, world)
    case Edit(_) => true
    case LocalCommit(commit, parents) =>
      && repo.head in repo.branches && repo.branches[repo.head] in parents
      && commit in world && world[commit] == parents
  }

  ghost function Apply(repo: Repo, e: Event): Repo {
    match e
    case Sync(branch, fetched, pulled, canCheckout, tool) =>
      Update(repo, branch, fetched, pulled, canCheckout, tool).0
    case Edit(dirty) => repo.(dirty := dirty)
    case LocalCommit(commit, parents) =>
      repo.(objects := repo.objects[commit := parents], branches := repo.branches[repo.head := commit])
  }

  ghost predicate IsRun(rs: seq<Repo>, es: seq<Event>, world: Graph) {
    && |rs| == |es| + 1 && Within(rs[0].objects, world)
    && forall i :: 0 <= i < |es| ==> Possible(rs[i], es[i], world) && rs[i + 1] == Apply(rs[i], es[i])
  }

  lemma EventAdvances(repo: Repo, e: Event, world: Graph)
    requires Within(repo.objects, world) && Possible(repo, e, world)
    ensures Advanced(repo, Apply(repo, e)) && Within(Apply(repo, e).objects, world)
  {
    match e
    case Sync(branch, fetched, pulled, canCheckout, tool) =>
      UpdateAdvances(repo, branch, fetched, pulled, canCheckout, tool, world);
    case Edit(dirty) =>
      SameHeadsAdvance(repo, Apply(repo, e));
    case LocalCommit(commit, parents) =>
      var after := Apply(repo, e);
      assert Extends(repo.objects, after.objects);
      forall b | b in repo.branches
            ensures b in after.branches && Reaches(after.objects, after.branches[b], repo.branches[b]) {
        ReachesSelf(after.objects, after.branches[b]);
        if b == repo.head {
          ReachesParent(after.objects, commit, commit, repo.branches[b]);
        }
      }
  }

  /** Main result: over any sequence of updates, edits and local commits, with the remote
      different at every contact, each local branch only ever moves to heads that contain its
      earlier heads: no commit a branch ever had is lost from it. */
  lemma {:induction false} NoCommitLost(rs: seq<Repo>, es: seq<Event>, world: Graph, i: nat, j: nat)
    requires IsRun(rs, es, world) && i <= j < |rs|
    ensures Advanced(rs[i], rs[j]) && Within(rs[j].objects, world)
    decreases j
  {
    if i == j {
      RunWithin(rs, es, world, i);
      SameHeadsAdvance(rs[i], rs[i]);
    } else {
      NoCommitLost(rs, es, world, i, j - 1);
      EventAdvances(rs[j - 1], es[j - 1], world);
      AdvancedTransitive(rs[i], rs[j - 1], rs[j]);
    }
  }

  lemma {:induction false} RunWithin(rs: seq<Repo>, es: seq<Event>, world: Graph, i: nat)
    requires IsRun(rs, es, world) && i < |rs|
    ensures Within(rs[i].objects, world)
    decreases i
  {
    if i > 0 {
      RunWithin(rs, es, world, i - 1);
      EventAdvances(rs[i - 1], es[i - 1], world);
    }
  }

  // ---------------------------------------------------------------- the code

  /** `ensureGitCLIFFOnlyBranch`. */
  method EnsureFFOnlyWithCli(g: Graph, local: Commit, upstream: Commit, counts: Counts, pullsOverGaps: bool)
      returns (verdict: Verdict)
    ensures verdict == Judge(g, local, upstream, Native(counts, pullsOverGaps))
  {
    var ok, relation := GitCliBranchRelation(g, local, upstream, counts);
    if !ok { return Unreadable; }
    match relation
    case CliAhead => verdict := RefuseAhead;
    case CliDiverged => verdict := RefuseDiverged;
    case CliOk => verdict := Proceed;
  }

  /** `verifyBranchRelation`. */
  method VerifyBranchRelation(g: Graph, local: Commit, upstream: Commit, pullsOverGaps: bool)
      returns (verdict: Verdict)
    ensures verdict == Judge(g, local, upstream, GoGit(pullsOverGaps))
  {
    var ok, relation := BranchRelation(g, local, upstream);
    if !ok { return Unreadable; }
    match relation
    case Ahead => verdict := RefuseAhead;
    case Diverged => verdict := RefuseDiverged;
    case _ => verdict := Proceed;
  }

  /** A checkout on disk, updated in place. */
  class WorkingCopy {
    var objects: Graph
    var branches: map<string, Commit>
    var tracking: map<string, Commit>
    var head: string
    var dirty: bool

    ghost function State(): Repo
      reads this
    {
      Repo(objects, branches, tracking, head, dirty)
    }

    constructor (repo: Repo)
      ensures State() == repo
    {
      objects, branches, tracking := repo.objects, repo.branches, repo.tracking;
      head, dirty := repo.head, repo.dirty;
    }

    method FetchOrigin(origin: Origin) returns (ok: bool)
      modifies this
      ensures ok <==> origin.reachable
      ensures State() == if ok then Fetch(old(State()), origin) else old(State())
    {
      if !origin.reachable { return false; }
      objects := objects + origin.objects;
      tracking := origin.branches;
      ok := true;
    }

    method CheckoutBranch(branch: string)
      requires branch in tracking
      modifies this
      ensures State() == Checkout(old(State()), branch)
    {
      if branch !in branches {
        branches := branches[branch := tracking[branch]];
      }
      head := branch;
    }

    method PullFastForward(branch: string, origin: Origin, overGaps: bool) returns (outcome: Outcome)
      requires branch in branches
      modifies this
      ensures (State(), outcome) == Pull(old(State()), branch, origin, overGaps)
      // a reachable remote whose head contains the local one, with complete histories, is pulled
      ensures origin.reachable && branch in origin.branches
              && BothComplete(old(objects) + origin.objects, old(branches)[branch], origin.branches[branch])
              && Reaches(old(objects) + origin.objects, origin.branches[branch], old(branches)[branch])
          ==> outcome == Synced && branches == old(branches)[branch := origin.branches[branch]]
    {
      if !origin.reachable || branch !in origin.branches { return PullFailed; }
      var upstream := origin.branches[branch];
      objects := objects + origin.objects;
      tracking := tracking[branch := upstream];
      var localOk, _ := AncestorSet(objects, branches[branch]);
      var upstreamOk, _ := AncestorSet(objects, upstream);
      if !overGaps && !(localOk && upstreamOk) { return PullFailed; }
      var fromUpstream := Walk(objects, upstream);
      if branches[branch] in fromUpstream {
        branches := branches[branch := upstream];
        return Synced;
      }
      var fromLocal := Walk(objects, branches[branch]);
      outcome := if upstream in fromLocal then Synced else PullFailed;
    }

    /** `updateGitCheckoutWithCLI`: classify by counts, then `pull --ff-only`. */
    method UpdateWithCli(branch: string, fetched: Origin, pulled: Origin, canCheckout: bool, counts: Counts,
          pullsOverGaps: bool)
        returns (outcome: Outcome)
      modifies this
      ensures (State(), outcome)
           == Update(old(State()), branch, fetched, pulled, canCheckout, Native(counts, pullsOverGaps))
      ensures canCheckout && CanFastForward(old(State()), branch, fetched, pulled) ==>
                && outcome == Synced && branch in branches && branch in pulled.branches
                && branches[branch] == pulled.branches[branch] && head == branch
    {
      ghost var before := State();
      if canCheckout && CanFastForward(before, branch, fetched, pulled) {
        FastForwardIsDone(before, branch, fetched, pulled, Native(counts, pullsOverGaps));
      }
      if dirty { return DirtyWork; }
      var fetchOk := FetchOrigin(fetched);
      if !fetchOk { return FetchFailed; }
      if branch !in tracking { return MissingUpstream; }
      if !canCheckout { return CheckoutFailed; }
      CheckoutBranch(branch);
      var verdict := EnsureFFOnlyWithCli(objects, branches[branch], tracking[branch], counts, pullsOverGaps);
      match verdict
      case Unreadable => return HistoryUnverifiable;
      case RefuseAhead => return AheadOfUpstream;
      case RefuseDiverged => return DivergedFromUpstream;
      case Proceed => outcome := PullFastForward(branch, pulled, pullsOverGaps);
    }

    /** `updateGitCheckoutWithGoGit`: classify by ancestor sets, then pull. */
    method UpdateWithGoGit(branch: string, fetched: Origin, pulled: Origin, canCheckout: bool, pullsOverGaps: bool)
        returns (outcome: Outcome)
      modifies this
      ensures (State(), outcome) == Update(old(State()), branch, fetched, pulled, canCheckout, GoGit(pullsOverGaps))
      ensures canCheckout && CanFastForward(old(State()), branch, fetched, pulled) ==>
                && outcome == Synced && branch in branches && branch in pulled.branches
                && branches[branch] == pulled.branches[branch] && head == branch
    {
      ghost var before := State();
      if canCheckout && CanFastForward(before, branch, fetched, pulled) {
        FastForwardIsDone(before, branch, fetched, pulled, GoGit(pullsOverGaps));
      }
      if dirty { return DirtyWork; }
      var fetchOk := FetchOrigin(fetched);
      if !fetchOk { return FetchFailed; }
      if branch !in tracking { return MissingUpstream; }
      if !canCheckout { return CheckoutFailed; }
      CheckoutBranch(branch);
      var verdict := VerifyBranchRelation(objects, branches[branch], tracking[branch], pullsOverGaps);
      match verdict
      case Unreadable => return HistoryUnverifiable;
      case RefuseAhead => return AheadOfUpstream;
      case RefuseDiverged => return DivergedFromUpstream;
      case Proceed => outcome := PullFastForward(branch, pulled, pullsOverGaps);
    }
  }

  /** The heads the update compares have complete histories at both contacts. */
  ghost predicate Readable(repo: Repo, branch: string, fetched: Origin, pulled: Origin) {
    var g := repo.objects + fetched.objects;
    && (branch in fetched.branches ==>
        BothComplete(g, LocalHead(repo, branch, fetched), fetched.branches[branch]))
    && (branch in pulled.branches ==> Complete(g + pulled.objects, pulled.branches[branch]))
  }

  /** A pull over complete histories does not depend on what the tool does over gaps. */
  lemma PullsAgree(repo: Repo, branch: string, origin: Origin, a: bool, b: bool, world: Graph)
    requires branch in repo.branches && Within(repo.objects, world) && Within(origin.objects, world)
    requires Complete(repo.objects, repo.branches[branch])
    requires branch in origin.branches ==> Complete(repo.objects + origin.objects, origin.branches[branch])
    ensures Pull(repo, branch, origin, a) == Pull(repo, branch, origin, b)
  {
    UnionExtends(repo.objects, origin.objects, world);
    CompleteInExtension(repo.objects, repo.objects + origin.objects, repo.branches[branch]);
  }

  lemma VerdictsAgree(g: Graph, local: Commit, upstream: Commit, a: Tool, b: Tool)
    requires BothComplete(g, local, upstream)
    ensures Judge(g, local, upstream, a) == Judge(g, local, upstream, b) != Unreadable
  {
    JudgedByReachability(g, local, upstream, a);
    JudgedByReachability(g, local, upstream, b);
  }

  /** On readable histories an update depends neither on the tool nor on its answers over gaps. */
  lemma ToolsAgree(repo: Repo, branch: string, fetched: Origin, pulled: Origin, canCheckout: bool, a: Tool, b: Tool,
        world: Graph)
    requires Consistent(repo, fetched, pulled, world) && Readable(repo, branch, fetched, pulled)
    ensures Update(repo, branch, fetched, pulled, canCheckout, a)
         == Update(repo, branch, fetched, pulled, canCheckout, b)
  {
    if branch in fetched.branches {
      var r2 := Checkout(Fetch(repo, fetched), branch);
      VerdictsAgree(r2.objects, r2.branches[branch], r2.tracking[branch], a, b);
      UnionExtends(repo.objects, fetched.objects, world);
      PullsAgree(r2, branch, pulled, a.pullsOverGaps, b.pullsOverGaps, world);
    }
  }

  /** Main result: on readable histories the two implementations, run on equal copies, end in the
      same repository with the same outcome, whatever either would answer over a gap. */
  method ImplementationsAgree(repo: Repo, branch: string, fetched: Origin, pulled: Origin, canCheckout: bool,
        native: (Counts, bool), goGitOverGaps: bool, ghost world: Graph)
      returns (cli: WorkingCopy, goGit: WorkingCopy, cliOutcome: Outcome, goGitOutcome: Outcome)
    requires Consistent(repo, fetched, pulled, world) && Readable(repo, branch, fetched, pulled)
    ensures cli.State() == goGit.State() && cliOutcome == goGitOutcome
  {
    cli := new WorkingCopy(repo);
    goGit := new WorkingCopy(repo);
    cliOutcome := cli.UpdateWithCli(branch, fetched, pulled, canCheckout, native.0, native.1);
    goGitOutcome := goGit.UpdateWithGoGit(branch, fetched, pulled, canCheckout, goGitOverGaps);
    ToolsAgree(repo, branch, fetched, pulled, canCheckout, Native(native.0, native.1), GoGit(goGitOverGaps), world);
  }
}
