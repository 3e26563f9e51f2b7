/** Commit history: ancestor traversal and the two branch classifiers of
    `internal/runtime/git_runtime.go` (native Git counts and go-git ancestor sets). */
module GitHistory {
  import opened Text

  type Commit = int

  /** The object store: the parents of every commit it has. */
  type Graph = map<Commit, seq<Commit>>

  // ---------------------------------------------------------------- reachability

  ghost predicate Edge(g: Graph, child: Commit, parent: Commit) {
    child in g && parent in g[child]
  }

  /** Consecutive commits are child and parent; all but the last are in the store. */
  ghost predicate Path(g: Graph, p: seq<Commit>) {
    p != [] && forall i, j :: 0 <= i < j < |p| && j == i + 1 ==> Edge(g, p[i], p[j])
  }

  ghost predicate PathBetween(g: Graph, p: seq<Commit>, a: Commit, b: Commit) {
    Path(g, p) && p[0] == a && p[|p| - 1] == b
  }

  /** `b` is `a` or one of its ancestors. */
  ghost predicate Reaches(g: Graph, a: Commit, b: Commit) {
    exists p :: PathBetween(g, p, a, b)
  }

  lemma ReachesSelf(g: Graph, a: Commit)
    ensures Reaches(g, a, a)
  {
    assert PathBetween(g, [a], a, a);
  }

  lemma ReachesTransitive(g: Graph, a: Commit, b: Commit, c: Commit)
    requires Reaches(g, a, b) && Reaches(g, b, c)
    ensures Reaches(g, a, c)
  {
    var p :| PathBetween(g, p, a, b);
    var q :| PathBetween(g, q, b, c);
    var r := p + q[1..];
    forall i, j | 0 <= i < j < |r| && j == i + 1 ensures Edge(g, r[i], r[j]) {
      if i >= |p| - 1 {
        assert r[i] == q[i + 1 - |p|] && r[j] == q[j + 1 - |p|];
      }
    }
    assert PathBetween(g, r, a, c);
  }

  lemma ReachesParent(g: Graph, a: Commit, b: Commit, parent: Commit)
    requires Reaches(g, a, b) && b in g && parent in g[b]
    ensures Reaches(g, a, parent)
  {
    assert Edge(g, b, parent);
    assert PathBetween(g, [b, parent], b, parent);
    ReachesTransitive(g, a, b, parent);
  }

  ghost predicate Extends(g: Graph, g': Graph) {
    forall c :: c in g ==> c in g' && g'[c] == g[c]
  }

  lemma ReachesInExtension(g: Graph, g': Graph, a: Commit, b: Commit)
    requires Reaches(g, a, b) && Extends(g, g')
    ensures Reaches(g', a, b)
  {
    var p :| PathBetween(g, p, a, b);
    assert forall x, y :: Edge(g, x, y) ==> Edge(g', x, y);
    assert PathBetween(g', p, a, b);
  }

  /** A set that contains a commit and the parents of its members contains everything reachable. */
  lemma {:induction false} ClosedContainsReachable(g: Graph, s: set<Commit>, p: seq<Commit>)
    requires Path(g, p) && p[0] in s
    requires forall c, q :: c in s && c in g && q in g[c] ==> q in s
    ensures p[|p| - 1] in s
    decreases |p|
  {
    if |p| > 1 {
      assert Edge(g, p[0], p[1]);
      assert p[1..][0] == p[1];
      ClosedContainsReachable(g, s, p[1..]);
    }
  }

  /** No commit reachable from `a` is missing from the store. */
  ghost predicate Complete(g: Graph, a: Commit) {
    forall c :: Reaches(g, a, c) ==> c in g
  }

  ghost function Ancestors(g: Graph, a: Commit): set<Commit> {
    set c | c in g && Reaches(g, a, c)
  }

  /** More objects add nothing to a history that is complete already. */
  lemma CompleteInExtension(g: Graph, g': Graph, a: Commit)
    requires Complete(g, a) && Extends(g, g')
    ensures Complete(g', a)
  {
    ReachesSelf(g, a);
    forall c | Reaches(g', a, c) ensures c in g' {
      var p :| PathBetween(g', p, a, c);
      forall b, q | b in Ancestors(g, a) && q in g'[b] ensures q in Ancestors(g, a) { ReachesParent(g, a, b, q); }
      ClosedContainsReachable(g', Ancestors(g, a), p);
    }
  }

  // ---------------------------------------------------------------- traversal

  /** A traversal that has seen these commits and still has that stack to do. */
  ghost predicate WalkInv(g: Graph, from: Commit, seen: set<Commit>, stack: seq<Commit>) {
    && (forall c :: c in seen || c in stack ==> Reaches(g, from, c))
    && (from in seen || from in stack)
    && (forall c, q :: c in seen && c in g && q in g[c] ==> q in seen || q in stack)
  }

  lemma WalkStarts(g: Graph, from: Commit)
    ensures WalkInv(g, from, {}, [from])
  {
    ReachesSelf(g, from);
  }

  lemma WalkSkips(g: Graph, from: Commit, seen: set<Commit>, rest: seq<Commit>, commit: Commit)
    requires WalkInv(g, from, seen, rest + [commit]) && commit in seen
    ensures WalkInv(g, from, seen, rest)
  {
    assert forall c :: c in rest + [commit] <==> c in rest || c == commit;
  }

  function ParentsOf(g: Graph, commit: Commit): seq<Commit> {
    if commit in g then g[commit] else []
  }

  lemma WalkVisits(g: Graph, from: Commit, seen: set<Commit>, rest: seq<Commit>, commit: Commit)
    requires WalkInv(g, from, seen, rest + [commit])
    ensures WalkInv(g, from, seen + {commit}, rest + ParentsOf(g, commit)) && Reaches(g, from, commit)
  {
    assert forall c :: c in rest + [commit] <==> c in rest || c == commit;
    assert forall c :: c in rest + ParentsOf(g, commit) <==> c in rest || c in ParentsOf(g, commit);
    forall q | q in ParentsOf(g, commit) ensures Reaches(g, from, q) { ReachesParent(g, from, commit, q); }
  }

  lemma WalkEnds(g: Graph, from: Commit, seen: set<Commit>)
    requires WalkInv(g, from, seen, [])
    ensures forall c :: c in seen <==> Reaches(g, from, c)
  {
    forall c | Reaches(g, from, c) ensures c in seen {
      var p :| PathBetween(g, p, from, c);
      ClosedContainsReachable(g, seen, p);
    }
  }

  lemma OneFewer(all: set<Commit>, seen: set<Commit>, commit: Commit)
    requires commit !in seen
    ensures commit in all ==> |all - (seen + {commit})| < |all - seen|
    ensures commit !in all ==> all - (seen + {commit}) == all - seen
  {
    if commit in all { assert all - seen == (all - (seen + {commit})) + {commit}; }
  }

  /** `ancestorSet`: the log iterator walks a stack of commits, skipping the ones already
      seen, and fails on a commit the store does not have. */
  method AncestorSet(g: Graph, from: Commit) returns (ok: bool, seen: set<Commit>)
    ensures ok <==> Complete(g, from)
    ensures ok ==> seen == Ancestors(g, from)
  {
    seen := {};
    var stack := [from];
    WalkStarts(g, from);
    while stack != []
      invariant seen <= g.Keys && WalkInv(g, from, seen, stack)
      decreases |g.Keys - seen|, |stack|
    {
      var n := |stack| - 1;
      var commit, rest := stack[n], stack[..n];
      assert stack == rest + [commit];
      if commit in seen {
        WalkSkips(g, from, seen, rest, commit);
        stack := rest;
        continue;
      }
      WalkVisits(g, from, seen, rest, commit);
      if commit !in g {
        return false, seen;
      }
      OneFewer(g.Keys, seen, commit);
      seen := seen + {commit};
      stack := rest + g[commit];
    }
    WalkEnds(g, from, seen);
    ok := true;
  }

  /** Everything reachable, stored or only named as a parent: what a search through the store can find. */
  method Walk(g: Graph, from: Commit) returns (reached: set<Commit>)
    ensures forall c :: c in reached <==> Reaches(g, from, c)
  {
    reached := {};
    var stack := [from];
    WalkStarts(g, from);
    while stack != []
      invariant WalkInv(g, from, reached, stack)
      decreases |g.Keys - reached|, |stack|
    {
      var n := |stack| - 1;
      var commit, rest := stack[n], stack[..n];
      assert stack == rest + [commit];
      if commit in reached {
        WalkSkips(g, from, reached, rest, commit);
        stack := rest;
        continue;
      }
      WalkVisits(g, from, reached, rest, commit);
      OneFewer(g.Keys, reached, commit);
      reached := reached + {commit};
      stack := rest + ParentsOf(g, commit);
    }
    WalkEnds(g, from, reached);
  }

  // ---------------------------------------------------------------- the two classifiers

  datatype Relation = Same | Behind | Ahead | Diverged

  datatype CliRelation = CliOk | CliAhead | CliDiverged

  /** go-git's answer, in terms of reachability. */
  ghost function BranchRelationSpec(g: Graph, local: Commit, upstream: Commit): Relation {
    if local == upstream then Same
    else if Reaches(g, upstream, local) then Behind
    else if Reaches(g, local, upstream) then Ahead
    else Diverged
  }

  /** `branchRelation` over `ancestorSet`; unreadable history is an error. */
  method BranchRelation(g: Graph, local: Commit, upstream: Commit) returns (ok: bool, relation: Relation)
    ensures ok <==> local == upstream || (Complete(g, local) && Complete(g, upstream))
    ensures ok ==> relation == BranchRelationSpec(g, local, upstream)
  {
    if local == upstream { return true, Same; }
    var localOk, localAncestors := AncestorSet(g, local);
    if !localOk { return false, Diverged; }
    var upstreamOk, upstreamAncestors := AncestorSet(g, upstream);
    if !upstreamOk { return false, Diverged; }
    ReachesSelf(g, local);
    ReachesSelf(g, upstream);
    ok := true;
    if local in upstreamAncestors { relation := Behind; }
    else if upstream in localAncestors { relation := Ahead; }
    else { relation := Diverged; }
  }

  /** `git rev-list --left-right --count HEAD...upstream`: commits on one side only. */
  ghost function AheadCount(g: Graph, local: Commit, upstream: Commit): nat {
    |Ancestors(g, local) - Ancestors(g, upstream)|
  }

  function ClassifyCounts(ahead: nat, behind: nat): CliRelation {
    if ahead > 0 && behind > 0 then CliDiverged else if ahead > 0 then CliAhead else CliOk
  }

  /** The two numbers native Git prints, or that it fails. */
  type Counts = Option<(nat, nat)>

  /** Native Git's counts and their classification (`gitCLIBranchRelation`).  Over complete histories
      the counts are exact; what Git answers over a history with gaps is not modelled: `overGaps` is
      any answer at all. */
  method GitCliBranchRelation(g: Graph, local: Commit, upstream: Commit, overGaps: Counts)
      returns (ok: bool, relation: CliRelation)
    ensures Complete(g, local) && Complete(g, upstream) ==>
              ok && relation == ClassifyCounts(AheadCount(g, local, upstream), AheadCount(g, upstream, local))
    ensures !(Complete(g, local) && Complete(g, upstream)) ==>
              (ok <==> overGaps.Some?) && (ok ==> relation == ClassifyCounts(overGaps.value.0, overGaps.value.1))
  {
    var localOk, localAncestors := AncestorSet(g, local);
    var upstreamOk, upstreamAncestors := AncestorSet(g, upstream);
    var counts := overGaps;
    if localOk && upstreamOk {
      counts := Some((|localAncestors - upstreamAncestors|, |upstreamAncestors - localAncestors|));
    }
    if counts.None? { return false, CliOk; }
    return true, ClassifyCounts(counts.value.0, counts.value.1);
  }

  /** Nothing is on one side only exactly when that side's head is reachable from the other. */
  lemma NoneAheadIff(g: Graph, local: Commit, upstream: Commit)
    requires Complete(g, local)
    ensures AheadCount(g, local, upstream) == 0 <==> Reaches(g, upstream, local)
  {
    ReachesSelf(g, local);
    var extra := Ancestors(g, local) - Ancestors(g, upstream);
    if Reaches(g, upstream, local) {
      forall c | c in Ancestors(g, local) ensures c in Ancestors(g, upstream) {
        ReachesTransitive(g, upstream, local, c);
      }
      assert extra == {};
    } else {
      assert local in extra;
    }
  }

  /** Main result: on every commit graph with readable history the two classifiers agree. */
  lemma ClassifiersAgree(g: Graph, local: Commit, upstream: Commit)
    requires Complete(g, local) && Complete(g, upstream)
    ensures var cli := ClassifyCounts(AheadCount(g, local, upstream), AheadCount(g, upstream, local));
            var gogit := BranchRelationSpec(g, local, upstream);
            && (cli == CliOk <==> gogit == Same || gogit == Behind)
            && (cli == CliAhead <==> gogit == Ahead)
            && (cli == CliDiverged <==> gogit == Diverged)
  {
    NoneAheadIff(g, local, upstream);
    NoneAheadIff(g, upstream, local);
    ReachesSelf(g, local);
  }
}
