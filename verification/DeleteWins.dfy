/** What a deletion leaves behind (`playgroundsDelete` in `internal/playground/http.go`): when no
    deployment is under way any more by the time the row goes, no containers of it stay up. */
module DeleteWins {
  import opened Text
  import opened PlaygroundStore
  import opened Deployment
  import opened DeploymentProgress
  import opened StopWins

  /** A background save is going to write a status other than `destroying`, or a push build turns out ready. */
  predicate IsRewriting(s: State, b: int) {
    && b in s.savers
    && ((s.savers[b].Holding? && s.savers[b].writes != Destroying) || (s.savers[b].Building? && s.savers[b].ready))
  }

  ghost predicate NoneRewriting(s: State) {
    (forall t :: !IsMarking(s, t)) && (forall b :: !IsRewriting(s, b))
  }

  /** No stop is accepted, Compose does not fail half-way up, and the row is not removed yet. */
  predicate StillThere(e: Event) {
    !e.StopAccept? && !e.DeleteFinish? && !(e.RunFails? && e.leftUp)
  }

  /** This request is still going to destroy Compose. */
  predicate WillDestroy(s: State, h: int) {
    h in s.deletes && s.deletes[h].DestroysCompose?
  }

  /** Whatever runs has someone to bring it down. */
  ghost predicate UpIsHandled(s: State) {
    s.up ==> (exists h :: WillDestroy(s, h)) || (exists h :: WillStop(s, h)) || (exists t :: WillCleanUp(s, t))
  }

  /** What holds from an accepted deletion until the row is removed. */
  ghost predicate DeleteInv(s: State) {
    StatusIs(s.row, Destroying) && NoneRewriting(s) && UpIsHandled(s)
  }

  lemma NothingLands(s: State, e: Event)
    requires Inv(s) && Enabled(s, e) && StatusIs(s.row, Destroying)
    ensures !Swaps(s, e)
  {
    assert e.Swap? ==> TaskOk(s, s.tasks[e.id]);
  }

  lemma StaysDestroying(s: State, e: Event)
    requires Inv(s) && Enabled(s, e) && StatusIs(s.row, Destroying) && NoneRewriting(s) && StillThere(e)
    ensures StatusIs(RowAfter(s, e), Destroying)
  {
    NothingLands(s, e);
    assert forall t, payload :: e == MarkError(t, payload) ==> IsMarking(s, t);
    assert forall b, payload :: e == SaveBack(b, payload) ==> !IsRewriting(s, b);
  }

  lemma StaysNoneRewriting(s: State, e: Event)
    requires Enabled(s, e) && StatusIs(s.row, Destroying) && NoneRewriting(s)
    ensures NoneRewriting(Apply(s, e))
  {
    forall t ensures !IsMarking(Apply(s, e), t) { assert !IsMarking(s, t); }
    forall b ensures !IsRewriting(Apply(s, e), b) { assert !IsRewriting(s, b); }
  }

  lemma CleanerGoesOn(s: State, e: Event, t: int)
    requires Inv(s) && Enabled(s, e) && StatusIs(s.row, Destroying) && StillThere(e) && WillCleanUp(s, t)
    ensures WillCleanUp(Apply(s, e), t) || !Apply(s, e).up
  {
    assert TaskOk(s, s.tasks[t]);
  }

  lemma BroughtUpIsWatched(s: State, e: Event)
    requires Inv(s) && Enabled(s, e) && StillThere(e) && !s.up && UpAfter(s, e)
    ensures WillCleanUp(Apply(s, e), e.id)
  {
    assert e.Run? && TaskOk(s, s.tasks[e.id]);
  }

  lemma UpStaysCovered(s: State, e: Event)
    requires Inv(s) && Enabled(s, e) && StatusIs(s.row, Destroying) && UpIsHandled(s) && StillThere(e)
    ensures UpIsHandled(Apply(s, e))
  {
    var s' := Apply(s, e);
    if s'.up {
      if !s.up {
        BroughtUpIsWatched(s, e);
      } else if h :| WillDestroy(s, h) {
        assert WillDestroy(s', h);
      } else if h :| WillStop(s, h) {
        assert WillStop(s', h);
      } else {
        var t :| WillCleanUp(s, t);
        CleanerGoesOn(s, e, t);
      }
    }
  }

  /** The deletion accepted at position `a` has Compose to destroy. */
  predicate DeleteAccepted(ss: seq<State>, es: seq<Event>, a: nat) {
    a < |es| && a < |ss| && es[a].DeleteAccept? && ss[a].row.Some? && ss[a].row.value.meta.marquee.Some?
  }

  lemma AcceptBegins(s: State, e: Event)
    requires Inv(s) && Enabled(s, e) && e.DeleteAccept? && s.row.value.meta.marquee.Some? && NoneRewriting(s)
    ensures DeleteInv(Apply(s, e))
  {
    var s' := Apply(s, e);
    assert WillDestroy(s', e.id);
    forall t ensures !IsMarking(s', t) { assert !IsMarking(s, t); }
    forall b ensures !IsRewriting(s', b) { assert !IsRewriting(s, b); }
  }

  lemma {:induction false} DeleteInvHolds(ss: seq<State>, es: seq<Event>, a: nat, k: nat)
    requires IsRun(ss, es) && a < k < |ss| && DeleteAccepted(ss, es, a)
    requires NoneRewriting(ss[a]) && forall i :: a < i < k ==> StillThere(es[i])
    ensures DeleteInv(ss[k])
    decreases k
  {
    RunInv(ss, es, k - 1);
    if k == a + 1 {
      AcceptBegins(ss[a], es[a]);
    } else {
      DeleteInvHolds(ss, es, a, k - 1);
      StaysDestroying(ss[k - 1], es[k - 1]);
      StaysNoneRewriting(ss[k - 1], es[k - 1]);
      UpStaysCovered(ss[k - 1], es[k - 1]);
    }
  }

  /** No deployment is under way, and no request still has Compose to stop or destroy. */
  ghost predicate Quiescent(s: State) {
    && (forall t :: t in s.tasks ==> s.tasks[t].phase.Returned?)
    && (forall h :: !WillStop(s, h)) && (forall h :: !WillDestroy(s, h))
  }

  /** Nothing is there, and nobody is going to bring anything up: a deployment started now finds no row. */
  ghost predicate Gone(s: State) {
    s.row.None? && !s.up && forall t :: t in s.tasks ==>
      s.tasks[t].phase.Returned? || (s.tasks[t].op == 0 && s.tasks[t].phase.Ready? && !s.tasks[t].failing)
  }

  lemma StaysGone(s: State, e: Event)
    requires Enabled(s, e) && Gone(s)
    ensures Gone(Apply(s, e))
  {
  }

  lemma {:induction false} GoneForGood(ss: seq<State>, es: seq<Event>, k: nat, j: nat)
    requires IsRun(ss, es) && k <= j < |ss| && Gone(ss[k])
    ensures Gone(ss[j])
    decreases j
  {
    if k < j {
      GoneForGood(ss, es, k, j - 1);
      StaysGone(ss[j - 1], es[j - 1]);
    }
  }

  /** Main result: after a deletion accepted while no unguarded save was on its way, with no stop
      accepted since, if all deployments have returned by the time the row is removed, then at that
      moment nothing runs, and from then on there is neither a row nor a container, whatever is still
      asked for. */
  lemma DeleteLeavesNothing(ss: seq<State>, es: seq<Event>, a: nat, k: nat, j: nat)
    requires IsRun(ss, es) && a < k < |es| && k < j < |ss| && DeleteAccepted(ss, es, a)
    requires NoneRewriting(ss[a]) && forall i :: a < i < k ==> StillThere(es[i])
    requires es[k].DeleteFinish? && Quiescent(ss[k])
    ensures StatusIs(ss[k].row, Destroying) && !ss[k].up
    ensures ss[j].row.None? && !ss[j].up
  {
    DeleteInvHolds(ss, es, a, k);
    assert !ss[k].up;
    assert Gone(ss[k + 1]);
    GoneForGood(ss, es, k + 1, j);
  }
}
