/** The keyed, reference-counted lock table that serialises source syncs per checkout path
    (`keyedSourceSyncLocks` in `internal/worker/source_sync.go`), as a protocol over any
    number of threads, keys and entries. */
module SourceSyncLocks {
  import opened Text

  /** Where a thread stands inside `withLock`: it holds a reference to `entry` from `lock`'s
      first critical section (Waiting) until the release function's last one. */
  datatype Phase =
    | Waiting(key: string, entry: nat)   // registered, blocked on entry.mu.Lock
    | Inside(key: string, entry: nat)    // holds entry.mu, runs the callback
    | Leaving(key: string, entry: nat)   // entry.mu released, reference not yet dropped

  /** `locks` is the Go map; entries are fresh objects, identified by allocation order.
      A thread that is not in `phase` is outside `withLock`. */
  datatype Table = Table(locks: map<string, nat>, refs: map<nat, int>, holder: map<nat, Option<int>>,
                         nextEntry: nat, phase: map<int, Phase>)

  const EMPTY := Table(map[], map[], map[], 0, map[])

  datatype Event =
    | Register(thread: int, key: string)
    | Enter(thread: int)
    | Unlock(thread: int)
    | Unregister(thread: int)

  ghost predicate WellTyped(s: Table) {
    && (forall e: nat :: e in s.refs <==> e < s.nextEntry)
    && (forall e: nat :: e in s.holder <==> e < s.nextEntry)
    && (forall k :: k in s.locks ==> s.locks[k] < s.nextEntry)
    && (forall t :: t in s.phase ==> s.phase[t].entry < s.nextEntry)
  }

  ghost predicate Enabled(s: Table, e: Event)
    requires WellTyped(s)
  {
    match e
    case Register(t, key) => t !in s.phase
    case Enter(t) => t in s.phase && s.phase[t].Waiting? && s.holder[s.phase[t].entry].None?
    case Unlock(t) => t in s.phase && s.phase[t].Inside?
    case Unregister(t) => t in s.phase && s.phase[t].Leaving?
  }

  /** Each event is one critical section of `l.mu`, or one acquisition or release of an entry mutex. */
  ghost function Apply(s: Table, e: Event): Table
    requires WellTyped(s) && Enabled(s, e)
  {
    match e
    case Register(t, key) =>
      if key in s.locks then
        var entry := s.locks[key];
        s.(refs := s.refs[entry := s.refs[entry] + 1], phase := s.phase[t := Waiting(key, entry)])
      else
        var entry := s.nextEntry;
        Table(s.locks[key := entry], s.refs[entry := 1], s.holder[entry := None], entry + 1,
              s.phase[t := Waiting(key, entry)])
    case Enter(t) =>
      var p := s.phase[t];
      s.(holder := s.holder[p.entry := Some(t)], phase := s.phase[t := Inside(p.key, p.entry)])
    case Unlock(t) =>
      var p := s.phase[t];
      s.(holder := s.holder[p.entry := None], phase := s.phase[t := Leaving(p.key, p.entry)])
    case Unregister(t) =>
      var p := s.phase[t];
      var left := s.refs[p.entry] - 1;
      s.(refs := s.refs[p.entry := left],
         locks := if left == 0 then s.locks - {p.key} else s.locks,
         phase := s.phase - {t})
  }

  // ---------------------------------------------------------------- the invariant

  /** The threads holding a reference to an entry. */
  function On(s: Table, entry: nat): set<int> {
    set t | t in s.phase && s.phase[t].entry == entry
  }

  /** Every registered thread's entry is the one in the map under its key, and no entry sits under two keys. */
  ghost predicate Listed(s: Table) {
    && (forall t :: t in s.phase ==> s.phase[t].key in s.locks && s.locks[s.phase[t].key] == s.phase[t].entry)
    && (forall k, l :: k in s.locks && l in s.locks && s.locks[k] == s.locks[l] ==> k == l)
  }

  /** `refs` counts registered threads, and an entry in the map has some. */
  ghost predicate Counted(s: Table)
    requires WellTyped(s)
  {
    && (forall e: nat :: e < s.nextEntry ==> s.refs[e] == |On(s, e)|)
    && (forall k :: k in s.locks ==> s.refs[s.locks[k]] > 0)
  }

  /** The mutex of an entry is held exactly by the thread inside. */
  ghost predicate Held(s: Table)
    requires WellTyped(s)
  {
    && (forall t :: t in s.phase && s.phase[t].Inside? ==> s.holder[s.phase[t].entry] == Some(t))
    && (forall e: nat :: e < s.nextEntry && s.holder[e].Some? ==>
          s.holder[e].value in s.phase && s.phase[s.holder[e].value].Inside? && s.phase[s.holder[e].value].entry == e)
  }

  ghost predicate Inv(s: Table) {
    WellTyped(s) && Listed(s) && Counted(s) && Held(s)
  }

  lemma OnAfterSet(s: Table, s': Table, t: int, p: Phase, e: nat)
    requires s'.phase == s.phase[t := p]
    ensures On(s', e) == if p.entry == e then On(s, e) + {t} else On(s, e) - {t}
  {
  }

  lemma OnAfterRemove(s: Table, s': Table, t: int, e: nat)
    requires s'.phase == s.phase - {t}
    ensures On(s', e) == On(s, e) - {t}
  {
  }

  lemma NothingOnNewEntry(s: Table)
    requires WellTyped(s)
    ensures On(s, s.nextEntry) == {}
  {
    forall u ensures u !in On(s, s.nextEntry) {
      if u in s.phase { assert s.phase[u].entry < s.nextEntry; }
    }
  }

  lemma RegisterKeepsTypes(s: Table, t: int, key: string)
    requires Inv(s) && Enabled(s, Register(t, key))
    ensures WellTyped(Apply(s, Register(t, key)))
  {
  }

  lemma RegisterKeepsListed(s: Table, t: int, key: string)
    requires Inv(s) && Enabled(s, Register(t, key))
    ensures Listed(Apply(s, Register(t, key)))
  {
  }

  lemma RegisterCountsKnown(s: Table, t: int, key: string, e: nat)
    requires Inv(s) && Enabled(s, Register(t, key)) && key in s.locks && e < s.nextEntry
    ensures var s' := Apply(s, Register(t, key));
            e in s'.refs && s'.refs[e] == |On(s', e)|
  {
    var s' := Apply(s, Register(t, key));
    OnAfterSet(s, s', t, Waiting(key, s.locks[key]), e);
    assert t !in On(s, e);
    if e != s.locks[key] {
      assert On(s', e) == On(s, e);
    }
  }

  lemma RegisterCountsNew(s: Table, t: int, key: string, e: nat)
    requires Inv(s) && Enabled(s, Register(t, key)) && key !in s.locks && e <= s.nextEntry
    ensures var s' := Apply(s, Register(t, key));
            e in s'.refs && s'.refs[e] == |On(s', e)|
  {
    var s' := Apply(s, Register(t, key));
    OnAfterSet(s, s', t, Waiting(key, s.nextEntry), e);
    if e == s.nextEntry {
      NothingOnNewEntry(s);
      assert On(s', e) == {t};
    } else {
      assert t !in On(s, e);
      assert On(s', e) == On(s, e);
    }
  }

  lemma RegisterKeepsCounted(s: Table, t: int, key: string)
    requires Inv(s) && Enabled(s, Register(t, key))
    requires WellTyped(Apply(s, Register(t, key)))
    ensures Counted(Apply(s, Register(t, key)))
  {
    var s' := Apply(s, Register(t, key));
    forall e: nat | e < s'.nextEntry ensures s'.refs[e] == |On(s', e)| {
      if key in s.locks {
        RegisterCountsKnown(s, t, key, e);
      } else {
        RegisterCountsNew(s, t, key, e);
      }
    }
    forall k | k in s'.locks ensures s'.refs[s'.locks[k]] > 0 {
      if k in s.locks { assert s.refs[s.locks[k]] > 0; }
    }
  }

  lemma RegisterKeepsHeld(s: Table, t: int, key: string)
    requires Inv(s) && Enabled(s, Register(t, key))
    requires WellTyped(Apply(s, Register(t, key)))
    ensures Held(Apply(s, Register(t, key)))
  {
  }

  lemma RegisterKeepsInv(s: Table, t: int, key: string)
    requires Inv(s) && Enabled(s, Register(t, key))
    ensures Inv(Apply(s, Register(t, key)))
  {
    RegisterKeepsTypes(s, t, key);
    RegisterKeepsListed(s, t, key);
    RegisterKeepsCounted(s, t, key);
    RegisterKeepsHeld(s, t, key);
  }

  /** Taking or releasing the entry mutex changes no registration. */
  lemma SamePlaces(s: Table, s': Table, t: int, p: Phase)
    requires Inv(s) && t in s.phase && p.key == s.phase[t].key && p.entry == s.phase[t].entry
    requires s'.phase == s.phase[t := p] && s'.locks == s.locks && s'.refs == s.refs && s'.nextEntry == s.nextEntry
    requires WellTyped(s')
    ensures Listed(s') && Counted(s')
  {
    forall e: nat ensures On(s', e) == On(s, e) { OnAfterSet(s, s', t, p, e); }
  }

  lemma EnterKeepsInv(s: Table, t: int)
    requires Inv(s) && Enabled(s, Enter(t))
    ensures Inv(Apply(s, Enter(t)))
  {
    var s' := Apply(s, Enter(t));
    assert WellTyped(s');
    SamePlaces(s, s', t, s'.phase[t]);
    assert Held(s');
  }

  lemma UnlockKeepsInv(s: Table, t: int)
    requires Inv(s) && Enabled(s, Unlock(t))
    ensures Inv(Apply(s, Unlock(t)))
  {
    var s' := Apply(s, Unlock(t));
    assert WellTyped(s');
    SamePlaces(s, s', t, s'.phase[t]);
    assert Held(s');
  }

  lemma UnregisterKeepsTypesAndHeld(s: Table, t: int)
    requires Inv(s) && Enabled(s, Unregister(t))
    ensures WellTyped(Apply(s, Unregister(t))) && Held(Apply(s, Unregister(t)))
  {
  }

  lemma UnregisterCounts(s: Table, t: int, e: nat)
    requires Inv(s) && Enabled(s, Unregister(t)) && e < s.nextEntry
    ensures var s' := Apply(s, Unregister(t));
            e in s'.refs && s'.refs[e] == |On(s', e)|
  {
    var s' := Apply(s, Unregister(t));
    OnAfterRemove(s, s', t, e);
    if e == s.phase[t].entry {
      assert t in On(s, e);
    } else {
      assert t !in On(s, e);
      assert On(s', e) == On(s, e);
    }
  }

  lemma UnregisterKeepsInv(s: Table, t: int)
    requires Inv(s) && Enabled(s, Unregister(t))
    ensures Inv(Apply(s, Unregister(t)))
  {
    var s' := Apply(s, Unregister(t));
    var p := s.phase[t];
    UnregisterKeepsTypesAndHeld(s, t);
    forall e: nat | e < s'.nextEntry ensures s'.refs[e] == |On(s', e)| { UnregisterCounts(s, t, e); }
    if s'.refs[p.entry] == 0 {
      UnregisterCounts(s, t, p.entry);
      assert On(s', p.entry) == {};
      forall u | u in s'.phase ensures s.phase[u].key != p.key {
        assert u !in On(s', p.entry);
      }
    }
    forall k | k in s'.locks ensures s'.refs[s'.locks[k]] > 0 {
      assert k in s.locks && s.refs[s.locks[k]] > 0;
      if s.locks[k] == p.entry { assert k == p.key; }
    }
    assert Listed(s') && Counted(s');
  }

  lemma EventKeepsInv(s: Table, e: Event)
    requires Inv(s) && Enabled(s, e)
    ensures Inv(Apply(s, e))
  {
    match e
    case Register(t, key) => RegisterKeepsInv(s, t, key);
    case Enter(t) => EnterKeepsInv(s, t);
    case Unlock(t) => UnlockKeepsInv(s, t);
    case Unregister(t) => UnregisterKeepsInv(s, t);
  }

  // ---------------------------------------------------------------- every run

  ghost predicate IsRun(ss: seq<Table>, es: seq<Event>) {
    && |ss| == |es| + 1 && ss[0] == EMPTY
    && forall i :: 0 <= i < |es| ==> WellTyped(ss[i]) && Enabled(ss[i], es[i]) && ss[i + 1] == Apply(ss[i], es[i])
  }

  lemma {:induction false} RunInv(ss: seq<Table>, es: seq<Event>, i: nat)
    requires IsRun(ss, es) && i < |ss|
    ensures Inv(ss[i])
    decreases i
  {
    if i > 0 {
      RunInv(ss, es, i - 1);
      EventKeepsInv(ss[i - 1], es[i - 1]);
    }
  }

  /** Two threads run their callbacks for the same key. */
  predicate BothInside(s: Table, t: int, u: int) {
    && t in s.phase && u in s.phase && s.phase[t].Inside? && s.phase[u].Inside?
    && s.phase[t].key == s.phase[u].key
  }

  /** Main result, at every point of every run: at most one thread per key is inside `run`;
      the `refs` of every entry, listed or not, is the number of threads registered on it, and is
      positive exactly while the entry is in the map; a key is in the map exactly while some thread
      is registered under it; and when all threads are outside, the map is empty. */
  lemma LockSafety(ss: seq<Table>, es: seq<Event>, i: nat)
    requires IsRun(ss, es) && i < |ss|
    ensures var s := ss[i];
            && (forall t, u :: BothInside(s, t, u) ==> t == u)
            && (forall k :: k in s.locks ==> s.locks[k] in s.refs)
            && (forall e :: e in s.refs ==>
                s.refs[e] == |On(s, e)| && (s.refs[e] > 0 <==> exists k :: k in s.locks && s.locks[k] == e))
            && (forall k :: k in s.locks <==> exists t :: t in s.phase && s.phase[t].key == k)
            && (s.phase == map[] ==> s.locks == map[])
  {
    RunInv(ss, es, i);
    var s := ss[i];
    forall k ensures k in s.locks <==> exists t :: t in s.phase && s.phase[t].key == k {
      if k in s.locks {
        assert On(s, s.locks[k]) != {};
        var t := Pick(On(s, s.locks[k]));
        assert s.phase[t].key == k;
      }
    }
    forall e | e in s.refs && s.refs[e] > 0 ensures exists k :: k in s.locks && s.locks[k] == e {
      var t := Pick(On(s, e));
      assert s.locks[s.phase[t].key] == e;
    }
    forall t, u | BothInside(s, t, u) ensures t == u {
      assert s.holder[s.phase[t].entry] == Some(t);
      assert s.holder[s.phase[u].entry] == Some(u);
    }
    if s.phase == map[] {
      assert forall k :: k !in s.locks;
      assert s.locks == map[];
    }
  }

  lemma HolderIsInside(s: Table, e: nat)
    requires Inv(s) && e < s.nextEntry
    ensures s.holder[e].Some? ==>
              s.holder[e].value in On(s, e) && s.phase[s.holder[e].value].Inside?
  {
    if s.holder[e].Some? {
      assert s.holder[e] == Some(s.holder[e].value);
    }
  }

  /** Deletion removes only an entry nobody waits on, holds, or still refers to; and no step
      ever moves a registered thread to another entry. */
  lemma DeletionIsSafe(ss: seq<Table>, es: seq<Event>, i: nat, k: string)
    requires IsRun(ss, es) && i < |es|
    requires k in ss[i].locks && k !in ss[i + 1].locks
    ensures es[i].Unregister? && es[i].thread in ss[i].phase
    ensures On(ss[i], ss[i].locks[k]) == {es[i].thread} && On(ss[i + 1], ss[i].locks[k]) == {}
    ensures ss[i].holder[ss[i].locks[k]].None?
  {
    RunInv(ss, es, i);
    RunInv(ss, es, i + 1);
    var s, s', t := ss[i], ss[i + 1], es[i].thread;
    var entry := s.locks[k];
    assert s.phase[t].key == k && s.phase[t].entry == entry;
    OnAfterRemove(s, s', t, entry);
    assert s'.refs[entry] == |On(s', entry)| == 0;
    assert t in On(s, entry);
    HolderIsInside(s, entry);
  }

  lemma EntryIsStable(ss: seq<Table>, es: seq<Event>, i: nat, t: int)
    requires IsRun(ss, es) && i < |es| && t in ss[i].phase && t in ss[i + 1].phase
    ensures ss[i + 1].phase[t].key == ss[i].phase[t].key && ss[i + 1].phase[t].entry == ss[i].phase[t].entry
  {
    RunInv(ss, es, i);
  }

  // ---------------------------------------------------------------- the callback runs under the lock

  /** The thread stands at `p` from just after `from` up to `till`. */
  predicate Stands(ss: seq<Table>, t: int, p: Phase, from: nat, till: nat) {
    from < till < |ss| && forall k :: from < k <= till ==> t in ss[k].phase && ss[k].phase[t] == p
  }

  /** Only its own steps move a thread. */
  predicate OthersLeave(s: Table, e: Event, s': Table, t: int) {
    e.thread != t ==> (t in s'.phase <==> t in s.phase) && (t in s.phase ==> s'.phase[t] == s.phase[t])
  }

  lemma StepsLeaveOthers(ss: seq<Table>, es: seq<Event>, t: int, i: nat)
    requires IsRun(ss, es) && i < |es|
    ensures OthersLeave(ss[i], es[i], ss[i + 1], t)
  {
  }

  lemma {:induction false} LastMoveBack(ss: seq<Table>, es: seq<Event>, t: int, i: nat) returns (u: nat)
    requires |ss| == |es| + 1 && forall k :: 0 <= k < |es| ==> OthersLeave(ss[k], es[k], ss[k + 1], t)
    requires t !in ss[0].phase && i < |ss| && t in ss[i].phase
    ensures u < i && es[u].thread == t && Stands(ss, t, ss[i].phase[t], u, i)
    decreases i
  {
    assert OthersLeave(ss[i - 1], es[i - 1], ss[i - 1 + 1], t);
    if es[i - 1].thread == t {
      u := i - 1;
    } else {
      u := LastMoveBack(ss, es, t, i - 1);
    }
  }

  /** A thread stands where its own last step has put it. */
  lemma LastMove(ss: seq<Table>, es: seq<Event>, t: int, i: nat) returns (u: nat)
    requires IsRun(ss, es) && i < |ss| && t in ss[i].phase
    ensures u < i && es[u].thread == t && Stands(ss, t, ss[i].phase[t], u, i)
  {
    forall k | 0 <= k < |es| ensures OthersLeave(ss[k], es[k], ss[k + 1], t) { StepsLeaveOthers(ss, es, t, k); }
    assert t !in ss[0].phase;
    u := LastMoveBack(ss, es, t, i);
  }

  /** The last step of a registered thread, and where it stood before it. */
  lemma CameFrom(ss: seq<Table>, es: seq<Event>, t: int, i: nat) returns (u: nat)
    requires IsRun(ss, es) && i < |ss| && t in ss[i].phase
    ensures u < i && Stands(ss, t, ss[i].phase[t], u, i)
    ensures match ss[i].phase[t]
            case Waiting(key, _) => es[u] == Register(t, key)
            case Inside(key, entry) => es[u] == Enter(t) && t in ss[u].phase && ss[u].phase[t] == Waiting(key, entry)
            case Leaving(key, entry) => es[u] == Unlock(t) && t in ss[u].phase && ss[u].phase[t] == Inside(key, entry)
  {
    u := LastMove(ss, es, t, i);
    assert t in ss[u + 1].phase && ss[u + 1].phase[t] == ss[i].phase[t];
    if t in ss[u].phase { ThreadSteps(ss, es, u); }
  }

  lemma HoldsWhileInside(ss: seq<Table>, es: seq<Event>, t: int, k: nat)
    requires IsRun(ss, es) && k < |ss| && t in ss[k].phase && ss[k].phase[t].Inside?
    ensures ss[k].phase[t].entry in ss[k].holder && ss[k].holder[ss[k].phase[t].entry] == Some(t)
  {
    RunInv(ss, es, k);
  }

  /** What a thread's own step does: it takes the free mutex, gives it back, or leaves. */
  lemma ThreadSteps(ss: seq<Table>, es: seq<Event>, i: nat)
    requires IsRun(ss, es) && i < |es| && es[i].thread in ss[i].phase
    ensures var s, s', t := ss[i], ss[i + 1], es[i].thread;
            s.phase[t].entry in s.holder && s.phase[t].entry in s'.holder &&
            match s.phase[t]
            case Waiting(key, entry) =>
              t in s'.phase && s'.phase[t] == Inside(key, entry) && s.holder[entry].None? && s'.holder[entry] == Some(t)
            case Inside(key, entry) =>
              && t in s'.phase && s'.phase[t] == Leaving(key, entry)
              && s.holder[entry] == Some(t) && s'.holder[entry].None?
            case Leaving(_, _) => t !in s'.phase && es[i] == Unregister(t)
  {
    RunInv(ss, es, i);
    RunInv(ss, es, i + 1);
  }

  /** Main result, for every run: a thread that leaves `withLock` has registered under its key, has
      then taken the mutex of its entry, been inside and held the mutex until it released it, and
      has released it before it leaves; it has been registered all the time. */
  lemma CallbackRanUnderLock(ss: seq<Table>, es: seq<Event>, i: nat) returns (r: nat, enter: nat, unlock: nat)
    requires IsRun(ss, es) && i < |es| && es[i].Unregister?
    ensures var t := es[i].thread;
            && r < enter < unlock < i && t in ss[i].phase
            && var key, entry := ss[i].phase[t].key, ss[i].phase[t].entry;
               && es[r] == Register(t, key) && es[enter] == Enter(t) && es[unlock] == Unlock(t)
               && Stands(ss, t, Waiting(key, entry), r, enter) && Stands(ss, t, Inside(key, entry), enter, unlock)
               && Stands(ss, t, Leaving(key, entry), unlock, i)
               && forall k :: enter < k <= unlock ==> entry in ss[k].holder && ss[k].holder[entry] == Some(t)
  {
    var t := es[i].thread;
    assert t in ss[i].phase && ss[i].phase[t].Leaving?;
    unlock := CameFrom(ss, es, t, i);
    enter := CameFrom(ss, es, t, unlock);
    r := CameFrom(ss, es, t, enter);
    forall k | enter < k <= unlock
          ensures ss[i].phase[t].entry in ss[k].holder && ss[k].holder[ss[i].phase[t].entry] == Some(t) {
      HoldsWhileInside(ss, es, t, k);
    }
  }

  /** A waiting thread whose entry nobody holds can be inside after its next step. */
  lemma FreeEntryIsTaken(ss: seq<Table>, es: seq<Event>, i: nat, t: int)
    requires IsRun(ss, es) && i < |ss| && t in ss[i].phase && ss[i].phase[t].Waiting?
    ensures ss[i].phase[t].entry in ss[i].holder && WellTyped(ss[i])
    ensures ss[i].holder[ss[i].phase[t].entry].None? ==>
              Enabled(ss[i], Enter(t)) && t in Apply(ss[i], Enter(t)).phase
                  && Apply(ss[i], Enter(t)).phase[t] == Inside(ss[i].phase[t].key, ss[i].phase[t].entry)
  {
    RunInv(ss, es, i);
  }

  /** No deadlock: while any thread is registered, some registered thread can take its next step. */
  lemma NoDeadlock(ss: seq<Table>, es: seq<Event>, i: nat) returns (e: Event)
    requires IsRun(ss, es) && i < |ss| && ss[i].phase != map[]
    ensures WellTyped(ss[i]) && Enabled(ss[i], e) && e.thread in ss[i].phase
  {
    RunInv(ss, es, i);
    var s := ss[i];
    assert s.phase.Keys != {};
    var t := Pick(s.phase.Keys);
    match s.phase[t]
    case Inside(_, _) => e := Unlock(t);
    case Leaving(_, _) => e := Unregister(t);
    case Waiting(_, entry) =>
      if s.holder[entry].None? {
        e := Enter(t);
      } else {
        e := Unlock(s.holder[entry].value);
      }
  }

  // ---------------------------------------------------------------- the code

  /** The table itself.  Each method is one atomic section of `lock` or of the release
      function it returns; `phase` records, for the specification only, where threads stand. */
  class KeyedLocks {
    var locks: map<string, nat>
    var refs: map<nat, int>
    var holder: map<nat, Option<int>>
    var nextEntry: nat
    ghost var phase: map<int, Phase>

    ghost function State(): Table
      reads this
    {
      Table(locks, refs, holder, nextEntry, phase)
    }

    constructor ()
      ensures State() == EMPTY
    {
      locks, refs, holder, nextEntry, phase := map[], map[], map[], 0, map[];
    }

    /** First half of `lock`: find or create the entry and count a reference. */
    method RegisterThread(t: int, key: string) returns (entry: nat)
      requires WellTyped(State()) && Enabled(State(), Register(t, key))
      modifies this
      ensures State() == Apply(old(State()), Register(t, key))
      ensures phase[t] == Waiting(key, entry)
    {
      if key in locks {
        entry := locks[key];
      } else {
        entry := nextEntry;
        nextEntry := nextEntry + 1;
        refs, holder := refs[entry := 0], holder[entry := None];
        locks := locks[key := entry];
      }
      refs := refs[entry := refs[entry] + 1];
      phase := phase[t := Waiting(key, entry)];
    }

    /** `entry.mu.Lock()`, when it succeeds. */
    method EnterEntry(t: int, ghost key: string, entry: nat)
      requires WellTyped(State()) && Enabled(State(), Enter(t)) && phase[t] == Waiting(key, entry)
      modifies this
      ensures State() == Apply(old(State()), Enter(t))
      ensures holder == old(holder)[entry := Some(t)] && phase == old(phase)[t := Inside(key, entry)]
    {
      holder := holder[entry := Some(t)];
      phase := phase[t := Inside(key, entry)];
    }

    /** `entry.mu.Unlock()` in the release function. */
    method UnlockEntry(t: int, ghost key: string, entry: nat)
      requires WellTyped(State()) && Enabled(State(), Unlock(t)) && phase[t] == Inside(key, entry)
      modifies this
      ensures State() == Apply(old(State()), Unlock(t))
    {
      holder := holder[entry := None];
      phase := phase[t := Leaving(key, entry)];
    }

    /** Rest of the release function: drop the reference and delete the key at zero. */
    method UnregisterThread(t: int, key: string, entry: nat)
      requires WellTyped(State()) && Enabled(State(), Unregister(t)) && phase[t] == Leaving(key, entry)
      modifies this
      ensures State() == Apply(old(State()), Unregister(t))
    {
      refs := refs[entry := refs[entry] - 1];
      if refs[entry] == 0 {
        locks := locks - {key};
      }
      phase := phase - {t};
    }
  }
}
