/** One Playground row and the statements that write it (`internal/storage/store_playgrounds.go`),
    and the guarded save of deployment progress, a read and a compare-and-swap in a retry loop
    (`internal/worker/deploy_failure.go`). */
module PlaygroundStore {
  import opened Text

  datatype Status = Pending | InProgress | Running | HasChanges | Failed | Stopping | Stopped | Destroying | Completed

  /** A service override: a plain value or an object of overrides. */
  datatype Override = Plain(text: string) | Object(fields: map<string, Override>)

  /** What the user edits: name, Playspec, Marquee, environment and service overrides, expiry. */
  datatype Meta = Meta(name: string, playspec: Option<int>, marquee: Option<int>, env: map<string, string>,
                       services: map<string, Override>, expiresAt: Option<int>)

  /** `version` is the row's `updated_at`; every committed write gets a fresh one.  `payload`
      stands for the generated and diagnostic columns. */
  datatype Row = Row(status: Status, meta: Meta, payload: int, version: nat)

  function WithTrimmedName(p: Row, name: string, now: nat): (r: Row)
    ensures Trimmed(r.meta.name)
  {
    p.(meta := p.meta.(name := TrimSpace(name)), version := now)
  }

  /** What `SavePlayground` leaves: the name is not taken from a caller that has seen an older row. */
  function SavedRow(current: Row, p: Row, now: nat): Row {
    WithTrimmedName(p, if current.version > p.version then current.meta.name else p.meta.name, now)
  }

  /** What `SavePlaygroundIfCurrent` leaves when status and `updated_at` still match. */
  function SwappedRow(p: Row, now: nat): Row {
    WithTrimmedName(p, p.meta.name, now)
  }

  /** What `RenamePlayground` leaves. */
  function RenamedRow(current: Row, name: string, now: nat): Row {
    WithTrimmedName(current, name, now)
  }

  predicate StillCurrent(row: Option<Row>, status: Status, version: nat) {
    row.Some? && row.value.status == status && row.value.version == version
  }

  /** `preserveLatestDeploymentMetadata`: the task's row with the user's latest metadata. */
  function PreserveLatestMetadata(pg: Row, current: Row): Row {
    pg.(meta := current.meta)
  }

  /** `deploymentStatusActive` */
  predicate Active(status: Status) {
    status == Pending || status == InProgress
  }

  /** `deploymentStartStatusAllowed` */
  predicate StartAllowed(status: Status) {
    status == Pending || status == InProgress || status == Running || status == HasChanges || status == Failed
        || status == Stopped
  }

  /** Which current statuses admit a progress write: the start of a deployment asks for the
      status it was started from, every later step for an active one. */
  datatype Guard = WhileActive | StartFrom(status: Status) {
    predicate Allows(current: Status) {
      match this
      case WhileActive => Active(current)
      case StartFrom(status) => current == status && StartAllowed(current)
    }
  }

  predicate NameTrimmed(row: Option<Row>) {
    row.Some? ==> Trimmed(row.value.meta.name)
  }

  /** A progress write over the row it has read changes none of the user's metadata. */
  lemma ProgressKeepsMeta(pg: Row, current: Row, now: nat)
    requires Trimmed(current.meta.name)
    ensures SwappedRow(PreserveLatestMetadata(pg, current), now) == pg.(meta := current.meta, version := now)
  {
    TrimSpaceFixed(current.meta.name);
  }

  // ---------------------------------------------------------------- the table and its callers

  datatype Outcome = Saved(row: Row) | Superseded(status: Status) | NotFound

  /** One committed write: the row before and after it, and whether it was another caller's. */
  datatype Commit = Commit(before: Option<Row>, after: Option<Row>, foreign: bool)

  /** What other callers may do at one point: nothing, or one committed write. */
  datatype Move = Keep | Replace(row: Option<Row>)

  /** From one row and history to the next, at most one foreign write was committed, with a fresh `updated_at`. */
  ghost predicate AtMostOneForeign(row0: Option<Row>, commits0: seq<Commit>, clock0: nat, row: Option<Row>,
        commits: seq<Commit>) {
    || (row == row0 && commits == commits0)
    || (row0.Some? && (row.Some? ==> row.value.version >= clock0) && commits == commits0 + [Commit(row0, row, true)])
  }

  /** The row of one Playground.  Before each statement other callers may replace or delete it;
      what they do is a script fixed in advance and otherwise unconstrained. */
  class Table {
    var row: Option<Row>
    var clock: nat
    var script: seq<Move>
    ghost var commits: seq<Commit>

    ghost predicate Valid()
      reads this
    {
      NameTrimmed(row) && (row.Some? ==> row.value.version < clock)
    }

    method Others()
      requires Valid()
      modifies this
      ensures Valid() && clock >= old(clock)
      ensures AtMostOneForeign(old(row), old(commits), old(clock), row, commits)
      ensures script == if old(script) == [] then [] else old(script)[1..]
      ensures old(script) == [] ==> row == old(row)
    {
      if script != [] {
        if script[0].Replace? && row.Some? {
          ghost var before := row;
          row := if script[0].row.Some? then Some(SwappedRow(script[0].row.value, clock)) else None;
          clock := clock + 1;
          commits := commits + [Commit(before, row, true)];
        }
        script := script[1..];
      }
    }

    /** `GetPlayground` */
    method Get() returns (r: Option<Row>)
      requires Valid()
      modifies this
      ensures Valid() && clock >= old(clock) && r == row
      ensures AtMostOneForeign(old(row), old(commits), old(clock), row, commits)
      ensures script == if old(script) == [] then [] else old(script)[1..]
    {
      Others();
      r := row;
    }

    /** This caller's update of an existing row. */
    method Write(p: Row)
      requires Valid() && row.Some? && Trimmed(p.meta.name) && p.version == clock
      modifies this
      ensures Valid() && row == Some(p) && clock == old(clock) + 1 && script == old(script)
      ensures commits == old(commits) + [Commit(old(row), row, false)]
    {
      commits := commits + [Commit(row, Some(p), false)];
      row := Some(p);
      clock := clock + 1;
    }

    /** `SavePlayground`, its reload and its update taken as one statement. */
    method Save(p: Row) returns (saved: Option<Row>, ghost before: Option<Row>)
      requires Valid()
      modifies this
      ensures Valid() && saved == row
      ensures if before.Some? then clock > 0 && row == Some(SavedRow(before.value, p, clock - 1)) else row.None?
      ensures before.Some? ==> |commits| > 0 && commits[|commits| - 1] == Commit(before, row, false)
                               && AtMostOneForeign(old(row), old(commits), old(clock), before, commits[..|commits| - 1])
    {
      Others();
      before := row;
      if row.Some? {
        ghost var mid := commits;
        Write(SavedRow(row.value, p, clock));
        assert commits[..|commits| - 1] == mid;
      }
      saved := row;
    }

    /** `SavePlaygroundIfCurrent`: the write happens exactly when status and `updated_at` still match. */
    method SaveIfCurrent(p: Row, status: Status, version: nat)
          returns (latest: Option<Row>, ok: bool, ghost before: Option<Row>, ghost mid: seq<Commit>)
      requires Valid()
      modifies this
      ensures Valid() && latest == row
      ensures AtMostOneForeign(old(row), old(commits), old(clock), before, mid)
            && (old(script) == [] ==> before == old(row))
      ensures script == if old(script) == [] then [] else old(script)[1..]
      ensures ok <==> StillCurrent(before, status, version)
      ensures ok ==> clock > old(clock) && row == Some(SwappedRow(p, clock - 1))
      ensures ok ==> commits == mid + [Commit(before, row, false)]
      ensures !ok ==> row == before && commits == mid
    {
      Others();
      before, mid := row, commits;
      if row.None? || row.value.status != status || row.value.version != version {
        return row, false, before, mid;
      }
      Write(SwappedRow(p, clock));
      return row, true, before, mid;
    }

    /** `RenamePlayground` changes the name and nothing else. */
    method Rename(name: string) returns (ok: bool, ghost before: Option<Row>)
      requires Valid()
      modifies this
      ensures Valid() && (ok <==> row.Some?) && (ok <==> before.Some?)
      ensures ok ==>
                clock > 0 && row == Some(before.value.(meta := before.value.meta.(name := TrimSpace(name)),
                                                       version := clock - 1))
    {
      Others();
      before := row;
      ok := row.Some?;
      if ok {
        Write(RenamedRow(row.value, name, clock));
      }
    }

    /** The one write a successful progress save makes: its guard holds of the row it replaces,
        and of that row only status, payload and `updated_at` change. */
    ghost predicate ProgressCommit(pg: Row, guard: Guard, c: Commit) {
      && !c.foreign && c.before.Some? && c.after.Some?
      && guard.Allows(c.before.value.status)
      && c.after.value.meta == c.before.value.meta
      && c.after.value.status == pg.status && c.after.value.payload == pg.payload
      && c.after.value.version > c.before.value.version
    }

    ghost predicate OnlyForeign(from: seq<Commit>, to: seq<Commit>) {
      from <= to && forall i :: |from| <= i < |to| ==> to[i].foreign
    }

    /** `trySaveDeploymentProgress`: one read, guard and swap.  It asks for a retry only when
        another caller's write was committed between the read and the swap. */
    method TrySaveProgress(pg: Row, guard: Guard) returns (outcome: Outcome, retry: bool)
      requires Valid()
      modifies this
      ensures Valid()
      ensures retry ==> |script| < |old(script)| && OnlyForeign(old(commits), commits) && |commits| > |old(commits)|
      ensures !retry && outcome.Saved? ==>
                && |commits| > 0 && OnlyForeign(old(commits), commits[..|commits| - 1])
                && ProgressCommit(pg, guard, commits[|commits| - 1])
                && commits[|commits| - 1].after == Some(outcome.row) == row
      ensures !retry && !outcome.Saved? ==> OnlyForeign(old(commits), commits)
      ensures !retry && outcome.Superseded? ==>
            row.Some? && row.value.status == outcome.status && !guard.Allows(outcome.status)
      ensures !retry && outcome.NotFound? ==> row.None?
    {
      var current := Get();
      if current.None? { return NotFound, false; }
      if !guard.Allows(current.value.status) { return Superseded(current.value.status), false; }
      ghost var read, time := commits, clock;
      var candidate := PreserveLatestMetadata(pg, current.value);
      var latest, ok, before, mid := SaveIfCurrent(candidate, current.value.status, current.value.version);
      SwapAfterRead(current.value, read, time, before, mid);
      if ok {
        ProgressKeepsMeta(pg, current.value, clock - 1);
        assert commits[..|commits| - 1] == read;
        return Saved(latest.value), false;
      }
      if latest.None? { return NotFound, false; }
      return NotFound, true;
    }

    /** `saveDeploymentProgressWhen`: every retry is paid for by another caller's write, so the
        loop ends as soon as they stop. */
    method SaveProgressWhen(pg: Row, guard: Guard) returns (outcome: Outcome, ghost tries: nat)
      requires Valid()
      modifies this
      ensures Valid()
      ensures outcome.Saved? ==>
                && |commits| > 0 && OnlyForeign(old(commits), commits[..|commits| - 1])
                && ProgressCommit(pg, guard, commits[|commits| - 1])
                && commits[|commits| - 1].after == Some(outcome.row) == row
      ensures !outcome.Saved? ==> OnlyForeign(old(commits), commits)
      ensures outcome.Superseded? ==> row.Some? && row.value.status == outcome.status && !guard.Allows(outcome.status)
      ensures outcome.NotFound? ==> row.None?
      ensures 1 <= tries <= 1 + |commits| - |old(commits)|
    {
      tries := 0;
      while true
        invariant Valid() && OnlyForeign(old(commits), commits)
        invariant tries <= |commits| - |old(commits)|
        decreases |script|
      {
        tries := tries + 1;
        var retry;
        outcome, retry := TrySaveProgress(pg, guard);
        if !retry { return; }
      }
    }
  }

  /** A swap that finds what was read replaces exactly the row that was read; one that does not
      was overtaken by a foreign write. */
  lemma SwapAfterRead(current: Row, read: seq<Commit>, clock: nat, before: Option<Row>, mid: seq<Commit>)
    requires current.version < clock && AtMostOneForeign(Some(current), read, clock, before, mid)
    ensures StillCurrent(before, current.status, current.version) <==> before == Some(current) && mid == read
    ensures !StillCurrent(before, current.status, current.version) ==>
          mid == read + [Commit(Some(current), before, true)]
  {
    assert |read + [Commit(Some(current), before, true)]| > |read|;
  }
}
