/** Expiration of a Playground under concurrent handlers (`enforceExpiration` through
    `markDestroyedExpirationSuperseded` in `internal/worker/playguard.go`).

    Every access to the database and every runtime command is a point where other work may
    run.  What it does there is a script fixed in advance and otherwise unconstrained: it may
    extend, patch, stop, delete or replace the row in any way. */
module Expiration {
  import opened Text

  datatype Row = Row(id: int, status: string, expiresAt: Option<int>, marqueeId: Option<int>,
                     composeProject: Option<string>, stateReason: Option<string>, stateReasons: seq<string>,
                     dirtyPaths: seq<string>, rest: int)

  predicate ExpirableStatus(status: string) {
    status == "running" || status == "has_changes"
  }

  /** `expirationClaim`: what made the row due when the pass started. */
  datatype Claim = Claim(playgroundId: int, status: string, expiresAt: int, marqueeId: Option<int>,
        composeProject: Option<string>) {
    predicate SameRuntimeIdentity(pg: Row) {
      pg.marqueeId == marqueeId && pg.composeProject == composeProject
    }

    predicate Matches(pg: Row, now: int) {
      && pg.id == playgroundId && pg.status == status
      && pg.expiresAt == Some(expiresAt) && ExpirableStatus(pg.status) && now > expiresAt
      && SameRuntimeIdentity(pg)
    }
  }

  /** `newExpirationClaim`; a missing expiry is Go's zero time, here 0. */
  function NewClaim(pg: Row): Claim {
    Claim(pg.id, pg.status, if pg.expiresAt.Some? then pg.expiresAt.value else 0, pg.marqueeId, pg.composeProject)
  }

  /** A row matches its own claim exactly when it is due: the guard with which the pass starts. */
  lemma OwnClaimMatchesIff(pg: Row, now: int)
    ensures NewClaim(pg).Matches(pg, now) <==>
            pg.expiresAt.Some? && now > pg.expiresAt.value && (pg.status == "running" || pg.status == "has_changes")
  {
  }

  /** The row still matches the claim of an earlier one exactly when it is due and nothing the claim
      holds has changed: an extension, a PATCH of the Marquee, a stop, or another project ends it. */
  lemma ClaimMatchesIff(pg0: Row, pg: Row, now: int)
    requires pg0.expiresAt.Some?
    ensures NewClaim(pg0).Matches(pg, now) <==>
            && pg.id == pg0.id && pg.status == pg0.status && pg.expiresAt == pg0.expiresAt
            && pg.marqueeId == pg0.marqueeId && pg.composeProject == pg0.composeProject
            && now > pg0.expiresAt.value && (pg.status == "running" || pg.status == "has_changes")
  {
  }

  /** What inspecting the source checkouts can answer. */
  datatype DirtyCheck = DependencyError | NoSources | Inspected(dirtyPaths: seq<string>, failed: bool)

  /** An inspection error counts as dirty. */
  predicate Dirty(check: DirtyCheck) {
    check.Inspected? && (|check.dirtyPaths| > 0 || check.failed)
  }

  datatype Move = Keep | Replace(row: Option<Row>)

  datatype Action =
    | Read(row: Option<Row>)
    | Inspect(check: DirtyCheck)
    | Destroy(project: string, ok: bool)
    | Save(saved: Row)
    | Delete

  /** `Get`'s active flag: the row is there and still matches the claim. */
  predicate Current(claim: Claim, now: int, a: Action) {
    a.Read? && a.row.Some? && claim.Matches(a.row.value, now)
  }

  /** Position `i` of the log destroys the claimed project, after a clean inspection and a later
      re-read that matched the claim: the row was present, due, in an expirable status and on the
      claimed Marquee, so an extension, a PATCH of the Marquee, a stop or a delete committed
      before that read prevents the destroy. */
  ghost predicate Justified(log: seq<Action>, claim: Claim, now: int, i: int) {
    && 0 <= i < |log| && log[i].Destroy? && Some(log[i].project) == claim.composeProject
    && exists c, r :: 0 <= c < r < i && CleanInspection(log[c]) && Current(claim, now, log[r])
  }

  predicate CleanInspection(a: Action) {
    a.Inspect? && !a.check.DependencyError? && !Dirty(a.check)
  }

  /** Where a destroyed Playground may be left: gone, stopped, or moved by someone else. */
  ghost predicate Settled(claim: Claim, row: Option<Row>) {
    row.None? || row.value.status == "stopped" || row.value.status != claim.status
        || !claim.SameRuntimeIdentity(row.value)
  }

  class Pass {
    var row: Option<Row>
    var script: seq<Move>
    ghost var log: seq<Action>

    constructor (row: Option<Row>, script: seq<Move>)
      ensures this.row == row && this.script == script && log == []
    {
      this.row, this.script, log := row, script, [];
    }

    /** Other handlers run. */
    method Others()
      modifies this
      ensures log == old(log)
      ensures old(script) == [] ==> script == [] && row == old(row)
    {
      if script != [] {
        if script[0].Replace? { row := script[0].row; }
        script := script[1..];
      }
    }

    method Get() returns (r: Option<Row>)
      modifies this
      ensures r == row && log == old(log) + [Read(r)]
      ensures old(script) == [] ==> script == [] && row == old(row)
    {
      Others();
      r := row;
      log := log + [Read(r)];
    }

    /** An update by id: an error when the row is gone. */
    method SaveRow(pg: Row) returns (ok: bool)
      modifies this
      ensures ok ==> row == Some(pg) && log == old(log) + [Save(pg)]
      ensures !ok ==> log == old(log)
      ensures old(script) == [] ==> script == [] && ok == old(row).Some? && (!ok ==> row.None?)
    {
      Others();
      if row.None? { return false; }
      row := Some(pg);
      log := log + [Save(pg)];
      ok := true;
    }

    method DeleteRow() returns (ok: bool)
      modifies this
      ensures ok ==> row.None? && log == old(log) + [Delete]
      ensures !ok ==> log == old(log)
      ensures old(script) == [] ==> script == [] && ok == old(row).Some? && row.None?
    {
      Others();
      if row.None? { return false; }
      row := None;
      log := log + [Delete];
      ok := true;
    }

    method DestroyCompose(project: string, succeeds: bool)
      modifies this
      ensures log == old(log) + [Destroy(project, succeeds)]
      ensures old(script) == [] ==> script == [] && row == old(row)
    {
      Others();
      log := log + [Destroy(project, succeeds)];
    }

    /** `currentExpirationPlayground` */
    method CurrentRow(claim: Claim, now: int) returns (pg: Option<Row>, active: bool)
      modifies this
      ensures pg == row && log == old(log) + [Read(pg)]
      ensures active <==> Current(claim, now, Read(pg))
      ensures old(script) == [] ==> script == [] && row == old(row)
    {
      pg := Get();
      active := pg.Some? && claim.Matches(pg.value, now);
    }

    /** `markDestroyedExpirationSuperseded`: the row changed while the destroy ran. */
    method MarkDestroyedSuperseded(claim: Claim) returns (ok: bool)
      modifies this
      ensures ok ==> Settled(claim, row)
      ensures old(log) <= log && forall i :: |old(log)| <= i < |log| ==> !log[i].Destroy?
      ensures old(script) == [] ==>
                && ok
                && row == if old(row).Some? && old(row).value.status == claim.status
                             && claim.SameRuntimeIdentity(old(row).value)
                          then Some(old(row).value.(status := "stopped", stateReason := None, stateReasons := []))
                          else old(row)
    {
      var current := Get();
      if current.None? { return true; }
      var pg := current.value;
      if pg.status != claim.status || !claim.SameRuntimeIdentity(pg) { return true; }
      ok := SaveRow(pg.(status := "stopped", stateReason := None, stateReasons := []));
    }

    /** `deleteExpiredPlayground` */
    method DeleteExpired(claim: Claim, now: int) returns (ok: bool)
      modifies this
      ensures ok ==> Settled(claim, row)
      ensures old(log) <= log && forall i :: |old(log)| <= i < |log| ==> !log[i].Destroy?
      ensures old(script) == [] && Current(claim, now, Read(old(row))) ==> ok && row.None?
    {
      var pg, active := CurrentRow(claim, now);
      if !active {
        ok := MarkDestroyedSuperseded(claim);
        return;
      }
      ok := DeleteRow();
    }

    /** `recordExpirationDestroyError`: the failure is reported either way unless the claim lapsed. */
    method RecordDestroyError(claim: Claim, now: int, message: int) returns (ok: bool)
      modifies this
      ensures old(log) < log && forall i :: |old(log)| <= i < |log| ==> !log[i].Destroy?
      ensures log[|old(log)|].Read?
      ensures ok <==> !Current(claim, now, log[|old(log)|])
      ensures old(script) == [] && Current(claim, now, Read(old(row))) ==>
                !ok && row == Some(old(row).value.(status := "error", rest := message))
    {
      var pg, active := CurrentRow(claim, now);
      if !active { return true; }
      var saved := SaveRow(pg.value.(status := "error", rest := message));
      ok := false;
    }

    /** `completeRuntimeExpiration`: a dirty Playground is marked; a clean one is destroyed once, and then deleted. */
    method CompleteRuntimeExpiration(pg: Row, claim: Claim, now: int, check: DirtyCheck, destroys: bool, message: int)
        returns (ok: bool)
      requires pg.composeProject.Some?
      modifies this
      ensures old(log) <= log
      ensures Dirty(check) ==> forall i :: |old(log)| <= i < |log| ==> !log[i].Destroy?
      ensures Dirty(check) && ok ==> row == Some(DirtyRow(pg, check.dirtyPaths))
      ensures !Dirty(check) ==> |log| > |old(log)| && log[|old(log)|] == Destroy(pg.composeProject.value, destroys)
      ensures !Dirty(check) ==> forall i :: |old(log)| < i < |log| ==> !log[i].Destroy?
      ensures !Dirty(check) && destroys && ok ==> Settled(claim, row)
      ensures !Dirty(check) && !destroys ==>
                |log| > |old(log)| + 1 && log[|old(log)| + 1].Read?
                    && (ok <==> !Current(claim, now, log[|old(log)| + 1]))
      ensures old(script) == [] && Current(claim, now, Read(old(row))) ==>
                if Dirty(check) then ok && row == Some(DirtyRow(pg, check.dirtyPaths))
                else if destroys then ok && row.None?
                else !ok && row == Some(old(row).value.(status := "error", rest := message))
    {
      if Dirty(check) {
        ok := SaveRow(DirtyRow(pg, check.dirtyPaths));
        return;
      }
      DestroyCompose(pg.composeProject.value, destroys);
      if destroys {
        ok := DeleteExpired(claim, now);
      } else {
        ok := RecordDestroyError(claim, now, message);
      }
    }

    /** `expireRuntimePlayground`: inspect the sources, re-validate the claim, complete. */
    method ExpireRuntime(pg0: Row, claim: Claim, now: int, check: DirtyCheck, destroys: bool, message: int)
        returns (ok: bool)
      requires claim.composeProject.Some?
      modifies this
      ensures old(log) + [Inspect(check)] <= log
      ensures check.DependencyError? ==> !ok && log == old(log) + [Inspect(check)]
      ensures !check.DependencyError? ==> |log| >= |old(log)| + 2 && log[|old(log)| + 1].Read?
      ensures forall i :: |old(log)| <= i < |log| && log[i].Destroy? ==> i == |old(log)| + 2
      ensures DestroyAt(log, |old(log)| + 2) <==>
                |log| > |old(log)| + 1 && !Dirty(check) && Current(claim, now, log[|old(log)| + 1])
      ensures DestroyAt(log, |old(log)| + 2) ==>
                log[|old(log)| + 2] == Destroy(claim.composeProject.value, destroys)
                    && (destroys && ok ==> Settled(claim, row))
      ensures ok && Dirty(check) && Current(claim, now, log[|old(log)| + 1]) ==>
                row.Some? && row.value.status == "has_changes"
                    && row.value.stateReason == Some("expiration_skipped_dirty")
      ensures DestroyAt(log, |old(log)| + 2) && !destroys ==>
                |log| > |old(log)| + 3 && log[|old(log)| + 3].Read?
                    && (ok <==> !Current(claim, now, log[|old(log)| + 3]))
      ensures !check.DependencyError? && !Current(claim, now, log[|old(log)| + 1]) ==>
                ok && log == old(log) + [Inspect(check), log[|old(log)| + 1]]
      ensures old(script) == [] && Current(claim, now, Read(old(row))) ==>
                if check.DependencyError? then row == old(row)
                else if Dirty(check) then ok && row == Some(DirtyRow(old(row).value, check.dirtyPaths))
                else if destroys then ok && row.None?
                else !ok && row == Some(old(row).value.(status := "error", rest := message))
    {
      Others();
      log := log + [Inspect(check)];
      if check.DependencyError? { return false; }
      var current, active := CurrentRow(claim, now);
      if !active { return true; }
      ghost var read := log;
      ok := CompleteRuntimeExpiration(current.value, claim, now, check, destroys, message);
      assert read <= log;
    }

    /** `markExpiredWithoutRuntime` */
    method MarkExpiredWithoutRuntime(claim: Claim, now: int) returns (ok: bool)
      modifies this
      ensures old(log) <= log && forall i :: |old(log)| <= i < |log| ==> log[i].Read? || log[i].Save?
      ensures |log| > |old(log)|
            && log[|old(log)|].Read?
            && (ok && Current(claim, now, log[|old(log)|]) ==> row.Some? && row.value.status == "stopped")
            && (!Current(claim, now, log[|old(log)|]) ==> ok && log == old(log) + [log[|old(log)|]])
      ensures old(script) == [] && Current(claim, now, Read(old(row))) ==>
                ok && row == Some(old(row).value.(status := "stopped"))
    {
      var current, active := CurrentRow(claim, now);
      if !active { return true; }
      ok := SaveRow(current.value.(status := "stopped"));
    }

    /** `enforceExpiration` for one due row.  `check` is what the source inspection will answer,
        `destroys` whether the runtime destroy will succeed; `ok` is false when an error is returned. */
    method EnforceExpiration(pg0: Row, now: int, check: DirtyCheck, destroys: bool, message: int) returns (ok: bool)
      requires log == []
      modifies this
      // the runtime is destroyed only after a clean inspection and a re-validated claim
      ensures forall i :: 0 <= i < |log| && log[i].Destroy? ==> Justified(log, NewClaim(pg0), now, i)
      // exactly when it is destroyed
      ensures (exists i :: DestroyAt(log, i)) <==> Destroys(log, pg0, now, check)
      // after a successful destroy that ends without error the row is settled
      ensures ok && destroys && Destroys(log, pg0, now, check) ==> Settled(NewClaim(pg0), row)
      // a dirty Playground keeps its runtime and is marked
      ensures ok && Dirty(check) && |log| >= 3 && log[1] == Inspect(check) && Current(NewClaim(pg0), now, log[2]) ==>
              row.Some? && row.value.status == "has_changes"
                  && row.value.stateReason == Some("expiration_skipped_dirty")
      // a due row without Marquee or project is read again, and stopped unless it has changed by then
      ensures |log| > 0 && log[0].Read?
      ensures Current(NewClaim(pg0), now, log[0]) && (pg0.marqueeId.None? || pg0.composeProject.None?) ==>
                |log| > 1 && log[1].Read?
                    && (ok && Current(NewClaim(pg0), now, log[1]) ==> row.Some? && row.value.status == "stopped")
      // a destroy that fails is reported, unless the row has changed by then
      ensures !destroys && DestroyAt(log, 3) ==>
                |log| > 4 && log[4].Read? && (ok <==> !Current(NewClaim(pg0), now, log[4]))
      // a row that is not due, or has changed, is left alone
      ensures !Current(NewClaim(pg0), now, log[0]) ==> ok && |log| == 1
      // with no other work, exactly this happens to a due row
      ensures old(script) == [] && !Current(NewClaim(pg0), now, Read(old(row))) ==> ok && row == old(row)
      ensures old(script) == [] && Current(NewClaim(pg0), now, Read(old(row))) ==>
                var due := old(row).value;
                if due.marqueeId.None? || due.composeProject.None? then ok && row == Some(due.(status := "stopped"))
                else if check.DependencyError? then !ok && row == Some(due)
                else if check.Inspected? && (check.dirtyPaths != [] || check.failed) then
                  ok && row == Some(due.(status := "has_changes", stateReason := Some("expiration_skipped_dirty"),
                                         dirtyPaths := check.dirtyPaths))
                else if destroys then ok && row.None?
                else !ok && row == Some(due.(status := "error", rest := message))
    {
      var claim := NewClaim(pg0);
      var current, active := CurrentRow(claim, now);
      if !active { return true; }
      ghost var read := log;
      if current.value.marqueeId.None? || current.value.composeProject.None? {
        ok := MarkExpiredWithoutRuntime(claim, now);
        assert read <= log;
        return;
      }
      ok := ExpireRuntime(current.value, claim, now, check, destroys, message);
      assert read <= log && log[1] == Inspect(check);
      if DestroyAt(log, 3) {
        assert CleanInspection(log[1]) && Current(claim, now, log[2]);
        assert Justified(log, claim, now, 3);
      }
    }
  }

  function DirtyRow(pg: Row, dirtyPaths: seq<string>): Row {
    pg.(status := "has_changes", stateReason := Some("expiration_skipped_dirty"), dirtyPaths := dirtyPaths)
  }

  predicate DestroyAt(log: seq<Action>, i: int) {
    0 <= i < |log| && log[i].Destroy?
  }

  /** What a pass has seen when it destroys the runtime: a due row with a runtime, a clean
      inspection, and the row still current afterwards. */
  predicate Destroys(log: seq<Action>, pg0: Row, now: int, check: DirtyCheck) {
    && |log| >= 4 && Current(NewClaim(pg0), now, log[0]) && pg0.marqueeId.Some? && pg0.composeProject.Some?
    && log[1] == Inspect(check) && !Dirty(check) && Current(NewClaim(pg0), now, log[2])
  }
}
