/** The creation-step ledger of a Playground (`internal/worker/deploy_steps.go`,
    labels in `internal/worker/deploy_failure.go`) and startup recovery
    (`internal/storage/store_recovery.go`). */
module CreationSteps {
  import opened Text

  datatype Step = Step(name: string, title: string, status: string,
                       startedAt: Option<int>, completedAt: Option<int>, errorMessage: string)

  const RECOVERY_NAME := "startup_recovery"

  function Label(name: string): string {
    match name
    case "compose_render" => "Render compose"
    case "host_prerequisites" => "Check host"
    case "source_sync" => "Sync sources"
    case "builds" => "Build images"
    case "compose_start" => "Start compose"
    case "compose_deploy" => "Deploy compose"
    case "runtime_observe" => "Observe runtime"
    case "finalize" => "Finalize"
    case _ => name
  }

  predicate Finished(status: string) {
    status == "completed" || status == "error" || status == "skipped"
  }

  function NewCreationStep(name: string, status: string, stepErr: Option<string>, now: int): Step {
    Step(name, Label(name), status,
         if status == "running" then Some(now) else None,
         if Finished(status) then Some(now) else None,
         if stepErr.Some? then stepErr.value else "")
  }

  // ---------------------------------------------------------------- upsert

  function WithStart(known: Option<int>, step: Step, now: int): Step {
    if known.Some? then step.(startedAt := known)
    else if step.startedAt.None? then step.(startedAt := Some(now))
    else step
  }

  /** Position of the first entry with this name, or the length. */
  function Find(steps: seq<Step>, name: string): (i: nat)
    ensures i <= |steps|
    ensures i < |steps| ==> steps[i].name == name
    ensures forall j :: 0 <= j < i ==> steps[j].name != name
  {
    if steps == [] || steps[0].name == name then 0 else 1 + Find(steps[1..], name)
  }

  function Upserted(steps: seq<Step>, step: Step, now: int): seq<Step> {
    var i := Find(steps, step.name);
    if i < |steps| then steps[i := WithStart(steps[i].startedAt, step, now)]
    else steps + [WithStart(None, step, now)]
  }

  // ---------------------------------------------------------------- recovery

  predicate Active(step: Step) {
    step.status == "running" || step.status == "pending"
  }

  /** Position of the last active entry, or -1. */
  function LastActive(steps: seq<Step>): (i: int)
    ensures -1 <= i < |steps|
    ensures i >= 0 ==> Active(steps[i])
    ensures forall j :: i < j < |steps| ==> !Active(steps[j])
  {
    if steps == [] then -1
    else if Active(steps[|steps| - 1]) then |steps| - 1
    else LastActive(steps[..|steps| - 1])
  }

  function Interrupted(steps: seq<Step>, now: int, message: string): seq<Step> {
    var i := LastActive(steps);
    if i >= 0 then
      steps[i := steps[i].(status := "error", completedAt := Some(now), errorMessage := message)]
    else
      steps + [Step(RECOVERY_NAME, "Startup recovery", "error", Some(now), Some(now), message)]
  }

  /** A ledger whose entries are overwritten in place. */
  class Ledger {
    var steps: seq<Step>

    constructor (initial: seq<Step>)
      ensures steps == initial
    {
      steps := initial;
    }

    /** `upsertCreationStep` */
    method Upsert(step: Step, now: int)
      modifies this
      ensures steps == Upserted(old(steps), step, now)
    {
      for i := 0 to |steps|
        invariant steps == old(steps)
        invariant forall j :: 0 <= j < i ==> steps[j].name != step.name
      {
        if steps[i].name == step.name {
          var entry := step;
          if steps[i].startedAt.Some? {
            entry := entry.(startedAt := steps[i].startedAt);
          } else if entry.startedAt.None? {
            entry := entry.(startedAt := Some(now));
          }
          steps := steps[i := entry];
          return;
        }
      }
      var entry := step;
      if entry.startedAt.None? {
        entry := entry.(startedAt := Some(now));
      }
      steps := steps + [entry];
    }

    /** `markInterruptedCreationSteps`: scan backward for the active entry to fail. */
    method MarkInterrupted(now: int, message: string)
      modifies this
      ensures steps == Interrupted(old(steps), now, message)
    {
      for i := |steps| downto 0
        invariant steps == old(steps)
        invariant forall j :: i <= j < |steps| ==> !Active(steps[j])
      {
        if Active(steps[i]) {
          steps := steps[i := steps[i].(status := "error", completedAt := Some(now), errorMessage := message)];
          return;
        }
      }
      steps := steps + [Step(RECOVERY_NAME, "Startup recovery", "error", Some(now), Some(now), message)];
    }
  }

  // ---------------------------------------------------------------- every history of a ledger

  datatype Event =
    | Record(name: string, status: string, stepErr: Option<string>, now: int)
    | Recover(now: int, message: string)

  function Apply(steps: seq<Step>, e: Event): seq<Step> {
    match e
    case Record(name, status, stepErr, now) => Upserted(steps, NewCreationStep(name, status, stepErr, now), now)
    case Recover(now, message) => Interrupted(steps, now, message)
  }

  function History(steps: seq<Step>, events: seq<Event>): seq<Step> {
    if events == [] then steps
    else Apply(History(steps, events[..|events| - 1]), events[|events| - 1])
  }

  /** Phase names occur at most once and every entry has a start time. */
  predicate WellFormed(steps: seq<Step>) {
    && (forall i, j :: 0 <= i < j < |steps| && steps[i].name == steps[j].name ==> steps[i].name == RECOVERY_NAME)
    && (forall i :: 0 <= i < |steps| ==> steps[i].startedAt.Some?)
  }

  /** `after` extends `before`: every earlier entry keeps its place, its name and its start time. */
  predicate Extends(before: seq<Step>, after: seq<Step>) {
    && |before| <= |after|
    && (forall i :: 0 <= i < |before| ==> after[i].name == before[i].name && after[i].startedAt == before[i].startedAt)
  }

  lemma EventKeepsLedger(steps: seq<Step>, e: Event)
    requires WellFormed(steps)
    ensures WellFormed(Apply(steps, e)) && Extends(steps, Apply(steps, e))
  {
  }

  /** After a phase is recorded it has exactly one entry, which carries what was recorded and,
      if the phase was there before, its old place and start time; all other entries are untouched. */
  lemma RecordedOnce(steps: seq<Step>, step: Step, now: int) returns (i: nat)
    requires WellFormed(steps) && step.name != RECOVERY_NAME
    ensures var after := Upserted(steps, step, now);
            && i < |after| && |after| == (if i < |steps| then |steps| else |steps| + 1)
            && after[i] == step.(startedAt := after[i].startedAt)
            && (i < |steps| ==> after[i].startedAt == steps[i].startedAt)
            && (i == |steps| ==> after[i].startedAt == Some(step.startedAt.GetOr(now)))
            && (forall j :: 0 <= j < |after| && after[j].name == step.name ==> j == i)
            && (forall j :: 0 <= j < |steps| && j != i ==> after[j] == steps[j])
  {
    i := Find(steps, step.name);
  }

  /** A phase that is recorded as running and then with its outcome ends with one entry: the outcome,
      the error if there was one, the time it ended, and the time it was first begun. */
  lemma PhaseIsRecorded(steps: seq<Step>, name: string, begun: int, status: string, err: Option<string>, ended: int)
      returns (i: nat)
    requires WellFormed(steps) && name != RECOVERY_NAME && status in {"completed", "error", "skipped"}
    ensures var after := History(steps, [Record(name, "running", None, begun), Record(name, status, err, ended)]);
            && i < |after| && |after| == (if i < |steps| then |steps| else |steps| + 1)
            && after[i].name == name && after[i].status == status
            && after[i].completedAt == Some(ended) && after[i].errorMessage == err.GetOr("")
            && after[i].startedAt == (if i < |steps| then steps[i].startedAt else Some(begun))
            && (i < |steps| <==> exists j :: 0 <= j < |steps| && steps[j].name == name)
            && (forall j :: 0 <= j < |after| && after[j].name == name ==> j == i)
            && (forall j :: 0 <= j < |steps| && j != i ==> after[j] == steps[j])
  {
    var first := NewCreationStep(name, "running", None, begun);
    i := RecordedOnce(steps, first, begun);
    var running := Upserted(steps, first, begun);
    EventKeepsLedger(steps, Record(name, "running", None, begun));
    var k := RecordedOnce(running, NewCreationStep(name, status, err, ended), ended);
    assert running[i].name == name;
    assert k == i;
    var events := [Record(name, "running", None, begun), Record(name, status, err, ended)];
    assert events[..1] == [events[0]] && events[..1][..0] == [];
    assert History(steps, events[..1]) == running;
  }

  lemma {:induction false} HistoryFrom(steps: seq<Step>, events: seq<Event>)
    requires WellFormed(steps)
    ensures WellFormed(History(steps, events)) && Extends(steps, History(steps, events))
    decreases |events|
  {
    if events != [] {
      HistoryFrom(steps, events[..|events| - 1]);
      EventKeepsLedger(History(steps, events[..|events| - 1]), events[|events| - 1]);
    }
  }

  lemma HistorySnoc(steps: seq<Step>, events: seq<Event>, e: Event)
    ensures History(steps, events + [e]) == Apply(History(steps, events), e)
  {
    assert (events + [e])[..|events + [e]| - 1] == events;
  }

  lemma {:induction false} HistorySplit(steps: seq<Step>, a: seq<Event>, b: seq<Event>)
    ensures History(steps, a + b) == History(History(steps, a), b)
  {
    if b == [] {
      assert a + b == a;
    } else {
      var rest, last := b[..|b| - 1], b[|b| - 1];
      AppendLast(a, b);
      HistorySnoc(steps, a + rest, last);
      HistorySnoc(History(steps, a), rest, last);
      HistorySplit(steps, a, rest);
    }
  }

  lemma HistoryAppend(a: seq<Event>, b: seq<Event>)
    ensures Extends(History([], a), History([], a + b))
  {
    HistoryFrom([], a);
    HistorySplit([], a, b);
    HistoryFrom(History([], a), b);
  }

  lemma HistoryGrows(events: seq<Event>, i: nat)
    requires i <= |events|
    ensures Extends(History([], events[..i]), History([], events))
  {
    HistoryAppend(events[..i], events[i..]);
    assert events[..i] + events[i..] == events;
  }

  /** Main result: under any sequence of recorded steps and recoveries, starting from an empty
      ledger, phase names stay unique, every entry has a start time, and from any point on
      later events change neither the place, nor the name, nor the start time of an entry. */
  lemma LedgerHistory(events: seq<Event>, i: nat)
    requires i <= |events|
    ensures WellFormed(History([], events))
    ensures Extends(History([], events[..i]), History([], events))
  {
    HistoryFrom([], events);
    HistoryGrows(events, i);
  }

  predicate UnderWay(steps: seq<Step>, i: int) {
    0 <= i < |steps| && steps[i].status in {"running", "pending"}
  }

  /** The two ledgers differ in exactly one place: the last entry under way has failed in place, or,
      when there is none, one has been appended. */
  ghost predicate OneFailure(before: seq<Step>, after: seq<Step>, now: int, message: string) {
    || (exists i :: UnderWay(before, i) && |after| == |before|
          && after[i] == before[i].(status := "error", completedAt := Some(now), errorMessage := message)
          && (forall j :: 0 <= j < |before| && j != i ==> after[j] == before[j])
          && (forall j :: i < j ==> !UnderWay(before, j)))
    || ((forall j :: !UnderWay(before, j))
          && after == before + [Step("startup_recovery", "Startup recovery", "error", Some(now), Some(now), message)])
  }

  /** Every recovery changes exactly one running or pending entry, or appends exactly one. */
  lemma RecoveryIsOneFailure(steps: seq<Step>, now: int, message: string)
    ensures OneFailure(steps, Interrupted(steps, now, message), now, message)
  {
    var i := LastActive(steps);
    if i >= 0 { assert UnderWay(steps, i); }
  }

  /** On the bare ledger a second recovery always changes something more: only the row's
      status guard, below, makes recovery idempotent. */
  lemma LedgerRecoveryNeverIdempotent(steps: seq<Step>, now: int, message: string, later: int)
    ensures Interrupted(Interrupted(steps, now, message), later, message) != Interrupted(steps, now, message)
  {
    var once := Interrupted(steps, now, message);
    var k := LastActive(once);
    if k >= 0 {
      assert Active(once[k]) && !Active(Interrupted(once, later, message)[k]);
    }
  }

  // ---------------------------------------------------------------- startup recovery of all rows

  datatype Detail = Detail(previousStatus: string, recoveredAt: int, message: string)

  /** A stored row: `steps` is absent when the stored JSON does not decode, and so is `details`. */
  datatype Row = Row(status: string, steps: Option<seq<Step>>, details: Option<map<string, Detail>>,
                     errorMessage: Option<string>, stateReason: Option<string>, stateReasons: seq<string>,
                     updatedAt: int)

  predicate InterruptedStatus(status: string) {
    status == "pending" || status == "in_progress"
  }

  predicate Recoverable(row: Row) {
    InterruptedStatus(row.status) && row.steps.Some? && row.details.Some?
  }

  const MESSAGE := "playground deployment was interrupted by fibe-distilled restart"
  const REASON := "lifecycle_interrupted"

  function RecoveredRow(row: Row, now: int): Row {
    if !Recoverable(row) then row
    else Row("error", Some(Interrupted(row.steps.value, now, MESSAGE)),
             Some(row.details.value["interrupted" := Detail(row.status, now, MESSAGE)]),
             Some(MESSAGE), Some(REASON), [REASON], now)
  }

  /** The table in row order. */
  function RecoveredTable(rows: seq<Row>, now: int): (r: seq<Row>)
    ensures |r| == |rows| && forall i :: 0 <= i < |rows| ==> r[i] == RecoveredRow(rows[i], now)
  {
    seq(|rows|, i requires 0 <= i < |rows| => RecoveredRow(rows[i], now))
  }

  /** The row's deployment was interrupted and its stored JSON decodes. */
  predicate Decodable(row: Row) {
    row.status in {"pending", "in_progress"} && row.steps.Some? && row.details.Some?
  }

  /** Which of the first `end` rows that holds of. */
  function ToRecover(rows: seq<Row>, end: nat): set<int>
    requires end <= |rows|
  {
    set i | 0 <= i < end && Decodable(rows[i])
  }

  /** The table after the first `end` rows have been gone through, one after the other. */
  function PartlyRecovered(rows: seq<Row>, end: nat, now: int): (r: seq<Row>)
    requires end <= |rows|
    ensures |r| == |rows| && r[end..] == rows[end..]
  {
    if end == 0 then rows
    else
      var before := PartlyRecovered(rows, end - 1, now);
      assert before[end - 1..][0] == rows[end - 1..][0] && before[end - 1..][1..] == rows[end - 1..][1..];
      before[end - 1 := RecoveredRow(before[end - 1], now)]
  }

  /** Gone through as a whole it is the table with every row recovered for itself. */
  lemma {:induction false} PartlyIsTable(rows: seq<Row>, end: nat, now: int)
    requires end <= |rows|
    ensures PartlyRecovered(rows, end, now) == RecoveredTable(rows[..end], now) + rows[end..]
  {
    if end > 0 {
      PartlyIsTable(rows, end - 1, now);
      assert rows[end - 1..][0] == rows[end - 1];
      assert rows[..end] == rows[..end - 1] + [rows[end - 1]];
    }
  }

  lemma RecoverOneMore(rows: seq<Row>, end: nat, now: int)
    requires end < |rows|
    ensures PartlyRecovered(rows, end, now)[end] == rows[end]
    ensures PartlyRecovered(rows, end + 1, now) == PartlyRecovered(rows, end, now)[end := RecoveredRow(rows[end], now)]
  {
    assert PartlyRecovered(rows, end, now)[end..][0] == rows[end..][0];
  }

  lemma UnrecoverableStays(rows: seq<Row>, i: nat, now: int)
    requires i < |rows| && !Recoverable(rows[i])
    ensures rows[i := RecoveredRow(rows[i], now)] == rows
  {
  }

  lemma OneMoreToRecover(rows: seq<Row>, end: nat)
    requires end < |rows|
    ensures |ToRecover(rows, end + 1)| == |ToRecover(rows, end)| + (if Recoverable(rows[end]) then 1 else 0)
  {
    var before := ToRecover(rows, end);
    assert ToRecover(rows, end + 1) == if Recoverable(rows[end]) then before + {end} else before;
  }

  /** The pass ends before the first recoverable row that the database refuses to update. */
  predicate EndsAt(rows: seq<Row>, refused: set<int>, end: nat) {
    && end <= |rows|
    && (forall i :: 0 <= i < end && i in refused ==> !Decodable(rows[i]))
    && (end < |rows| ==> end in refused && Decodable(rows[end]))
  }

  /** The row is put in error: one step of its ledger fails, and message, reasons and details say so. */
  ghost predicate FailedRow(before: Row, after: Row, now: int) {
    && before.steps.Some? && before.details.Some? && after.status == "error" && after.steps.Some?
    && OneFailure(before.steps.value, after.steps.value, now, MESSAGE)
    && after.details == Some(before.details.value["interrupted" := Detail(before.status, now, MESSAGE)])
    && after.errorMessage == Some(MESSAGE) && after.stateReason == Some("lifecycle_interrupted")
    && after.stateReasons == ["lifecycle_interrupted"] && after.updatedAt == now
  }

  lemma RecoveredRowFailed(row: Row, now: int)
    requires Recoverable(row)
    ensures FailedRow(row, RecoveredRow(row, now), now)
  {
    RecoveryIsOneFailure(row.steps.value, now, MESSAGE);
  }

  /** Of the first `end` rows those to recover have been put in error, and no other row has changed. */
  ghost predicate RecoveredUpTo(before: seq<Row>, after: seq<Row>, end: nat, now: int) {
    && |after| == |before|
    && forall i :: 0 <= i < |before| ==>
      if i < end && Decodable(before[i]) then FailedRow(before[i], after[i], now) else after[i] == before[i]
  }

  lemma PartlyRecoveredRows(rows: seq<Row>, end: nat, now: int)
    requires end <= |rows|
    ensures RecoveredUpTo(rows, PartlyRecovered(rows, end, now), end, now)
  {
    PartlyIsTable(rows, end, now);
    var after := PartlyRecovered(rows, end, now);
    forall i | 0 <= i < |rows|
          ensures if i < end && Decodable(rows[i]) then FailedRow(rows[i], after[i], now) else after[i] == rows[i] {
      assert i < end ==> after[i] == RecoveredRow(rows[i], now);
      assert i >= end ==> after[i] == rows[i];
      if Recoverable(rows[i]) { RecoveredRowFailed(rows[i], now); }
    }
  }

  /** How the recovery of one row ends. */
  datatype RowResult = NotInterrupted | Undecodable | Refused | Recovered

  function ResultOf(row: Row, refused: bool): RowResult {
    if !InterruptedStatus(row.status) then NotInterrupted
    else if !Recoverable(row) then Undecodable
    else if refused then Refused
    else Recovered
  }

  /** Exactly these rows are reported as undecodable. */
  ghost predicate Reported(failed: set<int>, rows: seq<Row>, end: nat)
    requires end <= |rows|
  {
    forall i :: i in failed <==>
      0 <= i < end && rows[i].status in {"pending", "in_progress"} && !Decodable(rows[i])
  }

  /** `RecoverInterruptedPlaygrounds`: go through the interrupted rows in order; a row that does
      not decode is reported and skipped, a database error ends the pass. */
  class RecoveryStore {
    var rows: seq<Row>

    /** `recoverInterruptedCandidate` */
    method RecoverCandidate(i: nat, now: int, refused: bool) returns (r: RowResult)
      requires i < |rows|
      modifies this
      ensures r == ResultOf(old(rows)[i], refused)
      ensures rows == if r.Recovered? then old(rows)[i := RecoveredRow(old(rows)[i], now)] else old(rows)
    {
      var row := rows[i];
      if !InterruptedStatus(row.status) { return NotInterrupted; }
      if row.steps.None? || row.details.None? { return Undecodable; }
      if refused { return Refused; }
      rows := rows[i := RecoveredRow(row, now)];
      r := Recovered;
    }

    method Recover(now: int, refused: set<int>) returns (recovered: nat, failed: set<int>, end: nat)
      modifies this
      ensures EndsAt(old(rows), refused, end)
      ensures rows == PartlyRecovered(old(rows), end, now)
      ensures recovered == |ToRecover(old(rows), end)|
      ensures RecoveredUpTo(old(rows), rows, end, now)
      ensures Reported(failed, old(rows), end)
    {
      recovered, failed, end := 0, {}, 0;
      ghost var before := rows;
      while end < |rows|
        invariant |rows| == |before| && end <= |rows|
        invariant forall j :: 0 <= j < end && j in refused ==> !Decodable(before[j])
        invariant rows == PartlyRecovered(before, end, now)
        invariant recovered == |ToRecover(before, end)|
        invariant Reported(failed, before, end)
      {
        RecoverOneMore(before, end, now);
        OneMoreToRecover(before, end);
        if !Recoverable(rows[end]) { UnrecoverableStays(rows, end, now); }
        var r := RecoverCandidate(end, now, end in refused);
        if r.Refused? {
          PartlyRecoveredRows(before, end, now);
          return;
        }
        if r.Undecodable? { failed := failed + {end}; }
        if r.Recovered? { recovered := recovered + 1; }
        end := end + 1;
      }
      PartlyRecoveredRows(before, end, now);
    }
  }

  /** Recovering all rows twice equals recovering them once, at whatever times. */
  lemma RecoveringTwiceIsOnce(rows: seq<Row>, now: int, later: int)
    ensures RecoveredTable(RecoveredTable(rows, now), later) == RecoveredTable(rows, now)
  {
    forall i | 0 <= i < |rows| ensures RecoveredRow(RecoveredRow(rows[i], now), later) == RecoveredRow(rows[i], now) { }
  }

  /** Exactly the decodable interrupted rows change, each by one ledger failure. */
  lemma RecoveryTouchesInterrupted(rows: seq<Row>, now: int, i: nat)
    requires i < |rows|
    ensures RecoveredTable(rows, now)[i] != rows[i] <==> Decodable(rows[i])
    ensures Decodable(rows[i]) ==> FailedRow(rows[i], RecoveredTable(rows, now)[i], now)
  {
    if Recoverable(rows[i]) { RecoveredRowFailed(rows[i], now); }
  }
}
