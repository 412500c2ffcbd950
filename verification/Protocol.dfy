/**
  The dish protocol: any number of concurrent advance calls, runners and Timer passes over
  the rows of one dish. One action is one committed transaction. An advance call reads a
  snapshot, commits, and only then swaps its rows one by one, so every other action may fall
  between its read and its writes. A refused request leaves the state as it is, so every
  sequence of actions is a run.
*/
module Protocol {
  import opened Wrappers
  import opened Json
  import opened Execution
  import opened Rows
  import opened Segments
  import opened Cook

  /** What an advance call keeps between its transactions, and the ids it dispatched so far. */
  datatype Call = Call(snapshot: seq<Row>, decision: Decision, todo: seq<nat>, won: set<nat>)

  datatype System = System(
    lockTimeout: nat, clock: int, rows: seq<Row>,
    calls: map<nat, Call>, runners: map<nat, Row>)

  /**
    An answer of the expediter. Adapters never mint the runner prefix; an answer that repeats
    the row's own receipt is written with no receipt, which the runner treats the same way.
  */
  type ProviderBody = b: Body | b.execId.Some? ==> !HasRunnerPrefix(b.execId.value)
    witness Body(None, Running, JNull, JNull, None, JNull)

  /** What a reconcile request may carry as an outcome: an object or nothing. */
  type Outcome = j: Json | j.JNull? || j.JObj? witness JNull

  type FinalStatus = s: Status | s.Terminal() witness Succeeded

  datatype Action =
    | Tick(micros: nat)
    | Snapshot(call: nat)
    | Swap(call: nat)
    | PollClaim(id: nat, who: string)
    | ExecutionClaim(runner: nat, id: nat, who: string, plugin: Option<Plugin>)
    | Release(id: nat, who: string)
    | RunnerAnswer(runner: nat, body: ProviderBody)
    | RunnerError(runner: nat, detail: string)
    | TimerReport(id: nat, seen: Row, status: FinalStatus, outcome: Outcome, error: Option<string>, canceling: bool)

  function Kept(row: Row, result: Result<Row, Refusal>): Row {
    if result.Ok? then result.value else row
  }

  /** The request an action makes of a row, None when it is not addressed to it. */
  function Request(s: System, a: Action, row: Row): Option<Result<Row, Refusal>> {
    match a
    case Tick(_) => None
    case Snapshot(_) => None
    case Swap(c) =>
      if c in s.calls && s.calls[c].todo != [] && s.calls[c].todo[0] == row.step.id
      then Some(MarkedReady(row, s.clock)) else None
    case PollClaim(id, who) =>
      if id == row.step.id then Some(PollClaimed(row, who, s.clock, s.lockTimeout)) else None
    case ExecutionClaim(_, id, who, plugin) =>
      if id == row.step.id then Some(ExecutionClaimed(row, who, plugin, s.clock, s.lockTimeout)) else None
    case Release(id, who) =>
      if id == row.step.id then Some(Released(row, who, s.clock)) else None
    case RunnerAnswer(w, body) =>
      if w in s.runners && s.runners[w].step.id == row.step.id
      then Some(RunnerReconciled(row, RunnerPayload(s.runners[w], body, s.clock), s.clock)) else None
    case RunnerError(w, detail) =>
      if w in s.runners && s.runners[w].step.id == row.step.id
      then Some(RunnerReconciled(row, RunnerErrorPayload(s.runners[w], detail, s.clock), s.clock)) else None
    case TimerReport(id, seen, status, outcome, error, canceling) =>
      if id == row.step.id
      then Some(TimerReconciled(row, TimerPayload(seen, status, outcome, error, canceling, s.clock), s.clock)) else None
  }

  function RowAfter(s: System, a: Action, row: Row): Row {
    var request := Request(s, a, row);
    if request.Some? then Kept(row, request.value) else row
  }

  function RowsAfter(s: System, a: Action): (r: seq<Row>) {
    seq(|s.rows|, k requires 0 <= k < |s.rows| => RowAfter(s, a, s.rows[k]))
  }

  function OpenedCall(rows: seq<Row>): Call {
    var decision := Decide(rows);
    Call(rows, decision,
         if decision.Dispatch?
         then seq(|decision.segment.rows|,
                  k requires 0 <= k < |decision.segment.rows| => decision.segment.rows[k].step.id)
         else [],
         {})
  }

  function CallsAfter(s: System, a: Action): map<nat, Call> {
    match a
    case Snapshot(c) => if c in s.calls then s.calls else s.calls[c := OpenedCall(s.rows)]
    case Swap(c) =>
      if c in s.calls && s.calls[c].todo != [] then
        var call := s.calls[c];
        var id := call.todo[0];
        s.calls[c := call.(todo := call.todo[1..],
                           won := if Matches(s.rows, id) then call.won + {id} else call.won)]
      else s.calls
    case _ => s.calls
  }

  function Find(rows: seq<Row>, id: nat): Option<Row> {
    if rows == [] then None else if rows[0].step.id == id then Some(rows[0]) else Find(rows[1..], id)
  }

  /** A successful execution claim leaves the claimed row with the runner. */
  function RunnersAfter(s: System, a: Action): map<nat, Row> {
    if !a.ExecutionClaim? || Find(s.rows, a.id).None? then s.runners
    else
      var claimed := ExecutionClaimed(Find(s.rows, a.id).value, a.who, a.plugin, s.clock, s.lockTimeout);
      if claimed.Ok? then s.runners[a.runner := claimed.value] else s.runners
  }

  function Next(s: System, a: Action): System {
    s.(clock := if a.Tick? then s.clock + a.micros else s.clock,
       rows := RowsAfter(s, a), calls := CallsAfter(s, a), runners := RunnersAfter(s, a))
  }

  function Exec(s: System, run: seq<Action>): System
    decreases |run|
  {
    if run == [] then s else Exec(Next(s, run[0]), run[1..])
  }

  /** A seeded dish: rows as `seed_dish_ingredients_for_phase` inserts them, nobody at work. */
  ghost predicate Seeded(rows: seq<Row>) {
    DistinctIds(rows) && AllNamed(rows) &&
    forall r :: r in rows ==>
      r.status.Pending? && r.startedAt.None? && r.execId.None? && r.claimedAt.None? && r.claimedBy.None?
  }

  function Start(lockTimeout: nat, clock: int, rows: seq<Row>): System {
    System(lockTimeout, clock, rows, map[], map[])
  }

  // ---- Invariants ---------------------------------------------------------------

  /** What every stored row satisfies: leases only while running, no identity before the start. */
  ghost predicate RowOk(row: Row) {
    (row.claimedAt.Some? <==> row.claimedBy.Some?) &&
    (row.claimedAt.Some? ==> row.status.Running?) &&
    (row.startedAt.None? ==> (row.status.Pending? || row.status.Terminal()) && row.execId.None?) &&
    (row.startedAt.Some? ==> !row.status.Pending?) &&
    (IsRunnerReceipt(row.execId) ==> row.execId == Some(RunnerReceipt(row.step.id)))
  }

  /** A runner holds the runner receipt of the row it claimed. */
  ghost predicate RunnersOk(runners: map<nat, Row>) {
    forall w :: w in runners ==> runners[w].execId == Some(RunnerReceipt(runners[w].step.id))
  }

  /** Wherever a row has started, every row of a smaller bucket is terminal. */
  ghost predicate Barrier(rows: seq<Row>) {
    forall i, j :: 0 <= i < |rows| && 0 <= j < |rows| && rows[i].startedAt.Some? ==>
      rows[j].BucketOf().Below(rows[i].BucketOf()) ==> rows[j].status.Terminal()
  }

  /** The same for the rows a call still means to start, however old its snapshot is. */
  ghost predicate CallBehind(call: Call, rows: seq<Row>) {
    forall i, j :: 0 <= i < |rows| && 0 <= j < |rows| && rows[i].step.id in call.todo ==>
      rows[j].BucketOf().Below(rows[i].BucketOf()) ==> rows[j].status.Terminal()
  }

  /** A row of a snapshot that was terminal still is, and the steps are the same. */
  ghost predicate SnapshotBehind(snapshot: seq<Row>, rows: seq<Row>) {
    |snapshot| == |rows| &&
    forall k :: 0 <= k < |rows| ==>
      snapshot[k].step == rows[k].step && (snapshot[k].status.Terminal() ==> rows[k].status.Terminal())
  }

  ghost predicate CallOk(call: Call, rows: seq<Row>) {
    CallBehind(call, rows) && SnapshotBehind(call.snapshot, rows) && call.decision == Decide(call.snapshot)
  }

  ghost predicate Inv(s: System) {
    DistinctIds(s.rows) && AllNamed(s.rows) &&
    (forall k :: 0 <= k < |s.rows| ==> RowOk(s.rows[k])) &&
    RunnersOk(s.runners) && Barrier(s.rows) &&
    (forall c :: c in s.calls ==> CallOk(s.calls[c], s.rows))
  }

  // ---- One row under one action ---------------------------------------------------

  lemma {:induction false} AppliedFacts(row: Row, p: Payload, now: int)
    requires Applied(row, p, now).Ok?
    ensures var after := Applied(row, p, now).value;
            after.step == row.step && after.startedAt == row.startedAt &&
            (row.status.Terminal() ==> after.status.Terminal()) &&
            (!row.status.Pending? ==> !after.status.Pending?) &&
            (p.status.Some? && p.status.value.Terminal() ==> after.status.Terminal()) &&
            (row.step.expected.JNull? && row.status.Terminal() ==> after.status == row.status) &&
            (row.status.Canceled? ==> after.status.Canceled?) &&
            (after.status.Canceled? ==> row.status.Canceled? || !row.status.Terminal())
  {}

  lemma {:induction false} RowAfterFacts(s: System, a: Action, row: Row)
    ensures var after := RowAfter(s, a, row);
            after.step == row.step &&
            (row.status.Terminal() ==> after.status.Terminal()) &&
            (row.startedAt.Some? ==> after.startedAt == row.startedAt) &&
            (after.startedAt != row.startedAt ==> a.Swap? && Ready(row) && after == MarkedReady(row, s.clock).value)
  {
    match a
    case RunnerAnswer(w, body) =>
      if w in s.runners && RunnerReconciled(row, RunnerPayload(s.runners[w], body, s.clock), s.clock).Ok? {
        AppliedFacts(row, RunnerPayload(s.runners[w], body, s.clock), s.clock);
      }
    case RunnerError(w, detail) =>
      if w in s.runners && RunnerReconciled(row, RunnerErrorPayload(s.runners[w], detail, s.clock), s.clock).Ok? {
        AppliedFacts(row, RunnerErrorPayload(s.runners[w], detail, s.clock), s.clock);
      }
    case TimerReport(id, seen, status, outcome, error, canceling) =>
      if TimerReconciled(row, TimerPayload(seen, status, outcome, error, canceling, s.clock), s.clock).Ok? {
        AppliedFacts(row, TimerPayload(seen, status, outcome, error, canceling, s.clock), s.clock);
      }
    case _ =>
  }

  lemma {:induction false} AppliedOk(row: Row, p: Payload, now: int)
    requires RowOk(row) && Applied(row, p, now).Ok?
    requires p.status.Some? && (p.status.value.Terminal() || (row.execId.Some? && p.status.value.InFlight()))
    requires p.execId.Unset? || p.execId.value == row.execId ||
             (row.execId.Some? && p.execId.value.Some? && !IsRunnerReceipt(p.execId.value))
    ensures RowOk(Applied(row, p, now).value)
  {}

  lemma {:induction false} AnsweredOk(s: System, w: nat, body: ProviderBody, row: Row)
    requires RowOk(row) && RunnersOk(s.runners) && w in s.runners && s.runners[w].step.id == row.step.id
    ensures var result := RunnerReconciled(row, RunnerPayload(s.runners[w], body, s.clock), s.clock);
            result.Ok? ==> RowOk(result.value)
  {
    var p := RunnerPayload(s.runners[w], body, s.clock);
    if RunnerReconciled(row, p, s.clock).Ok? {
      assert p.execId == Set(BodyReceipt(s.runners[w], body));
      AppliedOk(row, p, s.clock);
    }
  }

  lemma {:induction false} RowAfterOk(s: System, a: Action, row: Row)
    requires RowOk(row) && RunnersOk(s.runners)
    ensures RowOk(RowAfter(s, a, row))
  {
    match a
    case RunnerAnswer(w, body) =>
      if w in s.runners && s.runners[w].step.id == row.step.id { AnsweredOk(s, w, body, row); }
    case RunnerError(w, detail) =>
      if Request(s, a, row).Some? && Request(s, a, row).value.Ok? {
        AppliedOk(row, RunnerErrorPayload(s.runners[w], detail, s.clock), s.clock);
      }
    case TimerReport(_, seen, status, outcome, error, canceling) =>
      if Request(s, a, row).Some? && Request(s, a, row).value.Ok? {
        AppliedOk(row, TimerPayload(seen, status, outcome, error, canceling, s.clock), s.clock);
      }
    case Swap(_) => RunnerReceiptRecognised(row.step.id);
    case _ =>
  }

  lemma {:induction false} FindMeaning(rows: seq<Row>, id: nat)
    ensures Find(rows, id).Some? ==> Find(rows, id).value in rows && Find(rows, id).value.step.id == id
  {
    if rows != [] { FindMeaning(rows[1..], id); }
  }

  // ---- The invariant over every run ----------------------------------------------

  /** How the rows may move under any action or run: steps fixed, terminal and start kept. */
  ghost predicate Onward(before: seq<Row>, after: seq<Row>) {
    |before| == |after| &&
    forall k :: 0 <= k < |before| ==>
      after[k].step == before[k].step &&
      (before[k].status.Terminal() ==> after[k].status.Terminal()) &&
      (before[k].startedAt.Some? ==> after[k].startedAt == before[k].startedAt)
  }

  lemma {:induction false} RowsMoveOnward(s: System, a: Action)
    ensures Onward(s.rows, RowsAfter(s, a))
  {
    forall k | 0 <= k < |s.rows| ensures RowsAfter(s, a)[k] == RowAfter(s, a, s.rows[k]) {}
    forall k | 0 <= k < |s.rows| { RowAfterFacts(s, a, s.rows[k]); }
  }

  lemma {:induction false} OpenedCallOk(rows: seq<Row>)
    requires DistinctIds(rows)
    ensures CallOk(OpenedCall(rows), rows)
    ensures forall k :: 0 <= k < |rows| && rows[k].step.id in OpenedCall(rows).todo ==>
              NextSegment(rows).Some? && rows[k].BucketOf() == NextSegment(rows).value.bucket &&
              rows[k].status.Pending?
  {
    if NextSegment(rows).Some? {
      SegmentReady(rows);
      var segment := NextSegment(rows).value;
      forall k | 0 <= k < |rows| && rows[k].step.id in OpenedCall(rows).todo
        ensures rows[k].BucketOf() == segment.bucket && rows[k].status.Pending?
      {
        var m :| 0 <= m < |segment.rows| && segment.rows[m].step.id == rows[k].step.id;
        assert segment.rows[m] in rows;
        var i :| 0 <= i < |rows| && rows[i] == segment.rows[m];
        assert i == k;
      }
    }
  }

  lemma {:induction false} BarrierKept(s: System, a: Action)
    requires Inv(s)
    ensures Barrier(RowsAfter(s, a))
  {
    var after := RowsAfter(s, a);
    RowsMoveOnward(s, a);
    forall i, j | 0 <= i < |after| && 0 <= j < |after| && after[i].startedAt.Some? &&
                  after[j].BucketOf().Below(after[i].BucketOf())
      ensures after[j].status.Terminal()
    {
      RowAfterFacts(s, a, s.rows[i]);
      if s.rows[i].startedAt.None? {
        assert s.rows[i].step.id in s.calls[a.call].todo;
        assert CallBehind(s.calls[a.call], s.rows);
      }
      assert s.rows[j].status.Terminal();
    }
  }

  /** What an open call still has to do stays behind the barrier, whatever happens to the rows. */
  lemma {:induction false} CallStaysOk(earlier: Call, call: Call, before: seq<Row>, after: seq<Row>)
    requires CallOk(earlier, before) && Onward(before, after)
    requires call.snapshot == earlier.snapshot && call.decision == earlier.decision
    requires forall id :: id in call.todo ==> id in earlier.todo
    ensures CallOk(call, after)
  {
    forall i, j | 0 <= i < |after| && 0 <= j < |after| && after[i].step.id in call.todo &&
                  after[j].BucketOf().Below(after[i].BucketOf())
      ensures after[j].status.Terminal()
    {
      assert before[j].status.Terminal();
    }
  }

  lemma {:induction false} CallsKept(s: System, a: Action, c: nat)
    requires Inv(s) && c in CallsAfter(s, a)
    ensures CallOk(CallsAfter(s, a)[c], RowsAfter(s, a))
  {
    RowsMoveOnward(s, a);
    if a.Snapshot? && c == a.call && c !in s.calls {
      OpenedCallOk(s.rows);
      assert RowsAfter(s, a) == s.rows;
    } else {
      CallStaysOk(s.calls[c], CallsAfter(s, a)[c], s.rows, RowsAfter(s, a));
    }
  }

  lemma {:induction false} RowsOkKept(s: System, a: Action)
    requires Inv(s)
    ensures DistinctIds(RowsAfter(s, a)) && AllNamed(RowsAfter(s, a))
    ensures forall k :: 0 <= k < |s.rows| ==> RowOk(RowsAfter(s, a)[k])
  {
    var after := RowsAfter(s, a);
    RowsMoveOnward(s, a);
    forall k | 0 <= k < |s.rows| ensures RowOk(after[k]) && ServiceNamed(after[k]) {
      RowAfterOk(s, a, s.rows[k]);
      assert s.rows[k] in s.rows;
    }
    forall r | r in after ensures ServiceNamed(r) {
      var k :| 0 <= k < |after| && after[k] == r;
    }
  }

  lemma {:induction false} RunnersKept(s: System, a: Action)
    requires RunnersOk(s.runners) && forall k :: 0 <= k < |s.rows| ==> RowOk(s.rows[k])
    ensures RunnersOk(RunnersAfter(s, a))
  {
    if a.ExecutionClaim? && Find(s.rows, a.id).Some? {
      FindMeaning(s.rows, a.id);
      var r := Find(s.rows, a.id).value;
      var k :| 0 <= k < |s.rows| && s.rows[k] == r;
      assert RowOk(r);
    }
  }

  lemma {:induction false} InvKept(s: System, a: Action)
    requires Inv(s)
    ensures Inv(Next(s, a))
  {
    RowsOkKept(s, a);
    RunnersKept(s, a);
    BarrierKept(s, a);
    forall c | c in CallsAfter(s, a) ensures CallOk(CallsAfter(s, a)[c], RowsAfter(s, a)) { CallsKept(s, a, c); }
  }

  lemma {:induction false} StartOk(lockTimeout: nat, clock: int, rows: seq<Row>)
    requires Seeded(rows)
    ensures Inv(Start(lockTimeout, clock, rows))
  {
    forall k | 0 <= k < |rows| ensures RowOk(rows[k]) && rows[k].startedAt.None? { assert rows[k] in rows; }
  }

  lemma {:induction false} InvOnRuns(s: System, run: seq<Action>)
    requires Inv(s)
    ensures Inv(Exec(s, run))
    ensures Onward(s.rows, Exec(s, run).rows)
    ensures Exec(s, run).clock >= s.clock && Exec(s, run).lockTimeout == s.lockTimeout
    decreases |run|
  {
    if run != [] {
      InvKept(s, run[0]);
      RowsMoveOnward(s, run[0]);
      InvOnRuns(Next(s, run[0]), run[1..]);
    }
  }

  /**
    Bucket barrier: in every reachable state, if a row has been started then every row of a
    strictly smaller bucket is terminal, although every call starts its rows from a stale snapshot.
  */
  lemma {:induction false} BucketBarrier(lockTimeout: nat, clock: int, rows: seq<Row>, run: seq<Action>)
    requires Seeded(rows)
    ensures var t := Exec(Start(lockTimeout, clock, rows), run);
            Inv(t) && Onward(rows, t.rows) &&
            forall i, j :: 0 <= i < |t.rows| && 0 <= j < |t.rows| && t.rows[i].startedAt.Some? ==>
              t.rows[j].BucketOf().Below(t.rows[i].BucketOf()) ==> t.rows[j].status.Terminal()
  {
    StartOk(lockTimeout, clock, rows);
    InvOnRuns(Start(lockTimeout, clock, rows), run);
  }
}
