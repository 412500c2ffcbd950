/** One call of Cook's dish advance (api/api/cook.py). */
module Cook {
  import opened Wrappers
  import opened Ordering
  import opened Json
  import opened Execution
  import opened Rows
  import opened Segments

  datatype DishStatus =
    | DishNew | DishProcessing | DishFinalizing
    | DishComplete | DishFailed | DishErrored | DishTimedOut | DishCanceled
  {
    predicate Active() {
      DishNew? || DishProcessing? || DishFinalizing?
    }
  }

  datatype TerminalState = TerminalState(status: DishStatus, execStatus: Status, error: Option<string>)

  datatype Decision =
    | Dispatch(segment: Segment)
    | BlockedInFlight
    | BlockedPending
    | Finalize(state: TerminalState)

  /** `min` of the buckets of the blocking failures. */
  function LowestBlocking(rows: seq<Row>): Option<Bucket> {
    if rows == [] then None
    else
      var rest := LowestBlocking(rows[1..]);
      if !rows[0].Blocking() then rest
      else if rest.Some? && rest.value.Below(rows[0].BucketOf()) then rest
      else Some(rows[0].BucketOf())
  }

  /** `_has_pending_after_blocking_failure`: strictly after the first blocking bucket. */
  predicate HasPendingAfterBlockingFailure(rows: seq<Row>) {
    var first := LowestBlocking(rows);
    first.Some? && exists r :: r in rows && r.status.Pending? && first.value.Below(r.BucketOf())
  }

  /** `_is_no_remediation_guard_false` */
  predicate GuardFalse(row: Row) {
    row.step.parameters.JObj? &&
    Get(row.step.parameters.fields, "guard_role") == JStr("remediation_precondition") &&
    Get(row.step.parameters.fields, "false_outcome") == JStr("cancel_downstream_no_remediation") &&
    row.outcome.JObj? && Get(row.outcome.fields, "is_firing") == JBool(false)
  }

  function ErrorText(error: Option<string>, fallback: string): Option<string> {
    Some(if error.Some? && error.value != "" then error.value else fallback)
  }

  /** `_dish_terminal_state`: the first telling row, scanned in id order. */
  function DishTerminalState(rows: seq<Row>): TerminalState {
    if rows == [] then TerminalState(DishComplete, Succeeded, None)
    else
      var row := rows[0];
      if !row.status.Terminal() then
        TerminalState(DishProcessing, row.status, Some("Dish still has non-terminal work"))
      else if GuardFalse(row) then
        TerminalState(DishCanceled, row.status,
                      Some("Remediation skipped because Alertmanager no longer shows the alert firing"))
      else if row.status.Canceled? && row.Blocking() then
        TerminalState(DishCanceled, row.status, ErrorText(row.error, "Dish step canceled"))
      else if row.Blocking() then
        TerminalState(if row.status.Errored? then DishErrored else if row.status.TimedOut? then DishTimedOut
                      else DishFailed,
                      row.status, ErrorText(row.error, "Dish step failed"))
      else DishTerminalState(rows[1..])
  }

  function Decide(rows: seq<Row>): Decision {
    var segment := NextSegment(rows);
    if segment.Some? then Dispatch(segment.value)
    else if HasInFlight(rows) then BlockedInFlight
    else if HasPendingAfterBlockingFailure(rows) then BlockedPending
    else Finalize(DishTerminalState(rows))
  }

  /** The stored rows after one compare-and-swap addressed to `id`. */
  function DispatchWhere(rows: seq<Row>, id: nat, now: int): (r: seq<Row>) {
    seq(|rows|, k requires 0 <= k < |rows| =>
      if rows[k].step.id == id && Ready(rows[k]) then MarkedReady(rows[k], now).value else rows[k])
  }

  /** The stored rows after a compare-and-swap addressed to each of `ids`. */
  function DispatchAll(rows: seq<Row>, ids: set<nat>, now: int): (r: seq<Row>) {
    seq(|rows|, k requires 0 <= k < |rows| =>
      if rows[k].step.id in ids && Ready(rows[k]) then MarkedReady(rows[k], now).value else rows[k])
  }

  function Ids(rows: seq<Row>): set<nat> {
    set r | r in rows :: r.step.id
  }

  /** The ids whose compare-and-swap succeeds. */
  function Dispatchable(rows: seq<Row>, ids: set<nat>): set<nat> {
    set r | r in rows && r.step.id in ids && Ready(r) :: r.step.id
  }

  predicate Matches(rows: seq<Row>, id: nat) {
    exists r :: r in rows && r.step.id == id && Ready(r)
  }

  lemma {:induction false} DispatchAllExtends(rows: seq<Row>, ids: set<nat>, id: nat, now: int)
    ensures DispatchWhere(DispatchAll(rows, ids, now), id, now) == DispatchAll(rows, ids + {id}, now)
  {}

  lemma {:induction false} DispatchableExtends(rows: seq<Row>, ids: set<nat>, id: nat, now: int)
    ensures Dispatchable(rows, ids + {id})
         == Dispatchable(rows, ids) + (if Matches(DispatchAll(rows, ids, now), id) then {id} else {})
  {
    var after := DispatchAll(rows, ids, now);
    if Matches(after, id) {
      var r :| r in after && r.step.id == id && Ready(r);
      var k :| 0 <= k < |after| && after[k] == r;
      assert rows[k] in rows;
    } else {
      forall r | r in rows && r.step.id == id && Ready(r) ensures id in ids {
        var k :| 0 <= k < |rows| && rows[k] == r;
        assert after[k] in after;
      }
    }
  }

  /** A second swap addressed to a row of an earlier one never succeeds. */
  lemma {:induction false} NoSecondMatch(rows: seq<Row>, ids: set<nat>, id: nat, now: int)
    requires id in ids
    ensures !Matches(DispatchAll(rows, ids, now), id)
  {
    var after := DispatchAll(rows, ids, now);
    forall r | r in after && r.step.id == id ensures !Ready(r) {
      var k :| 0 <= k < |after| && after[k] == r;
      assert rows[k].step.id == id;
    }
  }

  predicate Distinct(ids: seq<nat>) {
    forall i, j :: 0 <= i < j < |ids| ==> ids[i] != ids[j]
  }

  /** A dish and its live rows, as one uninterrupted advance call changes them. */
  class DishTable {
    var rows: seq<Row>
    var status: DishStatus
    var execStatus: Option<Status>
    var startedAt: Option<int>
    var completedAt: Option<int>
    var error: Option<string>

    constructor (rows: seq<Row>)
      ensures this.rows == rows && status == DishNew && startedAt.None?
    {
      this.rows := rows;
      status, execStatus, startedAt, completedAt, error := DishNew, None, None, None, None;
    }

    method Advance(now: int) returns (decision: Decision, dispatched: seq<nat>)
      modifies this
      ensures decision == Decide(old(rows))
      ensures decision.Dispatch? ==>
                rows == DispatchAll(old(rows), Ids(decision.segment.rows), now) &&
                (set id | id in dispatched) == Dispatchable(old(rows), Ids(decision.segment.rows)) &&
                Distinct(dispatched) &&
                (status, startedAt) == Touched(dispatched != [], old(status), old(startedAt), now) &&
                execStatus == old(execStatus) && completedAt == old(completedAt) && error == old(error)
      ensures !decision.Dispatch? ==> rows == old(rows) && dispatched == [] && startedAt == old(startedAt)
      ensures decision.BlockedInFlight? || decision.BlockedPending? ==>
                status == old(status) && execStatus == old(execStatus) && completedAt == old(completedAt) &&
                error == old(error)
      ensures decision.Finalize? ==>
                status == decision.state.status && execStatus == Some(decision.state.execStatus) &&
                error == decision.state.error && completedAt == Some(now)
      ensures decision.Finalize? ==>
                execStatus.Some? && FinalStateOf(old(rows), status, execStatus.value, error)
      ensures startedAt == if old(startedAt).None? && dispatched != [] then Some(now) else old(startedAt)
      ensures dispatched != [] ==> status.DishProcessing?
    {
      dispatched := [];
      var segment := NextPendingExecutionSegment(rows);
      if segment.None? {
        decision := Decide(rows);
        if decision.Finalize? {
          FinalStateExactly(rows);
          status := decision.state.status;
          execStatus := Some(decision.state.execStatus);
          completedAt := Some(now);
          error := decision.state.error;
        }
        return;
      }
      decision := Dispatch(segment.value);
      dispatched := MarkReady(segment.value.rows, now);
    }

    /** The loop over the ready rows: one compare-and-swap each, and the dish touched on every success. */
    method MarkReady(ready: seq<Row>, now: int) returns (dispatched: seq<nat>)
      modifies this
      ensures rows == DispatchAll(old(rows), Ids(ready), now)
      ensures (set id | id in dispatched) == Dispatchable(old(rows), Ids(ready)) && Distinct(dispatched)
      ensures (status, startedAt) == Touched(dispatched != [], old(status), old(startedAt), now)
      ensures execStatus == old(execStatus) && completedAt == old(completedAt) && error == old(error)
    {
      dispatched := [];
      ghost var before := rows;
      for j := 0 to |ready|
        invariant rows == DispatchAll(before, Ids(ready[..j]), now)
        invariant (set id | id in dispatched) == Dispatchable(before, Ids(ready[..j])) && Distinct(dispatched)
        invariant (status, startedAt) == Touched(dispatched != [], old(status), old(startedAt), now)
        invariant execStatus == old(execStatus) && completedAt == old(completedAt) && error == old(error)
      {
        var id := ready[j].step.id;
        ghost var ids := Ids(ready[..j]);
        assert Ids(ready[..j + 1]) == ids + {id} by {
          assert ready[..j + 1] == ready[..j] + [ready[j]];
        }
        DispatchAllExtends(before, ids, id, now);
        DispatchableExtends(before, ids, id, now);
        var matched := Matches(rows, id);
        if id in ids { NoSecondMatch(before, ids, id, now); }
        assert matched ==> id !in Dispatchable(before, ids);
        rows := DispatchWhere(rows, id, now);
        if !matched {
          continue;
        }
        status := DishProcessing;
        startedAt := if startedAt.Some? then startedAt else Some(now);
        dispatched := dispatched + [id];
      }
      assert ready[..|ready|] == ready;
    }
  }

  function Touched(any: bool, status: DishStatus, startedAt: Option<int>, now: int): (DishStatus, Option<int>) {
    if any then (DishProcessing, if startedAt.Some? then startedAt else Some(now)) else (status, startedAt)
  }

  // ---- Finalization --------------------------------------------------------------

  ghost predicate AllTerminal(rows: seq<Row>) {
    forall r :: r in rows ==> r.status.Terminal()
  }

  ghost predicate NoPendingInLowestBlocking(rows: seq<Row>) {
    LowestBlocking(rows).Some? ==>
      forall r :: r in rows && r.BucketOf() == LowestBlocking(rows).value ==> !r.status.Pending?
  }

  ghost predicate AllNamed(rows: seq<Row>) {
    forall r :: r in rows ==> ServiceNamed(r)
  }

  lemma {:induction false} LowestBlockingMeaning(rows: seq<Row>)
    ensures LowestBlocking(rows).None? <==> forall r :: r in rows ==> !r.Blocking()
    ensures LowestBlocking(rows).Some? ==>
              var b := LowestBlocking(rows).value;
              (exists r :: r in rows && r.Blocking() && r.BucketOf() == b) &&
              forall r :: r in rows && r.Blocking() ==> !r.BucketOf().Below(b)
  {
    if rows != [] {
      LowestBlockingMeaning(rows[1..]);
      if rows[0].Blocking() { assert rows[0] in rows; }
      if LowestBlocking(rows[1..]).Some? {
        var r :| r in rows[1..] && r.Blocking() && r.BucketOf() == LowestBlocking(rows[1..]).value;
        assert r in rows;
      }
    }
  }

  /** Some pending row stands in a later bucket than some failure that blocks it. */
  ghost predicate Stranded(rows: seq<Row>) {
    exists x, r :: x in rows && r in rows && x.Blocking() && r.status.Pending? && x.BucketOf().Below(r.BucketOf())
  }

  /** Which decision an advance takes, said of the rows: the least open row, what is in flight, what is stranded. */
  lemma {:induction false} DecisionExactly(rows: seq<Row>)
    requires DistinctIds(rows) && AllNamed(rows)
    ensures Decide(rows).Dispatch? <==> exists f :: LeastOpen(rows, f) && f.status.Pending?
    ensures !Decide(rows).Dispatch? ==>
              (Decide(rows).BlockedInFlight? <==> exists r :: r in rows && r.status.InFlight()) &&
              (Decide(rows).BlockedPending? <==> !HasInFlight(rows) && Stranded(rows)) &&
              (Decide(rows).Finalize? <==> !HasInFlight(rows) && !Stranded(rows))
  {
    FirstIsLeastOpen(rows);
    if f :| LeastOpen(rows, f) && f.status.Pending? { SegmentMeaning(rows, f); }
    StrandedMeaning(rows);
  }

  lemma {:induction false} StrandedMeaning(rows: seq<Row>)
    ensures Stranded(rows) <==> HasPendingAfterBlockingFailure(rows)
  {
    LowestBlockingMeaning(rows);
  }

  /** Wherever an advance finalizes, a row still open can only be pending in the lowest blocking bucket. */
  lemma {:induction false} OpenRowsAtFinalization(rows: seq<Row>, r: Row)
    requires DistinctIds(rows) && AllNamed(rows) && Decide(rows).Finalize?
    requires r in rows && !r.status.Terminal()
    ensures r.status.Pending? && LowestBlocking(rows).Some? && r.BucketOf() == LowestBlocking(rows).value
  {
    LowestBlockingMeaning(rows);
    FirstIsLeastOpen(rows);
    var f := FirstOpen(SortBy(rows, RowKey)).value;
    SegmentMeaning(rows, f);
    if r.BucketOf().Below(f.BucketOf()) { BucketOrdersKeys(r, f); LessTotal(RowKey(f), RowKey(r)); }
    assert f.Blocking();
  }

  /** Row k speaks for the dish: before it, in id order, all rows are done and no guard reported "not firing". */
  ghost predicate TellsAt(rows: seq<Row>, k: nat) {
    k < |rows| && (rows[k].Done() ==> GuardFalse(rows[k])) &&
    forall j :: 0 <= j < k ==> rows[j].Done() && !GuardFalse(rows[j])
  }

  /** Row k speaks for the dish, as a finished row and not as a guard. */
  ghost predicate FailsAt(rows: seq<Row>, k: nat) {
    TellsAt(rows, k) && rows[k].status.Terminal() && !GuardFalse(rows[k])
  }

  /** What a finalization writes, each status with its exact cause. */
  ghost predicate FinalStateOf(rows: seq<Row>, status: DishStatus, execStatus: Status, error: Option<string>) {
    (status.DishTimedOut? <==> exists k: nat :: FailsAt(rows, k) && rows[k].status.TimedOut?) &&
    (status.DishErrored? <==> exists k: nat :: FailsAt(rows, k) && rows[k].status.Errored?) &&
    (status.DishFailed? <==> exists k: nat :: FailsAt(rows, k) && rows[k].status.Failed?) &&
    (status.DishCanceled? <==>
      exists k: nat ::
        TellsAt(rows, k) && rows[k].status.Terminal() && (GuardFalse(rows[k]) || rows[k].status.Canceled?)) &&
    (status.DishProcessing? <==> exists k: nat :: TellsAt(rows, k) && !rows[k].status.Terminal()) &&
    (status.DishComplete? <==> forall r :: r in rows ==> r.Done() && !GuardFalse(r)) &&
    (status.DishComplete? <==> error.None?) && (status.DishComplete? ==> execStatus.Succeeded?) &&
    (forall k: nat :: TellsAt(rows, k) ==> execStatus == rows[k].status) &&
    (forall k: nat :: FailsAt(rows, k) && rows[k].error.Some? && rows[k].error.value != "" ==> error == rows[k].error)
  }

  lemma {:induction false} OneTells(rows: seq<Row>, j: nat, k: nat)
    requires TellsAt(rows, j) && TellsAt(rows, k)
    ensures j == k
  {}

  /** The scan stops at the row that speaks for the dish. */
  lemma {:induction false} ToldBy(rows: seq<Row>, k: nat)
    requires TellsAt(rows, k)
    ensures DishTerminalState(rows) == DishTerminalState([rows[k]])
  {
    if k > 0 {
      assert rows[0].Done() && !GuardFalse(rows[0]);
      ToldBy(rows[1..], k - 1);
    }
  }

  lemma {:induction false} SomeoneTells(rows: seq<Row>) returns (k: nat)
    ensures TellsAt(rows, k) || (k == |rows| && forall j :: 0 <= j < |rows| ==> rows[j].Done() && !GuardFalse(rows[j]))
  {
    k := 0;
    while k < |rows| && rows[k].Done() && !GuardFalse(rows[k])
      invariant 0 <= k <= |rows| && forall j :: 0 <= j < k ==> rows[j].Done() && !GuardFalse(rows[j])
    {
      k := k + 1;
    }
  }

  /** Which status a finalization writes: exactly, by the first telling row in id order. */
  lemma {:induction false} FinalStateExactly(rows: seq<Row>)
    ensures var state := DishTerminalState(rows);
            FinalStateOf(rows, state.status, state.execStatus, state.error)
  {
    var k := SomeoneTells(rows);
    CompleteMeaning(rows);
    if k < |rows| {
      ToldBy(rows, k);
      forall j: nat | TellsAt(rows, j) ensures j == k { OneTells(rows, j, k); }
      assert rows[k] in rows;
    } else {
      forall j: nat ensures !TellsAt(rows, j) {}
      AllDoneState(rows);
    }
  }

  lemma {:induction false} ProcessingTells(rows: seq<Row>) returns (k: nat)
    ensures !DishTerminalState(rows).status.DishNew? && !DishTerminalState(rows).status.DishFinalizing?
    ensures DishTerminalState(rows).status.DishProcessing? ==> TellsAt(rows, k) && !rows[k].status.Terminal()
    ensures forall j: nat :: TellsAt(rows, j) && !rows[j].status.Terminal() ==>
              j == k && DishTerminalState(rows).status.DishProcessing?
  {
    k := SomeoneTells(rows);
    if k < |rows| {
      ToldBy(rows, k);
      forall j: nat | TellsAt(rows, j) ensures j == k { OneTells(rows, j, k); }
    } else {
      AllDoneState(rows);
    }
  }

  lemma {:induction false} AllDoneState(rows: seq<Row>)
    requires forall j :: 0 <= j < |rows| ==> rows[j].Done() && !GuardFalse(rows[j])
    ensures DishTerminalState(rows) == TerminalState(DishComplete, Succeeded, None)
  {
    if rows != [] {
      assert rows[0].Done() && !GuardFalse(rows[0]);
      AllDoneState(rows[1..]);
    }
  }

  /** A succeeded row among done rows cancels the dish exactly when it is a guard whose alert no longer fires. */
  lemma {:induction false} GuardCancels(rows: seq<Row>, k: nat, parameters: map<string, Json>,
                                        outcome: map<string, Json>)
    requires k < |rows| && rows[k].status.Succeeded?
    requires forall j :: 0 <= j < |rows| && j != k ==> rows[j].Done() && !GuardFalse(rows[j])
    requires rows[k].step.parameters == JObj(parameters) && rows[k].outcome == JObj(outcome)
    ensures DishTerminalState(rows).status ==
            if Get(parameters, "guard_role") == JStr("remediation_precondition") &&
               Get(parameters, "false_outcome") == JStr("cancel_downstream_no_remediation") &&
               Get(outcome, "is_firing") == JBool(false) then DishCanceled else DishComplete
  {
    FinalStateExactly(rows);
    if GuardFalse(rows[k]) {
      assert TellsAt(rows, k);
    } else {
      AllDoneState(rows);
    }
  }

  lemma {:induction false} CompleteMeaning(rows: seq<Row>)
    ensures DishTerminalState(rows).status.DishComplete? <==> forall r :: r in rows ==> r.Done() && !GuardFalse(r)
  {
    if rows != [] {
      CompleteMeaning(rows[1..]);
      assert rows[0] in rows;
      assert forall r :: r in rows[1..] ==> r in rows;
    }
  }

  /**
    When an advance finalizes, every row is terminal exactly when no pending row sits in the
    lowest blocking bucket; then the dish is not left `processing`. It is `complete` exactly
    when every row succeeded or was allowed to fail and no guard reported "not firing".
  */
  lemma {:induction false} FinalizationSound(rows: seq<Row>)
    requires DistinctIds(rows) && AllNamed(rows) && Decide(rows).Finalize?
    ensures AllTerminal(rows) <==> NoPendingInLowestBlocking(rows)
    ensures NoPendingInLowestBlocking(rows) ==> !Decide(rows).state.status.Active()
    ensures Decide(rows).state.status.DishComplete? <==> forall r :: r in rows ==> r.Done() && !GuardFalse(r)
  {
    CompleteMeaning(rows);
    var k := ProcessingTells(rows);
    if TellsAt(rows, k) { assert rows[k] in rows; }
    forall r | r in rows && !r.status.Terminal()
      ensures r.status.Pending? && LowestBlocking(rows).Some? && r.BucketOf() == LowestBlocking(rows).value
    {
      OpenRowsAtFinalization(rows, r);
    }
  }

  /**
    Finalization does write `processing` when a partly dispatched bucket fails: exactly when the
    id-order scan meets a pending row of the lowest blocking bucket before any telling terminal row.
  */
  lemma {:induction false} FinalizedAsProcessing(rows: seq<Row>)
    requires DistinctIds(rows) && AllNamed(rows) && Decide(rows).Finalize?
    ensures Decide(rows).state.status.DishProcessing? <==>
              exists k: nat :: TellsAt(rows, k) && rows[k].status.Pending? &&
                               LowestBlocking(rows) == Some(rows[k].BucketOf())
  {
    var k := ProcessingTells(rows);
    if DishTerminalState(rows).status.DishProcessing? { OpenRowsAtFinalization(rows, rows[k]); }
  }

  /** Such rows exist: a pending row and a failed row of one bucket, the failed one first in execution order. */
  lemma {:induction false} FinalizedAsProcessingExample(pending: Row, failed: Row)
    requires pending.status.Pending? && failed.Blocking() && ServiceNamed(pending)
    requires pending.BucketOf() == failed.BucketOf()
    requires failed.step.stepOrder < pending.step.stepOrder && failed.step.id != pending.step.id
    ensures Decide([pending, failed]).Finalize? && Decide([pending, failed]).state.status.DishProcessing?
  {
    var rows := [pending, failed];
    ByStepOrder(failed, pending);
    assert LeastOpen(rows, failed);
    SegmentMeaning(rows, failed);
    LowestBlockingMeaning(rows);
  }
}
