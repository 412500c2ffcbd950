/**
  The Timer's sweep over one dish (kitchen/timer.py monitor_advance_ready, api/api/dishes.py
  advance-ready): pick a representative row, cancel what a blocking failure leaves behind it,
  ask Cook to advance.
*/
module Timer {
  import opened Wrappers
  import opened Ordering
  import opened Json
  import opened Execution
  import opened Rows
  import opened Segments
  import opened Cook
  import opened Collapse
  import opened Protocol

  /** (bucket, step_order, id) */
  function RepresentativeKey(row: Row): Key {
    [row.step.depth, row.step.parallelGroup, row.step.stepOrder, row.step.id]
  }

  function FirstBlocking(rows: seq<Row>): Option<Row> {
    if rows == [] then None else if rows[0].Blocking() then Some(rows[0]) else FirstBlocking(rows[1..])
  }

  function LastTerminal(rows: seq<Row>): Option<Row> {
    if rows == [] then None
    else if rows[|rows| - 1].status.Terminal() then Some(rows[|rows| - 1]) else LastTerminal(rows[..|rows| - 1])
  }

  function FirstPending(rows: seq<Row>): Option<Row> {
    if rows == [] then None else if rows[0].status.Pending? then Some(rows[0]) else FirstPending(rows[1..])
  }

  /** `_advance_ready_representative` */
  function Representative(rows: seq<Row>): Option<Row> {
    if HasInFlight(rows) then None
    else
      var ordered := SortBy(rows, RepresentativeKey);
      if FirstBlocking(ordered).Some? then FirstBlocking(ordered)
      else if LastTerminal(ordered).Some? then LastTerminal(ordered)
      else FirstPending(ordered)
  }

  /** `_blocking_failure_reason` */
  function BlockingReason(row: Row): string {
    if GuardFalse(row) then "Remediation skipped because Alertmanager no longer shows the alert firing"
    else if row.error.Some? && row.error.value != "" then row.error.value
    else "Blocking service execution failed"
  }

  /** The columns the ingredient-status view shows the Timer. */
  function StatusView(row: Row): Row {
    row.(outcome := JNull, step := row.step.(expectedSecs := None))
  }

  function CancelOutcome(blocker: Row): Outcome {
    JObj(map["success" := JBool(false), "status" := JStr("canceled"),
             "reason" := JStr("blocked_by_prior_group_failure"),
             "message" := JStr(BlockingReason(blocker)),
             "blocked_by_dish_ingredient_id" := JNum(blocker.step.id as real)])
  }

  function CancelRequest(candidate: Row, blocker: Row, now: int): Payload {
    TimerPayload(StatusView(candidate), Canceled, CancelOutcome(blocker), Some(BlockingReason(blocker)), true, now)
  }

  /** The stored rows after a Timer reconcile addressed to `id`. */
  function ReconcileWhere(rows: seq<Row>, id: nat, p: Payload, now: int): (r: seq<Row>) {
    seq(|rows|, k requires 0 <= k < |rows| =>
      if rows[k].step.id == id then Kept(rows[k], TimerReconciled(rows[k], p, now)) else rows[k])
  }

  predicate IsTarget(candidate: Row, blocker: Row) {
    candidate.status.Pending? && blocker.BucketOf().Below(candidate.BucketOf())
  }

  /** The rows after the cascade over `view`: every shown pending row of a later bucket gets a cancel request. */
  ghost function Cascaded(rows: seq<Row>, view: seq<Row>, blocker: Row, now: int): (r: seq<Row>) {
    seq(|rows|, k requires 0 <= k < |rows| =>
      if rows[k] in view && IsTarget(rows[k], blocker)
      then Kept(rows[k], TimerReconciled(rows[k], CancelRequest(rows[k], blocker, now), now)) else rows[k])
  }

  lemma {:induction false} CascadedSkip(rows: seq<Row>, view: seq<Row>, candidate: Row, blocker: Row, now: int)
    requires !IsTarget(candidate, blocker)
    ensures Cascaded(rows, view + [candidate], blocker, now) == Cascaded(rows, view, blocker, now)
  {}

  lemma {:induction false} CascadedNext(rows: seq<Row>, view: seq<Row>, candidate: Row, blocker: Row, now: int)
    requires DistinctIds(rows) && candidate in rows && candidate !in view && IsTarget(candidate, blocker)
    ensures ReconcileWhere(Cascaded(rows, view, blocker, now), candidate.step.id,
                           CancelRequest(candidate, blocker, now), now)
         == Cascaded(rows, view + [candidate], blocker, now)
  {
    var before, after := Cascaded(rows, view, blocker, now), Cascaded(rows, view + [candidate], blocker, now);
    var m :| 0 <= m < |rows| && rows[m] == candidate;
    forall k | 0 <= k < |rows| ensures before[k].step == rows[k].step {}
    forall k | 0 <= k < |rows|
      ensures ReconcileWhere(before, candidate.step.id, CancelRequest(candidate, blocker, now), now)[k] == after[k]
    {
      if k != m { assert rows[k].step.id != candidate.step.id; }
    }
  }

  /** `_cancel_blocked_future_rows` */
  method CancelBlockedFutureRows(table: DishTable, blocker: Row, lookup: map<string, int>, now: int)
    requires DistinctIds(table.rows)
    modifies table`rows
    ensures table.rows == Cascaded(old(table.rows), Collapsed(old(table.rows), lookup), blocker, now)
  {
    var view := CollapseDishIngredientRecords(table.rows, lookup);
    ghost var before := table.rows;
    ViewFacts(before, view, lookup);
    for i := 0 to |view|
      invariant table.rows == Cascaded(before, view[..i], blocker, now)
    {
      var candidate := view[i];
      CascadedOneMore(before, view, i, blocker, now);
      if !candidate.status.Pending? || !blocker.BucketOf().Below(candidate.BucketOf()) {
        continue;
      }
      table.rows := ReconcileWhere(table.rows, candidate.step.id, CancelRequest(candidate, blocker, now), now);
    }
    assert view[..|view|] == view;
  }

  lemma {:induction false} ViewFacts(rows: seq<Row>, view: seq<Row>, lookup: map<string, int>)
    requires DistinctIds(rows) && view == Collapsed(rows, lookup)
    ensures (forall r :: r in view ==> r in rows) && (forall i, j :: 0 <= i < j < |view| ==> view[i] != view[j])
  {
    CollapsedMembers(rows, lookup);
    ViewDistinct(rows, lookup);
  }

  /** One round of the cascade loop. */
  lemma {:induction false} CascadedOneMore(rows: seq<Row>, view: seq<Row>, i: nat, blocker: Row, now: int)
    requires DistinctIds(rows) && i < |view|
    requires (forall r :: r in view ==> r in rows) && (forall i, j :: 0 <= i < j < |view| ==> view[i] != view[j])
    ensures Cascaded(rows, view[..i + 1], blocker, now) ==
            if !IsTarget(view[i], blocker) then Cascaded(rows, view[..i], blocker, now)
            else ReconcileWhere(Cascaded(rows, view[..i], blocker, now), view[i].step.id,
                                CancelRequest(view[i], blocker, now), now)
  {
    assert view[..i + 1] == view[..i] + [view[i]];
    if IsTarget(view[i], blocker) {
      CascadedNext(rows, view[..i], view[i], blocker, now);
    } else {
      CascadedSkip(rows, view[..i], view[i], blocker, now);
    }
  }

  lemma {:induction false} ViewDistinct(rows: seq<Row>, lookup: map<string, int>)
    requires DistinctIds(rows)
    ensures forall i, j :: 0 <= i < j < |Collapsed(rows, lookup)| ==>
              Collapsed(rows, lookup)[i] != Collapsed(rows, lookup)[j]
  {
    var view := Collapsed(rows, lookup);
    forall i: nat, j: nat | i < j < |view| ensures view[i] != view[j] {
      assert multiset(view)[view[i]] <= 1 by {
        CollapsedMembers(rows, lookup);
        assert view[i] in view;
        OneRowPerStep(rows, lookup, view[i]);
        DistinctCount(rows);
      }
      SingleCountsDistinct(view, i, j);
    }
  }

  /** One pass of `monitor_advance_ready` for one dish, with nobody else at work. */
  method SweepDish(table: DishTable, lookup: map<string, int>, now: int)
    returns (decision: Option<Decision>, dispatched: seq<nat>)
    requires DistinctIds(table.rows)
    modifies table
    ensures decision.None? <==> Representative(old(table.rows)).None?
    ensures decision.None? ==> table.rows == old(table.rows)
    ensures decision.Some? ==> decision.value == Decide(Swept(old(table.rows), lookup, now))
    ensures decision.Some? ==>
              table.rows == (if decision.value.Dispatch?
                             then DispatchAll(Swept(old(table.rows), lookup, now), Ids(decision.value.segment.rows),
                                              now)
                             else Swept(old(table.rows), lookup, now))
    ensures Sweepable(old(table.rows), lookup) ==>
              decision.Some? && (dispatched != [] || (decision.value.Finalize? && !table.status.Active()))
  {
    ghost var before := table.rows;
    var representative := Representative(table.rows);
    if representative.None? {
      decision, dispatched := None, [];
      if Sweepable(before, lookup) { SweepProgress(before, lookup, now); }
      return;
    }
    if representative.value.Blocking() {
      CancelBlockedFutureRows(table, representative.value, lookup, now);
    }
    assert table.rows == Swept(before, lookup, now);
    var made, ids := table.Advance(now);
    decision, dispatched := Some(made), ids;
    if Sweepable(before, lookup) { SweepProgress(before, lookup, now); }
  }

  // ---- The sweep makes progress ------------------------------------------------------

  /** The rows Cook sees when the sweep asks it to advance. */
  ghost function Swept(rows: seq<Row>, lookup: map<string, int>, now: int): seq<Row> {
    var representative := Representative(rows);
    if representative.Some? && representative.value.Blocking()
    then Cascaded(rows, Collapsed(rows, lookup), representative.value, now) else rows
  }

  /** A non-empty dish between steps: nothing in flight, no duplicated step, the failed bucket fully dispatched. */
  ghost predicate Sweepable(rows: seq<Row>, lookup: map<string, int>) {
    rows != [] && DistinctIds(rows) && AllNamed(rows) && (forall r :: r in rows ==> RowOk(r)) &&
    !HasInFlight(rows) && NoPendingInLowestBlocking(rows) &&
    (forall a, b :: a in rows && b in rows && IdentityOf(a, lookup) == IdentityOf(b, lookup) ==> a == b)
  }

  lemma {:induction false} FirstBlockingLeast(rows: seq<Row>)
    requires Sorted(rows, RepresentativeKey)
    ensures FirstBlocking(rows).None? <==> forall r :: r in rows ==> !r.Blocking()
    ensures FirstBlocking(rows).Some? ==>
              var f := FirstBlocking(rows).value;
              f in rows && f.Blocking() &&
              forall r :: r in rows && r.Blocking() ==> !Less(RepresentativeKey(r), RepresentativeKey(f))
  {
    if rows != [] {
      assert rows == [rows[0]] + rows[1..];
      FirstBlockingLeast(rows[1..]);
      if rows[0].Blocking() {
        forall r | r in rows ensures !Less(RepresentativeKey(r), RepresentativeKey(rows[0])) {
          SortedHead(rows, RepresentativeKey, r);
        }
      }
    }
  }

  lemma {:induction false} BucketOrdersRepresentatives(a: Row, b: Row)
    requires a.BucketOf().Below(b.BucketOf())
    ensures Less(RepresentativeKey(a), RepresentativeKey(b))
  {
    var ka, kb := RepresentativeKey(a), RepresentativeKey(b);
    if ka[0] == kb[0] {
      assert ka[1..][0] < kb[1..][0];
      assert Less(ka[1..], kb[1..]);
    }
  }

  lemma {:induction false} LastTerminalFinds(rows: seq<Row>)
    ensures LastTerminal(rows).None? <==> forall r :: r in rows ==> !r.status.Terminal()
    ensures LastTerminal(rows).Some? ==> LastTerminal(rows).value in rows && LastTerminal(rows).value.status.Terminal()
  {
    if rows != [] {
      LastTerminalFinds(rows[..|rows| - 1]);
      assert rows == rows[..|rows| - 1] + [rows[|rows| - 1]];
    }
  }

  /**
    The representative of a dish between steps: there is one as soon as the dish has a row, it is a
    blocking failure exactly when there is any, and then it lies in the lowest blocking bucket.
  */
  lemma {:induction false} RepresentativeMeaning(rows: seq<Row>)
    requires rows != [] && !HasInFlight(rows)
    ensures Representative(rows).Some? && Representative(rows).value in rows
    ensures Representative(rows).value.Blocking() <==> LowestBlocking(rows).Some?
    ensures LowestBlocking(rows).Some? ==> Representative(rows).value.BucketOf() == LowestBlocking(rows).value
  {
    var ordered := SortBy(rows, RepresentativeKey);
    SortByCorrect(rows, RepresentativeKey);
    FirstBlockingLeast(ordered);
    LastTerminalFinds(ordered);
    LowestBlockingMeaning(rows);
    if FirstBlocking(ordered).Some? {
      var f := FirstBlocking(ordered).value;
      var b := LowestBlocking(rows).value;
      var r :| r in rows && r.Blocking() && r.BucketOf() == b;
      if b.Below(f.BucketOf()) { BucketOrdersRepresentatives(r, f); }
    } else if LastTerminal(ordered).None? {
      assert ordered[0] in rows && ordered[0].status.Pending?;
    }
  }

  /** Row a comes before row b in the order in which representatives are picked: by bucket, step order and id. */
  predicate StepBefore(a: Step, b: Step) {
    a.BucketOf().Below(b.BucketOf()) || (a.BucketOf() == b.BucketOf() &&
    (a.stepOrder < b.stepOrder || (a.stepOrder == b.stepOrder && a.id < b.id)))
  }

  lemma {:induction false} RepresentativeOrder(a: Row, b: Row)
    ensures Less(RepresentativeKey(a), RepresentativeKey(b)) <==> StepBefore(a.step, b.step)
  {
    var s, t := a.step, b.step;
    LessByField(s.depth, [s.parallelGroup, s.stepOrder, s.id], t.depth, [t.parallelGroup, t.stepOrder, t.id]);
    LessByField(s.parallelGroup, [s.stepOrder, s.id], t.parallelGroup, [t.stepOrder, t.id]);
    LessByField(s.stepOrder, [s.id], t.stepOrder, [t.id]);
    LessByField(s.id, [], t.id, []);
    assert RepresentativeKey(a) == [s.depth] + [s.parallelGroup, s.stepOrder, s.id];
    assert RepresentativeKey(b) == [t.depth] + [t.parallelGroup, t.stepOrder, t.id];
    assert [s.parallelGroup, s.stepOrder, s.id] == [s.parallelGroup] + [s.stepOrder, s.id];
    assert [t.parallelGroup, t.stepOrder, t.id] == [t.parallelGroup] + [t.stepOrder, t.id];
    assert [s.stepOrder, s.id] == [s.stepOrder] + [s.id] && [t.stepOrder, t.id] == [t.stepOrder] + [t.id];
    assert [s.id] == [s.id] + [] && [t.id] == [t.id] + [];
  }

  lemma {:induction false} LastTerminalGreatest(rows: seq<Row>)
    requires Sorted(rows, RepresentativeKey) && LastTerminal(rows).Some?
    ensures forall r :: r in rows && r.status.Terminal() ==>
              !Less(RepresentativeKey(LastTerminal(rows).value), RepresentativeKey(r))
  {
    var n := |rows| - 1;
    assert rows == rows[..n] + [rows[n]];
    if rows[n].status.Terminal() {
      forall r | r in rows ensures !Less(RepresentativeKey(rows[n]), RepresentativeKey(r)) {
        var k :| 0 <= k < |rows| && rows[k] == r;
        LessTotal(RepresentativeKey(r), RepresentativeKey(r));
      }
    } else {
      LastTerminalGreatest(rows[..n]);
    }
  }

  lemma {:induction false} FirstPendingLeast(rows: seq<Row>)
    requires Sorted(rows, RepresentativeKey)
    ensures FirstPending(rows).None? <==> forall r :: r in rows ==> !r.status.Pending?
    ensures FirstPending(rows).Some? ==>
              var f := FirstPending(rows).value;
              f in rows && f.status.Pending? &&
              forall r :: r in rows && r.status.Pending? ==> !Less(RepresentativeKey(r), RepresentativeKey(f))
  {
    if rows != [] {
      assert rows == [rows[0]] + rows[1..];
      FirstPendingLeast(rows[1..]);
      if rows[0].status.Pending? {
        forall r | r in rows ensures !Less(RepresentativeKey(r), RepresentativeKey(rows[0])) {
          SortedHead(rows, RepresentativeKey, r);
        }
      }
    }
  }

  lemma {:induction false} NotBefore(rows: seq<Row>, a: Row, b: Row)
    requires DistinctIds(rows) && a in rows && b in rows && !Less(RepresentativeKey(b), RepresentativeKey(a)) && a != b
    ensures StepBefore(a.step, b.step)
  {
    var i :| 0 <= i < |rows| && rows[i] == a;
    var j :| 0 <= j < |rows| && rows[j] == b;
    RepresentativeOrder(b, a);
    assert a.step.id != b.step.id;
  }

  /**
    Which row represents a dish with nothing in flight: the first blocking failure, else the last
    finished row, else the first pending one.
  */
  lemma {:induction false} RepresentativeExactly(rows: seq<Row>, c: Row)
    requires DistinctIds(rows) && c in rows
    ensures Representative(rows) == Some(c) <==>
            (forall r :: r in rows ==> !r.status.InFlight()) &&
            ((c.Blocking() && forall r :: r in rows && r.Blocking() && r != c ==> StepBefore(c.step, r.step)) ||
            ((forall r :: r in rows ==> !r.Blocking()) && c.status.Terminal() &&
             forall r :: r in rows && r.status.Terminal() && r != c ==> StepBefore(r.step, c.step)) ||
            ((forall r :: r in rows ==> r.status.Pending?) &&
             forall r :: r in rows && r != c ==> StepBefore(c.step, r.step)))
  {
    if HasInFlight(rows) { return; }
    var ordered := SortBy(rows, RepresentativeKey);
    SortByCorrect(rows, RepresentativeKey);
    FirstBlockingLeast(ordered);
    LastTerminalFinds(ordered);
    FirstPendingLeast(ordered);
    var p := Representative(rows).value;
    if FirstBlocking(ordered).Some? {
      forall r | r in rows && r.Blocking() && r != p ensures StepBefore(p.step, r.step) { NotBefore(rows, p, r); }
    } else if LastTerminal(ordered).Some? {
      LastTerminalGreatest(ordered);
      forall r | r in rows && r.status.Terminal() && r != p ensures StepBefore(r.step, p.step) {
        NotBefore(rows, r, p);
      }
    } else {
      forall r | r in rows ensures r.status.Pending? {}
      forall r | r in rows && r != p ensures StepBefore(p.step, r.step) { NotBefore(rows, p, r); }
    }
    if p != c && StepBefore(p.step, c.step) { BeforeOneWay(p.step, c.step); }
    if p != c && StepBefore(c.step, p.step) { BeforeOneWay(c.step, p.step); }
  }

  lemma {:induction false} BeforeOneWay(a: Step, b: Step)
    requires StepBefore(a, b)
    ensures !StepBefore(b, a)
  {}

  /** The cascade cancels every pending row behind the failure and moves nothing else. */
  lemma {:induction false} CascadeMoves(rows: seq<Row>, lookup: map<string, int>, now: int)
    requires Sweepable(rows, lookup) && Representative(rows).Some? && Representative(rows).value.Blocking()
    ensures var after := Swept(rows, lookup, now);
            |after| == |rows| &&
            forall k :: 0 <= k < |rows| ==>
              after[k].step == rows[k].step &&
              if IsTarget(rows[k], Representative(rows).value) then after[k].status.Canceled?
              else after[k] == rows[k]
  {
    var blocker, after := Representative(rows).value, Swept(rows, lookup, now);
    NothingHidden(rows, lookup);
    SameElements(rows, Collapsed(rows, lookup));
    forall k | 0 <= k < |rows|
      ensures after[k].step == rows[k].step
      ensures IsTarget(rows[k], blocker) ==> after[k].status.Canceled?
    {
      assert rows[k] in rows;
      assert RowOk(rows[k]);
    }
  }

  /**
    What a row canceled by the cascade shows: when, on account of which row and with whose error, and
    nothing it carried before.
  */
  lemma {:induction false} CanceledRowShows(rows: seq<Row>, lookup: map<string, int>, now: int, k: nat)
    requires Sweepable(rows, lookup) && Representative(rows).Some? && Representative(rows).value.Blocking()
    requires k < |rows| && IsTarget(rows[k], Representative(rows).value)
    ensures var blocker, after := Representative(rows).value, Swept(rows, lookup, now)[k];
            after.status.Canceled? && after.completedAt == Some(now) && after.canceledAt == Some(now) &&
            after.startedAt.None? && after.claimedAt.None? && after.error.Some? && after.outcome.JObj? &&
            after.outcome.fields.Keys == {"success", "status", "reason", "message", "blocked_by_dish_ingredient_id"} &&
            Get(after.outcome.fields, "success") == JBool(false) &&
            Get(after.outcome.fields, "status") == JStr("canceled") &&
            Get(after.outcome.fields, "message") == JStr(after.error.value) &&
            Get(after.outcome.fields, "blocked_by_dish_ingredient_id") == JNum(blocker.step.id as real) &&
            (!GuardFalse(blocker) && blocker.error.Some? && blocker.error.value != "" ==> after.error == blocker.error)
  {
    var blocker := Representative(rows).value;
    NothingHidden(rows, lookup);
    SameElements(rows, Collapsed(rows, lookup));
    assert rows[k] in rows;
    assert RowOk(rows[k]);
    CancelFields(blocker);
  }

  lemma {:induction false} CancelFields(blocker: Row)
    ensures var fields := CancelOutcome(blocker).fields;
            fields.Keys == {"success", "status", "reason", "message", "blocked_by_dish_ingredient_id"} &&
            Get(fields, "success") == JBool(false) && Get(fields, "status") == JStr("canceled") &&
            Get(fields, "message") == JStr(BlockingReason(blocker)) &&
            Get(fields, "blocked_by_dish_ingredient_id") == JNum(blocker.step.id as real)
  {
    assert |"success"| == |"message"| == 7 && |"status"| == |"reason"| == 6;
    assert "success"[0] != "message"[0] && "status"[0] != "reason"[0];
  }

  lemma {:induction false} SameLowestBlocking(rows: seq<Row>, after: seq<Row>, f: nat)
    requires |rows| == |after| && f < |after| && after[f].Blocking()
    requires LowestBlocking(rows) == Some(after[f].BucketOf())
    requires forall k :: 0 <= k < |rows| ==>
      after[k] == rows[k] || after[f].BucketOf().Below(after[k].BucketOf())
    ensures LowestBlocking(after) == LowestBlocking(rows)
  {
    LowestBlockingMeaning(rows);
    LowestBlockingMeaning(after);
    assert after[f] in after;
    var q :| q in after && q.Blocking() && q.BucketOf() == LowestBlocking(after).value;
    var j :| 0 <= j < |after| && after[j] == q;
    if after[j] == rows[j] { assert q in rows; }
  }

  /** The lowest blocking bucket is the representative's, before and after. */
  lemma {:induction false} LowestBlockingAfterCascade(rows: seq<Row>, lookup: map<string, int>, now: int)
    requires Sweepable(rows, lookup) && Representative(rows).Some? && Representative(rows).value.Blocking()
    ensures LowestBlocking(Swept(rows, lookup, now)) == Some(Representative(rows).value.BucketOf())
  {
    var blocker := Representative(rows).value;
    RepresentativeMeaning(rows);
    CascadeMoves(rows, lookup, now);
    var f :| 0 <= f < |rows| && rows[f] == blocker;
    SameLowestBlocking(rows, Swept(rows, lookup, now), f);
  }

  /** So Cook no longer sees a pending row after a blocking failure. */
  lemma {:induction false} CascadeClears(rows: seq<Row>, lookup: map<string, int>, now: int)
    requires Sweepable(rows, lookup) && Representative(rows).Some? && Representative(rows).value.Blocking()
    ensures !HasPendingAfterBlockingFailure(Swept(rows, lookup, now))
  {
    var blocker, after := Representative(rows).value, Swept(rows, lookup, now);
    CascadeMoves(rows, lookup, now);
    LowestBlockingAfterCascade(rows, lookup, now);
    forall r | r in after && r.status.Pending? ensures !blocker.BucketOf().Below(r.BucketOf()) {
      var k :| 0 <= k < |after| && after[k] == r;
    }
  }

  /**
    Sweep progress: on a dish between steps one sweep either dispatches at least one row or
    finalizes the dish with a status that ends it.
  */
  lemma {:induction false} SweepProgress(rows: seq<Row>, lookup: map<string, int>, now: int)
    requires Sweepable(rows, lookup)
    ensures Representative(rows).Some?
    ensures var after := Swept(rows, lookup, now);
            !HasPendingAfterBlockingFailure(after) &&
            var decision := Decide(after);
            ((decision.Dispatch? && Dispatchable(after, Ids(decision.segment.rows)) != {}) ||
             (decision.Finalize? && !decision.state.status.Active()))
  {
    RepresentativeMeaning(rows);
    LowestBlockingMeaning(rows);
    var after := Swept(rows, lookup, now);
    if Representative(rows).value.Blocking() {
      CascadeClears(rows, lookup, now);
    }
    SweptFacts(rows, lookup, now);
    if NextSegment(after).Some? {
      SegmentReady(after);
      var r := NextSegment(after).value.rows[0];
      assert r in NextSegment(after).value.rows;
      assert r in after && r.status.Pending?;
      assert Ready(r);
      assert r.step.id in Dispatchable(after, Ids(NextSegment(after).value.rows));
    } else {
      FinalizationSound(after);
    }
  }

  /** The swept rows keep what the dish needs: distinct named rows, nothing in flight, pending rows ready. */
  lemma {:induction false} SweptFacts(rows: seq<Row>, lookup: map<string, int>, now: int)
    requires Sweepable(rows, lookup)
    ensures var after := Swept(rows, lookup, now);
            DistinctIds(after) && AllNamed(after) && !HasInFlight(after) && NoPendingInLowestBlocking(after) &&
            forall r :: r in after && r.status.Pending? ==> Ready(r)
  {
    RepresentativeMeaning(rows);
    if Representative(rows).value.Blocking() {
      CascadedFacts(rows, lookup, now);
    } else {
      forall r | r in rows && r.status.Pending? ensures Ready(r) { assert RowOk(r); }
    }
  }

  lemma {:induction false} CascadedFacts(rows: seq<Row>, lookup: map<string, int>, now: int)
    requires Sweepable(rows, lookup) && Representative(rows).Some? && Representative(rows).value.Blocking()
    ensures var after := Swept(rows, lookup, now);
            DistinctIds(after) && AllNamed(after) && !HasInFlight(after) && NoPendingInLowestBlocking(after) &&
            forall r :: r in after && r.status.Pending? ==> Ready(r)
  {
    var after := Swept(rows, lookup, now);
    RepresentativeMeaning(rows);
    CascadeMoves(rows, lookup, now);
    CanceledFacts(rows, after);
    LowestBlockingAfterCascade(rows, lookup, now);
    forall r | r in after && r.status.Pending? ensures r in rows {
      var k :| 0 <= k < |after| && after[k] == r;
      assert rows[k] in rows;
    }
  }

  /** Rows of which some were canceled and the others left alone. */
  lemma {:induction false} CanceledFacts(rows: seq<Row>, after: seq<Row>)
    requires DistinctIds(rows) && AllNamed(rows) && !HasInFlight(rows) && (forall r :: r in rows ==> RowOk(r))
    requires |after| == |rows|
    requires forall k :: 0 <= k < |rows| ==>
               after[k].step == rows[k].step && (after[k] == rows[k] || after[k].status.Canceled?)
    ensures DistinctIds(after) && AllNamed(after) && !HasInFlight(after)
    ensures forall r :: r in after && r.status.Pending? ==> Ready(r)
  {
    forall r | r in after ensures ServiceNamed(r) && !r.status.InFlight() && (r.status.Pending? ==> Ready(r)) {
      var k :| 0 <= k < |after| && after[k] == r;
      assert rows[k] in rows;
      assert RowOk(rows[k]);
    }
    forall i, j | 0 <= i < j < |after| ensures after[i].step.id != after[j].step.id {
      assert rows[i].step.id != rows[j].step.id;
    }
  }

  /**
    Once Cook would finalize, sweeping changes no row: a dish finalized as `processing`
    (FinalizedAsProcessing) is finalized the same way by every later sweep.
  */
  lemma {:induction false} SweepRepeats(rows: seq<Row>, lookup: map<string, int>, now: int)
    requires Decide(rows).Finalize?
    ensures Swept(rows, lookup, now) == rows
    ensures rows != [] ==> Representative(rows).Some?
  {
    if rows != [] { RepresentativeMeaning(rows); }
    if Representative(rows).Some? && Representative(rows).value.Blocking() {
      forall r | r in rows ensures !IsTarget(r, Representative(rows).value) {}
    }
  }
}
