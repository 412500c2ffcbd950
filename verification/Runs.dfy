/** Concrete runs of the dish protocol, built step by step. */
module Runs {
  import opened Wrappers
  import opened Ordering
  import opened Json
  import opened Execution
  import opened Rows
  import opened Segments
  import opened Cook
  import opened Protocol
  import opened DishTheorems

  /** Row i is in a strictly later bucket than row f. */
  predicate Behind(rows: seq<Row>, f: nat, i: nat) {
    f < |rows| && i < |rows| && rows[f].BucketOf().Below(rows[i].BucketOf())
  }

  // ---- Steps of a concrete run --------------------------------------------------------

  const CALLABLE := Plugin(true, Healthy)

  /** A worker's report of an end: the outcome comes as the raw result. */
  function Ended(status: FinalStatus, outcome: Outcome): ProviderBody {
    Body(None, status, JNull, outcome, None, JNull)
  }

  function Success(outcome: Outcome): ProviderBody {
    Ended(Succeeded, outcome)
  }

  /** An action addressed to one row leaves the others alone. */
  lemma {:induction false} OneRow(s: System, a: Action, m: nat)
    requires m < |s.rows| && forall k :: 0 <= k < |s.rows| && k != m ==> Request(s, a, s.rows[k]).None?
    ensures RowsAfter(s, a) == s.rows[m := RowAfter(s, a, s.rows[m])]
  {}

  lemma {:induction false} Opened(s: System, c: nat)
    requires c !in s.calls
    ensures var t := Next(s, Snapshot(c));
            t.rows == s.rows && t.runners == s.runners && t.clock == s.clock &&
            t.calls == s.calls[c := OpenedCall(s.rows)]
  {}

  /** The row is running for the runner, and nobody holds it. */
  predicate AtRunner(row: Row) {
    row.status.Running? && row.startedAt.Some? && row.execId == Some(RunnerReceipt(row.step.id)) &&
    row.outcome == DispatchOutcome(row.step.id)
  }

  lemma {:induction false} Started(s: System, c: nat, m: nat)
    requires DistinctIds(s.rows) && m < |s.rows| && Ready(s.rows[m])
    requires c in s.calls && s.calls[c].todo != [] && s.calls[c].todo[0] == s.rows[m].step.id
    ensures var t := Next(s, Swap(c));
            t.rows == s.rows[m := MarkedReady(s.rows[m], s.clock).value] && AtRunner(t.rows[m]) &&
            t.rows[m].claimedAt.None? &&
            t.runners == s.runners && t.calls.Keys == s.calls.Keys && t.calls[c].todo == s.calls[c].todo[1..]
  {
    OneRow(s, Swap(c), m);
  }

  lemma {:induction false} FindIs(rows: seq<Row>, m: nat)
    requires DistinctIds(rows) && m < |rows|
    ensures Find(rows, rows[m].step.id) == Some(rows[m])
  {
    if m > 0 {
      assert rows[0].step.id != rows[m].step.id;
      FindIs(rows[1..], m - 1);
    }
  }

  /** The runner holds the row as it was when it claimed it. */
  predicate Holding(s: System, w: nat, row: Row) {
    w in s.runners && s.runners[w].step == row.step && s.runners[w].outcome == DispatchOutcome(row.step.id) &&
    s.runners[w].execId == Some(RunnerReceipt(row.step.id))
  }

  lemma {:induction false} ClaimedBy(s: System, w: nat, who: string, m: nat)
    requires DistinctIds(s.rows) && m < |s.rows| && AtRunner(s.rows[m]) && LeaseFree(s.rows[m], s.clock, s.lockTimeout)
    ensures var t := Next(s, ExecutionClaim(w, s.rows[m].step.id, who, Some(CALLABLE)));
            var row := s.rows[m].(claimedAt := Some(s.clock), claimedBy := Some(who), updatedAt := s.clock);
            t.rows == s.rows[m := row] && AtRunner(row) && t.runners == s.runners[w := row] && Holding(t, w, row) &&
            t.calls == s.calls && t.clock == s.clock && t.lockTimeout == s.lockTimeout
  {
    RunnerReceiptRecognised(s.rows[m].step.id);
    FindIs(s.rows, m);
    OneRow(s, ExecutionClaim(w, s.rows[m].step.id, who, Some(CALLABLE)), m);
  }

  /** With no context updates anywhere the runner reports the adapter's result as it is. */
  lemma {:induction false} PlainReport(seen: Row, status: FinalStatus, outcome: Outcome, now: int)
    requires seen.outcome == DispatchOutcome(seen.step.id)
    ensures var p := RunnerPayload(seen, Ended(status, outcome), now);
            p.status == Some(status) && p.outcome.Set? && p.outcome.value == outcome && p.execId == Set(seen.execId)
  {
    assert CONTEXT_KEY !in seen.outcome.fields && "context_updates" !in seen.outcome.fields by {
      assert |CONTEXT_KEY| == 16 && |"context_updates"| == 15;
      assert |"success"| == 7 && |"status"| == 6 && |"receipt_owner"| == 13 && |"dish_ingredient_id"| == 18;
    }
    assert StoredUpdates(seen.outcome).JNull?;
    assert MergedUpdates(seen, Ended(status, outcome)) == map[];
  }

  /** A worker's report is judged on its outcome; a success also after an earlier success. */
  lemma {:induction false} Answered(s: System, w: nat, status: FinalStatus, outcome: Outcome, m: nat)
    requires DistinctIds(s.rows) && m < |s.rows| && Holding(s, w, s.rows[m])
    requires s.rows[m].status.Running? || (s.rows[m].status.Succeeded? && status == Succeeded)
    requires s.rows[m].execId == Some(RunnerReceipt(s.rows[m].step.id))
    ensures var t := Next(s, RunnerAnswer(w, Ended(status, outcome)));
            var row := RowAfter(s, RunnerAnswer(w, Ended(status, outcome)), s.rows[m]);
            t.rows == s.rows[m := row] && row.step == s.rows[m].step && row.execId == s.rows[m].execId &&
            row.startedAt == s.rows[m].startedAt &&
            row.status == VerdictStatus(status, row.step.expected, outcome) &&
            t.runners == s.runners && t.calls == s.calls
  {
    RunnerReceiptRecognised(s.rows[m].step.id);
    PlainReport(s.runners[w], status, outcome, s.clock);
    OneRow(s, RunnerAnswer(w, Ended(status, outcome)), m);
  }

  // ---- A dish driven up to the row behind ---------------------------------------------

  /** Between two steps: every row has succeeded or is ready, and call ids from c on are new. */
  ghost predicate Calm(s: System, c: nat) {
    Inv(s) && (forall k :: k in s.calls ==> k < c) &&
    forall k :: 0 <= k < |s.rows| ==> s.rows[k].status.Succeeded? || Ready(s.rows[k])
  }

  /** Row f succeeded, and a second worker that claimed it has not answered yet. */
  predicate Unanswered(s: System, f: nat) {
    f < |s.rows| && s.rows[f].status.Succeeded? && s.rows[f].execId == Some(RunnerReceipt(s.rows[f].step.id)) &&
    Holding(s, 1, s.rows[f])
  }

  /** A fresh call in a dish with work left and nothing failed starts with the least open row. */
  lemma {:induction false} HeadRow(rows: seq<Row>, i: nat) returns (m: nat)
    requires DistinctIds(rows) && AllNamed(rows) && i < |rows| && rows[i].status.Pending?
    requires forall k :: 0 <= k < |rows| ==> rows[k].status.Succeeded? || rows[k].status.Pending?
    ensures m < |rows| && rows[m].status.Pending? && LeastOpen(rows, rows[m])
    ensures OpenedCall(rows).todo != [] && OpenedCall(rows).todo[0] == rows[m].step.id
  {
    assert rows[i] in rows;
    FirstIsLeastOpen(rows);
    var g := FirstOpen(SortBy(rows, RowKey)).value;
    m :| 0 <= m < |rows| && rows[m] == g;
    HeadIsLeast(rows, g);
  }

  lemma {:induction false} BelowLeastOpen(rows: seq<Row>, m: nat, k: nat)
    requires m < |rows| && k < |rows| && LeastOpen(rows, rows[m]) && rows[k].BucketOf().Below(rows[m].BucketOf())
    ensures rows[k].Done()
  {
    assert rows[k] in rows;
    BucketOrdersKeys(rows[k], rows[m]);
    LessTotal(RowKey(rows[k]), RowKey(rows[m]));
  }

  lemma {:induction false} HeadIsLeast(rows: seq<Row>, g: Row)
    requires DistinctIds(rows) && AllNamed(rows) && LeastOpen(rows, g) && g.status.Pending?
    ensures OpenedCall(rows).todo != [] && OpenedCall(rows).todo[0] == g.step.id
  {
    SegmentMeaning(rows, g);
    SegmentReady(rows);
    FirstIsLeast(NextSegment(rows).value.rows, g);
  }

  lemma {:induction false} FirstIsLeast(members: seq<Row>, g: Row)
    requires Sorted(members, RowKey) && g in members
    requires forall r :: r in members && r != g ==> Less(RowKey(g), RowKey(r))
    ensures members[0] == g
  {
    var k :| 0 <= k < |members| && members[k] == g;
    assert members[0] in members;
    assert k > 0 ==> !Less(RowKey(members[k]), RowKey(members[0]));
  }

  /** One worker claims a started row and reports a success. */
  lemma {:induction false} Succeed(s: System, m: nat) returns (run: seq<Action>, t: System)
    requires DistinctIds(s.rows) && m < |s.rows| && AtRunner(s.rows[m]) && LeaseFree(s.rows[m], s.clock, s.lockTimeout)
    ensures t == Exec(s, run) && |t.rows| == |s.rows| && t.rows == s.rows[m := t.rows[m]] && t.calls == s.calls
    ensures t.rows[m].step == s.rows[m].step && t.rows[m].status.Succeeded?
    ensures t.rows[m].execId == Some(RunnerReceipt(s.rows[m].step.id))
    ensures t.runners.Keys == s.runners.Keys + {0}
    ensures forall w :: w in s.runners && w != 0 ==> t.runners[w] == s.runners[w]
  {
    var claim, answer := ExecutionClaim(0, s.rows[m].step.id, "first", Some(CALLABLE)), RunnerAnswer(0, Success(JNull));
    ClaimedBy(s, 0, "first", m);
    var s1 := Next(s, claim);
    Answered(s1, 0, Succeeded, JNull, m);
    run, t := [claim, answer], Next(s1, answer);
    ExecStep(s, claim, [answer]);
    ExecStep(s1, answer, []);
  }

  /** A second worker claims it before, and lets its lease run out. */
  lemma {:induction false} ClaimAndStall(s: System, m: nat) returns (run: seq<Action>, t: System)
    requires DistinctIds(s.rows) && m < |s.rows| && AtRunner(s.rows[m]) && s.rows[m].claimedAt.None?
    ensures t == Exec(s, run) && t.calls == s.calls && |t.rows| == |s.rows| && t.rows == s.rows[m := t.rows[m]]
    ensures t.rows[m].step == s.rows[m].step && AtRunner(t.rows[m]) && LeaseFree(t.rows[m], t.clock, t.lockTimeout)
    ensures t.runners.Keys == s.runners.Keys + {1} && Holding(t, 1, t.rows[m])
  {
    var claim, wait := ExecutionClaim(1, s.rows[m].step.id, "second", Some(CALLABLE)),
        Tick((s.lockTimeout + 1) * SECOND);
    ClaimedBy(s, 1, "second", m);
    var s1 := Next(s, claim);
    run, t := [claim, wait], Next(s1, wait);
    assert t.rows == s1.rows;
    ExecStep(s, claim, [wait]);
    ExecStep(s1, wait, []);
  }

  /** The head row of call c runs and succeeds; with `stall` a second worker keeps its claim on it. */
  lemma {:induction false} RunHead(s: System, c: nat, m: nat, stall: bool) returns (run: seq<Action>, t: System)
    requires DistinctIds(s.rows) && m < |s.rows| && Ready(s.rows[m])
    requires c in s.calls && s.calls[c].todo != [] && s.calls[c].todo[0] == s.rows[m].step.id
    ensures t == Exec(s, run) && |t.rows| == |s.rows| && t.rows == s.rows[m := t.rows[m]] &&
            t.calls.Keys == s.calls.Keys
    ensures t.rows[m].step == s.rows[m].step && t.rows[m].status.Succeeded?
    ensures stall ==> Unanswered(t, m)
    ensures !stall ==> forall w :: w in s.runners && w != 0 ==> w in t.runners && t.runners[w] == s.runners[w]
    ensures t.rows[m].execId == Some(RunnerReceipt(s.rows[m].step.id))
  {
    Started(s, c, m);
    var s1 := Next(s, Swap(c));
    SameIds(s.rows, m, s1.rows[m]);
    var pause, s2 := [], s1;
    if stall {
      pause, s2 := ClaimAndStall(s1, m);
      SameIds(s1.rows, m, s2.rows[m]);
    }
    var finish;
    finish, t := Succeed(s2, m);
    run := [Swap(c)] + (pause + finish);
    ExecStep(s, Swap(c), pause + finish);
    ExecJoin(s1, pause, finish);
  }

  lemma {:induction false} SameIds(rows: seq<Row>, m: nat, row: Row)
    requires DistinctIds(rows) && m < |rows| && row.step == rows[m].step
    ensures DistinctIds(rows[m := row])
  {}

  lemma {:induction false} CalmAgain(s: System, t: System, c: nat, m: nat)
    requires Calm(s, c) && Inv(t) && m < |s.rows| && |t.rows| == |s.rows| && t.rows == s.rows[m := t.rows[m]]
    requires t.rows[m].status.Succeeded? && t.calls.Keys == s.calls.Keys + {c}
    ensures Calm(t, c + 1)
  {
    forall k | 0 <= k < |t.rows| && k != m ensures t.rows[k] == s.rows[k] {}
  }

  /** A fresh call runs its head row. */
  lemma {:induction false} RunFresh(s: System, c: nat, m: nat, stall: bool) returns (run: seq<Action>, t: System)
    requires DistinctIds(s.rows) && c !in s.calls && m < |s.rows| && Ready(s.rows[m])
    requires OpenedCall(s.rows).todo != [] && OpenedCall(s.rows).todo[0] == s.rows[m].step.id
    ensures t == Exec(s, run) && |t.rows| == |s.rows| && t.rows == s.rows[m := t.rows[m]]
    ensures t.calls.Keys == s.calls.Keys + {c} && t.rows[m].step == s.rows[m].step && t.rows[m].status.Succeeded?
    ensures stall ==> Unanswered(t, m)
    ensures !stall ==> forall w :: w in s.runners && w != 0 ==> w in t.runners && t.runners[w] == s.runners[w]
  {
    Opened(s, c);
    var rest;
    rest, t := RunHead(Next(s, Snapshot(c)), c, m, stall);
    run := [Snapshot(c)] + rest;
    ExecStep(s, Snapshot(c), rest);
  }

  /** One more row of the dish succeeds. */
  lemma {:induction false} StepForward(s: System, c: nat, m: nat, f: nat) returns (run: seq<Action>, t: System)
    requires Calm(s, c) && f < |s.rows| && m < |s.rows| && s.rows[m].status.Pending?
    requires OpenedCall(s.rows).todo != [] && OpenedCall(s.rows).todo[0] == s.rows[m].step.id
    requires s.rows[f].status.Pending? || Unanswered(s, f)
    ensures t == Exec(s, run) && Calm(t, c + 1) && |t.rows| == |s.rows| && PendingCount(t.rows) < PendingCount(s.rows)
    ensures t.rows[f].status.Pending? || Unanswered(t, f)
    ensures t.rows == s.rows[m := t.rows[m]] && t.rows[m].step == s.rows[m].step
  {
    run, t := RunFresh(s, c, m, m == f);
    InvOnRuns(s, run);
    OneFewerPending(s.rows, m, t.rows[m]);
    CalmAgain(s, t, c, m);
  }

  /** A fresh call starts its head row. */
  lemma {:induction false} StartFresh(s: System, c: nat, m: nat) returns (run: seq<Action>, t: System)
    requires DistinctIds(s.rows) && c !in s.calls && m < |s.rows| && Ready(s.rows[m])
    requires OpenedCall(s.rows).todo != [] && OpenedCall(s.rows).todo[0] == s.rows[m].step.id
    ensures t == Exec(s, run) && t.runners == s.runners
    ensures t.rows == s.rows[m := MarkedReady(s.rows[m], s.clock).value]
  {
    Opened(s, c);
    var s1 := Next(s, Snapshot(c));
    Started(s1, c, m);
    run, t := [Snapshot(c), Swap(c)], Next(s1, Swap(c));
    ExecStep(s, Snapshot(c), [Swap(c)]);
    ExecStep(s1, Swap(c), []);
  }

  lemma {:induction false} OnwardOnce(rows: seq<Row>, m: nat, row: Row)
    requires m < |rows| && row.step == rows[m].step && !rows[m].status.Terminal() && rows[m].startedAt.None?
    ensures Onward(rows, rows[m := row])
  {}

  lemma {:induction false} OnwardTwice(a: seq<Row>, b: seq<Row>, c: seq<Row>)
    requires Onward(a, b) && Onward(b, c)
    ensures Onward(a, c)
  {}
}
