/** What a finalizing decision closes: exactly which dishes can go on after it. */
module Finalization {
  import opened Wrappers
  import opened Ordering
  import opened Json
  import opened Execution
  import opened Rows
  import opened Segments
  import opened Cook
  import opened Protocol
  import opened DishTheorems
  import opened Runs
  import Sweep = Timer

  /** Row f comes before row p in their bucket, and its failure is not tolerated. */
  predicate Splits(rows: seq<Row>, f: nat, p: nat) {
    f < |rows| && p < |rows| && rows[f].BucketOf() == rows[p].BucketOf() &&
    !rows[f].step.onFailure.Continue? && Less(RowKey(rows[f]), RowKey(rows[p]))
  }

  /** Once a call has decided to finalize, no continuation starts a row. */
  ghost predicate Sealed(s: System) {
    forall c, more :: c in s.calls && s.calls[c].decision.Finalize? ==> StartsKept(s, more)
  }

  predicate StartsKept(s: System, more: seq<Action>) {
    |Exec(s, more).rows| == |s.rows| &&
    forall k :: 0 <= k < |s.rows| ==> Exec(s, more).rows[k].startedAt == s.rows[k].startedAt
  }

  // ---- Where no row splits its bucket -----------------------------------------------------

  /** A finalizing decision leaves a pending row in the lowest blocking bucket only behind a failed row of it. */
  lemma {:induction false} PendingSplits(rows: seq<Row>, p: Row) returns (g: Row)
    requires DistinctIds(rows) && AllNamed(rows) && Decide(rows).Finalize?
    requires p in rows && p.status.Pending? && LowestBlocking(rows) == Some(p.BucketOf())
    ensures g in rows && g.Blocking() && g.BucketOf() == p.BucketOf() && Less(RowKey(g), RowKey(p))
  {
    LowestBlockingMeaning(rows);
    FirstIsLeastOpen(rows);
    g := FirstOpen(SortBy(rows, RowKey)).value;
    SegmentMeaning(rows, g);
    assert g.Blocking();
    if p.BucketOf().Below(g.BucketOf()) {
      BucketOrdersKeys(p, g);
      LessTotal(RowKey(g), RowKey(p));
    }
  }

  lemma {:induction false} PendingSplitsAt(rows: seq<Row>, snapshot: seq<Row>, p: Row) returns (i: nat, j: nat)
    requires SnapshotBehind(snapshot, rows) && DistinctIds(snapshot) && AllNamed(snapshot)
    requires Decide(snapshot).Finalize?
    requires p in snapshot && p.status.Pending? && LowestBlocking(snapshot) == Some(p.BucketOf())
    ensures Splits(rows, i, j)
  {
    var g := PendingSplits(snapshot, p);
    i :| 0 <= i < |snapshot| && snapshot[i] == g;
    j :| 0 <= j < |snapshot| && snapshot[j] == p;
  }

  lemma {:induction false} UnsplitSeals(rows: seq<Row>, snapshot: seq<Row>)
    requires DistinctIds(rows) && AllNamed(rows) && SnapshotBehind(snapshot, rows) && Decide(snapshot).Finalize?
    requires forall f: nat, p: nat :: !Splits(rows, f, p)
    ensures NoPendingInLowestBlocking(snapshot)
  {
    SameSteps(rows, snapshot);
    forall p | p in snapshot && p.status.Pending? ensures LowestBlocking(snapshot) != Some(p.BucketOf()) {
      if LowestBlocking(snapshot) == Some(p.BucketOf()) {
        var _, _ := PendingSplitsAt(rows, snapshot, p);
      }
    }
  }

  lemma {:induction false} SameSteps(rows: seq<Row>, snapshot: seq<Row>)
    requires DistinctIds(rows) && AllNamed(rows) && SnapshotBehind(snapshot, rows)
    ensures DistinctIds(snapshot) && AllNamed(snapshot)
  {
    forall r | r in snapshot ensures ServiceNamed(r) {
      var k :| 0 <= k < |snapshot| && snapshot[k] == r;
      assert rows[k] in rows;
    }
  }

  lemma {:induction false} SplitsOnward(rows: seq<Row>, after: seq<Row>, f: nat, p: nat)
    requires Onward(rows, after)
    ensures Splits(after, f, p) <==> Splits(rows, f, p)
  {}

  lemma {:induction false} UnsplitIsSealed(s: System, run: seq<Action>)
    requires Inv(s) && forall f: nat, p: nat :: !Splits(s.rows, f, p)
    ensures Sealed(Exec(s, run))
  {
    var t := Exec(s, run);
    InvOnRuns(s, run);
    forall f: nat, p: nat ensures !Splits(t.rows, f, p) { SplitsOnward(s.rows, t.rows, f, p); }
    forall c, more | c in t.calls && t.calls[c].decision.Finalize? ensures StartsKept(t, more) {
      assert CallOk(t.calls[c], t.rows);
      UnsplitSeals(t.rows, t.calls[c].snapshot);
      FinalizationNeverStale(t, c, more);
    }
  }

  // ---- Where one does ---------------------------------------------------------------------

  /** The dish works its way up until row f is the next to start, with p still pending behind it. */
  lemma {:induction false} DriveTo(s: System, c: nat, f: nat, p: nat) returns (run: seq<Action>, t: System, d: nat)
    requires Calm(s, c) && Splits(s.rows, f, p) && s.rows[f].status.Pending? && s.rows[p].status.Pending?
    ensures t == Exec(s, run) && Calm(t, d) && Onward(s.rows, t.rows)
    ensures t.rows[f].status.Pending? && t.rows[p].status.Pending? && LeastOpen(t.rows, t.rows[f])
    decreases PendingCount(s.rows)
  {
    var m := HeadRow(s.rows, f);
    if m == f {
      run, t, d := [], s, c;
    } else {
      NotLeastBehind(s.rows, m, f, p);
      var first, s1 := StepForward(s, c, m, f);
      var rest;
      rest, t, d := DriveTo(s1, c + 1, f, p);
      run := first + rest;
      ExecJoin(s, first, rest);
      OnwardOnce(s.rows, m, s1.rows[m]);
      OnwardTwice(s.rows, s1.rows, t.rows);
    }
  }

  lemma {:induction false} NotLeastBehind(rows: seq<Row>, m: nat, f: nat, p: nat)
    requires m < |rows| && LeastOpen(rows, rows[m]) && Splits(rows, f, p) && rows[f].status.Pending? && m != f
    requires DistinctIds(rows)
    ensures m != p
  {
    assert rows[f] in rows;
    LessTotal(RowKey(rows[f]), RowKey(rows[p]));
  }

  /** A call opened then means to start f first and another row of the bucket next. */
  lemma {:induction false} SecondMeant(rows: seq<Row>, f: nat, p: nat) returns (q: nat)
    requires DistinctIds(rows) && AllNamed(rows) && Splits(rows, f, p)
    requires rows[f].status.Pending? && rows[p].status.Pending? && LeastOpen(rows, rows[f])
    ensures var todo := OpenedCall(rows).todo;
            |todo| >= 2 && todo[0] == rows[f].step.id && q < |rows| && q != f && todo[1] == rows[q].step.id
    ensures rows[q].status.Pending? && rows[q].BucketOf() == rows[f].BucketOf()
  {
    HeadIsLeast(rows, rows[f]);
    SegmentMeaning(rows, rows[f]);
    SegmentReady(rows);
    var members := NextSegment(rows).value.rows;
    assert rows[p] in rows && rows[p] in members;
    LessTotal(RowKey(rows[f]), RowKey(rows[p]));
    HeadOnce(rows, members, f);
    assert members[1] in members;
    q :| 0 <= q < |rows| && rows[q] == members[1];
  }

  lemma {:induction false} HeadOnce(rows: seq<Row>, members: seq<Row>, f: nat)
    requires DistinctIds(rows) && f < |rows| && members != [] && members[0].step.id == rows[f].step.id
    requires multiset(members) == multiset(PendingIn(rows, rows[f].BucketOf()))
    ensures |members| >= 2 ==> members[1].step.id != rows[f].step.id
    ensures |members| == 1 ==> forall r :: r in PendingIn(rows, rows[f].BucketOf()) ==> r == members[0]
  {
    PendingInCount(rows, rows[f].BucketOf());
    SameElements(members, PendingIn(rows, rows[f].BucketOf()));
    if |members| >= 2 && members[1].step.id == rows[f].step.id {
      assert members[0] in members && members[1] in members;
      PendingInMembers(rows, rows[f].BucketOf());
      OncePerRow(rows, members[0]);
      SingleCountsDistinct(members, 0, 1);
    }
  }

  /** A worker claims a started row and reports that it failed, which it then is under any expectation. */
  lemma {:induction false} ClaimAndFail(s: System, m: nat) returns (run: seq<Action>, t: System)
    requires DistinctIds(s.rows) && m < |s.rows| && AtRunner(s.rows[m]) && s.rows[m].claimedAt.None?
    ensures t == Exec(s, run) && |t.rows| == |s.rows| && t.rows == s.rows[m := t.rows[m]] && t.calls == s.calls
    ensures t.rows[m].step == s.rows[m].step && t.rows[m].status.Failed?
  {
    var claim := ExecutionClaim(0, s.rows[m].step.id, "worker", Some(CALLABLE));
    var answer := RunnerAnswer(0, Ended(Failed, JNull));
    ClaimedBy(s, 0, "worker", m);
    var s1 := Next(s, claim);
    SameIds(s.rows, m, s1.rows[m]);
    Answered(s1, 0, Failed, JNull, m);
    run, t := [claim, answer], Next(s1, answer);
    ExecStep(s, claim, [answer]);
    ExecStep(s1, answer, []);
  }

  /** Row f, the first of a fresh call, starts and fails. */
  lemma {:induction false} FailHead(s: System, d: nat, f: nat) returns (run: seq<Action>, t: System)
    requires DistinctIds(s.rows) && d !in s.calls && f < |s.rows| && Ready(s.rows[f])
    requires OpenedCall(s.rows).todo != [] && OpenedCall(s.rows).todo[0] == s.rows[f].step.id
    ensures t == Exec(s, run) && |t.rows| == |s.rows| && t.rows == s.rows[f := t.rows[f]]
    ensures t.rows[f].step == s.rows[f].step && t.rows[f].status.Failed?
    ensures t.calls.Keys == s.calls.Keys + {d} && t.calls[d].todo == OpenedCall(s.rows).todo[1..]
  {
    Opened(s, d);
    var s1 := Next(s, Snapshot(d));
    Started(s1, d, f);
    var s2 := Next(s1, Swap(d));
    SameIds(s1.rows, f, s2.rows[f]);
    var rest;
    rest, t := ClaimAndFail(s2, f);
    run := [Snapshot(d), Swap(d)] + rest;
    ExecTwoSteps(s, Snapshot(d), Swap(d), rest);
  }

  lemma {:induction false} ExecTwoSteps(s: System, a: Action, b: Action, rest: seq<Action>)
    ensures Exec(s, [a, b] + rest) == Exec(Next(Next(s, a), b), rest)
  {
    assert [a, b] + rest == [a] + ([b] + rest);
    ExecStep(s, a, [b] + rest);
    ExecStep(Next(s, a), b, rest);
  }

  /** The cancel request of the Timer's cascade, as an action. */
  function Cancel(candidate: Row, blocker: Row): Action {
    TimerReport(candidate.step.id, Sweep.StatusView(candidate), Canceled, Sweep.CancelOutcome(blocker),
                Some(Sweep.BlockingReason(blocker)), true)
  }

  lemma {:induction false} CanceledOne(s: System, k: nat, blocker: Row)
    requires DistinctIds(s.rows) && k < |s.rows| && s.rows[k].status.Pending? && s.rows[k].execId.None?
    ensures var t := Next(s, Cancel(s.rows[k], blocker));
            var row := RowAfter(s, Cancel(s.rows[k], blocker), s.rows[k]);
            t.rows == s.rows[k := row] && row.step == s.rows[k].step && row.status.Canceled? && t.calls == s.calls
  {
    OneRow(s, Cancel(s.rows[k], blocker), k);
  }

  /** Of the rows behind f the pending ones are canceled, and nothing else has changed. */
  predicate CanceledBehind(before: seq<Row>, after: seq<Row>, f: nat) {
    |after| == |before| && f < |before| &&
    forall k :: 0 <= k < |before| ==>
      after[k].step == before[k].step &&
      (after[k] == before[k] || (Behind(before, f, k) && before[k].status.Pending? && after[k].status.Canceled?))
  }

  lemma {:induction false} CancelOneBehind(s: System, f: nat, k: nat) returns (t: System)
    requires Inv(s) && Behind(s.rows, f, k) && s.rows[k].status.Pending?
    ensures t == Next(s, Cancel(s.rows[k], s.rows[f])) && Inv(t) && t.calls == s.calls
    ensures CanceledBehind(s.rows, t.rows, f) && PendingCount(t.rows) < PendingCount(s.rows)
  {
    assert RowOk(s.rows[k]);
    PendingUnowned(s.rows[k]);
    CanceledOne(s, k, s.rows[f]);
    t := Next(s, Cancel(s.rows[k], s.rows[f]));
    InvKept(s, Cancel(s.rows[k], s.rows[f]));
    OneFewerPending(s.rows, k, t.rows[k]);
  }

  lemma {:induction false} CancelBehind(s: System, f: nat) returns (run: seq<Action>, t: System)
    requires Inv(s) && f < |s.rows|
    ensures t == Exec(s, run) && Inv(t) && t.calls == s.calls && CanceledBehind(s.rows, t.rows, f)
    ensures forall k: nat :: Behind(t.rows, f, k) ==> !t.rows[k].status.Pending?
    decreases PendingCount(s.rows)
  {
    if k: nat :| Behind(s.rows, f, k) && s.rows[k].status.Pending? {
      var cancel := Cancel(s.rows[k], s.rows[f]);
      var s1 := CancelOneBehind(s, f, k);
      var rest;
      rest, t := CancelBehind(s1, f);
      run := [cancel] + rest;
      ExecStep(s, cancel, rest);
    } else {
      run, t := [], s;
    }
  }

  lemma {:induction false} PendingUnowned(row: Row)
    requires RowOk(row) && row.status.Pending?
    ensures row.startedAt.None? && row.execId.None?
  {}

  /** With the least open row a blocking failure, nothing running and nothing pending behind it, a call finalizes. */
  lemma {:induction false} FinalizesAt(rows: seq<Row>, f: nat)
    requires DistinctIds(rows) && f < |rows| && rows[f].Blocking() && LeastOpen(rows, rows[f]) && !HasInFlight(rows)
    requires forall k: nat :: Behind(rows, f, k) ==> !rows[k].status.Pending?
    ensures Decide(rows).Finalize?
  {
    SegmentMeaning(rows, rows[f]);
    LowestBlockingMeaning(rows);
    var b := LowestBlocking(rows).value;
    var r :| r in rows && r.Blocking() && r.BucketOf() == b;
    if b.Below(rows[f].BucketOf()) {
      BucketOrdersKeys(r, rows[f]);
      LessTotal(RowKey(rows[f]), RowKey(r));
    }
    forall p | p in rows && p.status.Pending? ensures !b.Below(p.BucketOf()) {
      var k :| 0 <= k < |rows| && rows[k] == p;
      assert !Behind(rows, f, k);
    }
  }

  /** Failing and canceling leave f the least open row. */
  lemma {:induction false} StillLeast(before: seq<Row>, failed: seq<Row>, after: seq<Row>, f: nat)
    requires f < |before| && LeastOpen(before, before[f]) && |failed| == |before| && failed == before[f := failed[f]]
    requires failed[f].step == before[f].step && failed[f].Blocking() && CanceledBehind(failed, after, f)
    requires DistinctIds(before)
    ensures LeastOpen(after, after[f]) && after[f] == failed[f]
  {
    assert !Behind(failed, f, f);
    forall r | r in after && !r.Done() && r != after[f] ensures Less(RowKey(after[f]), RowKey(r)) {
      var k :| 0 <= k < |after| && after[k] == r;
      assert before[k] in before && before[k].step.id != before[f].step.id;
      if Behind(failed, f, k) { BucketOrdersKeys(after[f], r); }
    }
  }

  /** Call d has just decided to finalize, and call c is about to start row q. */
  ghost predicate Overtaken(t: System, c: nat, d: nat, q: nat) {
    c in t.calls && d in t.calls && q < |t.rows| && t.calls[d].snapshot == t.rows &&
    t.calls[d].decision == Decide(t.rows) && t.calls[d].decision.Finalize? &&
    t.rows[q].startedAt.None? && |Next(t, Swap(c)).rows| == |t.rows| && Next(t, Swap(c)).rows[q].startedAt.Some?
  }

  lemma {:induction false} SecondCallOvertaken(s: System, c: nat, q: nat)
    requires DistinctIds(s.rows) && Decide(s.rows).Finalize? && c in s.calls && c + 1 !in s.calls
    requires q < |s.rows| && Ready(s.rows[q]) && s.calls[c].todo != [] && s.calls[c].todo[0] == s.rows[q].step.id
    ensures Overtaken(Next(s, Snapshot(c + 1)), c, c + 1, q) && Next(s, Snapshot(c + 1)).rows == s.rows
  {
    Opened(s, c + 1);
    Started(Next(s, Snapshot(c + 1)), c, q);
  }

  /** From a dish that is about to start f: f fails, what is behind is canceled. */
  lemma {:induction false} FailAndCancel(s: System, c: nat, f: nat, p: nat)
    returns (run: seq<Action>, t: System, q: nat)
    requires Calm(s, c) && Splits(s.rows, f, p) && s.rows[f].status.Pending? && s.rows[p].status.Pending?
    requires LeastOpen(s.rows, s.rows[f])
    ensures t == Exec(s, run) && |t.rows| == |s.rows| && DistinctIds(t.rows) && Decide(t.rows).Finalize?
    ensures t.rows[f].Blocking() && t.rows[p] == s.rows[p] && t.calls.Keys == s.calls.Keys + {c}
    ensures q < |t.rows| && Ready(t.rows[q]) && t.calls[c].todo != [] && t.calls[c].todo[0] == t.rows[q].step.id
  {
    q := SecondMeant(s.rows, f, p);
    var run1, s1 := FailHead(s, c, f);
    InvOnRuns(s, run1);
    var run2;
    run2, t := CancelBehind(s1, f);
    ReadyToFinalize(s, s1, t, c, f);
    LessTotal(RowKey(s.rows[f]), RowKey(s.rows[p]));
    assert !Behind(s1.rows, f, p) && !Behind(s1.rows, f, q) && !Behind(s1.rows, f, f);
    run := run1 + run2;
    ExecJoin(s, run1, run2);
  }

  /**
    The dish goes on after a finalizing decision: row f fails while its call still means to start
    another row of the bucket, the Timer cancels what is behind, a second call decides to finalize,
    and then the first call starts that row.
  */
  lemma {:induction false} FinalizedWhileDispatching(lockTimeout: nat, clock: int, rows: seq<Row>, f: nat, p: nat)
    returns (run: seq<Action>, c: nat, d: nat, q: nat)
    requires Seeded(rows) && Splits(rows, f, p)
    ensures var t := Exec(Start(lockTimeout, clock, rows), run);
            |t.rows| == |rows| && t.rows[f].Blocking() && t.rows[p].status.Pending? && Overtaken(t, c, d, q)
  {
    var s := Start(lockTimeout, clock, rows);
    StartCalm(lockTimeout, clock, rows);
    var run1, s1;
    run1, s1, c := DriveTo(s, 0, f, p);
    SplitsOnward(rows, s1.rows, f, p);
    var run2, s2;
    run2, s2, q := FailAndCancel(s1, c, f, p);
    d := c + 1;
    SecondCallOvertaken(s2, c, q);
    run := run1 + (run2 + [Snapshot(d)]);
    ExecThreeParts(s, run1, run2, Snapshot(d));
  }

  lemma {:induction false} StartCalm(lockTimeout: nat, clock: int, rows: seq<Row>)
    requires Seeded(rows)
    ensures Calm(Start(lockTimeout, clock, rows), 0)
    ensures forall k :: 0 <= k < |rows| ==> rows[k].status.Pending?
  {
    StartOk(lockTimeout, clock, rows);
    forall k | 0 <= k < |rows| ensures Ready(rows[k]) { assert rows[k] in rows; }
  }

  lemma {:induction false} ExecThreeParts(s: System, first: seq<Action>, second: seq<Action>, last: Action)
    ensures Exec(s, first + (second + [last])) == Next(Exec(Exec(s, first), second), last)
  {
    ExecJoin(s, first, second + [last]);
    ExecJoin(Exec(s, first), second, [last]);
    ExecStep(Exec(Exec(s, first), second), last, []);
  }

  lemma {:induction false} OvertakenIsOpen(t: System, c: nat, d: nat, q: nat)
    requires Overtaken(t, c, d, q)
    ensures !Sealed(t)
  {
    ExecStep(t, Swap(c), []);
    assert [Swap(c)] + [] == [Swap(c)];
    assert !StartsKept(t, [Swap(c)]);
  }

  lemma {:induction false} ReadyToFinalize(s1: System, s2: System, s3: System, c: nat, f: nat)
    requires Calm(s1, c) && f < |s1.rows| && LeastOpen(s1.rows, s1.rows[f]) && s1.rows[f].status.Pending?
    requires |s2.rows| == |s1.rows| && s2.rows == s1.rows[f := s2.rows[f]] && s2.rows[f].step == s1.rows[f].step
    requires s2.rows[f].status.Failed? && !s1.rows[f].step.onFailure.Continue?
    requires CanceledBehind(s2.rows, s3.rows, f) && DistinctIds(s3.rows)
    requires forall k: nat :: Behind(s3.rows, f, k) ==> !s3.rows[k].status.Pending?
    ensures Decide(s3.rows).Finalize?
  {
    StillLeast(s1.rows, s2.rows, s3.rows, f);
    forall r | r in s3.rows ensures !r.status.InFlight() {
      var k :| 0 <= k < |s3.rows| && s3.rows[k] == r;
    }
    FinalizesAt(s3.rows, f);
  }

  // ---- Exactly ------------------------------------------------------------------------------

  /**
    Exactly which dishes a finalizing decision closes, read off the rows before the dish is cooked:
    in every run nothing is started after any call has decided to finalize, if and only if no bucket
    holds a row whose failure is not tolerated ahead of another row.
  */
  lemma {:induction false} FinalizationSealsExactly(lockTimeout: nat, clock: int, rows: seq<Row>)
    requires Seeded(rows)
    ensures (forall run :: Sealed(Exec(Start(lockTimeout, clock, rows), run))) <==>
            (forall f: nat, p: nat :: !Splits(rows, f, p))
  {
    var s := Start(lockTimeout, clock, rows);
    if f: nat, p: nat :| Splits(rows, f, p) {
      var run, c, d, q := FinalizedWhileDispatching(lockTimeout, clock, rows, f, p);
      OvertakenIsOpen(Exec(s, run), c, d, q);
    } else {
      StartOk(lockTimeout, clock, rows);
      forall run ensures Sealed(Exec(s, run)) { UnsplitIsSealed(s, run); }
    }
  }

  /** Where the pending row comes first in id order, that dish is finalized as `processing`. */
  lemma {:induction false} FinalizedAsProcessingFromSeeded(lockTimeout: nat, clock: int, p: Row, f: Row)
    returns (run: seq<Action>, d: nat)
    requires Seeded([p, f]) && p.BucketOf() == f.BucketOf() && p.step.id < f.step.id
    requires f.step.stepOrder < p.step.stepOrder && !f.step.onFailure.Continue?
    ensures var t := Exec(Start(lockTimeout, clock, [p, f]), run);
            d in t.calls && t.calls[d].snapshot == t.rows && t.calls[d].decision.Finalize? &&
            t.calls[d].decision.state.status.DishProcessing? && !NoPendingInLowestBlocking(t.rows)
  {
    ByStepOrder(f, p);
    assert Splits([p, f], 1, 0);
    var c, q;
    run, c, d, q := FinalizedWhileDispatching(lockTimeout, clock, [p, f], 1, 0);
    StartOk(lockTimeout, clock, [p, f]);
    InvOnRuns(Start(lockTimeout, clock, [p, f]), run);
    PendingFirst(Exec(Start(lockTimeout, clock, [p, f]), run).rows);
  }

  lemma {:induction false} PendingFirst(rows: seq<Row>)
    requires DistinctIds(rows) && AllNamed(rows) && Decide(rows).Finalize? && rows != [] && rows[0].status.Pending?
    ensures Decide(rows).state.status.DishProcessing? && !NoPendingInLowestBlocking(rows)
  {
    FinalizationSound(rows);
    assert rows[0] in rows;
  }
}
