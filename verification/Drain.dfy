/** How many sweeps a dish needs when everything it starts is answered. */
module Drain {
  import opened Wrappers
  import opened Execution
  import opened Rows
  import opened Segments
  import opened Cook
  import opened Collapse
  import opened Protocol
  import opened Timer

  /** Every row in flight ends, in whatever way, and the other rows stay as they are. */
  ghost predicate Answered(started: seq<Row>, after: seq<Row>) {
    |after| == |started| &&
    forall k :: 0 <= k < |started| ==>
      after[k].step == started[k].step &&
      if started[k].status.InFlight() then after[k].status.Terminal() && RowOk(after[k]) else after[k] == started[k]
  }

  /** A sweep that dispatches, and the answers to what it started. */
  ghost predicate Round(rows: seq<Row>, after: seq<Row>, lookup: map<string, int>, now: int) {
    var swept := Swept(rows, lookup, now);
    Decide(swept).Dispatch? && Answered(DispatchAll(swept, Ids(Decide(swept).segment.rows), now), after)
  }

  /** What the sweep leaves: the same steps, and rows that were pending or left alone. */
  lemma {:induction false} SweptFrame(rows: seq<Row>, lookup: map<string, int>, now: int)
    requires Sweepable(rows, lookup)
    ensures var swept := Swept(rows, lookup, now);
            |swept| == |rows| &&
            forall k :: 0 <= k < |rows| ==>
              swept[k].step == rows[k].step &&
              (swept[k] == rows[k] || (rows[k].status.Pending? && swept[k].status.Canceled? && RowOk(swept[k])))
  {
    RepresentativeMeaning(rows);
    if Representative(rows).value.Blocking() {
      CascadeMoves(rows, lookup, now);
      forall k | 0 <= k < |rows| && IsTarget(rows[k], Representative(rows).value)
        ensures RowOk(Swept(rows, lookup, now)[k])
      {
        assert rows[k] in rows;
        CanceledOk(rows, k, lookup, now);
      }
    }
  }

  lemma {:induction false} CanceledOk(rows: seq<Row>, k: nat, lookup: map<string, int>, now: int)
    requires k < |rows| && RowOk(rows[k]) && rows[k].status.Pending?
    requires Representative(rows).Some? && Representative(rows).value.Blocking()
    ensures RowOk(Swept(rows, lookup, now)[k])
  {}

  /** A dispatch takes the whole bucket: afterwards no row of it is pending. */
  lemma {:induction false} WholeBucketStarts(swept: seq<Row>, now: int)
    requires DistinctIds(swept) && Decide(swept).Dispatch?
    requires forall r :: r in swept && r.status.Pending? ==> Ready(r)
    ensures var segment := Decide(swept).segment;
            var started := DispatchAll(swept, Ids(segment.rows), now);
            forall k :: 0 <= k < |swept| ==>
              started[k] == if swept[k].status.Pending? && swept[k].BucketOf() == segment.bucket
                            then MarkedReady(swept[k], now).value else swept[k]
  {
    SegmentReady(swept);
    var segment := Decide(swept).segment;
    forall k | 0 <= k < |swept|
      ensures swept[k].step.id in Ids(segment.rows) <==>
              swept[k].status.Pending? && swept[k].BucketOf() == segment.bucket
    {
      assert swept[k] in swept;
      if swept[k].step.id in Ids(segment.rows) {
        var r :| r in segment.rows && r.step.id == swept[k].step.id;
        var j :| 0 <= j < |swept| && swept[j] == r;
        assert j == k;
      }
    }
  }

  /** With work to dispatch, no pending row is at or behind a blocking failure. */
  lemma {:induction false} PendingAheadOfFailures(swept: seq<Row>)
    requires !HasPendingAfterBlockingFailure(swept) && NoPendingInLowestBlocking(swept)
    ensures forall r, x :: r in swept && x in swept && r.status.Pending? && x.Blocking() ==>
              r.BucketOf().Below(x.BucketOf())
  {
    LowestBlockingMeaning(swept);
  }

  /** A round row by row: canceled by the sweep, started and ended, or left alone. */
  ghost predicate Moved(rows: seq<Row>, swept: seq<Row>, after: seq<Row>, bucket: Bucket) {
    |swept| == |after| == |rows| &&
    forall k :: 0 <= k < |rows| ==>
      swept[k].step == after[k].step == rows[k].step &&
      (swept[k] == rows[k] || (rows[k].status.Pending? && swept[k].status.Canceled? && RowOk(swept[k]))) &&
      if swept[k].status.Pending? && swept[k].BucketOf() == bucket then after[k].status.Terminal() && RowOk(after[k])
      else after[k] == swept[k]
  }

  lemma {:induction false} RoundMoves(rows: seq<Row>, after: seq<Row>, lookup: map<string, int>, now: int)
    requires Sweepable(rows, lookup) && Round(rows, after, lookup, now)
    ensures var swept := Swept(rows, lookup, now);
            Moved(rows, swept, after, Decide(swept).segment.bucket)
  {
    var swept := Swept(rows, lookup, now);
    SweptFrame(rows, lookup, now);
    SweptFacts(rows, lookup, now);
    WholeBucketStarts(swept, now);
    var segment := Decide(swept).segment;
    forall k | 0 <= k < |rows|
      ensures if swept[k].status.Pending? && swept[k].BucketOf() == segment.bucket
              then after[k].status.Terminal() && RowOk(after[k]) else after[k] == swept[k]
    {
      assert swept[k] in swept;
    }
  }

  lemma {:induction false} RoundShrinks(rows: seq<Row>, after: seq<Row>, lookup: map<string, int>, now: int)
    requires Sweepable(rows, lookup) && Round(rows, after, lookup, now)
    ensures |after| == |rows| && PendingCount(after) < PendingCount(rows)
    ensures forall k :: 0 <= k < |rows| ==> after[k].step == rows[k].step
  {
    var swept := Swept(rows, lookup, now);
    RoundMoves(rows, after, lookup, now);
    var k := SegmentRow(swept);
    assert rows[k].status.Pending? && !after[k].status.Pending?;
    NoMorePending(rows, after);
  }

  lemma {:induction false} SegmentRow(swept: seq<Row>) returns (k: nat)
    requires Decide(swept).Dispatch?
    ensures k < |swept| && swept[k].status.Pending? && swept[k].BucketOf() == Decide(swept).segment.bucket
  {
    SegmentReady(swept);
    var segment := Decide(swept).segment;
    assert segment.rows[0] in segment.rows;
    k :| 0 <= k < |swept| && swept[k] == segment.rows[0];
  }

  /** No pending row shares a bucket with a failure, when none did before and the whole bucket was started. */
  lemma {:induction false} NoGap(rows: seq<Row>, swept: seq<Row>, after: seq<Row>, bucket: Bucket)
    requires Moved(rows, swept, after, bucket)
    requires forall r, x :: r in swept && x in swept && r.status.Pending? && x.Blocking() ==>
               r.BucketOf().Below(x.BucketOf())
    ensures NoPendingInLowestBlocking(after)
  {
    LowestBlockingMeaning(after);
    forall r, x | r in after && x in after && r.status.Pending? && x.Blocking() ensures r.BucketOf() != x.BucketOf() {
      var i :| 0 <= i < |after| && after[i] == r;
      var j :| 0 <= j < |after| && after[j] == x;
      assert swept[i] in swept && swept[j] in swept;
    }
  }

  lemma {:induction false} RoundLeavesNoGap(rows: seq<Row>, after: seq<Row>, lookup: map<string, int>, now: int)
    requires Sweepable(rows, lookup) && Round(rows, after, lookup, now)
    ensures NoPendingInLowestBlocking(after)
  {
    var swept := Swept(rows, lookup, now);
    SweptFacts(rows, lookup, now);
    SweepProgress(rows, lookup, now);
    PendingAheadOfFailures(swept);
    RoundMoves(rows, after, lookup, now);
    NoGap(rows, swept, after, Decide(swept).segment.bucket);
  }

  lemma {:induction false} MovedKeeps(rows: seq<Row>, swept: seq<Row>, after: seq<Row>, bucket: Bucket)
    requires Moved(rows, swept, after, bucket) && DistinctIds(rows) && AllNamed(rows) && !HasInFlight(rows)
    requires forall r :: r in rows ==> RowOk(r)
    ensures DistinctIds(after) && AllNamed(after) && !HasInFlight(after) && forall r :: r in after ==> RowOk(r)
  {
    forall r | r in after ensures ServiceNamed(r) && !r.status.InFlight() && RowOk(r) {
      var k :| 0 <= k < |after| && after[k] == r;
      assert rows[k] in rows;
    }
    forall i, j | 0 <= i < j < |after| ensures after[i].step.id != after[j].step.id {
      assert rows[i].step.id != rows[j].step.id;
    }
  }

  lemma {:induction false} IdentitiesKept(rows: seq<Row>, after: seq<Row>, lookup: map<string, int>)
    requires |after| == |rows| && DistinctIds(rows) && forall k :: 0 <= k < |rows| ==> after[k].step == rows[k].step
    requires forall a, b :: a in rows && b in rows && IdentityOf(a, lookup) == IdentityOf(b, lookup) ==> a == b
    ensures forall a, b :: a in after && b in after && IdentityOf(a, lookup) == IdentityOf(b, lookup) ==> a == b
  {
    forall a, b | a in after && b in after && IdentityOf(a, lookup) == IdentityOf(b, lookup) ensures a == b {
      var i :| 0 <= i < |after| && after[i] == a;
      var j :| 0 <= j < |after| && after[j] == b;
      SameIdentity(a, rows[i], lookup);
      SameIdentity(b, rows[j], lookup);
      assert rows[i] in rows && rows[j] in rows && rows[i] == rows[j];
      assert i == j;
    }
  }

  /** A round leaves the dish ready for the next sweep, with less to do. */
  lemma {:induction false} RoundKeeps(rows: seq<Row>, after: seq<Row>, lookup: map<string, int>, now: int)
    requires Sweepable(rows, lookup) && Round(rows, after, lookup, now)
    ensures Sweepable(after, lookup) && |after| == |rows| && PendingCount(after) < PendingCount(rows)
  {
    RoundShrinks(rows, after, lookup, now);
    RoundLeavesNoGap(rows, after, lookup, now);
    RoundMoves(rows, after, lookup, now);
    MovedKeeps(rows, Swept(rows, lookup, now), after, Decide(Swept(rows, lookup, now)).segment.bucket);
    IdentitiesKept(rows, after, lookup);
  }

  lemma {:induction false} SameIdentity(a: Row, b: Row, lookup: map<string, int>)
    requires a.step == b.step
    ensures IdentityOf(a, lookup) == IdentityOf(b, lookup)
  {}

  /** A history of rounds: the rows before the first sweep, and after each round. */
  ghost predicate Rounds(states: seq<seq<Row>>, times: seq<int>, lookup: map<string, int>) {
    states != [] && |times| == |states| - 1 &&
    forall i :: 0 <= i < |times| ==> Round(states[i], states[i + 1], lookup, times[i])
  }

  lemma {:induction false} SeededIsSweepable(rows: seq<Row>, lookup: map<string, int>)
    requires Seeded(rows) && rows != []
    requires forall a, b :: a in rows && b in rows && IdentityOf(a, lookup) == IdentityOf(b, lookup) ==> a == b
    ensures Sweepable(rows, lookup)
  {
    LowestBlockingMeaning(rows);
  }

  /**
    A dish whose started rows are always answered drains: at most one sweep per row dispatches, and
    the first sweep that does not finalizes the dish with a status that ends it.
  */
  lemma {:induction false} DishDrains(states: seq<seq<Row>>, times: seq<int>, lookup: map<string, int>, now: int)
    requires Rounds(states, times, lookup) && Sweepable(states[0], lookup)
    ensures |times| <= |states[0]|
    ensures var last := states[|times|];
            var decision := Decide(Swept(last, lookup, now));
            |last| == |states[0]| &&
            (decision.Dispatch? || (decision.Finalize? && !decision.state.status.Active())) &&
            (|times| == |states[0]| ==> decision.Finalize?)
  {
    RoundsShrink(states, times, lookup, |times|);
    var last := states[|times|];
    PendingAtMostAll(states[0]);
    SweepProgress(last, lookup, now);
    if Decide(Swept(last, lookup, now)).Dispatch? { SomethingPending(last, lookup, now); }
  }

  lemma {:induction false} SomethingPending(rows: seq<Row>, lookup: map<string, int>, now: int)
    requires Sweepable(rows, lookup) && Decide(Swept(rows, lookup, now)).Dispatch?
    ensures PendingCount(rows) > 0
  {
    SweptFrame(rows, lookup, now);
    var k := SegmentRow(Swept(rows, lookup, now));
    OneFewerPending(rows, k, rows[k].(status := Canceled));
  }

  lemma {:induction false} RoundsShrink(states: seq<seq<Row>>, times: seq<int>, lookup: map<string, int>, i: nat)
    requires Rounds(states, times, lookup) && Sweepable(states[0], lookup) && i <= |times|
    ensures Sweepable(states[i], lookup) && |states[i]| == |states[0]| &&
            PendingCount(states[i]) + i <= PendingCount(states[0])
  {
    if i > 0 {
      RoundsShrink(states, times, lookup, i - 1);
      RoundKeeps(states[i - 1], states[i], lookup, times[i - 1]);
    }
  }

  // ---- Such histories exist -----------------------------------------------------------------

  lemma {:induction false} StartedOk(rows: seq<Row>, lookup: map<string, int>, now: int)
    requires Sweepable(rows, lookup) && Decide(Swept(rows, lookup, now)).Dispatch?
    ensures var swept := Swept(rows, lookup, now);
            forall r :: r in DispatchAll(swept, Ids(Decide(swept).segment.rows), now) ==> RowOk(r)
  {
    var swept := Swept(rows, lookup, now);
    SweptFrame(rows, lookup, now);
    SweptFacts(rows, lookup, now);
    WholeBucketStarts(swept, now);
    var started := DispatchAll(swept, Ids(Decide(swept).segment.rows), now);
    forall r | r in started ensures RowOk(r) {
      var k :| 0 <= k < |started| && started[k] == r;
      assert rows[k] in rows && swept[k] in swept;
    }
  }

  /** A sweep that dispatches can be answered. */
  lemma {:induction false} SomeRound(rows: seq<Row>, lookup: map<string, int>, now: int) returns (after: seq<Row>)
    requires Sweepable(rows, lookup) && Decide(Swept(rows, lookup, now)).Dispatch?
    ensures Round(rows, after, lookup, now)
  {
    var swept := Swept(rows, lookup, now);
    var started := DispatchAll(swept, Ids(Decide(swept).segment.rows), now);
    StartedOk(rows, lookup, now);
    after := seq(|started|, k requires 0 <= k < |started| =>
      if started[k].status.InFlight() then started[k].(status := Failed, claimedAt := None, claimedBy := None)
      else started[k]);
    forall k | 0 <= k < |started| && started[k].status.InFlight() ensures RowOk(after[k]) {
      assert started[k] in started;
    }
  }

  lemma {:induction false} RoundBefore(rows: seq<Row>, now: int, later: seq<seq<Row>>, laterTimes: seq<int>,
                                       lookup: map<string, int>)
    requires Rounds(later, laterTimes, lookup) && Round(rows, later[0], lookup, now)
    ensures Rounds([rows] + later, [now] + laterTimes, lookup)
  {
    var states, times := [rows] + later, [now] + laterTimes;
    forall i | 0 <= i < |times| ensures Round(states[i], states[i + 1], lookup, times[i]) {
      if i > 0 { assert Round(later[i - 1], later[i], lookup, laterTimes[i - 1]); }
    }
  }

  /** From every dish that can be swept there is a history of rounds that ends with its finalization. */
  lemma {:induction false} SomeDrain(rows: seq<Row>, lookup: map<string, int>, now: int)
    returns (states: seq<seq<Row>>, times: seq<int>)
    requires Sweepable(rows, lookup)
    ensures Rounds(states, times, lookup) && states[0] == rows && Decide(Swept(states[|times|], lookup, now)).Finalize?
    decreases PendingCount(rows)
  {
    SweepProgress(rows, lookup, now);
    states, times := [rows], [];
    if Decide(Swept(rows, lookup, now)).Dispatch? {
      var after := SomeRound(rows, lookup, now);
      RoundKeeps(rows, after, lookup, now);
      var later, laterTimes := SomeDrain(after, lookup, now);
      states, times := [rows] + later, [now] + laterTimes;
      RoundBefore(rows, now, later, laterTimes, lookup);
    }
  }
}
