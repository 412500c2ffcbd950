/** Choosing the next runnable segment of a dish (kitchen/execution_segments.py). */
module Segments {
  import opened Wrappers
  import opened Ordering
  import opened Text
  import opened Rows

  /** (depth, parallel_group, step_order, task_key, id) */
  function RowKey(row: Row): Key {
    [row.step.depth, row.step.parallelGroup, row.step.stepOrder] + TextKey(row.step.taskKey) + [row.step.id]
  }

  ghost predicate DistinctIds(rows: seq<Row>) {
    forall i, j :: 0 <= i < j < |rows| ==> rows[i].step.id != rows[j].step.id
  }

  datatype Segment = Segment(bucket: Bucket, serviceTypes: set<string>, rows: seq<Row>)

  predicate ServiceNamed(row: Row) {
    Normalize(row.step.serviceType) != ""
  }

  function FirstOpen(rows: seq<Row>): Option<Row> {
    if rows == [] then None
    else if rows[0].Done() then FirstOpen(rows[1..])
    else Some(rows[0])
  }

  function PendingIn(rows: seq<Row>, bucket: Bucket): seq<Row> {
    if rows == [] then []
    else
      var rest := PendingIn(rows[1..], bucket);
      if rows[0].BucketOf() == bucket && rows[0].status.Pending? then [rows[0]] + rest else rest
  }

  /** The segment of a bucket: its pending rows, unless one of them names no service. */
  function SegmentOf(ordered: seq<Row>, bucket: Bucket): Option<Segment> {
    var members := PendingIn(ordered, bucket);
    if exists r :: r in members && !ServiceNamed(r) then None
    else Some(Segment(bucket, set r | r in members :: Normalize(r.step.serviceType), members))
  }

  function NextSegment(rows: seq<Row>): Option<Segment> {
    var ordered := SortBy(rows, RowKey);
    var first := FirstOpen(ordered);
    if first.None? || !first.value.status.Pending? then None
    else SegmentOf(ordered, first.value.BucketOf())
  }

  predicate HasInFlight(rows: seq<Row>) {
    exists r :: r in rows && r.status.InFlight()
  }

  lemma {:induction false} PendingInSnoc(rows: seq<Row>, r: Row, bucket: Bucket)
    ensures PendingIn(rows + [r], bucket)
         == PendingIn(rows, bucket) + (if r.BucketOf() == bucket && r.status.Pending? then [r] else [])
  {
    if rows == [] {
      assert rows + [r] == [r];
    } else {
      assert (rows + [r])[1..] == rows[1..] + [r];
      PendingInSnoc(rows[1..], r, bucket);
    }
  }

  /** `next_pending_execution_segment` */
  method NextPendingExecutionSegment(rows: seq<Row>) returns (segment: Option<Segment>)
    ensures segment == NextSegment(rows)
  {
    var ordered := SortBy(rows, RowKey);
    var readyBucket: Option<Bucket> := None;
    var i := 0;
    while i < |ordered|
      invariant 0 <= i <= |ordered|
      invariant readyBucket.None? && FirstOpen(ordered) == FirstOpen(ordered[i..])
      decreases |ordered| - i
    {
      var item := ordered[i];
      if item.status.Succeeded? {
        i := i + 1;
        continue;
      }
      if item.status.Failure() {
        if item.step.onFailure.Continue? {
          i := i + 1;
          continue;
        }
        return None;
      }
      if item.status.InFlight() {
        return None;
      }
      readyBucket := Some(item.BucketOf());
      break;
    }
    if readyBucket.None? {
      return None;
    }
    assert FirstOpen(ordered).Some? && FirstOpen(ordered).value in PendingIn(ordered, readyBucket.value) by {
      FirstOpenMember(ordered);
      PendingInMembers(ordered, readyBucket.value);
    }
    segment := CollectSegment(ordered, readyBucket.value);
  }

  lemma {:induction false} FirstOpenMember(rows: seq<Row>)
    ensures FirstOpen(rows).Some? ==> FirstOpen(rows).value in rows
  {
    if rows != [] { FirstOpenMember(rows[1..]); }
  }

  /** The second loop of `next_pending_execution_segment` */
  method CollectSegment(ordered: seq<Row>, bucket: Bucket) returns (segment: Option<Segment>)
    requires PendingIn(ordered, bucket) != []
    ensures segment == SegmentOf(ordered, bucket)
  {
    var members: seq<Row> := [];
    var serviceTypes: set<string> := {};
    for j := 0 to |ordered|
      invariant members == PendingIn(ordered[..j], bucket)
      invariant serviceTypes == set r | r in members :: Normalize(r.step.serviceType)
      invariant forall r :: r in members ==> ServiceNamed(r)
    {
      var item := ordered[j];
      assert ordered[..j + 1] == ordered[..j] + [item];
      PendingInSnoc(ordered[..j], item, bucket);
      if item.BucketOf() != bucket || !item.status.Pending? {
        continue;
      }
      var serviceType := Normalize(item.step.serviceType);
      if serviceType == "" {
        PendingInMembers(ordered, bucket);
        assert item in PendingIn(ordered, bucket);
        return None;
      }
      serviceTypes := serviceTypes + {serviceType};
      members := members + [item];
    }
    assert ordered[..|ordered|] == ordered;
    segment := if members == [] then None else Some(Segment(bucket, serviceTypes, members));
  }

  // ---- Work left ------------------------------------------------------------------

  function PendingCount(rows: seq<Row>): nat {
    if rows == [] then 0 else (if rows[0].status.Pending? then 1 else 0) + PendingCount(rows[1..])
  }

  lemma {:induction false} OneFewerPending(rows: seq<Row>, m: nat, row: Row)
    requires m < |rows| && rows[m].status.Pending? && !row.status.Pending?
    ensures PendingCount(rows[m := row]) < PendingCount(rows)
  {
    if m == 0 {
      assert rows[0 := row][1..] == rows[1..];
    } else {
      assert rows[m := row][1..] == rows[1..][m - 1 := row];
      OneFewerPending(rows[1..], m - 1, row);
    }
  }

  lemma {:induction false} NoMorePending(before: seq<Row>, after: seq<Row>)
    requires |before| == |after|
    requires forall k :: 0 <= k < |after| && after[k].status.Pending? ==> before[k].status.Pending?
    ensures PendingCount(after) <= PendingCount(before)
    ensures (exists k :: 0 <= k < |before| && before[k].status.Pending? && !after[k].status.Pending?) ==>
              PendingCount(after) < PendingCount(before)
  {
    if before != [] {
      NoMorePending(before[1..], after[1..]);
      if k :| 0 < k < |before| && before[k].status.Pending? && !after[k].status.Pending? {
        assert before[1..][k - 1].status.Pending? && !after[1..][k - 1].status.Pending?;
      }
    }
  }

  lemma {:induction false} PendingAtMostAll(rows: seq<Row>)
    ensures PendingCount(rows) <= |rows|
  {
    if rows != [] { PendingAtMostAll(rows[1..]); }
  }

  // ---- What the chosen segment is ------------------------------------------------

  lemma {:induction false} PendingInMembers(rows: seq<Row>, bucket: Bucket)
    ensures forall r :: r in PendingIn(rows, bucket) <==> r in rows && r.BucketOf() == bucket && r.status.Pending?
  {
    if rows != [] { PendingInMembers(rows[1..], bucket); }
  }

  lemma {:induction false} PendingInCount(rows: seq<Row>, bucket: Bucket)
    ensures forall r :: multiset(PendingIn(rows, bucket))[r]
                     == if r.BucketOf() == bucket && r.status.Pending? then multiset(rows)[r] else 0
  {
    if rows != [] {
      PendingInCount(rows[1..], bucket);
      assert rows == [rows[0]] + rows[1..];
    }
  }

  lemma {:induction false} PendingInPermutes(a: seq<Row>, b: seq<Row>, bucket: Bucket)
    requires multiset(a) == multiset(b)
    ensures multiset(PendingIn(a, bucket)) == multiset(PendingIn(b, bucket))
  {
    PendingInCount(a, bucket);
    PendingInCount(b, bucket);
  }

  lemma {:induction false} PendingInSorted(rows: seq<Row>, bucket: Bucket)
    requires Sorted(rows, RowKey)
    ensures Sorted(PendingIn(rows, bucket), RowKey)
  {
    if rows != [] {
      var rest := PendingIn(rows[1..], bucket);
      PendingInSorted(rows[1..], bucket);
      PendingInMembers(rows[1..], bucket);
      forall j | 0 <= j < |rest| ensures !Less(RowKey(rest[j]), RowKey(rows[0])) {
        assert rest[j] in rows[1..];
        var k :| 0 <= k < |rows[1..]| && rows[1..][k] == rest[j];
        assert rows[k + 1] == rest[j];
      }
    }
  }

  lemma {:induction false} FirstOpenLeast(rows: seq<Row>)
    requires Sorted(rows, RowKey)
    ensures FirstOpen(rows).None? <==> forall r :: r in rows ==> r.Done()
    ensures FirstOpen(rows).Some? ==>
              var f := FirstOpen(rows).value;
              f in rows && !f.Done() &&
              forall r :: r in rows && !r.Done() ==> !Less(RowKey(r), RowKey(f))
  {
    if rows != [] {
      FirstOpenLeast(rows[1..]);
      LessTotal(RowKey(rows[0]), RowKey(rows[0]));
      if !rows[0].Done() {
        forall r | r in rows ensures !Less(RowKey(r), RowKey(rows[0])) {
          SortedHead(rows, RowKey, r);
        }
      }
    }
  }

  lemma {:induction false} BucketOrdersKeys(a: Row, b: Row)
    requires a.BucketOf().Below(b.BucketOf())
    ensures Less(RowKey(a), RowKey(b))
  {
    var ka, kb := RowKey(a), RowKey(b);
    if ka[0] == kb[0] {
      assert ka[1..][0] < kb[1..][0];
      assert Less(ka[1..], kb[1..]);
    }
  }

  lemma {:induction false} ByStepOrder(a: Row, b: Row)
    requires a.BucketOf() == b.BucketOf() && a.step.stepOrder < b.step.stepOrder
    ensures Less(RowKey(a), RowKey(b))
  {
    var ka, kb := RowKey(a), RowKey(b);
    assert ka[1..][1..][0] < kb[1..][1..][0];
    assert Less(ka[1..][1..], kb[1..][1..]);
    assert Less(ka[1..], kb[1..]);
  }

  lemma {:induction false} KeyHasId(a: Row, b: Row)
    requires RowKey(a) == RowKey(b)
    ensures a.step.id == b.step.id
  {
    assert RowKey(a)[|RowKey(a)| - 1] == a.step.id;
    assert RowKey(b)[|RowKey(b)| - 1] == b.step.id;
  }

  lemma {:induction false} RowKeysInjective(rows: seq<Row>)
    requires DistinctIds(rows)
    ensures Injective(rows, RowKey)
  {
    forall i, j | 0 <= i < j < |rows| ensures RowKey(rows[i]) != RowKey(rows[j]) {
      if RowKey(rows[i]) == RowKey(rows[j]) { KeyHasId(rows[i], rows[j]); }
    }
    DistinctKeysInjective(rows, RowKey);
  }

  /** The result does not depend on the order in which the rows were read. */
  lemma {:induction false} SegmentIgnoresReadOrder(a: seq<Row>, b: seq<Row>)
    requires multiset(a) == multiset(b) && DistinctIds(a)
    ensures NextSegment(a) == NextSegment(b)
  {
    RowKeysInjective(a);
    SortByPermutation(a, b, RowKey);
  }

  /** `f` comes first, in execution order, among the rows that are not done. */
  ghost predicate LeastOpen(rows: seq<Row>, f: Row) {
    f in rows && !f.Done() &&
    forall r :: r in rows && !r.Done() && r != f ==> Less(RowKey(f), RowKey(r))
  }

  lemma {:induction false} LeastOpenIsFirst(rows: seq<Row>, f: Row)
    requires DistinctIds(rows) && LeastOpen(rows, f)
    ensures FirstOpen(SortBy(rows, RowKey)) == Some(f)
  {
    var ordered := SortBy(rows, RowKey);
    SortByCorrect(rows, RowKey);
    FirstOpenLeast(ordered);
  }

  lemma {:induction false} FirstIsLeastOpen(rows: seq<Row>)
    requires DistinctIds(rows)
    ensures FirstOpen(SortBy(rows, RowKey)).Some? ==> LeastOpen(rows, FirstOpen(SortBy(rows, RowKey)).value)
    ensures FirstOpen(SortBy(rows, RowKey)).None? <==> forall r :: r in rows ==> r.Done()
  {
    var ordered := SortBy(rows, RowKey);
    SortByCorrect(rows, RowKey);
    FirstOpenLeast(ordered);
    RowKeysInjective(rows);
    if FirstOpen(ordered).Some? {
      var f := FirstOpen(ordered).value;
      forall r | r in rows && !r.Done() && r != f ensures Less(RowKey(f), RowKey(r)) {
        LessTotal(RowKey(f), RowKey(r));
      }
    }
  }

  /**
    The segment, said without any scan: it exists exactly when the least open row is pending
    and every pending row of its bucket names a service, and then it holds exactly the pending
    rows of that bucket, each once, in execution order.
  */
  lemma {:induction false} SegmentMeaning(rows: seq<Row>, f: Row)
    requires DistinctIds(rows) && LeastOpen(rows, f)
    ensures NextSegment(rows).Some? <==>
              f.status.Pending? &&
              forall r :: r in rows && r.status.Pending? && r.BucketOf() == f.BucketOf() ==> ServiceNamed(r)
    ensures NextSegment(rows).Some? ==>
              var segment := NextSegment(rows).value;
              segment.bucket == f.BucketOf() && f in segment.rows &&
              multiset(segment.rows) == multiset(PendingIn(rows, f.BucketOf())) &&
              Sorted(segment.rows, RowKey) &&
              segment.serviceTypes == set r | r in segment.rows :: Normalize(r.step.serviceType)
  {
    var ordered, bucket := SortBy(rows, RowKey), f.BucketOf();
    var members := PendingIn(ordered, bucket);
    LeastOpenIsFirst(rows, f);
    assert forall r :: r in members <==> r in rows && r.BucketOf() == bucket && r.status.Pending? by {
      SortByCorrect(rows, RowKey);
      PendingInMembers(ordered, bucket);
    }
    assert Sorted(members, RowKey) && multiset(members) == multiset(PendingIn(rows, bucket)) by {
      SortByCorrect(rows, RowKey);
      PendingInSorted(ordered, bucket);
      PendingInPermutes(ordered, rows, bucket);
    }
  }

  /** With nothing open there is no segment. */
  lemma {:induction false} NoSegmentWhenAllDone(rows: seq<Row>)
    requires DistinctIds(rows) && forall r :: r in rows ==> r.Done()
    ensures NextSegment(rows).None?
  {
    FirstIsLeastOpen(rows);
  }

  /** The members of a segment, and why it may run: every row of a smaller bucket is done. */
  lemma {:induction false} SegmentReady(rows: seq<Row>)
    requires NextSegment(rows).Some?
    ensures var segment := NextSegment(rows).value;
            (forall r :: r in segment.rows <==> r in rows && r.BucketOf() == segment.bucket && r.status.Pending?) &&
            (forall r :: r in rows && r.BucketOf().Below(segment.bucket) ==> r.Done()) &&
            segment.rows != []
  {
    var ordered := SortBy(rows, RowKey);
    SortByCorrect(rows, RowKey);
    FirstOpenLeast(ordered);
    var f := FirstOpen(ordered).value;
    PendingInMembers(ordered, f.BucketOf());
    assert f in PendingIn(ordered, f.BucketOf());
    forall r | r in rows && r.BucketOf().Below(f.BucketOf()) ensures r.Done() {
      BucketOrdersKeys(r, f);
    }
  }

  // ---- The execution order --------------------------------------------------------------

  /** Row a runs before row b: by depth, group, step order, task key, and id between equals. */
  ghost predicate Precedes(a: Step, b: Step) {
    a.depth < b.depth || (a.depth == b.depth &&
    (a.parallelGroup < b.parallelGroup || (a.parallelGroup == b.parallelGroup &&
    (a.stepOrder < b.stepOrder || (a.stepOrder == b.stepOrder &&
    (TextBefore(a.taskKey, b.taskKey) || (a.taskKey == b.taskKey && a.id < b.id)))))))
  }

  lemma {:induction false} RowOrderMeaning(a: Row, b: Row)
    ensures Less(RowKey(a), RowKey(b)) <==> Precedes(a.step, b.step)
  {
    var s, t := a.step, b.step;
    var tailA, tailB := TextKey(s.taskKey) + [s.id], TextKey(t.taskKey) + [t.id];
    LessByField(s.depth, [s.parallelGroup, s.stepOrder] + tailA, t.depth, [t.parallelGroup, t.stepOrder] + tailB);
    LessByField(s.parallelGroup, [s.stepOrder] + tailA, t.parallelGroup, [t.stepOrder] + tailB);
    LessByField(s.stepOrder, tailA, t.stepOrder, tailB);
    LessByText(s.taskKey, [s.id], t.taskKey, [t.id]);
    LessByField(s.id, [], t.id, []);
    assert RowKey(a) == [s.depth] + ([s.parallelGroup, s.stepOrder] + tailA);
    assert RowKey(b) == [t.depth] + ([t.parallelGroup, t.stepOrder] + tailB);
    assert [s.parallelGroup, s.stepOrder] + tailA == [s.parallelGroup] + ([s.stepOrder] + tailA);
    assert [t.parallelGroup, t.stepOrder] + tailB == [t.parallelGroup] + ([t.stepOrder] + tailB);
    assert [s.id] + [] == [s.id] && [t.id] + [] == [t.id];
  }

  /** The open row that decides is the one no other open row precedes, and a segment lists its rows in that order. */
  lemma {:induction false} SegmentOrder(rows: seq<Row>, f: Row)
    requires DistinctIds(rows) && f in rows && !f.Done()
    ensures LeastOpen(rows, f) <==> forall r :: r in rows && !r.Done() && r != f ==> Precedes(f.step, r.step)
    ensures NextSegment(rows).Some? ==>
              var members := NextSegment(rows).value.rows;
              forall i, j :: 0 <= i < j < |members| ==> Precedes(members[i].step, members[j].step)
  {
    forall r ensures Less(RowKey(f), RowKey(r)) <==> Precedes(f.step, r.step) { RowOrderMeaning(f, r); }
    if NextSegment(rows).Some? { MembersInOrder(rows); }
  }

  lemma {:induction false} OncePerRow(rows: seq<Row>, r: Row)
    requires DistinctIds(rows)
    ensures multiset(rows)[r] <= 1
  {
    if rows != [] {
      assert rows == [rows[0]] + rows[1..];
      OncePerRow(rows[1..], r);
      if r == rows[0] {
        assert forall k :: 0 <= k < |rows[1..]| ==> rows[1..][k] == rows[k + 1];
        assert r !in rows[1..];
      }
    }
  }

  lemma {:induction false} PartDistinct(rows: seq<Row>, part: seq<Row>)
    requires DistinctIds(rows) && multiset(part) <= multiset(rows)
    ensures DistinctIds(part)
  {
    forall i, j | 0 <= i < j < |part| ensures part[i].step.id != part[j].step.id {
      assert part[i] in multiset(part) && part[j] in multiset(part);
      assert part[i] in rows && part[j] in rows;
      OncePerRow(rows, part[i]);
      SingleCountsDistinct(part, i, j);
    }
  }

  lemma {:induction false} MembersInOrder(rows: seq<Row>)
    requires DistinctIds(rows) && NextSegment(rows).Some?
    ensures var members := NextSegment(rows).value.rows;
            forall i, j :: 0 <= i < j < |members| ==> Precedes(members[i].step, members[j].step)
  {
    FirstIsLeastOpen(rows);
    var f := FirstOpen(SortBy(rows, RowKey)).value;
    SegmentMeaning(rows, f);
    var members := NextSegment(rows).value.rows;
    PendingInCount(rows, f.BucketOf());
    PartDistinct(rows, members);
    forall i: nat, j: nat | i < j < |members| ensures Precedes(members[i].step, members[j].step) {
      if RowKey(members[i]) == RowKey(members[j]) { KeyHasId(members[i], members[j]); }
      SortedStrictly(members, RowKey, i, j);
      RowOrderMeaning(members[i], members[j]);
    }
  }
}
