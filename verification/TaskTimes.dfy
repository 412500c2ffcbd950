/** When a recurring task is claimed: exactly which tasks a claim takes, and how long a finished task rests. */
module TaskTimes {
  import opened Wrappers
  import opened Ordering
  import Orders
  import opened Tasks

  // ---- What one claim takes -----------------------------------------------------------------

  /** Task a at position i is claimed before task b at j: by priority, next run and id. */
  predicate Earlier(a: Task, i: nat, b: Task, j: nat)
    requires a.nextRunAt.Some? && b.nextRunAt.Some?
  {
    if a.priority != b.priority then a.priority < b.priority
    else if a.nextRunAt.value != b.nextRunAt.value then a.nextRunAt.value < b.nextRunAt.value
    else i < j
  }

  /** The due tasks that a claim takes before task k. */
  function DueBefore(tasks: seq<Task>, k: nat, now: int): set<nat>
    requires k < |tasks| && tasks[k].nextRunAt.Some?
  {
    set j: nat | j < |tasks| && Due(tasks[j], now) && Earlier(tasks[j], j, tasks[k], k)
  }

  lemma {:induction false} EntryOrderMeaning(a: Entry, b: Entry)
    requires a.task.nextRunAt.Some? && b.task.nextRunAt.Some?
    ensures Less(EntryKey(a), EntryKey(b)) <==> Earlier(a.task, a.id, b.task, b.id)
  {
    var s, t := a.task.nextRunAt.value, b.task.nextRunAt.value;
    LessByField(a.task.priority, [s, a.id], b.task.priority, [t, b.id]);
    LessByField(s, [a.id], t, [b.id]);
    LessByField(a.id, [], b.id, []);
    assert EntryKey(a) == [a.task.priority] + [s, a.id] && EntryKey(b) == [b.task.priority] + [t, b.id];
    assert [s, a.id] == [s] + [a.id] && [t, b.id] == [t] + [b.id];
    assert [a.id] == [a.id] + [] && [b.id] == [b.id] + [];
  }

  lemma {:induction false} DueEntriesOnce(tasks: seq<Task>, now: int)
    ensures forall e :: multiset(DueEntries(tasks, now))[e] <= 1
  {
    if tasks != [] {
      var n := |tasks| - 1;
      DueEntriesOnce(tasks[..n], now);
      DueEntriesMeaning(tasks[..n], now);
      assert Entry(n, tasks[n]) !in DueEntries(tasks[..n], now);
    }
  }

  ghost predicate IdsDiffer(entries: seq<Entry>) {
    forall i, j :: 0 <= i < j < |entries| ==> entries[i].id != entries[j].id
  }

  /** The due tasks in the order in which claims take them. */
  function Queue(tasks: seq<Task>, now: int): seq<Entry> {
    SortBy(DueEntries(tasks, now), EntryKey)
  }

  lemma {:induction false} QueueMeaning(tasks: seq<Task>, now: int)
    ensures forall e :: e in Queue(tasks, now) <==> e.id < |tasks| && e.task == tasks[e.id] && Due(e.task, now)
    ensures IdsDiffer(Queue(tasks, now)) && Sorted(Queue(tasks, now), EntryKey)
  {
    var queue := Queue(tasks, now);
    DueEntriesMeaning(tasks, now);
    DueEntriesOnce(tasks, now);
    SortByCorrect(DueEntries(tasks, now), EntryKey);
    forall i: nat, j: nat | i < j < |queue| ensures queue[i].id != queue[j].id {
      assert queue[i] in queue && queue[j] in queue;
      SingleCountsDistinct(queue, i, j);
    }
  }

  lemma {:induction false} IdsCount(entries: seq<Entry>, p: nat)
    requires IdsDiffer(entries) && p <= |entries|
    ensures |Named(entries[..p])| == p
  {
    if p > 0 {
      IdsCount(entries, p - 1);
      NamedOneMore(entries, p - 1);
      assert entries[p - 1].id !in Named(entries[..p - 1]);
    }
  }

  /** The p-th in the queue has exactly the p tasks before it that are claimed earlier. */
  lemma {:induction false} QueuePosition(tasks: seq<Task>, now: int, p: nat)
    requires p < |Queue(tasks, now)|
    ensures var e := Queue(tasks, now)[p];
            e.id < |tasks| && e.task == tasks[e.id] && Due(e.task, now) &&
            DueBefore(tasks, e.id, now) == Named(Queue(tasks, now)[..p]) && |DueBefore(tasks, e.id, now)| == p
  {
    var queue := Queue(tasks, now);
    QueueMeaning(tasks, now);
    var e := queue[p];
    assert e in queue;
    forall q: nat | q < |queue| && q != p ensures Earlier(queue[q].task, queue[q].id, e.task, e.id) <==> q < p {
      assert queue[q] in queue;
      EntryOrderMeaning(queue[q], e);
      EntriesInOrder(queue, q, p);
    }
    forall j: nat ensures j in DueBefore(tasks, e.id, now) <==> j in Named(queue[..p]) {
      if j in DueBefore(tasks, e.id, now) {
        assert Entry(j, tasks[j]) in queue;
        var q: nat :| q < |queue| && queue[q] == Entry(j, tasks[j]);
        assert q != p;
        assert queue[q] in queue[..p];
      }
      if j in Named(queue[..p]) {
        var q: nat :| q < p && queue[q].id == j;
        assert queue[q] in queue;
      }
    }
    IdsCount(queue, p);
  }

  lemma {:induction false} EntriesInOrder(queue: seq<Entry>, q: nat, p: nat)
    requires q < |queue| && p < |queue| && q != p && IdsDiffer(queue) && Sorted(queue, EntryKey)
    ensures Less(EntryKey(queue[q]), EntryKey(queue[p])) <==> q < p
  {
    if q < p {
      EntriesDiffer(queue[q], queue[p]);
    } else {
      EntriesDiffer(queue[p], queue[q]);
      LessTotal(EntryKey(queue[p]), EntryKey(queue[q]));
    }
  }

  /** A claim takes a task exactly when it is due and fewer due tasks than the limit come before it. */
  lemma {:induction false} SelectedExactly(tasks: seq<Task>, limit: nat, now: int, k: nat)
    requires k < |tasks|
    ensures k in SelectedIds(tasks, limit, now) <==>
            Due(tasks[k], now) && |DueBefore(tasks, k, now)| < limit
  {
    var queue := Queue(tasks, now);
    QueueMeaning(tasks, now);
    SelectedAreDue(tasks, limit, now);
    if Due(tasks[k], now) {
      assert Entry(k, tasks[k]) in queue;
      var p: nat :| p < |queue| && queue[p] == Entry(k, tasks[k]);
      QueuePosition(tasks, now, p);
      if p < limit {
        assert Selected(tasks, limit, now)[p] == queue[p];
      } else {
        forall e | e in Selected(tasks, limit, now) ensures e.id != k {
          var q: nat :| q < limit && queue[q] == e;
        }
      }
    }
  }

  // ---- Rest between runs ------------------------------------------------------------------------

  /** At least one second. */
  function Pause(t: Task): int {
    (if t.interval > 1 then t.interval else 1) * SECOND
  }

  /** The step with which an order of the task ends. */
  predicate CompletesTask(s: System, a: Action, k: nat) {
    a.StepOrder? && a.order < |s.orders| && s.orders[a.order].task == k &&
    Orders.Completes(s.orders[a.order].order, a.step)
  }

  predicate ClaimsTask(s: System, a: Action, k: nat) {
    a.ClaimDue? && k in SelectedIds(s.tasks, a.limit, s.clock)
  }

  ghost predicate NotRequested(run: seq<Action>, k: nat) {
    forall i :: 0 <= i < |run| ==> run[i] != RunNow(k)
  }

  predicate RestsUntil(t: Task, interval: int, until: int) {
    t.interval == interval && (t.nextRunAt.Some? ==> t.nextRunAt.value >= until)
  }

  lemma {:induction false} RestKept(s: System, a: Action, k: nat, interval: int, until: int)
    requires Shaped(s) && k < |s.tasks| && RestsUntil(s.tasks[k], interval, until) && a != RunNow(k)
    requires until <= s.clock + (if interval > 1 then interval else 1) * SECOND
    ensures Next(s, a).clock >= s.clock && |Next(s, a).tasks| == |s.tasks|
    ensures RestsUntil(Next(s, a).tasks[k], interval, until)
  {}

  lemma {:induction false} RestOnRuns(s: System, run: seq<Action>, k: nat, interval: int, until: int)
    requires Shaped(s) && k < |s.tasks| && RestsUntil(s.tasks[k], interval, until) && NotRequested(run, k)
    requires until <= s.clock + (if interval > 1 then interval else 1) * SECOND
    ensures k < |Exec(s, run).tasks| && RestsUntil(Exec(s, run).tasks[k], interval, until)
    decreases |run|
  {
    if run != [] {
      ShapedKept(s, run[0]);
      assert run[0] != RunNow(k);
      RestKept(s, run[0], k, interval, until);
      RestOnRuns(Next(s, run[0]), run[1..], k, interval, until);
    }
  }

  /**
    What a completion writes to its task: it succeeded exactly when the dish that ended the order is complete,
    whatever the order's own status, and an enabled task is scheduled after its pause.
  */
  lemma {:induction false} CompletionStamps(s: System, a: Action, k: nat)
    requires Shaped(s) && k < |s.tasks| && CompletesTask(s, a, k)
    ensures Shaped(Next(s, a)) && |Next(s, a).tasks| == |s.tasks| && Next(s, a).clock == s.clock
    ensures var t := Next(s, a).tasks[k];
            t.lastCompletedAt == Some(s.clock) && t.interval == s.tasks[k].interval &&
            t.enabled == s.tasks[k].enabled && t.priority == s.tasks[k].priority &&
            t.failures ==
              (if a.step.FinalizeDish? && a.step.status.DishComplete? then 0 else s.tasks[k].failures + 1) &&
            (t.enabled ==> t.status.Idle? && t.nextRunAt == Some(s.clock + Pause(s.tasks[k]))) &&
            (!t.enabled ==> t.status.Off? && t.nextRunAt.None?)
  {
    ShapedKept(s, a);
  }

  /**
    A task is never claimed again before its interval, and at least one second, has passed since it
    finished, whatever happens in between, unless an operator asks for it.
  */
  lemma {:induction false} PauseBetweenRuns(s: System, a: Action, between: seq<Action>, k: nat, claim: Action)
    requires Shaped(s) && k < |s.tasks| && CompletesTask(s, a, k) && NotRequested(between, k)
    ensures Shaped(Next(s, a)) &&
            var t := Exec(Next(s, a), between);
            ClaimsTask(t, claim, k) ==>
              Shaped(t) && k < |t.tasks| && t.clock >= s.clock + Pause(s.tasks[k]) &&
              Next(t, claim).tasks[k].lastStartedAt == Some(t.clock)
  {
    CompletionStamps(s, a, k);
    RestOnRuns(Next(s, a), between, k, s.tasks[k].interval, s.clock + Pause(s.tasks[k]));
    var t := Exec(Next(s, a), between);
    ShapedOnRuns(Next(s, a), between);
    if ClaimsTask(t, claim, k) { SelectedAreDue(t.tasks, claim.limit, t.clock); }
  }

  lemma {:induction false} ShapedOnRuns(s: System, run: seq<Action>)
    requires Shaped(s)
    ensures Shaped(Exec(s, run))
    decreases |run|
  {
    if run != [] {
      ShapedKept(s, run[0]);
      ShapedOnRuns(Next(s, run[0]), run[1..]);
    }
  }

  // ---- When it is claimed -------------------------------------------------------------------------

  /** Along the run nobody claims, requests or disables the task. */
  ghost predicate LeftAlone(s: System, run: seq<Action>, k: nat)
    requires Shaped(s)
    decreases |run|
  {
    run == [] ||
    (!ClaimsTask(s, run[0], k) && run[0] != RunNow(k) && run[0] != Disable(k) && Shaped(Next(s, run[0])) &&
     LeftAlone(Next(s, run[0]), run[1..], k))
  }

  lemma {:induction false} AloneKept(s: System, a: Action, k: nat)
    requires Shaped(s) && k < |s.tasks| && TaskOk(s, k) && s.tasks[k].status.Idle?
    requires !ClaimsTask(s, a, k) && a != RunNow(k) && a != Disable(k)
    ensures k < |Next(s, a).tasks| && Next(s, a).tasks[k] == s.tasks[k]
  {
    if CompletesTask(s, a, k) { OutstandingWhileOpen(s.orders, a.order, k); }
  }

  lemma {:induction false} AloneOnRuns(s: System, run: seq<Action>, k: nat)
    requires Shaped(s) && k < |s.tasks| && TaskOk(s, k) && s.tasks[k].status.Idle? && LeftAlone(s, run, k)
    ensures k < |Exec(s, run).tasks| && Exec(s, run).tasks[k] == s.tasks[k]
    decreases |run|
  {
    if run != [] {
      TaskOkKept(s, run[0], k);
      AloneKept(s, run[0], k);
      AloneOnRuns(Next(s, run[0]), run[1..], k);
    }
  }

  /**
    When a finished task that is left alone is claimed again: by a claim exactly when its pause is over and
    fewer due tasks than the limit come before it. So the first claim at or after that time with room for it takes it.
  */
  lemma {:induction false} ClaimedAgainExactly(start: System, before: seq<Action>, a: Action, between: seq<Action>,
                                               k: nat, limit: nat)
    requires Registered(start) && k < |start.tasks|
    requires var s := Exec(start, before);
             CompletesTask(s, a, k) && k < |s.tasks| && s.tasks[k].enabled &&
             Shaped(s) && Shaped(Next(s, a)) && LeftAlone(Next(s, a), between, k)
    ensures var s := Exec(start, before);
            var t := Exec(Next(s, a), between);
            k < |t.tasks| && t.tasks[k].nextRunAt.Some? &&
            (k in SelectedIds(t.tasks, limit, t.clock) <==>
             t.clock >= s.clock + Pause(s.tasks[k]) && |DueBefore(t.tasks, k, t.clock)| < limit)
  {
    var s := Exec(start, before);
    TaskOkOnRuns(start, before, k);
    CompletionStamps(s, a, k);
    TaskOkKept(s, a, k);
    AloneOnRuns(Next(s, a), between, k);
    var t := Exec(Next(s, a), between);
    SelectedExactly(t.tasks, limit, t.clock, k);
  }

  lemma {:induction false} ClockOnRuns(s: System, run: seq<Action>)
    requires Shaped(s)
    ensures Exec(s, run).clock >= s.clock
    decreases |run|
  {
    if run != [] {
      ShapedKept(s, run[0]);
      ClockOnRuns(Next(s, run[0]), run[1..]);
    }
  }

  /** An idle enabled task an operator asked for is due from then on; a request for any other task changes nothing. */
  lemma {:induction false} RequestedIsDue(start: System, before: seq<Action>, between: seq<Action>, k: nat, limit: nat)
    requires Registered(start) && k < |start.tasks| && Shaped(Exec(start, before))
    requires var s := Exec(start, before);
             k < |s.tasks| && Shaped(Next(s, RunNow(k))) && LeftAlone(Next(s, RunNow(k)), between, k)
    ensures var s := Exec(start, before);
            var t := Exec(Next(s, RunNow(k)), between);
            if s.tasks[k].enabled && s.tasks[k].status.Idle? then
              k < |t.tasks| && t.tasks[k].nextRunAt.Some? &&
              (k in SelectedIds(t.tasks, limit, t.clock) <==> |DueBefore(t.tasks, k, t.clock)| < limit)
            else Next(s, RunNow(k)) == s
  {
    var s := Exec(start, before);
    TaskOkOnRuns(start, before, k);
    if s.tasks[k].enabled && s.tasks[k].status.Idle? {
      TaskOkKept(s, RunNow(k), k);
      AloneOnRuns(Next(s, RunNow(k)), between, k);
      ClockOnRuns(Next(s, RunNow(k)), between);
      var t := Exec(Next(s, RunNow(k)), between);
      SelectedExactly(t.tasks, limit, t.clock, k);
    }
  }

  // ---- Disabled tasks ---------------------------------------------------------------------------------

  predicate Retired(s: System, k: nat)
    requires Shaped(s) && k < |s.tasks|
  {
    !s.tasks[k].enabled && (!Outstanding(s.history[k]) ==> s.tasks[k].status.Off?)
  }

  lemma {:induction false} RetiredKept(s: System, a: Action, k: nat)
    requires Shaped(s) && k < |s.tasks| && TaskOk(s, k) && Retired(s, k)
    ensures Shaped(Next(s, a)) && k < |Next(s, a).tasks| && Retired(Next(s, a), k)
  {
    ShapedKept(s, a);
    if a.ClaimDue? { SelectedAreDue(s.tasks, a.limit, s.clock); }
  }

  lemma {:induction false} RetiredOnRuns(s: System, run: seq<Action>, k: nat)
    requires Shaped(s) && k < |s.tasks| && TaskOk(s, k) && Retired(s, k)
    ensures Shaped(Exec(s, run)) && k < |Exec(s, run).tasks| && Retired(Exec(s, run), k)
    decreases |run|
  {
    if run != [] {
      TaskOkKept(s, run[0], k);
      RetiredKept(s, run[0], k);
      RetiredOnRuns(Next(s, run[0]), run[1..], k);
    }
  }

  /** A disabled task is never claimed again, and is off as soon as nothing of it is outstanding. */
  lemma {:induction false} DisabledForGood(start: System, before: seq<Action>, after: seq<Action>, k: nat, limit: nat)
    requires Registered(start) && k < |start.tasks|
    ensures Shaped(Exec(start, before)) && Shaped(Next(Exec(start, before), Disable(k)))
    ensures var t := Exec(Next(Exec(start, before), Disable(k)), after);
            Shaped(t) && k < |t.tasks| && k !in SelectedIds(t.tasks, limit, t.clock) &&
            (!Outstanding(t.history[k]) ==> t.tasks[k].status.Off?)
  {
    TaskOkOnRuns(start, before, k);
    var s := Exec(start, before);
    TaskOkKept(s, Disable(k), k);
    RetiredOnRuns(Next(s, Disable(k)), after, k);
    var t := Exec(Next(s, Disable(k)), after);
    SelectedAreDue(t.tasks, limit, t.clock);
  }

  /** A claim becomes exactly one open order of its task, which is then queued; no other task changes. */
  lemma {:induction false} ClaimBecomesOrder(s: System, k: nat, created: Orders.Order)
    requires Shaped(s) && k < |s.tasks| && s.pending[k] > 0 && Orders.Fresh(created)
    ensures var t := Next(s, Enqueue(k, created));
            t.pending == s.pending[k := s.pending[k] - 1] &&
            OpenOrders(t.orders, k) == OpenOrders(s.orders, k) + 1 &&
            t.tasks == s.tasks[k := s.tasks[k].(status := Queued)]
  {
    assert (s.orders + [TaskOrder(k, created)])[..|s.orders|] == s.orders;
  }
}
