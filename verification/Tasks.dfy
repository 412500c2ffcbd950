/**
  Recurring scheduled tasks: claiming the due ones (api/api/scheduled_tasks.py), the order each
  claim leads to, and the completion that order reports back (api/api/cook.py). Tasks are
  addressed by their position, which stands for the id.
*/
module Tasks {
  import opened Wrappers
  import opened Ordering
  import Orders

  const SECOND := 1_000_000

  datatype TaskStatus = Idle | Queued | Off

  datatype Task = Task(
    status: TaskStatus, enabled: bool, nextRunAt: Option<int>, interval: int, priority: int,
    failures: nat, lastStartedAt: Option<int>, lastCompletedAt: Option<int>)

  // ---- Claiming the due tasks ------------------------------------------------------

  predicate Due(t: Task, now: int) {
    t.enabled && t.status.Idle? && t.nextRunAt.Some? && t.nextRunAt.value <= now
  }

  /** A due task as the query sorts it: (priority, next_run_at, id). */
  datatype Entry = Entry(id: nat, task: Task)

  function EntryKey(e: Entry): Key {
    [e.task.priority, if e.task.nextRunAt.Some? then e.task.nextRunAt.value else 0, e.id]
  }

  function DueEntries(tasks: seq<Task>, now: int): seq<Entry> {
    if tasks == [] then []
    else
      var n := |tasks| - 1;
      DueEntries(tasks[..n], now) + (if Due(tasks[n], now) then [Entry(n, tasks[n])] else [])
  }

  function Selected(tasks: seq<Task>, limit: nat, now: int): seq<Entry> {
    var sorted := SortBy(DueEntries(tasks, now), EntryKey);
    if |sorted| <= limit then sorted else sorted[..limit]
  }

  function Named(rows: seq<Entry>): set<nat> {
    set e | e in rows :: e.id
  }

  function SelectedIds(tasks: seq<Task>, limit: nat, now: int): set<nat> {
    Named(Selected(tasks, limit, now))
  }

  function Claimed(t: Task, now: int): Task {
    t.(status := Queued, lastStartedAt := Some(now))
  }

  /** The task after an order injected for it ended. */
  function Finished(t: Task, succeeded: bool, now: int): Task {
    t.(status := if t.enabled then Idle else Off,
       lastCompletedAt := Some(now),
       failures := if succeeded then 0 else t.failures + 1,
       nextRunAt := if t.enabled then Some(now + (if t.interval < 1 then 1 else t.interval) * SECOND) else None)
  }

  /** The task after an operator asked for an immediate run. */
  function RunRequested(t: Task, now: int): Task {
    if t.enabled && t.status.Idle? then t.(nextRunAt := Some(now)) else t
  }

  datatype RunNowReply = NotFound | Disabled | AlreadyQueued | Conflict | Requested

  /** The tasks after a claim. */
  function AfterClaim(tasks: seq<Task>, ids: set<nat>, now: int): (r: seq<Task>) {
    seq(|tasks|, k requires 0 <= k < |tasks| => if k in ids then Claimed(tasks[k], now) else tasks[k])
  }

  class TaskTable {
    var tasks: seq<Task>

    constructor (tasks: seq<Task>)
      ensures this.tasks == tasks
    {
      this.tasks := tasks;
    }

    /** `claim_due_scheduled_tasks` */
    method ClaimDue(limit: nat, now: int) returns (claimed: seq<nat>)
      modifies this
      ensures tasks == AfterClaim(old(tasks), SelectedIds(old(tasks), limit, now), now)
      ensures |claimed| == |Selected(old(tasks), limit, now)|
      ensures forall i :: 0 <= i < |claimed| ==> claimed[i] == Selected(old(tasks), limit, now)[i].id
    {
      ghost var before := tasks;
      var rows := Selected(tasks, limit, now);
      SelectedAreDue(tasks, limit, now);
      claimed := [];
      for i := 0 to |rows|
        invariant |claimed| == i && forall j :: 0 <= j < i ==> claimed[j] == rows[j].id
        invariant tasks == AfterClaim(before, Named(rows[..i]), now)
      {
        var id := rows[i].id;
        assert rows[i] in rows;
        NamedOneMore(rows, i);
        ClaimOneMore(before, Named(rows[..i]), id, now);
        tasks := tasks[id := Claimed(tasks[id], now)];
        claimed := claimed + [id];
      }
      assert rows[..|rows|] == rows;
    }

    /** `request_scheduled_task_run_now`, for a task whose kind and identity allow it */
    method RequestRunNow(k: nat, now: int) returns (reply: RunNowReply)
      modifies this
      ensures tasks == if k < |old(tasks)| then old(tasks)[k := RunRequested(old(tasks)[k], now)] else old(tasks)
      ensures reply.NotFound? <==> k >= |tasks|
      ensures k < |tasks| ==> (reply.Requested? <==> old(tasks)[k].enabled && old(tasks)[k].status.Idle?)
      ensures reply.Disabled? <==> k < |tasks| && !tasks[k].enabled
      ensures reply.AlreadyQueued? <==> k < |tasks| && tasks[k].enabled && tasks[k].status.Queued?
    {
      if k >= |tasks| {
        return NotFound;
      }
      if !tasks[k].enabled {
        return Disabled;
      }
      if tasks[k].status.Queued? {
        return AlreadyQueued;
      }
      if !tasks[k].status.Idle? {
        return Conflict;
      }
      tasks := tasks[k := tasks[k].(nextRunAt := Some(now))];
      return Requested;
    }

    /** `_finalize_scheduled_task_for_order`, called with the order's terminal status */
    method FinalizeForOrder(k: nat, succeeded: bool, now: int)
      modifies this
      ensures tasks == if k < |old(tasks)| then old(tasks)[k := Finished(old(tasks)[k], succeeded, now)] else old(tasks)
    {
      if k >= |tasks| {
        return;
      }
      var t := tasks[k];
      t := t.(status := if t.enabled then Idle else Off);
      t := t.(lastCompletedAt := Some(now));
      if succeeded {
        t := t.(failures := 0);
      } else {
        t := t.(failures := t.failures + 1);
      }
      if t.enabled {
        t := t.(nextRunAt := Some(now + (if t.interval < 1 then 1 else t.interval) * SECOND));
      } else {
        t := t.(nextRunAt := None);
      }
      tasks := tasks[k := t];
    }
  }

  lemma {:induction false} NamedOneMore(rows: seq<Entry>, i: nat)
    requires i < |rows|
    ensures Named(rows[..i + 1]) == Named(rows[..i]) + {rows[i].id}
  {
    assert rows[..i + 1] == rows[..i] + [rows[i]];
  }

  lemma {:induction false} ClaimOneMore(tasks: seq<Task>, ids: set<nat>, id: nat, now: int)
    requires id < |tasks|
    ensures var t := AfterClaim(tasks, ids, now);
            t[id := Claimed(t[id], now)] == AfterClaim(tasks, ids + {id}, now)
  {
  }

  lemma {:induction false} DueEntriesMeaning(tasks: seq<Task>, now: int)
    ensures forall e :: e in DueEntries(tasks, now) <==> e.id < |tasks| && e.task == tasks[e.id] && Due(e.task, now)
  {
    if tasks != [] {
      var n := |tasks| - 1;
      DueEntriesMeaning(tasks[..n], now);
      forall e ensures e in DueEntries(tasks, now) <==> e.id < |tasks| && e.task == tasks[e.id] && Due(e.task, now) {
        if e.id < n { assert tasks[..n][e.id] == tasks[e.id]; }
      }
    }
  }

  lemma {:induction false} SelectedAreDue(tasks: seq<Task>, limit: nat, now: int)
    ensures forall e :: e in Selected(tasks, limit, now) ==> e.id < |tasks| && e.task == tasks[e.id] && Due(e.task, now)
    ensures forall k :: k in SelectedIds(tasks, limit, now) ==> k < |tasks| && Due(tasks[k], now)
  {
    var all := DueEntries(tasks, now);
    DueEntriesMeaning(tasks, now);
    SortByCorrect(all, EntryKey);
    forall e | e in Selected(tasks, limit, now) ensures e in all { assert e in SortBy(all, EntryKey); }
  }

  lemma {:induction false} EntriesDiffer(a: Entry, b: Entry)
    requires a.id != b.id && !Less(EntryKey(b), EntryKey(a))
    ensures Less(EntryKey(a), EntryKey(b))
  {
    LessTotal(EntryKey(a), EntryKey(b));
    assert EntryKey(a)[2] == a.id && EntryKey(b)[2] == b.id;
  }

  /**
    What a claim takes: only due tasks, at most `limit`, and it passes over a due task only when
    the limit is reached by tasks that come before it in (priority, next_run_at, id).
  */
  lemma {:induction false} SelectedMeaning(tasks: seq<Task>, limit: nat, now: int, k: nat)
    requires k < |tasks| && Due(tasks[k], now) && k !in SelectedIds(tasks, limit, now)
    ensures |Selected(tasks, limit, now)| == limit
    ensures forall e :: e in Selected(tasks, limit, now) ==> Less(EntryKey(e), EntryKey(Entry(k, tasks[k])))
  {
    var all := DueEntries(tasks, now);
    var sorted := SortBy(all, EntryKey);
    var selected := Selected(tasks, limit, now);
    var passed := Entry(k, tasks[k]);
    DueEntriesMeaning(tasks, now);
    SortByCorrect(all, EntryKey);
    assert passed in sorted && passed !in selected;
    var p :| 0 <= p < |sorted| && sorted[p] == passed;
    assert |selected| <= p;
    forall e | e in selected ensures Less(EntryKey(e), EntryKey(passed)) {
      var q :| 0 <= q < |selected| && selected[q] == e;
      assert sorted[q] == e && q < p && e.id in SelectedIds(tasks, limit, now);
      EntriesDiffer(e, passed);
    }
  }

  // ---- Runs ---------------------------------------------------------------------------

  /** A task's history: claims, and completions by the order they came from. */
  datatype Event = Claim | Completion(order: nat, succeeded: bool)

  /** An order injected for a task. */
  datatype TaskOrder = TaskOrder(task: nat, order: Orders.Order) {
    predicate Open() {
      !order.status.Terminal()
    }
  }

  /**
    What happens to such an order. The webhook looks orders up by the alert's fingerprint; a scheduled
    order carries its own request id as fingerprint (kitchen/dishwasher.py:529, 543), so it gets no alerts.
  */
  type OrderStep = a: Orders.Action | !a.AlertResolved? && !a.AlertFiring? witness Orders.TouchDish(0)

  /** `pending[k]`: claims of task k handed to the Dishwasher and not yet turned into an order. */
  datatype System = System(clock: int, tasks: seq<Task>, pending: seq<nat>, orders: seq<TaskOrder>,
                           history: seq<seq<Event>>)

  datatype Action =
    | Tick(micros: nat)
    | ClaimDue(limit: nat)
    | Enqueue(task: nat, created: Orders.Order)
    | StepOrder(order: nat, step: OrderStep)
    | RunNow(requested: nat)
    | Disable(disabled: nat)

  predicate Shaped(s: System) {
    |s.pending| == |s.tasks| && |s.history| == |s.tasks| &&
    forall i :: 0 <= i < |s.orders| ==> s.orders[i].task < |s.tasks|
  }

  function Next(s: System, a: Action): System
    requires Shaped(s)
  {
    match a
    case Tick(micros) => s.(clock := s.clock + micros)
    case ClaimDue(limit) =>
      var ids := SelectedIds(s.tasks, limit, s.clock);
      s.(tasks := AfterClaim(s.tasks, ids, s.clock),
         pending := seq(|s.tasks|, k requires 0 <= k < |s.tasks| =>
           if k in ids then s.pending[k] + 1 else s.pending[k]),
         history := seq(|s.tasks|, k requires 0 <= k < |s.tasks| =>
           if k in ids then s.history[k] + [Claim] else s.history[k]))
    case Enqueue(k, created) =>
      if k < |s.tasks| && s.pending[k] > 0 && Orders.Fresh(created) then
        s.(tasks := s.tasks[k := s.tasks[k].(status := Queued)],
           pending := s.pending[k := s.pending[k] - 1],
           orders := s.orders + [TaskOrder(k, created)])
      else s
    case StepOrder(i, step) =>
      if i < |s.orders| then
        var k := s.orders[i].task;
        var moved := s.(orders := s.orders[i := TaskOrder(k, Orders.Next(s.orders[i].order, step))]);
        if !Orders.Completes(s.orders[i].order, step) then moved
        else
          var succeeded := step.FinalizeDish? && step.status.DishComplete?;
          moved.(tasks := s.tasks[k := Finished(s.tasks[k], succeeded, s.clock)],
                 history := s.history[k := s.history[k] + [Completion(i, succeeded)]])
      else s
    case RunNow(k) => if k < |s.tasks| then s.(tasks := s.tasks[k := RunRequested(s.tasks[k], s.clock)]) else s
    case Disable(k) =>
      if k < |s.tasks| then s.(tasks := s.tasks[k := s.tasks[k].(enabled := false, status := Off)]) else s
  }

  lemma {:induction false} ShapedKept(s: System, a: Action)
    requires Shaped(s)
    ensures Shaped(Next(s, a))
  {
    match a
    case StepOrder(_, _) =>
      forall j | 0 <= j < |Next(s, a).orders| ensures Next(s, a).orders[j].task < |s.tasks| {
        assert s.orders[j].task < |s.tasks|;
      }
    case _ =>
  }

  function Exec(s: System, run: seq<Action>): System
    requires Shaped(s)
    decreases |run|
  {
    if run == [] then s
    else
      ShapedKept(s, run[0]);
      Exec(Next(s, run[0]), run[1..])
  }

  /** Registered tasks before any claim. */
  predicate Registered(s: System) {
    Shaped(s) && s.orders == [] &&
    (forall k :: 0 <= k < |s.tasks| ==> s.pending[k] == 0 && s.history[k] == [] && s.tasks[k].failures == 0) &&
    (forall k :: 0 <= k < |s.tasks| && s.tasks[k].enabled ==> s.tasks[k].status.Idle? && s.tasks[k].nextRunAt.Some?)
  }

  function OpenOrders(orders: seq<TaskOrder>, k: nat): nat {
    if orders == [] then 0
    else OpenOrders(orders[..|orders| - 1], k) +
         (if orders[|orders| - 1].Open() && orders[|orders| - 1].task == k then 1 else 0)
  }

  /** The trailing failures of a history. */
  function FailingSuffix(history: seq<Event>): nat {
    if history == [] then 0
    else
      var rest, last := history[..|history| - 1], history[|history| - 1];
      if last.Claim? then FailingSuffix(rest)
      else if last.succeeded then 0
      else FailingSuffix(rest) + 1
  }

  /** Claims and completions strictly alternate, a claim first. */
  predicate Alternates(history: seq<Event>) {
    forall i :: 0 <= i < |history| ==> (history[i].Claim? <==> i % 2 == 0)
  }

  predicate Outstanding(history: seq<Event>) {
    history != [] && history[|history| - 1].Claim?
  }

  /** Every completion in the history is the only one of its order, which has ended. */
  predicate CompletedOnce(history: seq<Event>, orders: seq<TaskOrder>, k: nat) {
    (forall i :: 0 <= i < |history| && history[i].Completion? ==>
      history[i].order < |orders| && !orders[history[i].order].Open() && orders[history[i].order].task == k) &&
    (forall i, j :: 0 <= i < j < |history| && history[i].Completion? && history[j].Completion? ==>
      history[i].order != history[j].order)
  }

  predicate TaskOk(s: System, k: nat)
    requires Shaped(s) && k < |s.tasks|
  {
    Alternates(s.history[k]) && CompletedOnce(s.history[k], s.orders, k) &&
    s.tasks[k].failures == FailingSuffix(s.history[k]) &&
    s.pending[k] + OpenOrders(s.orders, k) == (if Outstanding(s.history[k]) then 1 else 0) &&
    (Outstanding(s.history[k]) ==> !s.tasks[k].status.Idle?) &&
    (s.tasks[k].enabled && !Outstanding(s.history[k]) ==> s.tasks[k].status.Idle? && s.tasks[k].nextRunAt.Some?)
  }

  lemma {:induction false} OpenOrdersOfMoved(orders: seq<TaskOrder>, i: nat, after: TaskOrder, k: nat)
    requires i < |orders| && after.task == orders[i].task
    ensures OpenOrders(orders[i := after], k) + (if orders[i].Open() && orders[i].task == k then 1 else 0) ==
            OpenOrders(orders, k) + (if after.Open() && after.task == k then 1 else 0)
  {
    var n, moved := |orders| - 1, orders[i := after];
    if i < n {
      assert moved[..n] == orders[..n][i := after];
      OpenOrdersOfMoved(orders[..n], i, after, k);
    } else {
      assert moved[..n] == orders[..n];
    }
  }

  lemma {:induction false} AppendClaim(history: seq<Event>, orders: seq<TaskOrder>, k: nat)
    requires Alternates(history) && CompletedOnce(history, orders, k) && !Outstanding(history)
    ensures var longer := history + [Claim];
            Alternates(longer) && CompletedOnce(longer, orders, k) && Outstanding(longer) &&
            FailingSuffix(longer) == FailingSuffix(history)
  {
    assert (history + [Claim])[..|history|] == history;
  }

  lemma {:induction false} AppendCompletion(history: seq<Event>, orders: seq<TaskOrder>, k: nat, i: nat,
                                            after: TaskOrder, succeeded: bool)
    requires Alternates(history) && CompletedOnce(history, orders, k) && Outstanding(history)
    requires i < |orders| && orders[i].task == after.task == k && orders[i].Open() && !after.Open()
    ensures var longer := history + [Completion(i, succeeded)];
            Alternates(longer) && CompletedOnce(longer, orders[i := after], k) && !Outstanding(longer) &&
            FailingSuffix(longer) == (if succeeded then 0 else FailingSuffix(history) + 1)
  {
    assert (history + [Completion(i, succeeded)])[..|history|] == history;
  }

  lemma {:induction false} OutstandingWhileOpen(orders: seq<TaskOrder>, i: nat, k: nat)
    requires i < |orders| && orders[i].task == k && orders[i].Open()
    ensures OpenOrders(orders, k) >= 1
  {
    if i < |orders| - 1 {
      OutstandingWhileOpen(orders[..|orders| - 1], i, k);
    }
  }

  lemma {:induction false} ClaimKeeps(s: System, limit: nat, k: nat)
    requires Shaped(s) && k < |s.tasks| && TaskOk(s, k)
    ensures Shaped(Next(s, ClaimDue(limit))) && TaskOk(Next(s, ClaimDue(limit)), k)
  {
    SelectedAreDue(s.tasks, limit, s.clock);
    if k in SelectedIds(s.tasks, limit, s.clock) {
      AppendClaim(s.history[k], s.orders, k);
    }
  }

  lemma {:induction false} AppendOrder(history: seq<Event>, orders: seq<TaskOrder>, k: nat, created: TaskOrder)
    requires CompletedOnce(history, orders, k) && created.Open()
    ensures var more := orders + [created];
            CompletedOnce(history, more, k) &&
            OpenOrders(more, k) == OpenOrders(orders, k) + (if created.task == k then 1 else 0)
  {
    assert (orders + [created])[..|orders|] == orders;
  }

  lemma {:induction false} EnqueueKeeps(s: System, e: nat, created: Orders.Order, k: nat)
    requires Shaped(s) && k < |s.tasks| && TaskOk(s, k)
    ensures Shaped(Next(s, Enqueue(e, created))) && TaskOk(Next(s, Enqueue(e, created)), k)
  {
    if Orders.Fresh(created) { AppendOrder(s.history[k], s.orders, k, TaskOrder(e, created)); }
    var t := Next(s, Enqueue(e, created));
    assert t.history == s.history;
    assert t.orders == s.orders || t.orders == s.orders + [TaskOrder(e, created)];
  }

  /** An order that ended stays ended, since no alert reaches it. */
  lemma {:induction false} EndedStaysEnded(o: Orders.Order, step: OrderStep)
    requires o.status.Terminal()
    ensures Orders.Next(o, step).status.Terminal()
  {}

  lemma {:induction false} CompletedOnceMoved(history: seq<Event>, orders: seq<TaskOrder>, k: nat, i: nat,
                                              after: TaskOrder)
    requires CompletedOnce(history, orders, k) && i < |orders| && after.task == orders[i].task
    requires !orders[i].Open() ==> !after.Open()
    ensures CompletedOnce(history, orders[i := after], k)
  {}

  /** A step that does not end the order. */
  lemma {:induction false} MoveKeeps(s: System, i: nat, step: OrderStep, k: nat)
    requires Shaped(s) && k < |s.tasks| && TaskOk(s, k)
    requires i < |s.orders| && !Orders.Completes(s.orders[i].order, step)
    ensures Shaped(Next(s, StepOrder(i, step))) && TaskOk(Next(s, StepOrder(i, step)), k)
  {
    var before := s.orders[i];
    var after := TaskOrder(before.task, Orders.Next(before.order, step));
    ShapedKept(s, StepOrder(i, step));
    if !before.Open() { EndedStaysEnded(before.order, step); }
    OpenOrdersOfMoved(s.orders, i, after, k);
    CompletedOnceMoved(s.history[k], s.orders, k, i, after);
  }

  /** The step that ends the order. */
  lemma {:induction false} CompletionKeeps(s: System, i: nat, step: OrderStep, k: nat)
    requires Shaped(s) && k < |s.tasks| && TaskOk(s, k)
    requires i < |s.orders| && Orders.Completes(s.orders[i].order, step)
    ensures Shaped(Next(s, StepOrder(i, step))) && TaskOk(Next(s, StepOrder(i, step)), k)
  {
    var before := s.orders[i];
    var after := TaskOrder(before.task, Orders.Next(before.order, step));
    ShapedKept(s, StepOrder(i, step));
    OpenOrdersOfMoved(s.orders, i, after, k);
    if before.task == k {
      OutstandingWhileOpen(s.orders, i, k);
      AppendCompletion(s.history[k], s.orders, k, i, after, step.FinalizeDish? && step.status.DishComplete?);
    } else {
      CompletedOnceMoved(s.history[k], s.orders, k, i, after);
    }
  }

  lemma {:induction false} StepKeeps(s: System, i: nat, step: OrderStep, k: nat)
    requires Shaped(s) && k < |s.tasks| && TaskOk(s, k)
    ensures Shaped(Next(s, StepOrder(i, step))) && TaskOk(Next(s, StepOrder(i, step)), k)
  {
    if i < |s.orders| {
      if Orders.Completes(s.orders[i].order, step) {
        CompletionKeeps(s, i, step, k);
      } else {
        MoveKeeps(s, i, step, k);
      }
    }
  }

  lemma {:induction false} TaskOkKept(s: System, a: Action, k: nat)
    requires Shaped(s) && k < |s.tasks| && TaskOk(s, k)
    ensures Shaped(Next(s, a)) && |Next(s, a).tasks| == |s.tasks| && TaskOk(Next(s, a), k)
  {
    match a
    case ClaimDue(limit) => ClaimKeeps(s, limit, k);
    case Enqueue(e, created) => EnqueueKeeps(s, e, created, k);
    case StepOrder(i, step) => StepKeeps(s, i, step, k);
    case Tick(_) =>
    case RunNow(_) =>
    case Disable(_) =>
  }

  lemma {:induction false} TaskOkOnRuns(s: System, run: seq<Action>, k: nat)
    requires Shaped(s) && k < |s.tasks| && TaskOk(s, k)
    ensures Shaped(Exec(s, run)) && k < |Exec(s, run).tasks| && TaskOk(Exec(s, run), k)
    decreases |run|
  {
    if run != [] {
      TaskOkKept(s, run[0], k);
      TaskOkOnRuns(Next(s, run[0]), run[1..], k);
    }
  }

  /**
    Over every run of claims, injected orders with all their dispatches and finalizations, run-now
    requests and disablings: between two claims of a task lies exactly one completion, at most one
    claim is outstanding, no order completes its task twice, and the failure counter is the length of
    the failing suffix. A task that is still enabled waits with a next run time exactly when nothing
    of it is outstanding.
  */
  lemma {:induction false} RecurringTaskDiscipline(s: System, run: seq<Action>, k: nat)
    requires Registered(s) && k < |s.tasks|
    ensures Shaped(Exec(s, run)) && k < |Exec(s, run).tasks|
    ensures var t := Exec(s, run);
            Alternates(t.history[k]) && CompletedOnce(t.history[k], t.orders, k) &&
            t.pending[k] + OpenOrders(t.orders, k) <= 1 &&
            t.tasks[k].failures == FailingSuffix(t.history[k]) &&
            (t.tasks[k].enabled ==>
              (t.tasks[k].status.Idle? <==> !Outstanding(t.history[k])) &&
              (t.tasks[k].status.Idle? ==> t.tasks[k].nextRunAt.Some?))
  {
    TaskOkOnRuns(s, run, k);
  }
}
