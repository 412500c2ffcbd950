/** What a row keeps of the requests made of it: handover, leases, and the answers of the runner and the Timer. */
module RowTheorems {
  import opened Wrappers
  import opened Text
  import opened Json
  import opened Execution
  import opened Rows

  // ---- Transitions ----------------------------------------------------------------------

  function Stage(status: Status): nat {
    match status
    case Pending => 0
    case Dispatched => 1
    case Running => 2
    case _ => 3
  }

  /** A status moves only forward, and not at all once it is terminal. */
  lemma {:induction false} TransitionsGoForward(current: Status, requested: Status)
    ensures requested in Transitions(current) <==>
            if current.Terminal() then requested == current else Stage(current) <= Stage(requested)
  {
    assert requested in ALL_STATUSES;
  }

  // ---- Dispatch and leases ----------------------------------------------------------------

  /**
    A dispatched row is the runner's: its receipt leads back to it, it cannot be dispatched again, the
    Timer may not touch it.
  */
  lemma {:induction false} DispatchHandsOver(row: Row, now: int, p: Payload, later: int)
    ensures MarkedReady(row, now).Ok? <==> row.status.Pending? && row.startedAt.None? && row.claimedAt.None?
    ensures MarkedReady(row, now).Ok? ==>
              var started := MarkedReady(row, now).value;
              started.status.Running? && started.startedAt == Some(now) && started.claimedAt.None? &&
              started.updatedAt == now &&
              started.outcome.JObj? && Get(started.outcome.fields, "status") == JStr("running") &&
              Get(started.outcome.fields, "receipt_owner") == JStr("expediter-runner") &&
              Get(started.outcome.fields, "dish_ingredient_id") == JNum(row.step.id as real) &&
              started.execId.Some? && RowIdFromReceipt(started.execId.value) == Some(row.step.id) &&
              MarkedReady(started, later) == Err(NotReady) && TimerReconciled(started, p, later) == Err(NotOwner) &&
              (RunnerReconciled(started, p, later).Ok? <==>
               p.status.Some? ==> !(p.status.value.Pending? || p.status.value.Dispatched?))
  {
    RunnerReceiptRecognised(row.step.id);
    ReceiptRoundTrip(row.step.id);
  }

  /** A claimed row, by whichever endpoint it was claimed. */
  predicate ClaimedRow(row: Row, after: Row, who: string, now: int) {
    after == row.(status := Running, claimedAt := Some(now), claimedBy := Some(who), updatedAt := now)
  }

  /**
    A claim keeps everyone out for the lock timeout, its owner too; only its owner can give it back, and
    then it is free.
  */
  lemma {:induction false} ClaimHolds(row: Row, after: Row, who: string, now: int, other: string, later: int,
                                      lockTimeout: nat)
    requires ClaimedRow(row, after, who, now)
    ensures PollClaimed(after, other, later, lockTimeout).Ok? <==> later - now > lockTimeout * SECOND
    ensures Released(after, other, later).Ok? <==> other == who
    ensures Released(after, who, later).Ok? &&
            var freed := Released(after, who, later).value;
            freed == after.(claimedAt := None, claimedBy := None, updatedAt := later) &&
            PollClaimed(freed, other, later, lockTimeout).Ok?
  {}

  /** When the Timer's claim succeeds, when the runner's does, and when a release does. */
  lemma {:induction false} ClaimsExactly(row: Row, who: string, plugin: Option<Plugin>, now: int, lockTimeout: nat)
    ensures PollClaimed(row, who, now, lockTimeout).Ok? <==>
            row.status.InFlight() && (row.claimedAt.Some? ==> now - row.claimedAt.value > lockTimeout * SECOND)
    ensures ExecutionClaimed(row, who, plugin, now, lockTimeout).Ok? <==>
            PollClaimed(row, who, now, lockTimeout).Ok? && IsRunnerReceipt(row.execId) &&
            RunnerClaimable(row, plugin, now)
    ensures PollClaimed(row, who, now, lockTimeout).Ok? ==>
              ClaimedRow(row, PollClaimed(row, who, now, lockTimeout).value, who, now)
    ensures ExecutionClaimed(row, who, plugin, now, lockTimeout).Ok? ==>
              ExecutionClaimed(row, who, plugin, now, lockTimeout) == PollClaimed(row, who, now, lockTimeout)
    ensures Released(row, who, now).Ok? <==> row.status.Running? && row.claimedBy == Some(who)
  {}

  /** More than its timeout has passed since the row started. */
  predicate Overdue(row: Row, now: int) {
    row.startedAt.Some? && row.step.timeout.Some? && row.step.timeout.value > 0 &&
    now - row.startedAt.value > row.step.timeout.value * SECOND
  }

  /**
    Which rows the runner may call: an overdue row always and for good; any other only through an enabled
    plugin, which must be in working order unless the call is the health check that finds that out.
  */
  lemma {:induction false} CallableExactly(row: Row, plugin: Option<Plugin>, now: int, later: nat)
    ensures Overdue(row, now) ==>
              RunnerClaimable(row, plugin, now) && RunnerClaimable(row, None, now + later)
    ensures !Overdue(row, now) && (plugin.None? || !plugin.value.enabled) ==> !RunnerClaimable(row, plugin, now)
    ensures !Overdue(row, now) && plugin.Some? && plugin.value.enabled ==>
              (RunnerClaimable(row, plugin, now) <==>
               plugin.value.health in {Healthy, Degraded} || Strip(row.step.serviceExec) == "health_check")
  {}

  // ---- What is stored of an answer --------------------------------------------------------

  /** Whole seconds from the start to the end, none when the clocks disagree. */
  ghost predicate Measures(runTime: Option<int>, startedAt: int, now: int) {
    runTime.Some? && runTime.value >= 0 &&
    if now < startedAt then runTime.value == 0
    else runTime.value * SECOND <= now - startedAt < (runTime.value + 1) * SECOND
  }

  /** The row after its end: judged on the outcome it shows, timed, free of claims, everything else as it was. */
  ghost predicate EndedRow(row: Row, after: Row, requested: Status, now: int) {
    after.step == row.step && after.startedAt == row.startedAt &&
    Judged(requested, row.step.expected, after.outcome, after.status) &&
    after.completedAt == Some(now) && after.updatedAt == now && after.claimedAt.None? && after.claimedBy.None? &&
    (row.startedAt.Some? ==> Measures(after.runTime, row.startedAt.value, now)) &&
    (row.startedAt.None? ==> after.runTime == row.runTime) &&
    (after.slaExceeded <==> row.step.expectedSecs.Some? && row.step.expectedSecs.value > 0 &&
                            after.runTime.Some? && after.runTime.value > row.step.expectedSecs.value)
  }

  lemma {:induction false} RuntimeMeasures(startedAt: int, now: int)
    ensures Measures(RuntimeSeconds(Some(startedAt), Some(now)), startedAt, now)
  {}

  lemma {:induction false} AppliedEnds(row: Row, p: Payload, now: int)
    requires Applied(row, p, now).Ok? && p.status.Some? && p.status.value.Terminal()
    requires p.completedAt == Set(Some(now))
    requires p.runTime == if row.startedAt.Some? then Set(RuntimeSeconds(row.startedAt, Some(now))) else Unset
    ensures EndedRow(row, Applied(row, p, now).value, p.status.value, now)
  {
    var after := Applied(row, p, now).value;
    VerdictMeaning(p.status.value, row.step.expected, after.outcome);
    VerdictClosure(p.status.value, row.step.expected, after.outcome);
    if row.startedAt.Some? { RuntimeMeasures(row.startedAt.value, now); }
  }

  /** The context updates an outcome shows. */
  function Updates(outcome: Json): map<string, Json> {
    if StoredUpdates(outcome).JObj? then StoredUpdates(outcome).fields else map[]
  }

  /** Of two sets of updates both are kept, the newer value where they collide. */
  ghost predicate Joined(all: map<string, Json>, older: map<string, Json>, newer: map<string, Json>) {
    all.Keys == older.Keys + newer.Keys &&
    forall k :: k in all ==> all[k] == if k in newer then newer[k] else older[k]
  }

  function BodyUpdates(body: Body): map<string, Json> {
    if body.contextUpdates.JObj? then body.contextUpdates.fields else map[]
  }

  lemma {:induction false} UpdatesOf(fields: map<string, Json>, updates: map<string, Json>)
    requires updates != map[]
    ensures Updates(JObj(fields[CONTEXT_KEY := JObj(updates)])) == updates
  {}

  /** An outcome that says nothing. */
  predicate Nothing(j: Json) {
    j in {JNull, JBool(false), JNum(0.0), JStr(""), JArr([]), JObj(map[])}
  }

  /** A final answer: what the row shows is what the service answered, with every context update so far. */
  lemma {:induction false} FinalAnswerStored(row: Row, seen: Row, body: Body, now: int)
    requires body.status.Terminal() && seen.startedAt == row.startedAt
    requires RunnerReconciled(row, RunnerPayload(seen, body, now), now).Ok?
    ensures var after := RunnerReconciled(row, RunnerPayload(seen, body, now), now).value;
            EndedRow(row, after, body.status, now) && after.error == body.error && after.canceledAt == row.canceledAt &&
            after.execId == (if body.execId.Some? && body.execId.value != "" then body.execId else seen.execId) &&
            var answer := if Nothing(body.outcome) then body.raw else body.outcome;
            (!answer.JObj? ==> after.outcome.JNull?) &&
            (answer.JObj? ==>
              after.outcome.JObj? &&
              (forall k :: k != "_context_updates" ==>
                (k in after.outcome.fields <==> k in answer.fields) &&
                Get(after.outcome.fields, k) == Get(answer.fields, k)) &&
              (Updates(seen.outcome) != map[] || BodyUpdates(body) != map[] ==>
                Joined(Updates(after.outcome), Updates(seen.outcome), BodyUpdates(body))) &&
              (Updates(seen.outcome) == map[] && BodyUpdates(body) == map[] ==> after.outcome == answer))
  {
    var p := RunnerPayload(seen, body, now);
    AppliedEnds(row, p, now);
    var answer := if Nothing(body.outcome) then body.raw else body.outcome;
    var updates := MergedUpdates(seen, body);
    if answer.JObj? && updates != map[] { UpdatesOf(answer.fields, updates); }
  }

  /** An answer before the end: the row runs on under its receipt, and shows every context update so far. */
  lemma {:induction false} ProgressStored(row: Row, seen: Row, body: Body, now: int)
    requires body.status.InFlight() && !row.status.Terminal()
    requires RunnerReconciled(row, RunnerPayload(seen, body, now), now).Ok?
    ensures var after := RunnerReconciled(row, RunnerPayload(seen, body, now), now).value;
            after.status.Running? && after.error == body.error && after.step == row.step && after.updatedAt == now &&
            after.startedAt == row.startedAt && after.completedAt == row.completedAt &&
            after.canceledAt == row.canceledAt &&
            after.claimedAt == row.claimedAt && after.claimedBy == row.claimedBy &&
            after.execId == (if body.execId.Some? && body.execId.value != "" then body.execId else seen.execId) &&
            if Updates(seen.outcome) == map[] && BodyUpdates(body) == map[] then after.outcome == row.outcome
            else Joined(Updates(after.outcome), Updates(seen.outcome), BodyUpdates(body))
  {
    var updates := MergedUpdates(seen, body);
    if updates != map[] {
      UpdatesOf(map[], updates);
      assert map[][CONTEXT_KEY := JObj(updates)] == map[CONTEXT_KEY := JObj(updates)];
    }
  }

  /** A call that raised ends the row as errored, unless an error is what is expected. */
  lemma {:induction false} CallErrorStored(row: Row, seen: Row, detail: string, now: int)
    requires seen.startedAt == row.startedAt && RunnerReconciled(row, RunnerErrorPayload(seen, detail, now), now).Ok?
    ensures var after := RunnerReconciled(row, RunnerErrorPayload(seen, detail, now), now).value;
            EndedRow(row, after, Errored, now) && after.error == Some(detail) && after.execId == row.execId &&
            after.outcome.JObj? && Get(after.outcome.fields, "status") == JStr("errored") &&
            Get(after.outcome.fields, "detail") == JStr(detail)
  {
    AppliedEnds(row, RunnerErrorPayload(seen, detail, now), now);
  }

  /** A Timer report: the adapter's outcome, with the updates the row carried under those the adapter gave. */
  lemma {:induction false} TimerReportStored(row: Row, seen: Row, status: Status, outcome: Json, error: Option<string>,
                                             canceling: bool, now: int)
    requires status.Terminal() && seen.startedAt == row.startedAt
    requires TimerReconciled(row, TimerPayload(seen, status, outcome, error, canceling, now), now).Ok?
    ensures var after := TimerReconciled(row, TimerPayload(seen, status, outcome, error, canceling, now), now).value;
            EndedRow(row, after, status, now) && after.error == error && after.execId == row.execId &&
            after.canceledAt == (if canceling then Some(now) else row.canceledAt) &&
            (Updates(seen.outcome) == map[] ==> after.outcome == outcome) &&
            (Updates(seen.outcome) != map[] ==>
              after.outcome.JObj? &&
              (outcome.JObj? ==>
                forall k :: k != "_context_updates" ==> Get(after.outcome.fields, k) == Get(outcome.fields, k)) &&
              Joined(Updates(after.outcome), Updates(seen.outcome),
                     if outcome.JObj? && Get(outcome.fields, "_context_updates").JObj?
                     then Get(outcome.fields, "_context_updates").fields else map[]))
  {
    AppliedEnds(row, TimerPayload(seen, status, outcome, error, canceling, now), now);
    var updates := Updates(seen.outcome);
    if updates != map[] {
      if outcome.JObj? {
        var own := Get(outcome.fields, CONTEXT_KEY);
        UpdatesOf(outcome.fields, if own.JObj? then updates + own.fields else updates);
      } else {
        UpdatesOf(map[], updates);
        assert map[][CONTEXT_KEY := JObj(updates)] == map[CONTEXT_KEY := JObj(updates)];
      }
    }
  }
}
