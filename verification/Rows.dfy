/**
  Runtime rows of a dish (DishIngredient) and every endpoint that changes one row:
  Cook's dispatch compare-and-swap, the two claims and their release, and the two
  reconciles. Times are microseconds since the epoch. Each endpoint is a function from
  the stored row to the new row or a refusal; a refused request changes nothing.
*/
module Rows {
  import opened Wrappers
  import opened Text
  import opened Json
  import opened Execution

  const SECOND := 1_000_000

  datatype OnFailure = Unspecified | Stop | Retry | Continue

  /** (depth, parallel_group), ordered as a tuple. */
  datatype Bucket = Bucket(depth: int, group: int) {
    predicate Below(other: Bucket) {
      depth < other.depth || (depth == other.depth && group < other.group)
    }
  }

  /** The columns of a row that no endpoint of this model writes. */
  datatype Step = Step(
    id: nat, recipeIngredient: Option<int>, taskKey: string,
    stepOrder: int, parallelGroup: int, depth: int,
    serviceType: string, serviceExec: string, payload: Json, parameters: Json,
    expectedSecs: Option<int>, timeout: Option<int>, expected: Json,
    onFailure: OnFailure, createdAt: int
  ) {
    function BucketOf(): Bucket {
      Bucket(depth, parallelGroup)
    }
  }

  datatype Row = Row(
    step: Step, status: Status,
    startedAt: Option<int>, completedAt: Option<int>, canceledAt: Option<int>,
    execId: Option<string>, claimedAt: Option<int>, claimedBy: Option<string>,
    outcome: Json, error: Option<string>, runTime: Option<int>, slaExceeded: bool,
    updatedAt: int
  ) {
    function BucketOf(): Bucket {
      step.BucketOf()
    }

    /** A failure that stops the dish. */
    predicate Blocking() {
      status.Failure() && !step.onFailure.Continue?
    }

    /** Nothing left to wait for: succeeded, or failed where failures are tolerated. */
    predicate Done() {
      status.Terminal() && !Blocking()
    }
  }

  function RuntimeSeconds(startedAt: Option<int>, completedAt: Option<int>): Option<int> {
    if startedAt.None? || completedAt.None? then None
    else if completedAt.value < startedAt.value then Some(0)
    else Some((completedAt.value - startedAt.value) / SECOND)
  }

  predicate SlaExceeded(expectedSecs: Option<int>, runTime: Option<int>) {
    expectedSecs.Some? && expectedSecs.value > 0 && runTime.Some? && runTime.value > expectedSecs.value
  }

  datatype Refusal =
    | BadTransition(current: Status, requested: Status)
    | NotOwner | NotInFlight | ClaimHeld | NotCallable | ClaimNotOwned | NotReady

  // ---- Reconcile --------------------------------------------------------------

  /** A field of a reconcile request that may be left out. */
  datatype Field<T> = Unset | Set(value: T) {
    function Or(current: T): T {
      if Set? then value else current
    }
  }

  datatype Payload = Payload(
    status: Option<Status>, execId: Field<Option<string>>,
    completedAt: Field<Option<int>>, canceledAt: Field<Option<int>>,
    outcome: Field<Json>, error: Field<Option<string>>,
    slaExceeded: Field<bool>, runTime: Field<Option<int>>)

  /** `_apply_dish_ingredient_update` */
  function Applied(row: Row, p: Payload, now: int): Result<Row, Refusal> {
    if p.status.Some? && p.status.value !in Transitions(row.status) then
      Err(BadTransition(row.status, p.status.value))
    else
      var outcome := p.outcome.Or(row.outcome);
      var completedAt := p.completedAt.Or(row.completedAt);
      var requested := if p.status.Some? then p.status.value else row.status;
      var status := VerdictStatus(requested, row.step.expected, outcome);
      var given := p.runTime.Or(row.runTime);
      var runTime := if given.Some? then given else RuntimeSeconds(row.startedAt, completedAt);
      Ok(row.(
        status := status,
        execId := p.execId.Or(row.execId),
        completedAt := completedAt,
        canceledAt := p.canceledAt.Or(row.canceledAt),
        outcome := outcome,
        error := p.error.Or(row.error),
        runTime := runTime,
        slaExceeded := SlaExceeded(row.step.expectedSecs, runTime),
        claimedAt := if status.Terminal() then None else row.claimedAt,
        claimedBy := if status.Terminal() then None else row.claimedBy,
        updatedAt := now))
  }

  /** POST .../execution-reconcile, called by the expediter-runner. */
  function RunnerReconciled(row: Row, p: Payload, now: int): Result<Row, Refusal> {
    if IsRunnerReceipt(row.execId) then Applied(row, p, now) else Err(NotOwner)
  }

  /** POST .../reconcile, called by the Timer. */
  function TimerReconciled(row: Row, p: Payload, now: int): Result<Row, Refusal> {
    if IsRunnerReceipt(row.execId) then Err(NotOwner) else Applied(row, p, now)
  }

  // ---- Dispatch, claims and release ---------------------------------------------

  predicate Ready(row: Row) {
    row.status.Pending? && row.startedAt.None? && row.claimedAt.None?
  }

  function DispatchOutcome(rowId: nat): Json {
    JObj(map["success" := JBool(true), "status" := JStr("running"),
             "receipt_owner" := JStr(RUNNER_SERVICE), "dish_ingredient_id" := JNum(rowId as real)])
  }

  /** Cook's `UPDATE ... WHERE id = ? AND status = 'pending' AND ...` */
  function MarkedReady(row: Row, now: int): Result<Row, Refusal> {
    if !Ready(row) then Err(NotReady)
    else Ok(row.(status := Running, startedAt := Some(now), execId := Some(RunnerReceipt(row.step.id)),
                 outcome := DispatchOutcome(row.step.id), claimedAt := None, claimedBy := None,
                 updatedAt := now))
  }

  /** No claim, or one older than the lock timeout. */
  predicate LeaseFree(row: Row, now: int, lockTimeout: nat) {
    row.claimedAt.None? || row.claimedAt.value < now - lockTimeout * SECOND
  }

  function PollClaimed(row: Row, who: string, now: int, lockTimeout: nat): Result<Row, Refusal> {
    if !row.status.InFlight() then Err(NotInFlight)
    else if !LeaseFree(row, now, lockTimeout) then Err(ClaimHeld)
    else Ok(row.(status := Running, claimedAt := Some(now), claimedBy := Some(who), updatedAt := now))
  }

  datatype Health = Unknown | Initializing | Healthy | Degraded | Unhealthy | Disabled

  datatype Plugin = Plugin(enabled: bool, health: Health)

  predicate RunnerTimedOut(row: Row, now: int) {
    row.step.timeout.Some? && row.step.timeout.value > 0 && row.startedAt.Some? &&
    row.startedAt.value + row.step.timeout.value * SECOND < now
  }

  /** `expediter_runner_claimable` */
  predicate RunnerClaimable(row: Row, plugin: Option<Plugin>, now: int) {
    (plugin.Some? && plugin.value.enabled && Strip(row.step.serviceExec) == "health_check") ||
    RunnerTimedOut(row, now) ||
    (plugin.Some? && plugin.value.enabled && (plugin.value.health.Healthy? || plugin.value.health.Degraded?))
  }

  function ExecutionClaimed(row: Row, who: string, plugin: Option<Plugin>, now: int, lockTimeout: nat)
    : Result<Row, Refusal>
  {
    if !row.status.InFlight() || !IsRunnerReceipt(row.execId) then Err(NotInFlight)
    else if !LeaseFree(row, now, lockTimeout) then Err(ClaimHeld)
    else if !RunnerClaimable(row, plugin, now) then Err(NotCallable)
    else Ok(row.(status := Running, claimedAt := Some(now), claimedBy := Some(who), updatedAt := now))
  }

  /** Both release endpoints have this guard and this effect; the column default stamps the update time. */
  function Released(row: Row, who: string, now: int): Result<Row, Refusal> {
    if row.claimedBy == Some(who) && row.status.Running?
    then Ok(row.(claimedAt := None, claimedBy := None, updatedAt := now))
    else Err(ClaimNotOwned)
  }

  // ---- The requests the runner and the Timer build --------------------------------

  /** `value.get("_context_updates") or value.get("context_updates")` */
  function StoredUpdates(outcome: Json): Json {
    if !outcome.JObj? then JNull
    else if Truthy(Get(outcome.fields, CONTEXT_KEY)) then Get(outcome.fields, CONTEXT_KEY)
    else Get(outcome.fields, "context_updates")
  }

  /** `_actual_outcome_with_context_updates` of the Timer */
  function CarriedOutcome(seen: Row, outcome: Json): Json {
    var updates := StoredUpdates(seen.outcome);
    if !updates.JObj? || updates.fields == map[] then outcome
    else if !outcome.JObj? then JObj(map[CONTEXT_KEY := updates])
    else
      var own := Get(outcome.fields, CONTEXT_KEY);
      JObj(outcome.fields[CONTEXT_KEY := if own.JObj? then JObj(updates.fields + own.fields) else updates])
  }

  /** `_reconcile_payload` of the Timer; a cancellation also stamps the canceled time. */
  function TimerPayload(seen: Row, status: Status, outcome: Json, error: Option<string>, canceling: bool,
                        now: int): Payload {
    var runTime := RuntimeSeconds(seen.startedAt, Some(now));
    Payload(Some(status), Unset, Set(Some(now)), if canceling then Set(Some(now)) else Unset,
            Set(CarriedOutcome(seen, outcome)), Set(error),
            Set(SlaExceeded(seen.step.expectedSecs, runTime)),
            if runTime.Some? then Set(runTime) else Unset)
  }

  /** What the expediter answers to an execute request. */
  datatype Body = Body(execId: Option<string>, status: Status, outcome: Json, raw: Json,
                       error: Option<string>, contextUpdates: Json)

  /** `_merged_context_updates` of the runner */
  function MergedUpdates(seen: Row, body: Body): map<string, Json> {
    var stored := StoredUpdates(seen.outcome);
    (if stored.JObj? then stored.fields else map[]) +
    (if body.contextUpdates.JObj? then body.contextUpdates.fields else map[])
  }

  function BodyReceipt(seen: Row, body: Body): Option<string> {
    if body.execId.Some? && body.execId.value != "" then body.execId else seen.execId
  }

  /** `_terminal_payload`, `_nonterminal_payload` of the runner */
  function RunnerPayload(seen: Row, body: Body, now: int): Payload {
    var updates := MergedUpdates(seen, body);
    if body.status.Terminal() then
      var outcome := if Truthy(body.outcome) then body.outcome else body.raw;
      var kept := if !outcome.JObj? then JNull
                  else if updates != map[] then JObj(outcome.fields[CONTEXT_KEY := JObj(updates)])
                  else outcome;
      var runTime := RuntimeSeconds(seen.startedAt, Some(now));
      Payload(Some(body.status), Set(BodyReceipt(seen, body)), Set(Some(now)), Unset, Set(kept), Set(body.error),
              Set(SlaExceeded(seen.step.expectedSecs, runTime)), if runTime.Some? then Set(runTime) else Unset)
    else
      Payload(Some(if body.status.Dispatched? then Running else body.status),
              Set(BodyReceipt(seen, body)), Unset, Unset,
              if updates != map[] then Set(JObj(map[CONTEXT_KEY := JObj(updates)])) else Unset,
              Set(body.error), Unset, Unset)
  }

  function ErrorOutcome(detail: string): Json {
    JObj(map["success" := JBool(false), "status" := JStr("errored"),
             "reason" := JStr("expediter_runner_execute_failed"), "detail" := JStr(detail)])
  }

  /** `_error_payload` of the runner */
  function RunnerErrorPayload(seen: Row, detail: string, now: int): Payload {
    var runTime := RuntimeSeconds(seen.startedAt, Some(now));
    Payload(Some(Errored), Unset, Set(Some(now)), Unset,
            Set(ErrorOutcome(detail)),
            Set(Some(detail)), Unset, if runTime.Some? then Set(runTime) else Unset)
  }

  // ---- Redelivery ------------------------------------------------------------------

  /**
    Delivering a terminal reconcile a second time is harmless, whatever the expected
    outcome: either it is refused, or nothing but the update time changes. This holds
    although the verdict itself is not idempotent (VerdictFlips): a verdict that moved
    the status away from the requested one makes the replay an illegal transition.
  */
  lemma {:induction false} ReplayIsHarmless(row: Row, p: Payload, first: int, second: int)
    requires p.status.Some? && p.status.value.Terminal()
    requires Applied(row, p, first).Ok?
    ensures var once := Applied(row, p, first).value;
            var twice := Applied(once, p, second);
            once.status.Terminal() &&
            (if once.status == p.status.value then twice == Ok(once.(updatedAt := second))
             else twice == Err(BadTransition(once.status, p.status.value)))
  {
    VerdictClosure(p.status.value, row.step.expected, p.outcome.Or(row.outcome));
  }

  /** The same at both endpoints: a replay also finds the row handed over when the first delivery moved its receipt. */
  lemma {:induction false} ReplayAtEndpoints(row: Row, p: Payload, first: int, second: int)
    requires p.status.Some? && p.status.value.Terminal()
    ensures RunnerReconciled(row, p, first).Ok? ==>
              var once := RunnerReconciled(row, p, first).value;
              var twice := RunnerReconciled(once, p, second);
              twice.Ok? ==> twice.value == once.(updatedAt := second)
    ensures TimerReconciled(row, p, first).Ok? ==>
              var once := TimerReconciled(row, p, first).value;
              var twice := TimerReconciled(once, p, second);
              twice.Ok? ==> twice.value == once.(updatedAt := second)
  {
    if Applied(row, p, first).Ok? { ReplayIsHarmless(row, p, first, second); }
  }

  /** Without a requested status the verdict of an earlier verdict is taken, and a replay can flip the row. */
  lemma {:induction false} ReplayWithoutStatusFlips(row: Row, p: Payload, fields: map<string, Json>, first: int,
                                                    second: int)
    requires row.status.Failed? && row.step.expected == JBool(false)
    requires p.status.None? && p.outcome == Set(JObj(fields))
    ensures var once := Applied(row, p, first);
            once.Ok? && once.value.status.Succeeded? &&
            Applied(once.value, p, second).Ok? && Applied(once.value, p, second).value.status.Failed?
  {
    VerdictFlips(fields);
  }

  /**
    The Timer judges a finished step on the adapter's outcome plus the context updates the row
    carried. When the adapter returned an object and the expectation does not mention the
    carried key, that is the verdict on the adapter's outcome alone.
  */
  lemma {:induction false} TimerVerdictIgnoresContext(row: Row, seen: Row, status: Status, outcome: Json,
                                                      error: Option<string>, now: int)
    requires outcome.JObj? && status.Terminal()
    requires row.step.expected.JObj? ==> CONTEXT_KEY !in row.step.expected.fields
    requires TimerReconciled(row, TimerPayload(seen, status, outcome, error, false, now), now).Ok?
    ensures TimerReconciled(row, TimerPayload(seen, status, outcome, error, false, now), now).value.status
         == VerdictStatus(status, row.step.expected, outcome)
  {
    var carried := CarriedOutcome(seen, outcome);
    if carried != outcome {
      ContextKeepsVerdict(status, row.step.expected, outcome.fields, carried.fields[CONTEXT_KEY]);
      assert carried.fields == outcome.fields[CONTEXT_KEY := carried.fields[CONTEXT_KEY]];
    }
  }

  /**
    With no outcome from the adapter the carried updates are judged instead of being ignored:
    a success is recorded as a failure exactly when the updates alone do not meet the expectation.
  */
  lemma {:induction false} TimerVerdictOnMissingOutcome(row: Row, seen: Row, status: Status, error: Option<string>,
                                                        now: int)
    requires status.Terminal() && !status.Canceled? && !row.step.expected.JNull?
    requires TimerReconciled(row, TimerPayload(seen, status, JNull, error, false, now), now).Ok?
    ensures var updates := StoredUpdates(seen.outcome);
            var reached := TimerReconciled(row, TimerPayload(seen, status, JNull, error, false, now), now).value.status;
            if updates.JObj? && updates.fields != map[]
            then reached == VerdictStatus(status, row.step.expected, JObj(map[CONTEXT_KEY := updates])) &&
                 (reached.Succeeded? || reached.Failed?)
            else reached == status
  {}
}
