/**
  The stored row as the endpoints of api/api/dishes.py update it: field by field, or not at all
  when the request is refused.
*/
module RowEndpoints {
  import opened Wrappers
  import opened Json
  import opened Execution
  import opened Rows

  /** The row after is what the request makes of it; a refusal leaves it as it was. */
  predicate Answers(before: Row, result: Result<Row, Refusal>, after: Row, refusal: Option<Refusal>) {
    match result
    case Ok(row) => refusal.None? && after == row
    case Err(e) => refusal == Some(e) && after == before
  }

  function Copied(row: Row, p: Payload): Row {
    row.(execId := p.execId.Or(row.execId), completedAt := p.completedAt.Or(row.completedAt),
         canceledAt := p.canceledAt.Or(row.canceledAt), outcome := p.outcome.Or(row.outcome),
         error := p.error.Or(row.error), slaExceeded := p.slaExceeded.Or(row.slaExceeded),
         runTime := p.runTime.Or(row.runTime))
  }

  class DishIngredient {
    const step: Step
    var status: Status
    var startedAt: Option<int>
    var completedAt: Option<int>
    var canceledAt: Option<int>
    var execId: Option<string>
    var claimedAt: Option<int>
    var claimedBy: Option<string>
    var outcome: Json
    var error: Option<string>
    var runTime: Option<int>
    var slaExceeded: bool
    var updatedAt: int

    /** The row as a value. */
    function View(): Row
      reads this
    {
      Row(step, status, startedAt, completedAt, canceledAt, execId, claimedAt, claimedBy, outcome, error, runTime,
          slaExceeded, updatedAt)
    }

    constructor (row: Row)
      ensures View() == row
    {
      step, status := row.step, row.status;
      startedAt, completedAt, canceledAt := row.startedAt, row.completedAt, row.canceledAt;
      execId, claimedAt, claimedBy := row.execId, row.claimedAt, row.claimedBy;
      outcome, error, runTime := row.outcome, row.error, row.runTime;
      slaExceeded, updatedAt := row.slaExceeded, row.updatedAt;
    }

    /** Copies the fields the request sets, one by one. */
    method CopyFields(p: Payload)
      modifies this
      ensures View() == Copied(old(View()), p)
    {
      if p.execId.Set? { execId := p.execId.value; }
      if p.completedAt.Set? { completedAt := p.completedAt.value; }
      if p.canceledAt.Set? { canceledAt := p.canceledAt.value; }
      if p.outcome.Set? { outcome := p.outcome.value; }
      if p.error.Set? { error := p.error.value; }
      if p.slaExceeded.Set? { slaExceeded := p.slaExceeded.value; }
      if p.runTime.Set? { runTime := p.runTime.value; }
    }

    /** `_apply_dish_ingredient_update` */
    method ApplyUpdate(p: Payload, now: int) returns (refusal: Option<Refusal>)
      modifies this
      ensures Answers(old(View()), Applied(old(View()), p, now), View(), refusal)
      ensures refusal.None? ==>
                Judged(if p.status.Some? then p.status.value else old(status), step.expected, outcome, status)
    {
      if p.status.Some? {
        if p.status.value !in Transitions(status) {
          return Some(BadTransition(status, p.status.value));
        }
        status := p.status.value;
      }
      CopyFields(p);
      VerdictMeaning(status, step.expected, outcome);
      status := VerdictStatus(status, step.expected, outcome);
      if runTime.None? {
        runTime := RuntimeSeconds(startedAt, completedAt);
      }
      slaExceeded := SlaExceeded(step.expectedSecs, runTime);
      if status.Terminal() {
        claimedAt, claimedBy := None, None;
      }
      updatedAt := now;
      return None;
    }

    /** POST .../reconcile, called by the Timer */
    method Reconcile(p: Payload, now: int) returns (refusal: Option<Refusal>)
      modifies this
      ensures Answers(old(View()), TimerReconciled(old(View()), p, now), View(), refusal)
    {
      if IsRunnerReceipt(execId) {
        return Some(NotOwner);
      }
      refusal := ApplyUpdate(p, now);
    }

    /** POST .../execution-reconcile, called by the expediter-runner */
    method ReconcileExecuted(p: Payload, now: int) returns (refusal: Option<Refusal>)
      modifies this
      ensures Answers(old(View()), RunnerReconciled(old(View()), p, now), View(), refusal)
    {
      if !IsRunnerReceipt(execId) {
        return Some(NotOwner);
      }
      refusal := ApplyUpdate(p, now);
    }

    /** POST .../poll-claim */
    method ClaimForPoll(who: string, now: int, lockTimeout: nat) returns (refusal: Option<Refusal>)
      modifies this
      ensures Answers(old(View()), PollClaimed(old(View()), who, now, lockTimeout), View(), refusal)
    {
      var staleCutoff := now - lockTimeout * SECOND;
      if !status.InFlight() {
        return Some(NotInFlight);
      }
      if claimedAt.Some? && claimedAt.value >= staleCutoff {
        return Some(ClaimHeld);
      }
      status, claimedAt, claimedBy, updatedAt := Running, Some(now), Some(who), now;
      return None;
    }

    /** POST .../execution-claim */
    method ClaimForExecution(who: string, plugin: Option<Plugin>, now: int, lockTimeout: nat)
      returns (refusal: Option<Refusal>)
      modifies this
      ensures Answers(old(View()), ExecutionClaimed(old(View()), who, plugin, now, lockTimeout), View(), refusal)
    {
      var staleCutoff := now - lockTimeout * SECOND;
      if !status.InFlight() || !IsRunnerReceipt(execId) {
        return Some(NotInFlight);
      }
      if claimedAt.Some? && claimedAt.value >= staleCutoff {
        return Some(ClaimHeld);
      }
      if !RunnerClaimable(View(), plugin, now) {
        return Some(NotCallable);
      }
      status, claimedAt, claimedBy, updatedAt := Running, Some(now), Some(who), now;
      return None;
    }

    /** POST .../execution-release and .../poll-release */
    method ReleaseClaim(who: string, now: int) returns (refusal: Option<Refusal>)
      modifies this
      ensures Answers(old(View()), Released(old(View()), who, now), View(), refusal)
    {
      if claimedBy != Some(who) || !status.Running? {
        return Some(ClaimNotOwned);
      }
      claimedAt, claimedBy, updatedAt := None, None, now;
      return None;
    }
  }
}
