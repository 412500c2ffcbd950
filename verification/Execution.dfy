/** Execution statuses, their transition table and the verdict on a finished step (api/plugins/state.py). */
module Execution {
  import opened Wrappers
  import opened Text
  import opened Json
  import opened Contract

  datatype Status = Pending | Dispatched | Running | Succeeded | Failed | Errored | TimedOut | Canceled {
    predicate Terminal() {
      Succeeded? || Failure()
    }

    predicate Failure() {
      Failed? || Errored? || TimedOut? || Canceled?
    }

    predicate InFlight() {
      Dispatched? || Running?
    }

    function Name(): string {
      match this
      case Pending => "pending"
      case Dispatched => "dispatched"
      case Running => "running"
      case Succeeded => "succeeded"
      case Failed => "failed"
      case Errored => "errored"
      case TimedOut => "timeout"
      case Canceled => "canceled"
    }
  }

  const ALL_STATUSES: set<Status> :=
    {Pending, Dispatched, Running, Succeeded, Failed, Errored, TimedOut, Canceled}

  /** EXECUTION_STATUS_TRANSITIONS */
  function Transitions(current: Status): set<Status> {
    match current
    case Pending => ALL_STATUSES
    case Dispatched => ALL_STATUSES - {Pending}
    case Running => ALL_STATUSES - {Pending, Dispatched}
    case _ => {current}
  }

  function VerdictStatus(requested: Status, expected: Json, actual: Json): Status {
    if !requested.Terminal() || requested.Canceled? || expected.JNull? || actual.JNull? then requested
    else if ExpectedOutcomeMatches(expected, actual, Some(requested.Name())) then Succeeded
    else Failed
  }

  // ---- What a verdict means ----------------------------------------------------------------

  /** The text names the requested terminal status. */
  predicate Names(text: string, requested: Status) {
    var word := Normalize(text);
    (requested.Succeeded? && word == "succeeded") || (requested.Failed? && word == "failed") ||
    (requested.Errored? && word == "errored") || (requested.TimedOut? && word == "timeout")
  }

  /** A step that ended as requested, with this outcome, meets its expectation. */
  ghost predicate Meets(requested: Status, expected: Json, actual: Json) {
    match expected
    case JBool(b) => requested.Succeeded? == b
    case JStr(s) => Names(s, requested)
    case JObj(_) => Covers(WithStatus(actual, Some(requested.Name())), expected)
    case _ => Equal(expected, actual)
  }

  /** What reconciling makes of a requested status: a finished step is judged by its expectation alone. */
  ghost predicate Judged(requested: Status, expected: Json, actual: Json, verdict: Status) {
    if !requested.Terminal() || requested.Canceled? || expected.JNull? || actual.JNull? then verdict == requested
    else verdict == if Meets(requested, expected, actual) then Succeeded else Failed
  }

  lemma {:induction false} NameIsWord(requested: Status)
    requires requested.Terminal() && !requested.Canceled?
    ensures Normalize(requested.Name()) == requested.Name() && requested.Name() != ""
    ensures requested.Name() in SUCCESS_WORDS <==> requested.Succeeded?
    ensures forall s :: Names(s, requested) <==> Normalize(s) == requested.Name()
  {
    StripOfTrimmed(requested.Name());
    assert Lower(requested.Name()) == requested.Name();
  }

  /** For every expectation, every outcome and every requested status. */
  lemma {:induction false} VerdictMeaning(requested: Status, expected: Json, actual: Json)
    ensures Judged(requested, expected, actual, VerdictStatus(requested, expected, actual))
  {
    if requested.Terminal() && !requested.Canceled? {
      NameIsWord(requested);
      SameMeaning(expected, actual);
      if expected.JObj? { ContainsMeaning(actual, expected, Some(requested.Name())); }
    }
  }

  /** An expected status is compared with the outcome's own `status`, and with the requested one where it has none. */
  lemma {:induction false} ExpectedStatusMeaning(requested: Status, s: string, outcome: map<string, Json>)
    requires requested.Terminal() && !requested.Canceled?
    ensures VerdictStatus(requested, JObj(map["status" := JStr(s)]), JObj(outcome)).Succeeded? <==>
            if "status" in outcome then outcome["status"] == JStr(s) else s == requested.Name()
    ensures VerdictStatus(requested, JObj(map["status" := JStr(s)]), JObj(outcome)).Failed? <==>
            if "status" in outcome then outcome["status"] != JStr(s) else s != requested.Name()
  {
    var own := if "status" in outcome then outcome["status"] else JStr(requested.Name());
    assert Same(own, JStr(s)) <==> own == JStr(s);
    assert DictContains(JObj(outcome), JObj(map["status" := JStr(s)]), Some(requested.Name())) <==> own == JStr(s);
  }

  /** A verdict never leaves the terminal set, and `canceled` is the one status no verdict can change or produce. */
  lemma {:induction false} VerdictClosure(requested: Status, expected: Json, actual: Json)
    ensures VerdictStatus(requested, expected, actual).Terminal() <==> requested.Terminal()
    ensures VerdictStatus(requested, expected, actual) == Canceled <==> requested == Canceled
    ensures !requested.Terminal() || expected.JNull? ==> VerdictStatus(requested, expected, actual) == requested
  {}

  /** Judging a judged status again can flip it: an expected failure that failed becomes a success, then a failure. */
  lemma {:induction false} VerdictFlips(fields: map<string, Json>)
    ensures VerdictStatus(Failed, JBool(false), JObj(fields)) == Succeeded
    ensures VerdictStatus(Succeeded, JBool(false), JObj(fields)) == Failed
    ensures VerdictStatus(Failed, JStr("failed"), JObj(fields)) == Succeeded
    ensures VerdictStatus(Succeeded, JStr("failed"), JObj(fields)) == Failed
  {
    StripOfTrimmed("failed");
    StripOfTrimmed("succeeded");
    assert Lower("failed") == "failed" && Lower("succeeded") == "succeeded";
    assert Normalize("failed") == "failed" && Normalize("succeeded") == "succeeded";
    assert "failed" !in SUCCESS_WORDS && "succeeded" in SUCCESS_WORDS;
    assert "failed" != "succeeded" by { assert |"failed"| != |"succeeded"|; }
  }

  /** Expectations that no object outcome of a succeeded step can miss. */
  predicate AcceptsEverySuccess(expected: Json) {
    expected.JNull? || expected == JBool(true) || expected == JObj(map[]) ||
    (expected.JStr? && Normalize(expected.s) == "succeeded")
  }

  /** An outcome of a succeeded step that misses an expectation, where one does. */
  function MissingOutcome(expected: Json): map<string, Json> {
    if expected.JObj? && "status" in expected.fields
    then map["status" := if expected.fields["status"].JObj? then JNull else JObj(map[])] else map[]
  }

  /** A succeeded step passes whatever object it returns, exactly under these four forms of expectation. */
  lemma {:induction false} AcceptsEverySuccessMeaning(expected: Json)
    ensures AcceptsEverySuccess(expected) <==>
            forall fields: map<string, Json> :: VerdictStatus(Succeeded, expected, JObj(fields)) == Succeeded
    ensures !AcceptsEverySuccess(expected) ==>
              VerdictStatus(Succeeded, expected, JObj(MissingOutcome(expected))) == Failed
  {
    StripOfTrimmed("succeeded");
    assert Lower("succeeded") == "succeeded" && Normalize("succeeded") == "succeeded";
    assert "succeeded" in SUCCESS_WORDS;
    if !AcceptsEverySuccess(expected) {
      SuccessMissed(expected);
    }
  }

  lemma {:induction false} SuccessMissed(expected: Json)
    requires !AcceptsEverySuccess(expected) && Normalize("succeeded") == "succeeded"
    ensures VerdictStatus(Succeeded, expected, JObj(MissingOutcome(expected))) == Failed
  {
    var actual := JObj(MissingOutcome(expected));
    if expected.JObj? && "status" in expected.fields {
      if expected.fields["status"].JObj? {
        assert !DictContains(JNull, expected.fields["status"], None);
      } else {
        ShapesDiffer(expected.fields["status"], JObj(map[]));
      }
      assert !DictContains(actual, expected, Some("succeeded"));
    } else if expected.JObj? {
      var k :| k in expected.fields;
      assert k !in actual.fields;
      assert !DictContains(actual, expected, Some("succeeded"));
    } else if expected.JNum? || expected.JArr? {
      ShapesDiffer(expected, actual);
    }
  }

  const CONTEXT_KEY := "_context_updates"

  /**
    Carrying context updates into an object outcome under `_context_updates` cannot change the
    verdict unless the expectation is an object that mentions that key.
  */
  lemma {:induction false} ContextKeepsVerdict(requested: Status, expected: Json, outcome: map<string, Json>,
                                               updates: Json)
    requires expected.JObj? ==> CONTEXT_KEY !in expected.fields
    ensures VerdictStatus(requested, expected, JObj(outcome[CONTEXT_KEY := updates]))
         == VerdictStatus(requested, expected, JObj(outcome))
  {
    var merged, plain := JObj(outcome[CONTEXT_KEY := updates]), JObj(outcome);
    if expected.JObj? {
      assert CONTEXT_KEY != "status" by { assert |CONTEXT_KEY| != |"status"|; }
      forall k | k in expected.fields
        ensures k in merged.fields <==> k in plain.fields
        ensures k in plain.fields ==> merged.fields[k] == plain.fields[k]
      {}
      assert DictContains(merged, expected, Some(requested.Name()))
        <==> DictContains(plain, expected, Some(requested.Name()));
    } else if expected.JNum? || expected.JArr? {
      ShapesDiffer(expected, merged);
      ShapesDiffer(expected, plain);
    }
  }

  lemma {:induction false} ShapesDiffer(a: Json, b: Json)
    requires b.JObj? && !a.JObj?
    ensures !Same(a, b)
  {}

  // ---- Receipts -------------------------------------------------------------

  const RUNNER_SERVICE := "expediter-runner"
  const RUNNER_PREFIX := RUNNER_SERVICE + ":"

  predicate HasRunnerPrefix(execId: string) {
    RUNNER_PREFIX <= Strip(execId)
  }

  /** `_is_expediter_runner_receipt` / `_has_expediter_runner_receipt` */
  predicate IsRunnerReceipt(execId: Option<string>) {
    execId.Some? && HasRunnerPrefix(execId.value)
  }

  function RunnerReceipt(rowId: nat): string {
    RUNNER_PREFIX + Decimal(rowId)
  }

  function UpTo(s: string, stop: char): string {
    if s == "" || s[0] == stop then "" else [s[0]] + UpTo(s[1..], stop)
  }

  /** `_dish_ingredient_id_from_runner_receipt` */
  function RowIdFromReceipt(execId: string): Option<nat> {
    var value := Strip(execId);
    if !(RUNNER_PREFIX <= value) then None
    else
      var raw := UpTo(value[|RUNNER_PREFIX|..], ':');
      if AllDigits(raw) then Some(DigitsValue(raw)) else None
  }

  lemma {:induction false} UpToDigits(s: string)
    requires forall i :: 0 <= i < |s| ==> IsDigit(s[i])
    ensures UpTo(s, ':') == s
  {
    if s != "" {
      assert IsDigit(s[0]);
      UpToDigits(s[1..]);
    }
  }

  lemma {:induction false} RunnerReceiptRecognised(rowId: nat)
    ensures Strip(RunnerReceipt(rowId)) == RunnerReceipt(rowId)
    ensures HasRunnerPrefix(RunnerReceipt(rowId))
  {
    var r, d := RunnerReceipt(rowId), Decimal(rowId);
    assert r[0] == 'e' && r[|r| - 1] == d[|d| - 1];
    assert IsDigit(d[|d| - 1]);
    StripOfTrimmed(r);
    assert r[..|RUNNER_PREFIX|] == RUNNER_PREFIX;
  }

  /** The receipt Cook mints for a row leads back to exactly that row. */
  lemma {:induction false} ReceiptRoundTrip(rowId: nat)
    ensures RowIdFromReceipt(RunnerReceipt(rowId)) == Some(rowId)
  {
    RunnerReceiptRecognised(rowId);
    var d := Decimal(rowId);
    assert RunnerReceipt(rowId)[|RUNNER_PREFIX|..] == d;
    UpToDigits(d);
    DecimalRoundTrip(rowId);
  }

  lemma {:induction false} UpToStop(before: string, after: string)
    requires ':' !in before
    ensures UpTo(before + [':'] + after, ':') == before && UpTo(before, ':') == before
  {
    var whole := before + [':'] + after;
    if before != "" {
      assert before[0] in before;
      assert whole[1..] == before[1..] + [':'] + after;
      UpToStop(before[1..], after);
    }
  }

  /** What a receipt says besides the row's id follows a colon and does not count; without an id there is no row. */
  lemma {:induction false} ReceiptIdMeaning(text: string, suffix: string)
    requires ':' !in text && Trimmed(RUNNER_PREFIX + text) && Trimmed(RUNNER_PREFIX + (text + [':'] + suffix))
    ensures RowIdFromReceipt(RUNNER_PREFIX + (text + [':'] + suffix)) == RowIdFromReceipt(RUNNER_PREFIX + text)
    ensures RowIdFromReceipt(RUNNER_PREFIX + text).Some? <==> AllDigits(text)
  {
    var plain, long := RUNNER_PREFIX + text, RUNNER_PREFIX + (text + [':'] + suffix);
    StripOfTrimmed(plain);
    StripOfTrimmed(long);
    assert plain[|RUNNER_PREFIX|..] == text && long[|RUNNER_PREFIX|..] == text + [':'] + suffix;
    assert plain[..|RUNNER_PREFIX|] == RUNNER_PREFIX && long[..|RUNNER_PREFIX|] == RUNNER_PREFIX;
    UpToStop(text, suffix);
  }

  /** Every receipt that leads to a row is recognised, and blanks around a receipt do not count. */
  lemma {:induction false} ReceiptsRecognised(execId: string)
    ensures RowIdFromReceipt(execId).Some? ==> IsRunnerReceipt(Some(execId))
    ensures IsRunnerReceipt(Some(execId)) <==> IsRunnerReceipt(Some(Strip(execId)))
    ensures RowIdFromReceipt(execId) == RowIdFromReceipt(Strip(execId))
  {
    StripIsTrimmed(execId);
  }
}
