/** What a blocking failure stops, and exactly when it stops it. */
module FailStop {
  import opened Json
  import opened Execution
  import opened Rows
  import opened Segments
  import opened Protocol
  import opened DishTheorems
  import opened Runs

  /** Behind row f nothing has started and no call means to start anything. */
  ghost predicate Quiet(s: System, f: nat) {
    forall i: nat :: Behind(s.rows, f, i) ==>
      s.rows[i].startedAt.None? && forall c :: c in s.calls ==> s.rows[i].step.id !in s.calls[c].todo
  }

  /** In no state of the run row f is done: it has neither succeeded nor failed where that is tolerated. */
  predicate NeverDone(s: System, run: seq<Action>, f: nat)
    decreases |run|
  {
    f < |s.rows| && !s.rows[f].Done() && (run == [] || NeverDone(Next(s, run[0]), run[1..], f))
  }

  // ---- Fail-stop ------------------------------------------------------------------------

  lemma {:induction false} NotOpenedBehind(rows: seq<Row>, f: nat, i: nat)
    requires DistinctIds(rows) && Behind(rows, f, i) && !rows[f].Done()
    ensures rows[i].step.id !in OpenedCall(rows).todo
  {
    assert rows[f] in rows;
    OpenedCallOk(rows);
    if NextSegment(rows).Some? {
      SegmentReady(rows);
    }
  }

  /** A row no call means to start, and no call opened now would, is not started by a step. */
  lemma {:induction false} StaysUnstarted(s: System, a: Action, i: nat)
    requires i < |s.rows| && s.rows[i].startedAt.None?
    requires s.rows[i].step.id !in OpenedCall(s.rows).todo
    requires forall c :: c in s.calls ==> s.rows[i].step.id !in s.calls[c].todo
    ensures RowsAfter(s, a)[i].startedAt.None?
    ensures forall c :: c in CallsAfter(s, a) ==> s.rows[i].step.id !in CallsAfter(s, a)[c].todo
  {
    if RowsAfter(s, a)[i].startedAt.Some? { SwapWins(s, a, i); }
  }

  lemma {:induction false} QuietKept(s: System, a: Action, f: nat)
    requires Inv(s) && f < |s.rows| && Quiet(s, f) && !s.rows[f].Done()
    ensures Quiet(Next(s, a), f)
  {
    var t := Next(s, a);
    RowsMoveOnward(s, a);
    forall i: nat | Behind(t.rows, f, i)
      ensures t.rows[i].startedAt.None?
      ensures forall c :: c in t.calls ==> t.rows[i].step.id !in t.calls[c].todo
    {
      assert Behind(s.rows, f, i);
      NotOpenedBehind(s.rows, f, i);
      StaysUnstarted(s, a, i);
    }
  }

  lemma {:induction false} QuietOnRuns(s: System, run: seq<Action>, f: nat)
    requires Inv(s) && Quiet(s, f) && NeverDone(s, run, f)
    ensures Inv(Exec(s, run)) && Quiet(Exec(s, run), f) && Onward(s.rows, Exec(s, run).rows)
    ensures f < |s.rows| && !Exec(s, run).rows[f].Done()
    decreases |run|
  {
    if run != [] {
      InvKept(s, run[0]);
      QuietKept(s, run[0], f);
      RowsMoveOnward(s, run[0]);
      QuietOnRuns(Next(s, run[0]), run[1..], f);
    }
  }

  lemma {:induction false} QuietAtStart(lockTimeout: nat, clock: int, rows: seq<Row>, f: nat)
    requires Seeded(rows)
    ensures Inv(Start(lockTimeout, clock, rows)) && Quiet(Start(lockTimeout, clock, rows), f)
  {
    StartOk(lockTimeout, clock, rows);
    forall i: nat | Behind(rows, f, i) ensures rows[i].startedAt.None? { assert rows[i] in rows; }
  }

  /**
    Fail-stop: as long as a row is never done, no row of a strictly later bucket is started and no
    call means to start one. A failure that is not judged otherwise stops the dish for good,
    whatever its expected outcome.
  */
  lemma {:induction false} FailuresStopTheDish(lockTimeout: nat, clock: int, rows: seq<Row>, run: seq<Action>, f: nat)
    requires Seeded(rows) && NeverDone(Start(lockTimeout, clock, rows), run, f)
    ensures var t := Exec(Start(lockTimeout, clock, rows), run);
            |t.rows| == |rows| && Quiet(t, f)
  {
    QuietAtStart(lockTimeout, clock, rows, f);
    QuietOnRuns(Start(lockTimeout, clock, rows), run, f);
  }

  /**
    A cascade cancel the Timer decides on a row behind such a failure is never overtaken by a
    dispatch: whenever it arrives, the row is still unstarted, and it is canceled or was finished by
    another Timer report.
  */
  lemma {:induction false} CascadeNeverOvertaken(lockTimeout: nat, clock: int, rows: seq<Row>, run: seq<Action>,
                                                 f: nat, i: nat, cancel: Action)
    requires Seeded(rows) && NeverDone(Start(lockTimeout, clock, rows), run, f) && Behind(rows, f, i)
    requires cancel.TimerReport? && cancel.id == rows[i].step.id && cancel.status == Canceled
    ensures var t := Exec(Start(lockTimeout, clock, rows), run);
            |t.rows| == |rows| && t.rows[i].startedAt.None? &&
            (t.rows[i].status.Pending? || t.rows[i].status.Terminal()) &&
            RowsAfter(t, cancel)[i].status.Terminal() &&
            (t.rows[i].status.Pending? ==> RowsAfter(t, cancel)[i].status.Canceled?)
  {
    var t := Exec(Start(lockTimeout, clock, rows), run);
    QuietAtStart(lockTimeout, clock, rows, f);
    QuietOnRuns(Start(lockTimeout, clock, rows), run, f);
    assert Behind(t.rows, f, i);
    assert RowOk(t.rows[i]);
    RowAfterFacts(t, cancel, t.rows[i]);
  }

  // ---- Failures that cannot be judged otherwise -----------------------------------------

  /** A blocking failure that every later reconcile leaves one. */
  predicate Frozen(row: Row) {
    row.Blocking() && (row.step.expected.JNull? || row.status.Canceled?)
  }

  /** A row only becomes a frozen failure from a non-terminal status, and then stays one. */
  lemma {:induction false} FrozenKept(s: System, a: Action, row: Row)
    ensures Frozen(row) ==> Frozen(RowAfter(s, a, row))
    ensures Frozen(RowAfter(s, a, row)) && row.status.Terminal() ==> Frozen(row)
  {
    var request := Request(s, a, row);
    if request.Some? && request.value.Ok? {
      match a
      case RunnerAnswer(w, body) => AppliedFacts(row, RunnerPayload(s.runners[w], body, s.clock), s.clock);
      case RunnerError(w, detail) => AppliedFacts(row, RunnerErrorPayload(s.runners[w], detail, s.clock), s.clock);
      case TimerReport(_, seen, status, outcome, error, canceling) =>
        AppliedFacts(row, TimerPayload(seen, status, outcome, error, canceling, s.clock), s.clock);
      case _ =>
    }
  }

  lemma {:induction false} FrozenAfter(s: System, run: seq<Action>, f: nat)
    requires f < |s.rows| && Frozen(s.rows[f])
    ensures NeverDone(s, run, f) && f < |Exec(s, run).rows| && Frozen(Exec(s, run).rows[f])
    decreases |run|
  {
    if run != [] {
      FrozenKept(s, run[0], s.rows[f]);
      FrozenAfter(Next(s, run[0]), run[1..], f);
    }
  }

  lemma {:induction false} LooseStaysLoose(s: System, run: seq<Action>, f: nat)
    requires f < |s.rows| && s.rows[f].status.Terminal() && !Frozen(s.rows[f])
    ensures f < |Exec(s, run).rows| && !Frozen(Exec(s, run).rows[f])
    decreases |run|
  {
    if run != [] {
      FrozenKept(s, run[0], s.rows[f]);
      RowAfterFacts(s, run[0], s.rows[f]);
      LooseStaysLoose(Next(s, run[0]), run[1..], f);
    }
  }

  lemma {:induction false} FrozenBefore(s: System, run: seq<Action>, f: nat)
    requires f < |s.rows| && f < |Exec(s, run).rows| && Frozen(Exec(s, run).rows[f])
    ensures NeverDone(s, run, f)
    decreases |run|
  {
    if s.rows[f].Done() {
      LooseStaysLoose(s, run, f);
    } else if run != [] {
      FrozenBefore(Next(s, run[0]), run[1..], f);
    }
  }

  lemma {:induction false} NeverDoneJoin(s: System, run: seq<Action>, more: seq<Action>, f: nat)
    requires NeverDone(s, run, f) && NeverDone(Exec(s, run), more, f)
    ensures NeverDone(s, run + more, f)
    decreases |run|
  {
    if run == [] {
      assert run + more == more;
    } else {
      assert (run + more)[1..] == run[1..] + more;
      NeverDoneJoin(Next(s, run[0]), run[1..], more, f);
    }
  }

  /** With no expected outcome, or once canceled, a blocking failure stops the dish in every continuation. */
  lemma {:induction false} FrozenFailuresStopTheDish(lockTimeout: nat, clock: int, rows: seq<Row>,
                                                     run: seq<Action>, more: seq<Action>, f: nat)
    requires Seeded(rows) && f < |rows| && f < |Exec(Start(lockTimeout, clock, rows), run).rows|
    requires Frozen(Exec(Start(lockTimeout, clock, rows), run).rows[f])
    ensures var t := Exec(Start(lockTimeout, clock, rows), run + more);
            |t.rows| == |rows| && Frozen(t.rows[f]) && Quiet(t, f)
  {
    var s := Start(lockTimeout, clock, rows);
    FrozenBefore(s, run, f);
    FrozenAfter(Exec(s, run), more, f);
    NeverDoneJoin(s, run, more, f);
    ExecJoin(s, run, more);
    FailuresStopTheDish(lockTimeout, clock, rows, run + more, f);
  }

  // ---- When a failure can come too late ---------------------------------------------------

  /** Wherever the row is a blocking failure, nothing behind it runs or is meant to. */
  ghost predicate StopsAt(s: System, f: nat) {
    f < |s.rows| && (s.rows[f].Blocking() ==> Quiet(s, f))
  }

  lemma {:induction false} SuccessKept(s: System, a: Action, row: Row)
    requires AcceptsEverySuccess(row.step.expected) && row.status.Succeeded?
    ensures RowAfter(s, a, row).status.Succeeded?
  {
    AcceptsEverySuccessMeaning(row.step.expected);
    var request := Request(s, a, row);
    if request.Some? && request.value.Ok? {
      match a
      case RunnerAnswer(w, body) =>
        var p := RunnerPayload(s.runners[w], body, s.clock);
        assert p.status.value in Transitions(Succeeded);
        assert p.outcome.Set? && (p.outcome.value.JNull? || p.outcome.value.JObj?);
      case TimerReport(_, seen, status, outcome, _, _) =>
        assert CarriedOutcome(seen, outcome).JNull? || CarriedOutcome(seen, outcome).JObj?;
      case _ =>
    }
  }

  lemma {:induction false} QuietOrSucceeded(s: System, run: seq<Action>, f: nat)
    requires Inv(s) && f < |s.rows| && !s.rows[f].step.onFailure.Continue? &&
             AcceptsEverySuccess(s.rows[f].step.expected)
    requires Quiet(s, f) || s.rows[f].status.Succeeded?
    ensures StopsAt(Exec(s, run), f)
    decreases |run|
  {
    if run != [] {
      InvKept(s, run[0]);
      RowsMoveOnward(s, run[0]);
      if s.rows[f].status.Succeeded? {
        SuccessKept(s, run[0], s.rows[f]);
      } else {
        QuietKept(s, run[0], f);
      }
      QuietOrSucceeded(Next(s, run[0]), run[1..], f);
    }
  }

  // ---- The run in which it does --------------------------------------------------------

  /** With everything before it succeeded, a row behind f starts. */
  lemma {:induction false} ArriveBehind(s: System, c: nat, f: nat, m: nat) returns (run: seq<Action>, t: System, j: nat)
    requires Calm(s, c) && Behind(s.rows, f, m) && s.rows[m].status.Pending?
    requires OpenedCall(s.rows).todo != [] && OpenedCall(s.rows).todo[0] == s.rows[m].step.id
    requires s.rows[f].status.Succeeded? && Unanswered(s, f)
    ensures t == Exec(s, run) && Inv(t) && Onward(s.rows, t.rows) && Unanswered(t, f)
    ensures Behind(t.rows, f, j) && t.rows[j].startedAt.Some?
  {
    run, t := StartFresh(s, c, m);
    InvOnRuns(s, run);
    j := m;
  }

  /** The dish works its way up until a row behind f starts; f has succeeded by then. */
  lemma {:induction false} DriveBehind(s: System, c: nat, f: nat, i: nat) returns (run: seq<Action>, t: System, j: nat)
    requires Calm(s, c) && Behind(s.rows, f, i) && s.rows[i].status.Pending?
    requires s.rows[f].status.Pending? || Unanswered(s, f)
    ensures t == Exec(s, run) && Inv(t) && Onward(s.rows, t.rows) && Unanswered(t, f)
    ensures Behind(t.rows, f, j) && t.rows[j].startedAt.Some?
    decreases PendingCount(s.rows)
  {
    var m := HeadRow(s.rows, i);
    if Behind(s.rows, f, m) {
      BelowLeastOpen(s.rows, m, f);
      run, t, j := ArriveBehind(s, c, f, m);
    } else {
      var first, s1 := StepForward(s, c, m, f);
      var rest;
      rest, t, j := DriveBehind(s1, c + 1, f, i);
      run := first + rest;
      ExecJoin(s, first, rest);
      OnwardOnce(s.rows, m, s1.rows[m]);
      OnwardTwice(s.rows, s1.rows, t.rows);
    }
  }

  /**
    The exception fail-stop has to make, in every dish with a row behind f. When the expectation can
    be missed by a success, a second worker whose claim outlived its lease may report such an outcome
    after f was judged a success and a later row has started: f turns into a blocking failure.
  */
  lemma {:induction false} RejudgedFailureLeaks(lockTimeout: nat, clock: int, rows: seq<Row>, f: nat, i: nat)
    returns (run: seq<Action>)
    requires Seeded(rows) && Behind(rows, f, i)
    requires !rows[f].step.onFailure.Continue? && !AcceptsEverySuccess(rows[f].step.expected)
    ensures var t := Exec(Start(lockTimeout, clock, rows), run);
            |t.rows| == |rows| && t.rows[f].Blocking() &&
            exists j: nat :: Behind(t.rows, f, j) && t.rows[j].startedAt.Some?
  {
    var s := Start(lockTimeout, clock, rows);
    StartOk(lockTimeout, clock, rows);
    forall k | 0 <= k < |rows| ensures Ready(rows[k]) { assert rows[k] in rows; }
    var first, t, j := DriveBehind(s, 0, f, i);
    var expected := t.rows[f].step.expected;
    var answer := RunnerAnswer(1, Success(JObj(MissingOutcome(expected))));
    AcceptsEverySuccessMeaning(expected);
    Answered(t, 1, Succeeded, JObj(MissingOutcome(expected)), f);
    run := first + [answer];
    ExecJoin(s, first, [answer]);
    ExecStep(t, answer, []);
    var last := Next(t, answer);
    assert Behind(last.rows, f, j) && last.rows[j].startedAt.Some?;
  }

  /**
    Exactly when fail-stop holds in every run, read off the expected outcome before the dish is
    cooked: the row has no row behind it to stop, tolerates its failure, or expects what every
    succeeded step returns.
  */
  lemma {:induction false} FailStopExactly(lockTimeout: nat, clock: int, rows: seq<Row>, f: nat)
    requires Seeded(rows) && f < |rows|
    ensures (forall run :: StopsAt(Exec(Start(lockTimeout, clock, rows), run), f)) <==>
            (forall i: nat :: !Behind(rows, f, i)) || rows[f].step.onFailure.Continue? ||
            AcceptsEverySuccess(rows[f].step.expected)
  {
    var s := Start(lockTimeout, clock, rows);
    QuietAtStart(lockTimeout, clock, rows, f);
    var e := rows[f].step.expected;
    if i: nat :| Behind(rows, f, i) && !rows[f].step.onFailure.Continue? && !AcceptsEverySuccess(e) {
      var run := RejudgedFailureLeaks(lockTimeout, clock, rows, f, i);
      var t := Exec(s, run);
      var j: nat :| Behind(t.rows, f, j) && t.rows[j].startedAt.Some?;
      assert !Quiet(t, f) && !StopsAt(Exec(s, run), f);
    } else {
      forall run ensures StopsAt(Exec(s, run), f) { NothingToStop(s, run, f); }
    }
  }

  lemma {:induction false} NothingToStop(s: System, run: seq<Action>, f: nat)
    requires Inv(s) && f < |s.rows| && Quiet(s, f)
    requires (forall i: nat :: !Behind(s.rows, f, i)) || s.rows[f].step.onFailure.Continue? ||
             AcceptsEverySuccess(s.rows[f].step.expected)
    ensures StopsAt(Exec(s, run), f)
  {
    InvOnRuns(s, run);
    var t := Exec(s, run);
    if forall i: nat :: !Behind(s.rows, f, i) {
      assert forall i: nat :: Behind(t.rows, f, i) ==> Behind(s.rows, f, i);
    } else if !s.rows[f].step.onFailure.Continue? {
      QuietOrSucceeded(s, run, f);
    }
  }
}
