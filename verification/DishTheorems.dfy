/** What the dish protocol guarantees over whole runs. */
module DishTheorems {
  import opened Wrappers
  import opened Execution
  import opened Rows
  import opened Segments
  import opened Cook
  import opened Protocol

  lemma {:induction false} ExecJoin(s: System, first: seq<Action>, second: seq<Action>)
    ensures Exec(s, first + second) == Exec(Exec(s, first), second)
    decreases |first|
  {
    if first == [] {
      assert first + second == second;
    } else {
      assert (first + second)[1..] == first[1..] + second;
      ExecJoin(Next(s, first[0]), first[1..], second);
    }
  }

  lemma {:induction false} ExecStep(s: System, a: Action, rest: seq<Action>)
    ensures Exec(s, [a] + rest) == Exec(Next(s, a), rest)
  {
    assert ([a] + rest)[1..] == rest;
  }

  // ---- Each row is dispatched once -------------------------------------------------

  /** The calls that dispatched the row with this id. */
  ghost function Winners(s: System, id: nat): set<nat> {
    set c | c in s.calls && id in s.calls[c].won
  }

  /** A started row has exactly one winning call, a row not started has none. */
  ghost predicate WonOnce(s: System) {
    (forall k :: 0 <= k < |s.rows| ==>
      if s.rows[k].startedAt.Some? then exists c :: Winners(s, s.rows[k].step.id) == {c}
      else Winners(s, s.rows[k].step.id) == {})
  }

  lemma {:induction false} SwapWins(s: System, a: Action, k: nat)
    requires k < |s.rows|
    requires RowsAfter(s, a)[k].startedAt != s.rows[k].startedAt
    ensures a.Swap? && a.call in s.calls && s.calls[a.call].todo != [] &&
            s.calls[a.call].todo[0] == s.rows[k].step.id && Ready(s.rows[k]) && Matches(s.rows, s.rows[k].step.id)
  {
    RowAfterFacts(s, a, s.rows[k]);
    assert s.rows[k] in s.rows;
  }

  lemma {:induction false} WinnersAfter(s: System, a: Action, id: nat)
    ensures Winners(Next(s, a), id) == Winners(s, id) +
              (if a.Swap? && a.call in s.calls && s.calls[a.call].todo != [] && s.calls[a.call].todo[0] == id &&
               Matches(s.rows, id)
               then {a.call} else {})
  {}

  lemma {:induction false} WonOnceKept(s: System, a: Action)
    requires Inv(s) && WonOnce(s)
    ensures WonOnce(Next(s, a))
  {
    var t := Next(s, a);
    RowsMoveOnward(s, a);
    forall k | 0 <= k < |t.rows|
      ensures if t.rows[k].startedAt.Some? then exists c :: Winners(t, t.rows[k].step.id) == {c}
              else Winners(t, t.rows[k].step.id) == {}
    {
      var id := s.rows[k].step.id;
      WinnersAfter(s, a, id);
      if t.rows[k].startedAt != s.rows[k].startedAt {
        SwapWins(s, a, k);
        assert Winners(t, id) == {a.call};
      }
    }
  }

  lemma {:induction false} WonOnceOnRuns(s: System, run: seq<Action>)
    requires Inv(s) && WonOnce(s)
    ensures WonOnce(Exec(s, run))
    decreases |run|
  {
    if run != [] {
      WonOnceKept(s, run[0]);
      InvKept(s, run[0]);
      WonOnceOnRuns(Next(s, run[0]), run[1..]);
    }
  }

  /** Over a whole run every started row was dispatched by exactly one advance call, and no other row by any. */
  lemma {:induction false} DispatchedByOneCall(lockTimeout: nat, clock: int, rows: seq<Row>, run: seq<Action>)
    requires Seeded(rows)
    ensures WonOnce(Exec(Start(lockTimeout, clock, rows), run))
  {
    var s := Start(lockTimeout, clock, rows);
    StartOk(lockTimeout, clock, rows);
    forall k | 0 <= k < |rows| ensures rows[k].startedAt.None? { assert rows[k] in rows; }
    WonOnceOnRuns(s, run);
  }

  // ---- Ownership handoff -------------------------------------------------------------

  datatype Owner = Nobody | Runner | Timer

  function OwnerOf(row: Row): Owner {
    if row.execId.None? then Nobody else if IsRunnerReceipt(row.execId) then Runner else Timer
  }

  function Stage(owner: Owner): nat {
    match owner case Nobody => 0 case Runner => 1 case Timer => 2
  }

  /** One step: the receipt advances by at most one stage, and a provider receipt is final. */
  lemma {:induction false} ReceiptStep(s: System, a: Action, row: Row)
    requires RowOk(row) && RunnersOk(s.runners)
    ensures var after := RowAfter(s, a, row);
            Stage(OwnerOf(row)) <= Stage(OwnerOf(after)) <= Stage(OwnerOf(row)) + 1 &&
            (OwnerOf(row).Timer? ==> after.execId == row.execId) &&
            (OwnerOf(row).Nobody? && OwnerOf(after).Runner? ==> a.Swap?) &&
            (OwnerOf(row).Runner? && OwnerOf(after).Timer? ==> a.RunnerAnswer?) &&
            (a.TimerReport? && OwnerOf(row).Runner? ==> after == row) &&
            ((a.RunnerAnswer? || a.RunnerError?) && !OwnerOf(row).Runner? ==> after == row)
  {
    RunnerReceiptRecognised(row.step.id);
  }

  /**
    Handoff over a run: ownership only moves nobody, runner, provider; while the runner owns the
    receipt it is the row's own runner receipt; once a provider receipt is stored it never changes.
  */
  lemma {:induction false} ReceiptHandoff(s: System, run: seq<Action>, k: nat)
    requires Inv(s) && k < |s.rows|
    ensures var t := Exec(s, run);
            k < |t.rows| && Stage(OwnerOf(s.rows[k])) <= Stage(OwnerOf(t.rows[k])) &&
            (OwnerOf(t.rows[k]).Runner? ==> t.rows[k].execId == Some(RunnerReceipt(s.rows[k].step.id))) &&
            (OwnerOf(s.rows[k]).Timer? ==> t.rows[k].execId == s.rows[k].execId)
    decreases |run|
  {
    if run != [] {
      InvKept(s, run[0]);
      RowsMoveOnward(s, run[0]);
      ReceiptStep(s, run[0], s.rows[k]);
      ReceiptHandoff(Next(s, run[0]), run[1..], k);
    }
  }

  // ---- Leases -------------------------------------------------------------------------

  /** The action is a claim of row `k` and succeeds. */
  ghost predicate Claims(s: System, a: Action, k: nat) {
    (a.PollClaim? || a.ExecutionClaim?) && k < |s.rows| &&
    Request(s, a, s.rows[k]).Some? && Request(s, a, s.rows[k]).value.Ok?
  }

  /** The action releases row `k`, or finishes it with a terminal reconcile. */
  ghost predicate Frees(s: System, a: Action, k: nat) {
    k < |s.rows| &&
    ((a.Release? && Request(s, a, s.rows[k]).Some? && Request(s, a, s.rows[k]).value.Ok?) ||
     (!s.rows[k].status.Terminal() && RowAfter(s, a, s.rows[k]).status.Terminal()))
  }

  ghost predicate NeverFreed(s: System, run: seq<Action>, k: nat)
    decreases |run|
  {
    run == [] || (!Frees(s, run[0], k) && NeverFreed(Next(s, run[0]), run[1..], k))
  }

  lemma {:induction false} LeaseStep(s: System, a: Action, k: nat)
    requires Inv(s) && k < |s.rows| && s.rows[k].claimedAt.Some? && !Frees(s, a, k)
    ensures var after := RowsAfter(s, a)[k];
            after.claimedAt.Some? && (after.claimedAt == s.rows[k].claimedAt || after.claimedAt == Some(s.clock))
  {
    RowAfterFacts(s, a, s.rows[k]);
    assert RowOk(s.rows[k]);
  }

  lemma {:induction false} LeaseHeld(s: System, run: seq<Action>, k: nat, since: int)
    requires Inv(s) && k < |s.rows| && NeverFreed(s, run, k)
    requires s.rows[k].claimedAt.Some? && since <= s.rows[k].claimedAt.value <= s.clock
    ensures var t := Exec(s, run);
            k < |t.rows| && t.rows[k].claimedAt.Some? && t.rows[k].status.Running? &&
            since <= t.rows[k].claimedAt.value && t.lockTimeout == s.lockTimeout
    decreases |run|
  {
    assert RowOk(s.rows[k]);
    if run != [] {
      LeaseStep(s, run[0], k);
      InvKept(s, run[0]);
      LeaseHeld(Next(s, run[0]), run[1..], k, since);
    }
  }

  /**
    Lease exclusion: two successful claims of one row, of either kind and by anybody, are separated
    by a release, by a terminal reconcile, or by more than the lock timeout.
  */
  lemma {:induction false} LeaseExclusion(s: System, first: Action, between: seq<Action>, second: Action, k: nat)
    requires Inv(s) && Claims(s, first, k)
    requires NeverFreed(Next(s, first), between, k)
    requires Claims(Exec(Next(s, first), between), second, k)
    ensures Exec(Next(s, first), between).clock > s.clock + s.lockTimeout * SECOND
  {
    InvKept(s, first);
    LeaseHeld(Next(s, first), between, k, s.clock);
  }

  /** In every reachable state a held claim means the row is running, so terminal rows hold none. */
  lemma {:induction false} ClaimsOnlyWhileRunning(lockTimeout: nat, clock: int, rows: seq<Row>, run: seq<Action>,
                                                  k: nat)
    requires Seeded(rows)
    ensures var t := Exec(Start(lockTimeout, clock, rows), run);
            k < |t.rows| ==>
              (t.rows[k].claimedAt.Some? <==> t.rows[k].claimedBy.Some?) &&
              (t.rows[k].claimedAt.Some? ==> t.rows[k].status.Running?)
  {
    BucketBarrier(lockTimeout, clock, rows, run);
    var t := Exec(Start(lockTimeout, clock, rows), run);
    if k < |t.rows| { assert RowOk(t.rows[k]); }
  }

  // ---- Termination ---------------------------------------------------------------------

  function Rank(row: Row): nat {
    if row.status.Pending? then 2 else if row.status.InFlight() then 1 else 0
  }

  function TotalRank(rows: seq<Row>): nat {
    if rows == [] then 0 else Rank(rows[0]) + TotalRank(rows[1..])
  }

  /** The action dispatches a row or reconciles a non-terminal row to a terminal status. */
  predicate Progress(s: System, a: Action) {
    exists k :: 0 <= k < |s.rows| &&
      ((s.rows[k].startedAt.None? && RowAfter(s, a, s.rows[k]).startedAt.Some?) ||
       (!s.rows[k].status.Terminal() && RowAfter(s, a, s.rows[k]).status.Terminal()))
  }

  function ProgressSteps(s: System, run: seq<Action>): nat
    decreases |run|
  {
    if run == [] then 0
    else (if Progress(s, run[0]) then 1 else 0) + ProgressSteps(Next(s, run[0]), run[1..])
  }

  lemma {:induction false} RankFalls(s: System, a: Action, row: Row)
    requires RowOk(row)
    ensures Rank(RowAfter(s, a, row)) <= Rank(row)
    ensures row.startedAt.None? && RowAfter(s, a, row).startedAt.Some? ==> Rank(RowAfter(s, a, row)) < Rank(row)
    ensures !row.status.Terminal() && RowAfter(s, a, row).status.Terminal() ==> Rank(RowAfter(s, a, row)) < Rank(row)
  {
    RowAfterFacts(s, a, row);
  }

  lemma {:induction false} TotalRankFalls(before: seq<Row>, after: seq<Row>)
    requires |before| == |after| && forall k :: 0 <= k < |before| ==> Rank(after[k]) <= Rank(before[k])
    ensures TotalRank(after) <= TotalRank(before)
    ensures (exists k :: 0 <= k < |before| && Rank(after[k]) < Rank(before[k])) ==> TotalRank(after) < TotalRank(before)
  {
    if before != [] {
      TotalRankFalls(before[1..], after[1..]);
      if k :| 0 <= k < |before| && Rank(after[k]) < Rank(before[k]) {
        if k > 0 { assert Rank(after[1..][k - 1]) < Rank(before[1..][k - 1]); }
      }
    }
  }

  lemma {:induction false} ProgressIsBounded(s: System, run: seq<Action>)
    requires Inv(s)
    ensures ProgressSteps(s, run) + TotalRank(Exec(s, run).rows) <= TotalRank(s.rows)
    decreases |run|
  {
    if run != [] {
      var after := RowsAfter(s, run[0]);
      forall k | 0 <= k < |s.rows| ensures Rank(after[k]) <= Rank(s.rows[k]) { RankFalls(s, run[0], s.rows[k]); }
      if Progress(s, run[0]) {
        var k :| 0 <= k < |s.rows| &&
          ((s.rows[k].startedAt.None? && RowAfter(s, run[0], s.rows[k]).startedAt.Some?) ||
           (!s.rows[k].status.Terminal() && RowAfter(s, run[0], s.rows[k]).status.Terminal()));
        RankFalls(s, run[0], s.rows[k]);
        assert Rank(after[k]) < Rank(s.rows[k]);
      }
      TotalRankFalls(s.rows, after);
      InvKept(s, run[0]);
      ProgressIsBounded(Next(s, run[0]), run[1..]);
    }
  }

  lemma {:induction false} SeededRank(rows: seq<Row>)
    requires forall r :: r in rows ==> r.status.Pending?
    ensures TotalRank(rows) == 2 * |rows|
  {
    if rows != [] { SeededRank(rows[1..]); }
  }

  /** Termination: a dish of n rows sees at most 2n dispatches and finishing reconciles in any run. */
  lemma {:induction false} AtMostTwoStepsPerRow(lockTimeout: nat, clock: int, rows: seq<Row>, run: seq<Action>)
    requires Seeded(rows)
    ensures ProgressSteps(Start(lockTimeout, clock, rows), run) <= 2 * |rows|
  {
    StartOk(lockTimeout, clock, rows);
    SeededRank(rows);
    ProgressIsBounded(Start(lockTimeout, clock, rows), run);
  }

  // ---- Finalization from a stale snapshot -------------------------------------------------

  lemma {:induction false} NothingAfterAllTerminal(s: System, run: seq<Action>)
    requires forall k :: 0 <= k < |s.rows| ==> s.rows[k].status.Terminal()
    ensures Onward(s.rows, Exec(s, run).rows)
    ensures forall k :: 0 <= k < |s.rows| ==>
              Exec(s, run).rows[k].status.Terminal() && Exec(s, run).rows[k].startedAt == s.rows[k].startedAt
    decreases |run|
  {
    if run != [] {
      var t := Next(s, run[0]);
      RowsMoveOnward(s, run[0]);
      forall k | 0 <= k < |s.rows| ensures t.rows[k].startedAt == s.rows[k].startedAt {
        RowAfterFacts(s, run[0], s.rows[k]);
      }
      NothingAfterAllTerminal(t, run[1..]);
    }
  }

  /**
    A call that decided to finalize on a snapshot without a pending row in the lowest blocking bucket
    may commit at any later time: every row is terminal by then and nothing is ever dispatched again.
  */
  lemma {:induction false} FinalizationNeverStale(s: System, c: nat, run: seq<Action>)
    requires Inv(s) && c in s.calls
    requires s.calls[c].decision.Finalize? && NoPendingInLowestBlocking(s.calls[c].snapshot)
    ensures Onward(s.rows, Exec(s, run).rows)
    ensures forall k :: 0 <= k < |s.rows| ==>
              Exec(s, run).rows[k].status.Terminal() && Exec(s, run).rows[k].startedAt == s.rows[k].startedAt
  {
    var snapshot := s.calls[c].snapshot;
    assert CallOk(s.calls[c], s.rows);
    assert DistinctIds(snapshot);
    forall r | r in snapshot ensures ServiceNamed(r) {
      var k :| 0 <= k < |snapshot| && snapshot[k] == r;
      assert s.rows[k] in s.rows;
    }
    FinalizationSound(snapshot);
    forall k | 0 <= k < |s.rows| ensures s.rows[k].status.Terminal() {
      assert snapshot[k] in snapshot;
    }
    NothingAfterAllTerminal(s, run);
  }
}
