/** What an order records: of its dispatches, of the dishes it finalizes, and of the alert's notifications. */
module OrderOutcomes {
  import opened Wrappers
  import opened Text
  import opened Cook
  import opened Orders

  // ---- Finalization, one step ---------------------------------------------------------------

  /** The step ends a dish of this phase, and nothing else of the open order is under way. */
  ghost predicate Settles(o: Order, a: Action, phase: Phase) {
    a.FinalizeDish? && a.dish < |o.dishes| && o.dishes[a.dish].phase == phase && !o.status.Terminal() &&
    forall i :: 0 <= i < |o.dishes| && i != a.dish ==> !o.dishes[i].status.Active()
  }

  /** The remediation worked, was not needed, or failed: exactly as the dish ended. */
  predicate OutcomeOf(status: DishStatus, outcome: Remediation) {
    (outcome.OutcomeSucceeded? <==> status.DishComplete?) && (outcome.OutcomeNone? <==> status.DishCanceled?) &&
    !outcome.OutcomePending?
  }

  /** How an order ends with its last dish; a canceled remediation is no failure of the order. */
  predicate EndOf(phase: Phase, dish: DishStatus, order: OrderStatus) {
    (order.Complete? <==> dish.DishComplete? || (phase.PhaseFiring? && dish.DishCanceled?)) &&
    (order.Canceled? <==> phase.PhaseResolving? && dish.DishCanceled?) &&
    (order.Errored? <==> dish.DishErrored?) && (order.TimedOut? <==> dish.DishTimedOut?) &&
    (order.Failed? <==> dish.DishFailed? || dish.DishProcessing?) && order.Terminal()
  }

  /** What finalizing a dish does to its order, in every case. */
  lemma {:induction false} FinalizationRecords(o: Order, d: nat, status: FinalDishStatus)
    requires d < |o.dishes|
    ensures var phase, t, again := o.dishes[d].phase, Finalized(o, d, status).0, Finalized(o, d, status).1;
            t.dishes == o.dishes[d := DishRecord(phase, status)] &&
            t.alertResolved == o.alertResolved && t.counter == o.counter && t.clearTimeout == o.clearTimeout &&
            (again <==> Settles(o, FinalizeDish(d, status), PhaseFiring) && o.alertResolved) &&
            (again ==> t.status.Resolving? && t.isActive) &&
            (!Settles(o, FinalizeDish(d, status), phase) ==> t == o.(dishes := t.dishes)) &&
            (Settles(o, FinalizeDish(d, status), phase) ==>
              !t.autoClose && t.clearDeadline.None? && t.clearTimedOut.None? &&
              (if phase.PhaseFiring? then OutcomeOf(status, t.remediation) else t.remediation == o.remediation) &&
              (!again ==> EndOf(phase, status, t.status) && !t.isActive))
  {}

  // ---- Dispatch, one step ---------------------------------------------------------------------

  /** The recipe a dispatch may use: the alert group's own, else the catch-all where that is allowed. */
  ghost predicate Offers(o: Order, own: Option<Recipe>, catchAll: Option<Option<Recipe>>, recipe: Recipe) {
    own == Some(recipe) ||
    (own.None? && catchAll == Some(Some(recipe)) && (o.status.New? || o.remediation.OutcomeNone?))
  }

  /** A remediation step that runs while the alert fires; a step with no phase runs in both. */
  ghost predicate Remedial(recipe: Recipe) {
    exists step :: step in recipe.steps && step.ingredient.Some? &&
      Normalize(step.ingredient.value.purpose) == "remediation" &&
      (step.runPhase == None || step.runPhase == Some("") || Normalize(step.runPhase.value) in {"firing", "both"})
  }

  ghost predicate Usable(recipe: Recipe) {
    forall step :: step in recipe.steps && step.ingredient.Some? ==> step.ingredient.value.active
  }

  ghost predicate Ready(o: Order) {
    o.status.New? || (o.status.Resolving? && !(o.remediation.OutcomePending? && HasActiveFiring(o.dishes)))
  }

  /** The step runs in the phase: firing steps and steps of both phases while the alert fires, others in their own. */
  predicate RunsIn(step: RecipeStep, phase: string) {
    var unset := step.runPhase == None || step.runPhase == Some("");
    if phase == "firing" then unset || Normalize(step.runPhase.value) in {"firing", "both"}
    else if phase == "both" then unset || Normalize(step.runPhase.value) == "both"
    else !unset && Normalize(step.runPhase.value) == phase
  }

  lemma {:induction false} PhaseRemediationMeaning(recipe: Recipe, phase: string)
    ensures HasPhaseRemediation(recipe, phase) <==>
            exists step :: step in recipe.steps && step.ingredient.Some? &&
                           Normalize(step.ingredient.value.purpose) == "remediation" && RunsIn(step, phase)
  {
    StripOfTrimmed("both");
    assert Lower("both") == "both" && Normalize("both") == "both";
    assert "firing" != "both" by { assert |"firing"| != |"both"|; }
    forall step ensures Remediates(step, phase) <==>
                        step.ingredient.Some? && Normalize(step.ingredient.value.purpose) == "remediation" &&
                        RunsIn(step, phase) {}
  }

  lemma {:induction false} RemedialMeaning(recipe: Recipe)
    ensures HasPhaseRemediation(recipe, "firing") <==> Remedial(recipe)
  {
    PhaseRemediationMeaning(recipe, "firing");
  }

  lemma {:induction false} ChosenMeaning(o: Order, phase: Phase, own: Option<Recipe>, catchAll: Option<Option<Recipe>>)
    requires phase.PhaseFiring? <==> o.status.New?
    ensures forall recipe :: Offers(o, own, catchAll, recipe) <==> ChosenRecipe(o, phase, own, catchAll) == Some(recipe)
  {}

  /** Which answer a dispatch gets. */
  lemma {:induction false} DispatchAnswers(o: Order, own: Option<Recipe>, catchAll: Option<Option<Recipe>>)
    ensures var response := Dispatched(o, own, catchAll).1;
            (response.NotDispatchable? <==> !o.status.New? && !o.status.Resolving?) &&
            (response.Waiting? <==>
             o.status.Resolving? && o.remediation.OutcomePending? && HasActiveFiring(o.dishes)) &&
            (response.NoRecipe? <==> Ready(o) && forall recipe :: !Offers(o, own, catchAll, recipe)) &&
            (response.InactiveRecipe? <==>
             Ready(o) && exists recipe :: Offers(o, own, catchAll, recipe) && !Usable(recipe)) &&
            (response.Planned? <==> Ready(o) && exists recipe :: Offers(o, own, catchAll, recipe) && Usable(recipe))
  {
    var phase := if o.status.New? then PhaseFiring else PhaseResolving;
    ActiveDishFinds(o.dishes, PhaseFiring);
    ChosenMeaning(o, phase, own, catchAll);
    var chosen := ChosenRecipe(o, phase, own, catchAll);
    if chosen.Some? {
      assert Offers(o, own, catchAll, chosen.value);
      assert HasInactiveIngredient(chosen.value) <==> !Usable(chosen.value);
    }
  }

  /** The dish a dispatch plans for: the latest live one of the phase, or a new one. */
  ghost predicate PlannedDish(before: seq<DishRecord>, after: seq<DishRecord>, d: nat, phase: Phase) {
    d < |after| && after[d].phase == phase && after[d].status.Active() &&
    (forall i :: d < i < |after| ==> after[i].phase != phase || !after[i].status.Active()) &&
    (after == before ||
     (after == before + [DishRecord(phase, DishNew)] &&
      forall i :: 0 <= i < |before| ==> before[i].phase != phase || !before[i].status.Active()))
  }

  lemma {:induction false} LatestActive(dishes: seq<DishRecord>, phase: Phase)
    ensures ActiveDish(dishes, phase).Some? ==>
              PlannedDish(dishes, dishes, ActiveDish(dishes, phase).value, phase)
    ensures ActiveDish(dishes, phase).None? ==>
              PlannedDish(dishes, dishes + [DishRecord(phase, DishNew)], |dishes|, phase)
  {
    ActiveDishFinds(dishes, phase);
    if dishes != [] {
      var n := |dishes| - 1;
      if !(dishes[n].phase == phase && dishes[n].status.Active()) {
        LatestActive(dishes[..n], phase);
        assert dishes == dishes[..n] + [dishes[n]];
      }
    }
  }

  /** What a dispatch writes: nothing unless it plans a dish or finds no recipe. */
  lemma {:induction false} DispatchWrites(o: Order, own: Option<Recipe>, catchAll: Option<Option<Recipe>>)
    ensures var t, response := Dispatched(o, own, catchAll).0, Dispatched(o, own, catchAll).1;
            t.alertResolved == o.alertResolved && t.counter == o.counter &&
            (response.NotDispatchable? || response.Waiting? || response.InactiveRecipe? ==> t == o) &&
            (response.NoRecipe? ==>
              t.status.Resolving? && t.isActive && t.remediation.OutcomeNone? && t.clearTimeout.None? &&
              t.clearDeadline.None? && t.clearTimedOut.None? && !t.autoClose && t.dishes == o.dishes) &&
            (response.Planned? ==>
              PlannedDish(o.dishes, t.dishes, response.dish, response.phase) &&
              (response.phase.PhaseFiring? <==> o.status.New?))
    ensures var t, response := Dispatched(o, own, catchAll).0, Dispatched(o, own, catchAll).1;
            response.Planned? && !o.status.New? ==> t == o.(dishes := t.dishes)
    ensures var t, response := Dispatched(o, own, catchAll).0, Dispatched(o, own, catchAll).1;
            response.Planned? && o.status.New? ==>
              t.status.Processing? && t.isActive == o.isActive && t.clearDeadline.None? && t.clearTimedOut.None? &&
              !t.autoClose &&
              forall recipe :: Offers(o, own, catchAll, recipe) ==>
                if Remedial(recipe) then t.remediation.OutcomePending? && t.clearTimeout == recipe.clearTimeout
                else t.remediation.OutcomeNone? && t.clearTimeout.None?
  {
    var phase := if o.status.New? then PhaseFiring else PhaseResolving;
    ChosenMeaning(o, phase, own, catchAll);
    LatestActive(o.dishes, phase);
    var chosen := ChosenRecipe(o, phase, own, catchAll);
    if chosen.Some? { RemedialMeaning(chosen.value); }
  }

  // ---- Over runs ---------------------------------------------------------------------------------

  lemma {:induction false} ExecSnoc(o: Order, run: seq<Action>, a: Action)
    ensures Exec(o, run + [a]) == Next(Exec(o, run), a)
    decreases |run|
  {
    if run == [] {
      assert run + [a] == [a] && [a][1..] == [];
    } else {
      assert (run + [a])[0] == run[0] && (run + [a])[1..] == run[1..] + [a];
      ExecSnoc(Next(o, run[0]), run[1..], a);
    }
  }

  /** Of the steps of the run with the property, the i-th is the last. */
  ghost predicate LastOf(o: Order, run: seq<Action>, writes: (Order, Action) -> bool, i: nat) {
    i < |run| && writes(Exec(o, run[..i]), run[i]) &&
    forall j :: i < j < |run| ==> !writes(Exec(o, run[..j]), run[j])
  }

  /** A column has the value its last writer gave it, and its first value where there is none. */
  lemma {:induction false} LastWriter<T>(o: Order, run: seq<Action>, writes: (Order, Action) -> bool,
                                         column: Order -> T)
    returns (i: int)
    requires forall s, a :: !writes(s, a) ==> column(Next(s, a)) == column(s)
    ensures -1 <= i < |run|
    ensures i == -1 ==>
              column(Exec(o, run)) == column(o) && forall j :: 0 <= j < |run| ==> !writes(Exec(o, run[..j]), run[j])
    ensures i >= 0 ==> LastOf(o, run, writes, i) && column(Exec(o, run)) == column(Next(Exec(o, run[..i]), run[i]))
    decreases |run|
  {
    if run == [] {
      i := -1;
    } else {
      var n := |run| - 1;
      assert run == run[..n] + [run[n]];
      ExecSnoc(o, run[..n], run[n]);
      if writes(Exec(o, run[..n]), run[n]) {
        i := n;
      } else {
        i := LastWriter(o, run[..n], writes, column);
        assert forall j :: 0 <= j <= n ==> run[..n][..j] == run[..j];
      }
    }
  }

  /**
    The dispatches that write the remediation outcome: of a new order with a usable recipe, and of one
    without recipe.
  */
  ghost predicate Plans(o: Order, a: Action) {
    a.DispatchOrder? && Ready(o) &&
    ((forall recipe :: !Offers(o, a.own, a.catchAll, recipe)) ||
     (o.status.New? && exists recipe :: Offers(o, a.own, a.catchAll, recipe) && Usable(recipe)))
  }

  ghost predicate WritesOutcome(o: Order, a: Action) {
    Settles(o, a, PhaseFiring) || Plans(o, a)
  }

  lemma {:induction false} OutcomeKept(s: Order, a: Action)
    requires !WritesOutcome(s, a)
    ensures Next(s, a).remediation == s.remediation
  {
    match a
    case DispatchOrder(own, catchAll) =>
      DispatchAnswers(s, own, catchAll);
      DispatchWrites(s, own, catchAll);
    case FinalizeDish(d, status) => if d < |s.dishes| { FinalizationRecords(s, d, status); }
    case _ =>
  }

  /** What such a step writes: how the dish ended, or whether there is a remediation to wait for. */
  ghost predicate OutcomeWritten(o: Order, a: Action, outcome: Remediation) {
    if a.FinalizeDish? then OutcomeOf(a.status, outcome)
    else
      a.DispatchOrder? &&
      (outcome.OutcomePending? <==> exists recipe :: Offers(o, a.own, a.catchAll, recipe) && Remedial(recipe)) &&
      (outcome.OutcomeNone? <==> !outcome.OutcomePending?)
  }

  lemma {:induction false} OutcomeWrites(s: Order, a: Action)
    requires WritesOutcome(s, a)
    ensures OutcomeWritten(s, a, Next(s, a).remediation)
  {
    match a
    case DispatchOrder(own, catchAll) =>
      DispatchAnswers(s, own, catchAll);
      DispatchWrites(s, own, catchAll);
      if recipe :| Offers(s, own, catchAll, recipe) { SameOffer(s, own, catchAll, recipe); }
    case FinalizeDish(d, status) => FinalizationRecords(s, d, status);
    case _ =>
  }

  lemma {:induction false} SameOffer(o: Order, own: Option<Recipe>, catchAll: Option<Option<Recipe>>, recipe: Recipe)
    requires Offers(o, own, catchAll, recipe)
    ensures forall other :: Offers(o, own, catchAll, other) ==> other == recipe
  {}

  /**
    Which outcome an order records, over every run: the one its last settled firing dish or its last
    planning dispatch stands for. A remediation counts as succeeded exactly when that was a dish that
    ended complete, as not needed when it was canceled or there was none, as failed when it ended otherwise.
  */
  lemma {:induction false} OutcomeOfRun(o: Order, run: seq<Action>) returns (i: int)
    ensures -1 <= i < |run|
    ensures i == -1 ==>
              Exec(o, run).remediation == o.remediation &&
              forall j :: 0 <= j < |run| ==> !WritesOutcome(Exec(o, run[..j]), run[j])
    ensures i >= 0 ==>
              LastOf(o, run, WritesOutcome, i) && OutcomeWritten(Exec(o, run[..i]), run[i], Exec(o, run).remediation)
  {
    forall s, a | !WritesOutcome(s, a) ensures Next(s, a).remediation == s.remediation { OutcomeKept(s, a); }
    i := LastWriter(o, run, WritesOutcome, (s: Order) => s.remediation);
    if i >= 0 { OutcomeWrites(Exec(o, run[..i]), run[i]); }
  }

  /** The order ends with a dish: the step that makes it terminal, and the status it then has. */
  ghost predicate EndsWith(o: Order, a: Action, status: OrderStatus) {
    a.FinalizeDish? && a.dish < |o.dishes| && Settles(o, a, o.dishes[a.dish].phase) &&
    EndOf(o.dishes[a.dish].phase, a.status, status)
  }

  lemma {:induction false} EndingStep(s: Order, a: Action)
    ensures Completes(s, a) ==> EndsWith(s, a, Next(s, a).status)
    ensures s.status.Terminal() && Next(s, a).status.Terminal() ==> Next(s, a).status == s.status
  {
    match a
    case DispatchOrder(own, catchAll) => DispatchWrites(s, own, catchAll);
    case FinalizeDish(d, status) => if d < |s.dishes| { FinalizationRecords(s, d, status); }
    case _ =>
  }

  /** How an order ends, over every run: exactly as the last dish that was finalized with nothing else under way. */
  lemma {:induction false} EndOfRun(o: Order, run: seq<Action>) returns (i: nat)
    requires !o.status.Terminal() && Exec(o, run).status.Terminal()
    ensures LastOf(o, run, Completes, i) && EndsWith(Exec(o, run[..i]), run[i], Exec(o, run).status)
    decreases |run|
  {
    var n := |run| - 1;
    assert run == run[..n] + [run[n]];
    ExecSnoc(o, run[..n], run[n]);
    var before := Exec(o, run[..n]);
    EndingStep(before, run[n]);
    if Completes(before, run[n]) {
      i := n;
    } else {
      i := EndOfRun(o, run[..n]);
      assert forall j :: 0 <= j <= n ==> run[..n][..j] == run[..j];
    }
  }

  // ---- Notifications ---------------------------------------------------------------------------

  /** A firing notification that finds the order active. */
  predicate Counts(o: Order, a: Action) {
    a.AlertFiring? && o.isActive
  }

  function Firings(o: Order, run: seq<Action>): nat
    decreases |run|
  {
    if run == [] then 0 else (if Counts(o, run[0]) then 1 else 0) + Firings(Next(o, run[0]), run[1..])
  }

  /** What a notification does to the order. */
  lemma {:induction false} NotificationWrites(o: Order, a: Action)
    requires a.AlertFiring? || a.AlertResolved?
    ensures Next(o, a) ==
            o.(status := Next(o, a).status, isActive := Next(o, a).isActive, counter := Next(o, a).counter,
               alertResolved := Next(o, a).alertResolved)
    ensures a.AlertFiring? && o.isActive ==>
              !Next(o, a).alertResolved && Next(o, a).isActive &&
              (Next(o, a).status == if o.status.Resolving? then New else o.status)
    ensures a.AlertFiring? && !o.isActive ==> Next(o, a) == o
    ensures a.AlertResolved? && (o.isActive <==> !o.status.Terminal()) ==>
              Next(o, a).alertResolved && Next(o, a).counter == o.counter &&
              (if o.status.Terminal() && o.alertResolved then Next(o, a) == o
               else Next(o, a).status.Resolving? && Next(o, a).isActive)
  {}

  lemma {:induction false} NoticesKept(s: Order, a: Action)
    ensures !a.AlertFiring? && !a.AlertResolved? ==> Next(s, a).alertResolved == s.alertResolved
    ensures Next(s, a).counter == s.counter + (if Counts(s, a) then 1 else 0)
  {
    match a
    case DispatchOrder(own, catchAll) => DispatchWrites(s, own, catchAll);
    case FinalizeDish(d, status) => if d < |s.dishes| { FinalizationRecords(s, d, status); }
    case _ =>
  }

  /** The counter is the number of firing notifications the active order received. */
  lemma {:induction false} CounterOfRun(o: Order, run: seq<Action>)
    ensures Exec(o, run).counter == o.counter + Firings(o, run)
    decreases |run|
  {
    if run != [] {
      NoticesKept(o, run[0]);
      CounterOfRun(Next(o, run[0]), run[1..]);
    }
  }

  ghost predicate Notices(o: Order, a: Action) {
    a.AlertResolved? || Counts(o, a)
  }

  /** An order knows its alert as resolved exactly when the last notification it took was a resolved one. */
  lemma {:induction false} AlertOfRun(o: Order, run: seq<Action>) returns (i: int)
    ensures -1 <= i < |run|
    ensures i == -1 ==>
              Exec(o, run).alertResolved == o.alertResolved &&
              forall j :: 0 <= j < |run| ==> !Notices(Exec(o, run[..j]), run[j])
    ensures i >= 0 ==> LastOf(o, run, Notices, i) && (Exec(o, run).alertResolved <==> run[i].AlertResolved?)
  {
    forall s, a | !Notices(s, a) ensures Next(s, a).alertResolved == s.alertResolved { NoticesKept(s, a); }
    i := LastWriter(o, run, Notices, (s: Order) => s.alertResolved);
  }
}
