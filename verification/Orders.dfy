/**
  The lifecycle of one order: dispatch (api/api/orders.py), finalization of its dishes
  (api/api/cook.py), and the alert webhook (api/services/pre_heat.py). One action is one
  transaction; an action the source refuses leaves the order unchanged.
*/
module Orders {
  import opened Wrappers
  import opened Text
  import opened Cook

  datatype OrderStatus = New | Processing | Resolving | Complete | Failed | Errored | TimedOut | Canceled {
    predicate Terminal() {
      Complete? || Failed? || Errored? || TimedOut? || Canceled?
    }

    function Rank(): nat {
      match this case New => 0 case Processing => 1 case Resolving => 2 case _ => 3
    }
  }

  datatype Remediation = OutcomePending | OutcomeSucceeded | OutcomeFailed | OutcomeNone

  datatype Phase = PhaseFiring | PhaseResolving

  datatype DishRecord = DishRecord(phase: Phase, status: DishStatus)

  /** The lifecycle columns of an order, and its dishes in the order they were created. */
  datatype Order = Order(
    status: OrderStatus, isActive: bool, remediation: Remediation, alertResolved: bool, counter: nat,
    clearTimeout: Option<int>, clearDeadline: Option<int>, clearTimedOut: Option<int>, autoClose: bool,
    dishes: seq<DishRecord>)

  // ---- Recipes ------------------------------------------------------------------

  datatype Ingredient = Ingredient(purpose: string, active: bool)

  datatype RecipeStep = RecipeStep(runPhase: Option<string>, ingredient: Option<Ingredient>)

  datatype Recipe = Recipe(steps: seq<RecipeStep>, clearTimeout: Option<int>)

  function RunPhase(step: RecipeStep): string {
    Normalize(if step.runPhase.Some? && step.runPhase.value != "" then step.runPhase.value else "both")
  }

  predicate Remediates(step: RecipeStep, phase: string) {
    step.ingredient.Some? &&
    (if phase == "firing" then RunPhase(step) == "firing" || RunPhase(step) == "both" else RunPhase(step) == phase) &&
    Normalize(step.ingredient.value.purpose) == "remediation"
  }

  predicate HasPhaseRemediation(recipe: Recipe, phase: string) {
    exists step :: step in recipe.steps && Remediates(step, phase)
  }

  /** `_recipe_has_phase_remediation` */
  method RecipeHasPhaseRemediation(recipe: Recipe, phase: string) returns (found: bool)
    ensures found <==> HasPhaseRemediation(recipe, phase)
  {
    for i := 0 to |recipe.steps|
      invariant forall j :: 0 <= j < i ==> !Remediates(recipe.steps[j], phase)
    {
      var step := recipe.steps[i];
      if step.ingredient.None? {
        continue;
      }
      var runPhase := RunPhase(step);
      if phase == "firing" && !(runPhase == "firing" || runPhase == "both") {
        continue;
      }
      if phase != "firing" && runPhase != phase {
        continue;
      }
      if Normalize(step.ingredient.value.purpose) == "remediation" {
        assert step in recipe.steps && Remediates(step, phase);
        return true;
      }
    }
    return false;
  }

  predicate HasInactiveIngredient(recipe: Recipe) {
    exists step :: step in recipe.steps && step.ingredient.Some? && !step.ingredient.value.active
  }

  // ---- Dispatch -------------------------------------------------------------------

  datatype Response = NotDispatchable | Waiting | NoRecipe | InactiveRecipe | Planned(dish: nat, phase: Phase)

  /** The latest active dish of a phase. */
  function ActiveDish(dishes: seq<DishRecord>, phase: Phase): Option<nat> {
    if dishes == [] then None
    else
      var last := dishes[|dishes| - 1];
      if last.phase == phase && last.status.Active() then Some(|dishes| - 1)
      else ActiveDish(dishes[..|dishes| - 1], phase)
  }

  /**
    The recipe of the alert group, else the configured catch-all for a firing dispatch or an order
    without remediation. `catchAll` is None when no catch-all is configured.
  */
  function ChosenRecipe(o: Order, phase: Phase, own: Option<Recipe>, catchAll: Option<Option<Recipe>>): Option<Recipe> {
    if own.Some? then own
    else if catchAll.Some? && (phase.PhaseFiring? || o.remediation.OutcomeNone?) then catchAll.value
    else None
  }

  function Dispatched(o: Order, own: Option<Recipe>, catchAll: Option<Option<Recipe>>): (Order, Response) {
    if !o.status.New? && !o.status.Resolving? then (o, NotDispatchable)
    else
      var phase := if o.status.New? then PhaseFiring else PhaseResolving;
      if phase.PhaseResolving? && o.remediation.OutcomePending? && ActiveDish(o.dishes, PhaseFiring).Some?
      then (o, Waiting)
      else
        var recipe := ChosenRecipe(o, phase, own, catchAll);
        if recipe.None? then
          (o.(status := Resolving, remediation := OutcomeNone, clearTimeout := None, clearDeadline := None,
              clearTimedOut := None, autoClose := false, isActive := true), NoRecipe)
        else if HasInactiveIngredient(recipe.value) then (o, InactiveRecipe)
        else
          var remediates := HasPhaseRemediation(recipe.value, "firing");
          var started :=
            if phase.PhaseResolving? then o
            else o.(status := Processing, remediation := if remediates then OutcomePending else OutcomeNone,
                    clearTimeout := if remediates then recipe.value.clearTimeout else None,
                    clearDeadline := None, clearTimedOut := None, autoClose := false);
          var dish := ActiveDish(o.dishes, phase);
          if dish.Some? then (started, Planned(dish.value, phase))
          else (started.(dishes := o.dishes + [DishRecord(phase, DishNew)]), Planned(|o.dishes|, phase))
  }

  // ---- Finalization -----------------------------------------------------------------

  /** What `_dish_terminal_state` can return; `processing` included (Cook.FinalizedAsProcessing). */
  type FinalDishStatus = s: DishStatus | !s.DishNew? && !s.DishFinalizing? witness DishComplete

  predicate OthersActive(dishes: seq<DishRecord>, d: nat) {
    exists i :: 0 <= i < |dishes| && i != d && dishes[i].status.Active()
  }

  function Closed(o: Order, status: OrderStatus, remediation: Remediation): Order {
    o.(status := status, isActive := !status.Terminal(), remediation := remediation,
       autoClose := false, clearDeadline := None, clearTimedOut := None)
  }

  /** The dish takes its terminal status, then `_finalize_order_for_dish`; the flag asks for a resolving dispatch. */
  function Finalized(o: Order, d: nat, status: FinalDishStatus): (Order, bool)
    requires d < |o.dishes|
  {
    var phase := o.dishes[d].phase;
    var ended := o.(dishes := o.dishes[d := DishRecord(phase, status)]);
    if o.status.Terminal() || OthersActive(o.dishes, d) then (ended, false)
    else if phase.PhaseFiring? && o.alertResolved then
      (Closed(ended, Resolving, if status.DishComplete? then OutcomeSucceeded
                                else if status.DishCanceled? then OutcomeNone else OutcomeFailed), true)
    else if phase.PhaseFiring? && status.DishCanceled? then (Closed(ended, Complete, OutcomeNone), false)
    else if status.DishComplete? then
      (Closed(ended, Complete, if phase.PhaseFiring? then OutcomeSucceeded else o.remediation), false)
    else
      (Closed(ended, if status.DishErrored? then Errored else if status.DishTimedOut? then TimedOut
                     else if status.DishCanceled? then Canceled else Failed,
              if phase.PhaseFiring? then OutcomeFailed else o.remediation), false)
  }

  // ---- The webhook ---------------------------------------------------------------------

  /** `can_transition_to_resolving(status, "alert_resolved")` */
  predicate CanResolve(status: OrderStatus) {
    status.New? || status.Processing? || status.Resolving?
  }

  /** A resolved notification; a finished order whose alert was still firing is opened again. */
  function AlertCleared(o: Order): Order {
    if !o.isActive && o.alertResolved then o
    else
      var status := if CanResolve(o.status) || (o.status.Terminal() && !o.alertResolved) then Resolving else o.status;
      o.(alertResolved := true, status := status, isActive := !status.Terminal())
  }

  /** A firing notification on the active order; a resolving order goes back to `new`. */
  function AlertFired(o: Order): Order {
    if !o.isActive then o
    else o.(counter := o.counter + 1, alertResolved := false, isActive := true,
            status := if o.status.Resolving? then New else o.status)
  }

  // ---- The order record, updated field by field -----------------------------------------

  class OrderRecord {
    var status: OrderStatus
    var isActive: bool
    var remediation: Remediation
    var alertResolved: bool
    var counter: nat
    var clearTimeout: Option<int>
    var clearDeadline: Option<int>
    var clearTimedOut: Option<int>
    var autoClose: bool
    var dishes: seq<DishRecord>

    function View(): Order
      reads this
    {
      Order(status, isActive, remediation, alertResolved, counter, clearTimeout, clearDeadline, clearTimedOut,
            autoClose, dishes)
    }

    constructor (o: Order)
      ensures View() == o
    {
      status, isActive, remediation := o.status, o.isActive, o.remediation;
      alertResolved, counter := o.alertResolved, o.counter;
      clearTimeout, clearDeadline, clearTimedOut := o.clearTimeout, o.clearDeadline, o.clearTimedOut;
      autoClose, dishes := o.autoClose, o.dishes;
    }

    /** `_dispatch_order_once` */
    method DispatchOnce(own: Option<Recipe>, catchAll: Option<Option<Recipe>>) returns (response: Response)
      modifies this
      ensures (View(), response) == Dispatched(old(View()), own, catchAll)
    {
      var phase;
      if status.New? {
        phase := PhaseFiring;
      } else if status.Resolving? {
        phase := PhaseResolving;
      } else {
        return NotDispatchable;
      }
      if phase.PhaseResolving? && remediation.OutcomePending? && ActiveDish(dishes, PhaseFiring).Some? {
        return Waiting;
      }
      var recipe := own;
      if recipe.None? && catchAll.Some? && (phase.PhaseFiring? || remediation.OutcomeNone?) {
        recipe := catchAll.value;
      }
      if recipe.None? {
        status, remediation := Resolving, OutcomeNone;
        clearTimeout, clearDeadline, clearTimedOut := None, None, None;
        autoClose, isActive := false, true;
        return NoRecipe;
      }
      if HasInactiveIngredient(recipe.value) {
        return InactiveRecipe;
      }
      if phase.PhaseFiring? {
        status := Processing;
        var remediates := RecipeHasPhaseRemediation(recipe.value, "firing");
        if remediates {
          remediation := OutcomePending;
          clearTimeout := recipe.value.clearTimeout;
        } else {
          remediation := OutcomeNone;
          clearTimeout := None;
        }
        clearDeadline, clearTimedOut, autoClose := None, None, false;
      }
      var dish := ActiveDish(dishes, phase);
      if dish.None? {
        dishes := dishes + [DishRecord(phase, DishNew)];
        return Planned(|dishes| - 1, phase);
      }
      return Planned(dish.value, phase);
    }

    /** The dish's terminal status and `_finalize_order_for_dish`. */
    method FinalizeForDish(d: nat, terminal: FinalDishStatus) returns (dispatchResolving: bool)
      requires d < |dishes|
      modifies this
      ensures (View(), dispatchResolving) == Finalized(old(View()), d, terminal)
    {
      var others := OthersActive(dishes, d);
      var phase := dishes[d].phase;
      dishes := dishes[d := DishRecord(phase, terminal)];
      if status.Terminal() || others {
        return false;
      }
      autoClose, clearDeadline, clearTimedOut := false, None, None;
      if phase.PhaseFiring? && alertResolved {
        remediation := if terminal.DishComplete? then OutcomeSucceeded
                       else if terminal.DishCanceled? then OutcomeNone else OutcomeFailed;
        status, isActive := Resolving, true;
        return true;
      }
      isActive := false;
      if phase.PhaseFiring? && terminal.DishCanceled? {
        remediation, status := OutcomeNone, Complete;
        return false;
      }
      if terminal.DishComplete? {
        if phase.PhaseFiring? {
          remediation := OutcomeSucceeded;
        }
        status := Complete;
      } else {
        if phase.PhaseFiring? {
          remediation := OutcomeFailed;
        }
        status := if terminal.DishErrored? then Errored else if terminal.DishTimedOut? then TimedOut
                  else if terminal.DishCanceled? then Canceled else Failed;
      }
      return false;
    }
  }

  // ---- Runs --------------------------------------------------------------------------------

  datatype Action =
    | DispatchOrder(own: Option<Recipe>, catchAll: Option<Option<Recipe>>)
    | FinalizeDish(dish: nat, status: FinalDishStatus)
    | TouchDish(touched: nat)
    | AlertResolved
    | AlertFiring

  function Next(o: Order, a: Action): Order {
    match a
    case DispatchOrder(own, catchAll) => Dispatched(o, own, catchAll).0
    case FinalizeDish(d, status) => if d < |o.dishes| then Finalized(o, d, status).0 else o
    case TouchDish(d) =>
      if d < |o.dishes| then o.(dishes := o.dishes[d := o.dishes[d].(status := DishProcessing)]) else o
    case AlertResolved => AlertCleared(o)
    case AlertFiring => AlertFired(o)
  }

  function Exec(o: Order, run: seq<Action>): Order
    decreases |run|
  {
    if run == [] then o else Exec(Next(o, run[0]), run[1..])
  }

  /** An order as intake creates it. */
  predicate Fresh(o: Order) {
    o.status.New? && o.isActive && o.remediation.OutcomePending? && !o.alertResolved && o.dishes == []
  }

  /** The two webhook steps that take an order back. */
  predicate Refires(o: Order, a: Action) {
    a.AlertFiring? && o.isActive && o.status.Resolving?
  }

  predicate Reopens(o: Order, a: Action) {
    a.AlertResolved? && o.status.Terminal() && !o.alertResolved
  }

  function Refirings(o: Order, run: seq<Action>): nat
    decreases |run|
  {
    if run == [] then 0 else (if Refires(o, run[0]) then 1 else 0) + Refirings(Next(o, run[0]), run[1..])
  }

  // ---- Lifecycle ------------------------------------------------------------------------------

  /** Which step can move an order back: exactly a refire of a resolving order and a clear of a finished firing one. */
  lemma {:induction false} StatusOnlyMovesUp(o: Order, a: Action)
    requires o.isActive <==> !o.status.Terminal()
    ensures Next(o, a).isActive <==> !Next(o, a).status.Terminal()
    ensures Next(o, a).status.Rank() < o.status.Rank() <==> Refires(o, a) || Reopens(o, a)
    ensures o.status.Terminal() && !Reopens(o, a) ==> Next(o, a) == o.(dishes := Next(o, a).dishes)
    ensures |Next(o, a).dishes| >= |o.dishes|
  {}

  /** In every reachable state an order is active exactly when its status is not terminal. */
  lemma {:induction false} ActiveExactlyWhileOpen(o: Order, run: seq<Action>)
    requires o.isActive <==> !o.status.Terminal()
    ensures Exec(o, run).isActive <==> !Exec(o, run).status.Terminal()
    decreases |run|
  {
    if run != [] {
      StatusOnlyMovesUp(o, run[0]);
      ActiveExactlyWhileOpen(Next(o, run[0]), run[1..]);
    }
  }

  function FiringDishes(dishes: seq<DishRecord>): nat {
    if dishes == [] then 0
    else FiringDishes(dishes[..|dishes| - 1]) + (if dishes[|dishes| - 1].phase.PhaseFiring? then 1 else 0)
  }

  lemma {:induction false} FiringDishesOfUpdate(dishes: seq<DishRecord>, d: nat, r: DishRecord)
    requires d < |dishes| && r.phase == dishes[d].phase
    ensures FiringDishes(dishes[d := r]) == FiringDishes(dishes)
  {
    var n := |dishes| - 1;
    if d < n {
      assert dishes[d := r][..n] == dishes[..n][d := r];
      FiringDishesOfUpdate(dishes[..n], d, r);
    } else {
      assert dishes[d := r][..n] == dishes[..n];
    }
  }

  lemma {:induction false} FiringDishesDispatched(o: Order, own: Option<Recipe>, catchAll: Option<Option<Recipe>>)
    ensures var t := Dispatched(o, own, catchAll).0;
            FiringDishes(t.dishes) + (if t.status.New? then 1 else 0) <=
            FiringDishes(o.dishes) + (if o.status.New? then 1 else 0)
  {
    DispatchEffect(o, own, catchAll);
    assert (o.dishes + [DishRecord(PhaseFiring, DishNew)])[..|o.dishes|] == o.dishes;
    assert (o.dishes + [DishRecord(PhaseResolving, DishNew)])[..|o.dishes|] == o.dishes;
  }

  lemma {:induction false} FiringDishesStep(o: Order, a: Action)
    ensures FiringDishes(Next(o, a).dishes) + (if Next(o, a).status.New? then 1 else 0)
         <= FiringDishes(o.dishes) + (if o.status.New? then 1 else 0) + (if Refires(o, a) then 1 else 0)
  {
    match a
    case DispatchOrder(own, catchAll) => FiringDishesDispatched(o, own, catchAll);
    case FinalizeDish(d, status) =>
      if d < |o.dishes| { FiringDishesOfUpdate(o.dishes, d, DishRecord(o.dishes[d].phase, status)); }
    case TouchDish(d) =>
      if d < |o.dishes| { FiringDishesOfUpdate(o.dishes, d, o.dishes[d].(status := DishProcessing)); }
    case _ =>
  }

  lemma {:induction false} FiringDishesBound(o: Order, run: seq<Action>)
    ensures FiringDishes(Exec(o, run).dishes) + (if Exec(o, run).status.New? then 1 else 0)
         <= FiringDishes(o.dishes) + (if o.status.New? then 1 else 0) + Refirings(o, run)
    decreases |run|
  {
    if run != [] {
      FiringDishesStep(o, run[0]);
      FiringDishesBound(Next(o, run[0]), run[1..]);
    }
  }

  /** At most one firing dish per order, plus one for each time a resolving order fires again. */
  lemma {:induction false} OneFiringDish(o: Order, run: seq<Action>)
    requires Fresh(o)
    ensures FiringDishes(Exec(o, run).dishes) <= 1 + Refirings(o, run)
  {
    FiringDishesBound(o, run);
  }

  /** A dispatch of a new order with a usable recipe and no live firing dish. */
  ghost predicate AddsFiringDish(o: Order, a: Action) {
    a.DispatchOrder? && o.status.New? && !HasActiveFiring(o.dishes) &&
    var recipe := ChosenRecipe(o, PhaseFiring, a.own, a.catchAll);
    recipe.Some? && !HasInactiveIngredient(recipe.value)
  }

  lemma {:induction false} FiringDishDispatched(o: Order, own: Option<Recipe>, catchAll: Option<Option<Recipe>>)
    ensures FiringDishes(Dispatched(o, own, catchAll).0.dishes) ==
            FiringDishes(o.dishes) + (if AddsFiringDish(o, DispatchOrder(own, catchAll)) then 1 else 0)
  {
    ActiveDishFinds(o.dishes, PhaseFiring);
    assert (o.dishes + [DishRecord(PhaseFiring, DishNew)])[..|o.dishes|] == o.dishes;
    assert (o.dishes + [DishRecord(PhaseResolving, DishNew)])[..|o.dishes|] == o.dishes;
  }

  lemma {:induction false} FiringDishAdded(o: Order, a: Action)
    ensures FiringDishes(Next(o, a).dishes) == FiringDishes(o.dishes) + (if AddsFiringDish(o, a) then 1 else 0)
  {
    match a
    case DispatchOrder(own, catchAll) => FiringDishDispatched(o, own, catchAll);
    case FinalizeDish(d, status) =>
      if d < |o.dishes| { FiringDishesOfUpdate(o.dishes, d, DishRecord(o.dishes[d].phase, status)); }
    case TouchDish(d) =>
      if d < |o.dishes| { FiringDishesOfUpdate(o.dishes, d, o.dishes[d].(status := DishProcessing)); }
    case _ =>
  }

  ghost function FiringDispatches(o: Order, run: seq<Action>): nat
    decreases |run|
  {
    if run == [] then 0 else (if AddsFiringDish(o, run[0]) then 1 else 0) + FiringDispatches(Next(o, run[0]), run[1..])
  }

  /** Exactly which steps of a run create firing dishes. */
  lemma {:induction false} FiringDishesExactly(o: Order, run: seq<Action>)
    ensures FiringDishes(Exec(o, run).dishes) == FiringDishes(o.dishes) + FiringDispatches(o, run)
    decreases |run|
  {
    if run != [] {
      FiringDishAdded(o, run[0]);
      FiringDishesExactly(Next(o, run[0]), run[1..]);
    }
  }

  // ---- No lost wake-up ----------------------------------------------------------------------------

  predicate HasFiring(dishes: seq<DishRecord>) {
    exists i :: 0 <= i < |dishes| && dishes[i].phase.PhaseFiring?
  }

  predicate HasActiveFiring(dishes: seq<DishRecord>) {
    exists i :: 0 <= i < |dishes| && dishes[i].phase.PhaseFiring? && dishes[i].status.Active()
  }

  lemma {:induction false} ActiveDishFinds(dishes: seq<DishRecord>, phase: Phase)
    ensures ActiveDish(dishes, phase).None? ==>
              forall i :: 0 <= i < |dishes| ==> dishes[i].phase != phase || !dishes[i].status.Active()
    ensures ActiveDish(dishes, phase).Some? ==>
              var d := ActiveDish(dishes, phase).value;
              d < |dishes| && dishes[d].phase == phase && dishes[d].status.Active()
  {
    if dishes != [] {
      var n := |dishes| - 1;
      ActiveDishFinds(dishes[..n], phase);
      assert forall i :: 0 <= i < n ==> dishes[..n][i] == dishes[i];
    }
  }

  /** A pending remediation that has a firing dish still has a live one to wait for. */
  predicate Awake(o: Order) {
    o.remediation.OutcomePending? && HasFiring(o.dishes) ==> HasActiveFiring(o.dishes)
  }

  /** Finalizing the last live firing dish while the order is left alone (closed, or another dish runs). */
  predicate LosesWakeup(o: Order, d: nat, status: FinalDishStatus)
    requires d < |o.dishes|
  {
    o.remediation.OutcomePending? && o.dishes[d].phase.PhaseFiring? && !status.Active() &&
    (o.status.Terminal() || OthersActive(o.dishes, d)) &&
    !OtherActiveFiring(o.dishes, d)
  }

  /** What a dispatch can do to the dishes and the remediation. */
  lemma {:induction false} DispatchEffect(o: Order, own: Option<Recipe>, catchAll: Option<Option<Recipe>>)
    ensures var t := Dispatched(o, own, catchAll).0;
            (t == o) ||
            (t.remediation.OutcomeNone? && t.status.Resolving? && t.dishes == o.dishes && t.isActive) ||
            (o.status.New? && t.status.Processing? && t.isActive == o.isActive && HasActiveFiring(t.dishes) &&
             (t.dishes == o.dishes || t.dishes == o.dishes + [DishRecord(PhaseFiring, DishNew)])) ||
            (o.status.Resolving? && t == o.(dishes := t.dishes) &&
             !(o.remediation.OutcomePending? && HasActiveFiring(o.dishes)) &&
             t.dishes == o.dishes + [DishRecord(PhaseResolving, DishNew)])
  {
    ActiveDishFinds(o.dishes, PhaseFiring);
    var t := Dispatched(o, own, catchAll).0;
    if |t.dishes| > |o.dishes| {
      assert t.dishes[|o.dishes|].status.Active();
    }
  }

  lemma {:induction false} FiringOfAppended(dishes: seq<DishRecord>, phase: Phase)
    ensures HasFiring(dishes + [DishRecord(phase, DishNew)]) <==> HasFiring(dishes) || phase.PhaseFiring?
    ensures HasActiveFiring(dishes + [DishRecord(phase, DishNew)]) <==> HasActiveFiring(dishes) || phase.PhaseFiring?
  {
    var after := dishes + [DishRecord(phase, DishNew)];
    assert after[|dishes|] == DishRecord(phase, DishNew);
    forall i | 0 <= i < |dishes| ensures after[i] == dishes[i] {}
    if i :| 0 <= i < |after| && after[i].phase.PhaseFiring? && after[i].status.Active() && i < |dishes| {
      assert dishes[i].phase.PhaseFiring? && dishes[i].status.Active();
    }
    if i :| 0 <= i < |after| && after[i].phase.PhaseFiring? && i < |dishes| { assert dishes[i].phase.PhaseFiring?; }
    if i :| 0 <= i < |dishes| && dishes[i].phase.PhaseFiring? && dishes[i].status.Active() {
      assert after[i].phase.PhaseFiring? && after[i].status.Active();
    }
    if i :| 0 <= i < |dishes| && dishes[i].phase.PhaseFiring? { assert after[i].phase.PhaseFiring?; }
  }

  predicate OtherActiveFiring(dishes: seq<DishRecord>, d: nat) {
    exists i :: 0 <= i < |dishes| && i != d && dishes[i].phase.PhaseFiring? && dishes[i].status.Active()
  }

  lemma {:induction false} FiringOfUpdated(dishes: seq<DishRecord>, d: nat, status: DishStatus)
    requires d < |dishes|
    ensures var after := dishes[d := DishRecord(dishes[d].phase, status)];
            (HasFiring(after) <==> HasFiring(dishes)) &&
            (HasActiveFiring(after) <==>
             OtherActiveFiring(dishes, d) || (dishes[d].phase.PhaseFiring? && status.Active())) &&
            (HasActiveFiring(dishes) <==>
             OtherActiveFiring(dishes, d) || (dishes[d].phase.PhaseFiring? && dishes[d].status.Active()))
  {
    var after := dishes[d := DishRecord(dishes[d].phase, status)];
    assert after[d].phase == dishes[d].phase && after[d].status == status;
    forall i | 0 <= i < |dishes| ensures after[i].phase == dishes[i].phase && (i != d ==> after[i] == dishes[i]) {}
    if i :| 0 <= i < |after| && after[i].phase.PhaseFiring? { assert dishes[i].phase.PhaseFiring?; }
    if i :| 0 <= i < |dishes| && dishes[i].phase.PhaseFiring? { assert after[i].phase.PhaseFiring?; }
    if i :| 0 <= i < |dishes| && i != d && dishes[i].phase.PhaseFiring? && dishes[i].status.Active() {
      assert after[i].phase.PhaseFiring? && after[i].status.Active();
    }
    if i :| 0 <= i < |after| && i != d && after[i].phase.PhaseFiring? && after[i].status.Active() {
      assert dishes[i].phase.PhaseFiring? && dishes[i].status.Active();
    }
  }

  /** Exactly when one step loses the wake-up: no step does but that finalization. */
  lemma {:induction false} WakeupStep(o: Order, a: Action)
    requires Awake(o)
    ensures Awake(Next(o, a)) <==> !(a.FinalizeDish? && a.dish < |o.dishes| && LosesWakeup(o, a.dish, a.status))
  {
    match a
    case DispatchOrder(own, catchAll) =>
      DispatchEffect(o, own, catchAll);
      FiringOfAppended(o.dishes, PhaseFiring);
      FiringOfAppended(o.dishes, PhaseResolving);
    case FinalizeDish(d, status) =>
      if d < |o.dishes| { FiringOfUpdated(o.dishes, d, status); }
    case TouchDish(d) =>
      if d < |o.dishes| { FiringOfUpdated(o.dishes, d, DishProcessing); }
    case _ =>
  }

  /**
    What holds while the order never fires again: no dish before the first dispatch, and a pending
    remediation waits for the one and only dish there is.
  */
  predicate Tidy(o: Order) {
    (o.isActive <==> !o.status.Terminal()) &&
    (o.status.New? ==> o.dishes == []) &&
    (o.status.Resolving? && o.remediation.OutcomePending? ==> o.alertResolved) &&
    (o.remediation.OutcomePending? && HasFiring(o.dishes) ==>
      |o.dishes| == 1 && o.dishes[0].phase.PhaseFiring? && o.dishes[0].status.Active() && !o.status.Terminal())
  }

  lemma {:induction false} TidyStep(o: Order, a: Action)
    requires Tidy(o) && !Refires(o, a)
    ensures Tidy(Next(o, a))
  {
    match a
    case DispatchOrder(own, catchAll) =>
      DispatchEffect(o, own, catchAll);
      FiringOfAppended(o.dishes, PhaseFiring);
      FiringOfAppended(o.dishes, PhaseResolving);
      if o.remediation.OutcomePending? && HasFiring(o.dishes) { assert HasActiveFiring(o.dishes); }
    case FinalizeDish(d, status) =>
      if d < |o.dishes| { FiringOfUpdated(o.dishes, d, status); }
    case TouchDish(d) =>
      if d < |o.dishes| { FiringOfUpdated(o.dishes, d, DishProcessing); }
    case _ =>
  }

  lemma {:induction false} TidyOnRuns(o: Order, run: seq<Action>)
    requires Tidy(o) && Refirings(o, run) == 0
    ensures Tidy(Exec(o, run))
    decreases |run|
  {
    if run != [] {
      TidyStep(o, run[0]);
      TidyOnRuns(Next(o, run[0]), run[1..]);
    }
  }

  /**
    No lost wake-up: in every run of a new order that never fires again, a resolving dispatch is told
    to wait only while the order's one dish is a live firing dish, and finalizing that dish itself asks
    for the resolving dispatch.
  */
  lemma {:induction false} NoLostWakeup(o: Order, run: seq<Action>, own: Option<Recipe>,
                                        catchAll: Option<Option<Recipe>>, status: FinalDishStatus)
    requires Fresh(o) && Refirings(o, run) == 0
    ensures var t := Exec(o, run);
            Awake(t) &&
            (Dispatched(t, own, catchAll).1.Waiting? ==>
              |t.dishes| == 1 && t.dishes[0].phase.PhaseFiring? && t.dishes[0].status.Active() &&
              Finalized(t, 0, status).1 && Finalized(t, 0, status).0.status.Resolving? &&
              !Finalized(t, 0, status).0.remediation.OutcomePending?)
  {
    TidyOnRuns(o, run);
    var t := Exec(o, run);
    ActiveDishFinds(t.dishes, PhaseFiring);
  }

  /** After a finalization that asks for a resolving dispatch, until the order fires again. */
  predicate Answerable(o: Order) {
    (o.status.Resolving? || o.status.Terminal()) && !o.remediation.OutcomePending?
  }

  lemma {:induction false} AnswerableOnRuns(o: Order, run: seq<Action>)
    requires Answerable(o) && Refirings(o, run) == 0
    requires o.isActive <==> !o.status.Terminal()
    ensures Answerable(Exec(o, run))
    decreases |run|
  {
    if run != [] {
      StatusOnlyMovesUp(o, run[0]);
      AnswerableOnRuns(Next(o, run[0]), run[1..]);
    }
  }

  /**
    A resolving dispatch requested by a finalization may run at any later time: while the order is
    open and has not fired again, it is neither told to wait nor refused as undispatchable.
  */
  lemma {:induction false} RequestedDispatchIsTaken(o: Order, d: nat, status: FinalDishStatus, run: seq<Action>,
                                                    own: Option<Recipe>, catchAll: Option<Option<Recipe>>)
    requires d < |o.dishes| && Finalized(o, d, status).1
    requires Refirings(Finalized(o, d, status).0, run) == 0
    ensures var t := Exec(Finalized(o, d, status).0, run);
            !t.status.Terminal() ==>
              !Dispatched(t, own, catchAll).1.Waiting? && !Dispatched(t, own, catchAll).1.NotDispatchable?
  {
    AnswerableOnRuns(Finalized(o, d, status).0, run);
  }

  lemma {:induction false} ResolvingDispatched(o: Order, recipe: Recipe)
    requires Fresh(o) && !HasInactiveIngredient(recipe) && HasPhaseRemediation(recipe, "firing")
    ensures Next(AlertCleared(o), DispatchOrder(Some(recipe), None)) ==
            AlertCleared(o).(dishes := [DishRecord(PhaseResolving, DishNew)])
  {}

  lemma {:induction false} NoFiringDish()
    ensures ActiveDish([DishRecord(PhaseResolving, DishNew)], PhaseFiring).None?
  {
    var dishes := [DishRecord(PhaseResolving, DishNew)];
    assert dishes[..0] == [];
  }

  /** The order after it cleared, got a resolving dish, fired again and got a firing dish. */
  lemma {:induction false} RefiringScene(o: Order, recipe: Recipe)
    requires Fresh(o) && !HasInactiveIngredient(recipe) && HasPhaseRemediation(recipe, "firing")
    ensures var s2 := Next(AlertCleared(o), DispatchOrder(Some(recipe), None));
            var s4 := Next(AlertFired(s2), DispatchOrder(Some(recipe), None));
            s4.dishes == [DishRecord(PhaseResolving, DishNew), DishRecord(PhaseFiring, DishNew)] &&
            s4.remediation.OutcomePending? && !s4.status.Terminal() &&
            Refires(s2, AlertFiring) && !Refires(o, AlertResolved)
  {
    ResolvingDispatched(o, recipe);
    NoFiringDish();
  }

  /**
    A waiting dispatch and the dish it waits for: there is a live firing dish, and finalizing it asks
    for the resolving dispatch exactly when the alert has resolved and no other dish is live.
  */
  lemma {:induction false} WaitingIsAnsweredExactly(o: Order, own: Option<Recipe>, catchAll: Option<Option<Recipe>>,
                                                    d: nat, status: FinalDishStatus)
    requires Dispatched(o, own, catchAll).1.Waiting?
    ensures HasActiveFiring(o.dishes)
    ensures d < |o.dishes| && o.dishes[d].phase.PhaseFiring? ==>
              (Finalized(o, d, status).1 <==> o.alertResolved && !OthersActive(o.dishes, d))
  {
    ActiveDishFinds(o.dishes, PhaseFiring);
  }

  /** A dispatch waits for the second of two live dishes; its finalization asks for nothing, and then nobody does. */
  lemma {:induction false} WaitInVain(s: Order, own: Option<Recipe>, catchAll: Option<Option<Recipe>>)
    requires s.dishes == [DishRecord(PhaseResolving, DishNew), DishRecord(PhaseFiring, DishNew)]
    requires s.status.Resolving? && s.remediation.OutcomePending? && s.alertResolved
    ensures Dispatched(s, own, catchAll).1.Waiting? && !Finalized(s, 1, DishComplete).1
    ensures var after := Finalized(s, 1, DishComplete).0;
            !Finalized(after, 0, DishComplete).1 && Finalized(after, 0, DishComplete).0.status.Complete? &&
            Finalized(after, 0, DishComplete).0.remediation.OutcomePending?
  {
    assert s.dishes[1].phase.PhaseFiring? && s.dishes[1].status.Active();
    ActiveDishFinds(s.dishes, PhaseFiring);
    assert s.dishes[0].status.Active() && OthersActive(s.dishes, 1);
    var after := Finalized(s, 1, DishComplete).0;
    assert after.dishes == [DishRecord(PhaseResolving, DishNew), DishRecord(PhaseFiring, DishComplete)];
  }

  /**
    An order that fires again can lose the wake-up: cleared before its first dish, dispatched for
    resolving, fired again, dispatched, cleared again. The next dispatch is told to wait for the firing
    dish, whose finalization asks for no dispatch because the resolving dish is still live; when that
    one ends the order is complete, with its remediation still pending.
  */
  lemma {:induction false} RefiringLosesWakeup(o: Order, recipe: Recipe)
    requires Fresh(o) && !HasInactiveIngredient(recipe) && HasPhaseRemediation(recipe, "firing")
    ensures var dispatch := DispatchOrder(Some(recipe), None);
            var run := [AlertResolved, dispatch, AlertFiring, dispatch, AlertResolved];
            var t := Exec(o, run);
            Refirings(o, run) == 1 && |t.dishes| == 2 && t.dishes[1] == DishRecord(PhaseFiring, DishNew) &&
            Dispatched(t, Some(recipe), None).1.Waiting? && !Finalized(t, 1, DishComplete).1 &&
            var after := Finalized(t, 1, DishComplete).0;
            !Finalized(after, 0, DishComplete).1 && Finalized(after, 0, DishComplete).0.status.Complete? &&
            Finalized(after, 0, DishComplete).0.remediation.OutcomePending?
  {
    var d := DispatchOrder(Some(recipe), None);
    var s4 := Next(AlertFired(Next(AlertCleared(o), d)), d);
    RefiringScene(o, recipe);
    WaitInVain(AlertCleared(s4), Some(recipe), None);
    ExecFive(o, AlertResolved, d, AlertFiring, d, AlertResolved);
  }

  /** The bound of OneFiringDish is met: one refire, two firing dishes. */
  lemma {:induction false} RefiringAddsFiringDish(o: Order, recipe: Recipe)
    requires Fresh(o) && !HasInactiveIngredient(recipe)
    ensures var dispatch := DispatchOrder(Some(recipe), None);
            var run := [dispatch, AlertResolved, FinalizeDish(0, DishComplete), AlertFiring, dispatch];
            Refirings(o, run) == 1 && FiringDishes(Exec(o, run).dishes) == 2
  {
    var d, e := DispatchOrder(Some(recipe), None), FinalizeDish(0, DishComplete);
    var s1 := Next(o, d);
    assert s1.dishes == [DishRecord(PhaseFiring, DishNew)] && s1.status.Processing?;
    var s3 := Next(AlertCleared(s1), e);
    assert s3.dishes == [DishRecord(PhaseFiring, DishComplete)] && s3.status.Resolving?;
    NoLiveDish(AlertFired(s3).dishes);
    var s5 := Next(AlertFired(s3), d);
    assert s5.dishes == [DishRecord(PhaseFiring, DishComplete), DishRecord(PhaseFiring, DishNew)];
    TwoFiringDishes(s5.dishes);
    ExecFive(o, d, AlertResolved, e, AlertFiring, d);
  }

  lemma {:induction false} TwoFiringDishes(dishes: seq<DishRecord>)
    requires |dishes| == 2 && dishes[0].phase.PhaseFiring? && dishes[1].phase.PhaseFiring?
    ensures FiringDishes(dishes) == 2
  {
    assert dishes[..1][..0] == [];
    assert FiringDishes(dishes[..1]) == FiringDishes([]) + 1;
  }

  // ---- Completions ----------------------------------------------------------------------------

  /** The step that ends the order, at which a scheduled order completes its task. */
  predicate Completes(o: Order, a: Action) {
    !o.status.Terminal() && Next(o, a).status.Terminal()
  }

  function Completions(o: Order, run: seq<Action>): nat
    decreases |run|
  {
    if run == [] then 0 else (if Completes(o, run[0]) then 1 else 0) + Completions(Next(o, run[0]), run[1..])
  }

  function Reopenings(o: Order, run: seq<Action>): nat
    decreases |run|
  {
    if run == [] then 0 else (if Reopens(o, run[0]) then 1 else 0) + Reopenings(Next(o, run[0]), run[1..])
  }

  /** Only the finalization of a dish ends an order, and only a late clear opens it again. */
  lemma {:induction false} CompletionStep(o: Order, a: Action)
    requires o.isActive <==> !o.status.Terminal()
    ensures Completes(o, a) ==> a.FinalizeDish?
    ensures o.status.Terminal() && !Next(o, a).status.Terminal() <==> Reopens(o, a)
  {}

  /** Over any run an order ends once for each time it was opened: at its creation, or by a late clear. */
  lemma {:induction false} CompletionsMatchOpenings(o: Order, run: seq<Action>)
    requires o.isActive <==> !o.status.Terminal()
    ensures Completions(o, run) + (if Exec(o, run).status.Terminal() then 0 else 1) ==
            Reopenings(o, run) + (if o.status.Terminal() then 0 else 1)
    decreases |run|
  {
    if run != [] {
      CompletionStep(o, run[0]);
      StatusOnlyMovesUp(o, run[0]);
      CompletionsMatchOpenings(Next(o, run[0]), run[1..]);
    }
  }

  /** An order reopened by a late clear does end twice. */
  lemma {:induction false} ReopenedEndsTwice(o: Order, recipe: Recipe)
    requires Fresh(o) && !HasInactiveIngredient(recipe)
    ensures var dispatch := DispatchOrder(Some(recipe), None);
            var run := [dispatch, FinalizeDish(0, DishComplete), AlertResolved, dispatch,
                        FinalizeDish(1, DishComplete)];
            Reopenings(o, run) == 1 && Completions(o, run) == 2
  {
    var d, e, g := DispatchOrder(Some(recipe), None), FinalizeDish(0, DishComplete), FinalizeDish(1, DishComplete);
    var s1 := Next(o, d);
    assert s1.dishes == [DishRecord(PhaseFiring, DishNew)] && s1.status.Processing?;
    var s2 := Next(s1, e);
    assert s2.dishes == [DishRecord(PhaseFiring, DishComplete)] && s2.status.Complete?;
    var s3 := AlertCleared(s2);
    NoLiveDish(s3.dishes);
    var s4 := Next(s3, d);
    assert s4.dishes == [DishRecord(PhaseFiring, DishComplete), DishRecord(PhaseResolving, DishNew)] &&
           s4.status.Resolving?;
    assert Next(s4, g).status.Complete?;
    FiveSteps(o, d, e, AlertResolved, d, g);
  }

  lemma {:induction false} NoLiveDish(dishes: seq<DishRecord>)
    requires dishes == [DishRecord(PhaseFiring, DishComplete)]
    ensures ActiveDish(dishes, PhaseFiring).None? && ActiveDish(dishes, PhaseResolving).None?
  {
    assert dishes[..0] == [];
  }

  lemma {:induction false} CountStep(o: Order, a: Action, rest: seq<Action>)
    ensures Completions(o, [a] + rest) == (if Completes(o, a) then 1 else 0) + Completions(Next(o, a), rest)
    ensures Reopenings(o, [a] + rest) == (if Reopens(o, a) then 1 else 0) + Reopenings(Next(o, a), rest)
  {
    assert ([a] + rest)[1..] == rest;
  }

  lemma {:induction false} FiveSteps(o: Order, a: Action, b: Action, c: Action, d: Action, e: Action)
    ensures var s2 := Next(Next(o, a), b);
            var s3 := Next(s2, c);
            Completions(o, [a, b, c, d, e]) ==
              (if Completes(o, a) then 1 else 0) + (if Completes(Next(o, a), b) then 1 else 0) +
              (if Completes(s2, c) then 1 else 0) +
              (if Completes(s3, d) then 1 else 0) + (if Completes(Next(s3, d), e) then 1 else 0) &&
            Reopenings(o, [a, b, c, d, e]) ==
              (if Reopens(o, a) then 1 else 0) + (if Reopens(Next(o, a), b) then 1 else 0) +
              (if Reopens(s2, c) then 1 else 0) +
              (if Reopens(s3, d) then 1 else 0) + (if Reopens(Next(s3, d), e) then 1 else 0)
  {
    var s1 := Next(o, a);
    var s2 := Next(s1, b);
    var s3 := Next(s2, c);
    CountStep(o, a, [b, c, d, e]);
    CountStep(s1, b, [c, d, e]);
    CountStep(s2, c, [d, e]);
    CountStep(s3, d, [e]);
    CountStep(Next(s3, d), e, []);
  }

  lemma {:induction false} ExecFive(o: Order, a: Action, b: Action, c: Action, d: Action, e: Action)
    ensures Exec(o, [a, b, c, d, e]) == Next(Next(Next(Next(Next(o, a), b), c), d), e)
    ensures var s2 := Next(Next(o, a), b);
            Refirings(o, [a, b, c, d, e]) ==
              (if Refires(o, a) then 1 else 0) + (if Refires(Next(o, a), b) then 1 else 0) +
              (if Refires(s2, c) then 1 else 0) +
              (if Refires(Next(s2, c), d) then 1 else 0) + (if Refires(Next(Next(s2, c), d), e) then 1 else 0)
  {
    var s1 := Next(o, a);
    var s2 := Next(s1, b);
    var s3 := Next(s2, c);
    ExecStep(o, a, [b, c, d, e]);
    ExecStep(s1, b, [c, d, e]);
    ExecStep(s2, c, [d, e]);
    ExecStep(s3, d, [e]);
    ExecStep(Next(s3, d), e, []);
  }

  lemma {:induction false} ExecStep(o: Order, a: Action, rest: seq<Action>)
    ensures Exec(o, [a] + rest) == Exec(Next(o, a), rest)
    ensures Refirings(o, [a] + rest) == (if Refires(o, a) then 1 else 0) + Refirings(Next(o, a), rest)
  {
    assert ([a] + rest)[1..] == rest;
  }
}
