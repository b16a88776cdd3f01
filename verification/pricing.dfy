/** The pricing page: the three plans, the per-month price of the "Seguimiento
    Inteligente" add-on, the totals it shows, and the checkout steps that end in the
    request sent to the checkout function. */
module Pricing {
  import opened Wrappers
  import Text

  datatype Plan = Plan(
    id: string, name: string, price: int, duration: string, months: nat,
    description: string, features: seq<string>, popular: bool)

  /** `plans`, in display order. */
  const Plans: seq<Plan> := [
    Plan("7d", "Prueba", 9, "7 días", 0, "Ideal para probar el sistema",
      ["Acceso completo al plan personalizado", "Roadmap de 3 fases", "8 hábitos personalizados",
       "Estrategias nutricionales", "Técnicas de psicología conductual"], false),
    Plan("1m", "Mensual", 19, "1 mes", 1, "Nuestro plan más popular",
      ["Todo lo de Prueba +", "Tracking de hábitos", "Métricas de progreso",
       "Acceso al área de cliente", "Soporte por email"], true),
    Plan("3m", "Trimestral", 39, "3 meses", 3, "Mejor valor para resultados duraderos",
      ["Todo lo de Mensual +", "Ahorro del 30%", "Acceso extendido",
       "Contenido actualizado", "Prioridad en soporte"], false)
  ]

  /** Euros per month of the add-on. */
  const AddOnBasePrice: int := 25

  /** `plans.find((plan) => plan.id === selectedPlanId) ?? null`. */
  function FindPlan(id: Option<string>): (r: Option<Plan>)
    ensures r.Some? <==> id.Some? && exists k :: 0 <= k < |Plans| && Plans[k].id == id.value
    ensures r.Some? ==> r.value in Plans && r.value.id == id.value
  {
    if id.None? then None
    else if id.value == Plans[0].id then Some(Plans[0])
    else if id.value == Plans[1].id then Some(Plans[1])
    else if id.value == Plans[2].id then Some(Plans[2])
    else None
  }

  /** `addOnPrice`: nothing without a plan; otherwise one month for the 7-day plan and 25 €
      per month for the others. */
  function AddOnPrice(plan: Option<Plan>): (r: int)
    ensures plan.None? ==> r == 0
    ensures plan.Some? ==> r == AddOnBasePrice * (if plan.value.months < 1 then 1 else plan.value.months)
    ensures plan.Some? ==> r >= AddOnBasePrice
  {
    if plan.None? then 0
    else if plan.value.months == 0 then AddOnBasePrice
    else AddOnBasePrice * plan.value.months
  }

  /** `totalPrice`: the plan's price plus the add-on's when it is selected. */
  function TotalPrice(plan: Option<Plan>, addOn: bool): (r: int)
    ensures plan.None? ==> r == 0
    ensures plan.Some? ==> r >= plan.value.price && (r > plan.value.price <==> addOn)
    ensures plan.Some? && addOn ==> r - plan.value.price == AddOnPrice(plan)
  {
    if plan.None? then 0 else plan.value.price + (if addOn then AddOnPrice(plan) else 0)
  }

  /** The add-on is charged for the plan's months, at least one, and the total adds it
      to the plan's price exactly when it is selected. */
  lemma {:induction false} PriceSpec(plan: Option<Plan>, addOn: bool)
    ensures plan.None? ==> AddOnPrice(plan) == 0 && TotalPrice(plan, addOn) == 0
    ensures plan.Some? ==> AddOnPrice(plan) == AddOnBasePrice * (if plan.value.months < 1 then 1 else plan.value.months)
    ensures plan.Some? ==> AddOnPrice(plan) >= AddOnBasePrice
    ensures TotalPrice(plan, true) == TotalPrice(plan, false) + AddOnPrice(plan)
    ensures plan.Some? ==> TotalPrice(plan, false) == plan.value.price
  {
  }

  /** The totals the page shows: 9 €/34 €, 19 €/44 € and 39 €/114 € without/with the add-on. */
  lemma {:induction false} PlanTotals()
    ensures |Plans| == 3
    ensures TotalPrice(Some(Plans[0]), false) == 9 && TotalPrice(Some(Plans[0]), true) == 34
    ensures TotalPrice(Some(Plans[1]), false) == 19 && TotalPrice(Some(Plans[1]), true) == 44
    ensures TotalPrice(Some(Plans[2]), false) == 39 && TotalPrice(Some(Plans[2]), true) == 114
    ensures forall a, b :: 0 <= a < b < |Plans| ==> Plans[a].id != Plans[b].id
  {
  }

  /** "(75€ para 3 meses)": shown under the monthly price only for plans longer than a month. */
  function AddOnNote(plan: Option<Plan>): (r: Option<string>)
    ensures r.Some? <==> plan.Some? && plan.value.months > 1
  {
    if plan.Some? && plan.value.months > 1 then
      Some("(" + Text.IntToString(AddOnPrice(plan)) + "€ para " + plan.value.duration + ")")
    else None
  }

  /** Of the three plans only the quarterly one shows the note, with its 75 €. */
  lemma {:induction false} AddOnNoteOnlyQuarterly()
    ensures AddOnNote(Some(Plans[0])).None? && AddOnNote(Some(Plans[1])).None?
    ensures AddOnNote(Some(Plans[2])) == Some("(" + Text.IntToString(75) + "€ para " + "3 meses" + ")")
  {
    assert AddOnPrice(Some(Plans[2])) == 75;
  }

  // ---------------------------------------------------------------------------
  // The checkout steps.

  datatype Step = Idle | EmailStep | Account | Checkout

  /** The page's state: the selected plan, the add-on switch, the checkout step and the
      three form fields. */
  datatype Form = Form(planId: Option<string>, addOn: bool, step: Step, email: string, name: string, password: string)

  const Init: Form := Form(None, false, Idle, "", "", "")

  /** What the user can do on the page. Each input only exists on its own step and each
      button is disabled where the page disables it; `signedUp` is the outcome of the
      account service's sign-up call. */
  datatype Action =
    | SelectPlan(k: nat)
    | ToggleAddOn
    | Confirm
    | TypeEmail(email: string)
    | ContinueWithEmail
    | TypeName(name: string)
    | TypePassword(password: string)
    | CreateAccount(signedUp: bool)

  /** One user action on the page. Only choosing a plan changes the plan, only a
      successful sign-up reaches the payment step, and a consistent form stays consistent. */
  function Apply(f: Form, a: Action): (r: Form)
    ensures Consistent(f) ==> Consistent(r)
    ensures r.planId != f.planId ==> a.SelectPlan? && a.k < |Plans| && r.planId == Some(Plans[a.k].id)
    ensures r.step == Checkout && f.step != Checkout ==> a == CreateAccount(true)
    ensures r.addOn != f.addOn ==> a == ToggleAddOn && FindPlan(f.planId).Some?
  {
    var plan := FindPlan(f.planId);
    match a
    case SelectPlan(k) =>
      // `handleSelectPlan`: any plan button; always restarts the checkout
      if k < |Plans| then
        assert FindPlan(Some(Plans[k].id)).Some?;
        f.(planId := Some(Plans[k].id), step := Idle)
      else f
    case ToggleAddOn =>
      if plan.Some? then f.(addOn := !f.addOn) else f
    case Confirm =>
      if plan.Some? then f.(step := EmailStep) else f
    case TypeEmail(e) =>
      if f.step == EmailStep then f.(email := e) else f
    case ContinueWithEmail =>
      if f.step == EmailStep && f.email != "" then f.(step := Account) else f
    case TypeName(n) =>
      if f.step == Account then f.(name := n) else f
    case TypePassword(p) =>
      if f.step == Account then f.(password := p) else f
    case CreateAccount(ok) =>
      // the button is disabled without name and password; `handleCreateAccount` also
      // returns early without email or plan, and moves on only when sign-up succeeds
      if f.step == Account && f.name != "" && f.password != "" && f.email != "" && plan.Some? && ok
      then f.(step := Checkout)
      else f
  }

  /** What every reachable state satisfies: a selected plan is one of the plans, every
      step past the first has a plan, and the steps past each form have its fields filled. */
  ghost predicate Consistent(f: Form) {
    && (f.planId.Some? ==> FindPlan(f.planId).Some?)
    && (f.step != Idle ==> f.planId.Some?)
    && (f.step == Account || f.step == Checkout ==> f.email != "")
    && (f.step == Checkout ==> f.name != "" && f.password != "")
  }

  lemma {:induction false} InitConsistent()
    ensures Consistent(Init)
  {
  }

  lemma {:induction false} ApplyKeepsConsistent(f: Form, a: Action)
    requires Consistent(f)
    ensures Consistent(Apply(f, a))
  {
    if a.SelectPlan? && a.k < |Plans| {
      assert FindPlan(Some(Plans[a.k].id)).Some?;
    }
  }

  /** Choosing a plan always goes back to the first step and keeps the add-on switch and
      the form fields. */
  lemma {:induction false} SelectPlanRestarts(f: Form, k: nat)
    requires k < |Plans|
    ensures Apply(f, SelectPlan(k)).step == Idle
    ensures FindPlan(Apply(f, SelectPlan(k)).planId) == Some(Plans[k])
    ensures Apply(f, SelectPlan(k)).(planId := f.planId, step := f.step) == f
  {
  }

  /** The body `handleCheckout` sends to the checkout function. */
  datatype CheckoutRequest = CheckoutRequest(
    planId: string, planName: string, planPrice: int, addOnPrice: int,
    email: string, name: string, duration: string)

  /** `handleCheckout`: nothing without plan, email and name; the add-on price is sent
      only when the add-on is selected. */
  function HandleCheckout(f: Form): (r: Option<CheckoutRequest>)
    ensures r.Some? <==> FindPlan(f.planId).Some? && f.email != "" && f.name != ""
    ensures r.Some? ==>
      && r.value.planId == f.planId.value
      && r.value.planPrice + r.value.addOnPrice == TotalPrice(FindPlan(f.planId), f.addOn)
      && (r.value.addOnPrice > 0 <==> f.addOn)
      && r.value.email == f.email && r.value.name == f.name
  {
    var plan := FindPlan(f.planId);
    if plan.None? || f.email == "" || f.name == "" then None
    else
      Some(CheckoutRequest(plan.value.id, plan.value.name, plan.value.price,
        if f.addOn then AddOnPrice(plan) else 0, f.email, f.name, plan.value.duration))
  }

  /** On the last step the page always sends a request, and what it asks for is the plan
      shown and the total shown. */
  lemma {:induction false} CheckoutSendsTotal(f: Form)
    requires Consistent(f) && f.step == Checkout
    ensures HandleCheckout(f).Some?
    ensures var r := HandleCheckout(f).value;
      && Some(Plan(r.planId, r.planName, r.planPrice, r.duration, FindPlan(f.planId).value.months,
                   FindPlan(f.planId).value.description, FindPlan(f.planId).value.features,
                   FindPlan(f.planId).value.popular)) == FindPlan(f.planId)
      && r.planPrice + r.addOnPrice == TotalPrice(FindPlan(f.planId), f.addOn)
      && (r.addOnPrice > 0 <==> f.addOn)
      && r.email == f.email && r.name == f.name
  {
    PriceSpec(FindPlan(f.planId), f.addOn);
  }
}
