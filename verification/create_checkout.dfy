/** The checkout function's pure part: the Stripe line items and session metadata it builds
    from the pricing page's request, and how the payment webhook reads the metadata back. */
module CreateCheckout {
  import opened Wrappers
  import Pricing

  /** One entry of `line_items`: `price_data` flattened, plus the quantity. */
  datatype LineItem = LineItem(currency: string, name: string, description: string, unitAmount: int, quantity: nat)

  /** `Math.round(price * 100)`: euros to whole cents, halves rounded up. */
  function Cents(euros: real): (r: int)
    ensures r as real <= euros * 100.0 + 0.5 < r as real + 1.0
  {
    (euros * 100.0 + 0.5).Floor
  }

  /** Whole euros are charged exactly. */
  lemma {:induction false} CentsOfWholeEuros(euros: int)
    ensures Cents(euros as real) == 100 * euros
  {
  }

  const AddOnName: string := "Seguimiento Inteligente"

  /** `lineItems`: the plan, then the add-on when its price is positive. */
  function LineItems(req: Pricing.CheckoutRequest): (r: seq<LineItem>)
    ensures 1 <= |r| <= 2
    ensures r[0] == LineItem("eur", "Plan " + req.planName, "Acceso durante " + req.duration, Cents(req.planPrice as real), 1)
    ensures |r| == 2 <==> req.addOnPrice > 0
    ensures |r| == 2 ==>
      r[1] == LineItem("eur", AddOnName, "Add-on premium para " + req.duration, Cents(req.addOnPrice as real), 1)
  {
    var plan := LineItem("eur", "Plan " + req.planName, "Acceso durante " + req.duration, Cents(req.planPrice as real), 1);
    if req.addOnPrice > 0 then
      [plan, LineItem("eur", AddOnName, "Add-on premium para " + req.duration, Cents(req.addOnPrice as real), 1)]
    else [plan]
  }

  /** What the customer pays for a list of items, in cents. */
  function AmountDue(items: seq<LineItem>): (r: int)
    ensures |items| == 0 ==> r == 0
    ensures (forall i :: 0 <= i < |items| ==> items[i].unitAmount >= 0) ==> r >= 0
    decreases |items|
  {
    if |items| == 0 then 0
    else
      assert forall i :: 0 <= i < |items| - 1 ==> items[1..][i] == items[i + 1];
      MulNonNegative(items[0].unitAmount, items[0].quantity);
      items[0].unitAmount * items[0].quantity + AmountDue(items[1..])
  }

  lemma {:induction false} MulNonNegative(a: int, b: nat)
    ensures a >= 0 ==> a * b >= 0
  {
  }

  /** The session's `metadata`. */
  datatype Metadata = Metadata(planId: string, planName: string, duration: string, email: string, name: string, addOnIncluded: string)

  function SessionMetadata(req: Pricing.CheckoutRequest): (r: Metadata)
    ensures r.addOnIncluded == "true" || r.addOnIncluded == "false"
    ensures r.addOnIncluded == "true" <==> |LineItems(req)| == 2
    ensures r.(addOnIncluded := "") ==
      Metadata(req.planId, req.planName, req.duration, req.email, req.name, "")
  {
    Metadata(req.planId, req.planName, req.duration, req.email, req.name,
      if req.addOnPrice > 0 then "true" else "false")
  }

  /** The email the webhook sends on a completed session. */
  datatype PlanEmail = PlanEmail(email: string, name: string, planName: string, duration: string, addOn: bool)

  /** The webhook's reading of the metadata: an email only when email, name, plan name
      and duration are all non-empty; the add-on flag is `addOnIncluded === "true"`. */
  function WebhookEmail(m: Metadata): (r: Option<PlanEmail>)
    ensures r.Some? <==> m.email != "" && m.name != "" && m.planName != "" && m.duration != ""
    ensures r.Some? ==> (r.value.addOn <==> m.addOnIncluded == "true")
  {
    if m.email != "" && m.name != "" && m.planName != "" && m.duration != "" then
      Some(PlanEmail(m.email, m.name, m.planName, m.duration, m.addOnIncluded == "true"))
    else None
  }

  /** The request the pricing page sends on its last step is charged at the total the page
      showed, and the confirmation email announces the add-on exactly when it was chosen. */
  lemma {:induction false} CheckoutRoundTrip(f: Pricing.Form)
    requires Pricing.Consistent(f) && f.step == Pricing.Checkout
    ensures var req := Pricing.HandleCheckout(f).value;
      && AmountDue(LineItems(req)) == 100 * Pricing.TotalPrice(Pricing.FindPlan(f.planId), f.addOn)
      && |LineItems(req)| == (if f.addOn then 2 else 1)
      && WebhookEmail(SessionMetadata(req)) ==
           Some(PlanEmail(f.email, f.name, Pricing.FindPlan(f.planId).value.name, Pricing.FindPlan(f.planId).value.duration, f.addOn))
  {
    Pricing.CheckoutSendsTotal(f);
    var req := Pricing.HandleCheckout(f).value;
    CentsOfWholeEuros(req.planPrice);
    CentsOfWholeEuros(req.addOnPrice);
    var items := LineItems(req);
    if |items| == 2 {
      assert items[1..][1..] == [];
      assert AmountDue(items[1..]) == 100 * req.addOnPrice;
    } else {
      assert items[1..] == [];
    }
    assert AmountDue(items) == 100 * req.planPrice + 100 * req.addOnPrice;
    PlanNamesFilled(Pricing.FindPlan(f.planId).value);
  }

  /** Every plan has a name and a duration to put in the email. */
  lemma {:induction false} PlanNamesFilled(p: Pricing.Plan)
    requires p in Pricing.Plans
    ensures p.name != "" && p.duration != ""
  {
  }
}
