/**
  Subscriptions and payment intents, psx_api/services/billing_service.py.  The two tables are fields that
  the service's methods rewrite; what a gateway says is an arbitrary parameter.
*/
module Billing {
  import opened Wrappers
  import opened Rounding

  datatype Plan = Plan(id: int, slug: string, monthlyPrice: real, annualPrice: Option<real>)

  datatype IntentStatus = Pending | Redirected | Paid | Failed | Canceled | Expired

  datatype PaymentIntent = PaymentIntent(
    user: int, planId: int, provider: string, billingCycle: string, amount: real, status: IntentStatus,
    merchantRef: string, gatewayTxnId: Option<string>)

  datatype SubStatus = Active | Trialing | PastDue | SubCanceled | Incomplete

  /** `source` is bookkeeping of the model: the reference of the intent that produced the row, if any. */
  datatype UserSubscription = UserSubscription(
    user: int, planId: int, status: SubStatus, provider: Option<string>, providerSubscriptionId: Option<string>,
    periodStart: int, periodEnd: int, cancelAtPeriodEnd: bool, source: Option<string>)

  /** A gateway's answer to a checkout request, reduced to what the service stores. */
  datatype CheckoutResult = CheckoutResult(gatewayTxnId: Option<string>)

  datatype CallbackStatus = CallbackPaid | CallbackFailed | CallbackCanceled | CallbackPending

  datatype CallbackResult = CallbackResult(
    merchantRef: string, status: CallbackStatus, gatewayTxnId: Option<string>, amount: Option<real>)

  datatype BillingError =
    | FreePlanNotConfigured | UnknownCycle | UnknownPlan | FreePlanNeedsNoCheckout | NoPrice
    | UnknownProvider | CheckoutFailed | DuplicateReference | CallbackRejected | NoMatchingIntent

  datatype Tables = Tables(intents: seq<PaymentIntent>, subs: seq<UserSubscription>)

  const CHECKOUT_PROVIDERS := {"jazzcash", "easypaisa", "meezan", "allied_payfast", "safepay", "nayapay"}
  const SUPPORTED_PROVIDERS := CHECKOUT_PROVIDERS + {"manual"}

  // ---- Queries -----------------------------------------------------------------------------------

  function PlanBySlug(plans: seq<Plan>, slug: string): Option<Plan> {
    if plans == [] then None
    else if plans[0].slug == slug then Some(plans[0])
    else PlanBySlug(plans[1..], slug)
  }

  predicate IsActive(s: UserSubscription, user: int) { s.user == user && (s.status == Active || s.status == Trialing) }

  predicate HasRef(intents: seq<PaymentIntent>, ref: string) {
    exists k :: 0 <= k < |intents| && intents[k].merchantRef == ref
  }

  /** The position of the intent that a callback of a provider is about. */
  function FindIntent(intents: seq<PaymentIntent>, provider: string, ref: string): (r: Option<nat>)
    ensures r.Some? ==> r.value < |intents|
  {
    if intents == [] then None
    else
      var n := |intents| - 1;
      if intents[n].merchantRef == ref && intents[n].provider == provider then Some(n)
      else FindIntent(intents[..n], provider, ref)
  }

  /** The newest active subscription of a user. */
  function CurrentSubscription(subs: seq<UserSubscription>, user: int): Option<UserSubscription> {
    if subs == [] then None
    else
      var n := |subs| - 1;
      if IsActive(subs[n], user) then Some(subs[n]) else CurrentSubscription(subs[..n], user)
  }

  // ---- The steps ---------------------------------------------------------------------------------

  function Cancel(s: UserSubscription, user: int): UserSubscription {
    if IsActive(s, user) then s.(status := SubCanceled, cancelAtPeriodEnd := true) else s
  }

  function CancelActive(subs: seq<UserSubscription>, user: int): (r: seq<UserSubscription>)
    ensures |r| == |subs|
  {
    if subs == [] then [] else CancelActive(subs[..|subs| - 1], user) + [Cancel(subs[|subs| - 1], user)]
  }

  lemma CancelOneMore(subs: seq<UserSubscription>, user: int, i: nat)
    requires i < |subs|
    ensures CancelActive(subs[..i + 1], user) == CancelActive(subs[..i], user) + [Cancel(subs[i], user)]
  {
    assert subs[..i + 1][..i] == subs[..i];
  }

  function FreeSubscription(plan: Plan, user: int, today: int): UserSubscription {
    UserSubscription(user, plan.id, Active, None, None, today, today + 3650, false, None)
  }

  function SubscribeFreeStep(t: Tables, plans: seq<Plan>, user: int, today: int)
    : (Tables, Result<UserSubscription, BillingError>)
  {
    var plan := PlanBySlug(plans, "free");
    if plan.None? then (t, Failure(FreePlanNotConfigured))
    else
      var sub := FreeSubscription(plan.value, user, today);
      (Tables(t.intents, CancelActive(t.subs, user) + [sub]), Success(sub))
  }

  datatype CheckoutRequest = CheckoutRequest(user: int, planSlug: string, provider: string, billingCycle: string)

  /** The yearly price, or twelve months when there is none (a yearly price of zero counts as none). */
  function Amount(plan: Plan, cycle: string): real {
    if cycle == "annual" then
      if plan.annualPrice.Some? && plan.annualPrice.value != 0.0 then plan.annualPrice.value
      else plan.monthlyPrice * 12.0
    else plan.monthlyPrice
  }

  /** The checks before a gateway is asked. */
  function Checked(req: CheckoutRequest, plans: seq<Plan>): Result<Plan, BillingError> {
    if req.billingCycle != "monthly" && req.billingCycle != "annual" then Failure(UnknownCycle)
    else
      var plan := PlanBySlug(plans, req.planSlug);
      if plan.None? then Failure(UnknownPlan)
      else if plan.value.slug == "free" then Failure(FreePlanNeedsNoCheckout)
      else if Amount(plan.value, req.billingCycle) <= 0.0 then Failure(NoPrice)
      else if req.provider !in SUPPORTED_PROVIDERS then Failure(UnknownProvider)
      else Success(plan.value)
  }

  function NewIntent(req: CheckoutRequest, plan: Plan, ref: string, checkout: CheckoutResult): PaymentIntent {
    PaymentIntent(
      req.user, plan.id, req.provider, req.billingCycle, Amount(plan, req.billingCycle),
      if req.provider in CHECKOUT_PROVIDERS then Redirected else Pending, ref, checkout.gatewayTxnId)
  }

  /** `ref` is the random reference; the table's unique constraint refuses one that is taken. */
  function BeginStep(t: Tables, plans: seq<Plan>, req: CheckoutRequest, ref: string, answer: Option<CheckoutResult>)
    : (Tables, Result<PaymentIntent, BillingError>)
  {
    var plan := Checked(req, plans);
    if plan.Failure? then (t, Failure(plan.error))
    else if answer.None? then (t, Failure(CheckoutFailed))
    else if HasRef(t.intents, ref) then (t, Failure(DuplicateReference))
    else
      var intent := NewIntent(req, plan.value, ref, answer.value);
      (Tables(t.intents + [intent], t.subs), Success(intent))
  }

  /** Python's `a or b` on optional text: the empty text counts as absent. */
  function OrElse(a: Option<string>, b: Option<string>): Option<string> {
    if a.Some? && a.value != "" then a else b
  }

  predicate AmountMatches(intent: PaymentIntent, amount: Option<real>) {
    amount.None? || Abs(amount.value - intent.amount) <= 0.01
  }

  /** An unpaid intent after a callback. */
  function NextStatus(intent: PaymentIntent, cb: CallbackResult): IntentStatus {
    match cb.status
    case CallbackPaid => if AmountMatches(intent, cb.amount) then Paid else Failed
    case CallbackCanceled => Canceled
    case CallbackPending => Redirected
    case CallbackFailed => Failed
  }

  function PaidSubscription(intent: PaymentIntent, today: int): UserSubscription {
    UserSubscription(
      intent.user, intent.planId, Active, Some(intent.provider),
      OrElse(intent.gatewayTxnId, Some(intent.merchantRef)), today,
      today + if intent.billingCycle == "annual" then 365 else 30, false, Some(intent.merchantRef))
  }

  function ActivateSubscription(subs: seq<UserSubscription>, intent: PaymentIntent, today: int): seq<UserSubscription> {
    CancelActive(subs, intent.user) + [PaidSubscription(intent, today)]
  }

  /** A verified callback about the intent at position `k`. */
  function Settle(t: Tables, k: nat, cb: CallbackResult, today: int): Tables
    requires k < |t.intents|
  {
    var seen := t.intents[k].(gatewayTxnId := OrElse(cb.gatewayTxnId, t.intents[k].gatewayTxnId));
    if seen.status == Paid then Tables(t.intents[k := seen], t.subs)
    else
      var next := seen.(status := NextStatus(seen, cb));
      Tables(t.intents[k := next], if next.status == Paid then ActivateSubscription(t.subs, next, today) else t.subs)
  }

  /** `answer` is None when the gateway refuses the payload. */
  function ConfirmStep(t: Tables, provider: string, answer: Option<CallbackResult>, today: int)
    : (Tables, Result<PaymentIntent, BillingError>)
  {
    if provider !in SUPPORTED_PROVIDERS then (t, Failure(UnknownProvider))
    else if answer.None? then (t, Failure(CallbackRejected))
    else
      var k := FindIntent(t.intents, provider, answer.value.merchantRef);
      if k.None? then (t, Failure(NoMatchingIntent))
      else
        var after := Settle(t, k.value, answer.value, today);
        (after, Success(after.intents[k.value]))
  }

  // ---- The service -------------------------------------------------------------------------------

  class BillingService {
    const plans: seq<Plan>
    var intents: seq<PaymentIntent>
    var subs: seq<UserSubscription>

    ghost function State(): Tables
      reads this
    {
      Tables(intents, subs)
    }

    constructor (plans: seq<Plan>)
      ensures this.plans == plans && State() == Tables([], [])
    {
      this.plans := plans;
      intents, subs := [], [];
    }

    /** The loop both sign-ups begin with: every active row of the user is canceled in place. */
    method CancelExisting(user: int)
      modifies this`subs
      ensures subs == CancelActive(old(subs), user)
    {
      ghost var before := subs;
      for i := 0 to |subs|
        invariant |subs| == |before|
        invariant subs[..i] == CancelActive(before[..i], user)
        invariant subs[i..] == before[i..]
      {
        CancelOneMore(before, user, i);
        assert subs[i] == subs[i..][0] == before[i];
        assert before[i + 1..] == subs[i..][1..];
        if IsActive(subs[i], user) {
          subs := subs[i := subs[i].(status := SubCanceled, cancelAtPeriodEnd := true)];
        }
        assert subs[..i + 1] == CancelActive(before[..i], user) + [Cancel(before[i], user)];
      }
      assert before[..|before|] == before && subs[..|before|] == subs;
    }

    method SubscribeFree(user: int, today: int) returns (r: Result<UserSubscription, BillingError>)
      modifies this
      ensures (State(), r) == SubscribeFreeStep(old(State()), plans, user, today)
    {
      var plan := PlanBySlug(plans, "free");
      if plan.None? {
        return Failure(FreePlanNotConfigured);
      }
      CancelExisting(user);
      var sub := UserSubscription(user, plan.value.id, Active, None, None, today, today + 3650, false, None);
      subs := subs + [sub];
      r := Success(sub);
    }

    method BeginPaidSubscription(req: CheckoutRequest, ref: string, answer: Option<CheckoutResult>)
      returns (r: Result<PaymentIntent, BillingError>)
      modifies this
      ensures (State(), r) == BeginStep(old(State()), plans, req, ref, answer)
    {
      var plan := Checked(req, plans);
      if plan.Failure? {
        return Failure(plan.error);
      }
      if answer.None? {
        return Failure(CheckoutFailed);
      }
      if HasRef(intents, ref) {
        return Failure(DuplicateReference);
      }
      var intent := NewIntent(req, plan.value, ref, answer.value);
      intents := intents + [intent];
      r := Success(intent);
    }

    method Activate(intent: PaymentIntent, today: int)
      modifies this`subs
      ensures subs == ActivateSubscription(old(subs), intent, today)
    {
      CancelExisting(intent.user);
      var periodEnd := if intent.billingCycle == "annual" then today + 365 else today + 30;
      subs := subs + [UserSubscription(
                        intent.user, intent.planId, Active, Some(intent.provider),
                        OrElse(intent.gatewayTxnId, Some(intent.merchantRef)), today, periodEnd, false,
                        Some(intent.merchantRef))];
    }

    method ConfirmPayment(provider: string, answer: Option<CallbackResult>, today: int)
      returns (r: Result<PaymentIntent, BillingError>)
      modifies this
      ensures (State(), r) == ConfirmStep(old(State()), provider, answer, today)
    {
      if provider !in SUPPORTED_PROVIDERS {
        return Failure(UnknownProvider);
      }
      if answer.None? {
        return Failure(CallbackRejected);
      }
      var cb := answer.value;
      var found := FindIntent(intents, provider, cb.merchantRef);
      if found.None? {
        return Failure(NoMatchingIntent);
      }
      var k := found.value;
      intents := intents[k := intents[k].(gatewayTxnId := OrElse(cb.gatewayTxnId, intents[k].gatewayTxnId))];
      if intents[k].status == Paid {
        return Success(intents[k]);
      }
      if cb.status == CallbackPaid {
        if cb.amount.Some? && Abs(cb.amount.value - intents[k].amount) > 0.01 {
          intents := intents[k := intents[k].(status := Failed)];
          assert intents == old(intents)[k := intents[k]];
          return Success(intents[k]);
        }
        intents := intents[k := intents[k].(status := Paid)];
        Activate(intents[k], today);
      } else if cb.status == CallbackCanceled {
        intents := intents[k := intents[k].(status := Canceled)];
      } else if cb.status == CallbackPending {
        intents := intents[k := intents[k].(status := Redirected)];
      } else {
        intents := intents[k := intents[k].(status := Failed)];
      }
      assert intents == old(intents)[k := intents[k]];
      r := Success(intents[k]);
    }
  }
}
