/**
  What billing keeps over any run of sign-ups, checkouts and callbacks, in any order and with any
  gateway answers: one active subscription per user, paid intents stay paid, and every paid intent has
  produced exactly one subscription.
*/
module BillingLaws {
  import opened Wrappers
  import opened Billing

  datatype Event =
    | SignUp(user: int)
    | Checkout(req: CheckoutRequest, ref: string, checkout: Option<CheckoutResult>)
    | Callback(provider: string, answer: Option<CallbackResult>)

  /** One call of the service, on a day; a call that raises leaves the tables alone. */
  function Step(t: Tables, plans: seq<Plan>, e: Event, today: int): Tables {
    match e
    case SignUp(user) => SubscribeFreeStep(t, plans, user, today).0
    case Checkout(req, ref, checkout) => BeginStep(t, plans, req, ref, checkout).0
    case Callback(provider, answer) => ConfirmStep(t, provider, answer, today).0
  }

  datatype Dated = Dated(event: Event, today: int)

  function Run(t: Tables, plans: seq<Plan>, events: seq<Dated>): Tables
    decreases |events|
  {
    if events == [] then t else Run(Step(t, plans, events[0].event, events[0].today), plans, events[1..])
  }

  // ---- Counting ----------------------------------------------------------------------------------

  function ActiveCount(subs: seq<UserSubscription>, user: int): nat {
    if subs == [] then 0
    else ActiveCount(subs[..|subs| - 1], user) + if IsActive(subs[|subs| - 1], user) then 1 else 0
  }

  /** How many subscriptions an intent has produced. */
  function Produced(subs: seq<UserSubscription>, ref: string): nat {
    if subs == [] then 0
    else Produced(subs[..|subs| - 1], ref) + if subs[|subs| - 1].source == Some(ref) then 1 else 0
  }

  lemma {:induction false} CancelCounts(subs: seq<UserSubscription>, user: int, other: int, ref: string)
    ensures ActiveCount(CancelActive(subs, user), other) == if other == user then 0 else ActiveCount(subs, other)
    ensures Produced(CancelActive(subs, user), ref) == Produced(subs, ref)
  {
    if subs != [] {
      var n := |subs| - 1;
      CancelCounts(subs[..n], user, other, ref);
      assert CancelActive(subs, user)[..n] == CancelActive(subs[..n], user);
    }
  }

  lemma GrantCounts(subs: seq<UserSubscription>, sub: UserSubscription, other: int, ref: string)
    requires sub.status == Active
    ensures var after := CancelActive(subs, sub.user) + [sub];
            && ActiveCount(after, other) == (if other == sub.user then 1 else ActiveCount(subs, other))
            && Produced(after, ref) == Produced(subs, ref) + (if sub.source == Some(ref) then 1 else 0)
  {
    CancelCounts(subs, sub.user, other, ref);
    var after := CancelActive(subs, sub.user) + [sub];
    assert after[..|subs|] == CancelActive(subs, sub.user);
  }

  // ---- The invariant -----------------------------------------------------------------------------

  ghost predicate OneActiveEach(t: Tables) { forall user :: ActiveCount(t.subs, user) <= 1 }

  predicate UniqueRefs(intents: seq<PaymentIntent>) {
    forall i, j :: 0 <= i < j < |intents| ==> intents[i].merchantRef != intents[j].merchantRef
  }

  /** A paid intent has produced one subscription, any other intent none. */
  predicate ProducedAsPaid(t: Tables) {
    forall k :: 0 <= k < |t.intents| ==>
      Produced(t.subs, t.intents[k].merchantRef) == if t.intents[k].status == Paid then 1 else 0
  }

  /** No subscription claims an intent that does not exist. */
  ghost predicate NothingUnbilled(t: Tables) {
    forall ref :: !HasRef(t.intents, ref) ==> Produced(t.subs, ref) == 0
  }

  ghost predicate Sound(t: Tables) {
    OneActiveEach(t) && UniqueRefs(t.intents) && ProducedAsPaid(t) && NothingUnbilled(t)
  }

  lemma EmptyIsSound()
    ensures Sound(Tables([], []))
  {
  }

  lemma SignUpKeeps(t: Tables, plans: seq<Plan>, user: int, today: int)
    requires Sound(t)
    ensures Sound(SubscribeFreeStep(t, plans, user, today).0)
  {
    var (after, r) := SubscribeFreeStep(t, plans, user, today);
    if r.Success? {
      forall other
        ensures ActiveCount(after.subs, other) <= 1
      {
        GrantCounts(t.subs, r.value, other, "");
      }
      forall ref
        ensures Produced(after.subs, ref) == Produced(t.subs, ref)
      {
        GrantCounts(t.subs, r.value, user, ref);
      }
    }
  }

  lemma CheckoutKeeps(t: Tables, plans: seq<Plan>, req: CheckoutRequest, ref: string, answer: Option<CheckoutResult>)
    requires Sound(t)
    ensures Sound(BeginStep(t, plans, req, ref, answer).0)
  {
    var (after, r) := BeginStep(t, plans, req, ref, answer);
    if r.Success? {
      forall k | 0 <= k < |t.intents|
        ensures t.intents[k].merchantRef != ref
      {
      }
      forall other | !HasRef(after.intents, other)
        ensures !HasRef(t.intents, other)
      {
        RefsGrow(t.intents, r.value, other);
      }
    }
  }

  lemma RefsGrow(intents: seq<PaymentIntent>, last: PaymentIntent, ref: string)
    ensures HasRef(intents, ref) ==> HasRef(intents + [last], ref)
  {
    if HasRef(intents, ref) {
      var k :| 0 <= k < |intents| && intents[k].merchantRef == ref;
      assert (intents + [last])[k].merchantRef == ref;
    }
  }

  lemma {:induction false} PlanIsListed(plans: seq<Plan>, slug: string)
    requires PlanBySlug(plans, slug).Some?
    ensures PlanBySlug(plans, slug).value in plans && PlanBySlug(plans, slug).value.slug == slug
  {
    if plans[0].slug != slug {
      PlanIsListed(plans[1..], slug);
    }
  }

  /**
    A checkout by itself: it adds one unpaid intent, for a positive amount, a listed plan that is not the
    free one and a reference that was free, and grants nothing; or it changes nothing at all.
  */
  lemma CheckoutAddsOneUnpaidIntent(
    t: Tables, plans: seq<Plan>, req: CheckoutRequest, ref: string, answer: Option<CheckoutResult>)
    ensures var (after, r) := BeginStep(t, plans, req, ref, answer);
      && (r.Failure? ==> after == t)
      && (r.Success? ==>
            && after == Tables(t.intents + [r.value], t.subs)
            && !HasRef(t.intents, ref) && r.value.merchantRef == ref
            && r.value.amount > 0.0 && (r.value.status == Redirected || r.value.status == Pending)
            && r.value.user == req.user && r.value.provider == req.provider
            && req.provider in SUPPORTED_PROVIDERS
            && exists p :: p in plans && p.slug == req.planSlug != "free" && p.id == r.value.planId)
  {
    var (after, r) := BeginStep(t, plans, req, ref, answer);
    if r.Success? {
      PlanIsListed(plans, req.planSlug);
    }
  }

  /** What a plan costs for a cycle; a yearly price of zero counts as none. */
  predicate Costs(plan: Plan, cycle: string, amount: real) {
    && (cycle == "monthly" ==> amount == plan.monthlyPrice)
    && (cycle == "annual" && plan.annualPrice.Some? && plan.annualPrice.value != 0.0 ==>
          amount == plan.annualPrice.value)
    && (cycle == "annual" && (plan.annualPrice.None? || plan.annualPrice.value == 0.0) ==>
          amount == 12.0 * plan.monthlyPrice)
  }

  /**
    The bill: the listed plan's price for the cycle asked for.  A checkout gateway's intent waits for the
    customer to come back from it, a manual one for the payment.
  */
  lemma CheckoutBillsThePlan(
    t: Tables, plans: seq<Plan>, req: CheckoutRequest, ref: string, answer: Option<CheckoutResult>)
    requires BeginStep(t, plans, req, ref, answer).1.Success?
    ensures var bill := BeginStep(t, plans, req, ref, answer).1.value;
      && (bill.billingCycle == "monthly" || bill.billingCycle == "annual") && bill.billingCycle == req.billingCycle
      && PlanBySlug(plans, req.planSlug).Some?
      && var p := PlanBySlug(plans, req.planSlug).value;
         && p in plans && p.slug == req.planSlug && bill.planId == p.id
         && Costs(p, bill.billingCycle, bill.amount)
         && (bill.status == Pending <==> bill.provider == "manual")
         && answer.Some? && bill.gatewayTxnId == answer.value.gatewayTxnId
  {
    PlanIsListed(plans, req.planSlug);
  }

  /** A checkout is refused exactly for one of these reasons, found in this order. */
  lemma CheckoutRefusedExactly(
    t: Tables, plans: seq<Plan>, req: CheckoutRequest, ref: string, answer: Option<CheckoutResult>)
    ensures var r, plan := BeginStep(t, plans, req, ref, answer).1, PlanBySlug(plans, req.planSlug);
      r.Failure? <==>
        || !(req.billingCycle == "monthly" || req.billingCycle == "annual")
        || plan.None? || req.planSlug == "free"
        || (exists amount :: Costs(plan.value, req.billingCycle, amount) && amount <= 0.0)
        || req.provider !in SUPPORTED_PROVIDERS || answer.None? || HasRef(t.intents, ref)
  {
    var plan := PlanBySlug(plans, req.planSlug);
    if plan.Some? && (req.billingCycle == "monthly" || req.billingCycle == "annual") {
      PlanIsListed(plans, req.planSlug);
      PriceIsTheOne(plan.value, req.billingCycle);
      assert Costs(plan.value, req.billingCycle, Amount(plan.value, req.billingCycle));
    }
  }

  lemma PriceIsTheOne(plan: Plan, cycle: string)
    requires cycle == "monthly" || cycle == "annual"
    ensures forall amount :: Costs(plan, cycle, amount) <==> amount == Amount(plan, cycle)
  {
  }

  /** Two checkouts of one plan: each cycle is billed its own price. */
  lemma CyclesKeepTheirPrices(
    t: Tables, plans: seq<Plan>, monthly: CheckoutRequest, annual: CheckoutRequest, ref: string,
    answer: Option<CheckoutResult>)
    requires monthly.billingCycle == "monthly" && annual == monthly.(billingCycle := "annual")
    requires BeginStep(t, plans, monthly, ref, answer).1.Success?
    requires BeginStep(t, plans, annual, ref, answer).1.Success?
    ensures var m := BeginStep(t, plans, monthly, ref, answer).1.value;
      var a := BeginStep(t, plans, annual, ref, answer).1.value;
      exists p :: && p in plans && p.slug == monthly.planSlug && p.id == m.planId == a.planId
                  && m.amount == p.monthlyPrice
                  && a.amount == if p.annualPrice.Some? && p.annualPrice.value != 0.0 then p.annualPrice.value
                                 else 12.0 * p.monthlyPrice
  {
    CheckoutBillsThePlan(t, plans, monthly, ref, answer);
    CheckoutBillsThePlan(t, plans, annual, ref, answer);
    assert PlanBySlug(plans, monthly.planSlug).value in plans;
  }

  /** Settling rewrites one row and keeps its identity. */
  lemma SettleRow(t: Tables, k: nat, cb: CallbackResult, today: int)
    requires k < |t.intents|
    ensures var after := Settle(t, k, cb, today);
            && |after.intents| == |t.intents|
            && (forall j :: 0 <= j < |t.intents| && j != k ==> after.intents[j] == t.intents[j])
            && SameBill(t.intents[k], after.intents[k])
            && (t.intents[k].status == Paid ==> after.intents[k].status == Paid && after.subs == t.subs)
            && (after.intents[k].status != Paid ==> after.subs == t.subs)
  {
  }

  predicate SameBill(a: PaymentIntent, b: PaymentIntent) {
    && a.merchantRef == b.merchantRef && a.user == b.user && a.planId == b.planId && a.provider == b.provider
    && a.billingCycle == b.billingCycle && a.amount == b.amount
  }

  lemma SettleSubs(t: Tables, k: nat, cb: CallbackResult, today: int, user: int, ref: string)
    requires k < |t.intents|
    ensures var after := Settle(t, k, cb, today);
            var newlyPaid := t.intents[k].status != Paid && after.intents[k].status == Paid;
            && ActiveCount(after.subs, user)
               == (if newlyPaid && user == t.intents[k].user then 1 else ActiveCount(t.subs, user))
            && Produced(after.subs, ref)
               == Produced(t.subs, ref) + (if newlyPaid && ref == t.intents[k].merchantRef then 1 else 0)
  {
    var after := Settle(t, k, cb, today);
    if t.intents[k].status != Paid && after.intents[k].status == Paid {
      GrantCounts(t.subs, PaidSubscription(after.intents[k], today), user, ref);
    }
  }

  lemma SettleKeepsOneActive(t: Tables, k: nat, cb: CallbackResult, today: int)
    requires OneActiveEach(t) && k < |t.intents|
    ensures OneActiveEach(Settle(t, k, cb, today))
  {
    forall user
      ensures ActiveCount(Settle(t, k, cb, today).subs, user) <= 1
    {
      SettleSubs(t, k, cb, today, user, "");
    }
  }

  lemma SettleKeepsProduced(t: Tables, k: nat, cb: CallbackResult, today: int, j: nat)
    requires UniqueRefs(t.intents) && ProducedAsPaid(t) && k < |t.intents| && j < |t.intents|
    ensures var after := Settle(t, k, cb, today);
            && |after.intents| == |t.intents|
            && Produced(after.subs, after.intents[j].merchantRef)
               == if after.intents[j].status == Paid then 1 else 0
  {
    SettleRow(t, k, cb, today);
    SettleSubs(t, k, cb, today, 0, t.intents[j].merchantRef);
    assert j != k ==> t.intents[j].merchantRef != t.intents[k].merchantRef;
  }

  lemma SettleKeepsUnbilled(t: Tables, k: nat, cb: CallbackResult, today: int)
    requires NothingUnbilled(t) && k < |t.intents|
    ensures NothingUnbilled(Settle(t, k, cb, today))
  {
    var after := Settle(t, k, cb, today);
    SettleRow(t, k, cb, today);
    forall ref | !HasRef(after.intents, ref)
      ensures Produced(after.subs, ref) == 0
    {
      SettleSubs(t, k, cb, today, 0, ref);
      SameRefs(t.intents, after.intents, ref);
      assert HasRef(t.intents, t.intents[k].merchantRef);
    }
  }

  lemma SettleKeepsAllProduced(t: Tables, k: nat, cb: CallbackResult, today: int)
    requires UniqueRefs(t.intents) && ProducedAsPaid(t) && k < |t.intents|
    ensures ProducedAsPaid(Settle(t, k, cb, today))
  {
    var after := Settle(t, k, cb, today);
    forall j | 0 <= j < |after.intents|
      ensures Produced(after.subs, after.intents[j].merchantRef) == if after.intents[j].status == Paid then 1 else 0
    {
      SettleKeepsProduced(t, k, cb, today, j);
    }
  }

  lemma SettleKeepsRefs(t: Tables, k: nat, cb: CallbackResult, today: int)
    requires UniqueRefs(t.intents) && k < |t.intents|
    ensures UniqueRefs(Settle(t, k, cb, today).intents)
  {
    SettleRow(t, k, cb, today);
  }

  lemma SettleKeeps(t: Tables, k: nat, cb: CallbackResult, today: int)
    requires Sound(t) && k < |t.intents|
    ensures Sound(Settle(t, k, cb, today))
  {
    SettleKeepsRefs(t, k, cb, today);
    SettleKeepsOneActive(t, k, cb, today);
    SettleKeepsAllProduced(t, k, cb, today);
    SettleKeepsUnbilled(t, k, cb, today);
  }

  lemma SameRefs(a: seq<PaymentIntent>, b: seq<PaymentIntent>, ref: string)
    requires |a| == |b| && forall k :: 0 <= k < |a| ==> a[k].merchantRef == b[k].merchantRef
    ensures HasRef(a, ref) == HasRef(b, ref)
  {
  }

  lemma StepKeeps(t: Tables, plans: seq<Plan>, e: Event, today: int)
    requires Sound(t)
    ensures Sound(Step(t, plans, e, today))
  {
    match e
    case SignUp(user) => SignUpKeeps(t, plans, user, today);
    case Checkout(req, ref, checkout) => CheckoutKeeps(t, plans, req, ref, checkout);
    case Callback(provider, answer) =>
      if provider in SUPPORTED_PROVIDERS && answer.Some? {
        var k := FindIntent(t.intents, provider, answer.value.merchantRef);
        if k.Some? {
          SettleKeeps(t, k.value, answer.value, today);
        }
      }
  }

  lemma {:induction false} RunKeeps(t: Tables, plans: seq<Plan>, events: seq<Dated>)
    requires Sound(t)
    ensures Sound(Run(t, plans, events))
    decreases |events|
  {
    if events != [] {
      StepKeeps(t, plans, events[0].event, events[0].today);
      RunKeeps(Step(t, plans, events[0].event, events[0].today), plans, events[1..]);
    }
  }

  // ---- The main results --------------------------------------------------------------------------

  /** From empty tables, whatever happens: one active subscription each, one per paid intent, none otherwise. */
  lemma EveryRunIsSound(plans: seq<Plan>, events: seq<Dated>, user: int, k: nat)
    ensures var t := Run(Tables([], []), plans, events);
            && ActiveCount(t.subs, user) <= 1
            && UniqueRefs(t.intents)
            && (k < |t.intents| ==>
                  Produced(t.subs, t.intents[k].merchantRef) == if t.intents[k].status == Paid then 1 else 0)
  {
    EmptyIsSound();
    RunKeeps(Tables([], []), plans, events);
  }

  lemma StepKeepsPaid(t: Tables, plans: seq<Plan>, e: Event, today: int, k: nat)
    requires k < |t.intents| && t.intents[k].status == Paid
    ensures var after := Step(t, plans, e, today);
            k < |after.intents| && after.intents[k].status == Paid && SameBill(t.intents[k], after.intents[k])
  {
    if e.Callback? && e.provider in SUPPORTED_PROVIDERS && e.answer.Some? {
      var found := FindIntent(t.intents, e.provider, e.answer.value.merchantRef);
      if found.Some? {
        SettleRow(t, found.value, e.answer.value, today);
      }
    }
  }

  /** Once paid, an intent stays paid, for the same user, plan and amount, through every later event. */
  lemma {:induction false} PaidIsAbsorbing(t: Tables, plans: seq<Plan>, events: seq<Dated>, k: nat)
    requires k < |t.intents| && t.intents[k].status == Paid
    ensures var after := Run(t, plans, events);
            k < |after.intents| && after.intents[k].status == Paid && SameBill(t.intents[k], after.intents[k])
    decreases |events|
  {
    if events != [] {
      StepKeepsPaid(t, plans, events[0].event, events[0].today, k);
      PaidIsAbsorbing(Step(t, plans, events[0].event, events[0].today), plans, events[1..], k);
    }
  }

  lemma {:induction false} FoundIntentMatches(intents: seq<PaymentIntent>, provider: string, ref: string, k: nat)
    requires UniqueRefs(intents) && k < |intents|
    ensures FindIntent(intents, provider, ref) == Some(k)
       <==> intents[k].merchantRef == ref && intents[k].provider == provider
  {
    var n := |intents| - 1;
    if k < n {
      FoundIntentMatches(intents[..n], provider, ref, k);
    } else {
      FindIsInside(intents[..n], provider, ref);
    }
  }

  lemma FindIsInside(intents: seq<PaymentIntent>, provider: string, ref: string)
    ensures FindIntent(intents, provider, ref) != Some(|intents|)
  {
  }

  /** A second delivery of a callback changes no subscription and no status. */
  lemma DuplicateCallbackGrantsNothing(t: Tables, provider: string, cb: CallbackResult, day: int, later: int)
    requires UniqueRefs(t.intents)
    ensures var once := ConfirmStep(t, provider, Some(cb), day).0;
            var twice := ConfirmStep(once, provider, Some(cb), later).0;
            ConfirmStep(t, provider, Some(cb), day).1.Success? ==> twice == once
  {
    var (once, r) := ConfirmStep(t, provider, Some(cb), day);
    if r.Success? {
      var k := FindIntent(t.intents, provider, cb.merchantRef).value;
      FoundIntentMatches(t.intents, provider, cb.merchantRef, k);
      SettleRow(t, k, cb, day);
      assert UniqueRefs(once.intents);
      FoundIntentMatches(once.intents, provider, cb.merchantRef, k);
      assert once.intents[k := once.intents[k]] == once.intents;
      assert Settle(once, k, cb, later).intents == once.intents;
    }
  }

  /** Where any callback leaves an unpaid intent that it names. */
  lemma StatusAfterCallback(t: Tables, k: nat, cb: CallbackResult, today: int)
    requires k < |t.intents| && t.intents[k].status != Paid
    ensures var before, after := t.intents[k], Settle(t, k, cb, today).intents[k];
      && (after.status == Paid <==>
            && cb.status == CallbackPaid
            && (cb.amount.None? || -0.01 <= cb.amount.value - before.amount <= 0.01))
      && (after.status == Failed <==>
            cb.status == CallbackFailed || (cb.status == CallbackPaid && after.status != Paid))
      && (after.status == Canceled <==> cb.status == CallbackCanceled)
      && (after.status == Redirected <==> cb.status == CallbackPending)
      && after.gatewayTxnId
         == if cb.gatewayTxnId.Some? && cb.gatewayTxnId.value != "" then cb.gatewayTxnId else before.gatewayTxnId
  {
  }

  /** A callback pays an intent exactly when it names it, reports payment, and the amount is within a paisa. */
  lemma PaidExactly(t: Tables, provider: string, cb: CallbackResult, today: int, k: nat)
    requires UniqueRefs(t.intents) && k < |t.intents| && t.intents[k].status != Paid
    requires provider in SUPPORTED_PROVIDERS
    ensures ConfirmStep(t, provider, Some(cb), today).0.intents[k].status == Paid
       <==> && t.intents[k].merchantRef == cb.merchantRef && t.intents[k].provider == provider
            && cb.status == CallbackPaid
            && (cb.amount.None? || -0.01 <= cb.amount.value - t.intents[k].amount <= 0.01)
  {
    FoundIntentMatches(t.intents, provider, cb.merchantRef, k);
  }

  // ---- What the user sees ------------------------------------------------------------------------

  lemma {:induction false} CurrentIsActive(subs: seq<UserSubscription>, user: int)
    ensures CurrentSubscription(subs, user).None? <==> ActiveCount(subs, user) == 0
  {
    if subs != [] {
      CurrentIsActive(subs[..|subs| - 1], user);
    }
  }

  /** With at most one active row the newest one is the only one. */
  lemma {:induction false} CurrentIsTheOnlyOne(subs: seq<UserSubscription>, user: int, k: nat)
    requires ActiveCount(subs, user) <= 1 && k < |subs| && IsActive(subs[k], user)
    ensures CurrentSubscription(subs, user) == Some(subs[k])
  {
    var n := |subs| - 1;
    if k < n {
      CurrentIsTheOnlyOne(subs[..n], user, k);
      CurrentIsActive(subs[..n], user);
    }
  }

  /** Paying makes the plan paid for the payer's current one, and touches nobody else's. */
  lemma PayingGrantsThePlan(t: Tables, k: nat, cb: CallbackResult, today: int, other: int)
    requires k < |t.intents| && t.intents[k].status != Paid && Settle(t, k, cb, today).intents[k].status == Paid
    ensures var after := Settle(t, k, cb, today);
            && CurrentSubscription(after.subs, t.intents[k].user) == Some(PaidSubscription(after.intents[k], today))
            && (other != t.intents[k].user ==>
                  CurrentSubscription(after.subs, other) == CurrentSubscription(t.subs, other))
  {
    var after := Settle(t, k, cb, today);
    var user := t.intents[k].user;
    assert after.subs[..|t.subs|] == CancelActive(t.subs, user);
    if other != user {
      CancelLeavesOthers(t.subs, user, other);
    }
  }

  /** What is granted, and for how long: 365 days for a year, 30 for a month, ten times 365 for the free plan. */
  lemma GrantedPeriod(t: Tables, plans: seq<Plan>, k: nat, cb: CallbackResult, user: int, today: int)
    requires k < |t.intents| && t.intents[k].status != Paid && Settle(t, k, cb, today).intents[k].status == Paid
    ensures var bill, sub := t.intents[k], CurrentSubscription(Settle(t, k, cb, today).subs, t.intents[k].user);
      && sub.Some? && sub.value.status == Active && sub.value.user == bill.user && sub.value.planId == bill.planId
      && sub.value.provider == Some(bill.provider) && sub.value.periodStart == today
      && sub.value.periodEnd - today == (if bill.billingCycle == "annual" then 365 else 30)
      && !sub.value.cancelAtPeriodEnd
      && var gatewayId := Settle(t, k, cb, today).intents[k].gatewayTxnId;
         sub.value.providerSubscriptionId
         == if gatewayId.Some? && gatewayId.value != "" then gatewayId else Some(bill.merchantRef)
    ensures var (after, r) := SubscribeFreeStep(t, plans, user, today);
      r.Success? ==>
        && CurrentSubscription(after.subs, user) == Some(r.value) && r.value.status == Active && r.value.user == user
        && r.value.periodStart == today && r.value.periodEnd - today == 3650
        && exists p :: p in plans && p.slug == "free" && p.id == r.value.planId
  {
    PayingGrantsThePlan(t, k, cb, today, user);
    var (after, r) := SubscribeFreeStep(t, plans, user, today);
    if r.Success? {
      PlanIsListed(plans, "free");
      assert after.subs[|after.subs| - 1] == r.value;
    }
  }

  /** A canceled row says so in both its fields; no other row changes. */
  lemma {:induction false} CanceledRows(subs: seq<UserSubscription>, user: int, k: nat)
    requires k < |subs|
    ensures var before, after := subs[k], CancelActive(subs, user)[k];
      if before.user == user && (before.status == Active || before.status == Trialing)
      then after == before.(status := SubCanceled, cancelAtPeriodEnd := true)
      else after == before
  {
    if k < |subs| - 1 {
      CanceledRows(subs[..|subs| - 1], user, k);
    }
  }

  lemma {:induction false} CancelLeavesOthers(subs: seq<UserSubscription>, user: int, other: int)
    requires other != user
    ensures CurrentSubscription(CancelActive(subs, user), other) == CurrentSubscription(subs, other)
  {
    if subs != [] {
      var n := |subs| - 1;
      CancelLeavesOthers(subs[..n], user, other);
      assert CancelActive(subs, user)[..n] == CancelActive(subs[..n], user);
    }
  }
}
