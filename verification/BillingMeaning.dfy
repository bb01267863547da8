/** What a plan costs, how long it lasts and what it entitles to, in cents, days and requests. */
module BillingMeaning {
  import opened Options
  import opened BillingModel
  import opened BillingRuns

  /** 86 400 seconds of a million microseconds. */
  const A_DAY := 86_400_000_000

  /** An event on sale: its plan, its price in cents and its days. */
  predicate OnSale(planCode: string, cents: nat, days: nat) {
    (planCode == "monthly" && cents == 399 && days == 30) || (planCode == "seasonal" && cents == 2999 && days == 270)
  }

  /** A delivery for a known user and a plan on sale. */
  predicate GoodDelivery(users: set<UserId>, e: Event) {
    e.Deliver? && e.user in users && (e.planCode == "monthly" || e.planCode == "seasonal")
  }

  lemma PriceList(planCode: string)
    ensures KnownPlan(planCode) <==> planCode == "monthly" || planCode == "seasonal"
    ensures KnownPlan(planCode) ==> OnSale(planCode, Price(planCode), Duration(planCode) / A_DAY)
    ensures KnownPlan(planCode) ==> Duration(planCode) == (Duration(planCode) / A_DAY) * A_DAY
  {
    assert "monthly"[0] != "seasonal"[0];
  }

  /**
   * In every run a first valid delivery adds exactly the days on sale to the time its user has left
   * and stores the price on sale.
   */
  lemma DeliveryBuysDays(users: set<UserId>, before: seq<Event>, e: Event, cents: nat, days: nat)
    requires Chronological(before + [e]) && e.Deliver? && e.user in users && OnSale(e.planCode, cents, days)
    requires forall i :: 0 <= i < |before| && GoodDelivery(users, before[i]) ==> before[i].eventId != e.eventId
    ensures LeftTime(StatusAt(Run(users, before + [e]), e.user, e.now), e.now)
         == LeftTime(StatusAt(Run(users, before), e.user, e.now), e.now) + days * A_DAY
    ensures e.eventId in Run(users, before + [e]).payments
    ensures Run(users, before + [e]).payments[e.eventId] == Payment(e.user, e.planCode, cents, e.eventId)
  {
    var events := before + [e];
    PriceList(e.planCode);
    forall i | 0 <= i < |before| && ValidDelivery(users, before[i]) ensures GoodDelivery(users, before[i]) {
      PriceList(before[i].planCode);
    }
    assert FirstDelivery(users, before, e);
    EventAdds(users, before, e, e.user);
    assert events[..|before|] == before && events[|before|] == e;
    FirstDeliveryIsStored(users, events, |before|);
  }

  /** The status of a PRO account until `end`, and of any other. */
  ghost predicate ProUntil(t: Tables, user: UserId, end: Instant) {
    forall now :: StatusAt(t, user, now)
      == if now < end then Status(Pro, Some(end), 100) else Status(Free, None, 20)
  }

  ghost predicate AlwaysFree(t: Tables, user: UserId, since: Instant) {
    forall now :: now >= since ==> StatusAt(t, user, now) == Status(Free, None, 20)
  }

  /** A payment by a user on FREE makes him PRO from now for its days, with a hundred requests a day instead of twenty. */
  lemma FirstPaymentMeans(
    t: Tables, eventId: string, user: UserId, planCode: string, now: Instant, cents: nat, days: nat)
    requires eventId !in t.payments && user in t.users && OnSale(planCode, cents, days)
    requires AlwaysFree(t, user, now)
    ensures PaymentOutcome(t, eventId, user, planCode) == Created(Payment(user, planCode, cents, eventId))
    ensures ProUntil(AfterPayment(t, eventId, user, planCode, now), user, now + days * A_DAY)
  {
    PriceList(planCode);
    assert StatusAt(t, user, now) == Status(Free, None, 20);
  }

  /** A payment by a PRO user moves the end of his window by its days. */
  lemma RenewalMeans(
    t: Tables, eventId: string, user: UserId, planCode: string, now: Instant, cents: nat, days: nat, end: Instant)
    requires eventId !in t.payments && user in t.users && OnSale(planCode, cents, days)
    requires ProUntil(t, user, end) && now < end
    ensures ProUntil(AfterPayment(t, eventId, user, planCode, now), user, end + days * A_DAY)
  {
    PriceList(planCode);
    assert StatusAt(t, user, now) == Status(Pro, Some(end), 100);
  }

  /** A repeated event, an unknown plan or an unknown user is answered as such and changes nothing. */
  lemma RefusalsMean(t: Tables, eventId: string, user: UserId, planCode: string, now: Instant)
    requires eventId in t.payments || user !in t.users || (planCode != "monthly" && planCode != "seasonal")
    ensures AfterPayment(t, eventId, user, planCode, now) == t
    ensures PaymentOutcome(t, eventId, user, planCode)
         == if eventId in t.payments then Replayed(t.payments[eventId])
            else if planCode != "monthly" && planCode != "seasonal" then InvalidPlanCode
            else IntegrityFailure
  {
    PriceList(planCode);
  }

  /** Nobody else is affected by a payment or a read. */
  lemma OthersUnaffected(
    t: Tables, eventId: string, user: UserId, planCode: string, now: Instant, other: UserId, later: Instant)
    requires other != user
    ensures StatusAt(AfterPayment(t, eventId, user, planCode, now), other, later) == StatusAt(t, other, later)
    ensures StatusAt(AfterRead(t, user, now), other, later) == StatusAt(t, other, later)
  {
  }

  /** A read gives the row's plan, and once its end has come writes FREE in its place. */
  lemma ReadMeans(t: Tables, user: UserId, end: Instant, now: Instant)
    requires user in t.entitlements && t.entitlements[user] == Entitlement(Pro, Some(end))
    ensures ProUntil(t, user, end)
    ensures AfterRead(t, user, now)
         == if now < end then t else t.(entitlements := t.entitlements[user := Entitlement(Free, None)])
  {
  }
}
