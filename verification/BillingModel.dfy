/**
 * Subscription payments and entitlements: idempotent events, extension from the
 * later of now and the current expiry, and a status read that writes.
 */
module BillingModel {
  import opened Options

  type UserId = nat
  /** Microseconds, on one clock. */
  type Instant = int

  const DAY := 86_400_000_000
  const FREE_AI_DAILY_LIMIT := 20
  const PRO_AI_DAILY_LIMIT := 100

  datatype SubscriptionPlan = Free | Pro

  datatype Entitlement = Entitlement(plan: SubscriptionPlan, activeUntil: Option<Instant>)

  datatype Status = Status(plan: SubscriptionPlan, activeUntil: Option<Instant>, aiDailyLimit: nat)

  datatype Payment = Payment(userId: UserId, planCode: string, amountCents: nat, externalEventId: string)

  /** The tables: accounts, payments by their unique event identifier, entitlements by account. */
  datatype Tables = Tables(
    users: set<UserId>, payments: map<string, Payment>, entitlements: map<UserId, Entitlement>)

  datatype Outcome = Created(payment: Payment) | Replayed(payment: Payment) | InvalidPlanCode | IntegrityFailure

  predicate KnownPlan(code: string) {
    code == "monthly" || code == "seasonal"
  }

  function Price(code: string): nat
    requires KnownPlan(code)
  {
    if code == "monthly" then 399 else 2999
  }

  function Duration(code: string): nat
    requires KnownPlan(code)
  {
    if code == "monthly" then 30 * DAY else 270 * DAY
  }

  const FREE_STATUS := Status(Free, None, FREE_AI_DAILY_LIMIT)

  /** A stored PRO window that has run out by `now`. */
  predicate Expired(row: Entitlement, now: Instant) {
    row.plan == Pro && row.activeUntil.Some? && row.activeUntil.value <= now
  }

  function StatusAt(t: Tables, user: UserId, now: Instant): Status {
    if user !in t.entitlements || t.entitlements[user].plan == Free || Expired(t.entitlements[user], now)
    then FREE_STATUS
    else Status(Pro, t.entitlements[user].activeUntil, PRO_AI_DAILY_LIMIT)
  }

  /** The tables a status read leaves behind: an expired window is written back as FREE. */
  function AfterRead(t: Tables, user: UserId, now: Instant): Tables {
    if user in t.entitlements && Expired(t.entitlements[user], now)
    then t.(entitlements := t.entitlements[user := Entitlement(Free, None)])
    else t
  }

  function AfterActivation(t: Tables, user: UserId, until: Instant): Tables {
    t.(entitlements := t.entitlements[user := Entitlement(Pro, Some(until))])
  }

  function Base(status: Status, now: Instant): Instant {
    if status.activeUntil.Some? && status.activeUntil.value > now then status.activeUntil.value else now
  }

  function PaymentOutcome(t: Tables, eventId: string, user: UserId, planCode: string): Outcome {
    if eventId in t.payments then Replayed(t.payments[eventId])
    else if !KnownPlan(planCode) then InvalidPlanCode
    else if user !in t.users then IntegrityFailure
    else Created(Payment(user, planCode, Price(planCode), eventId))
  }

  function AfterPayment(t: Tables, eventId: string, user: UserId, planCode: string, now: Instant): Tables {
    var outcome := PaymentOutcome(t, eventId, user, planCode);
    if outcome.Created? then
      var recorded := t.(payments := t.payments[eventId := outcome.payment]);
      AfterActivation(
        AfterRead(recorded, user, now), user, Base(StatusAt(recorded, user, now), now) + Duration(planCode))
    else t
  }

  /* ---- runs ---- */

  datatype Event =
    | Read(user: UserId, now: Instant)
    | Deliver(eventId: string, user: UserId, planCode: string, now: Instant)

  function Step(t: Tables, e: Event): Tables {
    match e
    case Read(user, now) => AfterRead(t, user, now)
    case Deliver(eventId, user, planCode, now) => AfterPayment(t, eventId, user, planCode, now)
  }

  function Fresh(users: set<UserId>): Tables {
    Tables(users, map[], map[])
  }

  function Run(users: set<UserId>, events: seq<Event>): Tables {
    if events == [] then Fresh(users)
    else Step(Run(users, events[..|events| - 1]), events[|events| - 1])
  }

  ghost predicate Chronological(events: seq<Event>) {
    forall i, j :: 0 <= i < j < |events| ==> events[i].now <= events[j].now
  }

  ghost predicate DoneBy(events: seq<Event>, now: Instant) {
    forall i :: 0 <= i < |events| ==> events[i].now <= now
  }

  /** The tables as the services hold them, changed in place. */
  class BillingStore {
    var users: set<UserId>
    var payments: map<string, Payment>
    var entitlements: map<UserId, Entitlement>

    constructor (users: set<UserId>)
      ensures Contents() == Fresh(users)
    {
      this.users, payments, entitlements := users, map[], map[];
    }

    ghost function Contents(): Tables
      reads this
    {
      Tables(users, payments, entitlements)
    }

    method GetStatus(user: UserId, now: Instant) returns (status: Status)
      modifies this`entitlements
      ensures status == StatusAt(old(Contents()), user, now)
      ensures Contents() == AfterRead(old(Contents()), user, now)
    {
      if user !in entitlements || entitlements[user].plan == Free {
        return FREE_STATUS;
      }
      var row := entitlements[user];
      if row.activeUntil.Some? && row.activeUntil.value <= now {
        entitlements := entitlements[user := Entitlement(Free, None)];
        return FREE_STATUS;
      }
      return Status(Pro, row.activeUntil, PRO_AI_DAILY_LIMIT);
    }

    method ActivateProUntil(user: UserId, until: Instant)
      modifies this`entitlements
      ensures Contents() == AfterActivation(old(Contents()), user, until)
    {
      entitlements := entitlements[user := Entitlement(Pro, Some(until))];
    }

    method ProcessPaymentEvent(eventId: string, user: UserId, planCode: string, now: Instant)
      returns (outcome: Outcome)
      modifies this`payments, this`entitlements
      ensures outcome == PaymentOutcome(old(Contents()), eventId, user, planCode)
      ensures Contents() == AfterPayment(old(Contents()), eventId, user, planCode, now)
    {
      if eventId in payments {
        return Replayed(payments[eventId]);
      }
      if !KnownPlan(planCode) {
        return InvalidPlanCode;
      }
      if user !in users {
        return IntegrityFailure;
      }
      var payment := Payment(user, planCode, Price(planCode), eventId);
      payments := payments[eventId := payment];
      var current := GetStatus(user, now);
      var base := if current.activeUntil.Some? && current.activeUntil.value > now then current.activeUntil.value else now;
      ActivateProUntil(user, base + Duration(planCode));
      return Created(payment);
    }
  }
}
