/** Whole runs of payments and reads: what was paid is what is used or left, and reads leave no trace. */
module BillingRuns {
  import opened Options
  import opened BillingModel

  /* ---- the pure form: a fold over first valid deliveries ---- */

  predicate ValidDelivery(users: set<UserId>, e: Event) {
    e.Deliver? && KnownPlan(e.planCode) && e.user in users
  }

  /** A valid delivery of an event identifier no earlier valid delivery carried. */
  predicate FirstDelivery(users: set<UserId>, before: seq<Event>, e: Event) {
    && ValidDelivery(users, e)
    && forall i :: 0 <= i < |before| && ValidDelivery(users, before[i]) ==> before[i].eventId != e.eventId
  }

  /** When the last paid window of a user ends, if the user ever paid. */
  function Expiry(users: set<UserId>, events: seq<Event>, user: UserId): Option<Instant> {
    if events == [] then None
    else
      var before, e := events[..|events| - 1], events[|events| - 1];
      Extended(Expiry(users, before, user), e, FirstDelivery(users, before, e), user)
  }

  /** The end of the window after an event: pushed on by a first delivery for the user, from the later of now and where it was. */
  function Extended(earlier: Option<Instant>, e: Event, first: bool, user: UserId): Option<Instant>
    requires first ==> e.Deliver? && KnownPlan(e.planCode)
  {
    if first && e.user == user then
      Some((if earlier.Some? && earlier.value > e.now then earlier.value else e.now) + Duration(e.planCode))
    else earlier
  }

  function FoldStatus(expiry: Option<Instant>, now: Instant): Status {
    if expiry.Some? && expiry.value > now then Status(Pro, expiry, PRO_AI_DAILY_LIMIT) else FREE_STATUS
  }

  /** The recorded event identifiers are those of the first valid deliveries. */
  ghost predicate RecordsExactly(users: set<UserId>, events: seq<Event>, t: Tables) {
    && t.users == users
    && forall id :: id in t.payments <==>
         exists i :: 0 <= i < |events| && ValidDelivery(users, events[i]) && events[i].eventId == id
  }

  /** How a stored row stands to the fold, at a time when every event is past. */
  ghost predicate RowMatches(t: Tables, user: UserId, expiry: Option<Instant>, clock: Instant) {
    if user !in t.entitlements then expiry.None?
    else if t.entitlements[user].plan == Pro then expiry.Some? && t.entitlements[user].activeUntil == expiry
    else expiry.Some? && expiry.value <= clock
  }

  lemma {:induction false} RunRecords(users: set<UserId>, events: seq<Event>)
    ensures RecordsExactly(users, events, Run(users, events))
  {
    if events != [] {
      var before, e := events[..|events| - 1], events[|events| - 1];
      var t, t' := Run(users, before), Run(users, events);
      RunRecords(users, before);
      assert events == before + [e];
      forall id ensures id in t'.payments <==>
        exists i :: 0 <= i < |events| && ValidDelivery(users, events[i]) && events[i].eventId == id
      {
        if ValidDelivery(users, e) && e.eventId == id {
          assert events[|before|] == e;
        } else if id in t.payments {
          var i :| 0 <= i < |before| && ValidDelivery(users, before[i]) && before[i].eventId == id;
          assert events[i] == before[i];
        }
      }
    }
  }

  lemma CreatedIsFirst(users: set<UserId>, before: seq<Event>, e: Event)
    ensures FirstDelivery(users, before, e)
       <==> e.Deliver? && PaymentOutcome(Run(users, before), e.eventId, e.user, e.planCode).Created?
  {
    RunRecords(users, before);
  }

  function RecordOf(e: Event): Payment
    requires e.Deliver? && KnownPlan(e.planCode)
  {
    Payment(e.user, e.planCode, Price(e.planCode), e.eventId)
  }

  /** The stored row of an event is its first valid delivery's, whatever later deliveries of it say. */
  lemma {:induction false} FirstDeliveryIsStored(users: set<UserId>, events: seq<Event>, i: nat)
    requires i < |events| && FirstDelivery(users, events[..i], events[i])
    ensures events[i].eventId in Run(users, events).payments
    ensures Run(users, events).payments[events[i].eventId] == RecordOf(events[i])
  {
    var before := events[..|events| - 1];
    if i < |before| {
      assert before[..i] == events[..i] && before[i] == events[i];
      FirstDeliveryIsStored(users, before, i);
    } else {
      CreatedIsFirst(users, before, events[i]);
    }
  }

  /** Each stored row is that of some first valid delivery. */
  lemma {:induction false} StoredIsFirstDelivery(users: set<UserId>, events: seq<Event>, id: string)
    requires id in Run(users, events).payments
    ensures exists i :: 0 <= i < |events| && FirstDelivery(users, events[..i], events[i])
              && events[i].eventId == id && Run(users, events).payments[id] == RecordOf(events[i])
  {
    var n := |events| - 1;
    CreatedIsFirst(users, events[..n], events[n]);
    if FirstDelivery(users, events[..n], events[n]) && events[n].eventId == id {
      FirstDeliveryIsStored(users, events, n);
    } else {
      StoredIsFirstDelivery(users, events[..n], id);
      var i :| 0 <= i < n && FirstDelivery(users, events[..n][..i], events[..n][i])
               && events[..n][i].eventId == id && Run(users, events[..n]).payments[id] == RecordOf(events[..n][i]);
      assert events[..n][..i] == events[..i] && events[..n][i] == events[i];
      FirstDeliveryIsStored(users, events, i);
    }
  }

  lemma {:induction false} RunRows(users: set<UserId>, events: seq<Event>, user: UserId, clock: Instant)
    requires Chronological(events) && DoneBy(events, clock)
    ensures RowMatches(Run(users, events), user, Expiry(users, events, user), clock)
  {
    if events != [] {
      var before, e := events[..|events| - 1], events[|events| - 1];
      RunRows(users, before, user, e.now);
      CreatedIsFirst(users, before, e);
    }
  }

  /** The stateful code and the fold agree on every later status. */
  lemma LazyFormIsTheFold(users: set<UserId>, events: seq<Event>, user: UserId, now: Instant)
    requires Chronological(events) && DoneBy(events, now)
    ensures StatusAt(Run(users, events), user, now) == FoldStatus(Expiry(users, events, user), now)
  {
    RunRows(users, events, user, now);
  }

  /* ---- erasing reads and replays ---- */

  /** The run without its status reads, replays and rejected deliveries. */
  function Essential(users: set<UserId>, events: seq<Event>): seq<Event> {
    if events == [] then []
    else
      var before, e := events[..|events| - 1], events[|events| - 1];
      if FirstDelivery(users, before, e) then Essential(users, before) + [e] else Essential(users, before)
  }

  lemma {:induction false} EssentialInside(users: set<UserId>, events: seq<Event>)
    ensures forall x :: x in Essential(users, events) ==> x in events
  {
    if events != [] {
      EssentialInside(users, events[..|events| - 1]);
      assert events == events[..|events| - 1] + [events[|events| - 1]];
    }
  }

  lemma {:induction false} EssentialRecords(users: set<UserId>, events: seq<Event>)
    ensures Run(users, Essential(users, events)).payments == Run(users, events).payments
  {
    if events != [] {
      var before, e := events[..|events| - 1], events[|events| - 1];
      var kept := Essential(users, before);
      EssentialRecords(users, before);
      CreatedIsFirst(users, before, e);
      RunUsers(users, before);
      RunUsers(users, kept);
      if FirstDelivery(users, before, e) {
        assert (kept + [e])[..|kept|] == kept;
      }
    }
  }

  lemma {:induction false} RunUsers(users: set<UserId>, events: seq<Event>)
    ensures Run(users, events).users == users
  {
    if events != [] {
      RunUsers(users, events[..|events| - 1]);
    }
  }

  lemma SameFirst(users: set<UserId>, before: seq<Event>, e: Event)
    ensures FirstDelivery(users, Essential(users, before), e) == FirstDelivery(users, before, e)
  {
    CreatedIsFirst(users, before, e);
    CreatedIsFirst(users, Essential(users, before), e);
    EssentialRecords(users, before);
    RunUsers(users, before);
    RunUsers(users, Essential(users, before));
  }

  lemma EssentialOne(users: set<UserId>, before: seq<Event>, e: Event)
    ensures Essential(users, before + [e])
         == if FirstDelivery(users, before, e) then Essential(users, before) + [e] else Essential(users, before)
  {
    assert (before + [e])[..|before|] == before;
  }

  lemma EssentialStep(users: set<UserId>, before: seq<Event>, e: Event, user: UserId)
    requires Expiry(users, Essential(users, before), user) == Expiry(users, before, user)
    ensures Expiry(users, Essential(users, before + [e]), user) == Expiry(users, before + [e], user)
  {
    EssentialOne(users, before, e);
    ExpiryOne(users, before, e, user);
    if FirstDelivery(users, before, e) {
      SameFirst(users, before, e);
      ExpiryOne(users, Essential(users, before), e, user);
    }
  }

  lemma {:induction false} EssentialExpiry(users: set<UserId>, events: seq<Event>, user: UserId)
    ensures Expiry(users, Essential(users, events), user) == Expiry(users, events, user)
  {
    if events != [] {
      var before, e := events[..|events| - 1], events[|events| - 1];
      EssentialExpiry(users, before, user);
      assert events == before + [e];
      EssentialStep(users, before, e, user);
    }
  }

  /** The expiry after one more event. */
  lemma ExpiryOne(users: set<UserId>, before: seq<Event>, e: Event, user: UserId)
    ensures Expiry(users, before + [e], user)
         == Extended(Expiry(users, before, user), e, FirstDelivery(users, before, e), user)
  {
    assert (before + [e])[..|before|] == before;
  }

  lemma {:induction false} EssentialOrder(users: set<UserId>, events: seq<Event>)
    requires Chronological(events)
    ensures Chronological(Essential(users, events))
  {
    if events != [] {
      var before, e := events[..|events| - 1], events[|events| - 1];
      var kept := Essential(users, before);
      EssentialOrder(users, before);
      EssentialInside(users, before);
      forall i | 0 <= i < |kept| ensures kept[i].now <= e.now {
        assert kept[i] in before;
      }
    }
  }

  /** Dropping every read, replay and rejected delivery leaves every later status as it was. */
  lemma ReadsAndReplaysAreInvisible(users: set<UserId>, events: seq<Event>, user: UserId, now: Instant)
    requires Chronological(events) && DoneBy(events, now)
    ensures StatusAt(Run(users, Essential(users, events)), user, now) == StatusAt(Run(users, events), user, now)
    ensures Run(users, Essential(users, events)).payments == Run(users, events).payments
  {
    EssentialOrder(users, events);
    EssentialInside(users, events);
    forall i | 0 <= i < |Essential(users, events)| ensures Essential(users, events)[i].now <= now {
      assert Essential(users, events)[i] in events;
    }
    EssentialExpiry(users, events, user);
    EssentialRecords(users, events);
    LazyFormIsTheFold(users, events, user, now);
    LazyFormIsTheFold(users, Essential(users, events), user, now);
  }

  /* ---- conservation of paid time ---- */

  /** The part of a run that has happened by `t`. */
  function Upto(events: seq<Event>, t: Instant): seq<Event> {
    if events == [] || events[|events| - 1].now <= t then events else Upto(events[..|events| - 1], t)
  }

  /** Whether a status read at `t` would say PRO. */
  predicate ProAt(users: set<UserId>, events: seq<Event>, user: UserId, t: Instant) {
    StatusAt(Run(users, Upto(events, t)), user, t).plan == Pro
  }

  /** How many instants from `start` up to `now` the user was PRO. */
  function UsedTime(users: set<UserId>, events: seq<Event>, user: UserId, start: Instant, now: Instant): nat
    decreases now - start
  {
    if now <= start then 0
    else UsedTime(users, events, user, start, now - 1) + if ProAt(users, events, user, now - 1) then 1 else 0
  }

  /** What a status still promises from `now` on. */
  function LeftTime(status: Status, now: Instant): int {
    if status.activeUntil.Some? then status.activeUntil.value - now else 0
  }

  /** The time a recorded payment pays its user for. */
  function RowTime(row: Payment, user: UserId): nat {
    if row.userId == user && KnownPlan(row.planCode) then Duration(row.planCode) else 0
  }

  /** The time the recorded payments of `ids` pay a user for. */
  ghost function TimeOf(payments: map<string, Payment>, ids: set<string>, user: UserId): nat
    requires ids <= payments.Keys
  {
    if ids == {} then 0
    else
      var id :| id in ids;
      TimeOf(payments, ids - {id}, user) + RowTime(payments[id], user)
  }

  /** The time the payments table says the user paid for. */
  ghost function PaidTime(payments: map<string, Payment>, user: UserId): nat {
    TimeOf(payments, payments.Keys, user)
  }

  lemma {:induction false} TimeOfRemove(payments: map<string, Payment>, ids: set<string>, user: UserId, id: string)
    requires ids <= payments.Keys && id in ids
    ensures TimeOf(payments, ids, user) == TimeOf(payments, ids - {id}, user) + RowTime(payments[id], user)
    decreases ids
  {
    var other :| other in ids && TimeOf(payments, ids, user)
                                 == TimeOf(payments, ids - {other}, user) + RowTime(payments[other], user);
    if other != id {
      TimeOfRemove(payments, ids - {other}, user, id);
      TimeOfRemove(payments, ids - {id}, user, other);
      assert ids - {other} - {id} == ids - {id} - {other};
    }
  }

  lemma {:induction false} TimeOfSame(
    payments: map<string, Payment>, more: map<string, Payment>, ids: set<string>, user: UserId)
    requires ids <= payments.Keys && ids <= more.Keys && forall id :: id in ids ==> payments[id] == more[id]
    ensures TimeOf(payments, ids, user) == TimeOf(more, ids, user)
    decreases ids
  {
    if ids != {} {
      var id :| id in ids;
      TimeOfRemove(payments, ids, user, id);
      TimeOfRemove(more, ids, user, id);
      TimeOfSame(payments, more, ids - {id}, user);
    }
  }

  /** Recording a new payment adds its time. */
  lemma RecordingAdds(payments: map<string, Payment>, id: string, row: Payment, user: UserId)
    requires id !in payments
    ensures PaidTime(payments[id := row], user) == PaidTime(payments, user) + RowTime(row, user)
  {
    var more := payments[id := row];
    TimeOfRemove(more, more.Keys, user, id);
    assert more.Keys - {id} == payments.Keys;
    TimeOfSame(payments, more, payments.Keys, user);
  }

  /** The table gains a first delivery's duration, and nothing from any other event. */
  lemma EventPays(users: set<UserId>, before: seq<Event>, e: Event, user: UserId)
    ensures PaidTime(Run(users, before + [e]).payments, user)
         == PaidTime(Run(users, before).payments, user)
            + if FirstDelivery(users, before, e) && e.user == user then Duration(e.planCode) else 0
  {
    var t := Run(users, before);
    assert (before + [e])[..|before|] == before;
    CreatedIsFirst(users, before, e);
    if FirstDelivery(users, before, e) {
      RecordingAdds(t.payments, e.eventId, RecordOf(e), user);
    }
  }

  lemma {:induction false} UptoExtends(events: seq<Event>, e: Event, t: Instant)
    requires t < e.now
    ensures Upto(events + [e], t) == Upto(events, t)
  {
  }

  lemma {:induction false} UsedTimeExtends(
    users: set<UserId>, events: seq<Event>, e: Event, user: UserId, start: Instant, now: Instant)
    requires now <= e.now
    ensures UsedTime(users, events + [e], user, start, now) == UsedTime(users, events, user, start, now)
    decreases now - start
  {
    if now > start {
      UsedTimeExtends(users, events, e, user, start, now - 1);
      UptoExtends(events, e, now - 1);
    }
  }

  /** Time passing turns promised time into used time, one instant for one. */
  lemma {:induction false} TimePasses(
    users: set<UserId>, events: seq<Event>, user: UserId, start: Instant, mid: Instant, now: Instant)
    requires Chronological(events) && DoneBy(events, mid) && start <= mid <= now
    ensures UsedTime(users, events, user, start, now) + LeftTime(StatusAt(Run(users, events), user, now), now)
         == UsedTime(users, events, user, start, mid) + LeftTime(StatusAt(Run(users, events), user, mid), mid)
    decreases now - mid
  {
    if mid < now {
      TimePasses(users, events, user, start, mid, now - 1);
      LazyFormIsTheFold(users, events, user, now - 1);
      LazyFormIsTheFold(users, events, user, now);
      assert Upto(events, now - 1) == events;
    }
  }

  /** A payment adds exactly its duration to what is left; nothing else adds anything. */
  lemma EventAdds(users: set<UserId>, before: seq<Event>, e: Event, user: UserId)
    requires Chronological(before + [e])
    ensures LeftTime(StatusAt(Run(users, before + [e]), user, e.now), e.now)
         == LeftTime(StatusAt(Run(users, before), user, e.now), e.now)
            + if FirstDelivery(users, before, e) && e.user == user then Duration(e.planCode) else 0
  {
    var events := before + [e];
    assert events[..|events| - 1] == before && events[|events| - 1] == e;
    forall i | 0 <= i < |before| ensures before[i].now <= e.now {
      assert events[i] == before[i] && events[|before|] == e;
    }
    assert Chronological(before) by {
      forall i, j | 0 <= i < j < |before| ensures before[i].now <= before[j].now {
        assert events[i] == before[i] && events[j] == before[j];
      }
    }
    LazyFormIsTheFold(users, before, user, e.now);
    LazyFormIsTheFold(users, events, user, e.now);
  }

  lemma LeftIsNatural(users: set<UserId>, events: seq<Event>, user: UserId, now: Instant)
    requires Chronological(events) && DoneBy(events, now)
    ensures LeftTime(StatusAt(Run(users, events), user, now), now) >= 0
  {
    LazyFormIsTheFold(users, events, user, now);
  }

  lemma NothingPaidYet(users: set<UserId>, user: UserId, start: Instant, now: Instant)
    requires start <= now
    ensures UsedTime(users, [], user, start, now) + LeftTime(StatusAt(Run(users, []), user, now), now)
         == 0 == PaidTime(Run(users, []).payments, user)
  {
    TimePasses(users, [], user, start, start, now);
  }

  lemma PrefixInOrder(before: seq<Event>, e: Event)
    requires Chronological(before + [e])
    ensures Chronological(before) && DoneBy(before, e.now) && DoneBy(before + [e], e.now)
  {
    var events := before + [e];
    assert events[|before|] == e && forall i :: 0 <= i < |before| ==> events[i] == before[i];
  }

  /** PRO time used plus PRO time left is always the time the recorded payments paid for. */
  lemma {:induction false} PaidTimeIsConserved(
    users: set<UserId>, events: seq<Event>, user: UserId, start: Instant, now: Instant)
    requires Chronological(events) && DoneBy(events, now) && start <= now
    requires forall i :: 0 <= i < |events| ==> start <= events[i].now
    ensures UsedTime(users, events, user, start, now) + LeftTime(StatusAt(Run(users, events), user, now), now)
         == PaidTime(Run(users, events).payments, user)
    ensures LeftTime(StatusAt(Run(users, events), user, now), now) >= 0
  {
    LeftIsNatural(users, events, user, now);
    if events == [] {
      NothingPaidYet(users, user, start, now);
    } else {
      var before, e := events[..|events| - 1], events[|events| - 1];
      assert events == before + [e];
      PrefixInOrder(before, e);
      PaidTimeIsConserved(users, before, user, start, e.now);
      EventPays(users, before, e, user);
      BalanceGrows(users, before, e, user, start, now);
    }
  }

  /** One more event adds its paid time, if any, to the balance of used and left time. */
  lemma BalanceGrows(users: set<UserId>, before: seq<Event>, e: Event, user: UserId, start: Instant, now: Instant)
    requires Chronological(before + [e]) && DoneBy(before + [e], e.now) && start <= e.now <= now
    ensures UsedTime(users, before + [e], user, start, now)
              + LeftTime(StatusAt(Run(users, before + [e]), user, now), now)
         == UsedTime(users, before, user, start, e.now) + LeftTime(StatusAt(Run(users, before), user, e.now), e.now)
              + if FirstDelivery(users, before, e) && e.user == user then Duration(e.planCode) else 0
  {
    EventAdds(users, before, e, user);
    UsedTimeExtends(users, before, e, user, start, e.now);
    TimePasses(users, before + [e], user, start, e.now, now);
  }
}
