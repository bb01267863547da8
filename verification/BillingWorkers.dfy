/**
 * Deliveries handled by concurrent workers. Each worker looks the event up, inserts the
 * payment under the unique index, reads the entitlement to extend it, and commits both
 * rows; a second insert of the same identifier waits for the first transaction to end.
 * A worker that found no entitlement inserts one, and is rolled back if another worker's
 * got there first; one that found an active plan sends the new expiry alone. A status read
 * that finds a window expired writes the downgrade back in a step of its own.
 */
module BillingWorkers {
  import opened Options
  import opened BillingModel

  type WorkerId = nat

  datatype Request = Request(eventId: string, user: UserId, planCode: string)

  datatype Phase =
    | Ready
    | Inserting
    | Extending(payment: Payment)
    /** The uncommitted rows: the payment, and the expiry worked out from what was read at `at`. */
    | Committing(payment: Payment, at: Instant, until: Instant, write: Write)
    | Returned(row: Payment, created: bool)
    | Failed

  /** Which columns of the entitlement a worker sends: the changed ones, or a new row. */
  datatype Write = InsertRow | SetBoth | SetExpiry

  datatype Worker = Worker(request: Request, phase: Phase)

  /** A status read that has seen an expired window and has yet to write it back as FREE. */
  datatype Reading = Reading(user: UserId, looked: Instant)

  /**
   * The committed tables, the worker whose uncommitted row holds an identifier, and the
   * activations so far, in the order they were committed.
   */
  datatype System = System(
    tables: Tables, held: map<string, WorkerId>, history: seq<Event>, workers: map<WorkerId, Worker>,
    readers: map<WorkerId, Reading>)

  datatype Step =
    | Lookup(w: WorkerId) | Insert(w: WorkerId) | Extend(w: WorkerId, now: Instant) | Commit(w: WorkerId)
    | Abort(w: WorkerId) | Look(w: WorkerId, user: UserId, now: Instant) | WriteBack(w: WorkerId)

  function To(s: System, w: WorkerId, phase: Phase): System
    requires w in s.workers
  {
    s.(workers := s.workers[w := s.workers[w].(phase := phase)])
  }

  function Release(s: System, id: string): System {
    s.(held := s.held - {id})
  }

  /** The expiry a payment asks for, given the entitlement as read. */
  function Extension(t: Tables, user: UserId, planCode: string, now: Instant): Instant
    requires KnownPlan(planCode)
  {
    Base(StatusAt(t, user, now), now) + Duration(planCode)
  }

  function WriteFor(t: Tables, user: UserId, now: Instant): Write {
    if user !in t.entitlements then InsertRow
    else if StatusAt(t, user, now).plan == Pro then SetExpiry
    else SetBoth
  }

  /** The entitlement row once the columns sent have reached it. */
  function Activated(t: Tables, user: UserId, until: Instant, write: Write): Entitlement {
    if write.SetExpiry? && user in t.entitlements then Entitlement(t.entitlements[user].plan, Some(until))
    else Entitlement(Pro, Some(until))
  }

  function Published(t: Tables, payment: Payment, until: Instant, write: Write): Tables {
    t.(payments := t.payments[payment.externalEventId := payment],
       entitlements := t.entitlements[payment.userId := Activated(t, payment.userId, until, write)])
  }

  function Downgraded(t: Tables, user: UserId): Tables {
    if user in t.entitlements then t.(entitlements := t.entitlements[user := Entitlement(Free, None)]) else t
  }

  /** A status read: it looks, and when the window has run out it comes back to write. */
  function ReaderNext(s: System, step: Step): System {
    match step
    case Look(r, user, now) =>
      if r !in s.readers && user in s.tables.entitlements && Expired(s.tables.entitlements[user], now)
      then s.(readers := s.readers[r := Reading(user, now)])
      else s
    case WriteBack(r) =>
      if r in s.readers
      then s.(readers := s.readers - {r}, tables := Downgraded(s.tables, s.readers[r].user))
      else s
    case _ => s
  }

  /** One atomic step; a step whose worker is not at that point, or must wait, changes nothing. */
  function Next(s: System, step: Step): System {
    if step.Look? || step.WriteBack? then ReaderNext(s, step)
    else if step.w in s.workers then WorkerNext(s, step)
    else s
  }

  function WorkerNext(s: System, step: Step): System
    requires step.w in s.workers
  {
    var w := step.w;
    var request, phase := s.workers[w].request, s.workers[w].phase;
    var id := request.eventId;
    match step
    case Lookup(_) =>
      if !phase.Ready? then s
      else if id in s.tables.payments then To(s, w, Returned(s.tables.payments[id], false))
      else if !KnownPlan(request.planCode) then To(s, w, Failed)
      else To(s, w, Inserting)
    case Insert(_) =>
      if !phase.Inserting? || !KnownPlan(request.planCode) then s
      else if id in s.tables.payments then To(s, w, Returned(s.tables.payments[id], false))
      else if id in s.held then s
      else if request.user !in s.tables.users then To(s, w, Failed)
      else
        To(s.(held := s.held[id := w]), w,
           Extending(Payment(request.user, request.planCode, Price(request.planCode), id)))
    case Extend(_, now) =>
      if phase.Extending? && KnownPlan(request.planCode)
      then
        To(s, w, Committing(
             phase.payment, now, Extension(s.tables, request.user, request.planCode, now),
             WriteFor(s.tables, request.user, now)))
      else s
    case Commit(_) =>
      if !phase.Committing? then s
      else if phase.write.InsertRow? && request.user in s.tables.entitlements then To(Release(s, id), w, Failed)
      else
        var published := Release(s, id).(
          tables := Published(s.tables, phase.payment, phase.until, phase.write),
          history := s.history + [Deliver(id, request.user, request.planCode, phase.at)]);
        To(published, w, Returned(phase.payment, true))
    case Abort(_) =>
      if phase.Extending? || phase.Committing? then To(Release(s, id), w, Failed)
      else if phase.Ready? || phase.Inserting? then To(s, w, Failed)
      else s
    case _ => s
  }

  /** Any tables, and workers that have yet to begin. */
  predicate Start(s: System) {
    && s.held == map[] && s.history == [] && s.readers == map[]
    && forall w :: w in s.workers ==> s.workers[w].phase == Ready
  }

  function RunSteps(s: System, schedule: seq<Step>): System {
    if schedule == [] then s else Next(RunSteps(s, schedule[..|schedule| - 1]), schedule[|schedule| - 1])
  }

  /** How often an event was activated. */
  function Activations(history: seq<Event>, id: string): nat {
    if history == [] then 0
    else
      var e := history[|history| - 1];
      Activations(history[..|history| - 1], id) + if e.Deliver? && e.eventId == id then 1 else 0
  }

  /* ---- what every step keeps ---- */

  predicate Holding(phase: Phase) {
    phase.Extending? || phase.Committing?
  }

  /** The row a request asks to record. */
  function RowOf(request: Request): Payment
    requires KnownPlan(request.planCode)
  {
    Payment(request.user, request.planCode, Price(request.planCode), request.eventId)
  }

  /** A worker past the insert holds its identifier and a good request; a finished one points at the committed row. */
  ghost predicate WorkerOk(s: System, w: WorkerId)
    requires w in s.workers
  {
    var request, phase := s.workers[w].request, s.workers[w].phase;
    && (Holding(phase) ==>
         && request.eventId in s.held && s.held[request.eventId] == w
         && Acceptable(s, request) && phase.payment == RowOf(request))
    && (phase.Returned? ==> request.eventId in s.tables.payments && s.tables.payments[request.eventId] == phase.row)
  }

  predicate Acceptable(s: System, request: Request) {
    KnownPlan(request.planCode) && request.user in s.tables.users
  }

  /** A held identifier has no committed row, and its holder is past the insert. */
  ghost predicate HoldOk(s: System, id: string)
    requires id in s.held
  {
    var w := s.held[id];
    && id !in s.tables.payments
    && w in s.workers && Holding(s.workers[w].phase) && s.workers[w].request.eventId == id
  }

  predicate Created(worker: Worker, id: string) {
    worker.request.eventId == id && worker.phase.Returned? && worker.phase.created
  }

  /** The committed row of an identifier comes from one worker's request. */
  ghost predicate RowOk(s: System, id: string, winner: WorkerId) {
    && winner in s.workers && Created(s.workers[winner], id)
    && KnownPlan(s.workers[winner].request.planCode)
    && id in s.tables.payments && s.tables.payments[id] == RowOf(s.workers[winner].request)
    && forall w :: w in s.workers && Created(s.workers[w], id) ==> w == winner
  }

  ghost predicate WorkersOk(s: System) {
    forall w :: w in s.workers ==> WorkerOk(s, w)
  }

  ghost predicate HoldsOk(s: System) {
    forall id :: id in s.held ==> HoldOk(s, id)
  }

  /** Rows that were there at the start stay; each later one has its winner. */
  ghost predicate RowsOk(s: System, start: Tables) {
    && (forall id :: id in start.payments ==>
         id in s.tables.payments && s.tables.payments[id] == start.payments[id] && NoWinner(s, id))
    && (forall id :: id in s.tables.payments && id !in start.payments ==> exists winner :: RowOk(s, id, winner))
  }

  ghost predicate NoWinner(s: System, id: string) {
    forall w :: w in s.workers ==> !Created(s.workers[w], id)
  }

  predicate New(s: System, start: Tables, id: string) {
    id in s.tables.payments && id !in start.payments
  }

  ghost predicate ActivationsOk(s: System, start: Tables) {
    forall id :: Activations(s.history, id) == if New(s, start, id) then 1 else 0
  }

  ghost predicate Consistent(s: System, start: Tables) {
    WorkersOk(s) && HoldsOk(s) && RowsOk(s, start) && ActivationsOk(s, start) && s.tables.users == start.users
  }

  /** What the worker that moves knows of the state it moves from. */
  ghost predicate Knows(s: System, w: WorkerId) {
    w in s.workers ==>
      && WorkerOk(s, w)
      && (s.workers[w].request.eventId in s.held ==> HoldOk(s, s.workers[w].request.eventId))
  }

  lemma MoverKnows(s: System, w: WorkerId)
    requires WorkersOk(s) && HoldsOk(s)
    ensures Knows(s, w)
  {
  }

  lemma MoverStaysOk(s: System, step: Step)
    requires step.w in s.workers && Knows(s, step.w)
    ensures step.w in Next(s, step).workers && WorkerOk(Next(s, step), step.w)
  {
  }

  lemma BystanderStaysOk(s: System, step: Step, w: WorkerId)
    requires w in s.workers && w != step.w && Knows(s, w) && Knows(s, step.w)
    ensures w in Next(s, step).workers && WorkerOk(Next(s, step), w)
  {
    if step.w in s.workers {
      var t, id := Next(s, step), s.workers[step.w].request.eventId;
      assert t.workers[w] == s.workers[w];
      if s.workers[w].request.eventId != id {
        assert s.workers[w].request.eventId in s.held ==> s.workers[w].request.eventId in t.held;
      }
    }
  }

  lemma StepKeepsWorkers(s: System, step: Step)
    requires WorkersOk(s) && HoldsOk(s)
    ensures WorkersOk(Next(s, step))
  {
    forall w | w in Next(s, step).workers ensures WorkerOk(Next(s, step), w) {
      MoverKnows(s, w);
      MoverKnows(s, step.w);
      if w == step.w {
        MoverStaysOk(s, step);
      } else {
        BystanderStaysOk(s, step, w);
      }
    }
  }

  lemma StepKeepsHold(s: System, step: Step, id: string)
    requires id in Next(s, step).held && Knows(s, step.w)
    requires id in s.held ==> HoldOk(s, id)
    ensures HoldOk(Next(s, step), id)
  {
  }

  lemma StepKeepsHolds(s: System, step: Step)
    requires WorkersOk(s) && HoldsOk(s)
    ensures HoldsOk(Next(s, step))
  {
    forall id | id in Next(s, step).held ensures HoldOk(Next(s, step), id) {
      MoverKnows(s, step.w);
      StepKeepsHold(s, step, id);
    }
  }

  lemma StepKeepsRow(s: System, step: Step, id: string)
    requires Knows(s, step.w) && id in s.tables.payments
    ensures id in Next(s, step).tables.payments && Next(s, step).tables.payments[id] == s.tables.payments[id]
  {
  }

  lemma StepCreatesNoMore(s: System, step: Step, id: string, w: WorkerId)
    requires Knows(s, step.w) && id in s.tables.payments
    requires w in Next(s, step).workers && Created(Next(s, step).workers[w], id)
    ensures w in s.workers && Created(s.workers[w], id)
  {
  }

  lemma StepKeepsNoWinner(s: System, step: Step, id: string)
    requires Knows(s, step.w) && id in s.tables.payments && NoWinner(s, id)
    ensures NoWinner(Next(s, step), id)
  {
    forall w | w in Next(s, step).workers ensures !Created(Next(s, step).workers[w], id) {
      if Created(Next(s, step).workers[w], id) {
        StepCreatesNoMore(s, step, id, w);
      }
    }
  }

  lemma StepKeepsWinner(s: System, step: Step, id: string, winner: WorkerId)
    requires Knows(s, step.w) && RowOk(s, id, winner)
    ensures RowOk(Next(s, step), id, winner)
  {
    var t := Next(s, step);
    StepKeepsRow(s, step, id);
    forall w | w in t.workers && Created(t.workers[w], id) ensures w == winner {
      StepCreatesNoMore(s, step, id, w);
    }
  }

  lemma StepMakesWinner(s: System, step: Step, id: string)
    requires Knows(s, step.w) && id !in s.tables.payments && id in Next(s, step).tables.payments
    requires NoWinner(s, id)
    ensures RowOk(Next(s, step), id, step.w)
  {
  }

  lemma UnrecordedHasNoWinner(s: System, id: string)
    requires WorkersOk(s) && id !in s.tables.payments
    ensures NoWinner(s, id)
  {
    forall w | w in s.workers ensures !Created(s.workers[w], id) {
      assert WorkerOk(s, w);
    }
  }

  lemma StepKeepsRows(s: System, start: Tables, step: Step)
    requires WorkersOk(s) && HoldsOk(s) && RowsOk(s, start)
    ensures RowsOk(Next(s, step), start)
  {
    var t := Next(s, step);
    MoverKnows(s, step.w);
    forall id | id in start.payments
      ensures id in t.tables.payments && t.tables.payments[id] == start.payments[id] && NoWinner(t, id)
    {
      StepKeepsRow(s, step, id);
      StepKeepsNoWinner(s, step, id);
    }
    forall id | id in t.tables.payments && id !in start.payments ensures exists winner :: RowOk(t, id, winner) {
      if id in s.tables.payments {
        var winner :| RowOk(s, id, winner);
        StepKeepsWinner(s, step, id, winner);
      } else {
        UnrecordedHasNoWinner(s, id);
        StepMakesWinner(s, step, id);
      }
    }
  }

  lemma OneMoreActivation(history: seq<Event>, e: Event, id: string)
    ensures Activations(history + [e], id) == Activations(history, id) + if e.Deliver? && e.eventId == id then 1 else 0
  {
    assert (history + [e])[..|history|] == history;
  }

  /** A step activates nothing and records nothing, or activates the one event it records. */
  predicate ActivatesOne(s: System, t: System) {
    && |t.history| == |s.history| + 1 && t.history[..|s.history|] == s.history
    && t.history[|s.history|].Deliver?
    && var id := t.history[|s.history|].eventId;
       id !in s.tables.payments && t.tables.payments.Keys == s.tables.payments.Keys + {id}
  }

  lemma StepActivates(s: System, step: Step)
    requires Knows(s, step.w)
    ensures var t := Next(s, step);
      (t.history == s.history && t.tables.payments == s.tables.payments) || ActivatesOne(s, t)
  {
  }

  lemma StepKeepsActivation(s: System, start: Tables, step: Step, id: string)
    requires Knows(s, step.w) && (id in start.payments ==> id in s.tables.payments)
    requires Activations(s.history, id) == if New(s, start, id) then 1 else 0
    ensures Activations(Next(s, step).history, id) == if New(Next(s, step), start, id) then 1 else 0
  {
    StepActivates(s, step);
    CountsOne(s, Next(s, step), start, id);
  }

  lemma CountsOne(s: System, t: System, start: Tables, id: string)
    requires (t.history == s.history && t.tables.payments == s.tables.payments) || ActivatesOne(s, t)
    requires id in start.payments ==> id in s.tables.payments
    requires Activations(s.history, id) == if New(s, start, id) then 1 else 0
    ensures Activations(t.history, id) == if New(t, start, id) then 1 else 0
  {
    if ActivatesOne(s, t) {
      assert t.history == s.history + [t.history[|s.history|]];
      OneMoreActivation(s.history, t.history[|s.history|], id);
      assert id in t.tables.payments <==> id in s.tables.payments.Keys || id == t.history[|s.history|].eventId;
    }
  }

  lemma StepKeepsActivations(s: System, start: Tables, step: Step)
    requires WorkersOk(s) && HoldsOk(s) && RowsOk(s, start) && ActivationsOk(s, start)
    ensures ActivationsOk(Next(s, step), start)
  {
    forall id ensures Activations(Next(s, step).history, id) == if New(Next(s, step), start, id) then 1 else 0 {
      MoverKnows(s, step.w);
      StepKeepsActivation(s, start, step, id);
    }
  }

  lemma StepKeepsConsistency(s: System, start: Tables, step: Step)
    requires Consistent(s, start)
    ensures Consistent(Next(s, step), start)
  {
    StepKeepsWorkers(s, step);
    StepKeepsHolds(s, step);
    StepKeepsRows(s, start, step);
    StepKeepsActivations(s, start, step);
  }

  lemma {:induction false} EveryRunConsistent(s: System, schedule: seq<Step>)
    requires Start(s)
    ensures Consistent(RunSteps(s, schedule), s.tables)
  {
    if schedule != [] {
      EveryRunConsistent(s, schedule[..|schedule| - 1]);
      StepKeepsConsistency(RunSteps(s, schedule[..|schedule| - 1]), s.tables, schedule[|schedule| - 1]);
    }
  }

  /**
   * Under every interleaving: an event recorded since the start is activated once and its row is
   * one worker's, any other event is not activated, and every worker that answers has the recorded row.
   */
  lemma ExactlyOnce(s: System, schedule: seq<Step>, id: string)
    requires Start(s)
    ensures var t := RunSteps(s, schedule);
      && Activations(t.history, id) == (if New(t, s.tables, id) then 1 else 0)
      && (New(t, s.tables, id) ==> exists winner :: RowOk(t, id, winner))
      && forall w :: w in t.workers && t.workers[w].request.eventId == id && t.workers[w].phase.Returned? ==>
           id in t.tables.payments && t.workers[w].phase.row == t.tables.payments[id]
  {
    EveryRunConsistent(s, schedule);
    forall w | w in RunSteps(s, schedule).workers ensures WorkerOk(RunSteps(s, schedule), w) {
    }
  }

  /** Once recorded, a row is never replaced. */
  lemma {:induction false} RowsAreForever(s: System, schedule: seq<Step>, n: nat, id: string)
    requires Start(s) && n <= |schedule| && id in RunSteps(s, schedule[..n]).tables.payments
    ensures id in RunSteps(s, schedule).tables.payments
    ensures RunSteps(s, schedule).tables.payments[id] == RunSteps(s, schedule[..n]).tables.payments[id]
  {
    if n == |schedule| {
      assert schedule[..n] == schedule;
    } else {
      var before := schedule[..|schedule| - 1];
      assert before[..n] == schedule[..n];
      RowsAreForever(s, before, n, id);
      EveryRunConsistent(s, before);
      MoverKnows(RunSteps(s, before), schedule[|schedule| - 1].w);
      StepKeepsRow(RunSteps(s, before), schedule[|schedule| - 1], id);
    }
  }

  /* ---- what can fail ---- */

  ghost predicate AllDone(s: System) {
    forall w :: w in s.workers ==> s.workers[w].phase.Returned? || s.workers[w].phase.Failed?
  }

  /** Another event of the same user has been activated. */
  ghost predicate Rival(history: seq<Event>, request: Request) {
    exists i :: 0 <= i < |history| && history[i].Deliver? && history[i].user == request.user
      && history[i].eventId != request.eventId
  }

  ghost predicate PaidIn(history: seq<Event>, user: UserId) {
    exists i :: 0 <= i < |history| && history[i].Deliver? && history[i].user == user
  }

  /** Entitlement rows were there at the start or come from an activation; who found none does so rightly. */
  ghost predicate Traced(s: System, start: Tables) {
    && (forall user :: user in start.entitlements ==> user in s.tables.entitlements)
    && (forall user :: user in s.tables.entitlements ==> user in start.entitlements || PaidIn(s.history, user))
    && (forall w :: w in s.workers && s.workers[w].phase.Committing? && s.workers[w].phase.write.InsertRow? ==>
          s.workers[w].request.user !in start.entitlements)
  }

  lemma HistoryGrows(history: seq<Event>, e: Event)
    ensures forall user :: PaidIn(history, user) ==> PaidIn(history + [e], user)
    ensures forall request :: Rival(history, request) ==> Rival(history + [e], request)
    ensures e.Deliver? ==> PaidIn(history + [e], e.user)
  {
    var more := history + [e];
    assert more[|history|] == e;
    forall i | 0 <= i < |history| ensures more[i] == history[i] {
    }
  }

  lemma StepKeepsHistory(s: System, step: Step)
    ensures forall user :: PaidIn(s.history, user) ==> PaidIn(Next(s, step).history, user)
    ensures forall request :: Rival(s.history, request) ==> Rival(Next(s, step).history, request)
  {
    if Next(s, step).history != s.history {
      HistoryGrows(s.history, Next(s, step).history[|s.history|]);
    }
  }

  /** A step removes no entitlement row, and makes one only for the user it activates. */
  lemma StepKeepsEntitlements(s: System, step: Step, user: UserId)
    requires Knows(s, step.w)
    ensures user in s.tables.entitlements ==> user in Next(s, step).tables.entitlements
    ensures user in Next(s, step).tables.entitlements ==>
      user in s.tables.entitlements || PaidIn(Next(s, step).history, user)
  {
    if Next(s, step).history != s.history {
      HistoryGrows(s.history, Next(s, step).history[|s.history|]);
    }
  }

  lemma StepInsertsRightly(s: System, step: Step, w: WorkerId)
    requires w in Next(s, step).workers && Next(s, step).workers[w].phase.Committing?
    requires Next(s, step).workers[w].phase.write.InsertRow?
    ensures w in s.workers && s.workers[w].request == Next(s, step).workers[w].request
    ensures s.workers[w].phase == Next(s, step).workers[w].phase || s.workers[w].request.user !in s.tables.entitlements
  {
  }

  lemma StepKeepsTraced(s: System, start: Tables, step: Step)
    requires Traced(s, start) && Knows(s, step.w)
    ensures Traced(Next(s, step), start)
  {
    StepKeepsHistory(s, step);
    forall user
      ensures user in s.tables.entitlements ==> user in Next(s, step).tables.entitlements
      ensures user in Next(s, step).tables.entitlements ==>
        user in s.tables.entitlements || PaidIn(Next(s, step).history, user)
    {
      StepKeepsEntitlements(s, step, user);
    }
    var t := Next(s, step);
    forall w | w in t.workers && t.workers[w].phase.Committing? && t.workers[w].phase.write.InsertRow?
      ensures t.workers[w].request.user !in start.entitlements
    {
      StepInsertsRightly(s, step, w);
    }
  }

  lemma {:induction false} ActivationCounts(history: seq<Event>, i: nat)
    requires i < |history| && history[i].Deliver?
    ensures Activations(history, history[i].eventId) >= 1
  {
    if i < |history| - 1 {
      ActivationCounts(history[..|history| - 1], i);
    }
  }

  /** A worker whose insert finds the entitlement taken has a rival. */
  lemma TakenByRival(s: System, start: Tables, w: WorkerId)
    requires Consistent(s, start) && Traced(s, start) && w in s.workers
    requires s.workers[w].phase.Committing? && s.workers[w].phase.write.InsertRow?
    requires s.workers[w].request.user in s.tables.entitlements
    ensures Rival(s.history, s.workers[w].request)
  {
    var request := s.workers[w].request;
    assert WorkerOk(s, w) && HoldOk(s, request.eventId);
    var i :| 0 <= i < |s.history| && s.history[i].Deliver? && s.history[i].user == request.user;
    ActivationCounts(s.history, i);
    assert Activations(s.history, request.eventId) == 0;
  }

  /** A worker that has not failed, or had good reason to. */
  ghost predicate FailedFairly(s: System, w: WorkerId)
    requires w in s.workers
  {
    s.workers[w].phase.Failed? ==> !Acceptable(s, s.workers[w].request) || Rival(s.history, s.workers[w].request)
  }

  lemma StepFailsFairly(s: System, start: Tables, step: Step, w: WorkerId)
    requires Consistent(s, start) && Traced(s, start) && w in s.workers && !step.Abort? && FailedFairly(s, w)
    ensures var t := Next(s, step);
      && w in t.workers && t.workers[w].request == s.workers[w].request && t.tables.users == s.tables.users
      && FailedFairly(t, w)
  {
    StepKeepsHistory(s, step);
    if w == step.w && s.workers[w].phase.Committing? && s.workers[w].phase.write.InsertRow?
       && s.workers[w].request.user in s.tables.entitlements
    {
      TakenByRival(s, start, w);
    }
  }

  lemma {:induction false} EveryRunTraced(s: System, schedule: seq<Step>)
    requires Start(s)
    ensures Traced(RunSteps(s, schedule), s.tables)
  {
    if schedule != [] {
      var before := schedule[..|schedule| - 1];
      EveryRunTraced(s, before);
      EveryRunConsistent(s, before);
      MoverKnows(RunSteps(s, before), schedule[|schedule| - 1].w);
      StepKeepsTraced(RunSteps(s, before), s.tables, schedule[|schedule| - 1]);
    }
  }

  /** Without aborts, a worker fails only on a bad request, or when another event pays for its user meanwhile. */
  lemma {:induction false} FailuresAreEarned(s: System, schedule: seq<Step>, w: WorkerId)
    requires Start(s) && w in s.workers
    requires forall i :: 0 <= i < |schedule| ==> !schedule[i].Abort?
    ensures var t := RunSteps(s, schedule);
      && w in t.workers && t.workers[w].request == s.workers[w].request && t.tables.users == s.tables.users
      && FailedFairly(t, w)
  {
    if schedule != [] {
      var before := schedule[..|schedule| - 1];
      FailuresAreEarned(s, before, w);
      EveryRunConsistent(s, before);
      EveryRunTraced(s, before);
      StepFailsFairly(RunSteps(s, before), s.tables, schedule[|schedule| - 1], w);
    }
  }

  /** When every worker is done and none aborted, every acceptable new event is activated once or lost to a rival. */
  lemma DoneMeansActivated(s: System, schedule: seq<Step>, w: WorkerId)
    requires Start(s) && w in s.workers && Acceptable(s, s.workers[w].request)
    requires s.workers[w].request.eventId !in s.tables.payments
    requires forall i :: 0 <= i < |schedule| ==> !schedule[i].Abort?
    requires AllDone(RunSteps(s, schedule))
    ensures var t, id := RunSteps(s, schedule), s.workers[w].request.eventId;
      (id in t.tables.payments && Activations(t.history, id) == 1) || Rival(t.history, s.workers[w].request)
  {
    FailuresAreEarned(s, schedule, w);
    ExactlyOnce(s, schedule, s.workers[w].request.eventId);
  }
}
