/**
 * What concurrent workers and status reads leave in the tables, against the serial service: when
 * they agree, and the runs in which a payment or an extension is lost.
 */
module BillingSerial {
  import opened Options
  import opened BillingModel
  import opened BillingWorkers

  /* ---- entitlements: concurrent runs against the serial service ---- */

  /** The serial service fed the deliveries one after the other. */
  function Serially(t: Tables, history: seq<Event>): Tables {
    if history == [] then t else BillingModel.Step(Serially(t, history[..|history| - 1]), history[|history| - 1])
  }

  /** No user is paid for by two different events at once. */
  ghost predicate OneEventPerUser(s: System) {
    forall v, w :: v in s.workers && w in s.workers && s.workers[v].request.user == s.workers[w].request.user ==>
      s.workers[v].request.eventId == s.workers[w].request.eventId
  }

  /** The expiry a worker is about to commit is still the one the committed tables call for. */
  ghost predicate Timely(s: System, w: WorkerId)
    requires w in s.workers
  {
    var request, phase := s.workers[w].request, s.workers[w].phase;
    phase.Committing? && KnownPlan(request.planCode) ==>
      && phase.until == Extension(s.tables, request.user, request.planCode, phase.at)
      && phase.write == WriteFor(s.tables, request.user, phase.at)
  }

  /** What the serial service would leave of a worker's event, at the time the worker read. */
  function SerialCommit(s: System, w: WorkerId): Tables
    requires w in s.workers && s.workers[w].phase.Committing?
  {
    var request := s.workers[w].request;
    AfterPayment(s.tables, request.eventId, request.user, request.planCode, s.workers[w].phase.at)
  }

  lemma SerialCommitPublishes(s: System, w: WorkerId)
    requires w in s.workers && Knows(s, w) && s.workers[w].phase.Committing?
    ensures var request, phase := s.workers[w].request, s.workers[w].phase;
      SerialCommit(s, w)
        == Published(
             s.tables, phase.payment, Extension(s.tables, request.user, request.planCode, phase.at), SetBoth)
  {
    var request, phase := s.workers[w].request, s.workers[w].phase;
    var recorded := s.tables.(payments := s.tables.payments[request.eventId := phase.payment]);
    assert StatusAt(recorded, request.user, phase.at) == StatusAt(s.tables, request.user, phase.at);
    var row := Entitlement(Pro, Some(Extension(s.tables, request.user, request.planCode, phase.at)));
    assert AfterRead(recorded, request.user, phase.at).entitlements[request.user := row]
        == recorded.entitlements[request.user := row];
  }

  /** The columns a worker sends still make the row PRO: no row got in before its own, and none was downgraded. */
  predicate Lands(t: Tables, user: UserId, write: Write) {
    user in t.entitlements ==> !write.InsertRow? && (write.SetExpiry? ==> t.entitlements[user].plan == Pro)
  }

  /**
   * A commit leaves the tables the serial service would exactly when the expiry is still the one
   * called for and the columns sent still make the row PRO.
   */
  lemma CommitIsSerialExactly(s: System, w: WorkerId)
    requires w in s.workers && Knows(s, w) && s.workers[w].phase.Committing?
    ensures var request, phase := s.workers[w].request, s.workers[w].phase;
      (Next(s, Commit(w)).tables == SerialCommit(s, w))
      <==> (phase.until == Extension(s.tables, request.user, request.planCode, phase.at)
            && Lands(s.tables, request.user, phase.write))
  {
    var request, phase := s.workers[w].request, s.workers[w].phase;
    SerialCommitPublishes(s, w);
    var t := SerialCommit(s, w);
    assert request.eventId in t.payments && request.eventId !in s.tables.payments;
    assert t.entitlements[request.user]
        == Entitlement(Pro, Some(Extension(s.tables, request.user, request.planCode, phase.at)));
    if !(phase.write.InsertRow? && request.user in s.tables.entitlements) {
      assert Next(s, Commit(w)).tables.entitlements[request.user]
          == Activated(s.tables, request.user, phase.until, phase.write);
    }
  }

  lemma StepKeepsRequest(s: System, step: Step, w: WorkerId)
    ensures w in Next(s, step).workers <==> w in s.workers
    ensures w in s.workers ==> Next(s, step).workers[w].request == s.workers[w].request
  {
  }

  lemma StepKeepsOneEvent(s: System, step: Step)
    requires OneEventPerUser(s)
    ensures OneEventPerUser(Next(s, step))
  {
    forall w ensures w in Next(s, step).workers <==> w in s.workers
      ensures w in s.workers ==> Next(s, step).workers[w].request == s.workers[w].request
    {
      StepKeepsRequest(s, step, w);
    }
  }

  lemma StepKeepsTimely(s: System, step: Step, w: WorkerId)
    requires w in s.workers && Knows(s, w) && Knows(s, step.w) && OneEventPerUser(s) && Timely(s, w)
    requires !step.WriteBack?
    ensures w in Next(s, step).workers && Timely(Next(s, step), w)
  {
    if step.w in s.workers && step.Commit? && s.workers[step.w].phase.Committing? && w != step.w
       && s.workers[w].phase.Committing?
    {
      assert s.workers[w].request.eventId != s.workers[step.w].request.eventId;
      assert s.workers[w].request.user != s.workers[step.w].request.user;
    }
  }

  /** The concurrent run so far has the tables of the serial one, and nobody is about to commit a stale expiry. */
  ghost predicate InStep(s: System, start: Tables) {
    && s.tables == Serially(start, s.history)
    && forall w :: w in s.workers ==> Timely(s, w)
  }

  lemma SeriallyOne(t: Tables, history: seq<Event>, e: Event)
    ensures Serially(t, history + [e]) == BillingModel.Step(Serially(t, history), e)
  {
    assert (history + [e])[..|history|] == history;
  }

  lemma TimelyCommit(s: System, w: WorkerId)
    requires w in s.workers && Knows(s, w) && Timely(s, w) && s.workers[w].phase.Committing?
    ensures var request := s.workers[w].request;
      && Next(s, Commit(w)).history
         == s.history + [Deliver(request.eventId, request.user, request.planCode, s.workers[w].phase.at)]
      && Next(s, Commit(w)).tables == SerialCommit(s, w)
  {
    CommitIsSerialExactly(s, w);
  }

  lemma StepStaysSerial(s: System, start: Tables, step: Step)
    requires WorkersOk(s) && HoldsOk(s) && OneEventPerUser(s) && InStep(s, start) && !step.WriteBack?
    ensures Next(s, step).tables == Serially(start, Next(s, step).history)
  {
    if step.w in s.workers && step.Commit? && s.workers[step.w].phase.Committing? {
      var request := s.workers[step.w].request;
      MoverKnows(s, step.w);
      TimelyCommit(s, step.w);
      SeriallyOne(
        start, s.history,
        Deliver(request.eventId, request.user, request.planCode, s.workers[step.w].phase.at));
    } else {
      QuietStep(s, step);
    }
  }

  lemma StepStaysInStep(s: System, start: Tables, step: Step)
    requires WorkersOk(s) && HoldsOk(s) && OneEventPerUser(s) && InStep(s, start) && !step.WriteBack?
    ensures InStep(Next(s, step), start)
  {
    StepStaysSerial(s, start, step);
    forall w | w in Next(s, step).workers ensures Timely(Next(s, step), w) {
      MoverKnows(s, w);
      MoverKnows(s, step.w);
      StepKeepsTimely(s, step, w);
    }
  }

  lemma {:induction false} EveryRunOneEvent(s: System, schedule: seq<Step>)
    requires OneEventPerUser(s)
    ensures OneEventPerUser(RunSteps(s, schedule))
  {
    if schedule != [] {
      EveryRunOneEvent(s, schedule[..|schedule| - 1]);
      StepKeepsOneEvent(RunSteps(s, schedule[..|schedule| - 1]), schedule[|schedule| - 1]);
    }
  }

  lemma {:induction false} EveryRunInStep(s: System, schedule: seq<Step>)
    requires Start(s) && OneEventPerUser(s) && forall i :: 0 <= i < |schedule| ==> !schedule[i].WriteBack?
    ensures InStep(RunSteps(s, schedule), s.tables)
  {
    if schedule != [] {
      var before := schedule[..|schedule| - 1];
      EveryRunInStep(s, before);
      EveryRunOneEvent(s, before);
      EveryRunConsistent(s, before);
      StepStaysInStep(RunSteps(s, before), s.tables, schedule[|schedule| - 1]);
    }
  }

  /** Every activation is of some worker's request. */
  ghost predicate FromWorkers(s: System) {
    forall i :: 0 <= i < |s.history| && s.history[i].Deliver? ==> Asked(s, s.history[i].eventId, s.history[i].user)
  }

  ghost predicate Asked(s: System, id: string, user: UserId) {
    exists w :: w in s.workers && s.workers[w].request.eventId == id && s.workers[w].request.user == user
  }

  lemma StepKeepsAsked(s: System, step: Step, id: string, user: UserId)
    requires Asked(s, id, user)
    ensures Asked(Next(s, step), id, user)
  {
    var w :| w in s.workers && s.workers[w].request.eventId == id && s.workers[w].request.user == user;
    assert w in Next(s, step).workers && Next(s, step).workers[w].request == s.workers[w].request;
  }

  lemma StepKeepsFromWorkers(s: System, step: Step)
    requires FromWorkers(s)
    ensures FromWorkers(Next(s, step))
  {
    var t := Next(s, step);
    forall i | 0 <= i < |t.history| && t.history[i].Deliver?
      ensures Asked(t, t.history[i].eventId, t.history[i].user)
    {
      if i == |s.history| {
        assert s.workers[step.w].request.user == t.history[i].user;
      }
      StepKeepsAsked(s, step, t.history[i].eventId, t.history[i].user);
    }
  }

  lemma {:induction false} EveryRunFromWorkers(s: System, schedule: seq<Step>)
    requires Start(s)
    ensures FromWorkers(RunSteps(s, schedule))
  {
    if schedule != [] {
      EveryRunFromWorkers(s, schedule[..|schedule| - 1]);
      StepKeepsFromWorkers(RunSteps(s, schedule[..|schedule| - 1]), schedule[|schedule| - 1]);
    }
  }

  lemma NoRival(s: System, w: WorkerId)
    requires FromWorkers(s) && OneEventPerUser(s) && w in s.workers
    ensures !Rival(s.history, s.workers[w].request)
  {
    var request := s.workers[w].request;
    forall i | 0 <= i < |s.history| && s.history[i].Deliver? && s.history[i].user == request.user
      ensures s.history[i].eventId == request.eventId
    {
      assert Asked(s, s.history[i].eventId, s.history[i].user);
    }
  }

  /** With one event per user, a run without aborts that is done has activated every acceptable new event once. */
  lemma DoneMeansActivatedOnce(s: System, schedule: seq<Step>, w: WorkerId)
    requires Start(s) && OneEventPerUser(s) && w in s.workers && Acceptable(s, s.workers[w].request)
    requires s.workers[w].request.eventId !in s.tables.payments
    requires forall i :: 0 <= i < |schedule| ==> !schedule[i].Abort?
    requires AllDone(RunSteps(s, schedule))
    ensures var t, id := RunSteps(s, schedule), s.workers[w].request.eventId;
      id in t.tables.payments && Activations(t.history, id) == 1
  {
    DoneMeansActivated(s, schedule, w);
    FailuresAreEarned(s, schedule, w);
    EveryRunOneEvent(s, schedule);
    EveryRunFromWorkers(s, schedule);
    NoRival(RunSteps(s, schedule), w);
  }

  /**
   * However workers interleave and however often an event is delivered, while no status read writes
   * both tables end as the serial service leaves them after the same activations in commit order.
   */
  lemma ConcurrentIsSerial(s: System, schedule: seq<Step>)
    requires Start(s) && OneEventPerUser(s) && forall i :: 0 <= i < |schedule| ==> !schedule[i].WriteBack?
    ensures RunSteps(s, schedule).tables == Serially(s.tables, RunSteps(s, schedule).history)
  {
    EveryRunInStep(s, schedule);
  }

  /* ---- runs with status reads ---- */

  /** Everyone's status is the same from `clock` on. */
  ghost predicate SameLater(t: Tables, u: Tables, clock: Instant) {
    forall user, now :: now >= clock ==> StatusAt(t, user, now) == StatusAt(u, user, now)
  }

  /** What a worker is about to commit is what serial tables `u` call for, and will land. */
  ghost predicate Serves(s: System, u: Tables, w: WorkerId)
    requires w in s.workers
  {
    var request, phase := s.workers[w].request, s.workers[w].phase;
    phase.Committing? && KnownPlan(request.planCode) ==>
      && phase.until == Extension(u, request.user, request.planCode, phase.at)
      && phase.write.InsertRow? == (request.user !in u.entitlements)
      && Lands(s.tables, request.user, phase.write)
  }

  /** The concurrent tables against serial ones: the same payments, and the same statuses from now on. */
  ghost predicate Agrees(s: System, u: Tables, clock: Instant) {
    && s.tables.users == u.users && s.tables.payments == u.payments
    && s.tables.entitlements.Keys == u.entitlements.Keys
    && SameLater(s.tables, u, clock)
    && (forall w :: w in s.workers ==> Serves(s, u, w))
    && (forall r :: r in s.readers ==> s.readers[r].looked <= clock)
  }

  /**
   * A write-back finds the user still FREE at the instant it looked, and no worker about to send
   * the user a new expiry without the plan.
   */
  ghost predicate Harmless(s: System, step: Step) {
    step.WriteBack? && step.w in s.readers ==>
      && StatusAt(s.tables, s.readers[step.w].user, s.readers[step.w].looked) == FREE_STATUS
      && forall w ::
           w in s.workers && s.workers[w].request.user == s.readers[step.w].user && s.workers[w].phase.Committing? ==>
             !s.workers[w].phase.write.SetExpiry?
  }

  ghost predicate HarmlessReads(s: System, schedule: seq<Step>) {
    forall k :: 0 <= k < |schedule| ==> Harmless(RunSteps(s, schedule[..k]), schedule[k])
  }

  predicate Timed(step: Step) {
    step.Extend? || step.Look?
  }

  ghost predicate InTime(schedule: seq<Step>, clock: Instant) {
    && (forall i, j :: 0 <= i < j < |schedule| && Timed(schedule[i]) && Timed(schedule[j]) ==>
          schedule[i].now <= schedule[j].now)
    && (forall i :: 0 <= i < |schedule| && Timed(schedule[i]) ==> schedule[i].now <= clock)
  }

  /** A write-back changes nobody's later status exactly when the user is still FREE. */
  lemma WriteBackIsHarmlessExactly(s: System, r: WorkerId, clock: Instant)
    requires r in s.readers
    ensures SameLater(Next(s, WriteBack(r)).tables, s.tables, clock)
       <==> StatusAt(s.tables, s.readers[r].user, clock) == FREE_STATUS
  {
    var t, user := Next(s, WriteBack(r)).tables, s.readers[r].user;
    assert StatusAt(t, user, clock) == FREE_STATUS;
    assert forall other, now :: other != user ==> StatusAt(t, other, now) == StatusAt(s.tables, other, now);
    if StatusAt(s.tables, user, clock) == FREE_STATUS {
      FreeStaysFree(s.tables, user, clock);
    }
  }

  lemma FreeStaysFree(t: Tables, user: UserId, from: Instant)
    requires StatusAt(t, user, from) == FREE_STATUS
    ensures forall now :: now >= from ==> StatusAt(t, user, now) == FREE_STATUS
  {
  }

  lemma WriteBackAgrees(s: System, u: Tables, r: WorkerId, clock: Instant)
    requires Agrees(s, u, clock) && Harmless(s, WriteBack(r))
    ensures Agrees(Next(s, WriteBack(r)), u, clock)
  {
    if r in s.readers {
      FreeStaysFree(s.tables, s.readers[r].user, s.readers[r].looked);
      WriteBackIsHarmlessExactly(s, r, clock);
      forall w | w in s.workers ensures Serves(Next(s, WriteBack(r)), u, w) {
        assert Serves(s, u, w);
      }
    }
  }

  /** The serial tables after a worker's commit. */
  function SerialAfter(u: Tables, s: System, w: WorkerId): Tables
    requires w in s.workers && s.workers[w].phase.Committing?
  {
    var request := s.workers[w].request;
    AfterPayment(u, request.eventId, request.user, request.planCode, s.workers[w].phase.at)
  }

  lemma SerialAfterIs(u: Tables, s: System, w: WorkerId)
    requires w in s.workers && Knows(s, w) && s.workers[w].phase.Committing?
    requires s.tables.users == u.users && s.tables.payments == u.payments
    ensures var request, phase := s.workers[w].request, s.workers[w].phase;
      SerialAfter(u, s, w)
        == u.(payments := u.payments[request.eventId := phase.payment],
              entitlements := u.entitlements[request.user :=
                Entitlement(Pro, Some(Extension(u, request.user, request.planCode, phase.at)))])
  {
    var request, phase := s.workers[w].request, s.workers[w].phase;
    var recorded := u.(payments := u.payments[request.eventId := phase.payment]);
    assert StatusAt(recorded, request.user, phase.at) == StatusAt(u, request.user, phase.at);
    var row := Entitlement(Pro, Some(Extension(u, request.user, request.planCode, phase.at)));
    assert AfterRead(recorded, request.user, phase.at).entitlements[request.user := row]
        == recorded.entitlements[request.user := row];
  }

  lemma CommitLands(s: System, u: Tables, w: WorkerId)
    requires w in s.workers && Knows(s, w) && s.workers[w].phase.Committing? && Serves(s, u, w)
    ensures var request, phase := s.workers[w].request, s.workers[w].phase;
      && Next(s, Commit(w)).tables
         == s.tables.(payments := s.tables.payments[request.eventId := phase.payment],
                      entitlements := s.tables.entitlements[request.user :=
                        Entitlement(Pro, Some(Extension(u, request.user, request.planCode, phase.at)))])
      && Next(s, Commit(w)).history
         == s.history + [Deliver(request.eventId, request.user, request.planCode, phase.at)]
      && Next(s, Commit(w)).workers == s.workers[w := Worker(request, Returned(phase.payment, true))]
      && Next(s, Commit(w)).readers == s.readers
  {
  }

  /** Whoever else is about to commit pays for somebody else. */
  lemma OthersPayOthers(s: System, w: WorkerId, v: WorkerId)
    requires w in s.workers && v in s.workers && v != w && Knows(s, w) && Knows(s, v) && OneEventPerUser(s)
    requires s.workers[w].phase.Committing? && s.workers[v].phase.Committing?
    ensures s.workers[v].request.user != s.workers[w].request.user
  {
    assert s.workers[v].request.eventId != s.workers[w].request.eventId;
  }

  lemma CommitStillServes(s: System, u: Tables, w: WorkerId, v: WorkerId)
    requires w in s.workers && Knows(s, w) && s.workers[w].phase.Committing? && Serves(s, u, w)
    requires s.tables.users == u.users && s.tables.payments == u.payments
    requires v in s.workers && Knows(s, v) && OneEventPerUser(s) && Serves(s, u, v)
    ensures v in Next(s, Commit(w)).workers && Serves(Next(s, Commit(w)), SerialAfter(u, s, w), v)
  {
    CommitLands(s, u, w);
    SerialAfterIs(u, s, w);
    if v != w && s.workers[v].phase.Committing? {
      OthersPayOthers(s, w, v);
      var request := s.workers[v].request;
      assert StatusAt(SerialAfter(u, s, w), request.user, s.workers[v].phase.at)
          == StatusAt(u, request.user, s.workers[v].phase.at);
    }
  }

  lemma CommitAgrees(s: System, u: Tables, w: WorkerId, clock: Instant)
    requires w in s.workers && s.workers[w].phase.Committing? && WorkersOk(s) && HoldsOk(s)
    requires OneEventPerUser(s) && Agrees(s, u, clock)
    ensures Agrees(Next(s, Commit(w)), SerialAfter(u, s, w), clock)
  {
    var t, u' := Next(s, Commit(w)), SerialAfter(u, s, w);
    MoverKnows(s, w);
    CommitLands(s, u, w);
    SerialAfterIs(u, s, w);
    forall v | v in t.workers ensures Serves(t, u', v) {
      MoverKnows(s, v);
      CommitStillServes(s, u, w, v);
    }
    forall user, now | now >= clock ensures StatusAt(t.tables, user, now) == StatusAt(u', user, now) {
      if user != s.workers[w].request.user {
        assert StatusAt(t.tables, user, now) == StatusAt(s.tables, user, now);
        assert StatusAt(u', user, now) == StatusAt(u, user, now);
      }
    }
  }

  /** Steps that neither commit nor write back leave the tables alone. */
  lemma QuietStep(s: System, step: Step)
    requires !step.WriteBack?
    requires step.Commit? ==> step.w !in s.workers || !s.workers[step.w].phase.Committing?
    ensures Next(s, step).tables == s.tables && Next(s, step).history == s.history
  {
  }

  lemma ExtendServes(s: System, u: Tables, w: WorkerId, now: Instant, clock: Instant)
    requires w in s.workers && s.workers[w].phase.Extending? && KnownPlan(s.workers[w].request.planCode)
    requires SameLater(s.tables, u, clock) && s.tables.entitlements.Keys == u.entitlements.Keys && now >= clock
    ensures w in Next(s, Extend(w, now)).workers && Serves(Next(s, Extend(w, now)), u, w)
  {
    var user := s.workers[w].request.user;
    assert StatusAt(s.tables, user, now) == StatusAt(u, user, now);
    assert user in u.entitlements <==> user in s.tables.entitlements.Keys;
  }

  lemma QuietStepServes(s: System, u: Tables, step: Step, clock: Instant, w: WorkerId)
    requires !step.WriteBack? && !step.Commit? && Agrees(s, u, clock) && w in s.workers
    requires Timed(step) ==> step.now >= clock
    ensures w in Next(s, step).workers && Serves(Next(s, step), u, w)
  {
    assert Serves(s, u, w);
    if step.Extend? && step.w == w && s.workers[w].phase.Extending? && KnownPlan(s.workers[w].request.planCode) {
      ExtendServes(s, u, w, step.now, clock);
    } else {
      QuietStep(s, step);
    }
  }

  lemma QuietStepAgrees(s: System, u: Tables, step: Step, clock: Instant)
    requires !step.WriteBack? && !step.Commit? && Agrees(s, u, clock)
    requires Timed(step) ==> step.now == clock
    ensures Agrees(Next(s, step), u, clock)
  {
    QuietStep(s, step);
    forall w | w in Next(s, step).workers ensures Serves(Next(s, step), u, w) {
      StepKeepsRequest(s, step, w);
      QuietStepServes(s, u, step, clock, w);
    }
  }

  /** One step keeps the concurrent tables in agreement with the serial ones. */
  lemma StepAgrees(s: System, start: Tables, step: Step, clock: Instant)
    requires WorkersOk(s) && HoldsOk(s) && OneEventPerUser(s) && Harmless(s, step)
    requires Agrees(s, Serially(start, s.history), clock) && (Timed(step) ==> step.now == clock)
    ensures Agrees(Next(s, step), Serially(start, Next(s, step).history), clock)
  {
    var u := Serially(start, s.history);
    if step.WriteBack? {
      WriteBackAgrees(s, u, step.w, clock);
    } else if step.Commit? && step.w in s.workers && s.workers[step.w].phase.Committing? {
      MoverKnows(s, step.w);
      CommitLands(s, u, step.w);
      CommitAgrees(s, u, step.w, clock);
      assert Next(s, step).history[..|s.history|] == s.history;
    } else if step.Commit? {
      assert Next(s, step) == s;
    } else {
      QuietStepAgrees(s, u, step, clock);
    }
  }

  lemma LaterAgrees(s: System, u: Tables, clock: Instant, later: Instant)
    requires Agrees(s, u, clock) && clock <= later
    ensures Agrees(s, u, later)
  {
  }

  lemma PrefixInTime(schedule: seq<Step>, clock: Instant)
    requires schedule != [] && InTime(schedule, clock)
    ensures InTime(schedule[..|schedule| - 1], clock)
    ensures var last := schedule[|schedule| - 1];
      Timed(last) ==> last.now <= clock && InTime(schedule[..|schedule| - 1], last.now)
  {
  }

  lemma {:induction false} EveryRunAgrees(s: System, schedule: seq<Step>, clock: Instant)
    requires Start(s) && OneEventPerUser(s) && InTime(schedule, clock) && HarmlessReads(s, schedule)
    ensures Agrees(RunSteps(s, schedule), Serially(s.tables, RunSteps(s, schedule).history), clock)
  {
    if schedule != [] {
      var before, last := schedule[..|schedule| - 1], schedule[|schedule| - 1];
      var now := if Timed(last) then last.now else clock;
      PrefixInTime(schedule, clock);
      assert HarmlessReads(s, before) by {
        assert forall k :: 0 <= k < |before| ==> before[..k] == schedule[..k] && before[k] == schedule[k];
      }
      EveryRunAgrees(s, before, now);
      EveryRunConsistent(s, before);
      EveryRunOneEvent(s, before);
      StepAgrees(RunSteps(s, before), s.tables, last, now);
      LaterAgrees(RunSteps(s, schedule), Serially(s.tables, RunSteps(s, schedule).history), now, clock);
    }
  }

  /**
   * With status reads too: if each write-back is harmless when it is made, every status is from then
   * on the serial service's after the same activations, and so are the payments.
   */
  lemma InterleavedIsSerial(s: System, schedule: seq<Step>, user: UserId, now: Instant)
    requires Start(s) && OneEventPerUser(s) && InTime(schedule, now) && HarmlessReads(s, schedule)
    ensures var t := RunSteps(s, schedule);
      && t.tables.payments == Serially(s.tables, t.history).payments
      && StatusAt(t.tables, user, now) == StatusAt(Serially(s.tables, t.history), user, now)
  {
    EveryRunAgrees(s, schedule, now);
  }

  lemma StepKeepsFree(s: System, step: Step, user: UserId, looked: Instant)
    requires Knows(s, step.w) && StatusAt(s.tables, user, looked) == FREE_STATUS
    ensures s.history <= Next(s, step).history
    ensures StatusAt(Next(s, step).tables, user, looked) == FREE_STATUS
         || PaidIn(Next(s, step).history[|s.history|..], user)
  {
    var t := Next(s, step);
    if t.history != s.history {
      assert t.history[|s.history|..][0] == t.history[|s.history|];
    }
  }

  lemma PaidInMore(history: seq<Event>, more: seq<Event>, n: nat, user: UserId)
    requires n <= |history| && history <= more
    ensures PaidIn(history[n..], user) || PaidIn(more[|history|..], user) ==> PaidIn(more[n..], user)
  {
    if PaidIn(history[n..], user) {
      var i :| 0 <= i < |history[n..]| && history[n..][i].Deliver? && history[n..][i].user == user;
      assert more[n..][i] == history[n..][i];
    } else if PaidIn(more[|history|..], user) {
      var i :| 0 <= i < |more[|history|..]| && more[|history|..][i].Deliver? && more[|history|..][i].user == user;
      assert more[n..][|history| - n + i] == more[|history|..][i];
    }
  }

  /** What a read found FREE stays so until an activation of the user is committed. */
  lemma {:induction false} FreeUntilPaid(s: System, schedule: seq<Step>, k: nat, user: UserId, looked: Instant)
    requires Start(s) && k <= |schedule|
    requires StatusAt(RunSteps(s, schedule[..k]).tables, user, looked) == FREE_STATUS
    ensures RunSteps(s, schedule[..k]).history <= RunSteps(s, schedule).history
    ensures StatusAt(RunSteps(s, schedule).tables, user, looked) == FREE_STATUS
         || PaidIn(RunSteps(s, schedule).history[|RunSteps(s, schedule[..k]).history|..], user)
  {
    if k == |schedule| {
      assert schedule[..k] == schedule;
    } else {
      var before := schedule[..|schedule| - 1];
      assert before[..k] == schedule[..k];
      FreeUntilPaid(s, before, k, user, looked);
      var t, n := RunSteps(s, before), |RunSteps(s, schedule[..k]).history|;
      if StatusAt(t.tables, user, looked) == FREE_STATUS {
        EveryRunConsistent(s, before);
        MoverKnows(t, schedule[|schedule| - 1].w);
        StepKeepsFree(t, schedule[|schedule| - 1], user, looked);
      }
      HistoryOnlyGrows(t, schedule[|schedule| - 1]);
      PaidInMore(t.history, RunSteps(s, schedule).history, n, user);
    }
  }

  lemma HistoryOnlyGrows(s: System, step: Step)
    ensures s.history <= Next(s, step).history
  {
  }

  /* ---- two events of one user at once ---- */

  const PAYER: UserId := 1

  /** Two workers with two monthly payments of one user, who holds these entitlements. */
  function TwoPayments(entitlements: map<UserId, Entitlement>): System {
    System(
      Tables({PAYER}, map[], entitlements), map[], [],
      map[1 := Worker(Request("a", PAYER, "monthly"), Ready), 2 := Worker(Request("b", PAYER, "monthly"), Ready)], map[])
  }

  const BOTH_READ_FIRST: seq<Step> :=
    [Lookup(1), Insert(1), Extend(1, 0), Lookup(2), Insert(2), Extend(2, 0), Commit(1), Commit(2)]

  lemma RunStep(s: System, schedule: seq<Step>, k: nat)
    requires k < |schedule|
    ensures RunSteps(s, schedule[..k + 1]) == Next(RunSteps(s, schedule[..k]), schedule[k])
  {
    assert schedule[..k + 1][..k] == schedule[..k];
  }

  function Waiting(entitlements: map<UserId, Entitlement>, first: Phase, second: Phase, held: map<string, WorkerId>)
    : System
  {
    TwoPayments(entitlements).(
      held := held,
      workers := map[1 := Worker(Request("a", PAYER, "monthly"), first), 2 := Worker(Request("b", PAYER, "monthly"), second)])
  }

  /** What a worker sends for a user it found on FREE. */
  function FreeWrite(entitlements: map<UserId, Entitlement>): Write {
    if PAYER in entitlements then SetBoth else InsertRow
  }

  const ROW_A := Payment(PAYER, "monthly", 399, "a")
  const ROW_B := Payment(PAYER, "monthly", 399, "b")

  lemma FirstReads(entitlements: map<UserId, Entitlement>)
    requires StatusAt(Tables({PAYER}, map[], entitlements), PAYER, 0) == FREE_STATUS
    ensures Next(Next(Next(TwoPayments(entitlements), Lookup(1)), Insert(1)), Extend(1, 0))
         == Waiting(entitlements, Committing(ROW_A, 0, 30 * DAY, FreeWrite(entitlements)), Ready, map["a" := 1])
  {
    var inserting := Waiting(entitlements, Inserting, Ready, map[]);
    assert Next(TwoPayments(entitlements), Lookup(1)) == inserting;
    assert Next(inserting, Insert(1)) == Waiting(entitlements, Extending(ROW_A), Ready, map["a" := 1]);
  }

  lemma SecondReads(entitlements: map<UserId, Entitlement>, first: Phase)
    requires StatusAt(Tables({PAYER}, map[], entitlements), PAYER, 0) == FREE_STATUS
    ensures Next(Next(Next(Waiting(entitlements, first, Ready, map["a" := 1]), Lookup(2)), Insert(2)), Extend(2, 0))
         == Waiting(entitlements, first, Committing(ROW_B, 0, 30 * DAY, FreeWrite(entitlements)), map["a" := 1, "b" := 2])
  {
    assert "a"[0] != "b"[0];
    var inserting := Waiting(entitlements, first, Inserting, map["a" := 1]);
    assert Next(Waiting(entitlements, first, Ready, map["a" := 1]), Lookup(2)) == inserting;
    assert Next(inserting, Insert(2)) == Waiting(entitlements, first, Extending(ROW_B), map["a" := 1, "b" := 2]);
  }

  lemma FirstThree(s: System)
    ensures RunSteps(s, BOTH_READ_FIRST[..3]) == Next(Next(Next(s, Lookup(1)), Insert(1)), Extend(1, 0))
  {
    assert BOTH_READ_FIRST[..0] == [];
    RunStep(s, BOTH_READ_FIRST, 0);
    RunStep(s, BOTH_READ_FIRST, 1);
    RunStep(s, BOTH_READ_FIRST, 2);
  }

  lemma NextThree(s: System)
    ensures RunSteps(s, BOTH_READ_FIRST[..6])
         == Next(Next(Next(RunSteps(s, BOTH_READ_FIRST[..3]), Lookup(2)), Insert(2)), Extend(2, 0))
  {
    RunStep(s, BOTH_READ_FIRST, 3);
    RunStep(s, BOTH_READ_FIRST, 4);
    RunStep(s, BOTH_READ_FIRST, 5);
  }

  lemma AfterBoth(s: System)
    ensures RunSteps(s, BOTH_READ_FIRST) == Next(Next(RunSteps(s, BOTH_READ_FIRST[..6]), Commit(1)), Commit(2))
  {
    RunStep(s, BOTH_READ_FIRST, 6);
    RunStep(s, BOTH_READ_FIRST, 7);
    assert BOTH_READ_FIRST[..8] == BOTH_READ_FIRST;
  }

  /** Both workers have read the entitlement and neither has committed. */
  lemma BothRead(entitlements: map<UserId, Entitlement>)
    requires StatusAt(Tables({PAYER}, map[], entitlements), PAYER, 0) == FREE_STATUS
    ensures var write := FreeWrite(entitlements);
      RunSteps(TwoPayments(entitlements), BOTH_READ_FIRST[..6])
        == Waiting(entitlements, Committing(ROW_A, 0, 30 * DAY, write), Committing(ROW_B, 0, 30 * DAY, write),
                   map["a" := 1, "b" := 2])
  {
    FirstThree(TwoPayments(entitlements));
    NextThree(TwoPayments(entitlements));
    FirstReads(entitlements);
    SecondReads(entitlements, Committing(ROW_A, 0, 30 * DAY, FreeWrite(entitlements)));
  }

  /** A user back on FREE loses an extension: both payments are recorded and activated, for one month in all. */
  lemma LostExtension()
    ensures var t := RunSteps(TwoPayments(map[PAYER := Entitlement(Free, None)]), BOTH_READ_FIRST);
      && Start(TwoPayments(map[PAYER := Entitlement(Free, None)]))
      && t.tables.payments == map["a" := ROW_A, "b" := ROW_B] && |t.history| == 2
      && t.tables.entitlements == map[PAYER := Entitlement(Pro, Some(30 * DAY))]
  {
    var entitlements := map[PAYER := Entitlement(Free, None)];
    assert "a"[0] != "b"[0];
    BothRead(entitlements);
    AfterBoth(TwoPayments(entitlements));
  }

  /** A first-time payer loses a payment: the second worker's entitlement is refused and its payment rolled back. */
  lemma LostFirstPayment()
    ensures var t := RunSteps(TwoPayments(map[]), BOTH_READ_FIRST);
      && Start(TwoPayments(map[]))
      && t.tables.payments == map["a" := ROW_A] && 2 in t.workers && t.workers[2].phase == Failed
  {
    assert "a"[0] != "b"[0];
    BothRead(map[]);
    AfterBoth(TwoPayments(map[]));
  }

  /* ---- one event and a status read ---- */

  /** One worker with a monthly payment of a user whose PRO window ends at `expiry`. */
  function OnePayment(expiry: Instant): System {
    System(
      Tables({PAYER}, map[], map[PAYER := Entitlement(Pro, Some(expiry))]), map[], [],
      map[1 := Worker(Request("a", PAYER, "monthly"), Ready)], map[])
  }

  /** The read sees the expired window, the payment is activated, and then the read writes back. */
  const READ_ACROSS_PAYMENT: seq<Step> :=
    [Look(9, PAYER, 1), Lookup(1), Insert(1), Extend(1, 1), Commit(1), WriteBack(9)]

  /** The payment reads the window just before its end, and a status read writes it back just after. */
  const PAYMENT_ACROSS_READ: seq<Step> :=
    [Lookup(1), Insert(1), Extend(1, 4), Look(9, PAYER, 5), WriteBack(9), Commit(1)]

  lemma RunSix(s: System, schedule: seq<Step>)
    requires |schedule| == 6
    ensures RunSteps(s, schedule)
         == Next(Next(Next(RunThree(s, schedule), schedule[3]), schedule[4]), schedule[5])
  {
    assert schedule[..0] == [] && schedule[..6] == schedule;
    RunStep(s, schedule, 0);
    RunStep(s, schedule, 1);
    RunStep(s, schedule, 2);
    RunStep(s, schedule, 3);
    RunStep(s, schedule, 4);
    RunStep(s, schedule, 5);
  }

  function RunThree(s: System, schedule: seq<Step>): System
    requires |schedule| >= 3
  {
    Next(Next(Next(s, schedule[0]), schedule[1]), schedule[2])
  }

  function Midway(s: System, phase: Phase, held: map<string, WorkerId>, readers: map<WorkerId, Reading>): System {
    s.(workers := map[1 := Worker(Request("a", PAYER, "monthly"), phase)], held := held, readers := readers)
  }

  lemma PaymentReads(expiry: Instant, at: Instant, readers: map<WorkerId, Reading>)
    ensures var s := Midway(OnePayment(expiry), Ready, map[], readers);
      Next(Next(Next(s, Lookup(1)), Insert(1)), Extend(1, at))
        == Midway(
             s, Committing(ROW_A, at, Extension(s.tables, PAYER, "monthly", at), WriteFor(s.tables, PAYER, at)),
             map["a" := 1], readers)
  {
    var s := Midway(OnePayment(expiry), Ready, map[], readers);
    var inserting := Midway(s, Inserting, map[], readers);
    assert Next(s, Lookup(1)) == inserting;
    assert Next(inserting, Insert(1)) == Midway(s, Extending(ROW_A), map["a" := 1], readers);
  }

  const PAID_AT_1 := Deliver("a", PAYER, "monthly", 1)
  const PAID_AT_4 := Deliver("a", PAYER, "monthly", 4)

  /** The one worker has answered; these are the tables and the history. */
  function Answered(s: System, row: Entitlement, history: seq<Event>): System {
    System(
      Tables({PAYER}, map["a" := ROW_A], map[PAYER := row]), map[], history,
      map[1 := Worker(Request("a", PAYER, "monthly"), Returned(ROW_A, true))], s.readers)
  }

  lemma CommitsAtOne(readers: map<WorkerId, Reading>)
    ensures var s := OnePayment(0);
      var waiting := Midway(s, Committing(ROW_A, 1, 1 + 30 * DAY, SetBoth), map["a" := 1], readers);
      Next(waiting, Commit(1)) == Answered(waiting, Entitlement(Pro, Some(1 + 30 * DAY)), [PAID_AT_1])
  {
  }

  lemma WritesBackLast()
    ensures var s := Midway(OnePayment(0), Ready, map[], map[9 := Reading(PAYER, 1)]);
      var t := Answered(s, Entitlement(Pro, Some(1 + 30 * DAY)), [PAID_AT_1]);
      Next(t, WriteBack(9)) == Answered(OnePayment(0), Entitlement(Free, None), [PAID_AT_1])
  {
  }

  lemma ReadAcrossPaymentEnds()
    ensures RunSteps(OnePayment(0), READ_ACROSS_PAYMENT)
         == Answered(OnePayment(0), Entitlement(Free, None), [PAID_AT_1])
  {
    var s, readers := OnePayment(0), map[9 := Reading(PAYER, 1)];
    RunSix(s, READ_ACROSS_PAYMENT);
    FirstLook();
    PaymentReads(0, 1, readers);
    CommitsAtOne(readers);
    WritesBackLast();
    assert RunSteps(s, READ_ACROSS_PAYMENT)
        == Next(Next(Next(Next(Next(Next(s, Look(9, PAYER, 1)), Lookup(1)), Insert(1)), Extend(1, 1)), Commit(1)),
                WriteBack(9));
  }

  lemma FirstLook()
    ensures Next(OnePayment(0), Look(9, PAYER, 1)) == Midway(OnePayment(0), Ready, map[], map[9 := Reading(PAYER, 1)])
  {
  }

  /** The month paid for is gone: recorded and activated once, and the user is FREE for ever after. */
  lemma LostToRead(now: Instant)
    ensures var t := RunSteps(OnePayment(0), READ_ACROSS_PAYMENT);
      && Start(OnePayment(0)) && OneEventPerUser(OnePayment(0))
      && t.tables.payments == map["a" := ROW_A] && t.history == [PAID_AT_1]
      && StatusAt(t.tables, PAYER, now) == FREE_STATUS
      && StatusAt(Serially(OnePayment(0).tables, t.history), PAYER, 1).plan == Pro
  {
    ReadAcrossPaymentEnds();
    assert [PAID_AT_1][..0] == [];
    assert Serially(OnePayment(0).tables, [PAID_AT_1]) == BillingModel.Step(OnePayment(0).tables, PAID_AT_1);
  }

  lemma WritesBackFirst()
    ensures var s := OnePayment(5);
      var phase := Committing(ROW_A, 4, 5 + 30 * DAY, SetExpiry);
      var waiting := Midway(s, phase, map["a" := 1], map[]);
      Next(Next(waiting, Look(9, PAYER, 5)), WriteBack(9))
        == waiting.(tables := s.tables.(entitlements := map[PAYER := Entitlement(Free, None)]))
  {
  }

  lemma CommitsToFree()
    ensures var s := OnePayment(5);
      var phase := Committing(ROW_A, 4, 5 + 30 * DAY, SetExpiry);
      var waiting := Midway(s, phase, map["a" := 1], map[]).(
        tables := s.tables.(entitlements := map[PAYER := Entitlement(Free, None)]));
      Next(waiting, Commit(1)) == Answered(s, Entitlement(Free, Some(5 + 30 * DAY)), [PAID_AT_4])
  {
  }

  lemma PaymentAcrossReadEnds()
    ensures RunSteps(OnePayment(5), PAYMENT_ACROSS_READ)
         == Answered(OnePayment(5), Entitlement(Free, Some(5 + 30 * DAY)), [PAID_AT_4])
  {
    var s := OnePayment(5);
    RunSix(s, PAYMENT_ACROSS_READ);
    assert s == Midway(s, Ready, map[], map[]);
    PaymentReads(5, 4, map[]);
    WritesBackFirst();
    CommitsToFree();
  }

  /** Lost as well when the read falls inside the payment: the new expiry reaches a row already back on FREE. */
  lemma LostAtExpiry(now: Instant)
    ensures var t := RunSteps(OnePayment(5), PAYMENT_ACROSS_READ);
      && Start(OnePayment(5)) && OneEventPerUser(OnePayment(5))
      && t.tables.payments == map["a" := ROW_A] && t.history == [PAID_AT_4]
      && t.tables.entitlements == map[PAYER := Entitlement(Free, Some(5 + 30 * DAY))]
      && StatusAt(t.tables, PAYER, now) == FREE_STATUS
  {
    PaymentAcrossReadEnds();
  }

  /* ---- a worker on its own ---- */

  /** What a worker left alone ends up answering, and with which rows. */
  function Alone(s: System, w: WorkerId, now: Instant): System {
    Next(Next(Next(Next(s, Lookup(w)), Insert(w)), Extend(w, now)), Commit(w))
  }

  lemma AloneWins(s: System, w: WorkerId, now: Instant)
    requires w in s.workers && s.workers[w].phase == Ready && s.held == map[]
    requires s.workers[w].request.eventId !in s.tables.payments && Acceptable(s, s.workers[w].request)
    ensures var request := s.workers[w].request;
      && w in Alone(s, w, now).workers && Alone(s, w, now).workers[w].phase == Returned(RowOf(request), true)
      && Alone(s, w, now).tables == AfterPayment(s.tables, request.eventId, request.user, request.planCode, now)
  {
    var inserting := Next(s, Lookup(w));
    var extending := Next(inserting, Insert(w));
    assert inserting.workers[w].phase == Inserting && extending.workers[w].phase.Extending?;
    var committing := Next(extending, Extend(w, now));
    assert committing.workers[w].phase.Committing? && committing.tables == s.tables;
    CommitIsSerialExactly(committing, w);
  }

  lemma AloneLoses(s: System, w: WorkerId, now: Instant)
    requires w in s.workers && s.workers[w].phase == Ready && s.held == map[]
    requires s.workers[w].request.eventId in s.tables.payments || !Acceptable(s, s.workers[w].request)
    ensures var id := s.workers[w].request.eventId;
      && w in Alone(s, w, now).workers && Alone(s, w, now).tables == s.tables
      && Alone(s, w, now).workers[w].phase
         == if id in s.tables.payments then Returned(s.tables.payments[id], false) else Failed
  {
    var looked := Next(s, Lookup(w));
    var inserted := Next(looked, Insert(w));
    assert Next(inserted, Extend(w, now)) == inserted && Next(inserted, Commit(w)) == inserted;
  }

  /** A worker left alone answers as the serial service does and leaves the same tables. */
  lemma AloneIsSerial(s: System, w: WorkerId, now: Instant)
    requires w in s.workers && s.workers[w].phase == Ready && s.held == map[]
    ensures var request := s.workers[w].request;
      && w in Alone(s, w, now).workers
      && Alone(s, w, now).tables == AfterPayment(s.tables, request.eventId, request.user, request.planCode, now)
      && Alone(s, w, now).workers[w].phase
         == match PaymentOutcome(s.tables, request.eventId, request.user, request.planCode)
            case Created(p) => Returned(p, true)
            case Replayed(p) => Returned(p, false)
            case _ => Failed
  {
    if s.workers[w].request.eventId !in s.tables.payments && Acceptable(s, s.workers[w].request) {
      AloneWins(s, w, now);
    } else {
      AloneLoses(s, w, now);
    }
  }
}
