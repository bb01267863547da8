/**
 * The fixed-window limiter. A check increments the key's counter, sets the key's
 * expiry when the counter reads one, and passes while the counter is within the
 * limit; the increment and the expiry of different clients interleave freely.
 */
module RateLimit {
  import opened Options

  type Instant = int
  type ClientId = nat

  datatype Counter = Absent | Live(count: nat, expireAt: Option<Instant>)

  /** What the store shows at `now`: a key past its expiry is gone. */
  function Current(c: Counter, now: Instant): Counter {
    if c.Live? && c.expireAt.Some? && c.expireAt.value <= now then Absent else c
  }

  function Incremented(c: Counter, now: Instant): Counter {
    match Current(c, now)
    case Absent => Live(1, None)
    case Live(n, e) => Live(n + 1, e)
  }

  function Expiring(c: Counter, window: nat, now: Instant): Counter {
    match Current(c, now)
    case Absent => Absent
    case Live(n, _) => Live(n, Some(now + window))
  }

  /** One client's check with nobody else in between. */
  function Checked(c: Counter, window: nat, now: Instant): Counter {
    var up := Incremented(c, now);
    if up.Live? && up.count == 1 then Expiring(up, window, now) else up
  }

  class AuthRateLimiter {
    var counter: Counter

    constructor ()
      ensures counter == Absent
    {
      counter := Absent;
    }

    method Incr(now: Instant) returns (count: nat)
      modifies this
      ensures counter == Incremented(old(counter), now) && counter.Live? && count == counter.count
    {
      counter := Incremented(counter, now);
      count := counter.count;
    }

    method Expire(window: nat, now: Instant)
      modifies this
      ensures counter == Expiring(old(counter), window, now)
    {
      counter := Expiring(counter, window, now);
    }

    /** When the store is down the call passes uncounted. */
    method Check(limit: nat, window: nat, now: Instant, available: bool) returns (allowed: bool)
      modifies this
      ensures !available ==> allowed && counter == old(counter)
      ensures available ==> counter == Checked(old(counter), window, now)
      ensures available ==> allowed == (Incremented(old(counter), now).count <= limit)
    {
      if !available {
        return true;
      }
      var count := Incr(now);
      if count == 1 {
        Expire(window, now);
      }
      allowed := count <= limit;
    }
  }

  /* ---- interleaved clients ---- */

  datatype Step = Incr(client: ClientId, now: Instant) | Expire(client: ClientId, now: Instant)

  /** A call let through: when, in which lifetime of the key, and the count it read. */
  datatype Pass = Pass(at: Instant, lifetime: nat, rank: nat)

  /** The shared key, who still owes it an expiry, and the history of calls let through. */
  datatype System = System(counter: Counter, owed: set<ClientId>, lifetime: nat, born: Instant, passes: seq<Pass>)

  function Next(s: System, limit: nat, window: nat, step: Step): System {
    match step
    case Incr(client, now) =>
      if client in s.owed then s
      else
        var up := Incremented(s.counter, now);
        var begins := up.count == 1;
        var lifetime := if begins then s.lifetime + 1 else s.lifetime;
        System(
          up,
          if begins then s.owed + {client} else s.owed,
          lifetime,
          if begins then now else s.born,
          if up.count <= limit then s.passes + [Pass(now, lifetime, up.count)] else s.passes)
    case Expire(client, now) =>
      if client !in s.owed then s
      else s.(counter := Expiring(s.counter, window, now), owed := s.owed - {client})
  }

  const EMPTY := System(Absent, {}, 0, 0, [])

  function Run(limit: nat, window: nat, schedule: seq<Step>): System {
    if schedule == [] then EMPTY
    else Next(Run(limit, window, schedule[..|schedule| - 1]), limit, window, schedule[|schedule| - 1])
  }

  ghost predicate Chronological(schedule: seq<Step>) {
    forall i, j :: 0 <= i < j < |schedule| ==> schedule[i].now <= schedule[j].now
  }

  /** The calls let through in one lifetime of the key. */
  ghost function InLifetime(passes: seq<Pass>, k: nat): nat {
    if passes == [] then 0
    else InLifetime(passes[..|passes| - 1], k) + if passes[|passes| - 1].lifetime == k then 1 else 0
  }

  /** Those of them after the call that began the lifetime. */
  ghost function AfterFirst(passes: seq<Pass>, k: nat): nat {
    if passes == [] then 0
    else
      var p := passes[|passes| - 1];
      AfterFirst(passes[..|passes| - 1], k) + if p.lifetime == k && p.rank > 1 then 1 else 0
  }

  predicate Within(p: Pass, from: Instant, window: nat) {
    from <= p.at < from + window
  }

  /** The calls let through in the half-open interval of one window starting at `from`. */
  ghost function InWindow(passes: seq<Pass>, from: Instant, window: nat): nat {
    if passes == [] then 0
    else InWindow(passes[..|passes| - 1], from, window) + if Within(passes[|passes| - 1], from, window) then 1 else 0
  }

  /* ---- what every step keeps ---- */

  ghost predicate CountsOk(s: System, limit: nat) {
    && (forall k :: InLifetime(s.passes, k) <= limit)
    && (forall k :: AfterFirst(s.passes, k) <= if limit == 0 then 0 else limit - 1)
    && (forall k :: k > s.lifetime ==> InLifetime(s.passes, k) == 0 && AfterFirst(s.passes, k) == 0)
    && (s.counter.Live? ==>
         && s.counter.count >= 1
         && InLifetime(s.passes, s.lifetime) <= s.counter.count
         && AfterFirst(s.passes, s.lifetime) <= s.counter.count - 1)
  }

  /** The key lives at least one window from its birth, and lives on while an expiry is owed. */
  ghost predicate KeyOk(s: System, window: nat, clock: Instant) {
    && (forall c, d :: c in s.owed && d in s.owed ==> c == d)
    && (s.owed != {} ==> s.counter.Live? && s.counter.expireAt.None?)
    && (s.counter.Live? ==> s.born <= clock && s.counter.count >= 1)
    && (s.counter.Live? && s.counter.expireAt.Some? ==> s.counter.expireAt.value >= s.born + window)
    && (s.counter.Absent? ==> s.passes == [])
  }

  /** How a past call stands to the current lifetime. */
  ghost predicate PassOk(s: System, p: Pass, window: nat, clock: Instant) {
    && p.at <= clock && p.lifetime <= s.lifetime
    && (p.lifetime < s.lifetime ==> p.at <= s.born)
    && (p.lifetime + 2 <= s.lifetime ==> p.at + window <= s.born)
    && (p.rank <= 1 && p.lifetime < s.lifetime ==> p.at + window <= s.born)
    && (p.rank <= 1 && p.lifetime == s.lifetime ==> p.at == s.born)
  }

  ghost predicate TimesOk(s: System, window: nat, clock: Instant) {
    && KeyOk(s, window, clock)
    && (forall i :: 0 <= i < |s.passes| ==> PassOk(s, s.passes[i], window, clock))
    && Spread(s.passes, window)
  }

  /** Two lifetimes on, or one on from the call that began a lifetime. */
  predicate Apart(p: Pass, q: Pass) {
    p.lifetime + 2 <= q.lifetime || (p.rank <= 1 && p.lifetime + 1 == q.lifetime)
  }

  /** Calls that far apart in lifetimes are a window apart in time. */
  ghost predicate Spread(passes: seq<Pass>, window: nat) {
    forall i, j :: 0 <= i < |passes| && 0 <= j < |passes| && Apart(passes[i], passes[j]) ==>
      passes[j].at >= passes[i].at + window
  }

  lemma CountsStep(s: System, limit: nat, window: nat, step: Step)
    requires CountsOk(s, limit)
    ensures CountsOk(Next(s, limit, window, step), limit)
  {
    var t := Next(s, limit, window, step);
    if t.passes != s.passes {
      var p := t.passes[|s.passes|];
      assert t.passes[..|t.passes| - 1] == s.passes;
      forall k
        ensures InLifetime(t.passes, k) == InLifetime(s.passes, k) + if p.lifetime == k then 1 else 0
        ensures AfterFirst(t.passes, k) == AfterFirst(s.passes, k) + if p.lifetime == k && p.rank > 1 then 1 else 0
      {
      }
    }
  }

  lemma TimesStep(s: System, limit: nat, window: nat, clock: Instant, step: Step)
    requires TimesOk(s, window, clock) && clock <= step.now
    ensures TimesOk(Next(s, limit, window, step), window, step.now)
  {
  }

  lemma {:induction false} EveryRunCounts(limit: nat, window: nat, schedule: seq<Step>)
    ensures CountsOk(Run(limit, window, schedule), limit)
  {
    if schedule != [] {
      EveryRunCounts(limit, window, schedule[..|schedule| - 1]);
      CountsStep(Run(limit, window, schedule[..|schedule| - 1]), limit, window, schedule[|schedule| - 1]);
    }
  }

  lemma {:induction false} EveryRunTimes(limit: nat, window: nat, schedule: seq<Step>, clock: Instant)
    requires Chronological(schedule) && forall i :: 0 <= i < |schedule| ==> schedule[i].now <= clock
    ensures TimesOk(Run(limit, window, schedule), window, clock)
  {
    if schedule != [] {
      var before, last := schedule[..|schedule| - 1], schedule[|schedule| - 1];
      EveryRunTimes(limit, window, before, last.now);
      TimesStep(Run(limit, window, before), limit, window, last.now, last);
    }
  }

  /** At most `limit` calls pass in one lifetime of the key. */
  lemma LifetimeBound(limit: nat, window: nat, schedule: seq<Step>, k: nat)
    ensures InLifetime(Run(limit, window, schedule).passes, k) <= limit
  {
    EveryRunCounts(limit, window, schedule);
  }

  /* ---- any window ---- */

  /** If a window only sees lifetime `k` after its first call, and lifetime `k + 1`, it sees no more than these. */
  lemma {:induction false} TwoLifetimes(passes: seq<Pass>, from: Instant, window: nat, k: nat)
    requires forall i :: 0 <= i < |passes| && Within(passes[i], from, window) ==>
      (passes[i].lifetime == k && passes[i].rank > 1) || passes[i].lifetime == k + 1
    ensures InWindow(passes, from, window) <= AfterFirst(passes, k) + InLifetime(passes, k + 1)
  {
    if passes != [] {
      TwoLifetimes(passes[..|passes| - 1], from, window, k);
    }
  }

  lemma {:induction false} OneLifetime(passes: seq<Pass>, from: Instant, window: nat, k: nat)
    requires forall i :: 0 <= i < |passes| && Within(passes[i], from, window) ==> passes[i].lifetime == k
    ensures InWindow(passes, from, window) <= InLifetime(passes, k)
  {
    if passes != [] {
      OneLifetime(passes[..|passes| - 1], from, window, k);
    }
  }

  lemma {:induction false} NoneWithin(passes: seq<Pass>, from: Instant, window: nat)
    requires forall i :: 0 <= i < |passes| ==> !Within(passes[i], from, window)
    ensures InWindow(passes, from, window) == 0
  {
    if passes != [] {
      NoneWithin(passes[..|passes| - 1], from, window);
    }
  }

  /** The earliest lifetime a window sees. */
  lemma {:induction false} EarliestWithin(passes: seq<Pass>, from: Instant, window: nat, some: nat) returns (first: nat)
    requires some < |passes| && Within(passes[some], from, window)
    ensures first < |passes| && Within(passes[first], from, window)
    ensures forall i :: 0 <= i < |passes| && Within(passes[i], from, window) ==>
      passes[first].lifetime <= passes[i].lifetime
    decreases passes[some].lifetime
  {
    if j :| 0 <= j < |passes| && Within(passes[j], from, window) && passes[j].lifetime < passes[some].lifetime {
      first := EarliestWithin(passes, from, window, j);
    } else {
      first := some;
    }
  }

  lemma SpreadBound(passes: seq<Pass>, from: Instant, window: nat, limit: nat)
    requires Spread(passes, window)
    requires forall k :: InLifetime(passes, k) <= limit
    requires forall k :: AfterFirst(passes, k) <= if limit == 0 then 0 else limit - 1
    ensures InWindow(passes, from, window) <= if limit == 0 then 0 else 2 * limit - 1
  {
    if some: nat :| some < |passes| && Within(passes[some], from, window) {
      var first := EarliestWithin(passes, from, window, some);
      var k := passes[first].lifetime;
      if i :| 0 <= i < |passes| && Within(passes[i], from, window) && passes[i].lifetime != k {
        forall j | 0 <= j < |passes| && Within(passes[j], from, window)
          ensures (passes[j].lifetime == k && passes[j].rank > 1) || passes[j].lifetime == k + 1
        {
          assert !Apart(passes[first], passes[j]) && !Apart(passes[j], passes[i]) && !Apart(passes[first], passes[i]);
        }
        TwoLifetimes(passes, from, window, k);
      } else {
        OneLifetime(passes, from, window, k);
      }
    } else {
      NoneWithin(passes, from, window);
    }
  }

  /** However clients interleave, no interval of one window's length sees more than `2 * limit - 1` passes. */
  lemma WindowBound(limit: nat, window: nat, schedule: seq<Step>, from: Instant)
    requires Chronological(schedule)
    ensures InWindow(Run(limit, window, schedule).passes, from, window) <= if limit == 0 then 0 else 2 * limit - 1
  {
    EveryRunCounts(limit, window, schedule);
    if schedule != [] {
      EveryRunTimes(limit, window, schedule, schedule[|schedule| - 1].now);
    }
    SpreadBound(Run(limit, window, schedule).passes, from, window, limit);
  }

  /* ---- the bound is reached ---- */

  function Burst(n: nat, now: Instant): seq<Step> {
    if n == 0 then [] else Burst(n - 1, now) + [Incr(n, now)]
  }

  /** One call opens a lifetime at `now`, and the rest of the limit is used up at `later`. */
  function Share(limit: nat, now: Instant, later: Instant): seq<Step> {
    [Incr(0, now), Expire(0, now)] + Burst(Less1(limit), later)
  }

  /** One share ends at the last instant of its lifetime, and the next is used up right after. */
  function Worst(limit: nat, window: nat): seq<Step> {
    Share(limit, 0, window - 1) + Share(limit, window, window)
  }

  function Less1(n: nat): nat {
    if n == 0 then 0 else n - 1
  }

  /** A counted call in a live key: one more on the counter, one more pass. */
  lemma LiveCallPasses(s: System, limit: nat, window: nat, client: ClientId, now: Instant, from: Instant)
    requires s.owed == {} && Current(s.counter, now) == s.counter && s.counter.Live?
    requires 1 <= s.counter.count < limit && from <= now < from + window
    ensures var t := Next(s, limit, window, Incr(client, now));
      && t.owed == {} && t.counter == s.counter.(count := s.counter.count + 1)
      && InWindow(t.passes, from, window) == InWindow(s.passes, from, window) + 1
  {
  }

  /** The system after `n` calls at one instant. */
  function Bursted(s: System, limit: nat, window: nat, n: nat, now: Instant): System {
    if n == 0 then s else Next(Bursted(s, limit, window, n - 1, now), limit, window, Incr(n, now))
  }

  lemma {:induction false} RunBurst(limit: nat, window: nat, before: seq<Step>, n: nat, now: Instant)
    ensures Run(limit, window, before + Burst(n, now)) == Bursted(Run(limit, window, before), limit, window, n, now)
  {
    if n == 0 {
      assert before + [] == before;
    } else {
      RunBurst(limit, window, before, n - 1, now);
      RunLast(limit, window, before + Burst(n - 1, now), Incr(n, now));
      assert before + Burst(n, now) == before + Burst(n - 1, now) + [Incr(n, now)];
    }
  }

  /** A burst of `n` calls in a live key adds `n` passes at that instant while the limit allows. */
  lemma {:induction false} BurstPasses(s: System, limit: nat, window: nat, n: nat, now: Instant, from: Instant)
    requires s.owed == {} && Current(s.counter, now) == s.counter && s.counter.Live?
    requires 1 <= s.counter.count && s.counter.count + n <= limit
    requires from <= now < from + window
    ensures var t := Bursted(s, limit, window, n, now);
      && t.owed == {} && t.counter == s.counter.(count := s.counter.count + n)
      && InWindow(t.passes, from, window) == InWindow(s.passes, from, window) + n
  {
    if n > 0 {
      BurstPasses(s, limit, window, n - 1, now, from);
      LiveCallPasses(Bursted(s, limit, window, n - 1, now), limit, window, n, now, from);
    }
  }

  lemma RunLast(limit: nat, window: nat, before: seq<Step>, step: Step)
    ensures Run(limit, window, before + [step]) == Next(Run(limit, window, before), limit, window, step)
  {
  }

  /** The system after one client's whole check at `now`. */
  function Opened(s: System, limit: nat, window: nat, now: Instant): System {
    Next(Next(s, limit, window, Incr(0, now)), limit, window, Expire(0, now))
  }

  lemma RunShare(limit: nat, window: nat, before: seq<Step>, now: Instant, later: Instant)
    ensures Run(limit, window, before + Share(limit, now, later))
         == Bursted(Opened(Run(limit, window, before), limit, window, now), limit, window, Less1(limit), later)
  {
    var middle := before + [Incr(0, now)];
    RunLast(limit, window, before, Incr(0, now));
    RunLast(limit, window, middle, Expire(0, now));
    RunBurst(limit, window, middle + [Expire(0, now)], Less1(limit), later);
    assert before + Share(limit, now, later) == middle + [Expire(0, now)] + Burst(Less1(limit), later);
  }

  lemma OpensLifetime(s: System, limit: nat, window: nat, now: Instant, from: Instant)
    requires s.owed == {} && Current(s.counter, now) == Absent
    requires 1 <= limit && 1 <= window
    ensures var t := Opened(s, limit, window, now);
      && t.owed == {} && t.counter == Live(1, Some(now + window))
      && InWindow(t.passes, from, window)
         == InWindow(s.passes, from, window) + if from <= now < from + window then 1 else 0
  {
  }

  /** A system whose share is used up: nothing owed, the counter at the limit, so many passes in the window. */
  ghost predicate UsedUp(s: System, limit: nat, expiry: Instant, from: Instant, window: nat, passes: int) {
    s.owed == {} && s.counter == Live(limit, Some(expiry)) && InWindow(s.passes, from, window) == passes
  }

  lemma SharePasses(s: System, limit: nat, window: nat, now: Instant, later: Instant, from: Instant, passes: int)
    requires s.owed == {} && Current(s.counter, now) == Absent
    requires 1 <= limit && now <= later < now + window && from <= later < from + window
    requires passes == InWindow(s.passes, from, window) + (limit - 1) + if from <= now < from + window then 1 else 0
    ensures UsedUp(
      Bursted(Opened(s, limit, window, now), limit, window, limit - 1, later), limit, now + window, from, window, passes)
  {
    OpensLifetime(s, limit, window, now, from);
    BurstPasses(Opened(s, limit, window, now), limit, window, limit - 1, later, from);
  }

  lemma {:induction false} BurstAt(n: nat, now: Instant)
    ensures |Burst(n, now)| == n && forall i :: 0 <= i < n ==> Burst(n, now)[i].now == now
  {
    if n > 0 {
      BurstAt(n - 1, now);
    }
  }

  lemma WorstIsChronological(limit: nat, window: nat)
    requires 1 <= window
    ensures Chronological(Worst(limit, window))
  {
    BurstAt(Less1(limit), window - 1);
    BurstAt(Less1(limit), window);
    var first, second := Share(limit, 0, window - 1), Share(limit, window, window);
    assert forall i :: 0 <= i < |first| ==> first[i].now == if i < 2 then 0 else window - 1;
    assert forall i :: 0 <= i < |second| ==> second[i].now == window;
  }

  lemma FirstShare(limit: nat, window: nat)
    requires 1 <= limit && 2 <= window
    ensures UsedUp(Run(limit, window, Share(limit, 0, window - 1)), limit, window, 1, window, limit - 1)
  {
    assert [] + Share(limit, 0, window - 1) == Share(limit, 0, window - 1);
    RunShare(limit, window, [], 0, window - 1);
    assert Run(limit, window, []) == EMPTY;
    SharePasses(EMPTY, limit, window, 0, window - 1, 1, limit - 1);
  }

  /** For every limit and window there is a schedule in time order that reaches the bound. */
  lemma WindowBoundIsReached(limit: nat, window: nat)
    requires 1 <= limit && 2 <= window
    ensures Chronological(Worst(limit, window))
    ensures InWindow(Run(limit, window, Worst(limit, window)).passes, 1, window) == 2 * limit - 1
  {
    WorstIsChronological(limit, window);
    FirstShare(limit, window);
    RunShare(limit, window, Share(limit, 0, window - 1), window, window);
    SharePasses(Run(limit, window, Share(limit, 0, window - 1)), limit, window, window, window, 1, 2 * limit - 1);
  }
}
