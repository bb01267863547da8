/** The limiter one call after another: which calls it lets through, and that it lets go. */
module RateRelease {
  import opened Options
  import opened RateLimit

  /* ---- a check is an increment and, when it opens a lifetime, an expiry ---- */

  /** The system after a whole check by one client with nobody in between. */
  function AfterCheck(s: System, limit: nat, window: nat, client: ClientId, now: Instant): System {
    Next(Next(s, limit, window, Incr(client, now)), limit, window, Expire(client, now))
  }

  /** What the check leaves on the counter, and whether it lets the call through, are what those steps do. */
  lemma CheckIsItsSteps(s: System, limit: nat, window: nat, client: ClientId, now: Instant)
    requires s.owed == {}
    ensures var t := AfterCheck(s, limit, window, client, now);
      && t.owed == {} && t.counter == Checked(s.counter, window, now)
      && s.passes <= t.passes
      && (|t.passes| == |s.passes| + 1 <==> Incremented(s.counter, now).count <= limit)
      && (|t.passes| == |s.passes| <==> Incremented(s.counter, now).count > limit)
  {
  }

  /* ---- the fixed window, told by its calls ---- */

  datatype Window = Unopened | Opened(start: Instant, count: nat)

  /** The window current at the last call: a call past the end of one opens the next. */
  function WindowAt(times: seq<Instant>, window: nat): Window {
    if times == [] then Unopened
    else
      var earlier, now := WindowAt(times[..|times| - 1], window), times[|times| - 1];
      if earlier.Opened? && now < earlier.start + window then Opened(earlier.start, earlier.count + 1)
      else Opened(now, 1)
  }

  /** One whole check after another. */
  function Serial(times: seq<Instant>): seq<Step> {
    if times == [] then []
    else Serial(times[..|times| - 1]) + [Incr(0, times[|times| - 1])] + [Expire(0, times[|times| - 1])]
  }

  ghost predicate InOrder(times: seq<Instant>) {
    forall i, j :: 0 <= i < j < |times| ==> times[i] <= times[j]
  }

  /** The stored key is the current window: its calls counted, and expiring when it ends. */
  ghost predicate Keeps(s: System, w: Window, window: nat) {
    && s.owed == {}
    && match w
       case Unopened => s.counter == Absent && s.passes == []
       case Opened(start, count) => s.counter == Live(count, Some(start + window)) && s.born == start && count >= 1
  }

  lemma CheckKeeps(s: System, w: Window, limit: nat, window: nat, now: Instant)
    requires Keeps(s, w, window) && (w.Opened? ==> w.start <= now)
    ensures var next := if w.Opened? && now < w.start + window then Opened(w.start, w.count + 1) else Opened(now, 1);
      && Keeps(AfterCheck(s, limit, window, 0, now), next, window)
      && |AfterCheck(s, limit, window, 0, now).passes| == |s.passes| + if next.count <= limit then 1 else 0
  {
  }

  lemma {:induction false} WindowStartsEarlier(times: seq<Instant>, window: nat, now: Instant)
    requires InOrder(times) && forall i :: 0 <= i < |times| ==> times[i] <= now
    ensures WindowAt(times, window).Opened? ==> WindowAt(times, window).start <= now
  {
    if times != [] {
      WindowStartsEarlier(times[..|times| - 1], window, now);
    }
  }

  lemma RunSerial(limit: nat, window: nat, times: seq<Instant>)
    requires times != []
    ensures Run(limit, window, Serial(times))
         == AfterCheck(Run(limit, window, Serial(times[..|times| - 1])), limit, window, 0, times[|times| - 1])
  {
    var before, now := Serial(times[..|times| - 1]), times[|times| - 1];
    RunLast(limit, window, before, Incr(0, now));
    RunLast(limit, window, before + [Incr(0, now)], Expire(0, now));
  }

  /** Over every serial schedule the limiter keeps exactly the fixed window of its calls. */
  lemma {:induction false} SerialIsFixedWindow(limit: nat, window: nat, times: seq<Instant>)
    requires InOrder(times)
    ensures Keeps(Run(limit, window, Serial(times)), WindowAt(times, window), window)
  {
    if times != [] {
      var before, now := times[..|times| - 1], times[|times| - 1];
      SerialIsFixedWindow(limit, window, before);
      WindowStartsEarlier(before, window, now);
      CheckKeeps(Run(limit, window, Serial(before)), WindowAt(before, window), limit, window, now);
      RunSerial(limit, window, times);
    }
  }

  /** A call passes exactly when the limit allows for it and the calls before it in its window. */
  lemma CallPassesExactly(limit: nat, window: nat, times: seq<Instant>)
    requires InOrder(times) && times != []
    ensures var before := Run(limit, window, Serial(times[..|times| - 1]));
      |Run(limit, window, Serial(times)).passes|
        == |before.passes| + if WindowAt(times, window).count <= limit then 1 else 0
  {
    var before, now := times[..|times| - 1], times[|times| - 1];
    SerialIsFixedWindow(limit, window, before);
    WindowStartsEarlier(before, window, now);
    CheckKeeps(Run(limit, window, Serial(before)), WindowAt(before, window), limit, window, now);
    RunSerial(limit, window, times);
  }

  /** A call made a whole window or more after the call that opened the current one is let through. */
  lemma LimiterLetsGo(limit: nat, window: nat, times: seq<Instant>, now: Instant)
    requires InOrder(times + [now]) && times != [] && 1 <= limit
    requires now >= Run(limit, window, Serial(times)).born + window
    ensures |Run(limit, window, Serial(times + [now])).passes| == |Run(limit, window, Serial(times)).passes| + 1
  {
    var all := times + [now];
    assert all[..|times|] == times && all[|times|] == now;
    assert forall i :: 0 <= i < |times| ==> times[i] == all[i];
    SerialIsFixedWindow(limit, window, times);
    CallPassesExactly(limit, window, all);
  }

  /** Within the window the first `limit` calls pass and the others do not. */
  lemma LimiterHolds(limit: nat, window: nat, times: seq<Instant>, now: Instant)
    requires InOrder(times + [now]) && times != [] && now < Run(limit, window, Serial(times)).born + window
    ensures |Run(limit, window, Serial(times + [now])).passes|
         == |Run(limit, window, Serial(times)).passes| + if WindowAt(times, window).count < limit then 1 else 0
  {
    var all := times + [now];
    assert all[..|times|] == times && all[|times|] == now;
    assert forall i :: 0 <= i < |times| ==> times[i] == all[i];
    SerialIsFixedWindow(limit, window, times);
    CallPassesExactly(limit, window, all);
  }
}
