/**
 * Advice requests over the audit trail: a sliding daily quota whose limit follows the
 * subscription, and a short cache read from the same rows.
 */
module Advice {
  import opened Options
  import opened BillingModel

  const CACHE_TTL := 300_000_000
  const PROMPT_KEY := "analista.spiegazione_giocatore"

  datatype Feature = Viceallenatore | Osservatore | Analista

  /** The features that only suggest; the analyst has its own endpoint and cache. */
  type Suggester = f: Feature | f != Analista witness Osservatore

  datatype Interaction = Interaction(
    userId: UserId, feature: Feature, promptKey: string, input: string, output: Option<string>, createdAt: Instant)

  /** The rows of a user not older than `since`. */
  function RecentCount(rows: seq<Interaction>, user: UserId, since: Instant): nat {
    if rows == [] then 0
    else
      var row := rows[|rows| - 1];
      RecentCount(rows[..|rows| - 1], user, since) + if row.userId == user && row.createdAt >= since then 1 else 0
  }

  predicate WithinQuota(rows: seq<Interaction>, user: UserId, limit: nat, now: Instant) {
    RecentCount(rows, user, now - DAY) < limit
  }

  predicate Matches(row: Interaction, user: UserId, feature: Feature, key: string, input: string) {
    row.userId == user && row.feature == feature && row.promptKey == key && row.input == input
  }

  /** The newest matching row, if it is not older than the cache allows. */
  function Cached(
    rows: seq<Interaction>, user: UserId, feature: Feature, key: string, input: string, now: Instant)
    : Option<Interaction>
  {
    if rows == [] then None
    else
      Newer(Cached(rows[..|rows| - 1], user, feature, key, input, now), rows[|rows| - 1], user, feature, key, input, now)
  }

  /** The newer of what was found and one more row, if that row matches and is fresh. */
  function Newer(
    found: Option<Interaction>, row: Interaction, user: UserId, feature: Feature, key: string, input: string,
    now: Instant): Option<Interaction>
  {
    if Matches(row, user, feature, key, input) && row.createdAt >= now - CACHE_TTL
       && (found.None? || found.value.createdAt <= row.createdAt)
    then Some(row)
    else found
  }

  /* ---- requests ---- */

  datatype Request =
    | Billing(e: Event)
    /** The analyst endpoint; `advice` is what the feature store would yield, if it knows the athlete. */
    | Explain(user: UserId, athlete: string, advice: Option<string>, now: Instant)
    /** Any other advice endpoint, which may or may not record what it answered. */
    | Suggest(
        user: UserId, feature: Suggester, key: string, input: string, output: Option<string>, records: bool,
        now: Instant)

  datatype Desk = Desk(tables: Tables, rows: seq<Interaction>)

  datatype Answer = QuotaExceeded | FromCache(row: Interaction) | NotFound | Computed(row: Interaction)

  function At(r: Request): Instant {
    match r
    case Billing(e) => e.now
    case Explain(_, _, _, now) => now
    case Suggest(_, _, _, _, _, _, now) => now
  }

  function ExplainAnswer(d: Desk, user: UserId, athlete: string, advice: Option<string>, now: Instant): Answer {
    var cached := Cached(d.rows, user, Analista, PROMPT_KEY, athlete, now);
    if !WithinQuota(d.rows, user, StatusAt(d.tables, user, now).aiDailyLimit, now) then QuotaExceeded
    else if cached.Some? && cached.value.output.Some? then FromCache(cached.value)
    else if advice.None? then NotFound
    else Computed(Interaction(user, Analista, PROMPT_KEY, athlete, advice, now))
  }

  function Served(d: Desk, r: Request): Desk {
    match r
    case Billing(e) => d.(tables := BillingModel.Step(d.tables, e))
    case Explain(user, athlete, advice, now) =>
      var answer := ExplainAnswer(d, user, athlete, advice, now);
      Desk(AfterRead(d.tables, user, now), if answer.Computed? then d.rows + [answer.row] else d.rows)
    case Suggest(user, feature, key, input, output, records, now) =>
      Desk(
        AfterRead(d.tables, user, now),
        if WithinQuota(d.rows, user, StatusAt(d.tables, user, now).aiDailyLimit, now) && records
        then d.rows + [Interaction(user, feature, key, input, output, now)]
        else d.rows)
  }

  function RunDesk(users: set<UserId>, requests: seq<Request>): Desk {
    if requests == [] then Desk(Fresh(users), [])
    else Served(RunDesk(users, requests[..|requests| - 1]), requests[|requests| - 1])
  }

  ghost predicate InOrder(requests: seq<Request>) {
    forall i, j :: 0 <= i < j < |requests| ==> At(requests[i]) <= At(requests[j])
  }

  /** Rows in order of time, none later than `clock`. */
  ghost predicate RowsBy(rows: seq<Interaction>, clock: Instant) {
    && (forall i, j :: 0 <= i < j < |rows| ==> rows[i].createdAt <= rows[j].createdAt)
    && (forall i :: 0 <= i < |rows| ==> rows[i].createdAt <= clock)
  }

  /** The desk over its stores, changed in place. */
  class AdviceDesk {
    const billing: BillingStore
    var rows: seq<Interaction>

    constructor (billing: BillingStore)
      ensures this.billing == billing && rows == []
    {
      this.billing, rows := billing, [];
    }

    ghost function Contents(): Desk
      reads this, billing
    {
      Desk(billing.Contents(), rows)
    }

    method CheckDailyQuota(user: UserId, limit: nat, now: Instant) returns (ok: bool)
      ensures ok == WithinQuota(rows, user, limit, now)
    {
      var count := 0;
      for i := 0 to |rows|
        invariant count == RecentCount(rows[..i], user, now - DAY)
      {
        assert rows[..i + 1][..i] == rows[..i];
        if rows[i].userId == user && rows[i].createdAt >= now - DAY {
          count := count + 1;
        }
      }
      assert rows[..|rows|] == rows;
      ok := count < limit;
    }

    method FindCachedInteraction(user: UserId, feature: Feature, key: string, input: string, now: Instant)
      returns (found: Option<Interaction>)
      ensures found == Cached(rows, user, feature, key, input, now)
    {
      found := None;
      for i := 0 to |rows|
        invariant found == Cached(rows[..i], user, feature, key, input, now)
      {
        assert rows[..i + 1][..i] == rows[..i];
        if Matches(rows[i], user, feature, key, input) && rows[i].createdAt >= now - CACHE_TTL {
          if found.None? || found.value.createdAt <= rows[i].createdAt {
            found := Some(rows[i]);
          }
        }
      }
      assert rows[..|rows|] == rows;
    }

    method GetExplanation(user: UserId, athlete: string, advice: Option<string>, now: Instant) returns (answer: Answer)
      modifies this`rows, billing`entitlements
      ensures answer == ExplainAnswer(old(Contents()), user, athlete, advice, now)
      ensures Contents() == Served(old(Contents()), Explain(user, athlete, advice, now))
    {
      var status := billing.GetStatus(user, now);
      var ok := CheckDailyQuota(user, status.aiDailyLimit, now);
      if !ok {
        return QuotaExceeded;
      }
      var cached := FindCachedInteraction(user, Analista, PROMPT_KEY, athlete, now);
      if cached.Some? && cached.value.output.Some? {
        return FromCache(cached.value);
      }
      if advice.None? {
        return NotFound;
      }
      var row := Interaction(user, Analista, PROMPT_KEY, athlete, advice, now);
      rows := rows + [row];
      answer := Computed(row);
    }
  }

  /* ---- the cache ---- */

  /** The cache finds the newest match, and only a fresh one, in whatever order the rows lie. */
  lemma {:induction false} CachedIsNewest(
    rows: seq<Interaction>, user: UserId, feature: Feature, key: string, input: string, now: Instant)
    ensures var found := Cached(rows, user, feature, key, input, now);
      && (found.Some? ==> found.value in rows && Matches(found.value, user, feature, key, input)
                          && found.value.createdAt >= now - CACHE_TTL)
      && forall row :: row in rows && Matches(row, user, feature, key, input) && row.createdAt >= now - CACHE_TTL ==>
           found.Some? && row.createdAt <= found.value.createdAt
  {
    if rows != [] {
      var t := rows[..|rows| - 1];
      assert rows == t + [rows[|rows| - 1]];
      CachedIsNewest(t, user, feature, key, input, now);
    }
  }

  lemma {:induction false} RunRowsBy(users: set<UserId>, requests: seq<Request>, clock: Instant)
    requires InOrder(requests) && forall i :: 0 <= i < |requests| ==> At(requests[i]) <= clock
    ensures RowsBy(RunDesk(users, requests).rows, clock)
  {
    if requests != [] {
      RunRowsBy(users, requests[..|requests| - 1], At(requests[|requests| - 1]));
    }
  }

  predicate AnalystRow(row: Interaction, user: UserId, athlete: string) {
    Matches(row, user, Analista, PROMPT_KEY, athlete)
  }

  lemma {:induction false} AnalystRowsHaveOutput(users: set<UserId>, requests: seq<Request>)
    ensures forall row :: row in RunDesk(users, requests).rows && row.feature == Analista ==> row.output.Some?
  {
    if requests != [] {
      AnalystRowsHaveOutput(users, requests[..|requests| - 1]);
    }
  }

  lemma NewRowIsSpaced(d: Desk, r: Request, user: UserId, athlete: string, i: nat)
    requires RowsBy(d.rows, At(r)) && forall row :: row in d.rows && row.feature == Analista ==> row.output.Some?
    requires |Served(d, r).rows| > |d.rows| > i
    requires AnalystRow(d.rows[i], user, athlete) && AnalystRow(Served(d, r).rows[|d.rows|], user, athlete)
    ensures |Served(d, r).rows| == |d.rows| + 1 && Served(d, r).rows[i] == d.rows[i]
    ensures Served(d, r).rows[|d.rows|].createdAt - d.rows[i].createdAt > CACHE_TTL
  {
    CachedIsNewest(d.rows, user, Analista, PROMPT_KEY, athlete, At(r));
    assert d.rows[i] in d.rows;
  }

  /** Two analyst rows of one user about one athlete are always more than the cache time apart. */
  lemma {:induction false} AnalystRowsAreSpaced(
    users: set<UserId>, requests: seq<Request>, user: UserId, athlete: string, i: nat, j: nat)
    requires InOrder(requests) && i < j < |RunDesk(users, requests).rows|
    requires AnalystRow(RunDesk(users, requests).rows[i], user, athlete)
    requires AnalystRow(RunDesk(users, requests).rows[j], user, athlete)
    ensures RunDesk(users, requests).rows[j].createdAt - RunDesk(users, requests).rows[i].createdAt > CACHE_TTL
  {
    if requests != [] {
      var before, last := requests[..|requests| - 1], requests[|requests| - 1];
      var earlier, rows := RunDesk(users, before).rows, RunDesk(users, requests).rows;
      if j < |earlier| {
        AnalystRowsAreSpaced(users, before, user, athlete, i, j);
      } else {
        RunRowsBy(users, before, At(last));
        AnalystRowsHaveOutput(users, before);
        NewRowIsSpaced(RunDesk(users, before), last, user, athlete, i);
      }
    }
  }

  /* ---- the quota ---- */

  /** The rows of a user in the closed day starting at `from`. */
  ghost function InDay(rows: seq<Interaction>, user: UserId, from: Instant): nat {
    if rows == [] then 0
    else
      var row := rows[|rows| - 1];
      InDay(rows[..|rows| - 1], user, from) + if row.userId == user && from <= row.createdAt <= from + DAY then 1 else 0
  }

  lemma {:induction false} DayWithinRecent(rows: seq<Interaction>, user: UserId, from: Instant, since: Instant)
    requires since <= from
    ensures InDay(rows, user, from) <= RecentCount(rows, user, since)
  {
    if rows != [] {
      DayWithinRecent(rows[..|rows| - 1], user, from, since);
    }
  }

  /** A row let in under `limit` leaves every day that holds it within `limit`. */
  lemma RowKeepsQuota(rows: seq<Interaction>, row: Interaction, user: UserId, limit: nat, bound: nat, from: Instant)
    requires row.userId == user ==> WithinQuota(rows, user, limit, row.createdAt) && limit <= bound
    requires InDay(rows, user, from) <= bound
    ensures InDay(rows + [row], user, from) <= bound
  {
    assert (rows + [row])[..|rows|] == rows;
    if row.userId == user && from <= row.createdAt <= from + DAY {
      DayWithinRecent(rows, user, from, row.createdAt - DAY);
    }
  }

  /** What a user's requests were allowed, whatever the subscription was at the time. */
  ghost predicate LimitNeverAbove(users: set<UserId>, requests: seq<Request>, user: UserId, bound: nat) {
    forall k :: 0 <= k < |requests| && !requests[k].Billing? && requests[k].user == user ==>
      StatusAt(RunDesk(users, requests[..k]).tables, user, At(requests[k])).aiDailyLimit <= bound
  }

  lemma {:induction false} QuotaHolds(
    users: set<UserId>, requests: seq<Request>, user: UserId, bound: nat, from: Instant)
    requires LimitNeverAbove(users, requests, user, bound)
    ensures InDay(RunDesk(users, requests).rows, user, from) <= bound
  {
    if requests != [] {
      var before, last := requests[..|requests| - 1], requests[|requests| - 1];
      assert requests[..|before|] == before;
      forall k | 0 <= k < |before| ensures requests[..k] == before[..k] && requests[k] == before[k] {
      }
      QuotaHolds(users, before, user, bound, from);
      var d, d' := RunDesk(users, before), RunDesk(users, requests);
      if d'.rows != d.rows {
        RowKeepsQuota(
          d.rows, d'.rows[|d.rows|], user, StatusAt(d.tables, last.user, At(last)).aiDailyLimit, bound, from);
      }
    }
  }

  /** No user ever has more than one hundred interactions in any closed 24 hours. */
  lemma DailyQuota(users: set<UserId>, requests: seq<Request>, user: UserId, from: Instant)
    ensures InDay(RunDesk(users, requests).rows, user, from) <= PRO_AI_DAILY_LIMIT
  {
    QuotaHolds(users, requests, user, PRO_AI_DAILY_LIMIT, from);
  }

  ghost predicate Paid(t: Tables, user: UserId) {
    exists id :: id in t.payments && t.payments[id].userId == user
  }

  lemma StepKeepsUnpaid(d: Desk, r: Request, user: UserId)
    requires !Paid(Served(d, r).tables, user)
    requires !Paid(d.tables, user) ==> user !in d.tables.entitlements
    ensures !Paid(d.tables, user) && user !in Served(d, r).tables.entitlements
  {
    var t, t' := d.tables, Served(d, r).tables;
    forall id | id in t.payments ensures id in t'.payments && t'.payments[id] == t.payments[id] {
    }
    if r.Billing? && r.e.Deliver? && PaymentOutcome(t, r.e.eventId, r.e.user, r.e.planCode).Created? {
      assert r.e.eventId in t'.payments && t'.payments[r.e.eventId].userId == r.e.user;
    }
  }

  lemma {:induction false} UnpaidHasNoRow(users: set<UserId>, requests: seq<Request>, user: UserId)
    requires !Paid(RunDesk(users, requests).tables, user)
    ensures forall k :: 0 <= k <= |requests| ==> user !in RunDesk(users, requests[..k]).tables.entitlements
  {
    if requests != [] {
      var before := requests[..|requests| - 1];
      var d := RunDesk(users, before);
      if !Paid(d.tables, user) {
        UnpaidHasNoRow(users, before, user);
        assert before[..|before|] == before;
      }
      StepKeepsUnpaid(d, requests[|requests| - 1], user);
      forall k | 0 <= k <= |requests| ensures user !in RunDesk(users, requests[..k]).tables.entitlements {
        if k < |requests| {
          assert requests[..k] == before[..k];
        } else {
          assert requests[..k] == requests;
        }
      }
    } else {
      assert requests[..0] == [];
    }
  }

  /** A user with no recorded payment never has more than twenty. */
  lemma FreeDailyQuota(users: set<UserId>, requests: seq<Request>, user: UserId, from: Instant)
    requires !Paid(RunDesk(users, requests).tables, user)
    ensures InDay(RunDesk(users, requests).rows, user, from) <= FREE_AI_DAILY_LIMIT
  {
    UnpaidHasNoRow(users, requests, user);
    QuotaHolds(users, requests, user, FREE_AI_DAILY_LIMIT, from);
  }
}
