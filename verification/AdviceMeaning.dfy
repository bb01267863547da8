/** What the advice desk answers: the quota in requests a day, the cache in minutes, and when a row is added. */
module AdviceMeaning {
  import opened Options
  import opened BillingModel
  import opened Advice

  /** The user's rows of the last 24 hours, counted from the oldest. */
  function DayCount(rows: seq<Interaction>, user: UserId, now: Instant): nat {
    if rows == [] then 0
    else
      DayCount(rows[1..], user, now)
      + if rows[0].userId == user && rows[0].createdAt >= now - 24 * 60 * 60 * 1_000_000 then 1 else 0
  }

  lemma {:induction false} DayCountLast(rows: seq<Interaction>, last: Interaction, user: UserId, now: Instant)
    ensures DayCount(rows + [last], user, now)
         == DayCount(rows, user, now)
            + if last.userId == user && last.createdAt >= now - 24 * 60 * 60 * 1_000_000 then 1 else 0
  {
    if rows == [] {
      assert ([last])[1..] == [];
    } else {
      assert (rows + [last])[1..] == rows[1..] + [last];
      DayCountLast(rows[1..], last, user, now);
    }
  }

  lemma {:induction false} CountsTheDay(rows: seq<Interaction>, user: UserId, now: Instant)
    ensures RecentCount(rows, user, now - DAY) == DayCount(rows, user, now)
  {
    if rows != [] {
      var t, last := rows[..|rows| - 1], rows[|rows| - 1];
      CountsTheDay(t, user, now);
      DayCountLast(t, last, user, now);
      assert rows == t + [last];
    }
  }

  /** A hundred requests a day for a PRO user, twenty for any other. */
  function Allowance(t: Tables, user: UserId, now: Instant): nat {
    if StatusAt(t, user, now).plan == Pro then 100 else 20
  }

  lemma AllowanceIsLimit(t: Tables, user: UserId, now: Instant)
    ensures StatusAt(t, user, now).aiDailyLimit == Allowance(t, user, now)
  {
  }

  /** An explanation of the athlete given to the user in the last five minutes. */
  predicate Fresh(row: Interaction, user: UserId, athlete: string, now: Instant) {
    && row.userId == user && row.feature == Analista && row.promptKey == "analista.spiegazione_giocatore"
    && row.input == athlete && row.createdAt >= now - 5 * 60 * 1_000_000
  }

  lemma FreshIsMatching(row: Interaction, user: UserId, athlete: string, now: Instant)
    ensures Fresh(row, user, athlete, now)
       <==> Matches(row, user, Analista, PROMPT_KEY, athlete) && row.createdAt >= now - CACHE_TTL
  {
  }

  /** The quota comes first: a user is refused exactly when the day's requests reach his allowance, cached or not. */
  lemma RefusedExactly(d: Desk, user: UserId, athlete: string, advice: Option<string>, now: Instant)
    ensures ExplainAnswer(d, user, athlete, advice, now) == QuotaExceeded
       <==> DayCount(d.rows, user, now) >= Allowance(d.tables, user, now)
  {
    CountsTheDay(d.rows, user, now);
    AllowanceIsLimit(d.tables, user, now);
  }

  /** Within his allowance he gets the newest explanation of the last five minutes, if there is one. */
  lemma CachedExactly(d: Desk, user: UserId, athlete: string, advice: Option<string>, now: Instant)
    requires DayCount(d.rows, user, now) < Allowance(d.tables, user, now)
    requires forall row :: row in d.rows && row.feature == Analista ==> row.output.Some?
    ensures var answer := ExplainAnswer(d, user, athlete, advice, now);
      && (answer.FromCache? <==> exists row :: row in d.rows && Fresh(row, user, athlete, now))
      && (answer.FromCache? ==> answer.row in d.rows && Fresh(answer.row, user, athlete, now))
      && (answer.FromCache? ==>
            forall row :: row in d.rows && Fresh(row, user, athlete, now) ==> row.createdAt <= answer.row.createdAt)
      && (!answer.FromCache? ==>
            answer == if advice.None? then NotFound
                      else Computed(Interaction(user, Analista, "analista.spiegazione_giocatore", athlete, advice, now)))
  {
    RefusedExactly(d, user, athlete, advice, now);
    CachedIsNewest(d.rows, user, Analista, PROMPT_KEY, athlete, now);
    forall row ensures Fresh(row, user, athlete, now)
      <==> Matches(row, user, Analista, PROMPT_KEY, athlete) && row.createdAt >= now - CACHE_TTL
    {
      FreshIsMatching(row, user, athlete, now);
    }
  }

  /** A row is added exactly when an explanation was worked out, and it is that one; entitlements are only read. */
  lemma ExplainRecords(d: Desk, user: UserId, athlete: string, advice: Option<string>, now: Instant)
    ensures var answer, after := ExplainAnswer(d, user, athlete, advice, now), Served(d, Explain(user, athlete, advice, now));
      && after.rows == (if answer.Computed? then d.rows + [answer.row] else d.rows)
      && after.tables == AfterRead(d.tables, user, now)
  {
  }

  /** Any other advice is recorded exactly when it records at all and the allowance is not used up. */
  lemma SuggestRecords(
    d: Desk, user: UserId, feature: Suggester, key: string, input: string, output: Option<string>, records: bool,
    now: Instant)
    ensures Served(d, Suggest(user, feature, key, input, output, records, now)).rows
         == if records && DayCount(d.rows, user, now) < Allowance(d.tables, user, now)
            then d.rows + [Interaction(user, feature, key, input, output, now)] else d.rows
  {
    CountsTheDay(d.rows, user, now);
    AllowanceIsLimit(d.tables, user, now);
  }
}
