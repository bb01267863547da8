/** What a GO asserts about the pilot, indicator by indicator. */
module PilotMeaning {
  import opened Options
  import opened Sequences
  import opened PilotGate

  /** The one row about an indicator, for a league or all of them, with a note if one is asked for. */
  predicate OnlyRow(rows: seq<Row>, i: nat, kpiId: string, alias: string, note: Option<string>) {
    && i < |rows| && Tells(rows[i], kpiId, alias, note)
    && forall j :: 0 <= j < |rows| && j != i ==> !Tells(rows[j], kpiId, alias, note)
  }

  predicate Tells(row: Row, kpiId: string, alias: string, note: Option<string>) {
    row.kpiId == kpiId && row.leagueAlias == alias && (note == None || note == Some(row.notesRedacted))
  }

  /** The only row about it gives a number from `low` to `high`. */
  ghost predicate Ranges(rows: seq<Row>, kpiId: string, alias: string, low: real, high: real) {
    exists i: nat :: OnlyRow(rows, i, kpiId, alias, None) && rows[i].value.Finite? && low <= rows[i].value.r <= high
  }

  /** The only row about it reaches `low`; a value that is no number does not. */
  ghost predicate Reaches(rows: seq<Row>, kpiId: string, alias: string, note: Option<string>, low: real) {
    exists i: nat :: OnlyRow(rows, i, kpiId, alias, note)
      && (rows[i].value.PosInf? || (rows[i].value.Finite? && low <= rows[i].value.r))
  }

  ghost predicate StaysWithin(rows: seq<Row>, kpiId: string, high: real) {
    exists i: nat :: OnlyRow(rows, i, kpiId, "ALL", None)
      && (rows[i].value.NegInf? || (rows[i].value.Finite? && rows[i].value.r <= high))
  }

  ghost predicate Equals(rows: seq<Row>, kpiId: string, note: Option<string>, r: real) {
    exists i: nat :: OnlyRow(rows, i, kpiId, "ALL", note) && rows[i].value == Finite(r)
  }

  ghost predicate NotApplied(rows: seq<Row>, kpiId: string) {
    exists i: nat :: OnlyRow(rows, i, kpiId, "ALL", None) && rows[i].status == "not_applicable"
  }

  /* ---- one row ---- */

  lemma {:induction false} SelectNone(rows: seq<Row>, q: Query)
    requires forall j :: 0 <= j < |rows| ==> !Hits(q)(rows[j])
    ensures Select(rows, q) == []
  {
    KeepNone(Hits(q), rows);
  }

  lemma OnlyIsSelected(rows: seq<Row>, q: Query, i: nat)
    requires OnlyRow(rows, i, q.kpiId, q.leagueAlias, q.note)
    ensures Select(rows, q) == [rows[i]] && One(rows, q) == rows[i]
  {
    assert forall row :: Hits(q)(row) <==> Tells(row, q.kpiId, q.leagueAlias, q.note);
    assert rows == rows[..i] + [rows[i]] + rows[i + 1..];
    KeepAppend(Hits(q), rows[..i] + [rows[i]], rows[i + 1..]);
    KeepAppend(Hits(q), rows[..i], [rows[i]]);
    SelectNone(rows[..i], q);
    SelectNone(rows[i + 1..], q);
    assert Keep(Hits(q), [rows[i]]) == [rows[i]];
  }

  lemma SelectedIsOnly(rows: seq<Row>, q: Query) returns (i: nat)
    requires |Select(rows, q)| == 1
    ensures OnlyRow(rows, i, q.kpiId, q.leagueAlias, q.note) && rows[i] == One(rows, q)
  {
    assert forall row :: Hits(q)(row) <==> Tells(row, q.kpiId, q.leagueAlias, q.note);
    KeepIn(Hits(q), rows);
    assert Select(rows, q)[0] in Select(rows, q);
    i :| 0 <= i < |rows| && rows[i] == Select(rows, q)[0];
    forall j | 0 <= j < |rows| && j != i ensures !Hits(q)(rows[j]) {
      if Hits(q)(rows[j]) {
        SelectWithout(rows, i, q);
        var rest, k := Without(rows, i), if j < i then j else j - 1;
        assert rest[k] == rows[j];
        SelectWithout(rest, k, q);
      }
    }
  }

  /** What a check asks of the only row it is about. */
  ghost predicate Meets(rows: seq<Row>, c: Check) {
    exists i: nat :: OnlyRow(rows, i, c.query.kpiId, c.query.leagueAlias, c.query.note) && Satisfies(rows[i], c.rule)
  }

  lemma HoldsExactly(rows: seq<Row>, c: Check)
    ensures Holds(rows, c) <==> Meets(rows, c)
  {
    if Holds(rows, c) {
      var i := SelectedIsOnly(rows, c.query);
      assert Satisfies(rows[i], c.rule);
    }
    if i: nat :| OnlyRow(rows, i, c.query.kpiId, c.query.leagueAlias, c.query.note) && Satisfies(rows[i], c.rule) {
      OnlyIsSelected(rows, c.query, i);
    }
  }

  /* ---- the evidence of a GO ---- */

  /** Three to five leagues for four weeks or more. */
  ghost predicate PilotRan(rows: seq<Row>) {
    Ranges(rows, "ACTIVE_LEAGUES", "ALL", 3.0, 5.0) && Reaches(rows, "PILOT_DURATION_DAYS", "ALL", None, 28.0)
  }

  /** Six to twelve participants, four weeks, four rounds and four fifths of the critical flows. */
  ghost predicate LeagueRan(rows: seq<Row>, alias: string) {
    && Ranges(rows, "ACTIVE_PARTICIPANTS", alias, 6.0, 12.0)
    && Reaches(rows, "PILOT_DURATION_DAYS", alias, None, 28.0)
    && Reaches(rows, "COMPLETED_ROUNDS", alias, None, 4.0)
    && Reaches(rows, "CRITICAL_FLOW_COMPLETION", alias, None, 0.8)
  }

  /** Flows, support, incidents, capacity, recovery and the participants' verdict. */
  ghost predicate PilotServed(rows: seq<Row>) {
    && Reaches(rows, "CRITICAL_FLOW_COMPLETION", "ALL", None, 0.9)
    && Equals(rows, "CRITICAL_FLOW_BLOCKERS_OPEN", None, 0.0)
    && Reaches(rows, "SUPPORT_ACK_WITHIN_TARGET", "ALL", Some("priority-all"), 0.9)
    && Equals(rows, "SUPPORT_ACK_WITHIN_TARGET", Some("priority-p0-p1"), 1.0)
    && Equals(rows, "P0_INCIDENTS", None, 0.0)
    && Equals(rows, "P1_OPEN_AT_GATE", None, 0.0)
    && Equals(rows, "SECURITY_HIGH_CRITICAL", None, 0.0)
    && Equals(rows, "CAPACITY_RUN_PASS", Some("full-within-30-days"), 1.0)
    && Equals(rows, "CAPACITY_RUN_PASS", Some("smoke-within-7-days"), 1.0)
    && Equals(rows, "CAPACITY_RUN_PASS", Some("required-runs"), 1.0)
    && StaysWithin(rows, "BACKUP_MAX_INTERVAL_HOURS", 24.0)
    && StaysWithin(rows, "DR_DRILL_RESTORE_MINUTES", 30.0)
    && NotApplied(rows, "ACTUAL_RECOVERY_RPO_HOURS")
    && NotApplied(rows, "ACTUAL_RECOVERY_RTO_MINUTES")
    && Reaches(rows, "QUALITATIVE_SCORE", "ALL", None, 4.0)
    && Reaches(rows, "RECOMMENDATION_INTENT", "ALL", None, 0.8)
  }

  lemma RangesMeets(rows: seq<Row>, kpiId: string, alias: string, low: real, high: real)
    ensures Ranges(rows, kpiId, alias, low, high) <==> Meets(rows, Check(Query(kpiId, alias, None), Between(low, high)))
  {
  }

  lemma ReachesMeets(rows: seq<Row>, kpiId: string, alias: string, note: Option<string>, low: real)
    ensures Reaches(rows, kpiId, alias, note, low) <==> Meets(rows, Check(Query(kpiId, alias, note), AtLeast(low)))
  {
  }

  lemma StaysMeets(rows: seq<Row>, kpiId: string, high: real)
    ensures StaysWithin(rows, kpiId, high) <==> Meets(rows, Check(Query(kpiId, "ALL", None), AtMost(high)))
  {
  }

  lemma EqualsMeets(rows: seq<Row>, kpiId: string, note: Option<string>, r: real)
    ensures Equals(rows, kpiId, note, r) <==> Meets(rows, Check(Query(kpiId, "ALL", note), Exactly(r)))
  {
  }

  lemma NotAppliedMeets(rows: seq<Row>, kpiId: string)
    ensures NotApplied(rows, kpiId) <==> Meets(rows, Check(Query(kpiId, "ALL", None), NotApplicable))
  {
  }

  lemma OpeningMeans(rows: seq<Row>)
    ensures (forall i :: 0 <= i < |OPENING| ==> Holds(rows, OPENING[i])) <==> PilotRan(rows)
  {
    HoldsExactly(rows, OPENING[0]);
    HoldsExactly(rows, OPENING[1]);
    RangesMeets(rows, "ACTIVE_LEAGUES", "ALL", 3.0, 5.0);
    ReachesMeets(rows, "PILOT_DURATION_DAYS", "ALL", None, 28.0);
  }

  lemma LeagueMeans(rows: seq<Row>, alias: string)
    ensures (forall k :: 0 <= k < |PER_LEAGUE| ==> Holds(rows, LeagueCheck(k, alias))) <==> LeagueRan(rows, alias)
  {
    HoldsExactly(rows, LeagueCheck(0, alias));
    HoldsExactly(rows, LeagueCheck(1, alias));
    HoldsExactly(rows, LeagueCheck(2, alias));
    HoldsExactly(rows, LeagueCheck(3, alias));
    RangesMeets(rows, "ACTIVE_PARTICIPANTS", alias, 6.0, 12.0);
    ReachesMeets(rows, "PILOT_DURATION_DAYS", alias, None, 28.0);
    ReachesMeets(rows, "COMPLETED_ROUNDS", alias, None, 4.0);
    ReachesMeets(rows, "CRITICAL_FLOW_COMPLETION", alias, None, 0.8);
  }

  /** The closing checks, one by one. */
  ghost predicate ClosingHolds(rows: seq<Row>) {
    && Holds(rows, CLOSING[0]) && Holds(rows, CLOSING[1]) && Holds(rows, CLOSING[2]) && Holds(rows, CLOSING[3])
    && Holds(rows, CLOSING[4]) && Holds(rows, CLOSING[5]) && Holds(rows, CLOSING[6]) && Holds(rows, CLOSING[7])
    && Holds(rows, CLOSING[8]) && Holds(rows, CLOSING[9]) && Holds(rows, CLOSING[10]) && Holds(rows, CLOSING[11])
    && Holds(rows, CLOSING[12]) && Holds(rows, CLOSING[13]) && Holds(rows, CLOSING[14]) && Holds(rows, CLOSING[15])
  }

  lemma SixteenClosing(rows: seq<Row>)
    ensures (forall i :: 0 <= i < |CLOSING| ==> Holds(rows, CLOSING[i])) <==> ClosingHolds(rows)
  {
    assert |CLOSING| == 16;
  }

  lemma FlowsMean(rows: seq<Row>)
    ensures Holds(rows, CLOSING[0]) <==> Reaches(rows, "CRITICAL_FLOW_COMPLETION", "ALL", None, 0.9)
    ensures Holds(rows, CLOSING[1]) <==> Equals(rows, "CRITICAL_FLOW_BLOCKERS_OPEN", None, 0.0)
    ensures Holds(rows, CLOSING[2]) <==> Reaches(rows, "SUPPORT_ACK_WITHIN_TARGET", "ALL", Some("priority-all"), 0.9)
    ensures Holds(rows, CLOSING[3]) <==> Equals(rows, "SUPPORT_ACK_WITHIN_TARGET", Some("priority-p0-p1"), 1.0)
  {
    HoldsExactly(rows, CLOSING[0]);
    HoldsExactly(rows, CLOSING[1]);
    HoldsExactly(rows, CLOSING[2]);
    HoldsExactly(rows, CLOSING[3]);
    ReachesMeets(rows, "CRITICAL_FLOW_COMPLETION", "ALL", None, 0.9);
    EqualsMeets(rows, "CRITICAL_FLOW_BLOCKERS_OPEN", None, 0.0);
    ReachesMeets(rows, "SUPPORT_ACK_WITHIN_TARGET", "ALL", Some("priority-all"), 0.9);
    EqualsMeets(rows, "SUPPORT_ACK_WITHIN_TARGET", Some("priority-p0-p1"), 1.0);
  }

  lemma IncidentsMean(rows: seq<Row>)
    ensures Holds(rows, CLOSING[4]) <==> Equals(rows, "P0_INCIDENTS", None, 0.0)
    ensures Holds(rows, CLOSING[5]) <==> Equals(rows, "P1_OPEN_AT_GATE", None, 0.0)
    ensures Holds(rows, CLOSING[6]) <==> Equals(rows, "SECURITY_HIGH_CRITICAL", None, 0.0)
  {
    HoldsExactly(rows, CLOSING[4]);
    HoldsExactly(rows, CLOSING[5]);
    HoldsExactly(rows, CLOSING[6]);
    EqualsMeets(rows, "P0_INCIDENTS", None, 0.0);
    EqualsMeets(rows, "P1_OPEN_AT_GATE", None, 0.0);
    EqualsMeets(rows, "SECURITY_HIGH_CRITICAL", None, 0.0);
  }

  lemma CapacityMeans(rows: seq<Row>)
    ensures Holds(rows, CLOSING[7]) <==> Equals(rows, "CAPACITY_RUN_PASS", Some("full-within-30-days"), 1.0)
    ensures Holds(rows, CLOSING[8]) <==> Equals(rows, "CAPACITY_RUN_PASS", Some("smoke-within-7-days"), 1.0)
    ensures Holds(rows, CLOSING[9]) <==> Equals(rows, "CAPACITY_RUN_PASS", Some("required-runs"), 1.0)
  {
    HoldsExactly(rows, CLOSING[7]);
    HoldsExactly(rows, CLOSING[8]);
    HoldsExactly(rows, CLOSING[9]);
    EqualsMeets(rows, "CAPACITY_RUN_PASS", Some("full-within-30-days"), 1.0);
    EqualsMeets(rows, "CAPACITY_RUN_PASS", Some("smoke-within-7-days"), 1.0);
    EqualsMeets(rows, "CAPACITY_RUN_PASS", Some("required-runs"), 1.0);
  }

  lemma RecoveryMeans(rows: seq<Row>)
    ensures Holds(rows, CLOSING[10]) <==> StaysWithin(rows, "BACKUP_MAX_INTERVAL_HOURS", 24.0)
    ensures Holds(rows, CLOSING[11]) <==> StaysWithin(rows, "DR_DRILL_RESTORE_MINUTES", 30.0)
    ensures Holds(rows, CLOSING[12]) <==> NotApplied(rows, "ACTUAL_RECOVERY_RPO_HOURS")
    ensures Holds(rows, CLOSING[13]) <==> NotApplied(rows, "ACTUAL_RECOVERY_RTO_MINUTES")
  {
    HoldsExactly(rows, CLOSING[10]);
    HoldsExactly(rows, CLOSING[11]);
    HoldsExactly(rows, CLOSING[12]);
    HoldsExactly(rows, CLOSING[13]);
    StaysMeets(rows, "BACKUP_MAX_INTERVAL_HOURS", 24.0);
    StaysMeets(rows, "DR_DRILL_RESTORE_MINUTES", 30.0);
    NotAppliedMeets(rows, "ACTUAL_RECOVERY_RPO_HOURS");
    NotAppliedMeets(rows, "ACTUAL_RECOVERY_RTO_MINUTES");
  }

  lemma VerdictsMean(rows: seq<Row>)
    ensures Holds(rows, CLOSING[14]) <==> Reaches(rows, "QUALITATIVE_SCORE", "ALL", None, 4.0)
    ensures Holds(rows, CLOSING[15]) <==> Reaches(rows, "RECOMMENDATION_INTENT", "ALL", None, 0.8)
  {
    HoldsExactly(rows, CLOSING[14]);
    HoldsExactly(rows, CLOSING[15]);
    ReachesMeets(rows, "QUALITATIVE_SCORE", "ALL", None, 4.0);
    ReachesMeets(rows, "RECOMMENDATION_INTENT", "ALL", None, 0.8);
  }

  lemma ClosingMeans(rows: seq<Row>)
    ensures (forall i :: 0 <= i < |CLOSING| ==> Holds(rows, CLOSING[i])) <==> PilotServed(rows)
  {
    SixteenClosing(rows);
    FlowsMean(rows);
    IncidentsMean(rows);
    CapacityMeans(rows);
    RecoveryMeans(rows);
    VerdictsMean(rows);
  }

  /* ---- leagues and participants ---- */

  /** The number of active leagues, rounded down, is the number of leagues with a row of rounds. */
  ghost predicate LeaguesMatch(rows: seq<Row>, leagues: nat) {
    exists i: nat :: OnlyRow(rows, i, "ACTIVE_LEAGUES", "ALL", None) && rows[i].value.Finite?
      && leagues as real <= rows[i].value.r < leagues as real + 1.0
  }

  function SumOf(counts: seq<real>): real {
    if counts == [] then 0.0 else counts[0] + SumOf(counts[1..])
  }

  /** One count for each league, as its only row gives it. */
  ghost predicate Counted(rows: seq<Row>, aliases: seq<string>, counts: seq<real>) {
    && |counts| == |aliases|
    && forall k :: 0 <= k < |aliases| ==> CountIs(rows, aliases[k], counts[k])
  }

  ghost predicate CountIs(rows: seq<Row>, alias: string, count: real) {
    exists i: nat :: OnlyRow(rows, i, "ACTIVE_PARTICIPANTS", alias, None) && rows[i].value == Finite(count)
  }

  /** The participants of the leagues add up to those of the pilot. */
  ghost predicate ParticipantsMatch(rows: seq<Row>, aliases: seq<string>) {
    exists counts :: Counted(rows, aliases, counts) && CountIs(rows, "ALL", SumOf(counts))
  }

  lemma {:induction false} SumLast(counts: seq<real>, last: real)
    ensures SumOf(counts + [last]) == SumOf(counts) + last
  {
    if counts == [] {
      assert [last][1..] == [];
    } else {
      assert (counts + [last])[1..] == counts[1..] + [last];
      SumLast(counts[1..], last);
    }
  }

  lemma CountFound(rows: seq<Row>, alias: string, count: real)
    requires CountIs(rows, alias, count)
    ensures |Select(rows, Query("ACTIVE_PARTICIPANTS", alias, None))| == 1
    ensures One(rows, Query("ACTIVE_PARTICIPANTS", alias, None)).value == Finite(count)
  {
    var i: nat :| OnlyRow(rows, i, "ACTIVE_PARTICIPANTS", alias, None) && rows[i].value == Finite(count);
    OnlyIsSelected(rows, Query("ACTIVE_PARTICIPANTS", alias, None), i);
  }

  lemma CountGiven(rows: seq<Row>, alias: string, count: real)
    requires |Select(rows, Query("ACTIVE_PARTICIPANTS", alias, None))| == 1
    requires One(rows, Query("ACTIVE_PARTICIPANTS", alias, None)).value == Finite(count)
    ensures CountIs(rows, alias, count)
  {
    var i := SelectedIsOnly(rows, Query("ACTIVE_PARTICIPANTS", alias, None));
  }

  lemma {:induction false} CountsAddUp(rows: seq<Row>, aliases: seq<string>, counts: seq<real>)
    requires Counted(rows, aliases, counts)
    ensures ParticipantSum(rows, aliases) == Finite(SumOf(counts))
  {
    if aliases != [] {
      var n := |aliases| - 1;
      CountsAddUp(rows, aliases[..n], counts[..n]);
      CountFound(rows, aliases[n], counts[n]);
      SumLast(counts[..n], counts[n]);
      assert counts == counts[..n] + [counts[n]];
    }
  }

  lemma {:induction false} CountsOfLeagues(rows: seq<Row>, aliases: seq<string>) returns (counts: seq<real>)
    requires forall k :: 0 <= k < |aliases| ==> LeagueRan(rows, aliases[k])
    ensures Counted(rows, aliases, counts)
  {
    counts := [];
    if aliases != [] {
      var n := |aliases| - 1;
      counts := CountsOfLeagues(rows, aliases[..n]);
      var i: nat :| OnlyRow(rows, i, "ACTIVE_PARTICIPANTS", aliases[n], None) && rows[i].value.Finite?
                    && 6.0 <= rows[i].value.r <= 12.0;
      assert CountIs(rows, aliases[n], rows[i].value.r);
      counts := counts + [rows[i].value.r];
    }
  }

  lemma ParticipantsExactly(rows: seq<Row>, aliases: seq<string>)
    requires forall k :: 0 <= k < |aliases| ==> LeagueRan(rows, aliases[k])
    ensures ParticipantsMatch(rows, aliases)
       <==> |Select(rows, PARTICIPANTS)| == 1 && NumEquals(One(rows, PARTICIPANTS).value, ParticipantSum(rows, aliases))
  {
    var counts := CountsOfLeagues(rows, aliases);
    CountsAddUp(rows, aliases, counts);
    if |Select(rows, PARTICIPANTS)| == 1 && NumEquals(One(rows, PARTICIPANTS).value, ParticipantSum(rows, aliases)) {
      CountGiven(rows, "ALL", SumOf(counts));
    }
    if more :| Counted(rows, aliases, more) && CountIs(rows, "ALL", SumOf(more)) {
      CountsAddUp(rows, aliases, more);
      CountFound(rows, "ALL", SumOf(more));
    }
  }

  lemma LeaguesExactly(rows: seq<Row>, leagues: nat)
    requires PilotRan(rows)
    ensures One(rows, ACTIVE).value.Finite?
    ensures LeaguesMatch(rows, leagues) <==> leagues == Truncate(Rational(One(rows, ACTIVE).value))
  {
    var i: nat :| OnlyRow(rows, i, "ACTIVE_LEAGUES", "ALL", None) && rows[i].value.Finite? && 3.0 <= rows[i].value.r <= 5.0;
    OnlyIsSelected(rows, ACTIVE, i);
    assert forall j: nat :: OnlyRow(rows, j, "ACTIVE_LEAGUES", "ALL", None) ==> j == i;
  }

  /** The leagues with a row of completed rounds, each once. */
  ghost predicate ListsLeagues(aliases: seq<string>, rows: seq<Row>) {
    && (forall alias :: alias in aliases
          <==> exists i :: 0 <= i < |rows| && rows[i].kpiId == "COMPLETED_ROUNDS" && rows[i].leagueAlias == alias)
    && forall i, j :: 0 <= i < j < |aliases| ==> aliases[i] != aliases[j]
  }

  lemma ListsExactly(aliases: seq<string>, rows: seq<Row>)
    ensures Lists(aliases, Aliases(rows)) <==> ListsLeagues(aliases, rows)
  {
    forall alias
      ensures alias in Aliases(rows)
         <==> exists i :: 0 <= i < |rows| && rows[i].kpiId == "COMPLETED_ROUNDS" && rows[i].leagueAlias == alias
    {
      if i :| 0 <= i < |rows| && rows[i].kpiId == "COMPLETED_ROUNDS" && rows[i].leagueAlias == alias {
        assert rows[i] in rows;
      }
    }
  }

  /** What the pilot must show, for its leagues as listed. */
  ghost predicate Evidence(rows: seq<Row>, aliases: seq<string>) {
    && PilotRan(rows) && LeaguesMatch(rows, |aliases|)
    && (forall k :: 0 <= k < |aliases| ==> LeagueRan(rows, aliases[k]))
    && ParticipantsMatch(rows, aliases)
    && PilotServed(rows)
  }

  lemma LeaguesRan(rows: seq<Row>, aliases: seq<string>)
    requires Lists(aliases, Aliases(rows))
    ensures EveryLeagueHolds(rows) <==> forall k :: 0 <= k < |aliases| ==> LeagueRan(rows, aliases[k])
  {
    LeaguesCovered(rows, aliases);
    forall j | 0 <= j < |aliases|
      ensures (forall k :: 0 <= k < |PER_LEAGUE| ==> Holds(rows, LeagueCheck(k, aliases[j]))) <==> LeagueRan(rows, aliases[j])
    {
      LeagueMeans(rows, aliases[j]);
    }
  }

  /** The figures the gate compares. */
  ghost predicate FiguresAgree(rows: seq<Row>, aliases: seq<string>) {
    |aliases| == Truncate(Rational(One(rows, ACTIVE).value)) && |Select(rows, PARTICIPANTS)| == 1
    && NumEquals(One(rows, PARTICIPANTS).value, ParticipantSum(rows, aliases))
  }

  lemma CountsAgree(rows: seq<Row>, aliases: seq<string>)
    requires PilotRan(rows) && forall k :: 0 <= k < |aliases| ==> LeagueRan(rows, aliases[k])
    ensures One(rows, ACTIVE).value.Finite?
    ensures LeaguesMatch(rows, |aliases|) && ParticipantsMatch(rows, aliases) <==> FiguresAgree(rows, aliases)
  {
    LeaguesExactly(rows, |aliases|);
    ParticipantsExactly(rows, aliases);
  }

  lemma GoExactly(rows: seq<Row>, aliases: seq<string>)
    requires Lists(aliases, Aliases(rows))
    ensures Go(rows, aliases)
       <==> PilotRan(rows) && FiguresAgree(rows, aliases)
            && (forall k :: 0 <= k < |aliases| ==> LeagueRan(rows, aliases[k])) && PilotServed(rows)
  {
    OpeningMeans(rows);
    ClosingMeans(rows);
    LeaguesRan(rows, aliases);
  }

  /** The gate says GO exactly on the evidence: every indicator there once, in its range, and the counts in agreement. */
  lemma GoRestsOnEvidence(rows: seq<Row>, aliases: seq<string>)
    requires ListsLeagues(aliases, rows)
    ensures One(rows, ACTIVE).value.Finite? && Go(rows, aliases) <==> Evidence(rows, aliases)
  {
    ListsExactly(aliases, rows);
    GoExactly(rows, aliases);
    if PilotRan(rows) && forall k :: 0 <= k < |aliases| ==> LeagueRan(rows, aliases[k]) {
      CountsAgree(rows, aliases);
    }
  }
}
