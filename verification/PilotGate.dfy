/**
 * The synthetic GO / NO-GO gate over a pilot register. A missing or repeated row is
 * an error; the number of leagues is cast to an integer, which raises when it is not
 * a finite number.
 */
module PilotGate {
  import opened Options
  import opened Sequences

  /** A floating-point cell; anything unreadable is not a number. */
  datatype Num = NaN | Finite(r: real) | PosInf | NegInf

  datatype Row = Row(leagueAlias: string, kpiId: string, value: Num, status: string, notesRedacted: string)

  const BLANK := Row("", "", NaN, "", "")

  datatype Query = Query(kpiId: string, leagueAlias: string, note: Option<string>)

  datatype Rule =
    | Between(low: real, high: real) | AtLeast(low: real) | AtMost(high: real) | Exactly(r: real)
    | NotApplicable | Anything

  datatype Check = Check(query: Query, rule: Rule)

  datatype Fault =
    | Expected(query: Query, found: nat)
    | Unmet(check: Check)
    | LeagueCountMismatch
    | ParticipantsMismatch

  datatype Verdict = Crashed | Judged(errors: seq<Fault>) {
    predicate IsGo() {
      Judged? && errors == []
    }
  }

  predicate NumAtLeast(x: Num, low: real) {
    x.PosInf? || (x.Finite? && x.r >= low)
  }

  predicate NumAtMost(x: Num, high: real) {
    x.NegInf? || (x.Finite? && x.r <= high)
  }

  /** Floating-point equality: not a number equals nothing, itself included. */
  predicate NumEquals(x: Num, y: Num) {
    x == y && !x.NaN?
  }

  function Plus(x: Num, y: Num): Num {
    if x.NaN? || y.NaN? then NaN
    else if x.Finite? && y.Finite? then Finite(x.r + y.r)
    else if x.Finite? then y
    else if y.Finite? || x == y then x
    else NaN
  }

  /** Truncation toward zero. */
  function Truncate(r: real): int {
    if r >= 0.0 then r.Floor else -((-r).Floor)
  }

  predicate Satisfies(row: Row, rule: Rule) {
    match rule
    case Between(low, high) => NumAtLeast(row.value, low) && NumAtMost(row.value, high)
    case AtLeast(low) => NumAtLeast(row.value, low)
    case AtMost(high) => NumAtMost(row.value, high)
    case Exactly(r) => NumEquals(row.value, Finite(r))
    case NotApplicable => row.status == "not_applicable"
    case Anything => true
  }

  function All(kpiId: string): Query {
    Query(kpiId, "ALL", None)
  }

  function Noted(kpiId: string, note: string): Query {
    Query(kpiId, "ALL", Some(note))
  }

  const ACTIVE := All("ACTIVE_LEAGUES")
  const PARTICIPANTS := All("ACTIVE_PARTICIPANTS")

  /** The checks before the leagues are counted. */
  const OPENING: seq<Check> := [
    Check(ACTIVE, Between(3.0, 5.0)),
    Check(All("PILOT_DURATION_DAYS"), AtLeast(28.0))]

  /** The checks made for each league. */
  const PER_LEAGUE: seq<(string, Rule)> := [
    ("ACTIVE_PARTICIPANTS", Between(6.0, 12.0)),
    ("PILOT_DURATION_DAYS", AtLeast(28.0)),
    ("COMPLETED_ROUNDS", AtLeast(4.0)),
    ("CRITICAL_FLOW_COMPLETION", AtLeast(0.8))]

  /** The checks after the leagues. */
  const CLOSING: seq<Check> := [
    Check(All("CRITICAL_FLOW_COMPLETION"), AtLeast(0.9)),
    Check(All("CRITICAL_FLOW_BLOCKERS_OPEN"), Exactly(0.0)),
    Check(Noted("SUPPORT_ACK_WITHIN_TARGET", "priority-all"), AtLeast(0.9)),
    Check(Noted("SUPPORT_ACK_WITHIN_TARGET", "priority-p0-p1"), Exactly(1.0)),
    Check(All("P0_INCIDENTS"), Exactly(0.0)),
    Check(All("P1_OPEN_AT_GATE"), Exactly(0.0)),
    Check(All("SECURITY_HIGH_CRITICAL"), Exactly(0.0)),
    Check(Noted("CAPACITY_RUN_PASS", "full-within-30-days"), Exactly(1.0)),
    Check(Noted("CAPACITY_RUN_PASS", "smoke-within-7-days"), Exactly(1.0)),
    Check(Noted("CAPACITY_RUN_PASS", "required-runs"), Exactly(1.0)),
    Check(All("BACKUP_MAX_INTERVAL_HOURS"), AtMost(24.0)),
    Check(All("DR_DRILL_RESTORE_MINUTES"), AtMost(30.0)),
    Check(All("ACTUAL_RECOVERY_RPO_HOURS"), NotApplicable),
    Check(All("ACTUAL_RECOVERY_RTO_MINUTES"), NotApplicable),
    Check(All("QUALITATIVE_SCORE"), AtLeast(4.0)),
    Check(All("RECOMMENDATION_INTENT"), AtLeast(0.8))]

  function Hits(q: Query): Row -> bool {
    (row: Row) => row.kpiId == q.kpiId && row.leagueAlias == q.leagueAlias
      && (q.note.None? || row.notesRedacted == q.note.value)
  }

  function Select(rows: seq<Row>, q: Query): seq<Row> {
    Keep(Hits(q), rows)
  }

  /** The one row a query finds, or a blank row. */
  function One(rows: seq<Row>, q: Query): Row {
    if |Select(rows, q)| == 1 then Select(rows, q)[0] else BLANK
  }

  predicate Holds(rows: seq<Row>, c: Check) {
    |Select(rows, c.query)| == 1 && Satisfies(One(rows, c.query), c.rule)
  }

  /** The leagues of a register: every alias with a completed-rounds row. */
  function Aliases(rows: seq<Row>): set<string> {
    set row | row in rows && row.kpiId == "COMPLETED_ROUNDS" :: row.leagueAlias
  }

  function LeagueCheck(k: nat, alias: string): Check
    requires k < |PER_LEAGUE|
  {
    Check(Query(PER_LEAGUE[k].0, alias, None), PER_LEAGUE[k].1)
  }

  /** The participants of the listed leagues, added up. */
  function ParticipantSum(rows: seq<Row>, aliases: seq<string>): Num {
    if aliases == [] then Finite(0.0)
    else
      Plus(ParticipantSum(rows, aliases[..|aliases| - 1]),
           One(rows, Query("ACTIVE_PARTICIPANTS", aliases[|aliases| - 1], None)).value)
  }

  /* ---- the gate ---- */

  method FindOne(rows: seq<Row>, q: Query, errors: seq<Fault>) returns (row: Row, after: seq<Fault>)
    ensures row == One(rows, q)
    ensures after == if |Select(rows, q)| == 1 then errors else errors + [Expected(q, |Select(rows, q)|)]
  {
    var matches := Keep(Hits(q), rows);
    if |matches| != 1 {
      return BLANK, errors + [Expected(q, |matches|)];
    }
    return matches[0], errors;
  }

  method Require(c: Check, row: Row, errors: seq<Fault>) returns (after: seq<Fault>)
    ensures errors <= after && |after| == |errors| + if Satisfies(row, c.rule) then 0 else 1
    ensures !Satisfies(row, c.rule) ==> after[|errors|] == Unmet(c)
    ensures after == [] <==> errors == [] && Satisfies(row, c.rule)
  {
    after := if Satisfies(row, c.rule) then errors else errors + [Unmet(c)];
  }

  method CheckAll(rows: seq<Row>, checks: seq<Check>, errors: seq<Fault>) returns (after: seq<Fault>)
    ensures after == [] <==> errors == [] && forall i :: 0 <= i < |checks| ==> Holds(rows, checks[i])
  {
    after := errors;
    for k := 0 to |checks|
      invariant after == [] <==> errors == [] && forall i :: 0 <= i < k ==> Holds(rows, checks[i])
    {
      var row;
      row, after := FindOne(rows, checks[k].query, after);
      after := Require(checks[k], row, after);
    }
  }

  method CheckLeague(rows: seq<Row>, alias: string, errors: seq<Fault>) returns (after: seq<Fault>)
    ensures after == [] <==> errors == [] && forall k :: 0 <= k < |PER_LEAGUE| ==> Holds(rows, LeagueCheck(k, alias))
  {
    after := errors;
    for k := 0 to |PER_LEAGUE|
      invariant after == [] <==> errors == [] && forall i :: 0 <= i < k ==> Holds(rows, LeagueCheck(i, alias))
    {
      var row;
      row, after := FindOne(rows, LeagueCheck(k, alias).query, after);
      after := Require(LeagueCheck(k, alias), row, after);
    }
  }

  ghost predicate Lists(aliases: seq<string>, leagues: set<string>) {
    && (forall alias :: alias in aliases <==> alias in leagues)
    && forall i, j :: 0 <= i < j < |aliases| ==> aliases[i] != aliases[j]
  }

  method ListAliases(rows: seq<Row>) returns (aliases: seq<string>)
    ensures Lists(aliases, Aliases(rows))
  {
    aliases := [];
    for i := 0 to |rows|
      invariant Lists(aliases, Aliases(rows[..i]))
    {
      assert rows[..i + 1] == rows[..i] + [rows[i]];
      if rows[i].kpiId == "COMPLETED_ROUNDS" {
        assert Aliases(rows[..i + 1]) == Aliases(rows[..i]) + {rows[i].leagueAlias};
        if rows[i].leagueAlias !in aliases {
          aliases := aliases + [rows[i].leagueAlias];
        }
      } else {
        assert Aliases(rows[..i + 1]) == Aliases(rows[..i]);
      }
    }
    assert rows[..|rows|] == rows;
  }

  ghost predicate EveryLeagueHolds(rows: seq<Row>) {
    forall alias, k :: alias in Aliases(rows) && 0 <= k < |PER_LEAGUE| ==> Holds(rows, LeagueCheck(k, alias))
  }

  /** What GO means, for a listing of the leagues. */
  ghost predicate Go(rows: seq<Row>, aliases: seq<string>) {
    && (forall i :: 0 <= i < |OPENING| ==> Holds(rows, OPENING[i]))
    && |aliases| == Truncate(Rational(One(rows, ACTIVE).value))
    && |Select(rows, PARTICIPANTS)| == 1
    && EveryLeagueHolds(rows)
    && NumEquals(One(rows, PARTICIPANTS).value, ParticipantSum(rows, aliases))
    && (forall i :: 0 <= i < |CLOSING| ==> Holds(rows, CLOSING[i]))
  }

  function Rational(x: Num): real {
    if x.Finite? then x.r else 0.0
  }

  method EvaluateSyntheticGate(rows: seq<Row>) returns (verdict: Verdict, ghost aliases: seq<string>)
    ensures Lists(aliases, Aliases(rows))
    ensures verdict.Crashed? <==> !One(rows, ACTIVE).value.Finite?
    ensures verdict.IsGo() <==> One(rows, ACTIVE).value.Finite? && Go(rows, aliases)
  {
    var leagues := ListAliases(rows);
    aliases := leagues;
    var errors := CheckAll(rows, OPENING, []);
    var active := One(rows, ACTIVE).value;
    if !active.Finite? {
      return Crashed, aliases;
    }
    if |leagues| != Truncate(active.r) {
      errors := errors + [LeagueCountMismatch];
    }
    var total;
    total, errors := FindOne(rows, PARTICIPANTS, errors);
    ghost var before := errors;
    var sum := Finite(0.0);
    for i := 0 to |leagues|
      invariant sum == ParticipantSum(rows, leagues[..i])
      invariant errors == [] <==>
        before == [] && forall j, k :: 0 <= j < i && 0 <= k < |PER_LEAGUE| ==> Holds(rows, LeagueCheck(k, leagues[j]))
    {
      assert leagues[..i + 1][..i] == leagues[..i];
      errors := CheckLeague(rows, leagues[i], errors);
      sum := Plus(sum, One(rows, Query("ACTIVE_PARTICIPANTS", leagues[i], None)).value);
    }
    assert leagues[..|leagues|] == leagues;
    LeaguesCovered(rows, leagues);
    if !NumEquals(total.value, sum) {
      errors := errors + [ParticipantsMismatch];
    }
    errors := CheckAll(rows, CLOSING, errors);
    verdict := Judged(errors);
  }

  lemma LeaguesCovered(rows: seq<Row>, leagues: seq<string>)
    requires Lists(leagues, Aliases(rows))
    ensures EveryLeagueHolds(rows) <==>
      forall j, k :: 0 <= j < |leagues| && 0 <= k < |PER_LEAGUE| ==> Holds(rows, LeagueCheck(k, leagues[j]))
  {
  }

  /* ---- what a GO rests on ---- */

  /** The queries the gate makes of a register. */
  ghost predicate Consults(rows: seq<Row>, q: Query) {
    || (exists i :: 0 <= i < |OPENING| && OPENING[i].query == q)
    || (exists i :: 0 <= i < |CLOSING| && CLOSING[i].query == q)
    || q == PARTICIPANTS
    || exists alias, k :: alias in Aliases(rows) && 0 <= k < |PER_LEAGUE| && LeagueCheck(k, alias).query == q
  }

  ghost predicate ConsultedRow(rows: seq<Row>, row: Row) {
    exists q :: Consults(rows, q) && Hits(q)(row)
  }

  /** The gate's answer, for some listing of the leagues. */
  ghost predicate JudgedGo(rows: seq<Row>) {
    One(rows, ACTIVE).value.Finite? && exists aliases :: Lists(aliases, Aliases(rows)) && Go(rows, aliases)
  }

  lemma GoFindsOne(rows: seq<Row>, aliases: seq<string>, q: Query)
    requires Lists(aliases, Aliases(rows)) && Go(rows, aliases) && Consults(rows, q)
    ensures |Select(rows, q)| == 1
  {
  }

  function Without(rows: seq<Row>, i: nat): seq<Row>
    requires i < |rows|
  {
    rows[..i] + rows[i + 1..]
  }

  lemma SelectWithout(rows: seq<Row>, i: nat, q: Query)
    requires i < |rows|
    ensures |Select(rows, q)| == |Select(Without(rows, i), q)| + if Hits(q)(rows[i]) then 1 else 0
    ensures !Hits(q)(rows[i]) ==> Select(rows, q) == Select(Without(rows, i), q)
  {
    assert rows == rows[..i] + [rows[i]] + rows[i + 1..];
    KeepAppend(Hits(q), rows[..i] + [rows[i]], rows[i + 1..]);
    KeepAppend(Hits(q), rows[..i], [rows[i]]);
    KeepAppend(Hits(q), rows[..i], rows[i + 1..]);
    assert Keep(Hits(q), [rows[i]]) == if Hits(q)(rows[i]) then [rows[i]] else [];
  }

  lemma AliasesWithout(rows: seq<Row>, i: nat)
    requires i < |rows|
    ensures Aliases(Without(rows, i)) <= Aliases(rows)
    ensures rows[i].kpiId != "COMPLETED_ROUNDS" ==> Aliases(Without(rows, i)) == Aliases(rows)
  {
  }

  lemma {:induction false} ListLength(a: seq<string>, b: seq<string>, s: set<string>, t: set<string>)
    requires Lists(a, s) && Lists(b, t) && s <= t
    ensures |a| <= |b|
    ensures |a| == |b| ==> s == t
  {
    ListCardinality(a, s);
    ListCardinality(b, t);
    SubsetCardinality(s, t);
  }

  lemma {:induction false} ListCardinality(a: seq<string>, s: set<string>)
    requires Lists(a, s)
    ensures |s| == |a|
  {
    if a == [] {
      assert s == {};
    } else {
      var t, x := a[..|a| - 1], a[|a| - 1];
      assert a == t + [x];
      assert x in a;
      forall y ensures y in t <==> y in s - {x} {
        if y in t {
          assert y in a;
        }
        if y in s - {x} {
          assert y in a;
        }
      }
      ListCardinality(t, s - {x});
    }
  }

  lemma SubsetCardinality(s: set<string>, t: set<string>)
    requires s <= t
    ensures |s| <= |t|
    ensures |s| == |t| ==> s == t
  {
    assert t == s + (t - s);
    assert |t| == |s| + |t - s|;
  }

  lemma ActiveConsulted(rows: seq<Row>)
    ensures Consults(rows, ACTIVE)
  {
    assert OPENING[0].query == ACTIVE;
  }

  /** Two registers judged GO that differ by one row list the same leagues. */
  lemma SameLeagues(rows: seq<Row>, i: nat, aliases: seq<string>, fewer: seq<string>)
    requires i < |rows| && Lists(aliases, Aliases(rows)) && Go(rows, aliases)
    requires Lists(fewer, Aliases(Without(rows, i))) && Go(Without(rows, i), fewer)
    ensures Aliases(Without(rows, i)) == Aliases(rows)
  {
    AliasesWithout(rows, i);
    ActiveConsulted(rows);
    ActiveConsulted(Without(rows, i));
    GoFindsOne(rows, aliases, ACTIVE);
    GoFindsOne(Without(rows, i), fewer, ACTIVE);
    SelectWithout(rows, i, ACTIVE);
    ListLength(fewer, aliases, Aliases(Without(rows, i)), Aliases(rows));
  }

  lemma ConsultsByAliases(rows: seq<Row>, others: seq<Row>, q: Query)
    requires Aliases(rows) == Aliases(others) && Consults(rows, q)
    ensures Consults(others, q)
  {
  }

  /** Deleting any consulted row of a register judged GO takes the GO away. */
  lemma DeletionIsNotGo(rows: seq<Row>, i: nat)
    requires i < |rows| && JudgedGo(rows) && ConsultedRow(rows, rows[i])
    ensures !JudgedGo(Without(rows, i))
  {
    var rest := Without(rows, i);
    var q :| Consults(rows, q) && Hits(q)(rows[i]);
    var aliases :| Lists(aliases, Aliases(rows)) && Go(rows, aliases);
    GoFindsOne(rows, aliases, q);
    SelectWithout(rows, i, q);
    if JudgedGo(rest) {
      var fewer :| Lists(fewer, Aliases(rest)) && Go(rest, fewer);
      SameLeagues(rows, i, aliases, fewer);
      ConsultsByAliases(rows, rest, q);
      GoFindsOne(rest, fewer, q);
    }
  }

  /** Repeating any consulted row, anywhere in the register, takes the GO away. */
  lemma DuplicationIsNotGo(rows: seq<Row>, i: nat, j: nat)
    requires i < |rows| && j <= |rows| && JudgedGo(rows) && ConsultedRow(rows, rows[i])
    ensures !JudgedGo(rows[..j] + [rows[i]] + rows[j..])
  {
    var more := rows[..j] + [rows[i]] + rows[j..];
    var q :| Consults(rows, q) && Hits(q)(rows[i]);
    var aliases :| Lists(aliases, Aliases(rows)) && Go(rows, aliases);
    GoFindsOne(rows, aliases, q);
    assert Without(more, j) == rows;
    SelectWithout(more, j, q);
    assert Aliases(more) == Aliases(rows) by {
      AliasesRepeat(rows, i, j);
    }
    if JudgedGo(more) {
      var same :| Lists(same, Aliases(more)) && Go(more, same);
      ConsultsByAliases(rows, more, q);
      GoFindsOne(more, same, q);
    }
  }

  lemma AliasesRepeat(rows: seq<Row>, i: nat, j: nat)
    requires i < |rows| && j <= |rows|
    ensures Aliases(rows[..j] + [rows[i]] + rows[j..]) == Aliases(rows)
  {
  }

  /**
   * Which of the two a deletion gives: the evaluation raises exactly when the deleted
   * row is the count of active leagues, and says NO-GO otherwise.
   */
  lemma DeletionCrashesExactly(rows: seq<Row>, i: nat)
    requires i < |rows| && JudgedGo(rows) && ConsultedRow(rows, rows[i])
    ensures !One(Without(rows, i), ACTIVE).value.Finite? <==> Hits(ACTIVE)(rows[i])
  {
    var aliases :| Lists(aliases, Aliases(rows)) && Go(rows, aliases);
    ActiveConsulted(rows);
    GoFindsOne(rows, aliases, ACTIVE);
    SelectWithout(rows, i, ACTIVE);
  }

  /* ---- what a GO says about the pilot ---- */

  lemma LeagueParticipants(rows: seq<Row>, alias: string)
    requires EveryLeagueHolds(rows) && alias in Aliases(rows)
    ensures var x := One(rows, Query("ACTIVE_PARTICIPANTS", alias, None)).value;
      x.Finite? && 6.0 <= x.r <= 12.0
  {
    assert Holds(rows, LeagueCheck(0, alias));
  }

  lemma {:induction false} SumBounds(rows: seq<Row>, aliases: seq<string>)
    requires EveryLeagueHolds(rows) && forall alias :: alias in aliases ==> alias in Aliases(rows)
    ensures var sum := ParticipantSum(rows, aliases);
      sum.Finite? && 6.0 * |aliases| as real <= sum.r <= 12.0 * |aliases| as real
  {
    if aliases != [] {
      var t, x := aliases[..|aliases| - 1], aliases[|aliases| - 1];
      assert x in aliases;
      SumBounds(rows, t);
      LeagueParticipants(rows, x);
    }
  }

  lemma {:induction false} SumAtLeastMember(rows: seq<Row>, aliases: seq<string>, i: nat)
    requires EveryLeagueHolds(rows) && forall alias :: alias in aliases ==> alias in Aliases(rows)
    requires i < |aliases|
    ensures var sum := ParticipantSum(rows, aliases);
      var member := One(rows, Query("ACTIVE_PARTICIPANTS", aliases[i], None)).value;
      && sum.Finite? && member.Finite?
      && sum.r >= member.r + 6.0 * (|aliases| - 1) as real
  {
    var t, x := aliases[..|aliases| - 1], aliases[|aliases| - 1];
    assert x in aliases;
    LeagueParticipants(rows, x);
    if i < |t| {
      SumAtLeastMember(rows, t, i);
      assert t[i] == aliases[i];
    } else {
      SumBounds(rows, t);
    }
  }

  lemma ActiveInRange(rows: seq<Row>, aliases: seq<string>)
    requires Go(rows, aliases)
    ensures 3 <= |aliases| <= 5
  {
    assert Holds(rows, OPENING[0]);
  }

  /** GO means three to five leagues, none of them the aggregate, and 18 to 60 participants that add up. */
  lemma GoMeansPilotSize(rows: seq<Row>, aliases: seq<string>)
    requires Lists(aliases, Aliases(rows)) && Go(rows, aliases)
    ensures 3 <= |aliases| <= 5 && "ALL" !in aliases
    ensures var total := One(rows, PARTICIPANTS).value;
      total.Finite? && 18.0 <= total.r <= 60.0 && total == ParticipantSum(rows, aliases)
  {
    ActiveInRange(rows, aliases);
    SumBounds(rows, aliases);
    assert 18.0 <= 6.0 * |aliases| as real && 12.0 * |aliases| as real <= 60.0;
    if "ALL" in aliases {
      var i :| 0 <= i < |aliases| && aliases[i] == "ALL";
      SumAtLeastMember(rows, aliases, i);
    }
  }
}
