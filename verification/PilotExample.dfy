/** A register the gate judges GO, and the one deletion that makes its evaluation raise. */
module PilotExample {
  import opened Sequences
  import opened PilotGate

  /** A value that meets a rule, at its edge. */
  function Edge(rule: Rule): Num {
    match rule
    case Between(low, _) => Finite(low)
    case AtLeast(low) => Finite(low)
    case AtMost(high) => Finite(high)
    case Exactly(r) => Finite(r)
    case _ => NaN
  }

  /** The row a check looks for, just good enough. */
  function RowFor(c: Check): Row {
    Row(
      c.query.leagueAlias, c.query.kpiId, Edge(c.rule), "not_applicable",
      if c.query.note.Some? then c.query.note.value else "")
  }

  function RowsFor(checks: seq<Check>): seq<Row> {
    MapSeq((c: Check) => RowFor(c), checks)
  }

  function LeagueChecks(alias: string): seq<Check> {
    seq(|PER_LEAGUE|, k requires 0 <= k < |PER_LEAGUE| => LeagueCheck(k, alias))
  }

  const TOTALS: seq<Check> := OPENING + [Check(PARTICIPANTS, Exactly(18.0))] + CLOSING
  const LEAGUES: seq<string> := ["A", "B", "C"]
  const CHECKS: seq<Check> := TOTALS + LeagueChecks("A") + LeagueChecks("B") + LeagueChecks("C")
  const REGISTER: seq<Row> := RowsFor(CHECKS)

  /* ---- one row for each check ---- */

  predicate Meetable(rule: Rule) {
    rule.Between? ==> rule.low <= rule.high
  }

  /** Only its own row answers each query. */
  ghost predicate Separate(checks: seq<Check>) {
    forall i, j :: 0 <= i < |checks| && 0 <= j < |checks| && i != j ==> !Hits(checks[i].query)(RowFor(checks[j]))
  }

  lemma OwnRow(checks: seq<Check>, i: nat)
    requires i < |checks| && Separate(checks)
    ensures Select(RowsFor(checks), checks[i].query) == [RowFor(checks[i])]
  {
    var rows, q := RowsFor(checks), checks[i].query;
    assert rows == rows[..i] + [rows[i]] + rows[i + 1..];
    KeepAppend(Hits(q), rows[..i] + [rows[i]], rows[i + 1..]);
    KeepAppend(Hits(q), rows[..i], [rows[i]]);
    KeepNone(Hits(q), rows[..i]);
    KeepNone(Hits(q), rows[i + 1..]);
    assert Keep(Hits(q), [rows[i]]) == [rows[i]];
  }

  lemma OwnRowHolds(checks: seq<Check>, i: nat)
    requires i < |checks| && Separate(checks) && Meetable(checks[i].rule)
    ensures Holds(RowsFor(checks), checks[i])
  {
    OwnRow(checks, i);
  }

  /* ---- telling the queries apart ---- */

  /** A number that tells texts of different lengths or first letters apart. */
  function Mark(s: string): nat {
    if s == "" then 0 else 1000 * |s| + s[0] as nat
  }

  /** The marks of indicator and note. */
  function Marks(q: Query): (nat, nat) {
    (Mark(q.kpiId), if q.note.Some? then Mark(q.note.value) else 0)
  }

  const TOTAL_MARKS: seq<(nat, nat)> := [
    (14065, 0), (19080, 0), (19065, 0), (24067, 0), (27067, 0), (25083, 12112), (25083, 14112), (12080, 0),
    (15080, 0), (22083, 0), (17067, 19102), (17067, 19115), (17067, 13114), (25066, 0), (24068, 0),
    (25065, 0), (27065, 0), (17081, 0), (21082, 0)]

  const LEAGUE_MARKS: seq<nat> := [19065, 19080, 16067, 24067]

  predicate Apart(p: (nat, nat), q: (nat, nat)) {
    p.0 != q.0 || (p.1 != 0 && p.1 != q.1)
  }

  /** Queries whose marks are apart do not find each other's rows. */
  lemma MarksTell(c: Check, d: Check)
    requires Apart(Marks(c.query), Marks(d.query))
    ensures !Hits(c.query)(RowFor(d))
  {
  }

  lemma OpeningMarks(i: nat)
    requires i < 3
    ensures Marks(TOTALS[i].query) == TOTAL_MARKS[i] && TOTALS[i].query.leagueAlias == "ALL"
  {
  }

  lemma ClosingMarks(i: nat)
    requires i < |CLOSING|
    ensures Marks(CLOSING[i].query) == TOTAL_MARKS[i + 3] && CLOSING[i].query.leagueAlias == "ALL"
  {
  }

  lemma TotalMarks(i: nat)
    requires i < |TOTALS|
    ensures |TOTALS| == |TOTAL_MARKS| == 19
    ensures Marks(TOTALS[i].query) == TOTAL_MARKS[i] && TOTALS[i].query.leagueAlias == "ALL"
  {
    if i < 3 {
      OpeningMarks(i);
    } else {
      ClosingMarks(i - 3);
    }
  }

  lemma TotalMarksApart(i: nat, j: nat)
    requires i < |TOTAL_MARKS| && j < |TOTAL_MARKS| && i != j
    ensures Apart(TOTAL_MARKS[i], TOTAL_MARKS[j])
  {
  }

  lemma LeagueMarks(k: nat)
    requires k < |PER_LEAGUE|
    ensures Mark(PER_LEAGUE[k].0) == LEAGUE_MARKS[k]
  {
  }

  /* ---- every check finds its own row ---- */

  lemma TotalsSeparate()
    ensures Separate(TOTALS)
  {
    forall i, j | 0 <= i < |TOTALS| && 0 <= j < |TOTALS| && i != j
      ensures !Hits(TOTALS[i].query)(RowFor(TOTALS[j]))
    {
      TotalMarks(i);
      TotalMarks(j);
      TotalMarksApart(i, j);
      MarksTell(TOTALS[i], TOTALS[j]);
    }
  }

  lemma LeagueSeparate(alias: string)
    ensures Separate(LeagueChecks(alias))
  {
    var checks := LeagueChecks(alias);
    forall i, j | 0 <= i < |checks| && 0 <= j < |checks| && i != j
      ensures !Hits(checks[i].query)(RowFor(checks[j]))
    {
      LeagueMarks(i);
      LeagueMarks(j);
      assert LEAGUE_MARKS[i] != LEAGUE_MARKS[j];
      MarksTell(checks[i], checks[j]);
    }
  }

  /** Checks of one more league stay separate from the rest. */
  lemma OneMoreLeague(checks: seq<Check>, alias: string)
    requires Separate(checks) && forall i :: 0 <= i < |checks| ==> checks[i].query.leagueAlias != alias
    ensures Separate(checks + LeagueChecks(alias))
  {
    LeagueSeparate(alias);
  }

  lemma ChecksSeparate()
    ensures Separate(CHECKS)
  {
    TotalsSeparate();
    forall i | 0 <= i < |TOTALS| ensures TOTALS[i].query.leagueAlias == "ALL" {
      TotalMarks(i);
    }
    assert "ALL" != "A" && "ALL" != "B" && "ALL" != "C" by {
      assert |"ALL"| == 3;
    }
    assert "A"[0] == 'A' && "B"[0] == 'B' && "C"[0] == 'C';
    OneMoreLeague(TOTALS, "A");
    OneMoreLeague(TOTALS + LeagueChecks("A"), "B");
    OneMoreLeague(TOTALS + LeagueChecks("A") + LeagueChecks("B"), "C");
  }

  lemma CheckHolds(c: Check)
    requires c in CHECKS && Meetable(c.rule)
    ensures Holds(REGISTER, c) && One(REGISTER, c.query) == RowFor(c)
  {
    ChecksSeparate();
    var i :| 0 <= i < |CHECKS| && CHECKS[i] == c;
    OwnRow(CHECKS, i);
    OwnRowHolds(CHECKS, i);
  }

  lemma LeagueHolds(alias: string, k: nat)
    requires alias in LEAGUES && k < |PER_LEAGUE|
    ensures Holds(REGISTER, LeagueCheck(k, alias))
    ensures One(REGISTER, LeagueCheck(k, alias).query) == RowFor(LeagueCheck(k, alias))
  {
    assert LeagueChecks(alias)[k] in LeagueChecks(alias);
    CheckHolds(LeagueCheck(k, alias));
  }

  lemma TotalHolds(i: nat)
    requires i < |TOTALS| && Meetable(TOTALS[i].rule)
    ensures Holds(REGISTER, TOTALS[i]) && One(REGISTER, TOTALS[i].query) == RowFor(TOTALS[i])
  {
    assert TOTALS[i] in TOTALS;
    CheckHolds(TOTALS[i]);
  }

  /* ---- the leagues of the register ---- */

  lemma NoTotalRounds(i: nat)
    requires i < |TOTALS|
    ensures TOTALS[i].query.kpiId != "COMPLETED_ROUNDS"
  {
    TotalMarks(i);
    LeagueMarks(2);
    assert TOTAL_MARKS[i].0 != 16067;
  }

  lemma RegisterRow(row: Row)
    requires row in REGISTER && row.kpiId == "COMPLETED_ROUNDS"
    ensures row.leagueAlias in LEAGUES
  {
    var i :| 0 <= i < |CHECKS| && RowFor(CHECKS[i]) == row;
    if i < |TOTALS| {
      NoTotalRounds(i);
    }
  }

  lemma RegisterLeagues()
    ensures Lists(LEAGUES, Aliases(REGISTER))
  {
    assert "A"[0] == 'A' && "B"[0] == 'B' && "C"[0] == 'C';
    forall alias | alias in LEAGUES ensures alias in Aliases(REGISTER) {
      LeagueHolds(alias, 2);
      var row := One(REGISTER, LeagueCheck(2, alias).query);
      KeepIn(Hits(LeagueCheck(2, alias).query), REGISTER);
      assert row in Select(REGISTER, LeagueCheck(2, alias).query);
      assert row.kpiId == "COMPLETED_ROUNDS" && row.leagueAlias == alias;
    }
    forall alias | alias in Aliases(REGISTER) ensures alias in LEAGUES {
      var row :| row in REGISTER && row.kpiId == "COMPLETED_ROUNDS" && row.leagueAlias == alias;
      RegisterRow(row);
    }
  }

  lemma RegisterSum()
    ensures ParticipantSum(REGISTER, LEAGUES) == Finite(18.0)
  {
    LeagueHolds("A", 0);
    LeagueHolds("B", 0);
    LeagueHolds("C", 0);
    assert LEAGUES[..2] == ["A", "B"] && ["A", "B"][..1] == ["A"] && ["A"][..0] == [];
    assert ParticipantSum(REGISTER, ["A"]) == Finite(6.0);
    assert ParticipantSum(REGISTER, ["A", "B"]) == Finite(12.0);
  }

  lemma OpeningHolds(i: nat)
    requires i < |OPENING|
    ensures Holds(REGISTER, OPENING[i])
  {
    TotalHolds(i);
    assert TOTALS[i] == OPENING[i];
  }

  lemma ClosingHolds(i: nat)
    requires i < |CLOSING|
    ensures Holds(REGISTER, CLOSING[i])
  {
    assert TOTALS[i + 3] == CLOSING[i];
    TotalHolds(i + 3);
  }

  lemma TotalsAgree()
    ensures One(REGISTER, ACTIVE).value == Finite(3.0)
    ensures |Select(REGISTER, PARTICIPANTS)| == 1 && One(REGISTER, PARTICIPANTS).value == Finite(18.0)
  {
    TotalHolds(0);
    TotalHolds(2);
  }

  lemma RegisterGoes()
    ensures Go(REGISTER, LEAGUES)
  {
    RegisterLeagues();
    RegisterSum();
    TotalsAgree();
    forall i | 0 <= i < |OPENING| ensures Holds(REGISTER, OPENING[i]) {
      OpeningHolds(i);
    }
    forall i | 0 <= i < |CLOSING| ensures Holds(REGISTER, CLOSING[i]) {
      ClosingHolds(i);
    }
    forall alias, k | alias in Aliases(REGISTER) && 0 <= k < |PER_LEAGUE| ensures Holds(REGISTER, LeagueCheck(k, alias)) {
      LeagueHolds(alias, k);
    }
  }

  /** There is a register the gate judges GO. */
  lemma RegisterIsGo()
    ensures JudgedGo(REGISTER) && ConsultedRow(REGISTER, REGISTER[0])
  {
    RegisterLeagues();
    RegisterGoes();
    TotalsAgree();
    ActiveConsulted(REGISTER);
    assert Hits(ACTIVE)(REGISTER[0]);
  }

  /** Without its count of active leagues its evaluation raises; without its next row it is merely not GO. */
  lemma RegisterCrash()
    ensures !One(Without(REGISTER, 0), ACTIVE).value.Finite?
    ensures One(Without(REGISTER, 1), ACTIVE).value.Finite? && !JudgedGo(Without(REGISTER, 1))
  {
    RegisterIsGo();
    assert Hits(ACTIVE)(REGISTER[0]);
    DeletionCrashesExactly(REGISTER, 0);
    assert OPENING[1].query == All("PILOT_DURATION_DAYS") && Hits(OPENING[1].query)(REGISTER[1]);
    assert Consults(REGISTER, OPENING[1].query);
    DeletionIsNotGo(REGISTER, 1);
    DeletionCrashesExactly(REGISTER, 1);
    assert REGISTER[1].kpiId != ACTIVE.kpiId by {
      OpeningMarks(0);
      OpeningMarks(1);
    }
  }
}
