/** A roster whose plan puts an injured athlete on the active bench before eligible ones. */
module LineupExample {
  import opened Options
  import opened Sequences
  import opened LineupModel
  import opened LineupPlans
  import LineupBench
  import LineupIndependence

  /** Thirteen defenders without signals or appearances, and an injured one with five appearances. */
  const ROSTER: seq<CandidateInput> :=
    seq(13, i requires 0 <= i => CandidateInput(i + 1, D, false, None, None, 0, true, false))
    + [CandidateInput(14, D, true, None, None, 5, true, false)]

  const MODULE_343: seq<(FantasyRole, nat)> := [(P, 1), (D, 3), (C, 4), (A, 3)]

  const HURT := ScoredCandidate(14, D, 0.0, [], Some(Injured))

  lemma RosterFacts()
    ensures DistinctCandidates(ROSTER) && |ScoredAll(ROSTER)| == 14 && ScoredAll(ROSTER)[13] == HURT
    ensures forall i :: 0 <= i < 13 ==> ScoredAll(ROSTER)[i].excludedReason.None?
    ensures forall x :: x in ScoredAll(ROSTER) ==>
      x.role == D && x.score == 0.0 && (x != HURT ==> x.excludedReason.None? && x.athleteId <= 13)
  {
  }

  lemma RosterAppearances(x: ScoredCandidate)
    requires x in ScoredAll(ROSTER)
    ensures Appearances(ById(ROSTER), x.athleteId) == if x == HURT then 5 else 0
  {
    RosterFacts();
    LineupIndependence.ByIdHolds(ROSTER);
    var i :| 0 <= i < |ROSTER| && ScoredAll(ROSTER)[i] == x;
    assert ROSTER[i] in ROSTER;
  }

  lemma DefenderSlots()
    ensures Slots(MODULE_343, D) == 3
  {
    assert MODULE_343[..3] == [(P, 1), (D, 3), (C, 4)] && [(P, 1), (D, 3), (C, 4)][..2] == [(P, 1), (D, 3)];
    assert [(P, 1), (D, 3)][..1] == [(P, 1)] && [(P, 1)][..0] == [];
    assert Slots([(P, 1), (D, 3)], D) == 3;
  }

  lemma ThreeStart()
    ensures |StartersOf(ROSTER, MODULE_343)| == 3
  {
    var starters, scored := StartersOf(ROSTER, MODULE_343), ScoredAll(ROSTER);
    RosterFacts();
    DefenderSlots();
    StarterCountByRole(ROSTER, MODULE_343, D);
    assert scored == scored[..13] + [scored[13]];
    KeepAppend(IsOpen(), scored[..13], [scored[13]]);
    KeepAll(IsOpen(), scored[..13]);
    KeepNone(IsOpen(), [scored[13]]);
    KeepAll(HasRole(D), scored[..13]);
    RosterSplit(ROSTER, MODULE_343);
    SameItems(starters + RemainingOf(ROSTER, MODULE_343), scored);
    forall x | x in starters ensures x.role == D {
      assert x in starters + RemainingOf(ROSTER, MODULE_343);
    }
    KeepAll(HasRole(D), starters);
  }

  lemma ElevenRemain()
    ensures var pool := RemainingOf(ROSTER, MODULE_343);
      && |pool| == 11 && HURT in pool && DistinctIds(pool)
      && forall x :: x in pool ==> x in ScoredAll(ROSTER)
  {
    var starters, pool, scored := StartersOf(ROSTER, MODULE_343), RemainingOf(ROSTER, MODULE_343), ScoredAll(ROSTER);
    RosterFacts();
    ThreeStart();
    RosterSplit(ROSTER, MODULE_343);
    RemainingDistinct(ROSTER, MODULE_343);
    SameItems(starters + pool, scored);
    forall x | x in pool ensures x in scored {
      assert x in starters + pool;
    }
    ExcludedNeverStart(ROSTER, MODULE_343, 13);
    assert scored[13] in scored;
    assert HURT in starters + pool;
  }

  /** In a ranked list of the roster the injured one stands first. */
  lemma InjuredRanksFirst(s: seq<ScoredCandidate>)
    requires HURT in s && SortedBy(s, ByScore(ById(ROSTER))) && forall x :: x in s ==> x in ScoredAll(ROSTER)
    ensures s[0] == HURT
  {
    RosterFacts();
    RosterAppearances(HURT);
    var i :| 0 <= i < |s| && s[i] == HURT;
    assert s[0] in s;
    RosterAppearances(s[0]);
    assert i > 0 ==> ByScore(ById(ROSTER))(s[0], s[i]);
  }

  /** The bench is the ranked list of defenders, the injured one first. */
  lemma InjuredLeadsTheBench()
    ensures var pool, bench := RemainingOf(ROSTER, MODULE_343), BenchOf(ROSTER, MODULE_343);
      && bench == RoleOrder(pool, D, ById(ROSTER)) && |bench| == 11 && bench[0] == HURT
      && forall i :: 0 < i < 11 ==> bench[i] in pool && bench[i].excludedReason.None? && bench[i].athleteId <= 13
  {
    var pool, byId := RemainingOf(ROSTER, MODULE_343), ById(ROSTER);
    var bench, s := BenchOf(ROSTER, MODULE_343), RoleOrder(RemainingOf(ROSTER, MODULE_343), D, ById(ROSTER));
    RosterFacts();
    ElevenRemain();
    LineupBench.DefaultRequiredFacts(pool);
    LineupBench.BenchByRole(pool, DefaultRequired(pool), BENCH_ACTIVE_SIZE, D, byId);
    BenchArrangesRemaining(ROSTER, MODULE_343);
    SameItems(bench, pool);
    KeepAll(HasRole(D), bench);
    LineupBench.RoleOrderFacts(pool, D, byId);
    InjuredRanksFirst(s);
    forall j | 0 < j < 11 ensures bench[j] in pool && bench[j] != HURT {
      assert bench[j] in bench && bench[j].athleteId != bench[0].athleteId;
    }
  }

  /** The active bench is the first ten of it. */
  lemma TenAreActive()
    ensures var pool := RemainingOf(ROSTER, MODULE_343);
      var bench := BenchOf(ROSTER, MODULE_343);
      |bench| == 11 && ActiveBench(pool, DefaultRequired(pool), BENCH_ACTIVE_SIZE, ById(ROSTER)) == bench[..10]
  {
    var pool, byId := RemainingOf(ROSTER, MODULE_343), ById(ROSTER);
    ElevenRemain();
    InjuredLeadsTheBench();
    LineupBench.DefaultRequiredFacts(pool);
    LineupBench.DefaultFits(pool, byId);
    LineupBench.ActiveLength(pool, DefaultRequired(pool), BENCH_ACTIVE_SIZE, byId);
  }

  lemma EleventhIsOut()
    ensures var bench := BenchOf(ROSTER, MODULE_343);
      |bench| == 11 && bench[10] !in bench[..10] && bench[10].role == D
  {
    var pool, bench := RemainingOf(ROSTER, MODULE_343), BenchOf(ROSTER, MODULE_343);
    ElevenRemain();
    InjuredLeadsTheBench();
    LineupBench.RoleOrderFacts(pool, D, ById(ROSTER));
    assert bench[10] in bench;
  }

  /**
   * With the default quota and size, the injured athlete leads the active bench while an eligible
   * one of his role is left eleventh, outside it.
   */
  lemma PlanBreaksExcludedRule(decidedAt: int)
    ensures var pool, bench := RemainingOf(ROSTER, MODULE_343), Plan(ROSTER, MODULE_343, decidedAt, None).bench;
      && !LineupBench.ExcludedOnlyWhenNeeded(pool, DefaultRequired(pool), BENCH_ACTIVE_SIZE, ById(ROSTER))
      && |bench| == BENCH_ACTIVE_SIZE + 1 && bench[0] == HURT.athleteId && bench[10] <= 13
  {
    var pool, bench := RemainingOf(ROSTER, MODULE_343), BenchOf(ROSTER, MODULE_343);
    InjuredLeadsTheBench();
    TenAreActive();
    EleventhIsOut();
    assert bench[..10][0] == HURT;
    LineupBench.InsideAndOutside(pool, DefaultRequired(pool), BENCH_ACTIVE_SIZE, ById(ROSTER), HURT, bench[10]);
  }
}
