/** What a whole plan guarantees: best starters, nobody lost, no dependence on order or late data. */
module LineupPlans {
  import opened Options
  import opened Sequences
  import opened LineupModel
  import opened LineupSelection
  import LineupBench

  ghost predicate DistinctCandidates(candidates: seq<CandidateInput>) {
    forall i, j :: 0 <= i < j < |candidates| ==> candidates[i].athleteId != candidates[j].athleteId
  }

  lemma ScoredDistinct(candidates: seq<CandidateInput>)
    requires DistinctCandidates(candidates)
    ensures DistinctIds(ScoredAll(candidates))
  {
  }

  lemma EligibleFacts(candidates: seq<CandidateInput>)
    requires DistinctCandidates(candidates)
    ensures var e := EligibleOrder(candidates);
      && DistinctIds(e) && SortedBy(e, ByScore(ById(candidates)))
      && multiset(e) == multiset(Keep(IsOpen(), ScoredAll(candidates)))
      && (forall x :: x in e <==> x in ScoredAll(candidates) && x.excludedReason.None?)
  {
    var open, byId := Keep(IsOpen(), ScoredAll(candidates)), ById(candidates);
    ScoredDistinct(candidates);
    DistinctKeep(IsOpen(), ScoredAll(candidates));
    KeepIn(IsOpen(), ScoredAll(candidates));
    StrictByScore(byId);
    DistinctComparable(open, byId);
    SortSorts(open, ByScore(byId));
    SortPermutation(open, ByScore(byId));
    SameItems(EligibleOrder(candidates), open);
    DistinctPermutation(open, EligibleOrder(candidates));
  }

  /* ---- starters ---- */

  lemma {:induction false} StartersInEligible(eligible: seq<ScoredCandidate>, targets: seq<(FantasyRole, nat)>)
    ensures forall x :: x in Starters(eligible, targets) ==> x in eligible
  {
    if targets != [] {
      var n := |targets| - 1;
      var before := Starters(eligible, targets[..n]);
      StartersInEligible(eligible, targets[..n]);
      KeepIn(FreeWithRole(targets[n].0, IdSet(before)), eligible);
    }
  }

  lemma {:induction false} KeepFreeWithRole(role: FantasyRole, taken: set<Uuid>, s: seq<ScoredCandidate>)
    ensures Keep(FreeWithRole(role, taken), s) == Keep(NotIn(taken), Keep(HasRole(role), s))
  {
    if s != [] {
      var t, x := s[..|s| - 1], s[|s| - 1];
      KeepFreeWithRole(role, taken, t);
      KeepAppend(NotIn(taken), Keep(HasRole(role), t), [x]);
      assert Keep(NotIn(taken), [x]) == if x.athleteId !in taken then [x] else [];
    }
  }

  lemma TopAdds(s: seq<ScoredCandidate>, m: nat, k: nat)
    ensures Top(s, m) + Top(s[|Top(s, m)|..], k) == Top(s, m + k)
  {
  }

  /** What a target adds: the next `k` of its role, after those already taken. */
  lemma PicksAreNext(
    eligible: seq<ScoredCandidate>, before: seq<ScoredCandidate>, role: FantasyRole, m: nat, k: nat)
    requires DistinctIds(eligible) && forall x :: x in before ==> x in eligible
    requires Keep(HasRole(role), before) == Top(Keep(HasRole(role), eligible), m)
    ensures var group := Keep(HasRole(role), eligible);
      Picks(eligible, before, (role, k)) == Top(group[|Top(group, m)|..], k)
    ensures forall x :: x in Picks(eligible, before, (role, k)) ==> x.role == role
  {
    var group := Keep(HasRole(role), eligible);
    var n := |Top(group, m)|;
    DistinctKeep(HasRole(role), eligible);
    KeepIn(HasRole(role), eligible);
    assert Top(group, m) == group[..n];
    PrefixMembership(before, eligible, role, group, n);
    KeepFreeWithRole(role, IdSet(before), eligible);
    KeepAfterPrefix(group, n, IdSet(before));
    assert forall x :: x in group[n..] ==> x in group;
  }

  lemma NextTarget(
    before: seq<ScoredCandidate>, picks: seq<ScoredCandidate>, group: seq<ScoredCandidate>, role: FantasyRole,
    m: nat, k: nat)
    requires Keep(HasRole(role), before) == Top(group, m) && picks == Top(group[|Top(group, m)|..], k)
    requires forall x :: x in picks ==> x.role == role
    ensures Keep(HasRole(role), before + picks) == Top(group, m + k)
  {
    KeepAppend(HasRole(role), before, picks);
    KeepAll(HasRole(role), picks);
    TopAdds(group, m, k);
  }

  lemma OtherTarget(before: seq<ScoredCandidate>, picks: seq<ScoredCandidate>, role: FantasyRole)
    requires forall x :: x in picks ==> x.role != role
    ensures Keep(HasRole(role), before + picks) == Keep(HasRole(role), before)
  {
    KeepAppend(HasRole(role), before, picks);
    KeepNone(HasRole(role), picks);
  }

  /** The starters of a role are the best of that role, as many as it has slots for. */
  lemma {:induction false} StartersByRole(
    eligible: seq<ScoredCandidate>, targets: seq<(FantasyRole, nat)>, role: FantasyRole)
    requires DistinctIds(eligible)
    ensures Keep(HasRole(role), Starters(eligible, targets)) == Top(Keep(HasRole(role), eligible), Slots(targets, role))
  {
    if targets != [] {
      var n := |targets| - 1;
      var before, target := Starters(eligible, targets[..n]), targets[n];
      var m := Slots(targets[..n], target.0);
      StartersByRole(eligible, targets[..n], role);
      StartersByRole(eligible, targets[..n], target.0);
      StartersInEligible(eligible, targets[..n]);
      OneMoreTarget(eligible, before, target, m, role, Slots(targets[..n], role));
    }
  }

  lemma OneMoreTarget(
    eligible: seq<ScoredCandidate>, before: seq<ScoredCandidate>, target: (FantasyRole, nat), m: nat,
    role: FantasyRole, k: nat)
    requires DistinctIds(eligible) && forall x :: x in before ==> x in eligible
    requires Keep(HasRole(target.0), before) == Top(Keep(HasRole(target.0), eligible), m)
    requires Keep(HasRole(role), before) == Top(Keep(HasRole(role), eligible), k) && (target.0 == role ==> m == k)
    ensures Keep(HasRole(role), before + Picks(eligible, before, target))
         == Top(Keep(HasRole(role), eligible), k + if target.0 == role then target.1 else 0)
  {
    var picks := Picks(eligible, before, target);
    PicksAreNext(eligible, before, target.0, m, target.1);
    if target.0 == role {
      NextTarget(before, picks, Keep(HasRole(role), eligible), role, m, target.1);
    } else {
      OtherTarget(before, picks, role);
    }
  }

  /** Every slot of the module is either filled or reported missing. */
  lemma {:induction false} SlotsAccountedFor(eligible: seq<ScoredCandidate>, targets: seq<(FantasyRole, nat)>)
    ensures |Starters(eligible, targets)| + |Unfilled(eligible, targets)| == AllSlots(targets)
  {
    if targets != [] {
      SlotsAccountedFor(eligible, targets[..|targets| - 1]);
    }
  }

  lemma {:induction false} AllSlotsByRole(targets: seq<(FantasyRole, nat)>)
    ensures AllSlots(targets) == Slots(targets, P) + Slots(targets, D) + Slots(targets, C) + Slots(targets, A)
  {
    if targets != [] {
      AllSlotsByRole(targets[..|targets| - 1]);
    }
  }

  ghost predicate EnoughInRole(candidates: seq<CandidateInput>, targets: seq<(FantasyRole, nat)>, role: FantasyRole) {
    Slots(targets, role) <= |Keep(HasRole(role), Keep(IsOpen(), ScoredAll(candidates)))|
  }

  lemma StarterCountByRole(candidates: seq<CandidateInput>, targets: seq<(FantasyRole, nat)>, role: FantasyRole)
    requires DistinctCandidates(candidates)
    ensures |Keep(HasRole(role), StartersOf(candidates, targets))|
         == Min(Slots(targets, role), |Keep(HasRole(role), Keep(IsOpen(), ScoredAll(candidates)))|)
  {
    EligibleFacts(candidates);
    StartersByRole(EligibleOrder(candidates), targets, role);
    KeepPermutation(HasRole(role), EligibleOrder(candidates), Keep(IsOpen(), ScoredAll(candidates)));
    SameItems(
      Keep(HasRole(role), EligibleOrder(candidates)), Keep(HasRole(role), Keep(IsOpen(), ScoredAll(candidates))));
  }

  /** A module of eleven slots is complete exactly when every role has enough eligible athletes. */
  lemma CompleteExactly(
    candidates: seq<CandidateInput>, targets: seq<(FantasyRole, nat)>, decidedAt: int, cap: Option<int>)
    requires DistinctCandidates(candidates) && AllSlots(targets) == 11
    ensures Plan(candidates, targets, decidedAt, cap).IsComplete()
       <==> forall role: FantasyRole :: EnoughInRole(candidates, targets, role)
  {
    var starters := StartersOf(candidates, targets);
    SlotsAccountedFor(EligibleOrder(candidates), targets);
    AllSlotsByRole(targets);
    RoleLengths(starters);
    StarterCountByRole(candidates, targets, P);
    StarterCountByRole(candidates, targets, D);
    StarterCountByRole(candidates, targets, C);
    StarterCountByRole(candidates, targets, A);
    assert |starters| == 11 <==> forall role: FantasyRole :: EnoughInRole(candidates, targets, role) by {
      assert |starters| == 11 <==>
        EnoughInRole(candidates, targets, P) && EnoughInRole(candidates, targets, D)
        && EnoughInRole(candidates, targets, C) && EnoughInRole(candidates, targets, A);
    }
  }

  lemma StarterMembership(eligible: seq<ScoredCandidate>, targets: seq<(FantasyRole, nat)>, role: FantasyRole)
    requires DistinctIds(eligible)
    ensures var s := Keep(HasRole(role), eligible);
      var n := |Keep(HasRole(role), Starters(eligible, targets))|;
      && n <= |s|
      && Keep(HasRole(role), Starters(eligible, targets)) == s[..n]
      && forall i :: 0 <= i < |s| ==> (s[i].athleteId in IdSet(Starters(eligible, targets)) <==> i < n)
  {
    var s, starters := Keep(HasRole(role), eligible), Starters(eligible, targets);
    StartersByRole(eligible, targets, role);
    StartersInEligible(eligible, targets);
    DistinctKeep(HasRole(role), eligible);
    KeepIn(HasRole(role), eligible);
    PrefixMembership(starters, eligible, role, s, |Keep(HasRole(role), starters)|);
  }

  lemma StartersBeatSameShape(team: set<Uuid>, candidates: seq<CandidateInput>, targets: seq<(FantasyRole, nat)>)
    requires DistinctCandidates(candidates)
    requires forall r: FantasyRole ::
      HeadCount(Keep(HasRole(r), EligibleOrder(candidates)), team)
        == |Keep(HasRole(r), StartersOf(candidates, targets))|
    ensures TotalScore(EligibleOrder(candidates), team)
         <= TotalScore(EligibleOrder(candidates), IdSet(StartersOf(candidates, targets)))
  {
    var eligible, best := EligibleOrder(candidates), IdSet(StartersOf(candidates, targets));
    var price := LineupBench.UpperBound(eligible);
    forall r: FantasyRole ensures NoGain(Keep(HasRole(r), eligible), team, best, price) {
      RoleGainsNothing(team, candidates, targets, r, price);
    }
    SameHeads(team, candidates, targets);
    NoGainOverall(eligible, team, best, price);
  }

  /** One role of the eligible, ranked, with the starters at its head. */
  lemma RoleRanked(candidates: seq<CandidateInput>, targets: seq<(FantasyRole, nat)>, r: FantasyRole)
    requires DistinctCandidates(candidates)
    ensures var s := Keep(HasRole(r), EligibleOrder(candidates));
      var n := |Keep(HasRole(r), StartersOf(candidates, targets))|;
      && n <= |s| && ScoresFall(s)
      && (forall i :: 0 <= i < |s| ==> (s[i].athleteId in IdSet(StartersOf(candidates, targets)) <==> i < n))
      && (forall i :: 0 <= i < |s| ==> s[i] in EligibleOrder(candidates))
  {
    var eligible := EligibleOrder(candidates);
    var s := Keep(HasRole(r), eligible);
    EligibleFacts(candidates);
    StarterMembership(eligible, targets, r);
    KeepSorted(HasRole(r), eligible, ByScore(ById(candidates)));
    SortedScoresFall(s, ById(candidates));
    KeepIn(HasRole(r), eligible);
    assert forall i :: 0 <= i < |s| ==> s[i] in s;
  }

  lemma RoleGainsNothing(
    team: set<Uuid>, candidates: seq<CandidateInput>, targets: seq<(FantasyRole, nat)>, r: FantasyRole, price: real)
    requires DistinctCandidates(candidates)
    requires HeadCount(Keep(HasRole(r), EligibleOrder(candidates)), team)
          == |Keep(HasRole(r), StartersOf(candidates, targets))|
    requires forall x :: x in EligibleOrder(candidates) ==> x.score <= price
    ensures NoGain(
      Keep(HasRole(r), EligibleOrder(candidates)), team, IdSet(StartersOf(candidates, targets)), price)
  {
    RoleRanked(candidates, targets, r);
    PrefixBeats(
      Keep(HasRole(r), EligibleOrder(candidates)), team, IdSet(StartersOf(candidates, targets)),
      |Keep(HasRole(r), StartersOf(candidates, targets))|, price);
  }

  lemma StarterHeads(candidates: seq<CandidateInput>, targets: seq<(FantasyRole, nat)>, r: FantasyRole)
    requires DistinctCandidates(candidates)
    ensures HeadCount(Keep(HasRole(r), EligibleOrder(candidates)), IdSet(StartersOf(candidates, targets)))
         == |Keep(HasRole(r), StartersOf(candidates, targets))|
  {
    RoleRanked(candidates, targets, r);
    PrefixIsChosen(
      Keep(HasRole(r), EligibleOrder(candidates)), |Keep(HasRole(r), StartersOf(candidates, targets))|,
      IdSet(StartersOf(candidates, targets)), 0.0);
  }

  lemma SameHeads(team: set<Uuid>, candidates: seq<CandidateInput>, targets: seq<(FantasyRole, nat)>)
    requires DistinctCandidates(candidates)
    requires forall r: FantasyRole ::
      HeadCount(Keep(HasRole(r), EligibleOrder(candidates)), team)
        == |Keep(HasRole(r), StartersOf(candidates, targets))|
    ensures HeadCount(EligibleOrder(candidates), team)
         == HeadCount(EligibleOrder(candidates), IdSet(StartersOf(candidates, targets)))
  {
    TotalsByRole(EligibleOrder(candidates), team, 0.0);
    TotalsByRole(EligibleOrder(candidates), IdSet(StartersOf(candidates, targets)), 0.0);
    StarterHeads(candidates, targets, P);
    StarterHeads(candidates, targets, D);
    StarterHeads(candidates, targets, C);
    StarterHeads(candidates, targets, A);
  }

  /** As many heads within the slots as the starters have: as many in each role. */
  lemma SameShape(team: set<Uuid>, candidates: seq<CandidateInput>, targets: seq<(FantasyRole, nat)>)
    requires DistinctCandidates(candidates)
    requires forall r: FantasyRole ::
      HeadCount(Keep(HasRole(r), EligibleOrder(candidates)), team) <= Slots(targets, r)
    requires HeadCount(EligibleOrder(candidates), team) == |StartersOf(candidates, targets)|
    ensures forall r: FantasyRole ::
      HeadCount(Keep(HasRole(r), EligibleOrder(candidates)), team)
        == |Keep(HasRole(r), StartersOf(candidates, targets))|
  {
    RoleLengths(StartersOf(candidates, targets));
    TotalsByRole(EligibleOrder(candidates), team, 0.0);
    NoMoreThanStart(team, candidates, targets, P);
    NoMoreThanStart(team, candidates, targets, D);
    NoMoreThanStart(team, candidates, targets, C);
    NoMoreThanStart(team, candidates, targets, A);
    forall r: FantasyRole
      ensures HeadCount(Keep(HasRole(r), EligibleOrder(candidates)), team)
           == |Keep(HasRole(r), StartersOf(candidates, targets))|
    {
      match r case P => case D => case C => case A =>
    }
  }

  lemma NoMoreThanStart(
    team: set<Uuid>, candidates: seq<CandidateInput>, targets: seq<(FantasyRole, nat)>, r: FantasyRole)
    requires DistinctCandidates(candidates)
    requires HeadCount(Keep(HasRole(r), EligibleOrder(candidates)), team) <= Slots(targets, r)
    ensures HeadCount(Keep(HasRole(r), EligibleOrder(candidates)), team)
         <= |Keep(HasRole(r), StartersOf(candidates, targets))|
  {
    EligibleFacts(candidates);
    StartersByRole(EligibleOrder(candidates), targets, r);
    HeadCountBound(Keep(HasRole(r), EligibleOrder(candidates)), team);
  }

  /** No choice of as many eligible athletes within the slots of each role scores more. */
  lemma StartersAreBest(team: set<Uuid>, candidates: seq<CandidateInput>, targets: seq<(FantasyRole, nat)>)
    requires DistinctCandidates(candidates)
    requires forall r: FantasyRole ::
      HeadCount(Keep(HasRole(r), EligibleOrder(candidates)), team) <= Slots(targets, r)
    requires HeadCount(EligibleOrder(candidates), team) == |StartersOf(candidates, targets)|
    ensures TotalScore(EligibleOrder(candidates), team)
         <= TotalScore(EligibleOrder(candidates), IdSet(StartersOf(candidates, targets)))
  {
    SameShape(team, candidates, targets);
    StartersBeatSameShape(team, candidates, targets);
  }

  /* ---- nobody lost, nobody twice ---- */

  lemma RestByRole(eligible: seq<ScoredCandidate>, targets: seq<(FantasyRole, nat)>, r: FantasyRole)
    requires DistinctIds(eligible)
    ensures var starters := Starters(eligible, targets);
      Keep(HasRole(r), starters + Keep(NotIn(IdSet(starters)), eligible)) == Keep(HasRole(r), eligible)
  {
    var starters := Starters(eligible, targets);
    StarterMembership(eligible, targets, r);
    LeftInRole(eligible, targets, r);
    KeepAppend(HasRole(r), starters, Keep(NotIn(IdSet(starters)), eligible));
    SplitJoins(Keep(HasRole(r), eligible), |Keep(HasRole(r), starters)|);
  }

  lemma SplitJoins(s: seq<ScoredCandidate>, n: nat)
    requires n <= |s|
    ensures s[..n] + s[n..] == s
  {
  }

  lemma LeftInRole(eligible: seq<ScoredCandidate>, targets: seq<(FantasyRole, nat)>, r: FantasyRole)
    requires DistinctIds(eligible)
    ensures var starters := Starters(eligible, targets);
      && |Keep(HasRole(r), starters)| <= |Keep(HasRole(r), eligible)|
      && Keep(HasRole(r), Keep(NotIn(IdSet(starters)), eligible))
         == Keep(HasRole(r), eligible)[|Keep(HasRole(r), starters)|..]
  {
    var starters := Starters(eligible, targets);
    StarterMembership(eligible, targets, r);
    KeepCommutes(HasRole(r), NotIn(IdSet(starters)), eligible);
    KeepAfterPrefix(Keep(HasRole(r), eligible), |Keep(HasRole(r), starters)|, IdSet(starters));
  }

  lemma StartersAndRest(eligible: seq<ScoredCandidate>, targets: seq<(FantasyRole, nat)>)
    requires DistinctIds(eligible)
    ensures var starters := Starters(eligible, targets);
      multiset(starters + Keep(NotIn(IdSet(starters)), eligible)) == multiset(eligible)
  {
    var starters := Starters(eligible, targets);
    var both := starters + Keep(NotIn(IdSet(starters)), eligible);
    forall r: FantasyRole ensures multiset(Keep(HasRole(r), both)) == multiset(Keep(HasRole(r), eligible)) {
      RestByRole(eligible, targets, r);
    }
    RolesDecide(both, eligible);
  }

  lemma RosterSplit(candidates: seq<CandidateInput>, targets: seq<(FantasyRole, nat)>)
    requires DistinctCandidates(candidates)
    ensures multiset(StartersOf(candidates, targets)) + multiset(RemainingOf(candidates, targets))
         == multiset(ScoredAll(candidates))
  {
    var scored, eligible := ScoredAll(candidates), EligibleOrder(candidates);
    EligibleFacts(candidates);
    StartersAndRest(eligible, targets);
    SortPermutation(Keep(IsExcluded(), scored), ByRoleThenId());
    KeepSplits(IsOpen(), IsExcluded(), scored);
  }

  lemma RemainingDistinct(candidates: seq<CandidateInput>, targets: seq<(FantasyRole, nat)>)
    requires DistinctCandidates(candidates)
    ensures DistinctIds(RemainingOf(candidates, targets))
  {
    var starters, pool := StartersOf(candidates, targets), RemainingOf(candidates, targets);
    RosterSplit(candidates, targets);
    ScoredDistinct(candidates);
    DistinctPermutation(ScoredAll(candidates), starters + pool);
    DistinctSuffix(starters, pool);
  }

  lemma DistinctSuffix(a: seq<ScoredCandidate>, b: seq<ScoredCandidate>)
    requires DistinctIds(a + b)
    ensures DistinctIds(b)
  {
    forall i, j | 0 <= i < j < |b| ensures b[i].athleteId != b[j].athleteId {
      assert (a + b)[|a| + i] == b[i] && (a + b)[|a| + j] == b[j];
    }
  }

  /** The bench arranges the athletes who do not start. */
  lemma BenchArrangesRemaining(candidates: seq<CandidateInput>, targets: seq<(FantasyRole, nat)>)
    requires DistinctCandidates(candidates)
    ensures multiset(BenchOf(candidates, targets)) == multiset(RemainingOf(candidates, targets))
  {
    var pool := RemainingOf(candidates, targets);
    RemainingDistinct(candidates, targets);
    LineupBench.DefaultRequiredFacts(pool);
    LineupBench.BenchIsPermutation(pool, DefaultRequired(pool), BENCH_ACTIVE_SIZE, ById(candidates));
  }

  lemma RosterArranged(candidates: seq<CandidateInput>, targets: seq<(FantasyRole, nat)>)
    requires DistinctCandidates(candidates)
    ensures multiset(StartersOf(candidates, targets) + BenchOf(candidates, targets)) == multiset(ScoredAll(candidates))
    ensures DistinctIds(StartersOf(candidates, targets) + BenchOf(candidates, targets))
  {
    RosterSplit(candidates, targets);
    BenchArrangesRemaining(candidates, targets);
    ScoredDistinct(candidates);
    DistinctPermutation(ScoredAll(candidates), StartersOf(candidates, targets) + BenchOf(candidates, targets));
  }

  ghost predicate NoRepeats(ids: seq<Uuid>) {
    forall i, j :: 0 <= i < j < |ids| ==> ids[i] != ids[j]
  }

  function RosterIds(candidates: seq<CandidateInput>): seq<Uuid> {
    MapSeq((c: CandidateInput) => c.athleteId, candidates)
  }

  lemma IdsAppend(a: seq<ScoredCandidate>, b: seq<ScoredCandidate>)
    ensures Ids(a + b) == Ids(a) + Ids(b)
  {
  }

  lemma ScoredIds(candidates: seq<CandidateInput>)
    ensures Ids(ScoredAll(candidates)) == RosterIds(candidates)
  {
  }

  lemma DistinctNoRepeats(s: seq<ScoredCandidate>)
    requires DistinctIds(s)
    ensures NoRepeats(Ids(s))
  {
  }

  /** Without a cap, starters and bench hold every athlete of the roster exactly once. */
  lemma RosterIsPartitioned(candidates: seq<CandidateInput>, targets: seq<(FantasyRole, nat)>, decidedAt: int)
    requires DistinctCandidates(candidates)
    ensures var plan := Plan(candidates, targets, decidedAt, None);
      && multiset(plan.starters + plan.bench) == multiset(RosterIds(candidates))
      && NoRepeats(plan.starters + plan.bench)
  {
    var both, scored := StartersOf(candidates, targets) + BenchOf(candidates, targets), ScoredAll(candidates);
    RosterArranged(candidates, targets);
    MapPermutation(Id(), both, scored);
    IdsAppend(StartersOf(candidates, targets), BenchOf(candidates, targets));
    ScoredIds(candidates);
    DistinctNoRepeats(both);
  }

  lemma IdsHold(s: seq<ScoredCandidate>, id: Uuid)
    ensures id in Ids(s) <==> id in IdSet(s)
  {
  }

  /** An athlete with a reason to be excluded never starts. */
  lemma ExcludedNeverStart(candidates: seq<CandidateInput>, targets: seq<(FantasyRole, nat)>, i: nat)
    requires DistinctCandidates(candidates) && i < |candidates| && IsEligible(candidates[i]).Some?
    ensures candidates[i].athleteId !in IdSet(StartersOf(candidates, targets))
  {
    var starters, scored := StartersOf(candidates, targets), ScoredAll(candidates);
    if candidates[i].athleteId in IdSet(starters) {
      var x :| x in starters && x.athleteId == candidates[i].athleteId;
      EligibleFacts(candidates);
      ScoredDistinct(candidates);
      StartersInEligible(EligibleOrder(candidates), targets);
      assert scored[i] in scored;
      SameIdSameItem(scored, x, scored[i]);
    }
  }

  /** Whatever the cap, each log entry tells whether the athlete plays and, if not, why. */
  lemma LogAccountsForAll(
    candidates: seq<CandidateInput>, targets: seq<(FantasyRole, nat)>, decidedAt: int, cap: Option<int>, i: nat)
    requires DistinctCandidates(candidates) && i < |candidates|
    ensures var plan := Plan(candidates, targets, decidedAt, cap);
      && |plan.candidates| == |candidates|
      && var id, reason := candidates[i].athleteId, plan.candidates[i].excludedReason;
      && plan.candidates[i].athleteId == id
      && (id in plan.starters ==> reason.None?)
      && (reason.None? ==> id in plan.starters || id in plan.bench)
      && (reason == Some(NotSelected) <==> id !in plan.starters && id !in plan.bench && IsEligible(candidates[i]).None?)
      && (IsEligible(candidates[i]).Some? ==> reason == IsEligible(candidates[i]) && id !in plan.starters)
  {
    IdsHold(StartersOf(candidates, targets), candidates[i].athleteId);
    if IsEligible(candidates[i]).Some? {
      ExcludedNeverStart(candidates, targets, i);
    }
  }

  /** If every eligible athlete scores above zero, excluded ones reach the active bench only when needed. */
  lemma PlanBenchExcludesWell(candidates: seq<CandidateInput>, targets: seq<(FantasyRole, nat)>)
    requires DistinctCandidates(candidates)
    requires forall c :: c in candidates && IsEligible(c).None? ==> Score(c) > 0.0
    ensures var pool := RemainingOf(candidates, targets);
      LineupBench.ExcludedOnlyWhenNeeded(pool, DefaultRequired(pool), BENCH_ACTIVE_SIZE, ById(candidates))
  {
    var pool, scored := RemainingOf(candidates, targets), ScoredAll(candidates);
    RosterSplit(candidates, targets);
    RemainingDistinct(candidates, targets);
    SameItems(StartersOf(candidates, targets) + pool, scored);
    forall x | x in pool ensures if x.excludedReason.Some? then x.score == 0.0 else x.score > 0.0 {
      assert x in StartersOf(candidates, targets) + pool;
      assert x in scored;
      var i :| 0 <= i < |scored| && scored[i] == x;
      assert candidates[i] in candidates;
    }
    LineupBench.DefaultRequiredFacts(pool);
    LineupBench.PositiveScoresSuffice(pool, DefaultRequired(pool), BENCH_ACTIVE_SIZE, ById(candidates));
  }

  /** When the bench of a whole plan keeps the rule. */
  lemma PlanExcludedRuleExactly(candidates: seq<CandidateInput>, targets: seq<(FantasyRole, nat)>)
    requires DistinctCandidates(candidates)
    ensures var pool := RemainingOf(candidates, targets);
      LineupBench.ExcludedOnlyWhenNeeded(pool, DefaultRequired(pool), BENCH_ACTIVE_SIZE, ById(candidates))
      <==> (forall r: FantasyRole :: LineupBench.RoleCutClean(pool, r, ById(candidates)))
           && LineupBench.FillCutClean(pool, ById(candidates))
  {
    RemainingDistinct(candidates, targets);
    LineupBench.ExcludedRuleByDefault(RemainingOf(candidates, targets), ById(candidates));
  }
}
