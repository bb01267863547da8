/** The selection as it runs: loops over candidates, targets and roles, growing lists and sets. */
module LineupMethods {
  import opened Options
  import opened Sequences
  import opened LineupModel
  import opened LineupSelection
  import opened LineupPlans
  import LineupBench

  method ScoreCandidate(c: CandidateInput) returns (score: real, sources: seq<SignalSource>)
    ensures score == Score(c) && sources == Sources(c)
  {
    score, sources := 0.0, [];
    if c.officialStarter.Some? {
      if c.officialStarter.value {
        score := score + WEIGHT_OFFICIAL_STARTER;
      }
      sources := sources + [OfficialLineup];
    }
    if c.recentForm.Some? {
      score := score + WEIGHT_RECENT_FORM * c.recentForm.value;
      sources := sources + [RecentForm];
    }
    if sources == [] {
      sources := sources + [LocalFallback];
    }
  }

  /** The pool grouped by role, each group sorted best first. */
  method GroupByRole(pool: seq<ScoredCandidate>, byId: map<Uuid, CandidateInput>)
    returns (byRole: map<FantasyRole, seq<ScoredCandidate>>)
    requires forall x :: x in pool ==> x.athleteId in byId
    ensures forall r: FantasyRole :: r in byRole && byRole[r] == RoleOrder(pool, r, byId)
  {
    byRole := map[P := [], D := [], C := [], A := []];
    forall r: FantasyRole ensures r in byRole && byRole[r] == [] {
      match r case P => case D => case C => case A =>
    }
    for i := 0 to |pool|
      invariant forall r: FantasyRole :: r in byRole && byRole[r] == Keep(HasRole(r), pool[..i])
    {
      assert pool[..i + 1] == pool[..i] + [pool[i]];
      assert pool[..i + 1][..i] == pool[..i];
      byRole := byRole[pool[i].role := byRole[pool[i].role] + [pool[i]]];
    }
    assert pool[..|pool|] == pool;
    byRole := SortGroups(pool, byId, byRole);
  }

  method SortGroups(
    pool: seq<ScoredCandidate>, byId: map<Uuid, CandidateInput>, groups: map<FantasyRole, seq<ScoredCandidate>>)
    returns (byRole: map<FantasyRole, seq<ScoredCandidate>>)
    requires forall r: FantasyRole :: r in groups && groups[r] == Keep(HasRole(r), pool)
    ensures forall r: FantasyRole :: r in byRole && byRole[r] == RoleOrder(pool, r, byId)
  {
    byRole := groups;
    for k := 0 to |ROLES|
      invariant forall r: FantasyRole :: r in byRole
      invariant forall r: FantasyRole ::
        byRole[r] == if r in ROLES[..k] then RoleOrder(pool, r, byId) else groups[r]
    {
      assert ROLES[k] !in ROLES[..k];
      assert ROLES[..k + 1] == ROLES[..k] + [ROLES[k]];
      byRole := byRole[ROLES[k] := SortBy(byRole[ROLES[k]], ByScore(byId))];
    }
    assert ROLES[..|ROLES|] == ROLES;
    forall r: FantasyRole ensures r in ROLES {
      LineupBench.EveryRoleListed(r);
    }
  }

  lemma NextReserved(pool: seq<ScoredCandidate>, quota: Required, i: nat, byId: map<Uuid, CandidateInput>)
    requires i < |quota|
    ensures Reserved(pool, quota[..i + 1], byId)
         == Reserved(pool, quota[..i], byId) + Top(RoleOrder(pool, quota[i].0, byId), quota[i].1)
  {
    assert quota[..i + 1][..i] == quota[..i];
  }

  /** The best of each role up to its quota, role after role. */
  method ReserveQuota(
    pool: seq<ScoredCandidate>, byRole: map<FantasyRole, seq<ScoredCandidate>>, quota: Required,
    byId: map<Uuid, CandidateInput>)
    returns (active: seq<ScoredCandidate>, used: set<Uuid>)
    requires forall r: FantasyRole :: r in byRole && byRole[r] == RoleOrder(pool, r, byId)
    ensures active == Reserved(pool, quota, byId) && used == IdSet(active)
  {
    active, used := [], {};
    for i := 0 to |quota|
      invariant active == Reserved(pool, quota[..i], byId) && used == IdSet(active)
    {
      NextReserved(pool, quota, i, byId);
      var chosen := Top(byRole[quota[i].0], quota[i].1);
      IdSetAppend(active, chosen);
      active := active + chosen;
      used := used + IdSet(chosen);
    }
    assert quota[..|quota|] == quota;
  }

  /** Tops the active bench up with the best of whoever is left. */
  method FillPlaces(
    pool: seq<ScoredCandidate>, quota: Required, size: int, byId: map<Uuid, CandidateInput>,
    reserved: seq<ScoredCandidate>, usedBefore: set<Uuid>)
    returns (active: seq<ScoredCandidate>, used: set<Uuid>)
    requires reserved == Reserved(pool, quota, byId) && usedBefore == IdSet(reserved)
    ensures active == ActiveBench(pool, quota, size, byId) && used == IdSet(active)
  {
    active, used := reserved, usedBefore;
    var fill := Max0(Min(size, |pool|) - |active|);
    if fill > 0 {
      var picked := Top(SortBy(Keep(NotIn(used), pool), ByScore(byId)), fill);
      IdSetAppend(active, picked);
      active := active + picked;
      used := used + IdSet(picked);
    } else {
      assert reserved + [] == reserved;
    }
  }

  /** Everyone not yet placed, in blocks of one role. */
  method CollectTail(
    pool: seq<ScoredCandidate>, byRole: map<FantasyRole, seq<ScoredCandidate>>, used: set<Uuid>,
    byId: map<Uuid, CandidateInput>)
    returns (tail: seq<ScoredCandidate>)
    requires forall r: FantasyRole :: r in byRole && byRole[r] == RoleOrder(pool, r, byId)
    ensures tail == TailOf(pool, ROLES, used, byId)
  {
    tail := [];
    for k := 0 to |ROLES|
      invariant tail == TailOf(pool, ROLES[..k], used, byId)
    {
      assert ROLES[..k + 1][..k] == ROLES[..k];
      var block := Unused(byRole[ROLES[k]], used);
      tail := tail + block;
    }
    assert ROLES[..|ROLES|] == ROLES;
  }

  method Unused(group: seq<ScoredCandidate>, used: set<Uuid>) returns (kept: seq<ScoredCandidate>)
    ensures kept == Keep(NotIn(used), group)
  {
    kept := [];
    for j := 0 to |group|
      invariant kept == Keep(NotIn(used), group[..j])
    {
      assert group[..j + 1][..j] == group[..j];
      if group[j].athleteId !in used {
        kept := kept + [group[j]];
      }
    }
    assert group[..|group|] == group;
  }

  method ActiveBenchOrder(
    pool: seq<ScoredCandidate>, byId: map<Uuid, CandidateInput>, required: Option<Required>, activeSize: Option<int>)
    returns (order: seq<Uuid>)
    requires DistinctIds(pool) && forall x :: x in pool ==> x.athleteId in byId
    requires required.Some? ==> DistinctRoles(required.value)
    ensures var quota := if required.Some? then required.value else DefaultRequired(pool);
      var size := if activeSize.Some? then activeSize.value else BENCH_ACTIVE_SIZE;
      order == Ids(BenchOrder(pool, quota, size, byId))
  {
    var quota := if required.Some? then required.value else DefaultRequired(pool);
    var size := if activeSize.Some? then activeSize.value else BENCH_ACTIVE_SIZE;
    if pool == [] {
      EmptyBench(quota, size, byId);
      return [];
    }
    var byRole := GroupByRole(pool, byId);
    var active, used := ReserveQuota(pool, byRole, quota, byId);
    active, used := FillPlaces(pool, quota, size, byId, active, used);
    var tail := CollectTail(pool, byRole, used, byId);
    LineupPlans.IdsAppend(active, tail);
    order := Ids(active) + Ids(tail);
  }

  lemma {:induction false} EmptyBench(required: Required, size: int, byId: map<Uuid, CandidateInput>)
    ensures BenchOrder([], required, size, byId) == []
  {
    EmptyReserved(required, byId);
    assert FreeAgents([], required, byId) == [];
    assert ActiveBench([], required, size, byId) == [];
    EmptyTail(ROLES, IdSet(ActiveBench([], required, size, byId)), byId);
  }

  lemma {:induction false} EmptyReserved(required: Required, byId: map<Uuid, CandidateInput>)
    ensures Reserved([], required, byId) == []
  {
    if required != [] {
      EmptyReserved(required[..|required| - 1], byId);
    }
  }

  lemma {:induction false} EmptyTail(roles: seq<FantasyRole>, used: set<Uuid>, byId: map<Uuid, CandidateInput>)
    ensures TailOf([], roles, used, byId) == []
  {
    if roles != [] {
      EmptyTail(roles[..|roles| - 1], used, byId);
    }
  }

  /** Every candidate with its reason to be excluded, or its score and where it came from. */
  method ScoreAll(candidates: seq<CandidateInput>) returns (scored: seq<ScoredCandidate>)
    ensures scored == ScoredAll(candidates)
  {
    scored := [];
    for i := 0 to |candidates|
      invariant scored == ScoredAll(candidates)[..i]
    {
      var c := candidates[i];
      var reason := IsEligible(c);
      if reason.Some? {
        scored := scored + [ScoredCandidate(c.athleteId, c.role, 0.0, [], reason)];
      } else {
        var score, sources := ScoreCandidate(c);
        scored := scored + [ScoredCandidate(c.athleteId, c.role, score, sources, None)];
      }
    }
  }

  /** Walks the ranked list, taking free athletes of one role until its target is met. */
  method FillTarget(eligible: seq<ScoredCandidate>, before: seq<ScoredCandidate>, target: (FantasyRole, nat))
    returns (starters: seq<ScoredCandidate>, picked: nat)
    requires DistinctIds(eligible)
    ensures starters == before + Picks(eligible, before, target) && picked == |Picks(eligible, before, target)|
  {
    var (role, needed) := target;
    var taken, j := IdSet(before), 0;
    ghost var free := FreeWithRole(role, taken);
    starters, picked := before, 0;
    while j < |eligible| && picked != needed
      invariant j <= |eligible| && picked <= needed
      invariant starters == before + Keep(free, eligible[..j])
      invariant picked == |Keep(free, eligible[..j])|
      invariant taken == IdSet(starters)
    {
      var item := eligible[j];
      assert eligible[..j + 1][..j] == eligible[..j];
      NotAmongPicks(eligible, j, free);
      if item.role == role && item.athleteId !in taken {
        starters := starters + [item];
        taken := taken + {item.athleteId};
        picked := picked + 1;
      }
      j := j + 1;
    }
    StoppedEarly(eligible, free, j, needed);
  }

  /** Fills one target after another and notes what is missing. */
  method FillTargets(eligible: seq<ScoredCandidate>, targets: seq<(FantasyRole, nat)>)
    returns (starters: seq<ScoredCandidate>, unfilled: seq<FantasyRole>, taken: set<Uuid>)
    requires DistinctIds(eligible)
    ensures starters == Starters(eligible, targets) && unfilled == Unfilled(eligible, targets)
    ensures taken == IdSet(starters)
  {
    starters, unfilled := [], [];
    for i := 0 to |targets|
      invariant starters == Starters(eligible, targets[..i])
      invariant unfilled == Unfilled(eligible, targets[..i])
    {
      assert targets[..i + 1][..i] == targets[..i];
      var picked;
      starters, picked := FillTarget(eligible, starters, targets[i]);
      if picked < targets[i].1 {
        unfilled := unfilled + seq(targets[i].1 - picked, _ => targets[i].0);
      }
    }
    assert targets[..|targets|] == targets;
    taken := IdSet(starters);
  }

  lemma NotAmongPicks(eligible: seq<ScoredCandidate>, j: nat, free: ScoredCandidate -> bool)
    requires DistinctIds(eligible) && j < |eligible|
    ensures eligible[j].athleteId !in IdSet(Keep(free, eligible[..j]))
  {
    KeepIn(free, eligible[..j]);
  }

  lemma StoppedEarly(eligible: seq<ScoredCandidate>, free: ScoredCandidate -> bool, j: nat, needed: nat)
    requires j <= |eligible| && |Keep(free, eligible[..j])| <= needed
    requires j == |eligible| || |Keep(free, eligible[..j])| == needed
    ensures Keep(free, eligible[..j]) == Top(Keep(free, eligible), needed)
  {
    KeepOfPrefix(free, eligible, j);
    assert j == |eligible| ==> eligible[..j] == eligible;
  }

  method BuildLineupPlan(
    candidates: seq<CandidateInput>, targets: seq<(FantasyRole, nat)>, decidedAt: int, benchSize: Option<int>)
    returns (plan: LineupPlan)
    requires DistinctCandidates(candidates)
    ensures plan == Plan(candidates, targets, decidedAt, benchSize)
  {
    var byId := ById(candidates);
    var scored := ScoreAll(candidates);
    var eligible := SortBy(Keep(IsOpen(), scored), ByScore(byId));
    EligibleFacts(candidates);
    var starters, unfilled, taken := FillTargets(eligible, targets);
    var remaining := Keep(NotIn(taken), eligible) + SortBy(Keep(IsExcluded(), scored), ByRoleThenId());
    RemainingIndexed(candidates, targets);
    RemainingDistinct(candidates, targets);
    var bench := ActiveBenchOrder(remaining, byId, None, None);
    if benchSize.Some? {
      bench := SliceTo(bench, benchSize.value);
    }
    var log := MapSeq((x: ScoredCandidate) => FinalEntry(taken, bench, x), scored);
    plan := LineupPlan(
      ALGORITHM_VERSION, decidedAt, Ids(starters), bench, log, UsesFallback(log, taken), unfilled);
  }

  lemma {:induction false} EveryIdIndexed(candidates: seq<CandidateInput>)
    ensures forall c :: c in candidates ==> c.athleteId in ById(candidates)
  {
    if candidates != [] {
      EveryIdIndexed(candidates[..|candidates| - 1]);
      assert candidates == candidates[..|candidates| - 1] + [candidates[|candidates| - 1]];
    }
  }

  lemma RemainingIndexed(candidates: seq<CandidateInput>, targets: seq<(FantasyRole, nat)>)
    requires DistinctCandidates(candidates)
    ensures forall x :: x in RemainingOf(candidates, targets) ==> x.athleteId in ById(candidates)
  {
    var pool, scored := RemainingOf(candidates, targets), ScoredAll(candidates);
    EveryIdIndexed(candidates);
    RosterSplit(candidates, targets);
    SameItems(StartersOf(candidates, targets) + pool, scored);
    forall x | x in pool ensures x.athleteId in ById(candidates) {
      assert x in StartersOf(candidates, targets) + pool;
      var i :| 0 <= i < |scored| && scored[i] == x;
      assert candidates[i] in candidates;
    }
  }
}
