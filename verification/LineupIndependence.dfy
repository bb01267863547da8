/** What a plan does not depend on: the order of its input, late lineup sheets, "not a starter" signals. */
module LineupIndependence {
  import opened Options
  import opened Sequences
  import opened LineupModel
  import opened LineupSelection
  import opened LineupPlans

  /* ---- the order of the candidates ---- */

  lemma {:induction false} ByIdHolds(candidates: seq<CandidateInput>)
    requires DistinctCandidates(candidates)
    ensures forall c :: c in candidates ==> c.athleteId in ById(candidates) && ById(candidates)[c.athleteId] == c
    ensures forall id :: id in ById(candidates) ==> ById(candidates)[id] in candidates && ById(candidates)[id].athleteId == id
  {
    if candidates != [] {
      var t, last := candidates[..|candidates| - 1], candidates[|candidates| - 1];
      ByIdHolds(t);
      assert candidates == t + [last];
      forall c | c in t ensures c.athleteId != last.athleteId {
        var i :| 0 <= i < |t| && t[i] == c;
      }
    }
  }

  lemma SameIndex(a: seq<CandidateInput>, b: seq<CandidateInput>)
    requires DistinctCandidates(a) && DistinctCandidates(b) && multiset(a) == multiset(b)
    ensures ById(a) == ById(b)
  {
    SameItems(a, b);
    ByIdHolds(a);
    ByIdHolds(b);
    forall id ensures id in ById(a) <==> id in ById(b) {
      if id in ById(a) {
        assert ById(a)[id] in b;
      }
      if id in ById(b) {
        assert ById(b)[id] in a;
      }
    }
    forall id | id in ById(a) ensures ById(a)[id] == ById(b)[id] {
      assert ById(a)[id] in b;
    }
  }

  lemma SameScored(a: seq<CandidateInput>, b: seq<CandidateInput>)
    requires multiset(a) == multiset(b)
    ensures multiset(ScoredAll(a)) == multiset(ScoredAll(b))
  {
    MapPermutation((c: CandidateInput) => Scored(c), a, b);
  }

  lemma SameEligible(a: seq<CandidateInput>, b: seq<CandidateInput>)
    requires DistinctCandidates(a) && DistinctCandidates(b) && multiset(a) == multiset(b)
    ensures EligibleOrder(a) == EligibleOrder(b)
  {
    SameIndex(a, b);
    SameScored(a, b);
    EligibleFacts(a);
    EligibleFacts(b);
    KeepPermutation(IsOpen(), ScoredAll(a), ScoredAll(b));
    StrictByScore(ById(a));
    SortedUnique(EligibleOrder(a), EligibleOrder(b), ByScore(ById(a)));
  }

  lemma SameExcluded(a: seq<CandidateInput>, b: seq<CandidateInput>)
    requires DistinctCandidates(a) && DistinctCandidates(b) && multiset(a) == multiset(b)
    ensures SortBy(Keep(IsExcluded(), ScoredAll(a)), ByRoleThenId())
         == SortBy(Keep(IsExcluded(), ScoredAll(b)), ByRoleThenId())
  {
    SameScored(a, b);
    KeepPermutation(IsExcluded(), ScoredAll(a), ScoredAll(b));
    ExcludedComparable(a);
    ExcludedComparable(b);
    SortForgetsOrder(Keep(IsExcluded(), ScoredAll(a)), Keep(IsExcluded(), ScoredAll(b)), ByRoleThenId());
  }

  lemma ExcludedComparable(candidates: seq<CandidateInput>)
    requires DistinctCandidates(candidates)
    ensures StrictOrder(ByRoleThenId())
    ensures Comparable(Keep(IsExcluded(), ScoredAll(candidates)), ByRoleThenId())
  {
    ScoredDistinct(candidates);
    DistinctKeep(IsExcluded(), ScoredAll(candidates));
    assert forall a: FantasyRole, b: FantasyRole :: Letter(a) == Letter(b) ==> a == b;
  }

  lemma SameFallback(a: seq<ScoredCandidate>, b: seq<ScoredCandidate>, starters: set<Uuid>)
    requires multiset(a) == multiset(b)
    ensures UsesFallback(a, starters) == UsesFallback(b, starters)
  {
    SameItems(a, b);
    if UsesFallback(a, starters) {
      FallbackCarries(a, b, starters);
    }
    if UsesFallback(b, starters) {
      FallbackCarries(b, a, starters);
    }
  }

  lemma FallbackCarries(a: seq<ScoredCandidate>, b: seq<ScoredCandidate>, starters: set<Uuid>)
    requires UsesFallback(a, starters) && forall x :: x in a ==> x in b
    ensures UsesFallback(b, starters)
  {
    var i :| 0 <= i < |a| && a[i].athleteId in starters && LocalFallback in a[i].sources;
    assert a[i] in b;
    var j :| 0 <= j < |b| && b[j] == a[i];
  }

  /** Permuting the candidates only permutes the decision log. */
  lemma OrderIsIrrelevant(
    a: seq<CandidateInput>, b: seq<CandidateInput>, targets: seq<(FantasyRole, nat)>, decidedAt: int, cap: Option<int>)
    requires DistinctCandidates(a) && DistinctCandidates(b) && multiset(a) == multiset(b)
    ensures var p, q := Plan(a, targets, decidedAt, cap), Plan(b, targets, decidedAt, cap);
      && p.(candidates := q.candidates) == q
      && multiset(p.candidates) == multiset(q.candidates)
  {
    SameEligible(a, b);
    SameExcluded(a, b);
    SameIndex(a, b);
    SameScored(a, b);
    var starters, bench := IdSet(StartersOf(a, targets)), BenchIds(a, targets, cap);
    assert StartersOf(a, targets) == StartersOf(b, targets);
    assert RemainingOf(a, targets) == RemainingOf(b, targets);
    assert bench == BenchIds(b, targets, cap);
    MapPermutation((x: ScoredCandidate) => FinalEntry(starters, bench, x), ScoredAll(a), ScoredAll(b));
    SameFallback(FinalLog(a, starters, bench), FinalLog(b, starters, bench), starters);
  }

  /* ---- late lineup sheets ---- */

  datatype Sheet = Sheet(isStarter: Option<bool>, fetchedAt: Option<int>)

  /** A sheet that reached the system in time, for an athlete not yet locked. */
  predicate Admissible(sheet: Sheet, c: CandidateInput, decidedAt: int) {
    sheet.isStarter.Some? && sheet.fetchedAt.Some? && sheet.fetchedAt.value <= decidedAt && !c.kickoffLocked
  }

  function WithSheet(c: CandidateInput, sheet: Sheet, decidedAt: int): CandidateInput {
    c.(officialStarter := OfficialStarterSignal(sheet.isStarter, sheet.fetchedAt, decidedAt, c.kickoffLocked))
  }

  function WithSheets(roster: seq<CandidateInput>, sheets: seq<Sheet>, decidedAt: int): seq<CandidateInput>
    requires |sheets| == |roster|
  {
    seq(|roster|, i requires 0 <= i < |roster| => WithSheet(roster[i], sheets[i], decidedAt))
  }

  /** Two sets of sheets that agree wherever either is admissible lead to the same plan. */
  lemma LateSheetsAreIgnored(
    roster: seq<CandidateInput>, a: seq<Sheet>, b: seq<Sheet>, targets: seq<(FantasyRole, nat)>,
    decidedAt: int, cap: Option<int>)
    requires |a| == |roster| == |b|
    requires forall i :: 0 <= i < |roster| ==>
      Admissible(a[i], roster[i], decidedAt) || Admissible(b[i], roster[i], decidedAt) ==> a[i] == b[i]
    ensures Plan(WithSheets(roster, a, decidedAt), targets, decidedAt, cap)
         == Plan(WithSheets(roster, b, decidedAt), targets, decidedAt, cap)
  {
    forall i | 0 <= i < |roster| ensures WithSheet(roster[i], a[i], decidedAt) == WithSheet(roster[i], b[i], decidedAt) {
    }
    assert WithSheets(roster, a, decidedAt) == WithSheets(roster, b, decidedAt);
  }

  /* ---- "not a starter" is worth no more than silence ---- */

  /** The candidate with a "not a starter" signal withdrawn. */
  function Silenced(c: CandidateInput): CandidateInput {
    if c.officialStarter == Some(false) then c.(officialStarter := None) else c
  }

  function SilencedAll(candidates: seq<CandidateInput>): seq<CandidateInput> {
    MapSeq((c: CandidateInput) => Silenced(c), candidates)
  }

  /** A scored entry without the note of where its score came from. */
  function Bare(): ScoredCandidate -> ScoredCandidate {
    (x: ScoredCandidate) => x.(sources := [])
  }

  function Bares(s: seq<ScoredCandidate>): seq<ScoredCandidate> {
    MapSeq(Bare(), s)
  }

  ghost predicate SameAppearances(m: map<Uuid, CandidateInput>, n: map<Uuid, CandidateInput>) {
    forall id :: Appearances(m, id) == Appearances(n, id)
  }

  lemma {:induction false} SilencedAppearances(candidates: seq<CandidateInput>)
    ensures SameAppearances(ById(candidates), ById(SilencedAll(candidates)))
  {
    if candidates != [] {
      var t, last := candidates[..|candidates| - 1], candidates[|candidates| - 1];
      SilencedAppearances(t);
      assert SilencedAll(candidates)[..|candidates| - 1] == SilencedAll(t);
      assert ById(SilencedAll(candidates)) == ById(SilencedAll(t))[last.athleteId := Silenced(last)];
      forall id ensures Appearances(ById(candidates), id) == Appearances(ById(SilencedAll(candidates)), id) {
        assert Appearances(ById(t), id) == Appearances(ById(SilencedAll(t)), id);
      }
    }
  }

  lemma BareSort(s: seq<ScoredCandidate>, m: map<Uuid, CandidateInput>, n: map<Uuid, CandidateInput>)
    requires SameAppearances(m, n)
    ensures Bares(SortBy(s, ByScore(m))) == SortBy(Bares(s), ByScore(n))
  {
    MapSort(Bare(), s, ByScore(n), ByScore(m));
  }

  lemma BareTop(s: seq<ScoredCandidate>, n: int)
    ensures Bares(Top(s, n)) == Top(Bares(s), n)
  {
  }

  lemma BareAppend(a: seq<ScoredCandidate>, b: seq<ScoredCandidate>)
    ensures Bares(a + b) == Bares(a) + Bares(b)
  {
  }

  lemma BareIds(s: seq<ScoredCandidate>)
    ensures Ids(Bares(s)) == Ids(s)
    ensures IdSet(Bares(s)) == IdSet(s)
  {
  }

  lemma BareKeep(p: ScoredCandidate -> bool, s: seq<ScoredCandidate>)
    requires forall x: ScoredCandidate :: p(x.(sources := [])) == p(x)
    ensures Bares(Keep(p, s)) == Keep(p, Bares(s))
  {
    MapKeep(Bare(), p, p, s);
  }

  lemma BareRoleOrder(
    pool: seq<ScoredCandidate>, r: FantasyRole, m: map<Uuid, CandidateInput>, n: map<Uuid, CandidateInput>)
    requires SameAppearances(m, n)
    ensures Bares(RoleOrder(pool, r, m)) == RoleOrder(Bares(pool), r, n)
  {
    BareKeep(HasRole(r), pool);
    BareSort(Keep(HasRole(r), pool), m, n);
  }

  lemma {:induction false} BareReserved(
    pool: seq<ScoredCandidate>, required: Required, m: map<Uuid, CandidateInput>, n: map<Uuid, CandidateInput>)
    requires SameAppearances(m, n)
    ensures Bares(Reserved(pool, required, m)) == Reserved(Bares(pool), required, n)
  {
    if required != [] {
      var before, last := required[..|required| - 1], required[|required| - 1];
      BareReserved(pool, before, m, n);
      BareRoleOrder(pool, last.0, m, n);
      BareTop(RoleOrder(pool, last.0, m), last.1);
      BareAppend(Reserved(pool, before, m), Top(RoleOrder(pool, last.0, m), last.1));
    }
  }

  lemma BareFree(
    pool: seq<ScoredCandidate>, required: Required, m: map<Uuid, CandidateInput>, n: map<Uuid, CandidateInput>)
    requires SameAppearances(m, n)
    ensures Bares(FreeAgents(pool, required, m)) == FreeAgents(Bares(pool), required, n)
  {
    var used := IdSet(Reserved(pool, required, m));
    BareReserved(pool, required, m, n);
    BareIds(Reserved(pool, required, m));
    BareKeep(NotIn(used), pool);
    BareSort(Keep(NotIn(used), pool), m, n);
  }

  lemma BareFilled(
    pool: seq<ScoredCandidate>, required: Required, size: int,
    m: map<Uuid, CandidateInput>, n: map<Uuid, CandidateInput>)
    requires SameAppearances(m, n)
    ensures Bares(Filled(pool, required, size, m)) == Filled(Bares(pool), required, size, n)
  {
    BareReserved(pool, required, m, n);
    BareFree(pool, required, m, n);
    BareTop(FreeAgents(pool, required, m), Min(size, |pool|) - |Reserved(pool, required, m)|);
    assert |Bares(pool)| == |pool| && |Reserved(Bares(pool), required, n)| == |Reserved(pool, required, m)|;
  }

  lemma BareActive(
    pool: seq<ScoredCandidate>, required: Required, size: int,
    m: map<Uuid, CandidateInput>, n: map<Uuid, CandidateInput>)
    requires SameAppearances(m, n)
    ensures Bares(ActiveBench(pool, required, size, m)) == ActiveBench(Bares(pool), required, size, n)
  {
    BareReserved(pool, required, m, n);
    BareFilled(pool, required, size, m, n);
    BareAppend(Reserved(pool, required, m), Filled(pool, required, size, m));
  }

  lemma {:induction false} BareTail(
    pool: seq<ScoredCandidate>, roles: seq<FantasyRole>, used: set<Uuid>,
    m: map<Uuid, CandidateInput>, n: map<Uuid, CandidateInput>)
    requires SameAppearances(m, n)
    ensures Bares(TailOf(pool, roles, used, m)) == TailOf(Bares(pool), roles, used, n)
  {
    if roles != [] {
      var before, last := roles[..|roles| - 1], roles[|roles| - 1];
      BareTail(pool, before, used, m, n);
      BareRoleOrder(pool, last, m, n);
      BareKeep(NotIn(used), RoleOrder(pool, last, m));
      BareAppend(TailOf(pool, before, used, m), Keep(NotIn(used), RoleOrder(pool, last, m)));
    }
  }

  lemma BareBench(
    pool: seq<ScoredCandidate>, required: Required, size: int,
    m: map<Uuid, CandidateInput>, n: map<Uuid, CandidateInput>)
    requires SameAppearances(m, n)
    ensures Bares(BenchOrder(pool, required, size, m)) == BenchOrder(Bares(pool), required, size, n)
  {
    var active := ActiveBench(pool, required, size, m);
    BareActive(pool, required, size, m, n);
    BareIds(active);
    BareTail(pool, ROLES, IdSet(active), m, n);
    BareAppend(active, TailOf(pool, ROLES, IdSet(active), m));
  }

  lemma {:induction false} BareStarters(eligible: seq<ScoredCandidate>, targets: seq<(FantasyRole, nat)>)
    ensures Bares(Starters(eligible, targets)) == Starters(Bares(eligible), targets)
    ensures Unfilled(eligible, targets) == Unfilled(Bares(eligible), targets)
  {
    if targets != [] {
      var n := |targets| - 1;
      var before := Starters(eligible, targets[..n]);
      BareStarters(eligible, targets[..n]);
      BareIds(before);
      var free := FreeWithRole(targets[n].0, IdSet(before));
      BareKeep(free, eligible);
      BareTop(Keep(free, eligible), targets[n].1);
      BareAppend(before, Picks(eligible, before, targets[n]));
    }
  }

  lemma BareRequired(pool: seq<ScoredCandidate>)
    ensures DefaultRequired(Bares(pool)) == DefaultRequired(pool)
  {
    forall r: FantasyRole ensures |Keep(HasRole(r), Bares(pool))| == |Keep(HasRole(r), pool)| {
      BareKeep(HasRole(r), pool);
    }
  }

  lemma SilencedScored(candidates: seq<CandidateInput>)
    ensures Bares(ScoredAll(SilencedAll(candidates))) == Bares(ScoredAll(candidates))
  {
  }

  lemma SilencedEligible(candidates: seq<CandidateInput>)
    ensures Bares(EligibleOrder(SilencedAll(candidates))) == Bares(EligibleOrder(candidates))
  {
    var m, n := ById(candidates), ById(SilencedAll(candidates));
    SilencedAppearances(candidates);
    SilencedScored(candidates);
    BareKeep(IsOpen(), ScoredAll(candidates));
    BareKeep(IsOpen(), ScoredAll(SilencedAll(candidates)));
    BareSort(Keep(IsOpen(), ScoredAll(candidates)), m, n);
    BareSort(Keep(IsOpen(), ScoredAll(SilencedAll(candidates))), n, n);
  }

  lemma SilencedExcluded(candidates: seq<CandidateInput>)
    ensures Bares(SortBy(Keep(IsExcluded(), ScoredAll(SilencedAll(candidates))), ByRoleThenId()))
         == Bares(SortBy(Keep(IsExcluded(), ScoredAll(candidates)), ByRoleThenId()))
  {
    SilencedScored(candidates);
    BareKeep(IsExcluded(), ScoredAll(candidates));
    BareKeep(IsExcluded(), ScoredAll(SilencedAll(candidates)));
    MapSort(Bare(), Keep(IsExcluded(), ScoredAll(candidates)), ByRoleThenId(), ByRoleThenId());
    MapSort(Bare(), Keep(IsExcluded(), ScoredAll(SilencedAll(candidates))), ByRoleThenId(), ByRoleThenId());
  }

  lemma SilencedRemaining(candidates: seq<CandidateInput>, targets: seq<(FantasyRole, nat)>)
    ensures Bares(StartersOf(SilencedAll(candidates), targets)) == Bares(StartersOf(candidates, targets))
    ensures Bares(RemainingOf(SilencedAll(candidates), targets)) == Bares(RemainingOf(candidates, targets))
  {
    var quiet := SilencedAll(candidates);
    SilencedEligible(candidates);
    SilencedExcluded(candidates);
    BareStarters(EligibleOrder(candidates), targets);
    BareStarters(EligibleOrder(quiet), targets);
    BareIds(StartersOf(candidates, targets));
    BareIds(StartersOf(quiet, targets));
    var free := NotIn(IdSet(StartersOf(candidates, targets)));
    BareKeep(free, EligibleOrder(candidates));
    BareKeep(free, EligibleOrder(quiet));
    BareAppend(
      Keep(free, EligibleOrder(candidates)),
      SortBy(Keep(IsExcluded(), ScoredAll(candidates)), ByRoleThenId()));
    BareAppend(
      Keep(free, EligibleOrder(quiet)),
      SortBy(Keep(IsExcluded(), ScoredAll(quiet)), ByRoleThenId()));
  }

  /** Hearing "not a starter" never changes who starts, who sits where, or what is missing. */
  lemma NotAStarterIsSilence(
    candidates: seq<CandidateInput>, targets: seq<(FantasyRole, nat)>, decidedAt: int, cap: Option<int>)
    ensures var p := Plan(candidates, targets, decidedAt, cap);
      var q := Plan(SilencedAll(candidates), targets, decidedAt, cap);
      p.starters == q.starters && p.bench == q.bench && p.unfilledRoles == q.unfilledRoles
  {
    var quiet := SilencedAll(candidates);
    var pool, hushed := RemainingOf(candidates, targets), RemainingOf(quiet, targets);
    SilencedRemaining(candidates, targets);
    SilencedEligible(candidates);
    BareStarters(EligibleOrder(candidates), targets);
    BareStarters(EligibleOrder(quiet), targets);
    BareIds(StartersOf(candidates, targets));
    BareIds(StartersOf(quiet, targets));
    SilencedAppearances(candidates);
    BareRequired(pool);
    BareRequired(hushed);
    BareBench(pool, DefaultRequired(pool), BENCH_ACTIVE_SIZE, ById(candidates), ById(quiet));
    BareBench(hushed, DefaultRequired(hushed), BENCH_ACTIVE_SIZE, ById(quiet), ById(quiet));
    BareIds(BenchOf(candidates, targets));
    BareIds(BenchOf(quiet, targets));
  }
}
