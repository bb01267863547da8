/** The active-bench rule: what the order keeps, what it guarantees, why it is best. */
module LineupBench {
  import opened Options
  import opened Sequences
  import opened LineupModel
  import opened LineupSelection

  /* ---- the shape of one role ---- */

  lemma RoleOrderFacts(pool: seq<ScoredCandidate>, role: FantasyRole, byId: map<Uuid, CandidateInput>)
    requires DistinctIds(pool)
    ensures var s := RoleOrder(pool, role, byId);
      && DistinctIds(s) && SortedBy(s, ByScore(byId))
      && multiset(s) == multiset(Keep(HasRole(role), pool))
      && |s| == |Keep(HasRole(role), pool)|
      && (forall x :: x in s <==> x in pool && x.role == role)
  {
    var group := Keep(HasRole(role), pool);
    DistinctKeep(HasRole(role), pool);
    KeepIn(HasRole(role), pool);
    StrictByScore(byId);
    DistinctComparable(group, byId);
    SortSorts(group, ByScore(byId));
    SortPermutation(group, ByScore(byId));
    SameItems(RoleOrder(pool, role, byId), group);
    DistinctPermutation(group, RoleOrder(pool, role, byId));
  }

  /** The heads the quota reserves in a role, short of the quota when the role is short. */
  function Reserve(pool: seq<ScoredCandidate>, required: Required, role: FantasyRole, byId: map<Uuid, CandidateInput>)
    : nat
  {
    |Top(RoleOrder(pool, role, byId), Needed(required, role))|
  }

  lemma RoleOfTop(
    pool: seq<ScoredCandidate>, r: FantasyRole, n: int, role: FantasyRole, byId: map<Uuid, CandidateInput>)
    requires DistinctIds(pool)
    ensures var chosen := Top(RoleOrder(pool, r, byId), n);
      Keep(HasRole(role), chosen) == if r == role then chosen else []
  {
    var chosen := Top(RoleOrder(pool, r, byId), n);
    RoleOrderFacts(pool, r, byId);
    assert forall x :: x in chosen ==> x in RoleOrder(pool, r, byId);
    if r == role {
      KeepAll(HasRole(role), chosen);
    } else {
      KeepNone(HasRole(role), chosen);
    }
  }

  lemma EmptySides(s: seq<ScoredCandidate>)
    ensures s + [] == s && [] + s == s
  {
  }

  lemma {:induction false} ReservedByRole(
    pool: seq<ScoredCandidate>, required: Required, role: FantasyRole, byId: map<Uuid, CandidateInput>)
    requires DistinctIds(pool) && DistinctRoles(required)
    ensures Keep(HasRole(role), Reserved(pool, required, byId))
         == Top(RoleOrder(pool, role, byId), Needed(required, role))
  {
    if required != [] {
      var before, last := required[..|required| - 1], required[|required| - 1];
      var chosen := Top(RoleOrder(pool, last.0, byId), last.1);
      ReservedByRole(pool, before, role, byId);
      KeepAppend(HasRole(role), Reserved(pool, before, byId), chosen);
      RoleOfTop(pool, last.0, last.1, role, byId);
      if last.0 == role {
        NeededAbsent(before, role);
        EmptySides(chosen);
      } else {
        EmptySides(Keep(HasRole(role), Reserved(pool, before, byId)));
      }
    }
  }

  lemma {:induction false} NeededAbsent(required: Required, role: FantasyRole)
    requires forall i :: 0 <= i < |required| ==> required[i].0 != role
    ensures Needed(required, role) == 0
  {
    if required != [] {
      NeededAbsent(required[..|required| - 1], role);
    }
  }

  lemma {:induction false} ReservedInPool(pool: seq<ScoredCandidate>, required: Required, byId: map<Uuid, CandidateInput>)
    requires DistinctIds(pool)
    ensures forall x :: x in Reserved(pool, required, byId) ==> x in pool
  {
    if required != [] {
      ReservedInPool(pool, required[..|required| - 1], byId);
      RoleOrderFacts(pool, required[|required| - 1].0, byId);
    }
  }

  lemma FreeAgentFacts(pool: seq<ScoredCandidate>, required: Required, byId: map<Uuid, CandidateInput>)
    requires DistinctIds(pool)
    ensures var s := FreeAgents(pool, required, byId);
      && SortedBy(s, ByScore(byId)) && DistinctIds(s)
      && (forall x :: x in s <==> x in pool && x.athleteId !in IdSet(Reserved(pool, required, byId)))
  {
    var open := NotIn(IdSet(Reserved(pool, required, byId)));
    DistinctKeep(open, pool);
    KeepIn(open, pool);
    StrictByScore(byId);
    DistinctComparable(Keep(open, pool), byId);
    SortSorts(Keep(open, pool), ByScore(byId));
    SortPermutation(Keep(open, pool), ByScore(byId));
    SameItems(FreeAgents(pool, required, byId), Keep(open, pool));
    DistinctPermutation(Keep(open, pool), FreeAgents(pool, required, byId));
  }

  lemma ActiveInPool(pool: seq<ScoredCandidate>, required: Required, size: int, byId: map<Uuid, CandidateInput>)
    requires DistinctIds(pool)
    ensures forall x :: x in ActiveBench(pool, required, size, byId) ==> x in pool
  {
    ReservedInPool(pool, required, byId);
    FreeAgentFacts(pool, required, byId);
  }

  /** Sorting everyone free and reading a role off, or ranking the role and dropping the used: the same. */
  lemma SortedFreeByRole(
    pool: seq<ScoredCandidate>, used: set<Uuid>, role: FantasyRole, byId: map<Uuid, CandidateInput>)
    requires DistinctIds(pool)
    ensures Keep(HasRole(role), SortBy(Keep(NotIn(used), pool), ByScore(byId)))
         == Keep(NotIn(used), RoleOrder(pool, role, byId))
  {
    StrictByScore(byId);
    DistinctKeep(NotIn(used), pool);
    DistinctComparable(Keep(NotIn(used), pool), byId);
    SortKeep(HasRole(role), Keep(NotIn(used), pool), ByScore(byId));
    KeepCommutes(HasRole(role), NotIn(used), pool);
    DistinctKeep(HasRole(role), pool);
    DistinctComparable(Keep(HasRole(role), pool), byId);
    SortKeep(NotIn(used), Keep(HasRole(role), pool), ByScore(byId));
  }

  /** Dropping a group from a ranked list whose head it holds leaves the rest of the list. */
  lemma DropHead(
    group: seq<ScoredCandidate>, pool: seq<ScoredCandidate>, role: FantasyRole, s: seq<ScoredCandidate>, n: nat)
    requires DistinctIds(pool) && DistinctIds(s) && n <= |s|
    requires forall x :: x in group ==> x in pool
    requires forall x :: x in s ==> x in pool && x.role == role
    requires Keep(HasRole(role), group) == s[..n]
    ensures Keep(NotIn(IdSet(group)), s) == s[n..]
  {
    PrefixMembership(group, pool, role, s, n);
    KeepAfterPrefix(s, n, IdSet(group));
  }

  lemma ReservedIsHead(
    pool: seq<ScoredCandidate>, required: Required, role: FantasyRole, byId: map<Uuid, CandidateInput>)
    requires DistinctIds(pool) && DistinctRoles(required)
    ensures var s, q := RoleOrder(pool, role, byId), Reserve(pool, required, role, byId);
      q <= |s| && Keep(HasRole(role), Reserved(pool, required, byId)) == s[..q]
  {
    ReservedByRole(pool, required, role, byId);
    TopIsPrefix(RoleOrder(pool, role, byId), Needed(required, role));
  }

  /** The free agents of a role are its ranked list after the reserved heads. */
  lemma FreeAgentsByRole(
    pool: seq<ScoredCandidate>, required: Required, role: FantasyRole, byId: map<Uuid, CandidateInput>)
    requires DistinctIds(pool) && DistinctRoles(required)
    ensures Reserve(pool, required, role, byId) <= |RoleOrder(pool, role, byId)|
    ensures Keep(HasRole(role), FreeAgents(pool, required, byId))
         == RoleOrder(pool, role, byId)[Reserve(pool, required, role, byId)..]
  {
    var reserved := Reserved(pool, required, byId);
    SortedFreeByRole(pool, IdSet(reserved), role, byId);
    ReservedIsHead(pool, required, role, byId);
    ReservedInPool(pool, required, byId);
    RoleOrderFacts(pool, role, byId);
    DropHead(reserved, pool, role, RoleOrder(pool, role, byId), Reserve(pool, required, role, byId));
  }

  /** How many of a role sit on the active bench. */
  function ActiveCount(
    pool: seq<ScoredCandidate>, required: Required, size: int, role: FantasyRole, byId: map<Uuid, CandidateInput>): nat
  {
    |Keep(HasRole(role), ActiveBench(pool, required, size, byId))|
  }

  lemma JoinSlices(s: seq<ScoredCandidate>, q: nat, m: nat)
    requires q + m <= |s|
    ensures s[q..][..m] == s[q..q + m]
    ensures s[..q] + s[q..q + m] == s[..q + m]
  {
  }

  /** The fill takes the next places of each role's ranked list. */
  lemma FilledByRole(
    pool: seq<ScoredCandidate>, required: Required, size: int, role: FantasyRole, byId: map<Uuid, CandidateInput>)
    requires DistinctIds(pool) && DistinctRoles(required)
    ensures var s, q := RoleOrder(pool, role, byId), Reserve(pool, required, role, byId);
      var filled := Filled(pool, required, size, byId);
      var free := FreeAgents(pool, required, byId);
      var m := |Keep(HasRole(role), filled)|;
      && |filled| <= |free|
      && q + m <= |s|
      && Keep(HasRole(role), filled) == s[q..q + m]
      && Keep(HasRole(role), free[|filled|..]) == s[q + m..]
  {
    var s, q := RoleOrder(pool, role, byId), Reserve(pool, required, role, byId);
    var free, filled := FreeAgents(pool, required, byId), Filled(pool, required, size, byId);
    FreeAgentsByRole(pool, required, role, byId);
    FilledIsHead(pool, required, size, byId);
    CutByRole(free, |filled|, role, s, q);
  }

  lemma FilledIsHead(pool: seq<ScoredCandidate>, required: Required, size: int, byId: map<Uuid, CandidateInput>)
    ensures var free, filled := FreeAgents(pool, required, byId), Filled(pool, required, size, byId);
      |filled| <= |free| && filled == free[..|filled|]
  {
  }

  lemma CutByRole(free: seq<ScoredCandidate>, k: nat, role: FantasyRole, s: seq<ScoredCandidate>, q: nat)
    requires k <= |free| && q <= |s| && Keep(HasRole(role), free) == s[q..]
    ensures var m := |Keep(HasRole(role), free[..k])|;
      && q + m <= |s|
      && Keep(HasRole(role), free[..k]) == s[q..q + m]
      && Keep(HasRole(role), free[k..]) == s[q + m..]
  {
    KeepOfPrefix(HasRole(role), free, k);
  }

  /** On the active bench each role shows the first places of its own ranked list. */
  lemma ActiveByRole(
    pool: seq<ScoredCandidate>, required: Required, size: int, role: FantasyRole, byId: map<Uuid, CandidateInput>)
    requires DistinctIds(pool) && DistinctRoles(required)
    ensures var s, n := RoleOrder(pool, role, byId), ActiveCount(pool, required, size, role, byId);
      && Reserve(pool, required, role, byId) <= n <= |s|
      && Keep(HasRole(role), ActiveBench(pool, required, size, byId)) == s[..n]
      && Keep(HasRole(role), Filled(pool, required, size, byId)) == s[Reserve(pool, required, role, byId)..n]
  {
    var s, q := RoleOrder(pool, role, byId), Reserve(pool, required, role, byId);
    var reserved, filled := Reserved(pool, required, byId), Filled(pool, required, size, byId);
    ReservedIsHead(pool, required, role, byId);
    FilledByRole(pool, required, size, role, byId);
    JoinRole(reserved, filled, role, s, q, |Keep(HasRole(role), filled)|);
  }

  lemma TopIsPrefix(s: seq<ScoredCandidate>, n: int)
    ensures |Top(s, n)| <= |s| && Top(s, n) == s[..|Top(s, n)|]
  {
  }

  lemma JoinRole(
    reserved: seq<ScoredCandidate>, filled: seq<ScoredCandidate>, role: FantasyRole, s: seq<ScoredCandidate>,
    q: nat, m: nat)
    requires q + m <= |s|
    requires Keep(HasRole(role), reserved) == s[..q] && Keep(HasRole(role), filled) == s[q..q + m]
    ensures Keep(HasRole(role), reserved + filled) == s[..q + m]
    ensures |Keep(HasRole(role), reserved + filled)| == q + m
  {
    KeepAppend(HasRole(role), reserved, filled);
    JoinSlices(s, q, m);
  }

  lemma ActiveMembership(
    pool: seq<ScoredCandidate>, required: Required, size: int, role: FantasyRole, byId: map<Uuid, CandidateInput>)
    requires DistinctIds(pool) && DistinctRoles(required)
    ensures var s, n := RoleOrder(pool, role, byId), ActiveCount(pool, required, size, role, byId);
      forall i :: 0 <= i < |s| ==> (s[i].athleteId in IdSet(ActiveBench(pool, required, size, byId)) <==> i < n)
  {
    ActiveByRole(pool, required, size, role, byId);
    ActiveInPool(pool, required, size, byId);
    RoleOrderFacts(pool, role, byId);
    PrefixMembership(
      ActiveBench(pool, required, size, byId), pool, role, RoleOrder(pool, role, byId),
      ActiveCount(pool, required, size, role, byId));
  }

  lemma TailGroup(
    pool: seq<ScoredCandidate>, last: FantasyRole, used: set<Uuid>, role: FantasyRole, byId: map<Uuid, CandidateInput>)
    requires DistinctIds(pool)
    ensures var group := Keep(NotIn(used), RoleOrder(pool, last, byId));
      Keep(HasRole(role), group) == if last == role then group else []
  {
    var group := Keep(NotIn(used), RoleOrder(pool, last, byId));
    RoleOrderFacts(pool, last, byId);
    KeepIn(NotIn(used), RoleOrder(pool, last, byId));
    if last == role {
      KeepAll(HasRole(role), group);
    } else {
      KeepNone(HasRole(role), group);
    }
  }

  lemma {:induction false} TailByRole(
    pool: seq<ScoredCandidate>, roles: seq<FantasyRole>, used: set<Uuid>, role: FantasyRole,
    byId: map<Uuid, CandidateInput>)
    requires DistinctIds(pool) && forall i, j :: 0 <= i < j < |roles| ==> roles[i] != roles[j]
    ensures Keep(HasRole(role), TailOf(pool, roles, used, byId))
         == if role in roles then Keep(NotIn(used), RoleOrder(pool, role, byId)) else []
  {
    if roles != [] {
      var before, last := roles[..|roles| - 1], roles[|roles| - 1];
      assert roles == before + [last];
      TailByRole(pool, before, used, role, byId);
      var group := Keep(NotIn(used), RoleOrder(pool, last, byId));
      KeepAppend(HasRole(role), TailOf(pool, before, used, byId), group);
      TailGroup(pool, last, used, role, byId);
    }
  }

  lemma EveryRoleListed(role: FantasyRole)
    ensures role in ROLES
  {
  }

  lemma TailIsRest(
    pool: seq<ScoredCandidate>, required: Required, size: int, role: FantasyRole, byId: map<Uuid, CandidateInput>)
    requires DistinctIds(pool) && DistinctRoles(required)
    ensures var n := ActiveCount(pool, required, size, role, byId);
      && n <= |RoleOrder(pool, role, byId)|
      && Keep(HasRole(role), TailOf(pool, ROLES, IdSet(ActiveBench(pool, required, size, byId)), byId))
         == RoleOrder(pool, role, byId)[n..]
  {
    UnusedIsRest(pool, required, size, role, byId);
    TailOfRole(pool, IdSet(ActiveBench(pool, required, size, byId)), role, byId);
  }

  lemma TailOfRole(
    pool: seq<ScoredCandidate>, used: set<Uuid>, role: FantasyRole, byId: map<Uuid, CandidateInput>)
    requires DistinctIds(pool)
    ensures Keep(HasRole(role), TailOf(pool, ROLES, used, byId)) == Keep(NotIn(used), RoleOrder(pool, role, byId))
  {
    TailByRole(pool, ROLES, used, role, byId);
    EveryRoleListed(role);
  }

  lemma UnusedIsRest(
    pool: seq<ScoredCandidate>, required: Required, size: int, role: FantasyRole, byId: map<Uuid, CandidateInput>)
    requires DistinctIds(pool) && DistinctRoles(required)
    ensures var n := ActiveCount(pool, required, size, role, byId);
      && n <= |RoleOrder(pool, role, byId)|
      && Keep(NotIn(IdSet(ActiveBench(pool, required, size, byId))), RoleOrder(pool, role, byId))
         == RoleOrder(pool, role, byId)[n..]
  {
    ActiveByRole(pool, required, size, role, byId);
    ActiveMembership(pool, required, size, role, byId);
    KeepAfterPrefix(
      RoleOrder(pool, role, byId), ActiveCount(pool, required, size, role, byId),
      IdSet(ActiveBench(pool, required, size, byId)));
  }

  /** Reading one role off the whole bench gives that role's ranked list. */
  lemma BenchByRole(
    pool: seq<ScoredCandidate>, required: Required, size: int, role: FantasyRole, byId: map<Uuid, CandidateInput>)
    requires DistinctIds(pool) && DistinctRoles(required)
    ensures Keep(HasRole(role), BenchOrder(pool, required, size, byId)) == RoleOrder(pool, role, byId)
  {
    var active := ActiveBench(pool, required, size, byId);
    ActiveByRole(pool, required, size, role, byId);
    TailIsRest(pool, required, size, role, byId);
    JoinRest(
      active, TailOf(pool, ROLES, IdSet(active), byId), role, RoleOrder(pool, role, byId),
      ActiveCount(pool, required, size, role, byId));
  }

  lemma JoinRest(
    active: seq<ScoredCandidate>, tail: seq<ScoredCandidate>, role: FantasyRole, s: seq<ScoredCandidate>, n: nat)
    requires n <= |s| && Keep(HasRole(role), active) == s[..n] && Keep(HasRole(role), tail) == s[n..]
    ensures Keep(HasRole(role), active + tail) == s
  {
    KeepAppend(HasRole(role), active, tail);
    assert s == s[..n] + s[n..];
  }

  /** The bench order loses nobody and repeats nobody. */
  lemma BenchIsPermutation(
    pool: seq<ScoredCandidate>, required: Required, size: int, byId: map<Uuid, CandidateInput>)
    requires DistinctIds(pool) && DistinctRoles(required)
    ensures multiset(BenchOrder(pool, required, size, byId)) == multiset(pool)
    ensures DistinctIds(BenchOrder(pool, required, size, byId))
  {
    var bench := BenchOrder(pool, required, size, byId);
    forall r: FantasyRole ensures multiset(Keep(HasRole(r), bench)) == multiset(Keep(HasRole(r), pool)) {
      BenchByRole(pool, required, size, r, byId);
      RoleOrderFacts(pool, r, byId);
    }
    RolesDecide(bench, pool);
    DistinctPermutation(pool, bench);
  }

  /* ---- sizes ---- */

  lemma RoleShare(pool: seq<ScoredCandidate>, required: Required, r: FantasyRole, byId: map<Uuid, CandidateInput>)
    requires DistinctIds(pool) && DistinctRoles(required)
    ensures |Keep(HasRole(r), Reserved(pool, required, byId))| + |Keep(HasRole(r), FreeAgents(pool, required, byId))|
         == |Keep(HasRole(r), pool)|
  {
    ReservedByRole(pool, required, r, byId);
    FreeAgentsByRole(pool, required, r, byId);
    RoleOrderFacts(pool, r, byId);
  }

  lemma ReservedLength(pool: seq<ScoredCandidate>, required: Required, byId: map<Uuid, CandidateInput>)
    requires DistinctIds(pool) && DistinctRoles(required)
    ensures |Reserved(pool, required, byId)| + |FreeAgents(pool, required, byId)| == |pool|
  {
    var reserved, free := Reserved(pool, required, byId), FreeAgents(pool, required, byId);
    RoleLengths(pool);
    RoleLengths(reserved);
    RoleLengths(free);
    RoleShare(pool, required, P, byId);
    RoleShare(pool, required, D, byId);
    RoleShare(pool, required, C, byId);
    RoleShare(pool, required, A, byId);
  }

  /** With room for the reserved heads, the active bench fills its places exactly. */
  lemma ActiveLength(pool: seq<ScoredCandidate>, required: Required, size: int, byId: map<Uuid, CandidateInput>)
    requires DistinctIds(pool) && DistinctRoles(required)
    requires |Reserved(pool, required, byId)| <= size
    ensures |ActiveBench(pool, required, size, byId)| == Min(size, |pool|)
  {
    ReservedLength(pool, required, byId);
  }

  /** The first places hold the quota of every role, or the whole role when it is short. */
  lemma QuotaGuaranteed(
    pool: seq<ScoredCandidate>, required: Required, size: int, role: FantasyRole, byId: map<Uuid, CandidateInput>)
    requires DistinctIds(pool) && DistinctRoles(required)
    requires |Reserved(pool, required, byId)| <= size
    ensures Min(size, |pool|) <= |BenchOrder(pool, required, size, byId)|
    ensures var first := BenchOrder(pool, required, size, byId)[..Min(size, |pool|)];
      |Keep(HasRole(role), first)| >= Min(Needed(required, role), |Keep(HasRole(role), pool)|)
  {
    ActiveLength(pool, required, size, byId);
    ActiveByRole(pool, required, size, role, byId);
    RoleOrderFacts(pool, role, byId);
    assert BenchOrder(pool, required, size, byId)[..Min(size, |pool|)] == ActiveBench(pool, required, size, byId);
  }

  /* ---- the default quota ---- */

  lemma DefaultRequiredFacts(pool: seq<ScoredCandidate>)
    ensures DistinctRoles(DefaultRequired(pool))
    ensures forall r: FantasyRole ::
      Needed(DefaultRequired(pool), r) == Min(BenchActiveRoleQuota(r), |Keep(HasRole(r), pool)|)
  {
    var required := DefaultRequired(pool);
    assert required[..3][..2][..1] == required[..1] && required[..3][..2] == required[..2];
    forall r: FantasyRole
      ensures Needed(required, r) == Min(BenchActiveRoleQuota(r), |Keep(HasRole(r), pool)|)
    {
      assert Needed(required[..3], r) == if r == C then required[2].1 else Needed(required[..2], r);
      assert Needed(required[..2], r) == if r == D then required[1].1 else Needed(required[..1], r);
      assert Needed(required[..1], r) == if r == P then required[0].1 else 0;
    }
  }

  lemma ReservedAtMost(pool: seq<ScoredCandidate>, required: Required, r: FantasyRole, byId: map<Uuid, CandidateInput>)
    requires DistinctIds(pool) && DistinctRoles(required)
    ensures |Keep(HasRole(r), Reserved(pool, required, byId))| <= Max0(Needed(required, r))
  {
    ReservedByRole(pool, required, r, byId);
  }

  lemma DefaultFits(pool: seq<ScoredCandidate>, byId: map<Uuid, CandidateInput>)
    requires DistinctIds(pool)
    ensures |Reserved(pool, DefaultRequired(pool), byId)| <= BENCH_ACTIVE_SIZE
  {
    var required := DefaultRequired(pool);
    DefaultRequiredFacts(pool);
    RoleLengths(Reserved(pool, required, byId));
    ReservedAtMost(pool, required, P, byId);
    ReservedAtMost(pool, required, D, byId);
    ReservedAtMost(pool, required, C, byId);
    ReservedAtMost(pool, required, A, byId);
  }

  /** With the default quota the first ten places honour one, three, three and three. */
  lemma DefaultQuotaGuaranteed(pool: seq<ScoredCandidate>, role: FantasyRole, byId: map<Uuid, CandidateInput>)
    requires DistinctIds(pool)
    ensures var bench := BenchOrder(pool, DefaultRequired(pool), BENCH_ACTIVE_SIZE, byId);
      && Min(BENCH_ACTIVE_SIZE, |pool|) <= |bench|
      && |Keep(HasRole(role), bench[..Min(BENCH_ACTIVE_SIZE, |pool|)])|
         >= Min(BenchActiveRoleQuota(role), |Keep(HasRole(role), pool)|)
  {
    DefaultRequiredFacts(pool);
    DefaultFits(pool, byId);
    ActiveLength(pool, DefaultRequired(pool), BENCH_ACTIVE_SIZE, byId);
    QuotaGuaranteed(pool, DefaultRequired(pool), BENCH_ACTIVE_SIZE, role, byId);
  }

  /* ---- optimality ---- */

  /**
   * A price that separates the bench: nobody left out is worth more, and in a
   * role that goes past its quota everyone active is worth at least as much.
   */
  ghost predicate Separates(
    price: real, pool: seq<ScoredCandidate>, required: Required, size: int, byId: map<Uuid, CandidateInput>)
  {
    forall r: FantasyRole :: SeparatesIn(
      price, RoleOrder(pool, r, byId), ActiveCount(pool, required, size, r, byId), Reserve(pool, required, r, byId))
  }

  ghost predicate SeparatesIn(price: real, s: seq<ScoredCandidate>, n: nat, reserved: nat) {
    && n <= |s|
    && (forall i :: n <= i < |s| ==> s[i].score <= price)
    && (n == reserved || forall i :: 0 <= i < n ==> s[i].score >= price)
  }

  lemma {:induction false} UpperBound(s: seq<ScoredCandidate>) returns (price: real)
    ensures forall x :: x in s ==> x.score <= price
  {
    if s == [] {
      price := 0.0;
    } else {
      var below := UpperBound(s[1..]);
      price := if below >= s[0].score then below else s[0].score;
      assert forall x :: x in s ==> x == s[0] || x in s[1..];
    }
  }

  lemma SeparatingPrice(pool: seq<ScoredCandidate>, required: Required, size: int, byId: map<Uuid, CandidateInput>)
    returns (price: real)
    requires DistinctIds(pool) && DistinctRoles(required)
    ensures Separates(price, pool, required, size, byId)
  {
    var filled := Filled(pool, required, size, byId);
    if filled == [] {
      price := UpperBound(pool);
    } else {
      price := filled[|filled| - 1].score;
    }
    forall r: FantasyRole
      ensures SeparatesIn(
        price, RoleOrder(pool, r, byId), ActiveCount(pool, required, size, r, byId), Reserve(pool, required, r, byId))
    {
      if filled != [] {
        SeparatesRole(pool, required, size, r, byId);
      } else {
        NoFillSeparates(price, pool, required, size, r, byId);
      }
    }
  }

  lemma NoFillSeparates(
    price: real, pool: seq<ScoredCandidate>, required: Required, size: int, r: FantasyRole,
    byId: map<Uuid, CandidateInput>)
    requires DistinctIds(pool) && DistinctRoles(required)
    requires Filled(pool, required, size, byId) == [] && forall x :: x in pool ==> x.score <= price
    ensures SeparatesIn(
      price, RoleOrder(pool, r, byId), ActiveCount(pool, required, size, r, byId), Reserve(pool, required, r, byId))
  {
    var s := RoleOrder(pool, r, byId);
    RoleOrderFacts(pool, r, byId);
    ActiveByRole(pool, required, size, r, byId);
    ActiveCountIs(pool, required, size, r, byId);
    assert forall i :: 0 <= i < |s| ==> s[i] in s;
  }

  lemma SeparatesRole(
    pool: seq<ScoredCandidate>, required: Required, size: int, r: FantasyRole, byId: map<Uuid, CandidateInput>)
    requires DistinctIds(pool) && DistinctRoles(required)
    requires Filled(pool, required, size, byId) != []
    ensures var filled := Filled(pool, required, size, byId);
      SeparatesIn(
        filled[|filled| - 1].score, RoleOrder(pool, r, byId), ActiveCount(pool, required, size, r, byId),
        Reserve(pool, required, r, byId))
  {
    var filled := Filled(pool, required, size, byId);
    RankedListsFall(pool, required, r, byId);
    FilledByRole(pool, required, size, r, byId);
    ActiveCountIs(pool, required, size, r, byId);
    FilledIsHead(pool, required, size, byId);
    HeadSeparates(
      FreeAgents(pool, required, byId), filled, r, RoleOrder(pool, r, byId), Reserve(pool, required, r, byId),
      |Keep(HasRole(r), filled)|);
  }

  lemma HeadSeparates(
    free: seq<ScoredCandidate>, filled: seq<ScoredCandidate>, r: FantasyRole, s: seq<ScoredCandidate>, q: nat, m: nat)
    requires filled != [] && |filled| <= |free| && filled == free[..|filled|]
    requires q + m <= |s| && ScoresFall(s) && ScoresFall(free)
    requires Keep(HasRole(r), filled) == s[q..q + m] && Keep(HasRole(r), free[|filled|..]) == s[q + m..]
    ensures SeparatesIn(filled[|filled| - 1].score, s, q + m, q)
  {
    CutSeparates(free, |filled|, r, s, q, m);
  }

  lemma RankedListsFall(
    pool: seq<ScoredCandidate>, required: Required, r: FantasyRole, byId: map<Uuid, CandidateInput>)
    requires DistinctIds(pool)
    ensures ScoresFall(RoleOrder(pool, r, byId)) && ScoresFall(FreeAgents(pool, required, byId))
  {
    RoleOrderFacts(pool, r, byId);
    SortedScoresFall(RoleOrder(pool, r, byId), byId);
    FreeAgentFacts(pool, required, byId);
    SortedScoresFall(FreeAgents(pool, required, byId), byId);
  }

  lemma ActiveCountIs(
    pool: seq<ScoredCandidate>, required: Required, size: int, r: FantasyRole, byId: map<Uuid, CandidateInput>)
    requires DistinctIds(pool) && DistinctRoles(required)
    ensures ActiveCount(pool, required, size, r, byId)
         == Reserve(pool, required, r, byId) + |Keep(HasRole(r), Filled(pool, required, size, byId))|
  {
    KeepAppend(HasRole(r), Reserved(pool, required, byId), Filled(pool, required, size, byId));
    ReservedByRole(pool, required, r, byId);
  }

  lemma CutSeparates(free: seq<ScoredCandidate>, k: nat, r: FantasyRole, s: seq<ScoredCandidate>, q: nat, m: nat)
    requires 0 < k <= |free| && q + m <= |s| && ScoresFall(s) && ScoresFall(free)
    requires Keep(HasRole(r), free[..k]) == s[q..q + m] && Keep(HasRole(r), free[k..]) == s[q + m..]
    ensures SeparatesIn(free[k - 1].score, s, q + m, q)
  {
    KeepIn(HasRole(r), free[k..]);
    KeepIn(HasRole(r), free[..k]);
    forall i | q + m <= i < |s| ensures s[i].score <= free[k - 1].score {
      assert s[q + m..][i - (q + m)] in s[q + m..];
      var j :| 0 <= j < |free[k..]| && free[k..][j] == s[i];
      assert free[k + j] == s[i];
    }
    if m > 0 {
      assert s[q..q + m][m - 1] in s[q..q + m];
      var j :| 0 <= j < k && free[..k][j] == s[q + m - 1];
      assert free[j] == s[q + m - 1];
    }
  }

  /** A team the quota allows: as many heads, and in each role at least the reserved ones. */
  ghost predicate MeetsQuota(
    team: set<Uuid>, pool: seq<ScoredCandidate>, required: Required, size: int, byId: map<Uuid, CandidateInput>)
  {
    && HeadCount(pool, team) == |ActiveBench(pool, required, size, byId)|
    && forall r: FantasyRole ::
         HeadCount(Keep(HasRole(r), pool), team) >= Min(Needed(required, r), |Keep(HasRole(r), pool)|)
  }

  lemma RoleSurplus(
    team: set<Uuid>, price: real,
    pool: seq<ScoredCandidate>, required: Required, size: int, r: FantasyRole, byId: map<Uuid, CandidateInput>)
    requires DistinctIds(pool) && DistinctRoles(required)
    requires Separates(price, pool, required, size, byId)
    requires HeadCount(Keep(HasRole(r), pool), team) >= Reserve(pool, required, r, byId)
    ensures NoGain(Keep(HasRole(r), pool), team, IdSet(ActiveBench(pool, required, size, byId)), price)
  {
    var active := IdSet(ActiveBench(pool, required, size, byId));
    var s, n := RoleOrder(pool, r, byId), ActiveCount(pool, required, size, r, byId);
    SortTotals(Keep(HasRole(r), pool), ByScore(byId), team, price);
    RoleOrderFacts(pool, r, byId);
    SortedScoresFall(s, byId);
    ActiveMembership(pool, required, size, r, byId);
    assert SeparatesIn(price, s, n, Reserve(pool, required, r, byId));
    PrefixBeats(s, team, active, n, price);
    NoGainUnsorted(Keep(HasRole(r), pool), ByScore(byId), team, active, price);
  }

  /** Among all teams that meet the quota, the active bench scores the most. */
  lemma ActiveBenchIsBest(
    team: set<Uuid>, pool: seq<ScoredCandidate>, required: Required, size: int, byId: map<Uuid, CandidateInput>)
    requires DistinctIds(pool) && DistinctRoles(required)
    requires MeetsQuota(team, pool, required, size, byId)
    ensures TotalScore(pool, team) <= TotalScore(pool, IdSet(ActiveBench(pool, required, size, byId)))
  {
    var active := IdSet(ActiveBench(pool, required, size, byId));
    var price := SeparatingPrice(pool, required, size, byId);
    forall r: FantasyRole ensures NoGain(Keep(HasRole(r), pool), team, active, price) {
      RoleOrderFacts(pool, r, byId);
      RoleSurplus(team, price, pool, required, size, r, byId);
    }
    ActiveHeads(pool, required, size, byId);
    NoGainOverall(pool, team, active, price);
  }

  lemma ActiveHeadsIn(
    pool: seq<ScoredCandidate>, required: Required, size: int, r: FantasyRole, byId: map<Uuid, CandidateInput>)
    requires DistinctIds(pool) && DistinctRoles(required)
    ensures HeadCount(Keep(HasRole(r), pool), IdSet(ActiveBench(pool, required, size, byId)))
         == ActiveCount(pool, required, size, r, byId)
  {
    var active := IdSet(ActiveBench(pool, required, size, byId));
    SortTotals(Keep(HasRole(r), pool), ByScore(byId), active, 0.0);
    ActiveByRole(pool, required, size, r, byId);
    ActiveMembership(pool, required, size, r, byId);
    PrefixIsChosen(RoleOrder(pool, r, byId), ActiveCount(pool, required, size, r, byId), active, 0.0);
  }

  lemma ActiveHeads(pool: seq<ScoredCandidate>, required: Required, size: int, byId: map<Uuid, CandidateInput>)
    requires DistinctIds(pool) && DistinctRoles(required)
    ensures var active := ActiveBench(pool, required, size, byId);
      HeadCount(pool, IdSet(active)) == |active|
  {
    var active := ActiveBench(pool, required, size, byId);
    RoleLengths(active);
    TotalsByRole(pool, IdSet(active), 0.0);
    forall r: FantasyRole
      ensures HeadCount(Keep(HasRole(r), pool), IdSet(active)) == |Keep(HasRole(r), active)|
    {
      ActiveHeadsIn(pool, required, size, r, byId);
    }
  }

  lemma ReserveMeetsQuota(
    pool: seq<ScoredCandidate>, required: Required, r: FantasyRole, byId: map<Uuid, CandidateInput>)
    requires DistinctIds(pool)
    ensures Reserve(pool, required, r, byId) >= Min(Needed(required, r), |Keep(HasRole(r), pool)|)
  {
    RoleOrderFacts(pool, r, byId);
  }

  /** The bench itself is one of the teams it is compared with. */
  lemma ActiveBenchMeetsQuota(
    pool: seq<ScoredCandidate>, required: Required, size: int, byId: map<Uuid, CandidateInput>)
    requires DistinctIds(pool) && DistinctRoles(required)
    ensures MeetsQuota(IdSet(ActiveBench(pool, required, size, byId)), pool, required, size, byId)
  {
    ActiveHeads(pool, required, size, byId);
    forall r: FantasyRole
      ensures HeadCount(Keep(HasRole(r), pool), IdSet(ActiveBench(pool, required, size, byId)))
           >= Min(Needed(required, r), |Keep(HasRole(r), pool)|)
    {
      ActiveHeadsIn(pool, required, size, r, byId);
      ReserveMeetsQuota(pool, required, r, byId);
      ActiveByRole(pool, required, size, r, byId);
    }
  }

  /* ---- excluded athletes ---- */

  /**
   * Every excluded athlete on the active bench is there because no eligible one
   * was left: none of the role outside the quota, or none at all outside the bench.
   */
  ghost predicate ExcludedOnlyWhenNeeded(
    pool: seq<ScoredCandidate>, required: Required, size: int, byId: map<Uuid, CandidateInput>)
  {
    forall x :: x in ActiveBench(pool, required, size, byId) && x.excludedReason.Some? ==>
      || (x in Reserved(pool, required, byId)
          && forall y :: y in pool && y.excludedReason.None? && y.role == x.role ==>
               y in Reserved(pool, required, byId))
      || (x in Filled(pool, required, size, byId)
          && forall y :: y in pool && y.excludedReason.None? ==> y in ActiveBench(pool, required, size, byId))
  }

  /** An excluded athlete inside and an eligible one of his role outside break the rule. */
  lemma InsideAndOutside(
    pool: seq<ScoredCandidate>, required: Required, size: int, byId: map<Uuid, CandidateInput>,
    x: ScoredCandidate, y: ScoredCandidate)
    requires x in ActiveBench(pool, required, size, byId) && x.excludedReason.Some?
    requires y in pool && y.excludedReason.None? && y.role == x.role && y !in ActiveBench(pool, required, size, byId)
    ensures !ExcludedOnlyWhenNeeded(pool, required, size, byId)
  {
    assert y !in Reserved(pool, required, byId);
  }

  /** Every eligible athlete sorts before every excluded one. */
  ghost predicate EligibleFirst(pool: seq<ScoredCandidate>, byId: map<Uuid, CandidateInput>) {
    forall x, y :: x in pool && y in pool && x.excludedReason.Some? && y.excludedReason.None? ==>
      Precedes(byId, y, x)
  }

  lemma PrefixClosed(
    s: seq<ScoredCandidate>, n: nat, x: ScoredCandidate, y: ScoredCandidate, byId: map<Uuid, CandidateInput>)
    requires SortedBy(s, ByScore(byId)) && n <= |s|
    requires x in s[..n] && y in s && Precedes(byId, y, x)
    ensures y in s[..n]
  {
  }

  lemma {:induction false} ReservedHolds(
    pool: seq<ScoredCandidate>, required: Required, x: ScoredCandidate, byId: map<Uuid, CandidateInput>)
    requires DistinctIds(pool) && DistinctRoles(required)
    ensures x in Reserved(pool, required, byId)
       <==> x in Top(RoleOrder(pool, x.role, byId), Needed(required, x.role))
  {
    ReservedByRole(pool, required, x.role, byId);
    KeepIn(HasRole(x.role), Reserved(pool, required, byId));
  }

  lemma QuotaNeedsExcluded(
    pool: seq<ScoredCandidate>, required: Required, byId: map<Uuid, CandidateInput>,
    x: ScoredCandidate, y: ScoredCandidate)
    requires DistinctIds(pool) && DistinctRoles(required)
    requires x in Reserved(pool, required, byId) && y in pool && y.role == x.role && Precedes(byId, y, x)
    ensures y in Reserved(pool, required, byId)
  {
    ReservedHolds(pool, required, x, byId);
    ReservedHolds(pool, required, y, byId);
    RoleOrderFacts(pool, x.role, byId);
    PrefixClosed(RoleOrder(pool, x.role, byId), Reserve(pool, required, x.role, byId), x, y, byId);
  }

  lemma FillNeedsExcluded(
    pool: seq<ScoredCandidate>, required: Required, size: int, byId: map<Uuid, CandidateInput>,
    x: ScoredCandidate, y: ScoredCandidate)
    requires DistinctIds(pool) && DistinctRoles(required)
    requires x in Filled(pool, required, size, byId) && y in pool && Precedes(byId, y, x)
    ensures y in ActiveBench(pool, required, size, byId)
  {
    var reserved, filled := Reserved(pool, required, byId), Filled(pool, required, size, byId);
    var free := FreeAgents(pool, required, byId);
    FreeAgentFacts(pool, required, byId);
    if y.athleteId in IdSet(reserved) {
      ReservedInPool(pool, required, byId);
      var z :| z in reserved && z.athleteId == y.athleteId;
      SameIdSameItem(pool, y, z);
    } else {
      assert filled == free[..|filled|];
      PrefixClosed(free, |filled|, x, y, byId);
    }
  }

  lemma EligibleFirstSuffices(
    pool: seq<ScoredCandidate>, required: Required, size: int, byId: map<Uuid, CandidateInput>)
    requires DistinctIds(pool) && DistinctRoles(required) && EligibleFirst(pool, byId)
    ensures ExcludedOnlyWhenNeeded(pool, required, size, byId)
  {
    ActiveInPool(pool, required, size, byId);
    forall x, y | x in Reserved(pool, required, byId) && x.excludedReason.Some?
                  && y in pool && y.excludedReason.None? && y.role == x.role
      ensures y in Reserved(pool, required, byId)
    {
      assert x in ActiveBench(pool, required, size, byId);
      QuotaNeedsExcluded(pool, required, byId, x, y);
    }
    forall x, y | x in Filled(pool, required, size, byId) && x.excludedReason.Some?
                  && y in pool && y.excludedReason.None?
      ensures y in ActiveBench(pool, required, size, byId)
    {
      assert x in ActiveBench(pool, required, size, byId);
      FillNeedsExcluded(pool, required, size, byId, x, y);
    }
  }

  lemma NoQuotaFree(pool: seq<ScoredCandidate>, byId: map<Uuid, CandidateInput>)
    ensures Reserved(pool, [], byId) == []
    ensures FreeAgents(pool, [], byId) == SortBy(pool, ByScore(byId))
  {
  }

  lemma NoQuotaBench(pool: seq<ScoredCandidate>, size: nat, byId: map<Uuid, CandidateInput>)
    requires size <= |pool|
    ensures Reserved(pool, [], byId) == []
    ensures ActiveBench(pool, [], size, byId) == Filled(pool, [], size, byId) == Top(SortBy(pool, ByScore(byId)), size)
  {
    NoQuotaFree(pool, byId);
    EmptySides(Filled(pool, [], size, byId));
  }

  /**
   * The rule holds for every quota and size exactly when every eligible athlete
   * sorts before every excluded one.
   */
  lemma ExcludedRuleExactly(pool: seq<ScoredCandidate>, byId: map<Uuid, CandidateInput>)
    requires DistinctIds(pool)
    ensures EligibleFirst(pool, byId)
       <==> forall required: Required, size: int ::
              DistinctRoles(required) ==> ExcludedOnlyWhenNeeded(pool, required, size, byId)
  {
    if EligibleFirst(pool, byId) {
      forall required: Required, size: int | DistinctRoles(required)
        ensures ExcludedOnlyWhenNeeded(pool, required, size, byId)
      {
        EligibleFirstSuffices(pool, required, size, byId);
      }
    } else {
      var x, y :| x in pool && y in pool && x.excludedReason.Some? && y.excludedReason.None? && !Precedes(byId, y, x);
      var size := BreakingSize(pool, x, y, byId);
      assert DistinctRoles([]);
      assert !ExcludedOnlyWhenNeeded(pool, [], size, byId);
    }
  }

  /* ---- the rule for one quota and size ---- */

  /** No excluded athlete stands before the cut while an eligible one stands after it. */
  ghost predicate CleanCut(s: seq<ScoredCandidate>, n: nat) {
    forall i, j :: 0 <= i < n <= j < |s| && s[i].excludedReason.Some? ==> s[j].excludedReason.Some?
  }

  lemma CleanCutByMembers(s: seq<ScoredCandidate>, n: nat)
    requires n <= |s|
    ensures CleanCut(s, n) <==>
      forall x, y :: x in s[..n] && y in s[n..] && x.excludedReason.Some? ==> y.excludedReason.Some?
  {
    if CleanCut(s, n) {
      forall x, y | x in s[..n] && y in s[n..] && x.excludedReason.Some? ensures y.excludedReason.Some? {
        var i :| 0 <= i < |s[..n]| && s[..n][i] == x;
        var j :| 0 <= j < |s[n..]| && s[n..][j] == y;
        assert s[i] == x && s[n + j] == y;
      }
    } else {
      var i, j :| 0 <= i < n <= j < |s| && s[i].excludedReason.Some? && s[j].excludedReason.None?;
      assert s[..n][i] in s[..n] && s[n..][j - n] in s[n..];
    }
  }

  /** The reserved places keep the rule in one role. */
  ghost predicate RoleRule(
    pool: seq<ScoredCandidate>, required: Required, r: FantasyRole, byId: map<Uuid, CandidateInput>)
  {
    forall x, y ::
      x in Reserved(pool, required, byId) && x.role == r && x.excludedReason.Some?
      && y in pool && y.role == r && y.excludedReason.None? ==>
        y in Reserved(pool, required, byId)
  }

  /** The filled places keep it too. */
  ghost predicate FillRule(
    pool: seq<ScoredCandidate>, required: Required, size: int, byId: map<Uuid, CandidateInput>)
  {
    forall x, y ::
      x in Filled(pool, required, size, byId) && x.excludedReason.Some? && y in pool && y.excludedReason.None? ==>
        y in ActiveBench(pool, required, size, byId)
  }

  lemma ReservedOrFilled(
    pool: seq<ScoredCandidate>, required: Required, size: int, byId: map<Uuid, CandidateInput>, x: ScoredCandidate)
    requires DistinctIds(pool)
    ensures x in ActiveBench(pool, required, size, byId)
       <==> x in Reserved(pool, required, byId) || x in Filled(pool, required, size, byId)
    ensures !(x in Reserved(pool, required, byId) && x in Filled(pool, required, size, byId))
  {
    FreeAgentFacts(pool, required, byId);
    FilledIsHead(pool, required, size, byId);
  }

  /** No ranked list is cut between an excluded athlete and a later eligible one. */
  ghost predicate CutsClean(
    pool: seq<ScoredCandidate>, required: Required, size: int, byId: map<Uuid, CandidateInput>)
  {
    && (forall r: FantasyRole :: CleanCut(RoleOrder(pool, r, byId), Reserve(pool, required, r, byId)))
    && CleanCut(FreeAgents(pool, required, byId), |Filled(pool, required, size, byId)|)
  }

  lemma RuleInParts(pool: seq<ScoredCandidate>, required: Required, size: int, byId: map<Uuid, CandidateInput>)
    requires DistinctIds(pool)
    ensures ExcludedOnlyWhenNeeded(pool, required, size, byId)
       <==> (forall r: FantasyRole :: RoleRule(pool, required, r, byId)) && FillRule(pool, required, size, byId)
  {
    forall x
      ensures x in ActiveBench(pool, required, size, byId)
         <==> x in Reserved(pool, required, byId) || x in Filled(pool, required, size, byId)
      ensures !(x in Reserved(pool, required, byId) && x in Filled(pool, required, size, byId))
    {
      ReservedOrFilled(pool, required, size, byId, x);
    }
    if forall r: FantasyRole :: RoleRule(pool, required, r, byId) {
      forall x, y | x in Reserved(pool, required, byId) && x.excludedReason.Some?
                    && y in pool && y.role == x.role && y.excludedReason.None?
        ensures y in Reserved(pool, required, byId)
      {
        assert RoleRule(pool, required, x.role, byId);
      }
    }
  }

  lemma BeforeOrAfter(s: seq<ScoredCandidate>, n: nat, x: ScoredCandidate)
    requires DistinctIds(s) && n <= |s|
    ensures x in s[n..] <==> x in s && x !in s[..n]
  {
    assert s == s[..n] + s[n..];
    if x in s[n..] {
      var j :| 0 <= j < |s[n..]| && s[n..][j] == x;
      forall i | 0 <= i < n ensures s[..n][i] != x {
        assert s[i].athleteId != s[n + j].athleteId;
      }
    }
  }

  /** Where a member of the role stands: before the cut exactly when it is reserved. */
  lemma ReservedIsBeforeCut(
    pool: seq<ScoredCandidate>, required: Required, r: FantasyRole, byId: map<Uuid, CandidateInput>, x: ScoredCandidate)
    requires DistinctIds(pool) && DistinctRoles(required)
    ensures var s, q := RoleOrder(pool, r, byId), Reserve(pool, required, r, byId);
      && q <= |s|
      && (x in s[..q] <==> x in Reserved(pool, required, byId) && x.role == r)
      && (x in s[q..] <==> x in pool && x.role == r && x !in Reserved(pool, required, byId))
  {
    var s, q := RoleOrder(pool, r, byId), Reserve(pool, required, r, byId);
    ReservedIsHead(pool, required, r, byId);
    KeepIn(HasRole(r), Reserved(pool, required, byId));
    RoleOrderFacts(pool, r, byId);
    BeforeOrAfter(s, q, x);
  }

  lemma RoleRuleIsCleanCut(
    pool: seq<ScoredCandidate>, required: Required, r: FantasyRole, byId: map<Uuid, CandidateInput>)
    requires DistinctIds(pool) && DistinctRoles(required)
    ensures RoleRule(pool, required, r, byId)
       <==> CleanCut(RoleOrder(pool, r, byId), Reserve(pool, required, r, byId))
  {
    var s, q := RoleOrder(pool, r, byId), Reserve(pool, required, r, byId);
    forall x
      ensures q <= |s|
      ensures x in s[..q] <==> x in Reserved(pool, required, byId) && x.role == r
      ensures x in s[q..] <==> x in pool && x.role == r && x !in Reserved(pool, required, byId)
    {
      ReservedIsBeforeCut(pool, required, r, byId, x);
    }
    CleanCutByMembers(s, q);
  }

  lemma FilledIsBeforeCut(
    pool: seq<ScoredCandidate>, required: Required, size: int, byId: map<Uuid, CandidateInput>, x: ScoredCandidate)
    requires DistinctIds(pool)
    ensures var free, n := FreeAgents(pool, required, byId), |Filled(pool, required, size, byId)|;
      && n <= |free|
      && free[..n] == Filled(pool, required, size, byId)
      && (x in free[n..] <==> x in pool && x !in ActiveBench(pool, required, size, byId))
  {
    var free, n := FreeAgents(pool, required, byId), |Filled(pool, required, size, byId)|;
    FilledIsHead(pool, required, size, byId);
    FreeAgentFacts(pool, required, byId);
    ReservedOrFilled(pool, required, size, byId, x);
    ReservedById(pool, required, byId, x);
    BeforeOrAfter(free, n, x);
  }

  lemma ReservedById(
    pool: seq<ScoredCandidate>, required: Required, byId: map<Uuid, CandidateInput>, x: ScoredCandidate)
    requires DistinctIds(pool)
    ensures x in pool ==> (x.athleteId in IdSet(Reserved(pool, required, byId)) <==> x in Reserved(pool, required, byId))
  {
    ReservedInPool(pool, required, byId);
    if x in pool && x.athleteId in IdSet(Reserved(pool, required, byId)) {
      var z :| z in Reserved(pool, required, byId) && z.athleteId == x.athleteId;
      SameIdSameItem(pool, x, z);
    }
  }

  lemma FillRuleIsCleanCut(pool: seq<ScoredCandidate>, required: Required, size: int, byId: map<Uuid, CandidateInput>)
    requires DistinctIds(pool)
    ensures FillRule(pool, required, size, byId)
       <==> CleanCut(FreeAgents(pool, required, byId), |Filled(pool, required, size, byId)|)
  {
    var free, n := FreeAgents(pool, required, byId), |Filled(pool, required, size, byId)|;
    forall x
      ensures n <= |free| && free[..n] == Filled(pool, required, size, byId)
      ensures x in free[n..] <==> x in pool && x !in ActiveBench(pool, required, size, byId)
    {
      FilledIsBeforeCut(pool, required, size, byId, x);
    }
    CleanCutByMembers(free, n);
  }

  /**
   * For one quota and size, excluded athletes enter only when needed exactly when no ranked list is
   * cut between an excluded athlete and a later eligible one: each role's at its reserved places,
   * and that of everyone else at the filled ones.
   */
  lemma ExcludedRuleForOneBench(
    pool: seq<ScoredCandidate>, required: Required, size: int, byId: map<Uuid, CandidateInput>)
    requires DistinctIds(pool) && DistinctRoles(required)
    ensures ExcludedOnlyWhenNeeded(pool, required, size, byId) <==> CutsClean(pool, required, size, byId)
  {
    RuleInParts(pool, required, size, byId);
    FillRuleIsCleanCut(pool, required, size, byId);
    forall r: FantasyRole
      ensures RoleRule(pool, required, r, byId)
         <==> CleanCut(RoleOrder(pool, r, byId), Reserve(pool, required, r, byId))
    {
      RoleRuleIsCleanCut(pool, required, r, byId);
    }
  }

  lemma DefaultReserve(pool: seq<ScoredCandidate>, r: FantasyRole, byId: map<Uuid, CandidateInput>)
    requires DistinctIds(pool)
    ensures Reserve(pool, DefaultRequired(pool), r, byId) == Min(BenchActiveRoleQuota(r), |Keep(HasRole(r), pool)|)
  {
    DefaultRequiredFacts(pool);
    RoleOrderFacts(pool, r, byId);
  }

  lemma DefaultFill(pool: seq<ScoredCandidate>, byId: map<Uuid, CandidateInput>)
    requires DistinctIds(pool)
    ensures |Filled(pool, DefaultRequired(pool), BENCH_ACTIVE_SIZE, byId)|
         == Max0(Min(BENCH_ACTIVE_SIZE, |pool|) - |Reserved(pool, DefaultRequired(pool), byId)|)
  {
    DefaultRequiredFacts(pool);
    DefaultFits(pool, byId);
    ActiveLength(pool, DefaultRequired(pool), BENCH_ACTIVE_SIZE, byId);
  }

  /** The cut the default quota makes in one role. */
  ghost predicate RoleCutClean(pool: seq<ScoredCandidate>, r: FantasyRole, byId: map<Uuid, CandidateInput>) {
    CleanCut(RoleOrder(pool, r, byId), Min(BenchActiveRoleQuota(r), |Keep(HasRole(r), pool)|))
  }

  /** The cut the last of the ten places makes among those without a reserved one. */
  ghost predicate FillCutClean(pool: seq<ScoredCandidate>, byId: map<Uuid, CandidateInput>) {
    CleanCut(
      FreeAgents(pool, DefaultRequired(pool), byId),
      Max0(Min(BENCH_ACTIVE_SIZE, |pool|) - |Reserved(pool, DefaultRequired(pool), byId)|))
  }

  lemma DefaultRoleCut(pool: seq<ScoredCandidate>, r: FantasyRole, byId: map<Uuid, CandidateInput>)
    requires DistinctIds(pool)
    ensures RoleCutClean(pool, r, byId)
       <==> CleanCut(RoleOrder(pool, r, byId), Reserve(pool, DefaultRequired(pool), r, byId))
  {
    DefaultReserve(pool, r, byId);
  }

  lemma DefaultFillCut(pool: seq<ScoredCandidate>, byId: map<Uuid, CandidateInput>)
    requires DistinctIds(pool)
    ensures FillCutClean(pool, byId)
       <==> CleanCut(
              FreeAgents(pool, DefaultRequired(pool), byId),
              |Filled(pool, DefaultRequired(pool), BENCH_ACTIVE_SIZE, byId)|)
  {
    DefaultFill(pool, byId);
  }

  /** With the default quota and size the rule holds exactly when those cuts are clean. */
  lemma ExcludedRuleByDefault(pool: seq<ScoredCandidate>, byId: map<Uuid, CandidateInput>)
    requires DistinctIds(pool)
    ensures ExcludedOnlyWhenNeeded(pool, DefaultRequired(pool), BENCH_ACTIVE_SIZE, byId)
       <==> (forall r: FantasyRole :: RoleCutClean(pool, r, byId)) && FillCutClean(pool, byId)
  {
    DefaultRequiredFacts(pool);
    ExcludedRuleForOneBench(pool, DefaultRequired(pool), BENCH_ACTIVE_SIZE, byId);
    DefaultFillCut(pool, byId);
    forall r: FantasyRole
      ensures RoleCutClean(pool, r, byId)
         <==> CleanCut(RoleOrder(pool, r, byId), Reserve(pool, DefaultRequired(pool), r, byId))
    {
      DefaultRoleCut(pool, r, byId);
    }
  }

  lemma BreakingSize(pool: seq<ScoredCandidate>, x: ScoredCandidate, y: ScoredCandidate, byId: map<Uuid, CandidateInput>)
    returns (size: nat)
    requires DistinctIds(pool) && x in pool && y in pool && !Precedes(byId, y, x)
    requires x.excludedReason.Some? && y.excludedReason.None?
    ensures !ExcludedOnlyWhenNeeded(pool, [], size, byId)
  {
    var s := SortBy(pool, ByScore(byId));
    RankedPool(pool, byId);
    var i :| 0 <= i < |s| && s[i] == x;
    size := i + 1;
    NoQuotaBench(pool, size, byId);
    assert s[..i + 1][i] == x;
    LaterStaysOut(s, i, y, byId);
  }

  lemma RankedPool(pool: seq<ScoredCandidate>, byId: map<Uuid, CandidateInput>)
    requires DistinctIds(pool)
    ensures var s := SortBy(pool, ByScore(byId));
      SortedBy(s, ByScore(byId)) && |s| == |pool| && forall x :: x in s <==> x in pool
  {
    StrictByScore(byId);
    DistinctComparable(pool, byId);
    SortSorts(pool, ByScore(byId));
    SortPermutation(pool, ByScore(byId));
    SameItems(SortBy(pool, ByScore(byId)), pool);
  }

  lemma LaterStaysOut(s: seq<ScoredCandidate>, i: nat, y: ScoredCandidate, byId: map<Uuid, CandidateInput>)
    requires SortedBy(s, ByScore(byId)) && i < |s| && y != s[i] && !Precedes(byId, y, s[i])
    ensures y !in s[..i + 1]
  {
  }

  const IDLE := CandidateInput(1, D, false, None, None, 0, true, false)
  const HURT := CandidateInput(2, D, true, None, None, 5, true, false)

  /** A concrete bench that breaks the rule: an idle eligible athlete ties an injured one, who takes the one place. */
  lemma ExcludedRuleBreaks()
    ensures var pool, byId := [Scored(IDLE), Scored(HURT)], ById([IDLE, HURT]);
      && DistinctIds(pool) && !EligibleFirst(pool, byId)
      && ActiveBench(pool, [], 1, byId) == [Scored(HURT)]
      && !ExcludedOnlyWhenNeeded(pool, [], 1, byId)
  {
    var x, y := Scored(HURT), Scored(IDLE);
    var pool, byId := [y, x], ById([IDLE, HURT]);
    assert byId == map[1 := IDLE, 2 := HURT] by {
      assert [IDLE, HURT][..1] == [IDLE] && [IDLE][..0] == [];
      assert ById([IDLE]) == map[1 := IDLE];
    }
    var less := ByScore(byId);
    assert SortBy(pool, less) == [x, y] by {
      assert pool[..1] == [y] && [y][..0] == [];
      assert SortBy([y], less) == [y];
      assert !less(y, x);
      assert InsertBy(x, [y], less) == InsertBy(x, [], less) + [y];
    }
    NoQuotaBench(pool, 1, byId);
    assert pool[0] == y && pool[1] == x;
  }

  /** Positive scores are enough, since an excluded athlete is worth zero. */
  lemma PositiveScoresSuffice(
    pool: seq<ScoredCandidate>, required: Required, size: int, byId: map<Uuid, CandidateInput>)
    requires DistinctIds(pool) && DistinctRoles(required)
    requires forall x :: x in pool ==> if x.excludedReason.Some? then x.score == 0.0 else x.score > 0.0
    ensures ExcludedOnlyWhenNeeded(pool, required, size, byId)
  {
    EligibleFirstSuffices(pool, required, size, byId);
  }
}
