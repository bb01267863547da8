/**
 * What a plan tells its reader, in plain terms: what a logged score measures, who is preferred to
 * whom, what the labels mean, and how the bench is laid out.
 */
module LineupMeaning {
  import opened Options
  import opened Sequences
  import opened LineupModel
  import opened LineupSelection
  import opened LineupPlans
  import LineupBench
  import LineupIndependence

  /* ---- what one log entry says ---- */

  predicate Fit(c: CandidateInput) {
    !c.injured && c.hasFixture
  }

  /** The athlete's line in the decision log. */
  function Entry(
    candidates: seq<CandidateInput>, targets: seq<(FantasyRole, nat)>, decidedAt: int, cap: Option<int>, i: nat)
    : ScoredCandidate
    requires i < |candidates|
  {
    Plan(candidates, targets, decidedAt, cap).candidates[i]
  }

  lemma EntryKeeps(
    candidates: seq<CandidateInput>, targets: seq<(FantasyRole, nat)>, decidedAt: int, cap: Option<int>, i: nat)
    requires i < |candidates|
    ensures var entry, x := Entry(candidates, targets, decidedAt, cap, i), Scored(candidates[i]);
      && entry.athleteId == x.athleteId && entry.role == x.role && entry.score == x.score && entry.sources == x.sources
      && (x.excludedReason.Some? ==> entry.excludedReason == x.excludedReason)
      && (x.excludedReason.None? ==> entry.excludedReason.None? || entry.excludedReason == Some(NotSelected))
  {
  }

  lemma LogFollows(
    a: seq<CandidateInput>, b: seq<CandidateInput>, targets: seq<(FantasyRole, nat)>, decidedAt: int,
    cap: Option<int>, i: nat, gain: real)
    requires i < |a| && i < |b| && Scored(b[i]).score == Scored(a[i]).score + gain
    ensures Entry(b, targets, decidedAt, cap, i).score == Entry(a, targets, decidedAt, cap, i).score + gain
  {
    EntryKeeps(a, targets, decidedAt, cap, i);
    EntryKeeps(b, targets, decidedAt, cap, i);
  }

  /** A sheet that names a fit athlete a starter is worth exactly two points more than no sheet. */
  lemma StarterSignalAddsTwo(
    a: seq<CandidateInput>, targets: seq<(FantasyRole, nat)>, decidedAt: int, cap: Option<int>, i: nat)
    requires i < |a| && Fit(a[i]) && a[i].officialStarter.None?
    ensures Entry(a[i := a[i].(officialStarter := Some(true))], targets, decidedAt, cap, i).score
         == Entry(a, targets, decidedAt, cap, i).score + 2.0
  {
    LogFollows(a, a[i := a[i].(officialStarter := Some(true))], targets, decidedAt, cap, i, 2.0);
  }

  /** A sheet that does not name him is worth nothing. */
  lemma RefusalAddsNothing(
    a: seq<CandidateInput>, targets: seq<(FantasyRole, nat)>, decidedAt: int, cap: Option<int>, i: nat)
    requires i < |a| && Fit(a[i]) && a[i].officialStarter.None?
    ensures Entry(a[i := a[i].(officialStarter := Some(false))], targets, decidedAt, cap, i).score
         == Entry(a, targets, decidedAt, cap, i).score
  {
    LogFollows(a, a[i := a[i].(officialStarter := Some(false))], targets, decidedAt, cap, i, 0.0);
  }

  /** Recent form counts point for point against none. */
  lemma FormCounts(
    a: seq<CandidateInput>, targets: seq<(FantasyRole, nat)>, decidedAt: int, cap: Option<int>, i: nat, form: real)
    requires i < |a| && Fit(a[i]) && a[i].recentForm.None?
    ensures Entry(a[i := a[i].(recentForm := Some(form))], targets, decidedAt, cap, i).score
         == Entry(a, targets, decidedAt, cap, i).score + form
  {
    LogFollows(a, a[i := a[i].(recentForm := Some(form))], targets, decidedAt, cap, i, form);
  }

  /** And point for point against less. */
  lemma MoreFormCounts(
    a: seq<CandidateInput>, targets: seq<(FantasyRole, nat)>, decidedAt: int, cap: Option<int>, i: nat, gain: real)
    requires i < |a| && Fit(a[i]) && a[i].recentForm.Some?
    ensures Entry(a[i := a[i].(recentForm := Some(a[i].recentForm.value + gain))], targets, decidedAt, cap, i).score
         == Entry(a, targets, decidedAt, cap, i).score + gain
  {
    LogFollows(
      a, a[i := a[i].(recentForm := Some(a[i].recentForm.value + gain))], targets, decidedAt, cap, i, gain);
  }

  lemma SilentScore(c: CandidateInput)
    ensures !Fit(c) || (c.officialStarter.None? && c.recentForm.None?) ==> Scored(c).score == 0.0
  {
  }

  /** Without signals, or unfit, an athlete scores nothing. */
  lemma NoSignalScoresNothing(
    a: seq<CandidateInput>, targets: seq<(FantasyRole, nat)>, decidedAt: int, cap: Option<int>, i: nat)
    requires i < |a| && (!Fit(a[i]) || (a[i].officialStarter.None? && a[i].recentForm.None?))
    ensures Entry(a, targets, decidedAt, cap, i).score == 0.0
  {
    EntryKeeps(a, targets, decidedAt, cap, i);
    SilentScore(a[i]);
  }

  /** The signals a score can rest on, in the order the log lists them. */
  predicate Names(sources: seq<SignalSource>, c: CandidateInput) {
    if !Fit(c) then sources == []
    else if c.officialStarter.Some? && c.recentForm.Some? then sources == [OfficialLineup, RecentForm]
    else if c.officialStarter.Some? then sources == [OfficialLineup]
    else if c.recentForm.Some? then sources == [RecentForm]
    else sources == [LocalFallback]
  }

  lemma SourcesName(c: CandidateInput)
    ensures Names(Scored(c).sources, c)
  {
  }

  /** The log names the signals used, and the local fallback only in their absence. */
  lemma LogNamesSignals(
    a: seq<CandidateInput>, targets: seq<(FantasyRole, nat)>, decidedAt: int, cap: Option<int>, i: nat)
    requires i < |a|
    ensures Names(Entry(a, targets, decidedAt, cap, i).sources, a[i])
  {
    EntryKeeps(a, targets, decidedAt, cap, i);
    SourcesName(a[i]);
  }

  lemma ReasonOf(c: CandidateInput)
    ensures Scored(c).excludedReason == Some(Injured) <==> c.injured
    ensures Scored(c).excludedReason == Some(NoFixture) <==> !c.injured && !c.hasFixture
    ensures Scored(c).excludedReason.None? <==> Fit(c)
    ensures Scored(c).athleteId == c.athleteId && Scored(c).role == c.role
  {
  }

  /** The log names athlete and role, and why an unfit one is out: the injury before the missing fixture. */
  lemma ReasonsMean(
    a: seq<CandidateInput>, targets: seq<(FantasyRole, nat)>, decidedAt: int, cap: Option<int>, i: nat)
    requires i < |a|
    ensures var entry := Entry(a, targets, decidedAt, cap, i);
      && entry.athleteId == a[i].athleteId && entry.role == a[i].role
      && (entry.excludedReason == Some(Injured) <==> a[i].injured)
      && (entry.excludedReason == Some(NoFixture) <==> !a[i].injured && !a[i].hasFixture)
  {
    EntryKeeps(a, targets, decidedAt, cap, i);
    ReasonOf(a[i]);
  }

  /* ---- who is preferred to whom ---- */

  /** What an athlete is worth to the bench and the eleven: two for a named start, plus form; nothing when unfit. */
  function Worth(c: CandidateInput): real {
    if !Fit(c) then 0.0
    else (if c.officialStarter == Some(true) then 2.0 else 0.0) + (if c.recentForm.Some? then c.recentForm.value else 0.0)
  }

  /** Worth first, then recent appearances, then the smaller identifier. */
  predicate Preferred(a: CandidateInput, b: CandidateInput) {
    || Worth(a) > Worth(b)
    || (Worth(a) == Worth(b) && a.recentAppearances > b.recentAppearances)
    || (Worth(a) == Worth(b) && a.recentAppearances == b.recentAppearances && a.athleteId < b.athleteId)
  }

  lemma WorthIsScore(c: CandidateInput)
    ensures Scored(c).score == Worth(c)
  {
  }

  lemma PrecedesIsPreferred(candidates: seq<CandidateInput>, i: nat, j: nat)
    requires DistinctCandidates(candidates) && i < |candidates| && j < |candidates|
    ensures Precedes(ById(candidates), Scored(candidates[i]), Scored(candidates[j]))
       <==> Preferred(candidates[i], candidates[j])
  {
    WorthIsScore(candidates[i]);
    WorthIsScore(candidates[j]);
    ReasonOf(candidates[i]);
    ReasonOf(candidates[j]);
    LineupIndependence.ByIdHolds(candidates);
    assert candidates[i] in candidates && candidates[j] in candidates;
  }

  /** An athlete's scored line, and its place among the eligible of his role. */
  lemma EligiblePlace(candidates: seq<CandidateInput>, i: nat) returns (k: nat)
    requires DistinctCandidates(candidates) && i < |candidates| && Fit(candidates[i])
    ensures var s := Keep(HasRole(candidates[i].role), EligibleOrder(candidates));
      k < |s| && s[k] == Scored(candidates[i])
  {
    var x, role := Scored(candidates[i]), candidates[i].role;
    ReasonOf(candidates[i]);
    EligibleFacts(candidates);
    assert ScoredAll(candidates)[i] == x && x in ScoredAll(candidates);
    KeepIn(HasRole(role), EligibleOrder(candidates));
    assert x in Keep(HasRole(role), EligibleOrder(candidates));
    k :| 0 <= k < |Keep(HasRole(role), EligibleOrder(candidates))|
         && Keep(HasRole(role), EligibleOrder(candidates))[k] == x;
  }

  lemma StartsByPlace(candidates: seq<CandidateInput>, targets: seq<(FantasyRole, nat)>, r: FantasyRole, k: nat)
    requires DistinctCandidates(candidates) && k < |Keep(HasRole(r), EligibleOrder(candidates))|
    ensures Keep(HasRole(r), EligibleOrder(candidates))[k].athleteId in Ids(StartersOf(candidates, targets))
       <==> k < |Keep(HasRole(r), StartersOf(candidates, targets))|
  {
    RoleRanked(candidates, targets, r);
    IdsHold(StartersOf(candidates, targets), Keep(HasRole(r), EligibleOrder(candidates))[k].athleteId);
  }

  lemma EarlierWhenPreceding(s: seq<ScoredCandidate>, byId: map<Uuid, CandidateInput>, k: nat, l: nat)
    requires SortedBy(s, ByScore(byId)) && k < |s| && l < |s| && Precedes(byId, s[k], s[l])
    ensures k < l
  {
    assert forall i, j :: 0 <= i < j < |s| ==> Precedes(byId, s[i], s[j]) by {
      assert forall i, j :: 0 <= i < j < |s| ==> ByScore(byId)(s[i], s[j]);
    }
  }

  lemma PlaceByPreference(candidates: seq<CandidateInput>, i: nat, j: nat, k: nat, l: nat)
    requires DistinctCandidates(candidates) && i < |candidates| && j < |candidates|
    requires candidates[i].role == candidates[j].role && Preferred(candidates[i], candidates[j])
    requires var s := Keep(HasRole(candidates[i].role), EligibleOrder(candidates));
      k < |s| && l < |s| && s[k] == Scored(candidates[i]) && s[l] == Scored(candidates[j])
    ensures k < l
  {
    EligibleFacts(candidates);
    KeepSorted(HasRole(candidates[i].role), EligibleOrder(candidates), ByScore(ById(candidates)));
    PrecedesIsPreferred(candidates, i, j);
    EarlierWhenPreceding(Keep(HasRole(candidates[i].role), EligibleOrder(candidates)), ById(candidates), k, l);
  }

  /** Of two fit athletes of a role the preferred one starts if the other does. */
  lemma PreferredStarts(
    candidates: seq<CandidateInput>, targets: seq<(FantasyRole, nat)>, decidedAt: int, cap: Option<int>,
    i: nat, j: nat)
    requires DistinctCandidates(candidates) && i < |candidates| && j < |candidates|
    requires Fit(candidates[i]) && Fit(candidates[j]) && candidates[i].role == candidates[j].role
    requires Preferred(candidates[i], candidates[j])
    requires candidates[j].athleteId in Plan(candidates, targets, decidedAt, cap).starters
    ensures candidates[i].athleteId in Plan(candidates, targets, decidedAt, cap).starters
  {
    var k := EligiblePlace(candidates, i);
    var l := EligiblePlace(candidates, j);
    PlaceByPreference(candidates, i, j, k, l);
    StartsByPlace(candidates, targets, candidates[i].role, k);
    StartsByPlace(candidates, targets, candidates[i].role, l);
    ReasonOf(candidates[i]);
    ReasonOf(candidates[j]);
  }

  /** More recent form is never benched behind less, the official signals being equal. */
  lemma BetterFormStarts(
    candidates: seq<CandidateInput>, targets: seq<(FantasyRole, nat)>, decidedAt: int, cap: Option<int>,
    i: nat, j: nat)
    requires DistinctCandidates(candidates) && i < |candidates| && j < |candidates|
    requires var a, b := candidates[i], candidates[j];
      && !a.injured && a.hasFixture && !b.injured && b.hasFixture && a.role == b.role
      && a.officialStarter == b.officialStarter
      && a.recentForm.Some? && b.recentForm.Some? && a.recentForm.value > b.recentForm.value
    requires candidates[j].athleteId in Plan(candidates, targets, decidedAt, cap).starters
    ensures candidates[i].athleteId in Plan(candidates, targets, decidedAt, cap).starters
  {
    PreferredStarts(candidates, targets, decidedAt, cap, i, j);
  }

  /* ---- the bench ---- */

  /** Two members of a role stand in the order of its ranked list. */
  lemma OrderInRole(s: seq<ScoredCandidate>, r: FantasyRole, p: nat, q: nat)
    requires p < q < |s| && s[p].role == r && s[q].role == r
    ensures exists k, l :: 0 <= k < l < |Keep(HasRole(r), s)|
              && Keep(HasRole(r), s)[k] == s[p] && Keep(HasRole(r), s)[l] == s[q]
  {
    var left, right := s[..q], s[q + 1..];
    assert s == left + [s[q]] + right;
    KeepAppend(HasRole(r), left + [s[q]], right);
    KeepAppend(HasRole(r), left, [s[q]]);
    KeepIn(HasRole(r), left);
    assert left[p] == s[p] && s[p] in Keep(HasRole(r), left);
    var k :| 0 <= k < |Keep(HasRole(r), left)| && Keep(HasRole(r), left)[k] == s[p];
    var l := |Keep(HasRole(r), left)|;
    assert Keep(HasRole(r), [s[q]]) == [s[q]];
    assert Keep(HasRole(r), s)[k] == s[p] && Keep(HasRole(r), s)[l] == s[q];
  }

  lemma BenchInRole(candidates: seq<CandidateInput>, targets: seq<(FantasyRole, nat)>, p: nat, q: nat)
    requires DistinctCandidates(candidates) && p < q < |BenchOf(candidates, targets)|
    requires BenchOf(candidates, targets)[p].role == BenchOf(candidates, targets)[q].role
    ensures Precedes(ById(candidates), BenchOf(candidates, targets)[p], BenchOf(candidates, targets)[q])
  {
    var pool, byId, bench := RemainingOf(candidates, targets), ById(candidates), BenchOf(candidates, targets);
    var r := bench[p].role;
    RemainingDistinct(candidates, targets);
    LineupBench.DefaultRequiredFacts(pool);
    LineupBench.BenchByRole(pool, DefaultRequired(pool), BENCH_ACTIVE_SIZE, r, byId);
    LineupBench.RoleOrderFacts(pool, r, byId);
    OrderInRole(bench, r, p, q);
    var k, l :| 0 <= k < l < |Keep(HasRole(r), bench)|
                && Keep(HasRole(r), bench)[k] == bench[p] && Keep(HasRole(r), bench)[l] == bench[q];
    assert ByScore(byId)(RoleOrder(pool, r, byId)[k], RoleOrder(pool, r, byId)[l]);
  }

  /** Whose line a place on the bench is. */
  lemma BenchLine(candidates: seq<CandidateInput>, targets: seq<(FantasyRole, nat)>, p: nat, i: nat)
    requires DistinctCandidates(candidates) && i < |candidates| && p < |BenchOf(candidates, targets)|
    requires BenchOf(candidates, targets)[p].athleteId == candidates[i].athleteId
    ensures BenchOf(candidates, targets)[p] == Scored(candidates[i])
  {
    var starters, pool := StartersOf(candidates, targets), RemainingOf(candidates, targets);
    var bench := BenchOf(candidates, targets);
    BenchArrangesRemaining(candidates, targets);
    SameItems(bench, pool);
    RosterSplit(candidates, targets);
    SameItems(starters + pool, ScoredAll(candidates));
    assert bench[p] in bench;
    assert bench[p] in starters + pool;
    ScoredDistinct(candidates);
    ReasonOf(candidates[i]);
    assert ScoredAll(candidates)[i] == Scored(candidates[i]);
    SameIdSameItem(ScoredAll(candidates), bench[p], ScoredAll(candidates)[i]);
  }

  /** On the bench the athletes of a role stand in order of preference. */
  lemma BenchByPreference(
    candidates: seq<CandidateInput>, targets: seq<(FantasyRole, nat)>, decidedAt: int, p: nat, q: nat, i: nat, j: nat)
    requires DistinctCandidates(candidates) && i < |candidates| && j < |candidates|
    requires candidates[i].role == candidates[j].role
    requires var bench := Plan(candidates, targets, decidedAt, None).bench;
      p < q < |bench| && bench[p] == candidates[i].athleteId && bench[q] == candidates[j].athleteId
    ensures Preferred(candidates[i], candidates[j])
  {
    BenchLine(candidates, targets, p, i);
    BenchLine(candidates, targets, q, j);
    ReasonOf(candidates[i]);
    ReasonOf(candidates[j]);
    BenchInRole(candidates, targets, p, q);
    PrecedesIsPreferred(candidates, i, j);
  }

  /** All of one role. */
  predicate AllOf(s: seq<ScoredCandidate>, r: FantasyRole) {
    forall i :: 0 <= i < |s| ==> s[i].role == r
  }

  lemma BestOfRole(pool: seq<ScoredCandidate>, r: FantasyRole, n: int, byId: map<Uuid, CandidateInput>)
    requires DistinctIds(pool) && 0 <= n <= |Keep(HasRole(r), pool)|
    ensures |Top(RoleOrder(pool, r, byId), n)| == n && AllOf(Top(RoleOrder(pool, r, byId), n), r)
  {
    LineupBench.RoleOrderFacts(pool, r, byId);
    var order := RoleOrder(pool, r, byId);
    forall i | 0 <= i < n ensures order[i].role == r {
      assert order[i] in order;
    }
  }

  lemma ReservedOne(
    pool: seq<ScoredCandidate>, required: Required, role: FantasyRole, needed: int, byId: map<Uuid, CandidateInput>)
    ensures Reserved(pool, required + [(role, needed)], byId)
         == Reserved(pool, required, byId) + Top(RoleOrder(pool, role, byId), needed)
  {
    assert (required + [(role, needed)])[..|required|] == required;
  }

  lemma TailOne(
    pool: seq<ScoredCandidate>, roles: seq<FantasyRole>, role: FantasyRole, used: set<Uuid>,
    byId: map<Uuid, CandidateInput>)
    ensures TailOf(pool, roles + [role], used, byId)
         == TailOf(pool, roles, used, byId) + Keep(NotIn(used), RoleOrder(pool, role, byId))
  {
    assert (roles + [role])[..|roles|] == roles;
  }

  lemma MapFour<T, U>(f: T -> U, a: T, b: T, c: T, d: T)
    ensures MapSeq(f, [a, b, c, d]) == [] + [f(a)] + [f(b)] + [f(c)] + [f(d)]
  {
  }

  lemma DefaultListed(pool: seq<ScoredCandidate>)
    ensures DefaultRequired(pool)
         == [] + [(P, Min(1, |Keep(HasRole(P), pool)|))] + [(D, Min(3, |Keep(HasRole(D), pool)|))]
          + [(C, Min(3, |Keep(HasRole(C), pool)|))] + [(A, Min(3, |Keep(HasRole(A), pool)|))]
  {
    MapFour((r: FantasyRole) => (r, Min(BenchActiveRoleQuota(r), |Keep(HasRole(r), pool)|)), P, D, C, A);
  }

  lemma ReservedBlocks(pool: seq<ScoredCandidate>, byId: map<Uuid, CandidateInput>)
    ensures Reserved(pool, DefaultRequired(pool), byId)
         == Top(RoleOrder(pool, P, byId), Min(1, |Keep(HasRole(P), pool)|))
          + Top(RoleOrder(pool, D, byId), Min(3, |Keep(HasRole(D), pool)|))
          + Top(RoleOrder(pool, C, byId), Min(3, |Keep(HasRole(C), pool)|))
          + Top(RoleOrder(pool, A, byId), Min(3, |Keep(HasRole(A), pool)|))
  {
    var p, d := (P, Min(1, |Keep(HasRole(P), pool)|)), (D, Min(3, |Keep(HasRole(D), pool)|));
    var c, a := (C, Min(3, |Keep(HasRole(C), pool)|)), (A, Min(3, |Keep(HasRole(A), pool)|));
    DefaultListed(pool);
    ReservedOne(pool, [], P, p.1, byId);
    ReservedOne(pool, [] + [p], D, d.1, byId);
    ReservedOne(pool, [] + [p] + [d], C, c.1, byId);
    ReservedOne(pool, [] + [p] + [d] + [c], A, a.1, byId);
    LineupBench.EmptySides(Top(RoleOrder(pool, P, byId), p.1));
  }

  lemma TailBlocks(pool: seq<ScoredCandidate>, used: set<Uuid>, byId: map<Uuid, CandidateInput>)
    ensures TailOf(pool, ROLES, used, byId)
         == Keep(NotIn(used), RoleOrder(pool, P, byId)) + Keep(NotIn(used), RoleOrder(pool, D, byId))
          + Keep(NotIn(used), RoleOrder(pool, C, byId)) + Keep(NotIn(used), RoleOrder(pool, A, byId))
  {
    assert ROLES == [] + [P] + [D] + [C] + [A];
    TailOne(pool, [], P, used, byId);
    TailOne(pool, [] + [P], D, used, byId);
    TailOne(pool, [] + [P] + [D], C, used, byId);
    TailOne(pool, [] + [P] + [D] + [C], A, used, byId);
    LineupBench.EmptySides(Keep(NotIn(used), RoleOrder(pool, P, byId)));
  }

  lemma RestOfRole(pool: seq<ScoredCandidate>, used: set<Uuid>, r: FantasyRole, byId: map<Uuid, CandidateInput>)
    requires DistinctIds(pool)
    ensures AllOf(Keep(NotIn(used), RoleOrder(pool, r, byId)), r)
  {
    var rest := Keep(NotIn(used), RoleOrder(pool, r, byId));
    LineupBench.RoleOrderFacts(pool, r, byId);
    KeepIn(NotIn(used), RoleOrder(pool, r, byId));
    forall i | 0 <= i < |rest| ensures rest[i].role == r {
      assert rest[i] in rest;
    }
  }

  /** The bench in nine parts: the reserved places, the filled ones, and the stand, in the roles' order. */
  datatype Layout = Layout(
    p: seq<ScoredCandidate>, d: seq<ScoredCandidate>, c: seq<ScoredCandidate>, a: seq<ScoredCandidate>,
    fill: seq<ScoredCandidate>,
    moreP: seq<ScoredCandidate>, moreD: seq<ScoredCandidate>, moreC: seq<ScoredCandidate>, moreA: seq<ScoredCandidate>)
  {
    function Active(): seq<ScoredCandidate> {
      p + d + c + a + fill
    }

    function Whole(): seq<ScoredCandidate> {
      Active() + (moreP + moreD + moreC + moreA)
    }
  }

  ghost predicate RolesInPlace(l: Layout) {
    && AllOf(l.p, P) && AllOf(l.d, D) && AllOf(l.c, C) && AllOf(l.a, A)
    && AllOf(l.moreP, P) && AllOf(l.moreD, D) && AllOf(l.moreC, C) && AllOf(l.moreA, A)
  }

  /** One goalkeeper and three of each other role are reserved, or all there are. */
  ghost predicate QuotasInPlace(l: Layout, bench: seq<ScoredCandidate>) {
    && |l.p| == Min(1, |Keep(HasRole(P), bench)|) && |l.d| == Min(3, |Keep(HasRole(D), bench)|)
    && |l.c| == Min(3, |Keep(HasRole(C), bench)|) && |l.a| == Min(3, |Keep(HasRole(A), bench)|)
  }

  function LayoutOf(pool: seq<ScoredCandidate>, byId: map<Uuid, CandidateInput>): Layout {
    var used := IdSet(ActiveBench(pool, DefaultRequired(pool), BENCH_ACTIVE_SIZE, byId));
    Layout(
      Top(RoleOrder(pool, P, byId), Min(1, |Keep(HasRole(P), pool)|)),
      Top(RoleOrder(pool, D, byId), Min(3, |Keep(HasRole(D), pool)|)),
      Top(RoleOrder(pool, C, byId), Min(3, |Keep(HasRole(C), pool)|)),
      Top(RoleOrder(pool, A, byId), Min(3, |Keep(HasRole(A), pool)|)),
      Filled(pool, DefaultRequired(pool), BENCH_ACTIVE_SIZE, byId),
      Keep(NotIn(used), RoleOrder(pool, P, byId)), Keep(NotIn(used), RoleOrder(pool, D, byId)),
      Keep(NotIn(used), RoleOrder(pool, C, byId)), Keep(NotIn(used), RoleOrder(pool, A, byId)))
  }

  lemma LayoutIsBench(pool: seq<ScoredCandidate>, byId: map<Uuid, CandidateInput>)
    ensures LayoutOf(pool, byId).Active() == ActiveBench(pool, DefaultRequired(pool), BENCH_ACTIVE_SIZE, byId)
    ensures LayoutOf(pool, byId).Whole() == BenchOrder(pool, DefaultRequired(pool), BENCH_ACTIVE_SIZE, byId)
  {
    ReservedBlocks(pool, byId);
    TailBlocks(pool, IdSet(ActiveBench(pool, DefaultRequired(pool), BENCH_ACTIVE_SIZE, byId)), byId);
  }

  lemma LayoutRoles(pool: seq<ScoredCandidate>, byId: map<Uuid, CandidateInput>)
    requires DistinctIds(pool)
    ensures RolesInPlace(LayoutOf(pool, byId)) && QuotasInPlace(LayoutOf(pool, byId), pool)
  {
    var used := IdSet(ActiveBench(pool, DefaultRequired(pool), BENCH_ACTIVE_SIZE, byId));
    BestOfRole(pool, P, Min(1, |Keep(HasRole(P), pool)|), byId);
    BestOfRole(pool, D, Min(3, |Keep(HasRole(D), pool)|), byId);
    BestOfRole(pool, C, Min(3, |Keep(HasRole(C), pool)|), byId);
    BestOfRole(pool, A, Min(3, |Keep(HasRole(A), pool)|), byId);
    RestOfRole(pool, used, P, byId);
    RestOfRole(pool, used, D, byId);
    RestOfRole(pool, used, C, byId);
    RestOfRole(pool, used, A, byId);
  }

  lemma FillFalls(pool: seq<ScoredCandidate>, byId: map<Uuid, CandidateInput>)
    requires DistinctIds(pool)
    ensures var fill := LayoutOf(pool, byId).fill;
      forall i, j :: 0 <= i < j < |fill| ==> Precedes(byId, fill[i], fill[j])
  {
    var required := DefaultRequired(pool);
    LineupBench.FreeAgentFacts(pool, required, byId);
    LineupBench.FilledIsHead(pool, required, BENCH_ACTIVE_SIZE, byId);
    var free, fill := FreeAgents(pool, required, byId), LayoutOf(pool, byId).fill;
    forall i, j | 0 <= i < j < |fill| ensures Precedes(byId, fill[i], fill[j]) {
      assert ByScore(byId)(free[i], free[j]);
    }
  }

  /**
   * The bench of a plan without a cap: the reserved goalkeeper, defenders, midfielders and forwards,
   * then whoever is preferred of the rest up to ten places, then everyone else in the same blocks.
   */
  lemma BenchLayout(candidates: seq<CandidateInput>, targets: seq<(FantasyRole, nat)>, decidedAt: int)
    returns (l: Layout)
    requires DistinctCandidates(candidates)
    ensures Plan(candidates, targets, decidedAt, None).bench == Ids(l.Whole()) && l.Whole() == BenchOf(candidates, targets)
    ensures RolesInPlace(l) && QuotasInPlace(l, l.Whole())
    ensures |l.Active()| == Min(10, |l.Whole()|)
    ensures forall i, j :: 0 <= i < j < |l.fill| ==> Precedes(ById(candidates), l.fill[i], l.fill[j])
  {
    var pool, byId := RemainingOf(candidates, targets), ById(candidates);
    l := LayoutOf(pool, byId);
    RemainingDistinct(candidates, targets);
    LayoutIsBench(pool, byId);
    LayoutRoles(pool, byId);
    FillFalls(pool, byId);
    LineupBench.DefaultRequiredFacts(pool);
    LineupBench.DefaultFits(pool, byId);
    LineupBench.ActiveLength(pool, DefaultRequired(pool), BENCH_ACTIVE_SIZE, byId);
    BenchArrangesRemaining(candidates, targets);
    SameItems(BenchOf(candidates, targets), pool);
    forall r: FantasyRole ensures |Keep(HasRole(r), BenchOf(candidates, targets))| == |Keep(HasRole(r), pool)| {
      KeepPermutation(HasRole(r), BenchOf(candidates, targets), pool);
      SameItems(Keep(HasRole(r), BenchOf(candidates, targets)), Keep(HasRole(r), pool));
    }
  }

  /** A cap keeps the first places; a negative one drops so many of the last. */
  lemma CapKeepsFirst(candidates: seq<CandidateInput>, targets: seq<(FantasyRole, nat)>, decidedAt: int, cap: int)
    ensures var whole := Plan(candidates, targets, decidedAt, None).bench;
      var capped := Plan(candidates, targets, decidedAt, Some(cap)).bench;
      && capped <= whole
      && |capped| == (if cap >= 0 then Min(cap, |whole|) else Max0(|whole| + cap))
  {
  }

  /* ---- gaps and fallback ---- */

  function CountOf(roles: seq<FantasyRole>, r: FantasyRole): nat {
    if roles == [] then 0 else CountOf(roles[1..], r) + if roles[0] == r then 1 else 0
  }

  function FitCount(candidates: seq<CandidateInput>, r: FantasyRole): nat {
    if candidates == [] then 0
    else
      var c := candidates[|candidates| - 1];
      FitCount(candidates[..|candidates| - 1], r) + if Fit(c) && c.role == r then 1 else 0
  }

  lemma {:induction false} CountAppend(a: seq<FantasyRole>, b: seq<FantasyRole>, r: FantasyRole)
    ensures CountOf(a + b, r) == CountOf(a, r) + CountOf(b, r)
  {
    if a == [] {
      assert a + b == b;
    } else {
      assert (a + b)[1..] == a[1..] + b;
      CountAppend(a[1..], b, r);
    }
  }

  lemma {:induction false} CountSame(role: FantasyRole, n: nat, r: FantasyRole)
    ensures CountOf(seq(n, _ => role), r) == if role == r then n else 0
  {
    if n > 0 {
      assert seq(n, _ => role)[1..] == seq(n - 1, _ => role);
      CountSame(role, n - 1, r);
    }
  }

  lemma {:induction false} FitAreOpen(candidates: seq<CandidateInput>, r: FantasyRole)
    ensures |Keep(HasRole(r), Keep(IsOpen(), ScoredAll(candidates)))| == FitCount(candidates, r)
  {
    if candidates != [] {
      var t, c := candidates[..|candidates| - 1], candidates[|candidates| - 1];
      FitAreOpen(t, r);
      ReasonOf(c);
      assert ScoredAll(candidates) == ScoredAll(t) + [Scored(c)];
      KeepAppend(IsOpen(), ScoredAll(t), [Scored(c)]);
      assert Keep(IsOpen(), [Scored(c)]) == if Fit(c) then [Scored(c)] else [];
      KeepAppend(HasRole(r), Keep(IsOpen(), ScoredAll(t)), Keep(IsOpen(), [Scored(c)]));
      assert Fit(c) ==> Keep(HasRole(r), [Scored(c)]) == if c.role == r then [Scored(c)] else [];
    }
  }

  lemma PicksHaveRole(
    eligible: seq<ScoredCandidate>, before: seq<ScoredCandidate>, target: (FantasyRole, nat), r: FantasyRole)
    ensures |Picks(eligible, before, target)| <= target.1
    ensures |Keep(HasRole(r), Picks(eligible, before, target))|
         == if target.0 == r then |Picks(eligible, before, target)| else 0
  {
    var picks := Picks(eligible, before, target);
    var free := Keep(FreeWithRole(target.0, IdSet(before)), eligible);
    KeepIn(FreeWithRole(target.0, IdSet(before)), eligible);
    forall i | 0 <= i < |picks| ensures picks[i].role == target.0 {
      assert picks[i] == free[i] && free[i] in free;
    }
    if target.0 == r {
      KeepAll(HasRole(r), picks);
    } else {
      KeepNone(HasRole(r), picks);
    }
  }

  /** In each role, starters and reported gaps make up its slots. */
  lemma {:induction false} GapsByRole(eligible: seq<ScoredCandidate>, targets: seq<(FantasyRole, nat)>, r: FantasyRole)
    ensures CountOf(Unfilled(eligible, targets), r) + |Keep(HasRole(r), Starters(eligible, targets))| == Slots(targets, r)
  {
    if targets != [] {
      var n := |targets| - 1;
      var before := Starters(eligible, targets[..n]);
      GapsByRole(eligible, targets[..n], r);
      PicksHaveRole(eligible, before, targets[n], r);
      KeepAppend(HasRole(r), before, Picks(eligible, before, targets[n]));
      GapsOfTarget(eligible, targets, r);
    }
  }

  lemma GapsOfTarget(eligible: seq<ScoredCandidate>, targets: seq<(FantasyRole, nat)>, r: FantasyRole)
    requires targets != []
    ensures var n := |targets| - 1;
      var gap := Max0(targets[n].1 - |Picks(eligible, Starters(eligible, targets[..n]), targets[n])|);
      CountOf(Unfilled(eligible, targets), r)
        == CountOf(Unfilled(eligible, targets[..n]), r) + if targets[n].0 == r then gap else 0
  {
    var n := |targets| - 1;
    var gap := Max0(targets[n].1 - |Picks(eligible, Starters(eligible, targets[..n]), targets[n])|);
    CountAppend(Unfilled(eligible, targets[..n]), seq(gap, _ => targets[n].0), r);
    CountSame(targets[n].0, gap, r);
  }

  /** As many start in the role as there are slots, or as are fit. */
  predicate FillsAsItCan(eligible: seq<ScoredCandidate>, targets: seq<(FantasyRole, nat)>, r: FantasyRole, fit: nat) {
    |Keep(HasRole(r), Starters(eligible, targets))| == Min(Slots(targets, r), fit)
  }

  lemma GapsGiven(eligible: seq<ScoredCandidate>, targets: seq<(FantasyRole, nat)>, r: FantasyRole, fit: nat)
    requires FillsAsItCan(eligible, targets, r, fit)
    ensures CountOf(Unfilled(eligible, targets), r) == Max0(Slots(targets, r) - fit)
  {
    GapsByRole(eligible, targets, r);
  }

  lemma FitStart(candidates: seq<CandidateInput>, targets: seq<(FantasyRole, nat)>, r: FantasyRole)
    requires DistinctCandidates(candidates)
    ensures FillsAsItCan(EligibleOrder(candidates), targets, r, FitCount(candidates, r))
  {
    StarterCountByRole(candidates, targets, r);
    FitAreOpen(candidates, r);
  }

  lemma GapsOf(candidates: seq<CandidateInput>, targets: seq<(FantasyRole, nat)>, r: FantasyRole)
    returns (gaps: seq<FantasyRole>)
    requires DistinctCandidates(candidates)
    ensures gaps == Unfilled(EligibleOrder(candidates), targets)
    ensures CountOf(gaps, r) == Max0(Slots(targets, r) - FitCount(candidates, r))
  {
    var eligible, fit := EligibleOrder(candidates), FitCount(candidates, r);
    FitStart(candidates, targets, r);
    gaps := Unfilled(eligible, targets);
    GapsGiven(eligible, targets, r, fit);
  }

  /** A role is reported missing as often as its slots outnumber its fit athletes. */
  lemma GapsMean(
    candidates: seq<CandidateInput>, targets: seq<(FantasyRole, nat)>, decidedAt: int, cap: Option<int>, r: FantasyRole)
    requires DistinctCandidates(candidates)
    ensures CountOf(Plan(candidates, targets, decidedAt, cap).unfilledRoles, r)
         == Max0(Slots(targets, r) - FitCount(candidates, r))
  {
    var gaps := GapsOf(candidates, targets, r);
  }

  /** Every role has as many fit athletes as slots. */
  ghost predicate EnoughFit(candidates: seq<CandidateInput>, targets: seq<(FantasyRole, nat)>) {
    forall r: FantasyRole :: RoleFilled(candidates, targets, r)
  }

  predicate RoleFilled(candidates: seq<CandidateInput>, targets: seq<(FantasyRole, nat)>, r: FantasyRole) {
    Slots(targets, r) <= FitCount(candidates, r)
  }

  /** A plan for eleven slots is complete exactly when no role has more slots than fit athletes. */
  lemma CompleteMeans(candidates: seq<CandidateInput>, targets: seq<(FantasyRole, nat)>, decidedAt: int, cap: Option<int>)
    requires DistinctCandidates(candidates) && AllSlots(targets) == 11
    ensures Plan(candidates, targets, decidedAt, cap).IsComplete() <==> EnoughFit(candidates, targets)
  {
    CompleteExactly(candidates, targets, decidedAt, cap);
    forall r: FantasyRole ensures EnoughInRole(candidates, targets, r) == RoleFilled(candidates, targets, r) {
      FitAreOpen(candidates, r);
    }
  }

  /** Some starter has neither a sheet nor form. */
  ghost predicate BlindStarter(candidates: seq<CandidateInput>, starters: set<Uuid>) {
    exists i :: 0 <= i < |candidates| && candidates[i].athleteId in starters
      && candidates[i].officialStarter.None? && candidates[i].recentForm.None?
  }

  lemma LogSpeaksOfFallback(
    candidates: seq<CandidateInput>, targets: seq<(FantasyRole, nat)>, bench: seq<Uuid>, i: nat)
    requires DistinctCandidates(candidates) && i < |candidates|
    requires candidates[i].athleteId in IdSet(StartersOf(candidates, targets))
    ensures var log := FinalLog(candidates, IdSet(StartersOf(candidates, targets)), bench);
      LocalFallback in log[i].sources <==> candidates[i].officialStarter.None? && candidates[i].recentForm.None?
  {
    StartersAreFit(candidates, targets, i);
    SourcesName(candidates[i]);
    NamesFallback(Scored(candidates[i]).sources, candidates[i]);
  }

  lemma FallbackInLog(candidates: seq<CandidateInput>, targets: seq<(FantasyRole, nat)>, bench: seq<Uuid>)
    requires DistinctCandidates(candidates)
    ensures var starters := IdSet(StartersOf(candidates, targets));
      UsesFallback(FinalLog(candidates, starters, bench), starters) <==> BlindStarter(candidates, starters)
  {
    var starters := IdSet(StartersOf(candidates, targets));
    var log := FinalLog(candidates, starters, bench);
    forall i | 0 <= i < |candidates|
      ensures log[i].athleteId == candidates[i].athleteId
      ensures candidates[i].athleteId in starters ==>
        (LocalFallback in log[i].sources <==> candidates[i].officialStarter.None? && candidates[i].recentForm.None?)
    {
      ReasonOf(candidates[i]);
      if candidates[i].athleteId in starters {
        LogSpeaksOfFallback(candidates, targets, bench, i);
      }
    }
  }

  /** The plan says it used the fallback exactly when some starter has neither a sheet nor form. */
  lemma FallbackMeans(
    candidates: seq<CandidateInput>, targets: seq<(FantasyRole, nat)>, decidedAt: int, cap: Option<int>)
    requires DistinctCandidates(candidates)
    ensures var plan := Plan(candidates, targets, decidedAt, cap);
      plan.usedFallback <==> BlindStarter(candidates, set id | id in plan.starters)
  {
    var starters := StartersOf(candidates, targets);
    FallbackInLog(candidates, targets, BenchIds(candidates, targets, cap));
    forall id ensures id in Ids(starters) <==> id in IdSet(starters) {
      IdsHold(starters, id);
    }
    assert (set id | id in Ids(starters)) == IdSet(starters);
  }

  lemma NamesFallback(sources: seq<SignalSource>, c: CandidateInput)
    requires Names(sources, c) && Fit(c)
    ensures LocalFallback in sources <==> c.officialStarter.None? && c.recentForm.None?
  {
  }

  lemma StartersAreFit(candidates: seq<CandidateInput>, targets: seq<(FantasyRole, nat)>, i: nat)
    requires DistinctCandidates(candidates) && i < |candidates|
    ensures var id := candidates[i].athleteId;
      && (id in Ids(StartersOf(candidates, targets)) <==> id in IdSet(StartersOf(candidates, targets)))
      && (id in IdSet(StartersOf(candidates, targets)) ==> Fit(candidates[i]))
  {
    IdsHold(StartersOf(candidates, targets), candidates[i].athleteId);
    if !Fit(candidates[i]) {
      ExcludedNeverStart(candidates, targets, i);
    }
  }

  /** The plan carries the version of its formula and the instant it was asked for. */
  lemma PlanIsSigned(candidates: seq<CandidateInput>, targets: seq<(FantasyRole, nat)>, decidedAt: int, cap: Option<int>)
    ensures Plan(candidates, targets, decidedAt, cap).algorithmVersion == "ai_lineup_v1"
    ensures Plan(candidates, targets, decidedAt, cap).decidedAt == decidedAt
  {
  }

  /** A sheet counts as it reads, unless it is missing, undated, later than the decision, or about a locked athlete. */
  lemma SheetMeans(isStarter: Option<bool>, fetchedAt: Option<int>, decidedAt: int, locked: bool)
    ensures var signal := OfficialStarterSignal(isStarter, fetchedAt, decidedAt, locked);
      && (signal.Some? ==> signal == isStarter && fetchedAt.Some? && fetchedAt.value <= decidedAt && !locked)
      && (isStarter.Some? && fetchedAt.Some? && fetchedAt.value <= decidedAt && !locked ==> signal == isStarter)
  {
  }

  /* ---- the order of the starters ---- */

  /** A role one of the targets is about. */
  predicate Targeted(targets: seq<(FantasyRole, nat)>, r: FantasyRole) {
    exists i :: 0 <= i < |targets| && targets[i].0 == r
  }

  lemma {:induction false} StartersAreTargeted(eligible: seq<ScoredCandidate>, targets: seq<(FantasyRole, nat)>, p: nat)
    requires p < |Starters(eligible, targets)|
    ensures Targeted(targets, Starters(eligible, targets)[p].role)
  {
    var n := |targets| - 1;
    var before := Starters(eligible, targets[..n]);
    if p < |before| {
      StartersAreTargeted(eligible, targets[..n], p);
      var i :| 0 <= i < n && targets[..n][i].0 == before[p].role;
      assert targets[i].0 == before[p].role;
    } else {
      PickHasRole(eligible, before, targets[n], p - |before|);
      assert targets[n].0 == Starters(eligible, targets)[p].role;
    }
  }

  lemma PickHasRole(eligible: seq<ScoredCandidate>, before: seq<ScoredCandidate>, target: (FantasyRole, nat), p: nat)
    requires p < |Picks(eligible, before, target)|
    ensures Picks(eligible, before, target)[p].role == target.0
  {
    var free := Keep(FreeWithRole(target.0, IdSet(before)), eligible);
    KeepIn(FreeWithRole(target.0, IdSet(before)), eligible);
    assert Picks(eligible, before, target)[p] == free[p] && free[p] in free;
  }

  /** The starters stand in the order in which the formation lists their roles. */
  lemma {:induction false} StartersByTarget(
    eligible: seq<ScoredCandidate>, targets: seq<(FantasyRole, nat)>, i: nat, j: nat, p: nat, q: nat)
    requires forall k, l :: 0 <= k < l < |targets| ==> targets[k].0 != targets[l].0
    requires i < j < |targets| && p < |Starters(eligible, targets)| && q < |Starters(eligible, targets)|
    requires Starters(eligible, targets)[p].role == targets[i].0 && Starters(eligible, targets)[q].role == targets[j].0
    ensures p < q
  {
    var n := |targets| - 1;
    var before := Starters(eligible, targets[..n]);
    if p >= |before| {
      PickHasRole(eligible, before, targets[n], p - |before|);
    }
    if q < |before| {
      if j < n {
        StartersByTarget(eligible, targets[..n], i, j, p, q);
      } else {
        StartersAreTargeted(eligible, targets[..n], q);
      }
    }
  }

  lemma OrderWithin(
    s: seq<ScoredCandidate>, ranked: seq<ScoredCandidate>, byId: map<Uuid, CandidateInput>, r: FantasyRole, n: nat,
    p: nat, q: nat)
    requires Keep(HasRole(r), s) == Top(ranked, n) && SortedBy(ranked, ByScore(byId))
    requires p < q < |s| && s[p].role == r && s[q].role == r
    ensures Precedes(byId, s[p], s[q])
  {
    OrderInRole(s, r, p, q);
    var k, l :| 0 <= k < l < |Keep(HasRole(r), s)| && Keep(HasRole(r), s)[k] == s[p] && Keep(HasRole(r), s)[l] == s[q];
    assert ByScore(byId)(ranked[k], ranked[l]);
  }

  /** Within a role they stand in order of preference. */
  lemma StartersInRole(candidates: seq<CandidateInput>, targets: seq<(FantasyRole, nat)>, p: nat, q: nat)
    requires DistinctCandidates(candidates) && p < q < |StartersOf(candidates, targets)|
    requires StartersOf(candidates, targets)[p].role == StartersOf(candidates, targets)[q].role
    ensures Precedes(ById(candidates), StartersOf(candidates, targets)[p], StartersOf(candidates, targets)[q])
  {
    var starters, eligible := StartersOf(candidates, targets), EligibleOrder(candidates);
    var r := starters[p].role;
    EligibleFacts(candidates);
    StartersByRole(eligible, targets, r);
    KeepSorted(HasRole(r), eligible, ByScore(ById(candidates)));
    OrderWithin(starters, Keep(HasRole(r), eligible), ById(candidates), r, Slots(targets, r), p, q);
  }

  /** Whose line a starter's is. */
  lemma StarterLine(candidates: seq<CandidateInput>, targets: seq<(FantasyRole, nat)>, p: nat, i: nat)
    requires DistinctCandidates(candidates) && i < |candidates| && p < |StartersOf(candidates, targets)|
    requires StartersOf(candidates, targets)[p].athleteId == candidates[i].athleteId
    ensures StartersOf(candidates, targets)[p] == Scored(candidates[i])
  {
    var starters, scored := StartersOf(candidates, targets), ScoredAll(candidates);
    EligibleFacts(candidates);
    StartersInEligible(EligibleOrder(candidates), targets);
    assert starters[p] in starters;
    ScoredDistinct(candidates);
    ReasonOf(candidates[i]);
    assert scored[i] == Scored(candidates[i]);
    SameIdSameItem(scored, starters[p], scored[i]);
  }

  /** The plan names its starters role by role as the formation lists the roles, each role in order of preference. */
  lemma StartersInOrder(
    candidates: seq<CandidateInput>, targets: seq<(FantasyRole, nat)>, decidedAt: int, cap: Option<int>,
    p: nat, q: nat, i: nat, j: nat)
    requires DistinctCandidates(candidates) && i < |candidates| && j < |candidates|
    requires forall k, l :: 0 <= k < l < |targets| ==> targets[k].0 != targets[l].0
    requires var starters := Plan(candidates, targets, decidedAt, cap).starters;
      p < q < |starters| && starters[p] == candidates[i].athleteId && starters[q] == candidates[j].athleteId
    ensures candidates[i].role == candidates[j].role ==> Preferred(candidates[i], candidates[j])
    ensures forall k, l | 0 <= k < |targets| && 0 <= l < |targets| ::
              targets[k].0 == candidates[i].role && targets[l].0 == candidates[j].role ==> k <= l
  {
    StarterLine(candidates, targets, p, i);
    StarterLine(candidates, targets, q, j);
    ReasonOf(candidates[i]);
    ReasonOf(candidates[j]);
    if candidates[i].role == candidates[j].role {
      StartersInRole(candidates, targets, p, q);
      PrecedesIsPreferred(candidates, i, j);
    }
    forall k, l | 0 <= k < |targets| && 0 <= l < |targets|
                  && targets[k].0 == candidates[i].role && targets[l].0 == candidates[j].role
      ensures k <= l
    {
      if l < k {
        StartersByTarget(EligibleOrder(candidates), targets, l, k, q, p);
      }
    }
  }
}
