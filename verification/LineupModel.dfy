/**
 * The deterministic lineup formula: what each candidate is worth, who starts,
 * and how the bench is ordered, as functions of the candidates alone.
 */
module LineupModel {
  import opened Options
  import opened Sequences

  datatype FantasyRole = P | D | C | A

  /** A 128-bit identifier; its fixed-width text sorts exactly as the number does. */
  type Uuid = nat

  datatype ExclusionReason = Injured | NoFixture | NotSelected

  datatype SignalSource = OfficialLineup | RecentForm | LocalFallback

  datatype CandidateInput = CandidateInput(
    athleteId: Uuid, role: FantasyRole, injured: bool, officialStarter: Option<bool>, recentForm: Option<real>,
    recentAppearances: int, hasFixture: bool, kickoffLocked: bool)

  datatype ScoredCandidate = ScoredCandidate(
    athleteId: Uuid, role: FantasyRole, score: real, sources: seq<SignalSource>,
    excludedReason: Option<ExclusionReason>)

  datatype LineupPlan = LineupPlan(
    algorithmVersion: string, decidedAt: int, starters: seq<Uuid>, bench: seq<Uuid>,
    candidates: seq<ScoredCandidate>, usedFallback: bool, unfilledRoles: seq<FantasyRole>)
  {
    predicate IsComplete() {
      |starters| == 11 && unfilledRoles == []
    }
  }

  const ALGORITHM_VERSION := "ai_lineup_v1"
  const WEIGHT_OFFICIAL_STARTER := 2.0
  const WEIGHT_RECENT_FORM := 1.0
  const BENCH_ACTIVE_SIZE := 10
  const ROLES: seq<FantasyRole> := [P, D, C, A]

  function BenchActiveRoleQuota(role: FantasyRole): nat {
    match role case P => 1 case D => 3 case C => 3 case A => 3
  }

  /* ---- one candidate ---- */

  function IsEligible(c: CandidateInput): Option<ExclusionReason> {
    if c.injured then Some(Injured) else if !c.hasFixture then Some(NoFixture) else None
  }

  function Score(c: CandidateInput): real {
    (if c.officialStarter == Some(true) then WEIGHT_OFFICIAL_STARTER else 0.0)
    + (if c.recentForm.Some? then WEIGHT_RECENT_FORM * c.recentForm.value else 0.0)
  }

  function Sources(c: CandidateInput): seq<SignalSource> {
    if c.officialStarter.None? && c.recentForm.None? then [LocalFallback]
    else (if c.officialStarter.Some? then [OfficialLineup] else [])
         + (if c.recentForm.Some? then [RecentForm] else [])
  }

  function Scored(c: CandidateInput): ScoredCandidate {
    if IsEligible(c).Some? then ScoredCandidate(c.athleteId, c.role, 0.0, [], IsEligible(c))
    else ScoredCandidate(c.athleteId, c.role, Score(c), Sources(c), None)
  }

  function ScoredAll(candidates: seq<CandidateInput>): seq<ScoredCandidate> {
    MapSeq(c => Scored(c), candidates)
  }

  /** The index by identifier; a repeated identifier keeps its last candidate. */
  function ById(candidates: seq<CandidateInput>): map<Uuid, CandidateInput> {
    if candidates == [] then map[]
    else
      var last := candidates[|candidates| - 1];
      ById(candidates[..|candidates| - 1])[last.athleteId := last]
  }

  /* ---- orders and filters ---- */

  function Appearances(byId: map<Uuid, CandidateInput>, id: Uuid): int {
    if id in byId then byId[id].recentAppearances else 0
  }

  /** Higher score, then more appearances, then smaller identifier. */
  predicate Precedes(byId: map<Uuid, CandidateInput>, a: ScoredCandidate, b: ScoredCandidate) {
    var m, n := Appearances(byId, a.athleteId), Appearances(byId, b.athleteId);
    a.score > b.score || (a.score == b.score && (m > n || (m == n && a.athleteId < b.athleteId)))
  }

  function ByScore(byId: map<Uuid, CandidateInput>): (ScoredCandidate, ScoredCandidate) -> bool {
    (a, b) => Precedes(byId, a, b)
  }

  /** The alphabetical place of a role's letter. */
  function Letter(role: FantasyRole): nat {
    match role case A => 0 case C => 1 case D => 2 case P => 3
  }

  function ByRoleThenId(): (ScoredCandidate, ScoredCandidate) -> bool {
    (a: ScoredCandidate, b: ScoredCandidate) =>
      Letter(a.role) < Letter(b.role) || (a.role == b.role && a.athleteId < b.athleteId)
  }

  function HasRole(role: FantasyRole): ScoredCandidate -> bool {
    (x: ScoredCandidate) => x.role == role
  }

  function NotIn(used: set<Uuid>): ScoredCandidate -> bool {
    (x: ScoredCandidate) => x.athleteId !in used
  }

  function IsOpen(): ScoredCandidate -> bool {
    (x: ScoredCandidate) => x.excludedReason.None?
  }

  function IsExcluded(): ScoredCandidate -> bool {
    (x: ScoredCandidate) => x.excludedReason.Some?
  }

  function Id(): ScoredCandidate -> Uuid {
    (x: ScoredCandidate) => x.athleteId
  }

  function Ids(s: seq<ScoredCandidate>): seq<Uuid> {
    MapSeq(Id(), s)
  }

  function IdSet(s: seq<ScoredCandidate>): set<Uuid> {
    set x | x in s :: x.athleteId
  }

  ghost predicate DistinctIds(s: seq<ScoredCandidate>) {
    forall i, j :: 0 <= i < j < |s| ==> s[i].athleteId != s[j].athleteId
  }

  /* ---- the bench ---- */

  /** How many of each role to reserve, in the order the mapping lists them. */
  type Required = seq<(FantasyRole, int)>

  ghost predicate DistinctRoles(required: Required) {
    forall i, j :: 0 <= i < j < |required| ==> required[i].0 != required[j].0
  }

  function Needed(required: Required, role: FantasyRole): int {
    if required == [] then 0
    else if required[|required| - 1].0 == role then required[|required| - 1].1
    else Needed(required[..|required| - 1], role)
  }

  function RoleOrder(pool: seq<ScoredCandidate>, role: FantasyRole, byId: map<Uuid, CandidateInput>)
    : seq<ScoredCandidate>
  {
    SortBy(Keep(HasRole(role), pool), ByScore(byId))
  }

  function DefaultRequired(pool: seq<ScoredCandidate>): Required {
    MapSeq((r: FantasyRole) => (r, Min(BenchActiveRoleQuota(r), |Keep(HasRole(r), pool)|)), ROLES)
  }

  function Min(a: int, b: int): int {
    if a <= b then a else b
  }

  function Reserved(pool: seq<ScoredCandidate>, required: Required, byId: map<Uuid, CandidateInput>)
    : seq<ScoredCandidate>
  {
    if required == [] then []
    else
      var (role, needed) := required[|required| - 1];
      Reserved(pool, required[..|required| - 1], byId) + Top(RoleOrder(pool, role, byId), needed)
  }

  /** Everyone not reserved, best first. */
  function FreeAgents(pool: seq<ScoredCandidate>, required: Required, byId: map<Uuid, CandidateInput>)
    : seq<ScoredCandidate>
  {
    SortBy(Keep(NotIn(IdSet(Reserved(pool, required, byId))), pool), ByScore(byId))
  }

  function Filled(pool: seq<ScoredCandidate>, required: Required, size: int, byId: map<Uuid, CandidateInput>)
    : seq<ScoredCandidate>
  {
    Top(FreeAgents(pool, required, byId), Min(size, |pool|) - |Reserved(pool, required, byId)|)
  }

  function ActiveBench(pool: seq<ScoredCandidate>, required: Required, size: int, byId: map<Uuid, CandidateInput>)
    : seq<ScoredCandidate>
  {
    Reserved(pool, required, byId) + Filled(pool, required, size, byId)
  }

  function TailOf(
    pool: seq<ScoredCandidate>, roles: seq<FantasyRole>, used: set<Uuid>, byId: map<Uuid, CandidateInput>)
    : seq<ScoredCandidate>
  {
    if roles == [] then []
    else
      TailOf(pool, roles[..|roles| - 1], used, byId)
      + Keep(NotIn(used), RoleOrder(pool, roles[|roles| - 1], byId))
  }

  function BenchOrder(pool: seq<ScoredCandidate>, required: Required, size: int, byId: map<Uuid, CandidateInput>)
    : seq<ScoredCandidate>
  {
    var active := ActiveBench(pool, required, size, byId);
    active + TailOf(pool, ROLES, IdSet(active), byId)
  }

  /* ---- the starters ---- */

  function FreeWithRole(role: FantasyRole, taken: set<Uuid>): ScoredCandidate -> bool {
    (x: ScoredCandidate) => x.role == role && x.athleteId !in taken
  }

  function Starters(eligible: seq<ScoredCandidate>, targets: seq<(FantasyRole, nat)>): seq<ScoredCandidate> {
    if targets == [] then []
    else
      var before := Starters(eligible, targets[..|targets| - 1]);
      before + Picks(eligible, before, targets[|targets| - 1])
  }

  function Picks(eligible: seq<ScoredCandidate>, before: seq<ScoredCandidate>, target: (FantasyRole, nat))
    : seq<ScoredCandidate>
  {
    Top(Keep(FreeWithRole(target.0, IdSet(before)), eligible), target.1)
  }

  function Unfilled(eligible: seq<ScoredCandidate>, targets: seq<(FantasyRole, nat)>): seq<FantasyRole> {
    if targets == [] then []
    else
      var n := |targets| - 1;
      var picked := |Picks(eligible, Starters(eligible, targets[..n]), targets[n])|;
      Unfilled(eligible, targets[..n]) + seq(Max0(targets[n].1 - picked), _ => targets[n].0)
  }

  function Max0(n: int): nat {
    if n < 0 then 0 else n
  }

  /** The slots the module asks for in one role, over all its entries. */
  function Slots(targets: seq<(FantasyRole, nat)>, role: FantasyRole): nat {
    if targets == [] then 0
    else Slots(targets[..|targets| - 1], role)
         + if targets[|targets| - 1].0 == role then targets[|targets| - 1].1 else 0
  }

  function AllSlots(targets: seq<(FantasyRole, nat)>): nat {
    if targets == [] then 0 else AllSlots(targets[..|targets| - 1]) + targets[|targets| - 1].1
  }

  /* ---- the plan ---- */

  function EligibleOrder(candidates: seq<CandidateInput>): seq<ScoredCandidate> {
    SortBy(Keep(IsOpen(), ScoredAll(candidates)), ByScore(ById(candidates)))
  }

  function StartersOf(candidates: seq<CandidateInput>, targets: seq<(FantasyRole, nat)>): seq<ScoredCandidate> {
    Starters(EligibleOrder(candidates), targets)
  }

  /** Eligible athletes who do not start, then the excluded ones. */
  function RemainingOf(candidates: seq<CandidateInput>, targets: seq<(FantasyRole, nat)>): seq<ScoredCandidate> {
    Keep(NotIn(IdSet(StartersOf(candidates, targets))), EligibleOrder(candidates))
    + SortBy(Keep(IsExcluded(), ScoredAll(candidates)), ByRoleThenId())
  }

  function BenchOf(candidates: seq<CandidateInput>, targets: seq<(FantasyRole, nat)>): seq<ScoredCandidate> {
    var pool := RemainingOf(candidates, targets);
    BenchOrder(pool, DefaultRequired(pool), BENCH_ACTIVE_SIZE, ById(candidates))
  }

  /** A slice to `n`, where a negative `n` counts back from the end. */
  function SliceTo<T>(s: seq<T>, n: int): seq<T> {
    Top(s, if n < 0 then |s| + n else n)
  }

  function BenchIds(candidates: seq<CandidateInput>, targets: seq<(FantasyRole, nat)>, cap: Option<int>): seq<Uuid> {
    var ids := Ids(BenchOf(candidates, targets));
    if cap.None? then ids else SliceTo(ids, cap.value)
  }

  /** The log entry of one athlete once starters and bench are known. */
  function FinalEntry(starters: set<Uuid>, bench: seq<Uuid>, x: ScoredCandidate): ScoredCandidate {
    if x.excludedReason.Some? || x.athleteId in starters || x.athleteId in bench then x
    else x.(excludedReason := Some(NotSelected))
  }

  function FinalLog(candidates: seq<CandidateInput>, starters: set<Uuid>, bench: seq<Uuid>): seq<ScoredCandidate> {
    MapSeq((x: ScoredCandidate) => FinalEntry(starters, bench, x), ScoredAll(candidates))
  }

  predicate UsesFallback(log: seq<ScoredCandidate>, starters: set<Uuid>) {
    exists i :: 0 <= i < |log| && log[i].athleteId in starters && LocalFallback in log[i].sources
  }

  function Plan(
    candidates: seq<CandidateInput>, targets: seq<(FantasyRole, nat)>, decidedAt: int, cap: Option<int>): LineupPlan
  {
    var starters := StartersOf(candidates, targets);
    var bench := BenchIds(candidates, targets, cap);
    var log := FinalLog(candidates, IdSet(starters), bench);
    LineupPlan(
      ALGORITHM_VERSION, decidedAt, Ids(starters), bench, log, UsesFallback(log, IdSet(starters)),
      Unfilled(EligibleOrder(candidates), targets))
  }

  /** Lineup sheets count only when known, fetched in time, and not yet locked. */
  function OfficialStarterSignal(isStarter: Option<bool>, fetchedAt: Option<int>, decidedAt: int, locked: bool)
    : Option<bool>
  {
    if isStarter.None? || fetchedAt.None? then None
    else if locked then None
    else if fetchedAt.value > decidedAt then None
    else isStarter
  }
}
