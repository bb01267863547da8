/**
 * The offline corpus: what the acquiring program writes from provider payloads, and
 * what the independent checker accepts. The digest is any function from contents to text.
 */
module DatasetModel {
  import opened Options
  import opened Sequences
  import opened DatasetText

  datatype Json =
    | JNull | JBool(b: bool) | JNum(n: int) | JStr(s: string)
    | JArr(items: seq<Json>) | JObj(fields: map<string, Json>)

  /* ---- minimising payloads ---- */

  const DROP_KEYS: set<string> := {
    "logo", "photo", "flag", "image", "colors", "headers", "Authorization", "x-apisports-key", "x-rapidapi-key"}

  function Minimize(j: Json): Json {
    match j
    case JObj(fields) => JObj(map k | k in fields && k !in DROP_KEYS :: Minimize(fields[k]))
    case JArr(items) => JArr(seq(|items|, i requires 0 <= i < |items| => Minimize(items[i])))
    case _ => j
  }

  /** No dropped key at any depth. */
  ghost predicate Clean(j: Json) {
    match j
    case JObj(fields) => forall k :: k in fields ==> k !in DROP_KEYS && Clean(fields[k])
    case JArr(items) => forall i :: 0 <= i < |items| ==> Clean(items[i])
    case _ => true
  }

  /* ---- contents ---- */

  /** A provider item; `tags` are the rare cases derived from it. */
  datatype Item = Item(
    fixtureId: nat, leagueId: nat, fixture: Json, league: Json, teams: Json, goals: Json, score: Json,
    events: seq<Json>, lineups: seq<Json>, players: seq<Json>, home: Option<Team>, away: Option<Team>, tags: set<string>)

  datatype Team = Team(id: nat, name: Json, code: Json)

  datatype FileMeta = FileMeta(path: string, endpoint: string, sha256: string, fixtureId: Option<nat>)

  datatype MatchMeta = MatchMeta(leagueId: nat, fixtureId: nat, tags: set<string>, files: seq<string>)

  datatype Manifest = Manifest(
    fixtures: seq<MatchMeta>, rareFound: set<string>, rareNotFound: set<string>, files: seq<FileMeta>)

  datatype Content = JsonFile(json: Json) | ManifestFile(manifest: Manifest) | Text(lines: seq<string>) | Binary(tag: nat)

  type Files = map<Path, Content>
  type Hash = Content -> string

  const LEAGUES: set<nat> := {39, 140, 135, 78, 61}

  const RARE_TAGS: set<string> := {
    "penalty_scored", "penalty_missed", "penalty_saved", "red_card", "substitution", "clean_sheet", "own_goal",
    "postponement", "post_match_correction"}

  const MATCH_ENDPOINTS: seq<(string, string)> := [
    ("/fixtures", "fixtures.json"), ("/fixtures/events", "fixtures_events.json"),
    ("/fixtures/lineups", "fixtures_lineups.json"), ("/fixtures/players", "fixtures_players.json")]

  const FILES_PER_MATCH: nat := 4

  const MANIFEST: Path := ["manifest.json"]
  const CHECKSUMS: Path := ["checksums.sha256"]
  const LEAGUES_FILE: Path := ["reference", "leagues.json"]
  const TEAMS_FILE: Path := ["reference", "teams.json"]

  function MatchFile(league: nat, fixture: nat, k: nat): Path
    requires k < FILES_PER_MATCH
  {
    ["matches", Decimal(league), Decimal(fixture), MATCH_ENDPOINTS[k].1]
  }

  /** The league and fixture of the match directory a path lies in, if its names are numbers. */
  function MatchDir(p: Path): Option<(nat, nat)> {
    if |p| >= 4 && p[0] == "matches" && AllDigits(p[1]) && AllDigits(p[2]) then Some((Value(p[1]), Value(p[2]))) else None
  }

  function StripSlashes(s: string): string {
    if s != "" && s[0] == '/' then StripSlashes(s[1..]) else s
  }

  function Envelope(endpoint: string, parameters: map<string, string>, response: seq<Json>): Json {
    JObj(map[
      "get" := JStr(StripSlashes(endpoint)),
      "parameters" := JObj(map k | k in parameters :: JStr(parameters[k])),
      "errors" := JArr([]),
      "results" := JNum(|response|),
      "paging" := JObj(map["current" := JNum(1), "total" := JNum(1)]),
      "response" := JArr(response)])
  }

  /* ---- what acquiring writes ---- */

  /** The files so far and the record of what was written. */
  datatype Work = Work(files: Files, meta: seq<FileMeta>)

  function Written(h: Hash, w: Work, path: Path, content: Content, endpoint: string, fixtureId: Option<nat>): Work {
    Work(w.files[path := content], w.meta + [FileMeta(Posix(path), endpoint, h(content), fixtureId)])
  }

  function FixtureOnly(item: Item): Json {
    JObj(map[
      "fixture" := item.fixture, "league" := item.league, "teams" := item.teams, "goals" := item.goals,
      "score" := item.score])
  }

  function Payload(item: Item, k: nat): seq<Json> {
    if k == 0 then [FixtureOnly(item)] else if k == 1 then item.events else if k == 2 then item.lineups else item.players
  }

  function MatchContent(item: Item, k: nat): Content
    requires k < FILES_PER_MATCH
  {
    var key := if k == 0 then "id" else "fixture";
    JsonFile(Envelope(MATCH_ENDPOINTS[k].0, map[key := Decimal(item.fixtureId)], Payload(item, k)))
  }

  function FileWritten(h: Hash, w: Work, league: nat, item: Item, k: nat): Work
    requires k < FILES_PER_MATCH
  {
    Written(
      h, w, MatchFile(league, item.fixtureId, k), MatchContent(item, k), MATCH_ENDPOINTS[k].0, Some(item.fixtureId))
  }

  /** The first `n` of the four files of a match. */
  function MatchWritten(h: Hash, w: Work, league: nat, item: Item, n: nat): Work
    requires n <= FILES_PER_MATCH
  {
    if n == 0 then w else FileWritten(h, MatchWritten(h, w, league, item, n - 1), league, item, n - 1)
  }

  function MatchesWritten(h: Hash, w: Work, matches: seq<(nat, Item)>): Work {
    if matches == [] then w
    else
      var last := matches[|matches| - 1];
      MatchWritten(h, MatchesWritten(h, w, matches[..|matches| - 1]), last.0, last.1, FILES_PER_MATCH)
  }

  function MatchMetaOf(m: (nat, Item)): MatchMeta {
    MatchMeta(
      m.0, m.1.fixtureId, m.1.tags,
      seq(FILES_PER_MATCH, k requires 0 <= k < FILES_PER_MATCH => Posix(MatchFile(m.0, m.1.fixtureId, k))))
  }

  function ReferenceWritten(h: Hash, w: Work, leagues: Option<seq<Json>>): Work {
    if leagues.None? then w
    else
      var content := JsonFile(Envelope("/leagues", map["current" := "true"], leagues.value));
      var w1 := Written(h, w, LEAGUES_FILE, content, "/leagues", None);
      if TEAMS_FILE in w1.files then w1
      else w1.(files := w1.files[TEAMS_FILE := JsonFile(Envelope("/teams", map["ids" := "selected"], []))])
  }

  function TeamEntry(t: Team): Json {
    JObj(map[
      "team" := JObj(map[
        "id" := JNum(t.id), "name" := t.name, "code" := t.code, "country" := JNull, "founded" := JNull,
        "national" := JBool(false), "logo" := JNull]),
      "venue" := JObj(map[
        "id" := JNull, "name" := JNull, "address" := JNull, "city" := JNull, "capacity" := JNull,
        "surface" := JNull, "image" := JNull])])
  }

  /** Adds a team, or replaces the entry of the same identifier where it stands. */
  function WithTeam(teams: seq<Team>, t: Option<Team>): seq<Team> {
    if t.None? then teams
    else if i :| 0 <= i < |teams| && teams[i].id == t.value.id && forall j :: 0 <= j < i ==> teams[j].id != t.value.id
    then teams[i := t.value]
    else teams + [t.value]
  }

  function TeamsOf(items: seq<Item>): seq<Team> {
    if items == [] then []
    else
      var last := items[|items| - 1];
      WithTeam(WithTeam(TeamsOf(items[..|items| - 1]), last.home), last.away)
  }

  function TeamsContent(items: seq<Item>): Content {
    JsonFile(Envelope(
      "/teams", map["ids" := "selected"], MapSeq((t: Team) => TeamEntry(t), TeamsOf(items))))
  }

  function NotPath(path: string): FileMeta -> bool {
    (f: FileMeta) => f.path != path
  }

  /** The teams file replaces any earlier record of it. */
  function TeamsWritten(h: Hash, w: Work, items: seq<Item>): Work {
    Written(h, w.(meta := Keep(NotPath(Posix(TEAMS_FILE)), w.meta)), TEAMS_FILE, TeamsContent(items), "/teams", None)
  }

  function TagsOf(matches: seq<(nat, Item)>): set<string> {
    set m, t | m in matches && t in m.1.tags :: t
  }

  function ByLeagueThenFixture(): (MatchMeta, MatchMeta) -> bool {
    (a: MatchMeta, b: MatchMeta) =>
      a.leagueId < b.leagueId || (a.leagueId == b.leagueId && a.fixtureId < b.fixtureId)
  }

  /** Character by character. */
  predicate TextLess(a: string, b: string) {
    if b == "" then false
    else if a == "" then true
    else a[0] < b[0] || (a[0] == b[0] && TextLess(a[1..], b[1..]))
  }

  function ByPath(): (FileMeta, FileMeta) -> bool {
    (a: FileMeta, b: FileMeta) => TextLess(a.path, b.path)
  }

  function ManifestOf(matches: seq<(nat, Item)>, meta: seq<FileMeta>): Manifest {
    Manifest(
      SortBy(MapSeq((m: (nat, Item)) => MatchMetaOf(m), matches), ByLeagueThenFixture()),
      TagsOf(matches), RARE_TAGS - TagsOf(matches), meta)
  }

  /** Removes every match directory that is not of this run. */
  function Pruned(files: Files, keep: set<(nat, nat)>): Files {
    map p | p in files && (MatchDir(p).None? || MatchDir(p).value in keep) :: files[p]
  }

  function KeysOf(matches: seq<(nat, Item)>): set<(nat, nat)> {
    set m | m in matches :: (m.0, m.1.fixtureId)
  }

  function LineOf(f: FileMeta): string {
    ChecksumLine(f.sha256, f.path)
  }

  function ChecksumLines(h: Hash, meta: seq<FileMeta>, manifest: Content): seq<string> {
    MapSeq((f: FileMeta) => LineOf(f), SortBy(meta, ByPath())) + [ChecksumLine(h(manifest), Posix(MANIFEST))]
  }

  /** What a run is given: the references to refresh, the fixtures asked for, and what the provider returned. */
  datatype Input = Input(
    leagues: Option<seq<Json>>, requested: seq<(nat, nat)>, fetched: seq<Item>, extras: seq<(nat, Item)>)

  /** The league a request first named for each fixture. */
  function LeagueByFixture(requested: seq<(nat, nat)>): map<nat, nat> {
    if requested == [] then map[]
    else
      var before, last := LeagueByFixture(requested[..|requested| - 1]), requested[|requested| - 1];
      if last.1 in before then before else before[last.1 := last.0]
  }

  /** The requested league of a fixture, or the one its payload names. */
  function LeagueOf(byFixture: map<nat, nat>, item: Item): nat {
    if item.fixtureId in byFixture && byFixture[item.fixtureId] != 0 then byFixture[item.fixtureId] else item.leagueId
  }

  /** The leagues settled once every payload has arrived: an earlier payload of a fixture settles the later ones. */
  function SettledLeagues(requested: seq<(nat, nat)>, fetched: seq<Item>): map<nat, nat> {
    if fetched == [] then LeagueByFixture(requested)
    else
      var before, last := SettledLeagues(requested, fetched[..|fetched| - 1]), fetched[|fetched| - 1];
      before[last.fixtureId := LeagueOf(before, last)]
  }

  function Matches(input: Input): seq<(nat, Item)> {
    var settled := SettledLeagues(input.requested, input.fetched);
    MapSeq((item: Item) => (LeagueOf(settled, item), item), input.fetched) + input.extras
  }

  /** The work done before the manifest is written. */
  function Gathered(h: Hash, files: Files, input: Input): Work {
    TeamsWritten(
      h, MatchesWritten(h, ReferenceWritten(h, Work(files, []), input.leagues), Matches(input)), input.fetched)
  }

  function Acquired(h: Hash, files: Files, input: Input): Files {
    var w, matches := Gathered(h, files, input), Matches(input);
    var manifest := ManifestFile(ManifestOf(matches, w.meta));
    Pruned(w.files[MANIFEST := manifest], KeysOf(matches))[CHECKSUMS := Text(ChecksumLines(h, w.meta, manifest))]
  }

  /* ---- what validating accepts ---- */

  predicate EnvelopeOk(j: Json, endpoint: string) {
    && j.JObj?
    && "get" in j.fields && "parameters" in j.fields && "errors" in j.fields
    && "results" in j.fields && "paging" in j.fields && "response" in j.fields
    && j.fields["get"].JStr? && StripSlashes(j.fields["get"].s) == StripSlashes(endpoint)
    && j.fields["response"].JArr? && j.fields["parameters"].JObj?
  }

  predicate HasFixtureId(item: Json, id: nat) {
    && item.JObj? && "fixture" in item.fields && item.fields["fixture"].JObj?
    && "id" in item.fields["fixture"].fields && item.fields["fixture"].fields["id"] == JNum(id)
  }

  /** Items whose identifier the checker can look up without failing. */
  predicate Readable(item: Json) {
    item.JObj? && ("fixture" in item.fields ==> item.fields["fixture"].JObj?)
  }

  predicate IdOk(j: Json, k: nat, fixture: nat)
    requires k < FILES_PER_MATCH && EnvelopeOk(j, MATCH_ENDPOINTS[k].0)
  {
    if k == 0 then
      var items := j.fields["response"].items;
      (forall i :: 0 <= i < |items| ==> Readable(items[i])) && exists i :: 0 <= i < |items| && HasFixtureId(items[i], fixture)
    else
      var parameters := j.fields["parameters"].fields;
      "fixture" in parameters && parameters["fixture"] != JNull ==>
        parameters["fixture"] == JStr(Decimal(fixture)) || parameters["fixture"] == JNum(fixture)
  }

  predicate MatchFileOk(files: Files, league: nat, fixture: nat, k: nat)
    requires k < FILES_PER_MATCH
  {
    var p := MatchFile(league, fixture, k);
    && p in files && files[p].JsonFile?
    && EnvelopeOk(files[p].json, MATCH_ENDPOINTS[k].0)
    && IdOk(files[p].json, k, fixture)
  }

  /** The digest the checksum file gives each path, the last line winning. */
  function ChecksumMap(lines: seq<string>): map<string, string> {
    if lines == [] then map[]
    else
      var before := ChecksumMap(lines[..|lines| - 1]);
      match ParseLine(lines[|lines| - 1])
      case Entry(rel, digest) => before[rel := digest]
      case _ => before
  }

  predicate LinesReadable(lines: seq<string>) {
    forall i :: 0 <= i < |lines| ==> ParseLine(lines[i]) != Malformed
  }

  predicate EntryOk(h: Hash, files: Files, sums: map<string, string>, f: FileMeta) {
    var p := Parts(Forward(f.path));
    && p in files
    && (f.sha256 != "" ==> h(files[p]) == f.sha256)
    && (Forward(f.path) in sums ==> sums[Forward(f.path)] == h(files[p]))
  }

  predicate IsJsonName(p: Path) {
    p != [] && |p[|p| - 1]| >= 5 && p[|p| - 1][|p[|p| - 1]| - 5..] == ".json"
  }

  function ManifestKeys(m: Manifest): set<(nat, nat)> {
    set fx | fx in m.fixtures :: (fx.leagueId, fx.fixtureId)
  }

  predicate ManifestOk(m: Manifest) {
    && |m.fixtures| >= 20
    && (forall league :: league in LEAGUES ==> exists i :: 0 <= i < |m.fixtures| && m.fixtures[i].leagueId == league)
    && (forall tag :: tag in RARE_TAGS ==> tag in m.rareFound || tag in m.rareNotFound)
  }

  predicate NoOrphans(files: Files, m: Manifest) {
    forall p :: p in files && MatchDir(p).Some? ==> MatchDir(p).value in ManifestKeys(m)
  }

  predicate NoSecrets(files: Files, secret: Content -> bool) {
    forall p :: p in files && IsJsonName(p) ==> !secret(files[p])
  }

  /** The checker finds the manifest and the checksums, and no error. */
  predicate Accepts(h: Hash, secret: Content -> bool, files: Files) {
    && MANIFEST in files && CHECKSUMS in files
    && files[MANIFEST].ManifestFile? && files[CHECKSUMS].Text?
    && var m, lines := files[MANIFEST].manifest, files[CHECKSUMS].lines;
    && ManifestOk(m)
    && (forall i, k :: 0 <= i < |m.fixtures| && 0 <= k < FILES_PER_MATCH ==>
          MatchFileOk(files, m.fixtures[i].leagueId, m.fixtures[i].fixtureId, k))
    && NoOrphans(files, m)
    && LinesReadable(lines)
    && (forall i :: 0 <= i < |m.files| ==> EntryOk(h, files, ChecksumMap(lines), m.files[i]))
    && (Posix(MANIFEST) in ChecksumMap(lines) ==> ChecksumMap(lines)[Posix(MANIFEST)] == h(files[MANIFEST]))
    && NoSecrets(files, secret)
  }
}
