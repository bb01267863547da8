/** What an accepted corpus is, told without the checker's own terms, and the damage that takes acceptance away. */
module DatasetDamage {
  import opened Options
  import opened DatasetText
  import opened DatasetModel

  /* ---- a sound corpus ---- */

  const NINE_CASES: seq<string> := [
    "penalty_scored", "penalty_missed", "penalty_saved", "red_card", "substitution", "clean_sheet", "own_goal",
    "postponement", "post_match_correction"]

  /** What the last line about a file says of it, reading from the end. */
  function LastSays(lines: seq<string>, rel: string): Option<string> {
    if lines == [] then None
    else
      match ParseLine(lines[|lines| - 1])
      case Entry(r, digest) => if r == rel then Some(digest) else LastSays(lines[..|lines| - 1], rel)
      case _ => LastSays(lines[..|lines| - 1], rel)
  }

  /** A stored answer of one endpoint: the six keys of an envelope, naming it. */
  predicate Answers(c: Content, endpoint: string) {
    && c.JsonFile? && c.json.JObj?
    && (forall k :: k in ["get", "parameters", "errors", "results", "paging", "response"] ==> k in c.json.fields)
    && "get" in c.json.fields && c.json.fields["get"].JStr? && StripSlashes(c.json.fields["get"].s) == endpoint
    && "response" in c.json.fields && c.json.fields["response"].JArr?
    && "parameters" in c.json.fields && c.json.fields["parameters"].JObj?
  }

  /** Some item of the answer names the fixture by number, and all can be read. */
  predicate ListsFixture(c: Content, fixture: nat)
    requires Answers(c, "fixtures")
  {
    var items := c.json.fields["response"].items;
    && (forall i :: 0 <= i < |items| ==> items[i].JObj? && ("fixture" in items[i].fields ==> items[i].fields["fixture"].JObj?))
    && exists i :: 0 <= i < |items| && items[i].JObj? && "fixture" in items[i].fields && items[i].fields["fixture"].JObj?
         && "id" in items[i].fields["fixture"].fields && items[i].fields["fixture"].fields["id"] == JNum(fixture)
  }

  /** The parameters name the fixture, as text or number, or no fixture at all. */
  predicate AsksFor(c: Content, endpoint: string, fixture: nat)
    requires Answers(c, endpoint)
  {
    var parameters := c.json.fields["parameters"].fields;
    "fixture" in parameters ==>
      parameters["fixture"] in [JNull, JStr(Decimal(fixture)), JNum(fixture)]
  }

  predicate MatchComplete(files: Files, league: nat, fixture: nat) {
    var dir := ["matches", Decimal(league), Decimal(fixture)];
    && dir + ["fixtures.json"] in files && Answers(files[dir + ["fixtures.json"]], "fixtures")
    && ListsFixture(files[dir + ["fixtures.json"]], fixture)
    && dir + ["fixtures_events.json"] in files && Answers(files[dir + ["fixtures_events.json"]], "fixtures/events")
    && AsksFor(files[dir + ["fixtures_events.json"]], "fixtures/events", fixture)
    && dir + ["fixtures_lineups.json"] in files && Answers(files[dir + ["fixtures_lineups.json"]], "fixtures/lineups")
    && AsksFor(files[dir + ["fixtures_lineups.json"]], "fixtures/lineups", fixture)
    && dir + ["fixtures_players.json"] in files && Answers(files[dir + ["fixtures_players.json"]], "fixtures/players")
    && AsksFor(files[dir + ["fixtures_players.json"]], "fixtures/players", fixture)
  }

  /**
   * The file a record names is there with the recorded digest, if one is recorded, and with that of the last line
   * about it, if there is one.
   */
  predicate RecordHolds(h: Hash, files: Files, lines: seq<string>, f: FileMeta) {
    var p := Parts(Forward(f.path));
    && p in files
    && (f.sha256 == "" || h(files[p]) == f.sha256)
    && LastSays(lines, Forward(f.path)) in [None, Some(h(files[p]))]
  }

  predicate Listed(m: Manifest, league: nat, fixture: nat) {
    exists i :: 0 <= i < |m.fixtures| && m.fixtures[i].leagueId == league && m.fixtures[i].fixtureId == fixture
  }

  /** A directory of a match: two numbers under "matches". */
  predicate InMatchDir(p: Path) {
    |p| >= 4 && p[0] == "matches" && AllDigits(p[1]) && AllDigits(p[2])
  }

  ghost predicate ManifestSound(m: Manifest) {
    && |m.fixtures| >= 20
    && (forall league :: league in [39, 140, 135, 78, 61] ==>
          exists i :: 0 <= i < |m.fixtures| && m.fixtures[i].leagueId == league)
    && (forall i :: 0 <= i < |NINE_CASES| ==> NINE_CASES[i] in m.rareFound || NINE_CASES[i] in m.rareNotFound)
  }

  ghost predicate FilesSound(h: Hash, secret: Content -> bool, files: Files, m: Manifest, lines: seq<string>) {
    && (forall i :: 0 <= i < |m.fixtures| ==> MatchComplete(files, m.fixtures[i].leagueId, m.fixtures[i].fixtureId))
    && (forall p :: p in files && InMatchDir(p) ==> Listed(m, Value(p[1]), Value(p[2])))
    && (forall i :: 0 <= i < |lines| ==> !ParseLine(lines[i]).Malformed?)
    && (forall i :: 0 <= i < |m.files| ==> RecordHolds(h, files, lines, m.files[i]))
    && LastSays(lines, "manifest.json") in [None, Some(h(ManifestFile(m)))]
    && (forall p :: p in files && IsJsonName(p) ==> !secret(files[p]))
  }

  ghost predicate Sound(h: Hash, secret: Content -> bool, files: Files) {
    && ["manifest.json"] in files && ["checksums.sha256"] in files
    && files[["manifest.json"]].ManifestFile? && files[["checksums.sha256"]].Text?
    && ManifestSound(files[["manifest.json"]].manifest)
    && FilesSound(h, secret, files, files[["manifest.json"]].manifest, files[["checksums.sha256"]].lines)
  }

  /* ---- the checker accepts exactly the sound ones ---- */

  lemma {:induction false} LastLineWins(lines: seq<string>, rel: string)
    ensures LastSays(lines, rel)
         == if rel in ChecksumMap(lines) then Some(ChecksumMap(lines)[rel]) else None
  {
    if lines != [] {
      LastLineWins(lines[..|lines| - 1], rel);
    }
  }

  lemma NineCases()
    ensures forall tag :: tag in RARE_TAGS <==> exists i :: 0 <= i < |NINE_CASES| && NINE_CASES[i] == tag
  {
    forall tag | tag in RARE_TAGS ensures exists i :: 0 <= i < |NINE_CASES| && NINE_CASES[i] == tag {
      assert NINE_CASES[0] == "penalty_scored" && NINE_CASES[1] == "penalty_missed" && NINE_CASES[2] == "penalty_saved";
      assert NINE_CASES[3] == "red_card" && NINE_CASES[4] == "substitution" && NINE_CASES[5] == "clean_sheet";
      assert NINE_CASES[6] == "own_goal" && NINE_CASES[7] == "postponement" && NINE_CASES[8] == "post_match_correction";
    }
  }

  lemma ManifestSoundExactly(m: Manifest)
    ensures ManifestOk(m) <==> ManifestSound(m)
  {
    NineCases();
    FiveLeagues();
  }

  lemma FiveLeagues()
    ensures forall league: nat :: league in LEAGUES <==> league in [39, 140, 135, 78, 61]
  {
  }

  lemma EndpointsStripped()
    ensures StripSlashes("/fixtures") == "fixtures" && StripSlashes("/fixtures/events") == "fixtures/events"
    ensures StripSlashes("/fixtures/lineups") == "fixtures/lineups"
    ensures StripSlashes("/fixtures/players") == "fixtures/players"
  {
    assert "/fixtures"[1..] == "fixtures" && "/fixtures/events"[1..] == "fixtures/events";
    assert "/fixtures/lineups"[1..] == "fixtures/lineups" && "/fixtures/players"[1..] == "fixtures/players";
  }

  /** The endpoint names without the leading slash. */
  function Endpoint(k: nat): string {
    if k == 0 then "fixtures" else if k == 1 then "fixtures/events" else if k == 2 then "fixtures/lineups"
    else "fixtures/players"
  }

  function FileName(k: nat): string {
    if k == 0 then "fixtures.json" else if k == 1 then "fixtures_events.json"
    else if k == 2 then "fixtures_lineups.json" else "fixtures_players.json"
  }

  lemma EndpointIs(k: nat)
    requires k < FILES_PER_MATCH
    ensures StripSlashes(MATCH_ENDPOINTS[k].0) == Endpoint(k) && MATCH_ENDPOINTS[k].1 == FileName(k)
  {
    EndpointsStripped();
  }

  lemma AnswersExactly(c: Content, k: nat)
    requires k < FILES_PER_MATCH
    ensures Answers(c, Endpoint(k)) <==> c.JsonFile? && EnvelopeOk(c.json, MATCH_ENDPOINTS[k].0)
  {
    EndpointIs(k);
    if c.JsonFile? && c.json.JObj? {
      assert "get" in ["get", "parameters", "errors", "results", "paging", "response"]
        && "parameters" in ["get", "parameters", "errors", "results", "paging", "response"]
        && "errors" in ["get", "parameters", "errors", "results", "paging", "response"]
        && "results" in ["get", "parameters", "errors", "results", "paging", "response"]
        && "paging" in ["get", "parameters", "errors", "results", "paging", "response"]
        && "response" in ["get", "parameters", "errors", "results", "paging", "response"];
    }
  }

  /** One of a match's files, as the reader of a corpus would check it. */
  predicate FileSound(files: Files, league: nat, fixture: nat, k: nat) {
    var p := ["matches", Decimal(league), Decimal(fixture)] + [FileName(k)];
    && p in files && Answers(files[p], Endpoint(k))
    && if k == 0 then ListsFixture(files[p], fixture) else AsksFor(files[p], Endpoint(k), fixture)
  }

  lemma FileSoundExactly(files: Files, league: nat, fixture: nat, k: nat)
    requires k < FILES_PER_MATCH
    ensures MatchFileOk(files, league, fixture, k) <==> FileSound(files, league, fixture, k)
  {
    EndpointIs(k);
    assert MatchFile(league, fixture, k) == ["matches", Decimal(league), Decimal(fixture)] + [FileName(k)];
    if MatchFile(league, fixture, k) in files {
      AnswersExactly(files[MatchFile(league, fixture, k)], k);
    }
  }

  lemma MatchCompleteInParts(files: Files, league: nat, fixture: nat)
    ensures MatchComplete(files, league, fixture)
       <==> FileSound(files, league, fixture, 0) && FileSound(files, league, fixture, 1)
            && FileSound(files, league, fixture, 2) && FileSound(files, league, fixture, 3)
  {
  }

  lemma MatchCompleteExactly(files: Files, league: nat, fixture: nat)
    ensures MatchComplete(files, league, fixture)
       <==> forall k :: 0 <= k < FILES_PER_MATCH ==> MatchFileOk(files, league, fixture, k)
  {
    MatchCompleteInParts(files, league, fixture);
    forall k: nat | k < FILES_PER_MATCH
      ensures MatchFileOk(files, league, fixture, k) <==> FileSound(files, league, fixture, k)
    {
      FileSoundExactly(files, league, fixture, k);
    }
  }

  lemma ListedExactly(m: Manifest, league: nat, fixture: nat)
    ensures Listed(m, league, fixture) <==> (league, fixture) in ManifestKeys(m)
  {
    if (league, fixture) in ManifestKeys(m) {
      var fx :| fx in m.fixtures && (league, fixture) == (fx.leagueId, fx.fixtureId);
      var i :| 0 <= i < |m.fixtures| && m.fixtures[i] == fx;
    }
  }

  lemma OrphansExactly(files: Files, m: Manifest)
    ensures NoOrphans(files, m)
       <==> forall p :: p in files && InMatchDir(p) ==> Listed(m, Value(p[1]), Value(p[2]))
  {
    forall p | p in files && InMatchDir(p)
      ensures Listed(m, Value(p[1]), Value(p[2])) <==> MatchDir(p).value in ManifestKeys(m)
    {
      ListedExactly(m, Value(p[1]), Value(p[2]));
    }
    assert forall p :: MatchDir(p).Some? <==> InMatchDir(p);
  }

  lemma RecordExactly(h: Hash, files: Files, lines: seq<string>, f: FileMeta)
    ensures EntryOk(h, files, ChecksumMap(lines), f) <==> RecordHolds(h, files, lines, f)
  {
    LastLineWins(lines, Forward(f.path));
  }

  lemma PosixManifest()
    ensures Posix(MANIFEST) == "manifest.json"
  {
  }

  lemma FilesSoundExactly(h: Hash, secret: Content -> bool, files: Files, m: Manifest, lines: seq<string>)
    ensures FilesSound(h, secret, files, m, lines)
       <==> && (forall i, k :: 0 <= i < |m.fixtures| && 0 <= k < FILES_PER_MATCH ==>
                  MatchFileOk(files, m.fixtures[i].leagueId, m.fixtures[i].fixtureId, k))
            && NoOrphans(files, m) && LinesReadable(lines)
            && (forall i :: 0 <= i < |m.files| ==> EntryOk(h, files, ChecksumMap(lines), m.files[i]))
            && (Posix(MANIFEST) in ChecksumMap(lines) ==> ChecksumMap(lines)[Posix(MANIFEST)] == h(ManifestFile(m)))
            && NoSecrets(files, secret)
  {
    OrphansExactly(files, m);
    PosixManifest();
    LastLineWins(lines, "manifest.json");
    forall i | 0 <= i < |m.files|
      ensures EntryOk(h, files, ChecksumMap(lines), m.files[i]) <==> RecordHolds(h, files, lines, m.files[i])
    {
      RecordExactly(h, files, lines, m.files[i]);
    }
    forall i | 0 <= i < |m.fixtures|
      ensures MatchComplete(files, m.fixtures[i].leagueId, m.fixtures[i].fixtureId)
         <==> forall k :: 0 <= k < FILES_PER_MATCH ==> MatchFileOk(files, m.fixtures[i].leagueId, m.fixtures[i].fixtureId, k)
    {
      MatchCompleteExactly(files, m.fixtures[i].leagueId, m.fixtures[i].fixtureId);
    }
  }

  /** The checker accepts exactly the sound corpora. */
  lemma AcceptsExactlyTheSound(h: Hash, secret: Content -> bool, files: Files)
    ensures Accepts(h, secret, files) <==> Sound(h, secret, files)
  {
    if MANIFEST in files && CHECKSUMS in files && files[MANIFEST].ManifestFile? && files[CHECKSUMS].Text? {
      ManifestSoundExactly(files[MANIFEST].manifest);
      FilesSoundExactly(h, secret, files, files[MANIFEST].manifest, files[CHECKSUMS].lines);
    }
  }

  /* ---- damage ---- */

  /** In an accepted corpus a recorded file has its recorded digest, and that of the last line about it. */
  lemma AcceptedDigests(h: Hash, secret: Content -> bool, files: Files, f: FileMeta)
    requires Accepts(h, secret, files) && files[MANIFEST].ManifestFile? && f in files[MANIFEST].manifest.files
    ensures Parts(Forward(f.path)) in files
    ensures f.sha256 != "" ==> h(files[Parts(Forward(f.path))]) == f.sha256
    ensures files[CHECKSUMS].Text?
    ensures var says := LastSays(files[CHECKSUMS].lines, Forward(f.path));
      says.Some? ==> says.value == h(files[Parts(Forward(f.path))])
  {
    AcceptsExactlyTheSound(h, secret, files);
    var m := files[MANIFEST].manifest;
    var i :| 0 <= i < |m.files| && m.files[i] == f;
    assert RecordHolds(h, files, files[CHECKSUMS].lines, m.files[i]);
  }

  /** Replacing a recorded file by content of another digest takes acceptance away. */
  lemma TamperingIsRefused(h: Hash, secret: Content -> bool, files: Files, f: FileMeta, c: Content)
    requires Accepts(h, secret, files) && files[MANIFEST].ManifestFile? && f in files[MANIFEST].manifest.files
    requires f.sha256 != "" && h(c) != f.sha256 && Parts(Forward(f.path)) != MANIFEST
    ensures !Accepts(h, secret, files[Parts(Forward(f.path)) := c])
  {
    var p := Parts(Forward(f.path));
    if Accepts(h, secret, files[p := c]) {
      AcceptedDigests(h, secret, files[p := c], f);
    }
  }

  lemma AcceptedManifestDigest(h: Hash, secret: Content -> bool, files: Files)
    requires Accepts(h, secret, files)
    ensures MANIFEST in files && CHECKSUMS in files && files[CHECKSUMS].Text?
    ensures var says := LastSays(files[CHECKSUMS].lines, "manifest.json");
      says.Some? ==> says.value == h(files[MANIFEST])
  {
    AcceptsExactlyTheSound(h, secret, files);
  }

  /** So does replacing the manifest, when the checksum file has a line for it, by one of another digest. */
  lemma ForgedManifestIsRefused(h: Hash, secret: Content -> bool, files: Files, m: Manifest)
    requires Accepts(h, secret, files) && files[CHECKSUMS].Text?
    requires LastSays(files[CHECKSUMS].lines, "manifest.json").Some? && h(ManifestFile(m)) != h(files[MANIFEST])
    ensures !Accepts(h, secret, files[MANIFEST := ManifestFile(m)])
  {
    AcceptedManifestDigest(h, secret, files);
    LedgersDiffer();
    if Accepts(h, secret, files[MANIFEST := ManifestFile(m)]) {
      AcceptedManifestDigest(h, secret, files[MANIFEST := ManifestFile(m)]);
    }
  }

  lemma LedgersDiffer()
    ensures MANIFEST != CHECKSUMS
  {
    assert |MANIFEST[0]| == 13 && |CHECKSUMS[0]| == 16;
  }

  /** A path the corpus cannot do without: its two ledgers, the files of its matches, and the recorded ones. */
  ghost predicate Required(m: Manifest, p: Path) {
    || p == ["manifest.json"] || p == ["checksums.sha256"]
    || (exists i, k :: 0 <= i < |m.fixtures| && 0 <= k < 4
          && p == ["matches", Decimal(m.fixtures[i].leagueId), Decimal(m.fixtures[i].fixtureId)] + [FileName(k)])
    || (exists i :: 0 <= i < |m.files| && p == Parts(Forward(m.files[i].path)))
  }

  lemma RequiredIsThere(h: Hash, secret: Content -> bool, files: Files, p: Path)
    requires Accepts(h, secret, files) && files[MANIFEST].ManifestFile? && Required(files[MANIFEST].manifest, p)
    ensures p in files
  {
    AcceptsExactlyTheSound(h, secret, files);
    var m := files[MANIFEST].manifest;
    if i, k :| 0 <= i < |m.fixtures| && 0 <= k < 4
               && p == ["matches", Decimal(m.fixtures[i].leagueId), Decimal(m.fixtures[i].fixtureId)] + [FileName(k)] {
      assert MatchComplete(files, m.fixtures[i].leagueId, m.fixtures[i].fixtureId);
      MatchCompleteExactly(files, m.fixtures[i].leagueId, m.fixtures[i].fixtureId);
      FileSoundExactly(files, m.fixtures[i].leagueId, m.fixtures[i].fixtureId, k);
    }
    if i :| 0 <= i < |m.files| && p == Parts(Forward(m.files[i].path)) {
      assert RecordHolds(h, files, files[CHECKSUMS].lines, m.files[i]);
    }
  }

  /** Deleting a required file takes acceptance away. */
  lemma DeletionIsRefused(h: Hash, secret: Content -> bool, files: Files, p: Path)
    requires Accepts(h, secret, files) && files[MANIFEST].ManifestFile? && Required(files[MANIFEST].manifest, p)
    ensures !Accepts(h, secret, files - {p})
  {
    if Accepts(h, secret, files - {p}) {
      RequiredIsThere(h, secret, files - {p}, p);
    }
  }

  /** So does a file in a match directory the manifest does not list. */
  lemma OrphanIsRefused(h: Hash, secret: Content -> bool, files: Files, p: Path, c: Content)
    requires Accepts(h, secret, files) && files[MANIFEST].ManifestFile?
    requires InMatchDir(p) && !Listed(files[MANIFEST].manifest, Value(p[1]), Value(p[2]))
    ensures !Accepts(h, secret, files[p := c])
  {
    assert p != MANIFEST && files[p := c][MANIFEST] == files[MANIFEST];
    AcceptsExactlyTheSound(h, secret, files[p := c]);
    assert p in files[p := c] && InMatchDir(p);
  }

  /** And a JSON file that looks like it holds a secret. */
  lemma SecretIsRefused(h: Hash, secret: Content -> bool, files: Files, p: Path, c: Content)
    requires IsJsonName(p) && secret(c)
    ensures !Accepts(h, secret, files[p := c])
  {
    AcceptsExactlyTheSound(h, secret, files[p := c]);
  }
}
