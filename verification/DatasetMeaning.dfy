/** What the acquiring program writes, file by file and key by key. */
module DatasetMeaning {
  import opened Options
  import opened Sequences
  import opened DatasetText
  import opened DatasetModel
  import opened DatasetProofs
  import opened DatasetDamage

  /* ---- the four files of a match ---- */

  /** A stored answer: six keys, one page, and as many results as the response has items. */
  predicate Stored(c: Content, endpoint: string, key: string, value: string, response: seq<Json>) {
    && c.JsonFile? && c.json.JObj?
    && c.json.fields.Keys == {"get", "parameters", "errors", "results", "paging", "response"}
    && c.json.fields["get"] == JStr(endpoint)
    && c.json.fields["parameters"] == JObj(map[key := JStr(value)])
    && c.json.fields["errors"] == JArr([])
    && c.json.fields["results"] == JNum(|response|)
    && c.json.fields["paging"] == JObj(map["current" := JNum(1), "total" := JNum(1)])
    && c.json.fields["response"] == JArr(response)
  }

  lemma EnvelopeStores(endpoint: string, key: string, value: string, response: seq<Json>)
    ensures Stored(JsonFile(Envelope(endpoint, map[key := value], response)), StripSlashes(endpoint), key, value, response)
  {
    var fields := Envelope(endpoint, map[key := value], response).fields;
    assert fields["parameters"] == JObj(map[key := JStr(value)]);
    assert fields.Keys == {"get", "parameters", "errors", "results", "paging", "response"};
  }

  lemma SlashDropped(s: string)
    requires s != "" && s[0] != '/'
    ensures StripSlashes("/" + s) == s
  {
    assert ("/" + s)[1..] == s;
  }

  /** Fixture, league, teams, goals and score of the item, and nothing else. */
  predicate FixturePart(j: Json, item: Item) {
    && j.JObj? && j.fields.Keys == {"fixture", "league", "teams", "goals", "score"}
    && j.fields["fixture"] == item.fixture && j.fields["league"] == item.league && j.fields["teams"] == item.teams
    && j.fields["goals"] == item.goals && j.fields["score"] == item.score
  }

  lemma FixtureOnlyIsPart(item: Item)
    ensures FixturePart(FixtureOnly(item), item)
  {
  }

  lemma FixturesContent(item: Item)
    ensures Stored(MatchContent(item, 0), "fixtures", "id", Decimal(item.fixtureId), [FixtureOnly(item)])
  {
    SlashDropped("fixtures");
    assert "/fixtures" == "/" + "fixtures";
    EnvelopeStores("/fixtures", "id", Decimal(item.fixtureId), [FixtureOnly(item)]);
  }

  lemma EventsContent(item: Item)
    ensures Stored(MatchContent(item, 1), "fixtures/events", "fixture", Decimal(item.fixtureId), item.events)
  {
    SlashDropped("fixtures/events");
    assert "/fixtures/events" == "/" + "fixtures/events";
    EnvelopeStores("/fixtures/events", "fixture", Decimal(item.fixtureId), item.events);
  }

  lemma LineupsContent(item: Item)
    ensures Stored(MatchContent(item, 2), "fixtures/lineups", "fixture", Decimal(item.fixtureId), item.lineups)
  {
    SlashDropped("fixtures/lineups");
    assert "/fixtures/lineups" == "/" + "fixtures/lineups";
    EnvelopeStores("/fixtures/lineups", "fixture", Decimal(item.fixtureId), item.lineups);
  }

  lemma PlayersContent(item: Item)
    ensures Stored(MatchContent(item, 3), "fixtures/players", "fixture", Decimal(item.fixtureId), item.players)
  {
    SlashDropped("fixtures/players");
    assert "/fixtures/players" == "/" + "fixtures/players";
    EnvelopeStores("/fixtures/players", "fixture", Decimal(item.fixtureId), item.players);
  }

  /** The content of a match's file of this name. */
  function FileOf(files: Files, league: nat, item: Item, name: string): Option<Content> {
    var p := ["matches", Decimal(league), Decimal(item.fixtureId), name];
    if p in files then Some(files[p]) else None
  }

  lemma FileAtEnd(h: Hash, files: Files, input: Input, i: nat, k: nat)
    requires DistinctMatches(Matches(input)) && i < |Matches(input)| && k < FILES_PER_MATCH
    ensures var (league, item) := Matches(input)[i];
      FileOf(Acquired(h, files, input), league, item, MATCH_ENDPOINTS[k].1) == Some(MatchContent(item, k))
  {
    MatchFileAtEnd(h, files, input, i, k);
  }

  /** At the end each match has its fixture part, events, lineups and players in the files of those names. */
  lemma MatchFilesHold(h: Hash, files: Files, input: Input, i: nat)
    requires DistinctMatches(Matches(input)) && i < |Matches(input)|
    ensures var (league, item) := Matches(input)[i];
      var final, id := Acquired(h, files, input), Decimal(item.fixtureId);
      var fixtures, events := FileOf(final, league, item, "fixtures.json"), FileOf(final, league, item, "fixtures_events.json");
      var lineups, players :=
        FileOf(final, league, item, "fixtures_lineups.json"), FileOf(final, league, item, "fixtures_players.json");
      && (exists part :: FixturePart(part, item) && fixtures.Some? && Stored(fixtures.value, "fixtures", "id", id, [part]))
      && events.Some? && Stored(events.value, "fixtures/events", "fixture", id, item.events)
      && lineups.Some? && Stored(lineups.value, "fixtures/lineups", "fixture", id, item.lineups)
      && players.Some? && Stored(players.value, "fixtures/players", "fixture", id, item.players)
  {
    var item := Matches(input)[i].1;
    FileAtEnd(h, files, input, i, 0);
    FileAtEnd(h, files, input, i, 1);
    FileAtEnd(h, files, input, i, 2);
    FileAtEnd(h, files, input, i, 3);
    FixtureOnlyIsPart(item);
    FixturesContent(item);
    EventsContent(item);
    LineupsContent(item);
    PlayersContent(item);
  }

  /* ---- the references ---- */

  /** The leagues file, when refreshed, holds the leagues given. */
  lemma LeaguesFileHolds(h: Hash, files: Files, input: Input)
    requires input.leagues.Some?
    ensures ["reference", "leagues.json"] in Acquired(h, files, input)
    ensures Stored(
      Acquired(h, files, input)[["reference", "leagues.json"]], "leagues", "current", "true", input.leagues.value)
  {
    LeaguesFileAtEnd(h, files, input);
    SlashDropped("leagues");
    assert "/leagues" == "/" + "leagues";
    EnvelopeStores("/leagues", "current", "true", input.leagues.value);
  }

  /** The teams file holds an entry for each team, in order. */
  lemma TeamsFileHolds(h: Hash, files: Files, input: Input)
    ensures ["reference", "teams.json"] in Acquired(h, files, input)
    ensures exists entries ::
      && Stored(Acquired(h, files, input)[["reference", "teams.json"]], "teams", "ids", "selected", entries)
      && |entries| == |TeamsOf(input.fetched)|
      && forall i :: 0 <= i < |entries| ==> EntryOf(entries[i], TeamsOf(input.fetched)[i])
  {
    var teams := TeamsOf(input.fetched);
    var entries := MapSeq((t: Team) => TeamEntry(t), teams);
    FixedFilesAtEnd(h, files, input);
    SlashDropped("teams");
    assert "/teams" == "/" + "teams";
    EnvelopeStores("/teams", "ids", "selected", entries);
    forall i | 0 <= i < |entries| ensures EntryOf(entries[i], teams[i]) {
      TeamEntryIs(teams[i]);
    }
  }

  /** A team's entry: its number, name and code, and for everything else nothing. */
  predicate EntryOf(j: Json, t: Team) {
    && j.JObj? && j.fields.Keys == {"team", "venue"} && j.fields["team"].JObj? && j.fields["venue"].JObj?
    && j.fields["team"].fields.Keys == {"id", "name", "code", "country", "founded", "national", "logo"}
    && j.fields["team"].fields["id"] == JNum(t.id) && j.fields["team"].fields["name"] == t.name
    && j.fields["team"].fields["code"] == t.code && j.fields["team"].fields["national"] == JBool(false)
    && j.fields["team"].fields["country"] == JNull && j.fields["team"].fields["founded"] == JNull
    && j.fields["team"].fields["logo"] == JNull
    && j.fields["venue"].fields.Keys == {"id", "name", "address", "city", "capacity", "surface", "image"}
    && forall k :: k in j.fields["venue"].fields ==> j.fields["venue"].fields[k] == JNull
  }

  lemma TeamEntryIs(t: Team)
    ensures EntryOf(TeamEntry(t), t)
  {
  }

  /* ---- each team once, in order of first sight, as last seen ---- */

  /** The teams as they come: home before away, match after match. */
  function Sightings(items: seq<Item>): seq<Team> {
    if items == [] then []
    else
      var last := items[|items| - 1];
      Sightings(items[..|items| - 1])
      + (if last.home.Some? then [last.home.value] else []) + (if last.away.Some? then [last.away.value] else [])
  }

  function LastSeen(seen: seq<Team>, id: nat): Option<Team> {
    if seen == [] then None
    else if seen[|seen| - 1].id == id then Some(seen[|seen| - 1])
    else LastSeen(seen[..|seen| - 1], id)
  }

  function FirstSeen(seen: seq<Team>): seq<nat> {
    if seen == [] then []
    else
      var ids, id := FirstSeen(seen[..|seen| - 1]), seen[|seen| - 1].id;
      if id in ids then ids else ids + [id]
  }

  /** The list a corpus of sightings calls for. */
  ghost predicate TeamsAsSeen(teams: seq<Team>, seen: seq<Team>) {
    && |teams| == |FirstSeen(seen)|
    && forall i :: 0 <= i < |teams| ==> teams[i].id == FirstSeen(seen)[i] && LastSeen(seen, teams[i].id) == Some(teams[i])
  }

  lemma {:induction false} FirstSeenOnce(seen: seq<Team>)
    ensures forall i, j :: 0 <= i < j < |FirstSeen(seen)| ==> FirstSeen(seen)[i] != FirstSeen(seen)[j]
  {
    if seen != [] {
      FirstSeenOnce(seen[..|seen| - 1]);
    }
  }

  lemma SeenOne(seen: seq<Team>, t: Team)
    ensures FirstSeen(seen + [t]) == if t.id in FirstSeen(seen) then FirstSeen(seen) else FirstSeen(seen) + [t.id]
    ensures forall id :: LastSeen(seen + [t], id) == if t.id == id then Some(t) else LastSeen(seen, id)
  {
    assert (seen + [t])[..|seen|] == seen;
  }

  lemma OneMoreTeam(teams: seq<Team>, seen: seq<Team>, t: Team)
    requires TeamsAsSeen(teams, seen)
    ensures TeamsAsSeen(WithTeam(teams, Some(t)), seen + [t])
  {
    var ids := FirstSeen(seen);
    FirstSeenOnce(seen);
    SeenOne(seen, t);
    if t.id in ids {
      var i :| 0 <= i < |ids| && ids[i] == t.id;
      assert teams[i].id == t.id && forall j :: 0 <= j < |teams| && j != i ==> teams[j].id != t.id;
      assert WithTeam(teams, Some(t)) == teams[i := t];
    } else {
      assert forall j :: 0 <= j < |teams| ==> teams[j].id != t.id by {
        assert forall j :: 0 <= j < |teams| ==> teams[j].id in ids;
      }
      assert WithTeam(teams, Some(t)) == teams + [t];
    }
  }

  /** The teams reference lists each team seen once, in order of first sight, as it was last seen. */
  lemma {:induction false} TeamsListed(items: seq<Item>)
    ensures TeamsAsSeen(TeamsOf(items), Sightings(items))
  {
    if items != [] {
      var before, last := items[..|items| - 1], items[|items| - 1];
      var seen, teams := Sightings(before), TeamsOf(before);
      TeamsListed(before);
      if last.home.Some? {
        OneMoreTeam(teams, seen, last.home.value);
      }
      var seen' := seen + (if last.home.Some? then [last.home.value] else []);
      if last.home.None? {
        assert seen' == seen;
      }
      if last.away.Some? {
        OneMoreTeam(WithTeam(teams, last.home), seen', last.away.value);
      } else {
        assert Sightings(items) == seen';
      }
    }
  }

  /* ---- the manifest ---- */

  lemma TagsMean(matches: seq<(nat, Item)>, tag: string)
    ensures tag in TagsOf(matches) <==> exists i :: 0 <= i < |matches| && tag in matches[i].1.tags
  {
    if tag in TagsOf(matches) {
      var x :| x in matches && tag in x.1.tags;
      var i :| 0 <= i < |matches| && matches[i] == x;
    }
    if i :| 0 <= i < |matches| && tag in matches[i].1.tags {
      assert matches[i] in matches;
    }
  }

  /**
   * The manifest lists the matches by league and fixture, splits the nine rare cases by whether a match shows them,
   * and carries every record.
   */
  lemma ManifestSays(h: Hash, files: Files, input: Input)
    requires DistinctMatches(Matches(input))
    ensures ["manifest.json"] in Acquired(h, files, input) && Acquired(h, files, input)[["manifest.json"]].ManifestFile?
    ensures var m := Acquired(h, files, input)[["manifest.json"]].manifest;
      && (forall i, j :: 0 <= i < j < |m.fixtures| ==>
            m.fixtures[i].leagueId < m.fixtures[j].leagueId
            || (m.fixtures[i].leagueId == m.fixtures[j].leagueId && m.fixtures[i].fixtureId < m.fixtures[j].fixtureId))
      && (forall tag :: tag in m.rareFound <==> exists i :: 0 <= i < |Matches(input)| && tag in Matches(input)[i].1.tags)
      && (forall tag :: tag in m.rareNotFound
            <==> tag !in m.rareFound && exists i :: 0 <= i < |NINE_CASES| && NINE_CASES[i] == tag)
      && m.files == Gathered(h, files, input).meta
  {
    var matches, w := Matches(input), Gathered(h, files, input);
    ManifestAndChecksums(h, files, input);
    FixturesSorted(matches);
    NineCases();
    forall tag
      ensures tag in TagsOf(matches) <==> exists i :: 0 <= i < |matches| && tag in matches[i].1.tags
    {
      TagsMean(matches, tag);
    }
  }

  lemma FixturesSorted(matches: seq<(nat, Item)>)
    requires DistinctMatches(matches)
    ensures SortedBy(
      SortBy(MapSeq((m: (nat, Item)) => MatchMetaOf(m), matches), ByLeagueThenFixture()), ByLeagueThenFixture())
  {
    var metas := MapSeq((m: (nat, Item)) => MatchMetaOf(m), matches);
    forall i, j | 0 <= i < j < |metas|
      ensures ByLeagueThenFixture()(metas[i], metas[j]) || ByLeagueThenFixture()(metas[j], metas[i])
    {
      assert metas[i].leagueId == matches[i].0 && metas[i].fixtureId == matches[i].1.fixtureId;
      assert metas[j].leagueId == matches[j].0 && metas[j].fixtureId == matches[j].1.fixtureId;
    }
    SortSorts(metas, ByLeagueThenFixture());
  }

  /** A match's line in the manifest: its league, number, cases and the paths of its four files. */
  lemma FixtureLineSays(m: (nat, Item))
    ensures var line, dir := MatchMetaOf(m), ["matches", Decimal(m.0), Decimal(m.1.fixtureId)];
      && line.leagueId == m.0 && line.fixtureId == m.1.fixtureId && line.tags == m.1.tags
      && line.files == [Posix(dir + ["fixtures.json"]), Posix(dir + ["fixtures_events.json"]),
                        Posix(dir + ["fixtures_lineups.json"]), Posix(dir + ["fixtures_players.json"])]
  {
    var dir := ["matches", Decimal(m.0), Decimal(m.1.fixtureId)];
    forall k: nat | k < FILES_PER_MATCH ensures MatchFile(m.0, m.1.fixtureId, k) == dir + [FileName(k)] {
      EndpointIs(k);
    }
  }

  /* ---- nothing goes unrecorded ---- */

  predicate RecordedAs(meta: seq<FileMeta>, path: string, endpoint: string, fixture: Option<nat>) {
    exists i :: 0 <= i < |meta| && meta[i].path == path && meta[i].endpoint == endpoint && meta[i].fixtureId == fixture
  }

  lemma RecordStays(meta: seq<FileMeta>, more: seq<FileMeta>, path: string, endpoint: string, fixture: Option<nat>)
    requires RecordedAs(meta, path, endpoint, fixture) && meta <= more
    ensures RecordedAs(more, path, endpoint, fixture)
  {
    var i :| 0 <= i < |meta| && meta[i].path == path && meta[i].endpoint == endpoint && meta[i].fixtureId == fixture;
    assert more[i] == meta[i];
  }

  lemma FileRecorded(h: Hash, w: Work, league: nat, item: Item, k: nat)
    requires k < FILES_PER_MATCH
    ensures w.meta <= FileWritten(h, w, league, item, k).meta
    ensures RecordedAs(
      FileWritten(h, w, league, item, k).meta, Posix(MatchFile(league, item.fixtureId, k)), MATCH_ENDPOINTS[k].0,
      Some(item.fixtureId))
  {
    assert FileWritten(h, w, league, item, k).meta[|w.meta|].path == Posix(MatchFile(league, item.fixtureId, k));
  }

  lemma {:induction false} MatchRecorded(h: Hash, w: Work, league: nat, item: Item, n: nat, k: nat)
    requires k < n <= FILES_PER_MATCH
    ensures RecordedAs(
      MatchWritten(h, w, league, item, n).meta, Posix(MatchFile(league, item.fixtureId, k)), MATCH_ENDPOINTS[k].0,
      Some(item.fixtureId))
  {
    var before := MatchWritten(h, w, league, item, n - 1);
    FileRecorded(h, before, league, item, n - 1);
    if k < n - 1 {
      MatchRecorded(h, w, league, item, n - 1, k);
      RecordStays(
        before.meta, FileWritten(h, before, league, item, n - 1).meta, Posix(MatchFile(league, item.fixtureId, k)),
        MATCH_ENDPOINTS[k].0, Some(item.fixtureId));
    }
  }

  lemma {:induction false} OnlyAdds(h: Hash, w: Work, league: nat, item: Item, n: nat)
    requires n <= FILES_PER_MATCH
    ensures w.meta <= MatchWritten(h, w, league, item, n).meta
  {
    if n > 0 {
      OnlyAdds(h, w, league, item, n - 1);
    }
  }

  lemma {:induction false} MatchesRecorded(h: Hash, w: Work, matches: seq<(nat, Item)>, i: nat, k: nat)
    requires i < |matches| && k < FILES_PER_MATCH
    ensures RecordedAs(
      MatchesWritten(h, w, matches).meta, Posix(MatchFile(matches[i].0, matches[i].1.fixtureId, k)),
      MATCH_ENDPOINTS[k].0, Some(matches[i].1.fixtureId))
  {
    var n := |matches| - 1;
    var before := MatchesWritten(h, w, matches[..n]);
    if i == n {
      MatchRecorded(h, before, matches[n].0, matches[n].1, FILES_PER_MATCH, k);
    } else {
      OnlyAdds(h, before, matches[n].0, matches[n].1, FILES_PER_MATCH);
      MatchesRecorded(h, w, matches[..n], i, k);
      RecordStays(
        before.meta, MatchesWritten(h, w, matches).meta, Posix(MatchFile(matches[i].0, matches[i].1.fixtureId, k)),
        MATCH_ENDPOINTS[k].0, Some(matches[i].1.fixtureId));
    }
  }

  lemma {:induction false} MatchesOnlyAdd(h: Hash, w: Work, matches: seq<(nat, Item)>)
    ensures w.meta <= MatchesWritten(h, w, matches).meta
  {
    if matches != [] {
      var n := |matches| - 1;
      MatchesOnlyAdd(h, w, matches[..n]);
      OnlyAdds(h, MatchesWritten(h, w, matches[..n]), matches[n].0, matches[n].1, FILES_PER_MATCH);
    }
  }

  lemma TeamsKeepRecords(
    h: Hash, w: Work, items: seq<Item>, path: string, endpoint: string, fixture: Option<nat>)
    requires RecordedAs(w.meta, path, endpoint, fixture) && path != Posix(TEAMS_FILE)
    ensures RecordedAs(TeamsWritten(h, w, items).meta, path, endpoint, fixture)
  {
    var i :| 0 <= i < |w.meta| && w.meta[i].path == path && w.meta[i].endpoint == endpoint && w.meta[i].fixtureId == fixture;
    var kept := Keep(NotPath(Posix(TEAMS_FILE)), w.meta);
    KeepIn(NotPath(Posix(TEAMS_FILE)), w.meta);
    assert w.meta[i] in w.meta && w.meta[i] in kept;
    var j :| 0 <= j < |kept| && kept[j] == w.meta[i];
    assert TeamsWritten(h, w, items).meta[j] == kept[j];
  }

  lemma NotTheTeams(p: Path)
    requires PlainPath(p) && p != TEAMS_FILE
    ensures Posix(p) != Posix(TEAMS_FILE)
  {
    FixedPaths();
    PosixReadsBack(p);
    PosixReadsBack(TEAMS_FILE);
  }

  /** Every file a run writes before its ledgers has its record, with its endpoint and fixture. */
  lemma EveryFileIsRecorded(h: Hash, files: Files, input: Input)
    ensures var meta := Gathered(h, files, input).meta;
      && RecordedAs(meta, Posix(["reference", "teams.json"]), "/teams", None)
      && (input.leagues.Some? ==> RecordedAs(meta, Posix(["reference", "leagues.json"]), "/leagues", None))
      && forall i, k :: 0 <= i < |Matches(input)| && 0 <= k < FILES_PER_MATCH ==>
           RecordedAs(
             meta, Posix(MatchFile(Matches(input)[i].0, Matches(input)[i].1.fixtureId, k)), "/" + Endpoint(k),
             Some(Matches(input)[i].1.fixtureId))
  {
    var start, matches := ReferenceWritten(h, Work(files, []), input.leagues), Matches(input);
    var middle := MatchesWritten(h, start, matches);
    var meta := Gathered(h, files, input).meta;
    assert meta[|meta| - 1].path == Posix(TEAMS_FILE);
    if input.leagues.Some? {
      LeaguesRecorded(h, files, input);
    }
    forall i, k | 0 <= i < |matches| && 0 <= k < FILES_PER_MATCH
      ensures RecordedAs(
        meta, Posix(MatchFile(matches[i].0, matches[i].1.fixtureId, k)), "/" + Endpoint(k), Some(matches[i].1.fixtureId))
    {
      MatchesRecorded(h, start, matches, i, k);
      MatchFileFacts(matches[i].0, matches[i].1.fixtureId, k);
      FixedPaths();
      NotTheTeams(MatchFile(matches[i].0, matches[i].1.fixtureId, k));
      EndpointSlashed(k);
      TeamsKeepRecords(
        h, middle, input.fetched, Posix(MatchFile(matches[i].0, matches[i].1.fixtureId, k)), MATCH_ENDPOINTS[k].0,
        Some(matches[i].1.fixtureId));
    }
  }

  lemma EndpointSlashed(k: nat)
    requires k < FILES_PER_MATCH
    ensures MATCH_ENDPOINTS[k].0 == "/" + Endpoint(k)
  {
    assert "/fixtures" == "/" + "fixtures" && "/fixtures/events" == "/" + "fixtures/events";
    assert "/fixtures/lineups" == "/" + "fixtures/lineups" && "/fixtures/players" == "/" + "fixtures/players";
  }

  lemma LeaguesRecorded(h: Hash, files: Files, input: Input)
    requires input.leagues.Some?
    ensures RecordedAs(Gathered(h, files, input).meta, Posix(LEAGUES_FILE), "/leagues", None)
  {
    var start := ReferenceWritten(h, Work(files, []), input.leagues);
    var middle := MatchesWritten(h, start, Matches(input));
    assert start.meta[0].path == Posix(LEAGUES_FILE);
    MatchesOnlyAdd(h, start, Matches(input));
    RecordStays(start.meta, middle.meta, Posix(LEAGUES_FILE), "/leagues", None);
    FixedPaths();
    NotTheTeams(LEAGUES_FILE);
    TeamsKeepRecords(h, middle, input.fetched, Posix(LEAGUES_FILE), "/leagues", None);
  }

  lemma LinesListed(h: Hash, files: Files, input: Input)
    ensures var sorted, final := SortBy(Gathered(h, files, input).meta, ByPath()), Acquired(h, files, input);
      && ["checksums.sha256"] in final && final[["checksums.sha256"]].Text? && ["manifest.json"] in final
      && |final[["checksums.sha256"]].lines| == |sorted| + 1
      && (forall i :: 0 <= i < |sorted| ==> final[["checksums.sha256"]].lines[i] == sorted[i].sha256 + "  " + sorted[i].path)
      && final[["checksums.sha256"]].lines[|sorted|] == h(final[["manifest.json"]]) + "  " + "manifest.json"
  {
    FinalLines(h, files, input);
    ManifestAndChecksums(h, files, input);
    PosixManifest();
  }

  /** Every record has its checksum line, and so has the manifest. */
  lemma EveryRecordHasALine(h: Hash, files: Files, input: Input, f: FileMeta)
    requires f in Gathered(h, files, input).meta
    ensures var final := Acquired(h, files, input);
      && ["checksums.sha256"] in final && final[["checksums.sha256"]].Text?
      && f.sha256 + "  " + f.path in final[["checksums.sha256"]].lines
      && ["manifest.json"] in final
      && h(final[["manifest.json"]]) + "  " + "manifest.json" in final[["checksums.sha256"]].lines
  {
    var meta := Gathered(h, files, input).meta;
    var sorted := SortBy(meta, ByPath());
    SortPermutation(meta, ByPath());
    SameItems(sorted, meta);
    var i :| 0 <= i < |sorted| && sorted[i] == f;
    LinesListed(h, files, input);
  }

  /* ---- the order of the checksum lines ---- */

  lemma {:induction false} TextOrder(a: string, b: string)
    ensures !TextLess(a, a)
    ensures a != b ==> TextLess(a, b) || TextLess(b, a)
  {
    if a != "" {
      TextOrder(a[1..], a[1..]);
      if b != "" && a != b && a[0] == b[0] {
        assert a == [a[0]] + a[1..] && b == [b[0]] + b[1..];
        TextOrder(a[1..], b[1..]);
      }
    }
  }

  lemma {:induction false} TextOrderCarries(a: string, b: string, c: string)
    requires TextLess(a, b) && TextLess(b, c)
    ensures TextLess(a, c)
  {
    if a != "" && a[0] == b[0] && b[0] == c[0] {
      TextOrderCarries(a[1..], b[1..], c[1..]);
    }
  }

  ghost predicate PathsDiffer(meta: seq<FileMeta>) {
    forall i, j :: 0 <= i < j < |meta| ==> meta[i].path != meta[j].path
  }

  /** While a match is written the records are true, ours and of different paths. */
  ghost predicate Neat(h: Hash, w: Work, keys: set<(nat, nat)>, league: nat, fixture: nat, n: nat) {
    Tracked(h, w, keys, league, fixture, n) && PathsDiffer(w.meta)
  }

  lemma NextStaysNeat(h: Hash, w: Work, league: nat, item: Item, n: nat, keys: set<(nat, nat)>)
    requires n < FILES_PER_MATCH && (league, item.fixtureId) !in keys && Neat(h, w, keys, league, item.fixtureId, n)
    ensures Neat(h, FileWritten(h, w, league, item, n), keys, league, item.fixtureId, n + 1)
  {
    NextFileRecorded(h, w, league, item, n, keys);
    NextFileIsNew(w.meta, keys, league, item.fixtureId, n);
    MatchFileFacts(league, item.fixtureId, n);
    PosixReadsBack(MatchFile(league, item.fixtureId, n));
  }

  lemma {:induction false} MatchStaysNeat(h: Hash, w: Work, league: nat, item: Item, n: nat, keys: set<(nat, nat)>)
    requires n <= FILES_PER_MATCH && (league, item.fixtureId) !in keys && Neat(h, w, keys, league, item.fixtureId, 0)
    ensures Neat(h, MatchWritten(h, w, league, item, n), keys, league, item.fixtureId, n)
  {
    if n > 0 {
      var before := MatchWritten(h, w, league, item, n - 1);
      MatchStaysNeat(h, w, league, item, n - 1, keys);
      NextStaysNeat(h, before, league, item, n - 1, keys);
      assert MatchWritten(h, w, league, item, n) == FileWritten(h, before, league, item, n - 1);
    }
  }

  lemma {:induction false} MatchesPathsDiffer(h: Hash, w: Work, matches: seq<(nat, Item)>)
    requires DistinctMatches(matches) && RecordsOk(h, w) && RecordsOurs(w.meta, {}) && PathsDiffer(w.meta)
    ensures PathsDiffer(MatchesWritten(h, w, matches).meta)
  {
    if matches != [] {
      var t, last := matches[..|matches| - 1], matches[|matches| - 1];
      MatchesPathsDiffer(h, w, t);
      MatchesWrittenRecords(h, w, t);
      LastKeyIsNew(matches);
      DuringStarts(h, MatchesWritten(h, w, t), KeysOf(t), last.0, last.1.fixtureId);
      MatchStaysNeat(h, MatchesWritten(h, w, t), last.0, last.1, FILES_PER_MATCH, KeysOf(t));
    }
  }

  lemma {:induction false} KeptPathsDiffer(meta: seq<FileMeta>, path: string)
    requires PathsDiffer(meta)
    ensures PathsDiffer(Keep(NotPath(path), meta)) && forall f :: f in Keep(NotPath(path), meta) ==> f.path != path
  {
    KeepIn(NotPath(path), meta);
    if meta != [] {
      var t, last := meta[..|meta| - 1], meta[|meta| - 1];
      KeptPathsDiffer(t, path);
      KeepIn(NotPath(path), t);
      forall i | 0 <= i < |Keep(NotPath(path), t)| ensures Keep(NotPath(path), t)[i].path != last.path {
        assert Keep(NotPath(path), t)[i] in Keep(NotPath(path), t);
      }
    }
  }

  /** No file is recorded twice. */
  lemma RecordedOnce(h: Hash, files: Files, input: Input)
    requires DistinctMatches(Matches(input))
    ensures PathsDiffer(Gathered(h, files, input).meta)
  {
    var start := ReferenceWritten(h, Work(files, []), input.leagues);
    ReferenceRecords(h, files, input.leagues);
    assert PathsDiffer(start.meta) by {
      assert |start.meta| <= 1;
    }
    MatchesPathsDiffer(h, start, Matches(input));
    var meta := MatchesWritten(h, start, Matches(input)).meta;
    KeptPathsDiffer(meta, Posix(TEAMS_FILE));
    var kept := Keep(NotPath(Posix(TEAMS_FILE)), meta);
    forall i | 0 <= i < |kept| ensures kept[i].path != Posix(TEAMS_FILE) {
      assert kept[i] in kept;
    }
  }

  lemma ByPathSorts(meta: seq<FileMeta>)
    requires forall i, j :: 0 <= i < j < |meta| ==> meta[i].path != meta[j].path
    ensures forall i, j :: 0 <= i < j < |SortBy(meta, ByPath())| ==>
              TextLess(SortBy(meta, ByPath())[i].path, SortBy(meta, ByPath())[j].path)
  {
    forall a: FileMeta ensures !ByPath()(a, a) {
      TextOrder(a.path, a.path);
    }
    forall a: FileMeta, b: FileMeta, c: FileMeta | ByPath()(a, b) && ByPath()(b, c) ensures ByPath()(a, c) {
      TextOrderCarries(a.path, b.path, c.path);
    }
    forall i, j | 0 <= i < j < |meta| ensures ByPath()(meta[i], meta[j]) || ByPath()(meta[j], meta[i]) {
      TextOrder(meta[i].path, meta[j].path);
    }
    SortSorts(meta, ByPath());
    var sorted := SortBy(meta, ByPath());
    forall i, j | 0 <= i < j < |sorted| ensures TextLess(sorted[i].path, sorted[j].path) {
      assert ByPath()(sorted[i], sorted[j]);
    }
  }

  /** The checksum file has one line for each record, in the order of their paths, and the manifest's at the end. */
  lemma LinesInOrder(h: Hash, files: Files, input: Input) returns (sorted: seq<FileMeta>)
    requires DistinctMatches(Matches(input))
    ensures multiset(sorted) == multiset(Gathered(h, files, input).meta)
    ensures forall i, j :: 0 <= i < j < |sorted| ==> TextLess(sorted[i].path, sorted[j].path)
    ensures var final := Acquired(h, files, input);
      && ["checksums.sha256"] in final && final[["checksums.sha256"]].Text?
      && ["manifest.json"] in final && |final[["checksums.sha256"]].lines| == |sorted| + 1
      && (forall i :: 0 <= i < |sorted| ==> final[["checksums.sha256"]].lines[i] == sorted[i].sha256 + "  " + sorted[i].path)
      && final[["checksums.sha256"]].lines[|sorted|] == h(final[["manifest.json"]]) + "  " + "manifest.json"
  {
    var meta := Gathered(h, files, input).meta;
    sorted := SortBy(meta, ByPath());
    RecordedOnce(h, files, input);
    SortPermutation(meta, ByPath());
    ByPathSorts(meta);
    LinesListed(h, files, input);
  }
}
