/** What the acquiring program leaves in its directory, and when the checker accepts it. */
module DatasetProofs {
  import opened Options
  import opened Sequences
  import opened DatasetText
  import opened DatasetModel

  /* ---- paths ---- */

  lemma {:induction false} DecimalIsPlain(n: nat)
    ensures Plain(Decimal(n)) && AllDigits(Decimal(n)) && Value(Decimal(n)) == n
  {
    DecimalReadsBack(n);
    var s := Decimal(n);
    forall i | 0 <= i < |s| ensures !IsSpace(s[i]) && s[i] != '/' && s[i] != '\\' {
      assert IsDigit(s[i]);
    }
  }

  lemma EndpointNames(k: nat)
    requires k < FILES_PER_MATCH
    ensures Plain(MATCH_ENDPOINTS[k].1)
    ensures IsJsonName([MATCH_ENDPOINTS[k].1])
    ensures forall j :: 0 <= j < FILES_PER_MATCH && j != k ==> MATCH_ENDPOINTS[j].1 != MATCH_ENDPOINTS[k].1
  {
    assert |MATCH_ENDPOINTS[0].1| == 13 && |MATCH_ENDPOINTS[1].1| == 20;
    assert |MATCH_ENDPOINTS[2].1| == 21 && |MATCH_ENDPOINTS[3].1| == 21;
    assert MATCH_ENDPOINTS[2].1[9] == 'l' && MATCH_ENDPOINTS[3].1[9] == 'p';
  }

  lemma MatchFileFacts(league: nat, fixture: nat, k: nat)
    requires k < FILES_PER_MATCH
    ensures PlainPath(MatchFile(league, fixture, k))
    ensures MatchDir(MatchFile(league, fixture, k)) == Some((league, fixture))
  {
    DecimalIsPlain(league);
    DecimalIsPlain(fixture);
    EndpointNames(k);
    assert Plain("matches");
  }

  lemma MatchFileDistinct(league: nat, fixture: nat, j: nat, k: nat)
    requires j < FILES_PER_MATCH && k < FILES_PER_MATCH && j != k
    ensures MatchFile(league, fixture, j) != MatchFile(league, fixture, k)
  {
  }

  lemma FixedPaths()
    ensures PlainPath(LEAGUES_FILE) && PlainPath(TEAMS_FILE) && PlainPath(MANIFEST) && PlainPath(CHECKSUMS)
    ensures LEAGUES_FILE != TEAMS_FILE && MANIFEST != CHECKSUMS
    ensures MatchDir(LEAGUES_FILE).None? && MatchDir(TEAMS_FILE).None?
    ensures MatchDir(MANIFEST).None? && MatchDir(CHECKSUMS).None?
  {
    assert Plain("reference") && Plain("leagues.json") && Plain("teams.json");
    assert Plain("manifest.json") && Plain("checksums.sha256");
    assert |LEAGUES_FILE[1]| == 12 && |TEAMS_FILE[1]| == 10;
    assert |MANIFEST[0]| == 13 && |CHECKSUMS[0]| == 16;
  }

  /* ---- the record of what was written ---- */

  /** A record names a file by its path and holds the digest of what is there. */
  ghost predicate RecordOk(h: Hash, files: Files, f: FileMeta) {
    var p := Parts(f.path);
    PlainPath(p) && Posix(p) == f.path && p in files && h(files[p]) == f.sha256
  }

  ghost predicate RecordsOk(h: Hash, w: Work) {
    forall i :: 0 <= i < |w.meta| ==> RecordOk(h, w.files, w.meta[i])
  }

  /** Where a run writes before the manifest: the references and the directories of its matches. */
  ghost predicate Ours(p: Path, keys: set<(nat, nat)>) {
    p == LEAGUES_FILE || p == TEAMS_FILE || (MatchDir(p).Some? && MatchDir(p).value in keys)
  }

  ghost predicate RecordsOurs(meta: seq<FileMeta>, keys: set<(nat, nat)>) {
    forall i :: 0 <= i < |meta| ==> Ours(Parts(meta[i].path), keys)
  }

  lemma WrittenKeepsRecords(h: Hash, w: Work, path: Path, content: Content, endpoint: string, id: Option<nat>)
    requires RecordsOk(h, w) && PlainPath(path)
    requires forall i :: 0 <= i < |w.meta| ==> Parts(w.meta[i].path) != path
    ensures RecordsOk(h, Written(h, w, path, content, endpoint, id))
  {
    PosixReadsBack(path);
  }

  /* ---- one match ---- */

  /** The records that can exist while match `(league, fixture)` has `n` of its files. */
  ghost predicate RecordsDuring(meta: seq<FileMeta>, keys: set<(nat, nat)>, league: nat, fixture: nat, n: nat) {
    forall i :: 0 <= i < |meta| ==>
      Ours(Parts(meta[i].path), keys)
      || exists k :: 0 <= k < n && k < FILES_PER_MATCH && Parts(meta[i].path) == MatchFile(league, fixture, k)
  }

  lemma NextFileIsNew(meta: seq<FileMeta>, keys: set<(nat, nat)>, league: nat, fixture: nat, n: nat)
    requires n < FILES_PER_MATCH && RecordsDuring(meta, keys, league, fixture, n) && (league, fixture) !in keys
    ensures forall i :: 0 <= i < |meta| ==> Parts(meta[i].path) != MatchFile(league, fixture, n)
  {
    MatchFileFacts(league, fixture, n);
    FixedPaths();
    forall k: nat | k < FILES_PER_MATCH && k != n
      ensures MatchFile(league, fixture, k) != MatchFile(league, fixture, n)
    {
      MatchFileDistinct(league, fixture, k, n);
    }
  }

  lemma DuringGrows(
    meta: seq<FileMeta>, f: FileMeta, keys: set<(nat, nat)>, league: nat, fixture: nat, n: nat)
    requires n < FILES_PER_MATCH && RecordsDuring(meta, keys, league, fixture, n)
    requires Parts(f.path) == MatchFile(league, fixture, n)
    ensures RecordsDuring(meta + [f], keys, league, fixture, n + 1)
  {
  }

  /** Records in order while match `(league, fixture)` has `n` of its files. */
  ghost predicate Tracked(h: Hash, w: Work, keys: set<(nat, nat)>, league: nat, fixture: nat, n: nat) {
    RecordsOk(h, w) && RecordsDuring(w.meta, keys, league, fixture, n)
  }

  lemma DuringStarts(h: Hash, w: Work, keys: set<(nat, nat)>, league: nat, fixture: nat)
    requires RecordsOk(h, w) && RecordsOurs(w.meta, keys)
    ensures Tracked(h, w, keys, league, fixture, 0)
  {
  }

  lemma NextFileRecorded(h: Hash, w: Work, league: nat, item: Item, n: nat, keys: set<(nat, nat)>)
    requires n < FILES_PER_MATCH && (league, item.fixtureId) !in keys
    requires Tracked(h, w, keys, league, item.fixtureId, n)
    ensures Tracked(h, FileWritten(h, w, league, item, n), keys, league, item.fixtureId, n + 1)
  {
    var path, content, endpoint :=
      MatchFile(league, item.fixtureId, n), MatchContent(item, n), MATCH_ENDPOINTS[n].0;
    NextFileIsNew(w.meta, keys, league, item.fixtureId, n);
    MatchFileFacts(league, item.fixtureId, n);
    PosixReadsBack(path);
    WrittenKeepsRecords(h, w, path, content, endpoint, Some(item.fixtureId));
    DuringGrows(
      w.meta, FileMeta(Posix(path), endpoint, h(content), Some(item.fixtureId)), keys, league, item.fixtureId, n);
  }

  lemma {:induction false} MatchStaysTracked(
    h: Hash, w: Work, league: nat, item: Item, n: nat, keys: set<(nat, nat)>)
    requires n <= FILES_PER_MATCH && (league, item.fixtureId) !in keys
    requires Tracked(h, w, keys, league, item.fixtureId, 0)
    ensures Tracked(h, MatchWritten(h, w, league, item, n), keys, league, item.fixtureId, n)
  {
    if n > 0 {
      var before := MatchWritten(h, w, league, item, n - 1);
      MatchStaysTracked(h, w, league, item, n - 1, keys);
      NextFileRecorded(h, before, league, item, n - 1, keys);
      assert MatchWritten(h, w, league, item, n) == FileWritten(h, before, league, item, n - 1);
    }
  }

  lemma MatchWrittenRecords(h: Hash, w: Work, league: nat, item: Item, n: nat, keys: set<(nat, nat)>)
    requires n <= FILES_PER_MATCH && (league, item.fixtureId) !in keys
    requires RecordsOk(h, w) && RecordsOurs(w.meta, keys)
    ensures Tracked(h, MatchWritten(h, w, league, item, n), keys, league, item.fixtureId, n)
  {
    DuringStarts(h, w, keys, league, item.fixtureId);
    MatchStaysTracked(h, w, league, item, n, keys);
  }

  predicate SameAt(a: Files, b: Files, p: Path) {
    (p in a <==> p in b) && (p in a ==> a[p] == b[p])
  }

  predicate PlacedAt(files: Files, league: nat, item: Item, k: nat)
    requires k < FILES_PER_MATCH
  {
    var p := MatchFile(league, item.fixtureId, k);
    p in files && files[p] == MatchContent(item, k)
  }

  /** Writing a match places its files. */
  lemma {:induction false} MatchWrittenPlaces(h: Hash, w: Work, league: nat, item: Item, n: nat)
    requires n <= FILES_PER_MATCH
    ensures forall k :: 0 <= k < n ==> PlacedAt(MatchWritten(h, w, league, item, n).files, league, item, k)
  {
    if n > 0 {
      MatchWrittenPlaces(h, w, league, item, n - 1);
      forall k | 0 <= k < n - 1 ensures PlacedAt(MatchWritten(h, w, league, item, n).files, league, item, k) {
        assert PlacedAt(MatchWritten(h, w, league, item, n - 1).files, league, item, k);
        MatchFileDistinct(league, item.fixtureId, k, n - 1);
      }
    }
  }

  lemma FileElsewhere(h: Hash, w: Work, league: nat, item: Item, k: nat, p: Path)
    requires k < FILES_PER_MATCH && p != MatchFile(league, item.fixtureId, k)
    ensures SameAt(w.files, FileWritten(h, w, league, item, k).files, p)
  {
  }

  /** Writing a match changes no path but those of its files. */
  lemma {:induction false} MatchWrittenElsewhere(h: Hash, w: Work, league: nat, item: Item, n: nat, p: Path)
    requires n <= FILES_PER_MATCH && forall k :: 0 <= k < n ==> p != MatchFile(league, item.fixtureId, k)
    ensures SameAt(w.files, MatchWritten(h, w, league, item, n).files, p)
  {
    if n > 0 {
      MatchWrittenElsewhere(h, w, league, item, n - 1, p);
      FileElsewhere(h, MatchWritten(h, w, league, item, n - 1), league, item, n - 1, p);
    }
  }

  /* ---- all matches ---- */

  ghost predicate DistinctMatches(matches: seq<(nat, Item)>) {
    forall i, j :: 0 <= i < j < |matches| ==>
      (matches[i].0, matches[i].1.fixtureId) != (matches[j].0, matches[j].1.fixtureId)
  }

  /** Every match has its four files in place. */
  ghost predicate FilesInPlace(files: Files, matches: seq<(nat, Item)>) {
    forall i, k :: 0 <= i < |matches| && 0 <= k < FILES_PER_MATCH ==>
      PlacedAt(files, matches[i].0, matches[i].1, k)
  }

  lemma LastKeyIsNew(matches: seq<(nat, Item)>)
    requires DistinctMatches(matches) && matches != []
    ensures var last := matches[|matches| - 1];
      (last.0, last.1.fixtureId) !in KeysOf(matches[..|matches| - 1])
  {
  }

  lemma KeysGrow(matches: seq<(nat, Item)>)
    requires matches != []
    ensures var last := matches[|matches| - 1];
      KeysOf(matches) == KeysOf(matches[..|matches| - 1]) + {(last.0, last.1.fixtureId)}
  {
  }

  lemma OursGrows(meta: seq<FileMeta>, keys: set<(nat, nat)>, league: nat, fixture: nat)
    requires RecordsDuring(meta, keys, league, fixture, FILES_PER_MATCH)
    ensures RecordsOurs(meta, keys + {(league, fixture)})
  {
    forall k: nat | k < FILES_PER_MATCH ensures Ours(MatchFile(league, fixture, k), keys + {(league, fixture)}) {
      MatchFileFacts(league, fixture, k);
    }
  }

  lemma {:induction false} MatchesWrittenRecords(h: Hash, w: Work, matches: seq<(nat, Item)>)
    requires DistinctMatches(matches) && RecordsOk(h, w) && RecordsOurs(w.meta, {})
    ensures RecordsOk(h, MatchesWritten(h, w, matches))
    ensures RecordsOurs(MatchesWritten(h, w, matches).meta, KeysOf(matches))
  {
    if matches != [] {
      var t, last := matches[..|matches| - 1], matches[|matches| - 1];
      MatchesWrittenRecords(h, w, t);
      LastKeyIsNew(matches);
      KeysGrow(matches);
      MatchWrittenRecords(h, MatchesWritten(h, w, t), last.0, last.1, FILES_PER_MATCH, KeysOf(t));
      OursGrows(MatchesWritten(h, w, matches).meta, KeysOf(t), last.0, last.1.fixtureId);
    }
  }

  lemma OtherMatchOtherFile(league: nat, fixture: nat, j: nat, otherLeague: nat, otherFixture: nat, k: nat)
    requires j < FILES_PER_MATCH && k < FILES_PER_MATCH && (league, fixture) != (otherLeague, otherFixture)
    ensures MatchFile(league, fixture, j) != MatchFile(otherLeague, otherFixture, k)
  {
    MatchFileFacts(league, fixture, j);
    MatchFileFacts(otherLeague, otherFixture, k);
  }

  lemma EarlierMatchStays(h: Hash, w: Work, league: nat, item: Item, k: nat, last: (nat, Item))
    requires k < FILES_PER_MATCH && PlacedAt(w.files, league, item, k)
    requires (league, item.fixtureId) != (last.0, last.1.fixtureId)
    ensures PlacedAt(MatchWritten(h, w, last.0, last.1, FILES_PER_MATCH).files, league, item, k)
  {
    var p := MatchFile(league, item.fixtureId, k);
    forall j: nat | j < FILES_PER_MATCH ensures p != MatchFile(last.0, last.1.fixtureId, j) {
      OtherMatchOtherFile(league, item.fixtureId, k, last.0, last.1.fixtureId, j);
    }
    MatchWrittenElsewhere(h, w, last.0, last.1, FILES_PER_MATCH, p);
  }

  lemma {:induction false} MatchesWrittenFiles(h: Hash, w: Work, matches: seq<(nat, Item)>)
    requires DistinctMatches(matches)
    ensures FilesInPlace(MatchesWritten(h, w, matches).files, matches)
  {
    if matches != [] {
      var t, last := matches[..|matches| - 1], matches[|matches| - 1];
      var before := MatchesWritten(h, w, t);
      MatchesWrittenFiles(h, w, t);
      MatchWrittenPlaces(h, before, last.0, last.1, FILES_PER_MATCH);
      forall i, k | 0 <= i < |matches| && 0 <= k < FILES_PER_MATCH
        ensures PlacedAt(MatchesWritten(h, w, matches).files, matches[i].0, matches[i].1, k)
      {
        if i < |t| {
          assert PlacedAt(before.files, t[i].0, t[i].1, k);
          EarlierMatchStays(h, before, t[i].0, t[i].1, k, last);
        }
      }
    }
  }

  /** The path of a file of one of the matches. */
  ghost predicate OfMatch(matches: seq<(nat, Item)>, p: Path) {
    exists i, k :: 0 <= i < |matches| && 0 <= k < FILES_PER_MATCH && p == MatchFile(matches[i].0, matches[i].1.fixtureId, k)
  }

  /** Writing the matches changes no path but those of their files. */
  lemma {:induction false} MatchesWrittenElsewhere(h: Hash, w: Work, matches: seq<(nat, Item)>, p: Path)
    requires !OfMatch(matches, p)
    ensures SameAt(w.files, MatchesWritten(h, w, matches).files, p)
  {
    if matches != [] {
      var t, last := matches[..|matches| - 1], matches[|matches| - 1];
      assert forall i :: 0 <= i < |t| ==> t[i] == matches[i];
      MatchesWrittenElsewhere(h, w, t, p);
      MatchWrittenElsewhere(h, MatchesWritten(h, w, t), last.0, last.1, FILES_PER_MATCH, p);
    }
  }

  /* ---- references ---- */

  lemma ReferenceRecords(h: Hash, files: Files, leagues: Option<seq<Json>>)
    ensures RecordsOk(h, ReferenceWritten(h, Work(files, []), leagues))
    ensures RecordsOurs(ReferenceWritten(h, Work(files, []), leagues).meta, {})
  {
    FixedPaths();
    PosixReadsBack(LEAGUES_FILE);
  }

  lemma TeamsRecords(h: Hash, w: Work, items: seq<Item>, keys: set<(nat, nat)>)
    requires RecordsOk(h, w) && RecordsOurs(w.meta, keys)
    ensures RecordsOk(h, TeamsWritten(h, w, items)) && RecordsOurs(TeamsWritten(h, w, items).meta, keys)
  {
    FixedPaths();
    KeptRecords(h, w, keys);
    WrittenKeepsRecords(h, WithoutTeams(w), TEAMS_FILE, TeamsContent(items), "/teams", None);
    PosixReadsBack(TEAMS_FILE);
  }

  ghost function WithoutTeams(w: Work): Work {
    w.(meta := Keep(NotPath(Posix(TEAMS_FILE)), w.meta))
  }

  lemma KeptRecords(h: Hash, w: Work, keys: set<(nat, nat)>)
    requires RecordsOk(h, w) && RecordsOurs(w.meta, keys)
    ensures RecordsOk(h, WithoutTeams(w)) && RecordsOurs(WithoutTeams(w).meta, keys)
    ensures forall i :: 0 <= i < |WithoutTeams(w).meta| ==> Parts(WithoutTeams(w).meta[i].path) != TEAMS_FILE
  {
    var kept := WithoutTeams(w);
    KeepIn(NotPath(Posix(TEAMS_FILE)), w.meta);
    forall i | 0 <= i < |kept.meta|
      ensures RecordOk(h, kept.files, kept.meta[i]) && Ours(Parts(kept.meta[i].path), keys)
      ensures Parts(kept.meta[i].path) != TEAMS_FILE
    {
      assert kept.meta[i] in kept.meta;
      var j :| 0 <= j < |w.meta| && w.meta[j] == kept.meta[i];
      assert RecordOk(h, w.files, w.meta[j]);
    }
  }

  lemma GatheredRecords(h: Hash, files: Files, input: Input)
    requires DistinctMatches(Matches(input))
    ensures RecordsOk(h, Gathered(h, files, input))
    ensures RecordsOurs(Gathered(h, files, input).meta, KeysOf(Matches(input)))
  {
    var w := ReferenceWritten(h, Work(files, []), input.leagues);
    ReferenceRecords(h, files, input.leagues);
    MatchesWrittenRecords(h, w, Matches(input));
    TeamsRecords(h, MatchesWritten(h, w, Matches(input)), input.fetched, KeysOf(Matches(input)));
  }

  lemma GatheredFiles(h: Hash, files: Files, input: Input)
    requires DistinctMatches(Matches(input))
    ensures FilesInPlace(Gathered(h, files, input).files, Matches(input))
  {
    var w, matches := ReferenceWritten(h, Work(files, []), input.leagues), Matches(input);
    MatchesWrittenFiles(h, w, matches);
    FixedPaths();
    forall i, k | 0 <= i < |matches| && 0 <= k < FILES_PER_MATCH
      ensures PlacedAt(Gathered(h, files, input).files, matches[i].0, matches[i].1, k)
    {
      assert PlacedAt(MatchesWritten(h, w, matches).files, matches[i].0, matches[i].1, k);
      MatchFileFacts(matches[i].0, matches[i].1.fixtureId, k);
    }
  }

  /* ---- the final files ---- */

  lemma OursSurvives(
    files: Files, manifest: Content, checksums: Content, keys: set<(nat, nat)>, p: Path)
    requires p in files && Ours(p, keys)
    ensures var final := Pruned(files[MANIFEST := manifest], keys)[CHECKSUMS := checksums];
      p in final && final[p] == files[p]
  {
  }

  /** Pruning, the manifest and the checksums touch nothing a run gathered. */
  lemma FinalHoldsOurs(h: Hash, files: Files, input: Input, p: Path)
    requires p in Gathered(h, files, input).files && Ours(p, KeysOf(Matches(input)))
    ensures p in Acquired(h, files, input) && Acquired(h, files, input)[p] == Gathered(h, files, input).files[p]
  {
    var w, matches := Gathered(h, files, input), Matches(input);
    var manifest := ManifestFile(ManifestOf(matches, w.meta));
    OursSurvives(w.files, manifest, Text(ChecksumLines(h, w.meta, manifest)), KeysOf(matches), p);
  }

  lemma FinalMatchFiles(h: Hash, files: Files, input: Input)
    requires DistinctMatches(Matches(input))
    ensures FilesInPlace(Acquired(h, files, input), Matches(input))
  {
    var matches := Matches(input);
    GatheredFiles(h, files, input);
    forall i, k | 0 <= i < |matches| && 0 <= k < FILES_PER_MATCH
      ensures PlacedAt(Acquired(h, files, input), matches[i].0, matches[i].1, k)
    {
      assert PlacedAt(Gathered(h, files, input).files, matches[i].0, matches[i].1, k);
      MatchFileFacts(matches[i].0, matches[i].1.fixtureId, k);
      assert matches[i] in matches;
      FinalHoldsOurs(h, files, input, MatchFile(matches[i].0, matches[i].1.fixtureId, k));
    }
  }

  /** Every recorded digest is that of the final content at its path. */
  lemma FinalRecords(h: Hash, files: Files, input: Input, f: FileMeta)
    requires DistinctMatches(Matches(input)) && f in Gathered(h, files, input).meta
    ensures RecordOk(h, Acquired(h, files, input), f)
    ensures Blankless(f.path)
  {
    var w := Gathered(h, files, input);
    GatheredRecords(h, files, input);
    var i :| 0 <= i < |w.meta| && w.meta[i] == f;
    assert RecordOk(h, w.files, w.meta[i]) && Ours(Parts(w.meta[i].path), KeysOf(Matches(input)));
    FinalHoldsOurs(h, files, input, Parts(f.path));
    PosixIsBlankless(Parts(f.path));
  }

  /* ---- the checksum file ---- */

  /** What the lines of a checksum file say, when each is a written line. */
  ghost predicate LinesTrue(h: Hash, files: Files, lines: seq<string>) {
    forall i :: 0 <= i < |lines| ==> LineIsTrue(h, files, lines[i])
  }

  lemma {:induction false} ChecksumsTrue(h: Hash, files: Files, lines: seq<string>)
    requires LinesTrue(h, files, lines)
    ensures forall rel :: rel in ChecksumMap(lines) ==>
      Parts(rel) in files && ChecksumMap(lines)[rel] == h(files[Parts(rel)])
  {
    if lines != [] {
      assert LineIsTrue(h, files, lines[|lines| - 1]);
      ChecksumsTrue(h, files, lines[..|lines| - 1]);
    }
  }

  lemma LineTrue(h: Hash, files: Files, f: FileMeta)
    requires RecordOk(h, files, f) && Blankless(f.path) && Digest(f.sha256)
    ensures ParseLine(LineOf(f)) == Entry(f.path, f.sha256)
  {
    ChecksumLineReadsBack(f.sha256, f.path);
  }

  ghost predicate LineIsTrue(h: Hash, files: Files, line: string) {
    && ParseLine(line).Entry?
    && Parts(ParseLine(line).rel) in files
    && ParseLine(line).digest == h(files[Parts(ParseLine(line).rel)])
  }

  lemma RecordLineTrue(h: Hash, files: Files, input: Input, f: FileMeta)
    requires DistinctMatches(Matches(input)) && (forall c :: Digest(h(c))) && f in Gathered(h, files, input).meta
    ensures LineIsTrue(h, Acquired(h, files, input), LineOf(f))
  {
    FinalRecords(h, files, input, f);
    LineTrue(h, Acquired(h, files, input), f);
  }

  lemma ManifestLineTrue(h: Hash, files: Files, input: Input)
    requires forall c :: Digest(h(c))
    ensures var manifest := ManifestFile(ManifestOf(Matches(input), Gathered(h, files, input).meta));
      LineIsTrue(h, Acquired(h, files, input), ChecksumLine(h(manifest), Posix(MANIFEST)))
  {
    var manifest := ManifestFile(ManifestOf(Matches(input), Gathered(h, files, input).meta));
    ManifestAndChecksums(h, files, input);
    FixedPaths();
    PosixReadsBack(MANIFEST);
    PosixIsBlankless(MANIFEST);
    ChecksumLineReadsBack(h(manifest), Posix(MANIFEST));
  }

  lemma FinalLines(h: Hash, files: Files, input: Input)
    ensures var w := Gathered(h, files, input);
      Acquired(h, files, input)[CHECKSUMS]
        == Text(ChecksumLines(h, w.meta, ManifestFile(ManifestOf(Matches(input), w.meta))))
  {
  }

  lemma SortedLineTrue(h: Hash, files: Files, input: Input, i: nat)
    requires DistinctMatches(Matches(input)) && forall c :: Digest(h(c))
    requires i < |SortBy(Gathered(h, files, input).meta, ByPath())|
    ensures LineIsTrue(h, Acquired(h, files, input), LineOf(SortBy(Gathered(h, files, input).meta, ByPath())[i]))
  {
    var meta := Gathered(h, files, input).meta;
    SortPermutation(meta, ByPath());
    SameItems(SortBy(meta, ByPath()), meta);
    assert SortBy(meta, ByPath())[i] in SortBy(meta, ByPath());
    RecordLineTrue(h, files, input, SortBy(meta, ByPath())[i]);
  }

  lemma FinalLinesTrue(h: Hash, files: Files, input: Input)
    requires DistinctMatches(Matches(input)) && forall c :: Digest(h(c))
    ensures Acquired(h, files, input)[CHECKSUMS].Text?
    ensures LinesTrue(h, Acquired(h, files, input), Acquired(h, files, input)[CHECKSUMS].lines)
  {
    var sorted := SortBy(Gathered(h, files, input).meta, ByPath());
    FinalLines(h, files, input);
    ManifestLineTrue(h, files, input);
    var lines := Acquired(h, files, input)[CHECKSUMS].lines;
    forall i | 0 <= i < |lines| ensures LineIsTrue(h, Acquired(h, files, input), lines[i]) {
      if i < |sorted| {
        assert lines[i] == LineOf(sorted[i]);
        SortedLineTrue(h, files, input, i);
      }
    }
  }

  /* ---- the manifest ---- */

  lemma ManifestFixtures(matches: seq<(nat, Item)>, meta: seq<FileMeta>)
    ensures var m := ManifestOf(matches, meta);
      && |m.fixtures| == |matches|
      && ManifestKeys(m) == KeysOf(matches)
      && (forall fx :: fx in m.fixtures ==> exists i :: 0 <= i < |matches| && fx == MatchMetaOf(matches[i]))
      && (forall i :: 0 <= i < |matches| ==> MatchMetaOf(matches[i]) in m.fixtures)
  {
    var listed := MapSeq((m: (nat, Item)) => MatchMetaOf(m), matches);
    var m := ManifestOf(matches, meta);
    SortPermutation(listed, ByLeagueThenFixture());
    SameItems(m.fixtures, listed);
    forall fx | fx in m.fixtures ensures exists i :: 0 <= i < |matches| && fx == MatchMetaOf(matches[i]) {
      var i :| 0 <= i < |listed| && listed[i] == fx;
      assert fx == MatchMetaOf(matches[i]);
    }
    forall i | 0 <= i < |matches| ensures MatchMetaOf(matches[i]) in m.fixtures {
      assert listed[i] in listed;
    }
    forall key ensures key in ManifestKeys(m) <==> key in KeysOf(matches) {
      if key in ManifestKeys(m) {
        var fx :| fx in m.fixtures && key == (fx.leagueId, fx.fixtureId);
        var i :| 0 <= i < |matches| && fx == MatchMetaOf(matches[i]);
        assert matches[i] in matches;
      }
      if key in KeysOf(matches) {
        var x :| x in matches && key == (x.0, x.1.fixtureId);
        var i :| 0 <= i < |matches| && matches[i] == x;
        assert MatchMetaOf(matches[i]) in m.fixtures;
      }
    }
  }

  /** The payload of a match names the fixture it was asked for. */
  ghost predicate NamesItsFixture(item: Item) {
    HasFixtureId(FixtureOnly(item), item.fixtureId)
  }

  /** What the provider must return for a corpus to be worth writing. */
  ghost predicate Worthwhile(matches: seq<(nat, Item)>) {
    && DistinctMatches(matches)
    && |matches| >= 20
    && (forall league :: league in LEAGUES ==> exists i :: 0 <= i < |matches| && matches[i].0 == league)
    && (forall i :: 0 <= i < |matches| ==> NamesItsFixture(matches[i].1))
  }

  lemma ManifestIsOk(matches: seq<(nat, Item)>, meta: seq<FileMeta>)
    requires Worthwhile(matches)
    ensures ManifestOk(ManifestOf(matches, meta))
  {
    var m := ManifestOf(matches, meta);
    ManifestFixtures(matches, meta);
    forall league | league in LEAGUES ensures exists j :: 0 <= j < |m.fixtures| && m.fixtures[j].leagueId == league {
      var i :| 0 <= i < |matches| && matches[i].0 == league;
      assert MatchMetaOf(matches[i]) in m.fixtures;
      var j :| 0 <= j < |m.fixtures| && m.fixtures[j] == MatchMetaOf(matches[i]);
    }
  }

  lemma ContentIsOk(item: Item, k: nat)
    requires k < FILES_PER_MATCH && HasFixtureId(FixtureOnly(item), item.fixtureId)
    ensures var j := MatchContent(item, k).json;
      EnvelopeOk(j, MATCH_ENDPOINTS[k].0) && IdOk(j, k, item.fixtureId)
  {
    if k == 0 {
      var items := MatchContent(item, 0).json.fields["response"].items;
      assert items == [FixtureOnly(item)];
      assert HasFixtureId(items[0], item.fixtureId);
    }
  }

  /* ---- secrets ---- */

  /** A path whose earlier content is still there when a run ends: neither written nor pruned. */
  ghost predicate Survives(input: Input, p: Path) {
    && p != MANIFEST && p != CHECKSUMS && p != TEAMS_FILE && (p == LEAGUES_FILE ==> input.leagues.None?)
    && !OfMatch(Matches(input), p)
    && (MatchDir(p).None? || MatchDir(p).value in KeysOf(Matches(input)))
  }

  function LeaguesContent(leagues: seq<Json>): Content {
    JsonFile(Envelope("/leagues", map["current" := "true"], leagues))
  }

  /** No JSON that survives the run, and none it writes, looks like it holds a secret. */
  ghost predicate SecretFree(h: Hash, secret: Content -> bool, files: Files, input: Input) {
    && (forall p :: p in files && IsJsonName(p) && Survives(input, p) ==> !secret(files[p]))
    && (input.leagues.Some? ==> !secret(LeaguesContent(input.leagues.value)))
    && (forall i, k :: 0 <= i < |Matches(input)| && 0 <= k < FILES_PER_MATCH ==>
          !secret(MatchContent(Matches(input)[i].1, k)))
    && !secret(TeamsContent(input.fetched))
    && !secret(ManifestFile(ManifestOf(Matches(input), Gathered(h, files, input).meta)))
  }

  lemma FixedNames()
    ensures IsJsonName(MANIFEST) && IsJsonName(TEAMS_FILE) && IsJsonName(LEAGUES_FILE) && !IsJsonName(CHECKSUMS)
  {
    assert MANIFEST[0][8..] == ".json" && TEAMS_FILE[1][5..] == ".json" && LEAGUES_FILE[1][7..] == ".json";
    assert CHECKSUMS[0][11..] == "ha256" && "ha256"[0] != ".json"[0];
  }

  lemma MatchFileIsJson(league: nat, fixture: nat, k: nat)
    requires k < FILES_PER_MATCH
    ensures IsJsonName(MatchFile(league, fixture, k))
  {
    EndpointNames(k);
  }

  lemma ReferenceElsewhere(h: Hash, files: Files, leagues: Option<seq<Json>>, p: Path)
    requires p != TEAMS_FILE && (p == LEAGUES_FILE ==> leagues.None?)
    ensures SameAt(files, ReferenceWritten(h, Work(files, []), leagues).files, p)
  {
  }

  /** From the matches on, a run writes only the teams, the manifest and the checksums, and prunes. */
  lemma AfterMatches(h: Hash, files: Files, input: Input, p: Path)
    requires p != MANIFEST && p != CHECKSUMS && p != TEAMS_FILE
    requires MatchDir(p).None? || MatchDir(p).value in KeysOf(Matches(input))
    ensures var start := ReferenceWritten(h, Work(files, []), input.leagues);
      SameAt(MatchesWritten(h, start, Matches(input)).files, Acquired(h, files, input), p)
  {
  }

  /** A surviving path holds at the end what it held before, and holds something only if it did. */
  lemma SurvivorsStay(h: Hash, files: Files, input: Input, p: Path)
    requires Survives(input, p)
    ensures SameAt(files, Acquired(h, files, input), p)
  {
    ReferenceElsewhere(h, files, input.leagues, p);
    MatchesWrittenElsewhere(h, ReferenceWritten(h, Work(files, []), input.leagues), Matches(input), p);
    AfterMatches(h, files, input, p);
  }

  lemma LeaguesFileOfNoMatch(matches: seq<(nat, Item)>)
    ensures !OfMatch(matches, LEAGUES_FILE)
  {
    FixedPaths();
    forall i, k: nat | 0 <= i < |matches| && k < FILES_PER_MATCH
      ensures MatchFile(matches[i].0, matches[i].1.fixtureId, k) != LEAGUES_FILE
    {
      MatchFileFacts(matches[i].0, matches[i].1.fixtureId, k);
    }
  }

  lemma LeaguesFileAtEnd(h: Hash, files: Files, input: Input)
    requires input.leagues.Some?
    ensures LEAGUES_FILE in Acquired(h, files, input)
    ensures Acquired(h, files, input)[LEAGUES_FILE] == LeaguesContent(input.leagues.value)
  {
    var start, matches := ReferenceWritten(h, Work(files, []), input.leagues), Matches(input);
    FixedPaths();
    FixedNamesDiffer();
    LeaguesFileOfNoMatch(matches);
    assert LEAGUES_FILE in start.files && start.files[LEAGUES_FILE] == LeaguesContent(input.leagues.value);
    MatchesWrittenElsewhere(h, start, matches, LEAGUES_FILE);
    AfterMatches(h, files, input, LEAGUES_FILE);
  }

  lemma FixedNamesDiffer()
    ensures LEAGUES_FILE != MANIFEST && LEAGUES_FILE != CHECKSUMS && LEAGUES_FILE != TEAMS_FILE
  {
    assert |LEAGUES_FILE| == 2 && |MANIFEST| == 1 && |CHECKSUMS| == 1;
    assert |LEAGUES_FILE[1]| == 12 && |TEAMS_FILE[1]| == 10;
  }

  lemma FixedFilesAtEnd(h: Hash, files: Files, input: Input)
    ensures var final := Acquired(h, files, input);
      && MANIFEST in final && TEAMS_FILE in final
      && final[MANIFEST] == ManifestFile(ManifestOf(Matches(input), Gathered(h, files, input).meta))
      && final[TEAMS_FILE] == TeamsContent(input.fetched)
  {
    FixedPaths();
  }

  lemma MatchFileAtEnd(h: Hash, files: Files, input: Input, i: nat, k: nat)
    requires DistinctMatches(Matches(input)) && i < |Matches(input)| && k < FILES_PER_MATCH
    ensures var p := MatchFile(Matches(input)[i].0, Matches(input)[i].1.fixtureId, k);
      && p in Acquired(h, files, input) && Acquired(h, files, input)[p] == MatchContent(Matches(input)[i].1, k)
  {
    FinalMatchFiles(h, files, input);
    assert PlacedAt(Acquired(h, files, input), Matches(input)[i].0, Matches(input)[i].1, k);
  }

  /** What is at a path when the run ends comes from the run, or survived it. */
  lemma FinalOrigin(h: Hash, secret: Content -> bool, files: Files, input: Input, p: Path)
    requires DistinctMatches(Matches(input)) && SecretFree(h, secret, files, input)
    requires p in Acquired(h, files, input) && IsJsonName(p)
    ensures !secret(Acquired(h, files, input)[p])
  {
    FixedNames();
    FixedFilesAtEnd(h, files, input);
    if p == LEAGUES_FILE && input.leagues.Some? {
      LeaguesFileAtEnd(h, files, input);
    } else if i, k :| 0 <= i < |Matches(input)| && 0 <= k < FILES_PER_MATCH
                      && p == MatchFile(Matches(input)[i].0, Matches(input)[i].1.fixtureId, k) {
      MatchFileAtEnd(h, files, input, i, k);
    } else if p != MANIFEST && p != TEAMS_FILE {
      assert !OfMatch(Matches(input), p);
      assert Survives(input, p);
      SurvivorsStay(h, files, input, p);
    }
  }

  /** The checker's scan for secrets passes exactly when nothing that survives or is written is secret-like. */
  lemma FinalSecretsExactly(h: Hash, secret: Content -> bool, files: Files, input: Input)
    requires DistinctMatches(Matches(input))
    ensures NoSecrets(Acquired(h, files, input), secret) <==> SecretFree(h, secret, files, input)
  {
    if SecretFree(h, secret, files, input) {
      forall p | p in Acquired(h, files, input) && IsJsonName(p) ensures !secret(Acquired(h, files, input)[p]) {
        FinalOrigin(h, secret, files, input, p);
      }
    }
    if NoSecrets(Acquired(h, files, input), secret) {
      FixedNames();
      FixedFilesAtEnd(h, files, input);
      if input.leagues.Some? {
        LeaguesFileAtEnd(h, files, input);
      }
      forall i, k | 0 <= i < |Matches(input)| && 0 <= k < FILES_PER_MATCH
        ensures !secret(MatchContent(Matches(input)[i].1, k))
      {
        MatchFileAtEnd(h, files, input, i, k);
        MatchFileIsJson(Matches(input)[i].0, Matches(input)[i].1.fixtureId, k);
      }
      forall p | p in files && IsJsonName(p) && Survives(input, p) ensures !secret(files[p]) {
        SurvivorsStay(h, files, input, p);
      }
    }
  }

  /* ---- the theorem ---- */

  lemma FixturesAccepted(h: Hash, files: Files, input: Input, fx: MatchMeta, k: nat)
    requires Worthwhile(Matches(input)) && k < FILES_PER_MATCH
    requires fx in ManifestOf(Matches(input), Gathered(h, files, input).meta).fixtures
    ensures MatchFileOk(Acquired(h, files, input), fx.leagueId, fx.fixtureId, k)
  {
    var matches := Matches(input);
    ManifestFixtures(matches, Gathered(h, files, input).meta);
    var i :| 0 <= i < |matches| && fx == MatchMetaOf(matches[i]);
    FinalMatchFiles(h, files, input);
    assert PlacedAt(Acquired(h, files, input), matches[i].0, matches[i].1, k);
    ContentIsOk(matches[i].1, k);
  }

  lemma EntriesAccepted(h: Hash, files: Files, input: Input, f: FileMeta)
    requires DistinctMatches(Matches(input)) && (forall c :: Digest(h(c)))
    requires f in Gathered(h, files, input).meta
    ensures var final := Acquired(h, files, input);
      final[CHECKSUMS].Text? && EntryOk(h, final, ChecksumMap(final[CHECKSUMS].lines), f)
  {
    var final := Acquired(h, files, input);
    FinalRecords(h, files, input, f);
    FinalLinesTrue(h, files, input);
    ChecksumsTrue(h, final, final[CHECKSUMS].lines);
    assert Forward(f.path) == f.path;
  }

  lemma NoOrphansLeft(h: Hash, files: Files, input: Input)
    ensures NoOrphans(Acquired(h, files, input), ManifestOf(Matches(input), Gathered(h, files, input).meta))
  {
    ManifestFixtures(Matches(input), Gathered(h, files, input).meta);
    FixedPaths();
  }

  lemma ManifestAndChecksums(h: Hash, files: Files, input: Input)
    ensures var final := Acquired(h, files, input);
      && MANIFEST in final && CHECKSUMS in final && final[CHECKSUMS].Text?
      && final[MANIFEST] == ManifestFile(ManifestOf(Matches(input), Gathered(h, files, input).meta))
  {
  }

  lemma ChecksumsAccepted(h: Hash, files: Files, input: Input)
    requires DistinctMatches(Matches(input)) && forall c :: Digest(h(c))
    ensures var final := Acquired(h, files, input);
      && MANIFEST in final && final[CHECKSUMS].Text?
      && LinesReadable(final[CHECKSUMS].lines)
      && (Posix(MANIFEST) in ChecksumMap(final[CHECKSUMS].lines) ==>
            ChecksumMap(final[CHECKSUMS].lines)[Posix(MANIFEST)] == h(final[MANIFEST]))
  {
    var final := Acquired(h, files, input);
    ManifestAndChecksums(h, files, input);
    FinalLinesTrue(h, files, input);
    ChecksumsTrue(h, final, final[CHECKSUMS].lines);
    FixedPaths();
    PosixReadsBack(MANIFEST);
  }

  /** What one program writes, the other accepts, over whatever the directory held before. */
  lemma AcquiredIsAccepted(h: Hash, secret: Content -> bool, files: Files, input: Input)
    requires Worthwhile(Matches(input)) && SecretFree(h, secret, files, input) && forall c :: Digest(h(c))
    ensures Accepts(h, secret, Acquired(h, files, input))
  {
    var m := ManifestOf(Matches(input), Gathered(h, files, input).meta);
    ManifestAndChecksums(h, files, input);
    ManifestIsOk(Matches(input), Gathered(h, files, input).meta);
    NoOrphansLeft(h, files, input);
    ChecksumsAccepted(h, files, input);
    FinalSecretsExactly(h, secret, files, input);
    forall i, k | 0 <= i < |m.fixtures| && 0 <= k < FILES_PER_MATCH
      ensures MatchFileOk(Acquired(h, files, input), m.fixtures[i].leagueId, m.fixtures[i].fixtureId, k)
    {
      FixturesAccepted(h, files, input, m.fixtures[i], k);
    }
    forall i | 0 <= i < |m.files|
      ensures EntryOk(h, Acquired(h, files, input), ChecksumMap(Acquired(h, files, input)[CHECKSUMS].lines), m.files[i])
    {
      EntriesAccepted(h, files, input, m.files[i]);
    }
    AcceptedWhenEachPartIs(h, secret, Acquired(h, files, input), m);
  }

  lemma AcceptedWhenEachPartIs(h: Hash, secret: Content -> bool, files: Files, m: Manifest)
    requires MANIFEST in files && CHECKSUMS in files && files[CHECKSUMS].Text? && files[MANIFEST] == ManifestFile(m)
    requires ManifestOk(m) && NoOrphans(files, m) && NoSecrets(files, secret)
    requires forall i, k :: 0 <= i < |m.fixtures| && 0 <= k < FILES_PER_MATCH ==>
      MatchFileOk(files, m.fixtures[i].leagueId, m.fixtures[i].fixtureId, k)
    requires LinesReadable(files[CHECKSUMS].lines)
    requires forall i :: 0 <= i < |m.files| ==> EntryOk(h, files, ChecksumMap(files[CHECKSUMS].lines), m.files[i])
    requires Posix(MANIFEST) in ChecksumMap(files[CHECKSUMS].lines) ==>
      ChecksumMap(files[CHECKSUMS].lines)[Posix(MANIFEST)] == h(files[MANIFEST])
    ensures Accepts(h, secret, files)
  {
  }

  lemma AcceptedFixture(h: Hash, secret: Content -> bool, files: Files, m: Manifest, fx: MatchMeta)
    requires Accepts(h, secret, files) && files[MANIFEST] == ManifestFile(m) && fx in m.fixtures
    ensures MatchFileOk(files, fx.leagueId, fx.fixtureId, 0)
  {
  }

  lemma AcceptedPayload(files: Files, league: nat, item: Item)
    requires PlacedAt(files, league, item, 0) && MatchFileOk(files, league, item.fixtureId, 0)
    ensures NamesItsFixture(item)
  {
  }

  lemma RejectedPayload(h: Hash, secret: Content -> bool, files: Files, input: Input, i: nat)
    requires DistinctMatches(Matches(input)) && i < |Matches(input)|
    requires Accepts(h, secret, Acquired(h, files, input))
    ensures NamesItsFixture(Matches(input)[i].1)
  {
    var matches, final := Matches(input), Acquired(h, files, input);
    var m := ManifestOf(matches, Gathered(h, files, input).meta);
    ManifestAndChecksums(h, files, input);
    ManifestFixtures(matches, Gathered(h, files, input).meta);
    AcceptedFixture(h, secret, final, m, MatchMetaOf(matches[i]));
    FinalMatchFiles(h, files, input);
    assert PlacedAt(final, matches[i].0, matches[i].1, 0);
    AcceptedPayload(final, matches[i].0, matches[i].1);
  }

  /** A corpus the checker accepts has enough matches, from every league, each named in its payload. */
  lemma AcceptedIsWorthwhile(h: Hash, secret: Content -> bool, files: Files, input: Input)
    requires DistinctMatches(Matches(input)) && Accepts(h, secret, Acquired(h, files, input))
    ensures Worthwhile(Matches(input))
  {
    var matches := Matches(input);
    var m := ManifestOf(matches, Gathered(h, files, input).meta);
    ManifestAndChecksums(h, files, input);
    ManifestFixtures(matches, Gathered(h, files, input).meta);
    assert ManifestOk(m);
    forall league | league in LEAGUES ensures exists i :: 0 <= i < |matches| && matches[i].0 == league {
      var j :| 0 <= j < |m.fixtures| && m.fixtures[j].leagueId == league;
      assert m.fixtures[j] in m.fixtures;
      var i :| 0 <= i < |matches| && m.fixtures[j] == MatchMetaOf(matches[i]);
    }
    forall i | 0 <= i < |matches| ensures NamesItsFixture(matches[i].1) {
      RejectedPayload(h, secret, files, input, i);
    }
  }

  /**
   * Over any earlier directory, distinct fixtures are accepted exactly when there are
   * enough, from every league, each named in its payload, and no JSON left is secret-like.
   */
  lemma AcceptedExactly(h: Hash, secret: Content -> bool, files: Files, input: Input)
    requires DistinctMatches(Matches(input)) && forall c :: Digest(h(c))
    ensures Accepts(h, secret, Acquired(h, files, input))
       <==> Worthwhile(Matches(input)) && SecretFree(h, secret, files, input)
  {
    if Accepts(h, secret, Acquired(h, files, input)) {
      AcceptedIsWorthwhile(h, secret, files, input);
      FinalSecretsExactly(h, secret, files, input);
    } else if Worthwhile(Matches(input)) && SecretFree(h, secret, files, input) {
      AcquiredIsAccepted(h, secret, files, input);
    }
  }

  /* ---- which league a match is filed under ---- */

  lemma {:induction false} FirstRequestNames(requested: seq<(nat, nat)>, i: nat)
    requires i < |requested| && forall j :: 0 <= j < i ==> requested[j].1 != requested[i].1
    ensures requested[i].1 in LeagueByFixture(requested) && LeagueByFixture(requested)[requested[i].1] == requested[i].0
  {
    var n := |requested| - 1;
    if i < n {
      FirstRequestNames(requested[..n], i);
    } else {
      UnnamedBefore(requested[..n], requested[i].1);
    }
  }

  lemma {:induction false} UnnamedBefore(requested: seq<(nat, nat)>, fixture: nat)
    requires forall j :: 0 <= j < |requested| ==> requested[j].1 != fixture
    ensures fixture !in LeagueByFixture(requested)
  {
    if requested != [] {
      UnnamedBefore(requested[..|requested| - 1], fixture);
    }
  }

  lemma {:induction false} SettledKeepsRequest(requested: seq<(nat, nat)>, fetched: seq<Item>, fixture: nat)
    requires fixture in LeagueByFixture(requested) && LeagueByFixture(requested)[fixture] != 0
    ensures fixture in SettledLeagues(requested, fetched)
    ensures SettledLeagues(requested, fetched)[fixture] == LeagueByFixture(requested)[fixture]
  {
    if fetched != [] {
      SettledKeepsRequest(requested, fetched[..|fetched| - 1], fixture);
    }
  }

  lemma {:induction false} UnrequestedSettles(requested: seq<(nat, nat)>, fetched: seq<Item>, k: nat)
    requires k < |fetched| && fetched[k].fixtureId !in LeagueByFixture(requested)
    requires forall j :: 0 <= j < |fetched| && j != k ==> fetched[j].fixtureId != fetched[k].fixtureId
    ensures fetched[k].fixtureId in SettledLeagues(requested, fetched)
    ensures SettledLeagues(requested, fetched)[fetched[k].fixtureId] == fetched[k].leagueId
  {
    var n := |fetched| - 1;
    if k < n {
      UnrequestedSettles(requested, fetched[..n], k);
    } else {
      UnfetchedUnsettled(requested, fetched[..n], fetched[k].fixtureId);
    }
  }

  lemma {:induction false} UnfetchedUnsettled(requested: seq<(nat, nat)>, fetched: seq<Item>, fixture: nat)
    requires fixture !in LeagueByFixture(requested)
    requires forall j :: 0 <= j < |fetched| ==> fetched[j].fixtureId != fixture
    ensures fixture !in SettledLeagues(requested, fetched)
  {
    if fetched != [] {
      UnfetchedUnsettled(requested, fetched[..|fetched| - 1], fixture);
    }
  }

  /** A match nobody asked for is filed under the league its payload names. */
  lemma UnrequestedUsesPayload(input: Input, k: nat)
    requires k < |input.fetched| && forall j :: 0 <= j < |input.requested| ==> input.requested[j].1 != input.fetched[k].fixtureId
    requires forall j :: 0 <= j < |input.fetched| && j != k ==> input.fetched[j].fixtureId != input.fetched[k].fixtureId
    ensures |Matches(input)| >= |input.fetched|
    ensures Matches(input)[k] == (input.fetched[k].leagueId, input.fetched[k])
  {
    UnnamedBefore(input.requested, input.fetched[k].fixtureId);
    UnrequestedSettles(input.requested, input.fetched, k);
  }

  /** A match is filed under the league that first asked for it, whatever league its payloads name. */
  lemma FirstRequestWins(input: Input, i: nat, k: nat)
    requires i < |input.requested| && k < |input.fetched|
    requires input.requested[i].1 == input.fetched[k].fixtureId && input.requested[i].0 != 0
    requires forall j :: 0 <= j < i ==> input.requested[j].1 != input.requested[i].1
    ensures |Matches(input)| >= |input.fetched|
    ensures Matches(input)[k] == (input.requested[i].0, input.fetched[k])
  {
    FirstRequestNames(input.requested, i);
    SettledKeepsRequest(input.requested, input.fetched, input.fetched[k].fixtureId);
  }
}
