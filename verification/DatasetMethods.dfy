/** The acquiring program and the checker as they run over one directory. */
module DatasetMethods {
  import opened Options
  import opened Sequences
  import opened DatasetText
  import opened DatasetModel

  /* ---- batches ---- */

  /** Consecutive pieces of at most `size`. */
  function Chunked<T>(items: seq<T>, size: nat): seq<seq<T>>
    requires size > 0
  {
    if items == [] then [] else if |items| <= size then [items] else [items[..size]] + Chunked(items[size..], size)
  }

  function Joined<T>(chunks: seq<seq<T>>): seq<T> {
    if chunks == [] then [] else chunks[0] + Joined(chunks[1..])
  }

  /** Batches lose and repeat nothing. */
  lemma {:induction false} ChunkedJoins<T(!new)>(items: seq<T>, size: nat)
    requires size > 0
    ensures Joined(Chunked(items, size)) == items
  {
    if items == [] {
    } else if |items| <= size {
      assert [items][1..] == [];
      assert Joined([items]) == items + Joined([]) == items;
    } else {
      var rest := Chunked(items[size..], size);
      ChunkedJoins(items[size..], size);
      assert ([items[..size]] + rest)[1..] == rest;
      assert items == items[..size] + items[size..];
    }
  }

  /** Every batch but the last is full. */
  lemma {:induction false} ChunkedFull<T(!new)>(items: seq<T>, size: nat, i: nat)
    requires size > 0 && i + 1 < |Chunked(items, size)|
    ensures |Chunked(items, size)[i]| == size
  {
    if i > 0 {
      ChunkedFull(items[size..], size, i - 1);
    }
  }

  /** No batch is empty or larger than the size. */
  lemma {:induction false} ChunkedSizes<T(!new)>(items: seq<T>, size: nat, i: nat)
    requires size > 0 && i < |Chunked(items, size)|
    ensures 0 < |Chunked(items, size)[i]| <= size
  {
    if |items| > size && i > 0 {
      ChunkedSizes(items[size..], size, i - 1);
    }
  }

  lemma NextMatch(h: Hash, w: Work, matches: seq<(nat, Item)>, i: nat)
    requires i < |matches|
    ensures MatchesWritten(h, w, matches[..i + 1])
         == MatchWritten(h, MatchesWritten(h, w, matches[..i]), matches[i].0, matches[i].1, FILES_PER_MATCH)
    ensures TagsOf(matches[..i + 1]) == TagsOf(matches[..i]) + matches[i].1.tags
  {
    assert matches[..i + 1][..i] == matches[..i];
    assert matches[..i + 1] == matches[..i] + [matches[i]];
  }

  lemma NextRecord(matches: seq<(nat, Item)>, i: nat)
    requires i < |matches|
    ensures MapSeq((m: (nat, Item)) => MatchMetaOf(m), matches[..i + 1])
         == MapSeq((m: (nat, Item)) => MatchMetaOf(m), matches[..i]) + [MatchMetaOf(matches[i])]
  {
  }

  class CorpusDirectory {
    var files: Files

    constructor (files: Files)
      ensures this.files == files
    {
      this.files := files;
    }

    method DumpJson(h: Hash, path: Path, content: Content) returns (digest: string)
      modifies this
      ensures files == old(files)[path := content] && digest == h(content)
    {
      files := files[path := content];
      digest := h(content);
    }

    /** Writes the four files of a match and records each with its digest. */
    method SplitAndWrite(h: Hash, league: nat, item: Item, meta: seq<FileMeta>)
      returns (record: MatchMeta, after: seq<FileMeta>)
      modifies this
      ensures Work(files, after) == MatchWritten(h, Work(old(files), meta), league, item, FILES_PER_MATCH)
      ensures record == MatchMetaOf((league, item))
    {
      after := meta;
      var paths: seq<string> := [];
      for k := 0 to FILES_PER_MATCH
        invariant Work(files, after) == MatchWritten(h, Work(old(files), meta), league, item, k)
        invariant |paths| == k && forall j :: 0 <= j < k ==> paths[j] == Posix(MatchFile(league, item.fixtureId, j))
      {
        after := WriteFile(h, league, item, k, after);
        paths := paths + [Posix(MatchFile(league, item.fixtureId, k))];
      }
      record := MatchMeta(league, item.fixtureId, item.tags, paths);
      assert paths == MatchMetaOf((league, item)).files;
    }

    method WriteFile(h: Hash, league: nat, item: Item, k: nat, meta: seq<FileMeta>) returns (after: seq<FileMeta>)
      requires k < FILES_PER_MATCH
      modifies this
      ensures Work(files, after) == FileWritten(h, Work(old(files), meta), league, item, k)
    {
      var path := MatchFile(league, item.fixtureId, k);
      var digest := DumpJson(h, path, MatchContent(item, k));
      after := meta + [FileMeta(Posix(path), MATCH_ENDPOINTS[k].0, digest, Some(item.fixtureId))];
    }

    method RefreshReference(h: Hash, leagues: seq<Json>, meta: seq<FileMeta>) returns (after: seq<FileMeta>)
      modifies this
      ensures Work(files, after) == ReferenceWritten(h, Work(old(files), meta), Some(leagues))
    {
      var digest := DumpJson(h, LEAGUES_FILE, JsonFile(Envelope("/leagues", map["current" := "true"], leagues)));
      after := meta + [FileMeta(Posix(LEAGUES_FILE), "/leagues", digest, None)];
      if TEAMS_FILE !in files {
        digest := DumpJson(h, TEAMS_FILE, JsonFile(Envelope("/teams", map["ids" := "selected"], [])));
      }
    }

    method WriteTeamsReference(h: Hash, items: seq<Item>, meta: seq<FileMeta>) returns (after: seq<FileMeta>)
      modifies this
      ensures Work(files, after) == TeamsWritten(h, Work(old(files), meta), items)
    {
      var teams: seq<Team> := [];
      for i := 0 to |items|
        invariant teams == TeamsOf(items[..i]) && files == old(files)
      {
        assert items[..i + 1][..i] == items[..i];
        teams := WithTeam(teams, items[i].home);
        teams := WithTeam(teams, items[i].away);
      }
      assert items[..|items|] == items;
      var content := JsonFile(
        Envelope("/teams", map["ids" := "selected"], MapSeq((t: Team) => TeamEntry(t), teams)));
      assert content == TeamsContent(items);
      var digest := DumpJson(h, TEAMS_FILE, content);
      after := Keep(NotPath(Posix(TEAMS_FILE)), meta) + [FileMeta(Posix(TEAMS_FILE), "/teams", digest, None)];
    }

    /** The first league named for each fixture asked for. */
    method IndexRequests(requested: seq<(nat, nat)>) returns (byFixture: map<nat, nat>)
      ensures byFixture == LeagueByFixture(requested)
    {
      byFixture := map[];
      for i := 0 to |requested|
        invariant byFixture == LeagueByFixture(requested[..i])
      {
        assert requested[..i + 1][..i] == requested[..i];
        if requested[i].1 !in byFixture {
          byFixture := byFixture[requested[i].1 := requested[i].0];
        }
      }
      assert requested[..|requested|] == requested;
    }

    /** Settles the league of each fixture as its payload arrives. */
    method SettleLeagues(requested: seq<(nat, nat)>, fetched: seq<Item>) returns (byFixture: map<nat, nat>)
      ensures byFixture == SettledLeagues(requested, fetched)
    {
      byFixture := IndexRequests(requested);
      for i := 0 to |fetched|
        invariant byFixture == SettledLeagues(requested, fetched[..i])
      {
        assert fetched[..i + 1][..i] == fetched[..i];
        byFixture := byFixture[fetched[i].fixtureId := LeagueOf(byFixture, fetched[i])];
      }
      assert fetched[..|fetched|] == fetched;
    }

    method WriteMatches(h: Hash, matches: seq<(nat, Item)>, meta: seq<FileMeta>)
      returns (records: seq<MatchMeta>, tags: set<string>, after: seq<FileMeta>)
      modifies this
      ensures Work(files, after) == MatchesWritten(h, Work(old(files), meta), matches)
      ensures records == MapSeq((m: (nat, Item)) => MatchMetaOf(m), matches)
      ensures tags == TagsOf(matches)
    {
      records, tags, after := [], {}, meta;
      ghost var start := Work(files, meta);
      for i := 0 to |matches|
        invariant Work(files, after) == MatchesWritten(h, start, matches[..i])
        invariant records == MapSeq((m: (nat, Item)) => MatchMetaOf(m), matches[..i])
        invariant tags == TagsOf(matches[..i])
      {
        NextMatch(h, start, matches, i);
        NextRecord(matches, i);
        var record;
        record, after := SplitAndWrite(h, matches[i].0, matches[i].1, after);
        records := records + [record];
        tags := tags + matches[i].1.tags;
      }
      assert matches[..|matches|] == matches;
    }

    /** Deletes match directories that are not of this run, path by path. */
    method RemoveOrphans(keep: set<(nat, nat)>)
      modifies this
      ensures files == Pruned(old(files), keep)
    {
      var todo := files.Keys;
      while todo != {}
        invariant todo <= old(files).Keys
        invariant files == map p | p in old(files) &&
          (p in todo || MatchDir(p).None? || MatchDir(p).value in keep) :: old(files)[p]
        decreases |todo|
      {
        var p :| p in todo;
        todo := todo - {p};
        if MatchDir(p).Some? && MatchDir(p).value !in keep {
          files := files - {p};
        }
      }
    }

    /** References, matches and teams: everything before the manifest. */
    method Gather(h: Hash, input: Input) returns (records: seq<MatchMeta>, tags: set<string>, meta: seq<FileMeta>)
      modifies this
      ensures Work(files, meta) == Gathered(h, old(files), input)
      ensures records == MapSeq((m: (nat, Item)) => MatchMetaOf(m), Matches(input)) && tags == TagsOf(Matches(input))
    {
      meta := [];
      if input.leagues.Some? {
        meta := RefreshReference(h, input.leagues.value, meta);
      }
      var byFixture := SettleLeagues(input.requested, input.fetched);
      var matches := MapSeq((item: Item) => (LeagueOf(byFixture, item), item), input.fetched) + input.extras;
      assert matches == Matches(input);
      records, tags, meta := WriteMatches(h, matches, meta);
      meta := WriteTeamsReference(h, input.fetched, meta);
    }

    /** The manifest, the pruning and the checksums. */
    method Seal(h: Hash, matches: seq<(nat, Item)>, manifest: Content, meta: seq<FileMeta>)
      modifies this
      ensures files == Pruned(old(files)[MANIFEST := manifest], KeysOf(matches))[
                         CHECKSUMS := Text(ChecksumLines(h, meta, manifest))]
    {
      var digest := DumpJson(h, MANIFEST, manifest);
      RemoveOrphans(set m | m in matches :: (m.0, m.1.fixtureId));
      var lines := MapSeq((f: FileMeta) => LineOf(f), SortBy(meta, ByPath()));
      files := files[CHECKSUMS := Text(lines + [ChecksumLine(digest, Posix(MANIFEST))])];
    }

    method Acquire(h: Hash, input: Input)
      modifies this
      ensures files == Acquired(h, old(files), input)
    {
      var records, tags, meta := Gather(h, input);
      var manifest := Manifest(SortBy(records, ByLeagueThenFixture()), tags, RARE_TAGS - tags, meta);
      assert manifest == ManifestOf(Matches(input), meta);
      Seal(h, Matches(input), ManifestFile(manifest), meta);
    }

    /* ---- the checker ---- */

    method CheckManifest(m: Manifest) returns (errors: seq<string>)
      ensures errors == [] <==> ManifestOk(m)
    {
      errors := [];
      if |m.fixtures| < 20 {
        errors := errors + ["fixture_count"];
      }
      if exists league :: league in LEAGUES && forall i :: 0 <= i < |m.fixtures| ==> m.fixtures[i].leagueId != league {
        errors := errors + ["missing leagues"];
      }
      if exists tag :: tag in RARE_TAGS && tag !in m.rareFound && tag !in m.rareNotFound {
        errors := errors + ["rare case neither found nor listed"];
      }
    }

    method CheckMatches(m: Manifest) returns (errors: seq<string>)
      ensures errors == [] <==>
        forall i, k :: 0 <= i < |m.fixtures| && 0 <= k < FILES_PER_MATCH ==>
          MatchFileOk(files, m.fixtures[i].leagueId, m.fixtures[i].fixtureId, k)
    {
      errors := [];
      for i := 0 to |m.fixtures|
        invariant errors == [] <==>
          forall j, k :: 0 <= j < i && 0 <= k < FILES_PER_MATCH ==>
            MatchFileOk(files, m.fixtures[j].leagueId, m.fixtures[j].fixtureId, k)
      {
        ghost var before := errors;
        for k := 0 to FILES_PER_MATCH
          invariant errors == [] <==>
            before == [] && forall n :: 0 <= n < k ==>
              MatchFileOk(files, m.fixtures[i].leagueId, m.fixtures[i].fixtureId, n)
        {
          if !MatchFileOk(files, m.fixtures[i].leagueId, m.fixtures[i].fixtureId, k) {
            errors := errors + [Posix(MatchFile(m.fixtures[i].leagueId, m.fixtures[i].fixtureId, k))];
          }
        }
      }
    }

    /** Paths that are orphans, or JSON that looks like it holds a secret. */
    method ScanPaths(m: Manifest, secret: Content -> bool) returns (errors: seq<string>)
      ensures errors == [] <==> NoOrphans(files, m) && NoSecrets(files, secret)
    {
      errors := [];
      var todo := files.Keys;
      while todo != {}
        invariant todo <= files.Keys
        invariant errors == [] <==>
          forall p :: p in files && p !in todo ==>
            (MatchDir(p).Some? ==> MatchDir(p).value in ManifestKeys(m)) && (IsJsonName(p) ==> !secret(files[p]))
        decreases |todo|
      {
        var p :| p in todo;
        todo := todo - {p};
        if MatchDir(p).Some? && MatchDir(p).value !in ManifestKeys(m) {
          errors := errors + ["orphan match dir"];
        }
        if IsJsonName(p) && secret(files[p]) {
          errors := errors + ["secret-like pattern"];
        }
      }
    }

    /** The digests a checksum file lists; `ok` is false when a line cannot be split in two. */
    method ReadChecksums(lines: seq<string>) returns (sums: map<string, string>, ok: bool)
      ensures ok == LinesReadable(lines) && sums == ChecksumMap(lines)
    {
      sums, ok := map[], true;
      for i := 0 to |lines|
        invariant sums == ChecksumMap(lines[..i])
        invariant ok <==> forall j :: 0 <= j < i ==> ParseLine(lines[j]) != Malformed
      {
        assert lines[..i + 1][..i] == lines[..i];
        match ParseLine(lines[i])
        case Entry(rel, digest) => sums := sums[rel := digest];
        case Skipped =>
        case Malformed => ok := false;
      }
      assert lines[..|lines|] == lines;
    }

    method CheckEntries(h: Hash, m: Manifest, sums: map<string, string>) returns (errors: seq<string>)
      ensures errors == [] <==> forall i :: 0 <= i < |m.files| ==> EntryOk(h, files, sums, m.files[i])
    {
      errors := [];
      for i := 0 to |m.files|
        invariant errors == [] <==> forall j :: 0 <= j < i ==> EntryOk(h, files, sums, m.files[j])
      {
        var rel := Forward(m.files[i].path);
        var path := Parts(rel);
        if path !in files {
          errors := errors + ["manifest file missing on disk"];
        } else {
          var actual := h(files[path]);
          if m.files[i].sha256 != "" && actual != m.files[i].sha256 {
            errors := errors + ["checksum mismatch"];
          }
          if rel in sums && sums[rel] != actual {
            errors := errors + ["checksums.sha256 mismatch"];
          }
        }
      }
    }

    /** 0 when nothing is wrong, 2 when there is no manifest or no checksums, 1 otherwise. */
    method Validate(h: Hash, secret: Content -> bool) returns (code: nat)
      ensures code == 2 <==> MANIFEST !in files || CHECKSUMS !in files
      ensures code == 0 <==> Accepts(h, secret, files)
    {
      if MANIFEST !in files || CHECKSUMS !in files {
        return 2;
      }
      if !files[MANIFEST].ManifestFile? || !files[CHECKSUMS].Text? {
        return 1;
      }
      var m := files[MANIFEST].manifest;
      var first := CheckManifest(m);
      var second := CheckMatches(m);
      var third := ScanPaths(m, secret);
      var sums, readable := ReadChecksums(files[CHECKSUMS].lines);
      if !readable {
        return 1;
      }
      var fourth := CheckEntries(h, m, sums);
      if Posix(MANIFEST) in sums && sums[Posix(MANIFEST)] != h(files[MANIFEST]) {
        fourth := fourth + ["checksums.sha256 mismatch for manifest.json"];
      }
      code := if first + second + third + fourth == [] then 0 else 1;
      assert first + second + third + fourth == [] <==> first == [] && second == [] && third == [] && fourth == [];
    }
  }
}
