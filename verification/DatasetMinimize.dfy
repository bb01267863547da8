/** Dropping keys from payloads, and what of that is left on disk. */
module DatasetMinimize {
  import opened Sequences
  import opened DatasetText
  import opened DatasetModel
  import opened DatasetProofs

  /** Minimising leaves no dropped key at any depth. */
  lemma {:induction false} MinimizeCleans(j: Json)
    ensures Clean(Minimize(j))
  {
    match j
    case JObj(fields) =>
      forall k | k in fields && k !in DROP_KEYS ensures Clean(Minimize(fields[k])) {
        MinimizeCleans(fields[k]);
      }
    case JArr(items) =>
      forall i | 0 <= i < |items| ensures Clean(Minimize(items[i])) {
        MinimizeCleans(items[i]);
      }
    case _ =>
  }

  /** Whether a key occurs in an object at any depth. */
  ghost predicate Occurs(key: string, j: Json) {
    match j
    case JObj(fields) => key in fields || exists k :: k in fields && Occurs(key, fields[k])
    case JArr(items) => exists i :: 0 <= i < |items| && Occurs(key, items[i])
    case _ => false
  }

  lemma {:induction false} CleanHasNone(j: Json, key: string)
    requires Clean(j) && key in DROP_KEYS
    ensures !Occurs(key, j)
  {
    match j
    case JObj(fields) =>
      forall k | k in fields ensures !Occurs(key, fields[k]) {
        CleanHasNone(fields[k], key);
      }
    case JArr(items) =>
      forall i | 0 <= i < |items| ensures !Occurs(key, items[i]) {
        CleanHasNone(items[i], key);
      }
    case _ =>
  }

  /** Media links and credentials are gone at every depth. */
  lemma MediaAndCredentialsGo(j: Json, key: string)
    requires key in ["logo", "photo", "flag", "image", "colors", "headers", "Authorization", "x-apisports-key",
                     "x-rapidapi-key"]
    ensures !Occurs(key, Minimize(j))
  {
    MinimizeCleans(j);
    CleanHasNone(Minimize(j), key);
  }

  /** Every other key stays, with its value minimised; arrays keep their items in order. */
  lemma TheRestStays(fields: map<string, Json>, key: string, items: seq<Json>)
    requires key !in ["logo", "photo", "flag", "image", "colors", "headers", "Authorization", "x-apisports-key",
                      "x-rapidapi-key"]
    ensures Minimize(JObj(fields)).JObj? && Minimize(JArr(items)).JArr?
    ensures key in fields <==> key in Minimize(JObj(fields)).fields
    ensures key in fields ==> Minimize(JObj(fields)).fields[key] == Minimize(fields[key])
    ensures |Minimize(JArr(items)).items| == |items|
    ensures forall i :: 0 <= i < |items| ==> Minimize(JArr(items)).items[i] == Minimize(items[i])
  {
    assert key in DROP_KEYS ==>
      key in ["logo", "photo", "flag", "image", "colors", "headers", "Authorization", "x-apisports-key",
              "x-rapidapi-key"];
  }

  /** Minimising changes exactly the payloads that hold a dropped key somewhere. */
  lemma {:induction false} MinimizeKeepsClean(j: Json)
    ensures Minimize(j) == j <==> Clean(j)
  {
    match j
    case JObj(fields) =>
      forall k | k in fields ensures Minimize(fields[k]) == fields[k] <==> Clean(fields[k]) {
        MinimizeKeepsClean(fields[k]);
      }
      var kept := Minimize(j).fields;
      if Clean(j) {
        assert kept == fields;
      }
      if kept == fields {
        forall k | k in fields ensures k !in DROP_KEYS && Clean(fields[k]) {
          assert k in kept;
        }
      }
    case JArr(items) =>
      forall i | 0 <= i < |items| ensures Minimize(items[i]) == items[i] <==> Clean(items[i]) {
        MinimizeKeepsClean(items[i]);
      }
      var kept := Minimize(j).items;
      if Clean(j) {
        assert kept == items;
      }
      if kept == items {
        forall i | 0 <= i < |items| ensures Clean(items[i]) {
          assert kept[i] == items[i];
        }
      }
    case _ =>
  }

  /** Minimising twice is minimising once. */
  lemma MinimizeIsIdempotent(j: Json)
    ensures Minimize(Minimize(j)) == Minimize(j)
  {
  }

  /* ---- minimised payloads stay minimised on disk ---- */

  ghost predicate CleanItem(item: Item) {
    && Clean(item.fixture) && Clean(item.league) && Clean(item.teams) && Clean(item.goals) && Clean(item.score)
    && Clean(JArr(item.events)) && Clean(JArr(item.lineups)) && Clean(JArr(item.players))
  }

  const ENVELOPE_KEYS: set<string> := {"get", "parameters", "errors", "results", "paging", "response"}
  const FIXTURE_KEYS: set<string> := {"fixture", "league", "teams", "goals", "score"}

  lemma OwnKeysAreKept()
    ensures ENVELOPE_KEYS !! DROP_KEYS && FIXTURE_KEYS !! DROP_KEYS
    ensures "current" !in DROP_KEYS && "total" !in DROP_KEYS && "id" !in DROP_KEYS && "ids" !in DROP_KEYS
  {
  }

  lemma TextsAreClean(texts: map<string, string>)
    requires forall k :: k in texts ==> k !in DROP_KEYS
    ensures Clean(JObj(map k | k in texts :: JStr(texts[k])))
  {
  }

  lemma PagingIsClean()
    ensures Clean(JObj(map["current" := JNum(1), "total" := JNum(1)]))
  {
    OwnKeysAreKept();
  }

  lemma FieldsAreClean(fields: map<string, Json>, response: seq<Json>)
    requires fields.Keys == ENVELOPE_KEYS && fields["response"] == JArr(response)
    requires forall k :: k in ENVELOPE_KEYS - {"response"} ==> Clean(fields[k])
    ensures Clean(JObj(fields)) <==> Clean(JArr(response))
  {
    OwnKeysAreKept();
    assert forall k :: k in fields ==> k == "response" || k in ENVELOPE_KEYS - {"response"};
  }

  lemma EnvelopeIsClean(endpoint: string, parameters: map<string, string>, response: seq<Json>)
    requires forall k :: k in parameters ==> k !in DROP_KEYS
    ensures Clean(Envelope(endpoint, parameters, response)) <==> Clean(JArr(response))
  {
    var fields := Envelope(endpoint, parameters, response).fields;
    TextsAreClean(parameters);
    PagingIsClean();
    assert fields.Keys == ENVELOPE_KEYS;
    FieldsAreClean(fields, response);
  }

  lemma FixtureOnlyIsClean(item: Item)
    requires CleanItem(item)
    ensures Clean(FixtureOnly(item))
  {
  }

  lemma ContentIsClean(item: Item, k: nat)
    requires CleanItem(item) && k < FILES_PER_MATCH
    ensures Clean(MatchContent(item, k).json)
  {
    var key := if k == 0 then "id" else "fixture";
    OwnKeysAreKept();
    if k == 0 {
      FixtureOnlyIsClean(item);
    }
    EnvelopeIsClean(MATCH_ENDPOINTS[k].0, map[key := Decimal(item.fixtureId)], Payload(item, k));
  }

  /** Match files written from minimised payloads hold no dropped key at any depth. */
  lemma MatchFilesAreClean(h: Hash, files: Files, input: Input, i: nat, k: nat)
    requires DistinctMatches(Matches(input)) && i < |Matches(input)| && k < FILES_PER_MATCH
    requires CleanItem(Matches(input)[i].1)
    ensures var (league, item) := Matches(input)[i];
      var p := MatchFile(league, item.fixtureId, k);
      p in Acquired(h, files, input) && Acquired(h, files, input)[p].JsonFile? && Clean(Acquired(h, files, input)[p].json)
  {
    var (league, item) := Matches(input)[i];
    FinalMatchFiles(h, files, input);
    assert PlacedAt(Acquired(h, files, input), league, item, k);
    ContentIsClean(item, k);
  }

  /** The teams file is the exception: its entries write two dropped keys back, holding nothing. */
  lemma TeamsFileIsCleanExactly(items: seq<Item>)
    ensures Clean(TeamsContent(items).json) <==> TeamsOf(items) == []
  {
    var entries := MapSeq((t: Team) => TeamEntry(t), TeamsOf(items));
    EnvelopeIsClean("/teams", map["ids" := "selected"], entries);
    if TeamsOf(items) != [] {
      var entry := TeamEntry(TeamsOf(items)[0]);
      assert "logo" in entry.fields["team"].fields;
      assert !Clean(entry.fields["team"]);
      assert entries[0] == entry && !Clean(entry);
    }
  }
}
