/** A corpus the checker accepts, and one the writer writes and the checker refuses. */
module DatasetSamples {
  import opened Options
  import opened DatasetModel
  import opened DatasetProofs

  const LEAGUE_LIST: seq<nat> := [39, 140, 135, 78, 61]

  function SampleItem(n: nat, id: Json): Item {
    Item(n, LEAGUE_LIST[n % 5], JObj(map["id" := id]), JNull, JNull, JNull, JNull, [], [], [], None, None, {})
  }

  function SampleId(n: nat, twelfth: Json): Json {
    if n == 12 then twelfth else JNum(n)
  }

  function SampleMatch(n: nat, twelfth: Json): (nat, Item) {
    (LEAGUE_LIST[n % 5], SampleItem(n, SampleId(n, twelfth)))
  }

  /** Twenty fixtures asked for over the five leagues and fetched, number 12 with the identifier given. */
  function SampleInput(twelfth: Json): Input {
    Input(
      None, seq(20, n requires 0 <= n => (LEAGUE_LIST[n % 5], n)),
      seq(20, n requires 0 <= n => SampleItem(n, SampleId(n, twelfth))), [])
  }

  lemma SampleLeague(twelfth: Json, n: nat)
    requires n < 20
    ensures |Matches(SampleInput(twelfth))| == 20 && Matches(SampleInput(twelfth))[n] == SampleMatch(n, twelfth)
  {
    assert LEAGUE_LIST[n % 5] != 0;
    FirstRequestWins(SampleInput(twelfth), n, n);
  }

  lemma SampleMatches(twelfth: Json)
    ensures |Matches(SampleInput(twelfth))| == 20
    ensures forall n :: 0 <= n < 20 ==> Matches(SampleInput(twelfth))[n] == SampleMatch(n, twelfth)
    ensures DistinctMatches(Matches(SampleInput(twelfth)))
  {
    SampleLeague(twelfth, 0);
    forall n: nat | n < 20 ensures Matches(SampleInput(twelfth))[n] == SampleMatch(n, twelfth) {
      SampleLeague(twelfth, n);
    }
  }

  lemma SampleNames(n: nat, id: Json)
    ensures NamesItsFixture(SampleItem(n, id)) <==> id == JNum(n)
  {
    assert FixtureOnly(SampleItem(n, id)).fields["fixture"] == JObj(map["id" := id]);
  }

  lemma SampleLeagues(league: nat, matches: seq<(nat, Item)>)
    requires |matches| >= 5 && forall i :: 0 <= i < 5 ==> matches[i].0 == LEAGUE_LIST[i]
    requires league in LEAGUES
    ensures exists i :: 0 <= i < |matches| && matches[i].0 == league
  {
    assert matches[0].0 == 39 && matches[1].0 == 140 && matches[2].0 == 135 && matches[3].0 == 78 && matches[4].0 == 61;
  }

  ghost predicate SampleRow(m: (nat, Item), n: nat, twelfth: Json) {
    m.0 == LEAGUE_LIST[n % 5] && (NamesItsFixture(m.1) <==> SampleId(n, twelfth) == JNum(n))
  }

  lemma SampleRows(twelfth: Json, n: nat)
    requires n < 20
    ensures SampleRow(SampleMatch(n, twelfth), n, twelfth)
  {
    SampleNames(n, SampleId(n, twelfth));
  }

  lemma RowsDecide(matches: seq<(nat, Item)>, twelfth: Json)
    requires |matches| == 20 && DistinctMatches(matches)
    requires forall n :: 0 <= n < 20 ==> SampleRow(matches[n], n, twelfth)
    ensures Worthwhile(matches) <==> twelfth == JNum(12)
  {
    assert SampleRow(matches[12], 12, twelfth);
    forall league | league in LEAGUES ensures exists i :: 0 <= i < |matches| && matches[i].0 == league {
      forall i | 0 <= i < 5 ensures matches[i].0 == LEAGUE_LIST[i] {
        assert SampleRow(matches[i], i, twelfth);
      }
      SampleLeagues(league, matches);
    }
    if twelfth == JNum(12) {
      forall i | 0 <= i < |matches| ensures NamesItsFixture(matches[i].1) {
        assert SampleRow(matches[i], i, twelfth);
      }
    }
  }

  lemma SampleIsWorthwhile(twelfth: Json)
    ensures Worthwhile(Matches(SampleInput(twelfth))) <==> twelfth == JNum(12)
  {
    SampleMatches(twelfth);
    forall n: nat | n < 20 ensures SampleRow(SampleMatch(n, twelfth), n, twelfth) {
      SampleRows(twelfth, n);
    }
    RowsDecide(Matches(SampleInput(twelfth)), twelfth);
  }

  function FlatDigest(): Hash {
    _ => "0"
  }

  function NothingSecret(): Content -> bool {
    _ => false
  }

  lemma SampleAcceptedExactly(twelfth: Json)
    ensures Accepts(FlatDigest(), NothingSecret(), Acquired(FlatDigest(), map[], SampleInput(twelfth)))
       <==> twelfth == JNum(12)
  {
    SampleMatches(twelfth);
    SampleIsWorthwhile(twelfth);
    AcceptedExactly(FlatDigest(), NothingSecret(), map[], SampleInput(twelfth));
  }

  /** A corpus that is accepted, and the same with one fixture identifier given as text, which is written and refused. */
  lemma TextIdentifierIsRefused()
    ensures Accepts(FlatDigest(), NothingSecret(), Acquired(FlatDigest(), map[], SampleInput(JNum(12))))
    ensures !Accepts(FlatDigest(), NothingSecret(), Acquired(FlatDigest(), map[], SampleInput(JStr("12"))))
  {
    SampleAcceptedExactly(JNum(12));
    SampleAcceptedExactly(JStr("12"));
  }
}
