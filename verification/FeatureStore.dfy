/** Athlete features read strictly from fixtures that kicked off before a given instant. */
module FeatureStore {
  import opened Options
  import opened Sequences

  type Instant = int

  datatype RatingRow = RatingRow(
    rowId: nat, athleteId: nat, eligible: bool, kickoffAt: Option<Instant>, display: Option<real>, raw: real,
    minutes: Option<nat>)

  datatype Features = Features(recentRatings: seq<real>, avgRating: Option<real>, recentMinutesAvg: Option<real>)

  function PlayedBefore(asOf: Instant): RatingRow -> bool {
    (row: RatingRow) => row.kickoffAt.Some? && row.kickoffAt.value < asOf
  }

  function RatedFor(athleteId: nat): RatingRow -> bool {
    (row: RatingRow) => row.athleteId == athleteId && row.eligible
  }

  /** How the database settles rows of one kickoff, which the query leaves open. */
  type TieBreak = RatingRow -> int

  ghost predicate Settles(tie: TieBreak) {
    forall a, b :: tie(a) == tie(b) ==> a.rowId == b.rowId
  }

  /** Latest kickoff first. */
  function LatestFirst(tie: TieBreak): (RatingRow, RatingRow) -> bool {
    (a: RatingRow, b: RatingRow) =>
      var s, t := if a.kickoffAt.Some? then a.kickoffAt.value else 0, if b.kickoffAt.Some? then b.kickoffAt.value else 0;
      s > t || (s == t && tie(a) < tie(b))
  }

  function Recent(rows: seq<RatingRow>, athleteId: nat, asOf: Instant, lookback: nat, tie: TieBreak): seq<RatingRow> {
    Top(SortBy(Keep(RatedFor(athleteId), Keep(PlayedBefore(asOf), rows)), LatestFirst(tie)), lookback)
  }

  function Rating(row: RatingRow): real {
    if row.display.Some? then row.display.value else row.raw
  }

  function Sum(values: seq<real>): real {
    if values == [] then 0.0 else Sum(values[..|values| - 1]) + values[|values| - 1]
  }

  function Mean(values: seq<real>): Option<real> {
    if values == [] then None else Some(Sum(values) / |values| as real)
  }

  function MinutesOf(rows: seq<RatingRow>): seq<real> {
    MapSeq(
      (row: RatingRow) => if row.minutes.Some? then row.minutes.value as real else 0.0,
      Keep((row: RatingRow) => row.minutes.Some?, rows))
  }

  function BuildFeatures(rows: seq<RatingRow>, athleteId: nat, asOf: Instant, lookback: nat, tie: TieBreak): Features {
    var recent := Recent(rows, athleteId, asOf, lookback, tie);
    var ratings := MapSeq((row: RatingRow) => Rating(row), recent);
    Features(ratings, Mean(ratings), Mean(MinutesOf(recent)))
  }

  ghost predicate DistinctRows(rows: seq<RatingRow>) {
    forall i, j :: 0 <= i < j < |rows| ==> rows[i].rowId != rows[j].rowId
  }

  lemma {:induction false} DistinctPast(rows: seq<RatingRow>, p: RatingRow -> bool)
    requires DistinctRows(rows)
    ensures DistinctRows(Keep(p, rows))
  {
    if rows != [] {
      var t, x := rows[..|rows| - 1], rows[|rows| - 1];
      DistinctPast(t, p);
      KeepIn(p, t);
      forall i | 0 <= i < |Keep(p, t)| ensures Keep(p, t)[i].rowId != x.rowId {
        assert Keep(p, t)[i] in Keep(p, t);
      }
    }
  }

  /** Tables that agree on fixtures before `asOf` give the same ratings, average and minutes. */
  lemma LaterFixturesAreIgnored(
    a: seq<RatingRow>, b: seq<RatingRow>, athleteId: nat, asOf: Instant, lookback: nat, tie: TieBreak)
    requires Settles(tie) && DistinctRows(a) && DistinctRows(b)
    requires multiset(Keep(PlayedBefore(asOf), a)) == multiset(Keep(PlayedBefore(asOf), b))
    ensures BuildFeatures(a, athleteId, asOf, lookback, tie) == BuildFeatures(b, athleteId, asOf, lookback, tie)
  {
    var p, q := Keep(PlayedBefore(asOf), a), Keep(PlayedBefore(asOf), b);
    KeepPermutation(RatedFor(athleteId), p, q);
    DistinctPast(a, PlayedBefore(asOf));
    DistinctPast(b, PlayedBefore(asOf));
    DistinctPast(p, RatedFor(athleteId));
    DistinctPast(q, RatedFor(athleteId));
    SortForgetsOrder(Keep(RatedFor(athleteId), p), Keep(RatedFor(athleteId), q), LatestFirst(tie));
  }

  lemma TopHolds(s: seq<RatingRow>, n: nat)
    ensures |Top(s, n)| <= |s| && forall j :: 0 <= j < |Top(s, n)| ==> s[j] in Top(s, n)
  {
  }

  /** The rows used are the athlete's latest past ones: whoever is left out kicked off no later. */
  lemma RecentAreTheLatest(
    rows: seq<RatingRow>, athleteId: nat, asOf: Instant, lookback: nat, tie: TieBreak, x: RatingRow, y: RatingRow)
    requires Settles(tie) && DistinctRows(rows)
    requires x in Recent(rows, athleteId, asOf, lookback, tie)
    requires y in rows && PlayedBefore(asOf)(y) && RatedFor(athleteId)(y) && y !in Recent(rows, athleteId, asOf, lookback, tie)
    ensures x in rows && RatedFor(athleteId)(x) && PlayedBefore(asOf)(x)
    ensures y.kickoffAt.value <= x.kickoffAt.value < asOf
    ensures |Recent(rows, athleteId, asOf, lookback, tie)| == lookback
  {
    var past := Keep(PlayedBefore(asOf), rows);
    var mine := Keep(RatedFor(athleteId), past);
    var s := SortBy(mine, LatestFirst(tie));
    DistinctPast(rows, PlayedBefore(asOf));
    DistinctPast(past, RatedFor(athleteId));
    KeepIn(PlayedBefore(asOf), rows);
    KeepIn(RatedFor(athleteId), past);
    SortSorts(mine, LatestFirst(tie));
    SortPermutation(mine, LatestFirst(tie));
    SameItems(s, mine);
    var i :| 0 <= i < |Top(s, lookback)| && Top(s, lookback)[i] == x;
    var j :| 0 <= j < |s| && s[j] == y;
    assert s[i] == x && s[i] in s;
    TopHolds(s, lookback);
    assert LatestFirst(tie)(s[i], s[j]);
  }
}
