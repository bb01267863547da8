/** What the athlete's figures are: the ratings shown, their average, and the average minutes of those who have any. */
module FeatureMeaning {
  import opened Options
  import opened Sequences
  import opened FeatureStore

  /** The rating shown for a match: the displayed one, or else the raw one. */
  predicate Shows(rating: real, row: RatingRow) {
    match row.display
    case Some(shown) => rating == shown
    case None => rating == row.raw
  }

  /** A rating that counts: the athlete's own, eligible, of a match kicked off before the instant. */
  predicate Counts(row: RatingRow, athleteId: nat, asOf: Instant) {
    row.athleteId == athleteId && row.eligible && row.kickoffAt.Some? && row.kickoffAt.value < asOf
  }

  function CountOf(rows: seq<RatingRow>, athleteId: nat, asOf: Instant): nat {
    if rows == [] then 0
    else
      CountOf(rows[..|rows| - 1], athleteId, asOf)
      + if Counts(rows[|rows| - 1], athleteId, asOf) then 1 else 0
  }

  lemma {:induction false} CountedRows(rows: seq<RatingRow>, athleteId: nat, asOf: Instant)
    ensures |Keep(RatedFor(athleteId), Keep(PlayedBefore(asOf), rows))| == CountOf(rows, athleteId, asOf)
  {
    if rows != [] {
      var t, x := rows[..|rows| - 1], rows[|rows| - 1];
      CountedRows(t, athleteId, asOf);
      KeepAppend(RatedFor(athleteId), Keep(PlayedBefore(asOf), t), [x]);
      assert Keep(RatedFor(athleteId), [x]) == if RatedFor(athleteId)(x) then [x] else [];
    }
  }

  /** All rows that count, the latest kickoff first. */
  lemma RankedRows(rows: seq<RatingRow>, athleteId: nat, asOf: Instant, tie: TieBreak) returns (ranked: seq<RatingRow>)
    requires Settles(tie) && DistinctRows(rows)
    ensures ranked == SortBy(Keep(RatedFor(athleteId), Keep(PlayedBefore(asOf), rows)), LatestFirst(tie))
    ensures |ranked| == CountOf(rows, athleteId, asOf) && SortedBy(ranked, LatestFirst(tie))
    ensures forall row :: row in ranked ==> row in rows && Counts(row, athleteId, asOf)
  {
    var past := Keep(PlayedBefore(asOf), rows);
    var mine := Keep(RatedFor(athleteId), past);
    ranked := SortBy(mine, LatestFirst(tie));
    CountedRows(rows, athleteId, asOf);
    DistinctPast(rows, PlayedBefore(asOf));
    DistinctPast(past, RatedFor(athleteId));
    KeepIn(PlayedBefore(asOf), rows);
    KeepIn(RatedFor(athleteId), past);
    SortSorts(mine, LatestFirst(tie));
    SortPermutation(mine, LatestFirst(tie));
    SameItems(ranked, mine);
  }

  /** The rows used: as many as count, up to the lookback, the latest kickoff first. */
  lemma UsedRows(rows: seq<RatingRow>, athleteId: nat, asOf: Instant, lookback: nat, tie: TieBreak)
    requires Settles(tie) && DistinctRows(rows)
    ensures var used := Recent(rows, athleteId, asOf, lookback, tie);
      && |used| == (if CountOf(rows, athleteId, asOf) < lookback then CountOf(rows, athleteId, asOf) else lookback)
      && (forall i :: 0 <= i < |used| ==> used[i] in rows && Counts(used[i], athleteId, asOf))
      && (forall i, j :: 0 <= i < j < |used| ==> used[i].kickoffAt.value >= used[j].kickoffAt.value)
  {
    var ranked := RankedRows(rows, athleteId, asOf, tie);
    var used := Recent(rows, athleteId, asOf, lookback, tie);
    forall i | 0 <= i < |used| ensures used[i] == ranked[i] && used[i] in rows && Counts(used[i], athleteId, asOf) {
      assert ranked[i] in ranked;
    }
    forall i, j | 0 <= i < j < |used| ensures used[i].kickoffAt.value >= used[j].kickoffAt.value {
      assert LatestFirst(tie)(ranked[i], ranked[j]);
    }
  }

  /** Rating by rating, from the latest match back. */
  lemma RatingsShown(rows: seq<RatingRow>, athleteId: nat, asOf: Instant, lookback: nat, tie: TieBreak)
    ensures var used := Recent(rows, athleteId, asOf, lookback, tie);
      var features := BuildFeatures(rows, athleteId, asOf, lookback, tie);
      && |features.recentRatings| == |used|
      && forall i :: 0 <= i < |used| ==> Shows(features.recentRatings[i], used[i])
  {
  }

  /** The total from the front. */
  function Total(values: seq<real>): real {
    if values == [] then 0.0 else values[0] + Total(values[1..])
  }

  lemma {:induction false} TotalLast(values: seq<real>, last: real)
    ensures Total(values + [last]) == Total(values) + last
  {
    if values == [] {
      assert [last][1..] == [];
    } else {
      assert (values + [last])[1..] == values[1..] + [last];
      TotalLast(values[1..], last);
    }
  }

  lemma {:induction false} SumIsTotal(values: seq<real>)
    ensures Sum(values) == Total(values)
  {
    if values != [] {
      var t, last := values[..|values| - 1], values[|values| - 1];
      SumIsTotal(t);
      TotalLast(t, last);
      assert values == t + [last];
    }
  }

  /** An average times the number of values is their total; of nothing there is none. */
  ghost predicate Averages(mean: Option<real>, values: seq<real>) {
    if values == [] then mean.None? else mean.Some? && mean.value * |values| as real == Total(values)
  }

  lemma MeanAverages(values: seq<real>)
    ensures Averages(Mean(values), values)
  {
    SumIsTotal(values);
  }

  /** The minutes of the rows that have any, in order. */
  function MinutesKnown(rows: seq<RatingRow>): seq<real> {
    if rows == [] then []
    else (if rows[0].minutes.Some? then [rows[0].minutes.value as real] else []) + MinutesKnown(rows[1..])
  }

  lemma {:induction false} MinutesKnownLast(rows: seq<RatingRow>, last: RatingRow)
    ensures MinutesKnown(rows + [last])
         == MinutesKnown(rows) + if last.minutes.Some? then [last.minutes.value as real] else []
  {
    if rows == [] {
      assert [last][1..] == [];
    } else {
      var tail := rows[1..] + [last];
      assert rows + [last] == [rows[0]] + tail && (rows + [last])[1..] == tail;
      MinutesKnownLast(rows[1..], last);
    }
  }

  lemma {:induction false} MinutesAreKnown(rows: seq<RatingRow>)
    ensures MinutesOf(rows) == MinutesKnown(rows)
  {
    var known := (row: RatingRow) => row.minutes.Some?;
    if rows != [] {
      var t, last := rows[..|rows| - 1], rows[|rows| - 1];
      MinutesAreKnown(t);
      MinutesKnownLast(t, last);
      MinutesOne(t, last);
      assert rows == t + [last];
    }
  }

  lemma MinutesOne(rows: seq<RatingRow>, last: RatingRow)
    ensures MinutesOf(rows + [last]) == MinutesOf(rows) + if last.minutes.Some? then [last.minutes.value as real] else []
  {
    assert (rows + [last])[..|rows|] == rows;
  }

  /** The average rating is that of the ratings shown, and the average minutes that of the minutes known. */
  lemma AveragesMean(rows: seq<RatingRow>, athleteId: nat, asOf: Instant, lookback: nat, tie: TieBreak)
    ensures var used := Recent(rows, athleteId, asOf, lookback, tie);
      var features := BuildFeatures(rows, athleteId, asOf, lookback, tie);
      && Averages(features.avgRating, features.recentRatings)
      && Averages(features.recentMinutesAvg, MinutesKnown(used))
  {
    var used := Recent(rows, athleteId, asOf, lookback, tie);
    var features := BuildFeatures(rows, athleteId, asOf, lookback, tie);
    MeanAverages(features.recentRatings);
    MinutesAreKnown(used);
    MeanAverages(MinutesOf(used));
  }
}
