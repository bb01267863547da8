/** Facts about identifiers, orders and totals that bench and starters share. */
module LineupSelection {
  import opened Sequences
  import opened LineupModel

  /* ---- distinct athletes ---- */

  lemma StrictByScore(byId: map<Uuid, CandidateInput>)
    ensures StrictOrder(ByScore(byId))
  {
  }

  lemma DistinctComparable(s: seq<ScoredCandidate>, byId: map<Uuid, CandidateInput>)
    requires DistinctIds(s)
    ensures Comparable(s, ByScore(byId))
  {
  }

  lemma {:induction false} DistinctCount(s: seq<ScoredCandidate>, x: ScoredCandidate)
    requires DistinctIds(s)
    ensures multiset(s)[x] == if x in s then 1 else 0
  {
    if s != [] {
      assert s == s[..|s| - 1] + [s[|s| - 1]];
      DistinctCount(s[..|s| - 1], x);
    }
  }

  lemma RepeatCount(s: seq<ScoredCandidate>, i: nat, j: nat)
    requires i < j < |s| && s[i] == s[j]
    ensures multiset(s)[s[i]] >= 2
  {
    assert s == s[..j] + s[j..];
    assert s[i] in s[..j] && s[i] in s[j..];
  }

  lemma DistinctPermutation(a: seq<ScoredCandidate>, b: seq<ScoredCandidate>)
    requires multiset(a) == multiset(b) && DistinctIds(a)
    ensures DistinctIds(b)
  {
    SameItems(a, b);
    forall i, j | 0 <= i < j < |b| ensures b[i].athleteId != b[j].athleteId {
      if b[i].athleteId == b[j].athleteId {
        assert b[i] in a && b[j] in a;
        assert b[i] == b[j];
        RepeatCount(b, i, j);
        DistinctCount(a, b[i]);
      }
    }
  }

  lemma {:induction false} DistinctKeep(p: ScoredCandidate -> bool, s: seq<ScoredCandidate>)
    requires DistinctIds(s)
    ensures DistinctIds(Keep(p, s))
  {
    if s != [] {
      var t, x := s[..|s| - 1], s[|s| - 1];
      DistinctKeep(p, t);
      KeepIn(p, t);
      forall i | 0 <= i < |Keep(p, t)| ensures Keep(p, t)[i].athleteId != x.athleteId {
        assert Keep(p, t)[i] in Keep(p, t);
      }
    }
  }

  lemma IdSetAppend(a: seq<ScoredCandidate>, b: seq<ScoredCandidate>)
    ensures IdSet(a + b) == IdSet(a) + IdSet(b)
  {
  }

  /** Two athletes of a roster with the same identifier are the same entry. */
  lemma SameIdSameItem(s: seq<ScoredCandidate>, x: ScoredCandidate, y: ScoredCandidate)
    requires DistinctIds(s) && x in s && y in s && x.athleteId == y.athleteId
    ensures x == y
  {
  }

  /** Removing the identifiers of a prefix leaves the rest. */
  lemma {:induction false} KeepAfterPrefix(s: seq<ScoredCandidate>, n: nat, used: set<Uuid>)
    requires n <= |s|
    requires forall i :: 0 <= i < |s| ==> (s[i].athleteId in used <==> i < n)
    ensures Keep(NotIn(used), s) == s[n..]
  {
    assert s == s[..n] + s[n..];
    KeepAppend(NotIn(used), s[..n], s[n..]);
    KeepNone(NotIn(used), s[..n]);
    KeepAll(NotIn(used), s[n..]);
  }

  /** If a group holds a role's first `n`, identifiers tell those `n` from the rest. */
  lemma PrefixMembership(
    group: seq<ScoredCandidate>, pool: seq<ScoredCandidate>, role: FantasyRole, s: seq<ScoredCandidate>, n: nat)
    requires DistinctIds(pool) && DistinctIds(s) && n <= |s|
    requires forall x :: x in group ==> x in pool
    requires forall x :: x in s ==> x in pool && x.role == role
    requires Keep(HasRole(role), group) == s[..n]
    ensures forall i :: 0 <= i < |s| ==> (s[i].athleteId in IdSet(group) <==> i < n)
  {
    KeepIn(HasRole(role), group);
    forall i | 0 <= i < |s| ensures s[i].athleteId in IdSet(group) <==> i < n {
      assert s[i] in s;
      if s[i].athleteId in IdSet(group) {
        var x :| x in group && x.athleteId == s[i].athleteId;
        SameIdSameItem(pool, x, s[i]);
        assert x in s[..n];
      }
      if i < n {
        assert s[..n][i] in s[..n];
      }
    }
  }

  /* ---- splitting by role ---- */

  lemma {:induction false} RoleLengths(s: seq<ScoredCandidate>)
    ensures |s| == |Keep(HasRole(P), s)| + |Keep(HasRole(D), s)| + |Keep(HasRole(C), s)| + |Keep(HasRole(A), s)|
  {
    if s != [] {
      RoleLengths(s[..|s| - 1]);
    }
  }

  lemma RolesDecide(a: seq<ScoredCandidate>, b: seq<ScoredCandidate>)
    requires forall r: FantasyRole :: multiset(Keep(HasRole(r), a)) == multiset(Keep(HasRole(r), b))
    ensures multiset(a) == multiset(b)
  {
    forall x: ScoredCandidate ensures multiset(a)[x] == multiset(b)[x] {
      assert multiset(Keep(HasRole(x.role), a)) == multiset(Keep(HasRole(x.role), b));
      KeepCount(HasRole(x.role), a, x);
      KeepCount(HasRole(x.role), b, x);
    }
    assert multiset(a) == multiset(b);
  }

  /* ---- totals over a chosen set of athletes ---- */

  /** How many athletes of `s` the team `chosen` takes. */
  ghost function HeadCount(s: seq<ScoredCandidate>, chosen: set<Uuid>): nat {
    if s == [] then 0
    else HeadCount(s[1..], chosen) + if s[0].athleteId in chosen then 1 else 0
  }

  /** The total with `price` taken off every head. */
  ghost function Surplus(s: seq<ScoredCandidate>, chosen: set<Uuid>, price: real): real {
    if s == [] then 0.0
    else Surplus(s[1..], chosen, price) + if s[0].athleteId in chosen then s[0].score - price else 0.0
  }

  /** The total score of the athletes of `s` the team `chosen` takes. */
  ghost function TotalScore(s: seq<ScoredCandidate>, chosen: set<Uuid>): real {
    Surplus(s, chosen, 0.0)
  }

  /** A price paid once for each head. */
  ghost function Cost(price: real, heads: nat): real {
    if heads == 0 then 0.0 else Cost(price, heads - 1) + price
  }

  lemma {:induction false} SurplusIsTotalLessPrice(s: seq<ScoredCandidate>, chosen: set<Uuid>, price: real)
    ensures Surplus(s, chosen, price) == TotalScore(s, chosen) - Cost(price, HeadCount(s, chosen))
  {
    if s != [] {
      SurplusIsTotalLessPrice(s[1..], chosen, price);
    }
  }

  lemma {:induction false} HeadCountAppend(a: seq<ScoredCandidate>, b: seq<ScoredCandidate>, chosen: set<Uuid>)
    ensures HeadCount(a + b, chosen) == HeadCount(a, chosen) + HeadCount(b, chosen)
  {
    if a == [] {
      assert a + b == b;
    } else {
      assert (a + b)[1..] == a[1..] + b;
      HeadCountAppend(a[1..], b, chosen);
    }
  }

  lemma {:induction false} SurplusAppend(
    a: seq<ScoredCandidate>, b: seq<ScoredCandidate>, chosen: set<Uuid>, price: real)
    ensures Surplus(a + b, chosen, price) == Surplus(a, chosen, price) + Surplus(b, chosen, price)
  {
    if a == [] {
      assert a + b == b;
    } else {
      assert (a + b)[1..] == a[1..] + b;
      SurplusAppend(a[1..], b, chosen, price);
    }
  }

  lemma {:induction false} InsertTotals(
    x: ScoredCandidate, s: seq<ScoredCandidate>, less: (ScoredCandidate, ScoredCandidate) -> bool, chosen: set<Uuid>, price: real)
    ensures HeadCount(InsertBy(x, s, less), chosen) == HeadCount(s + [x], chosen)
    ensures Surplus(InsertBy(x, s, less), chosen, price) == Surplus(s + [x], chosen, price)
  {
    if s != [] && !less(s[|s| - 1], x) {
      var t, y := s[..|s| - 1], s[|s| - 1];
      InsertTotals(x, t, less, chosen, price);
      assert s == t + [y];
      HeadCountAppend(InsertBy(x, t, less), [y], chosen);
      SurplusAppend(InsertBy(x, t, less), [y], chosen, price);
      HeadCountAppend(t, [x], chosen);
      SurplusAppend(t, [x], chosen, price);
      HeadCountAppend(t, [y], chosen);
      SurplusAppend(t, [y], chosen, price);
      HeadCountAppend(s, [x], chosen);
      SurplusAppend(s, [x], chosen, price);
    } else if s == [] {
      assert s + [x] == [x];
    }
  }

  lemma {:induction false} SortTotals(
    s: seq<ScoredCandidate>, less: (ScoredCandidate, ScoredCandidate) -> bool, chosen: set<Uuid>, price: real)
    ensures HeadCount(SortBy(s, less), chosen) == HeadCount(s, chosen)
    ensures Surplus(SortBy(s, less), chosen, price) == Surplus(s, chosen, price)
  {
    if s != [] {
      var t, x := s[..|s| - 1], s[|s| - 1];
      assert s == t + [x];
      SortTotals(t, less, chosen, price);
      InsertTotals(x, SortBy(t, less), less, chosen, price);
      HeadCountAppend(SortBy(t, less), [x], chosen);
      SurplusAppend(SortBy(t, less), [x], chosen, price);
      HeadCountAppend(t, [x], chosen);
      SurplusAppend(t, [x], chosen, price);
    }
  }

  lemma {:induction false} KeepHead(p: ScoredCandidate -> bool, s: seq<ScoredCandidate>)
    requires s != []
    ensures Keep(p, s) == (if p(s[0]) then [s[0]] else []) + Keep(p, s[1..])
  {
    assert s == [s[0]] + s[1..];
    KeepAppend(p, [s[0]], s[1..]);
    assert Keep(p, [s[0]]) == if p(s[0]) then [s[0]] else [];
  }

  lemma {:induction false} TotalsByRole(s: seq<ScoredCandidate>, chosen: set<Uuid>, price: real)
    ensures HeadCount(s, chosen)
         == HeadCount(Keep(HasRole(P), s), chosen) + HeadCount(Keep(HasRole(D), s), chosen)
          + HeadCount(Keep(HasRole(C), s), chosen) + HeadCount(Keep(HasRole(A), s), chosen)
    ensures Surplus(s, chosen, price)
         == Surplus(Keep(HasRole(P), s), chosen, price) + Surplus(Keep(HasRole(D), s), chosen, price)
          + Surplus(Keep(HasRole(C), s), chosen, price) + Surplus(Keep(HasRole(A), s), chosen, price)
  {
    if s != [] {
      TotalsByRole(s[1..], chosen, price);
      forall r: FantasyRole
        ensures HeadCount(Keep(HasRole(r), s), chosen) == HeadCount(Keep(HasRole(r), s[1..]), chosen)
             + (if s[0].role == r && s[0].athleteId in chosen then 1 else 0)
        ensures Surplus(Keep(HasRole(r), s), chosen, price) == Surplus(Keep(HasRole(r), s[1..]), chosen, price)
             + (if s[0].role == r && s[0].athleteId in chosen then s[0].score - price else 0.0)
      {
        RoleHeadTotals(r, s, chosen, price);
      }
    }
  }

  lemma RoleHeadTotals(r: FantasyRole, s: seq<ScoredCandidate>, chosen: set<Uuid>, price: real)
    requires s != []
    ensures HeadCount(Keep(HasRole(r), s), chosen) == HeadCount(Keep(HasRole(r), s[1..]), chosen)
         + (if s[0].role == r && s[0].athleteId in chosen then 1 else 0)
    ensures Surplus(Keep(HasRole(r), s), chosen, price) == Surplus(Keep(HasRole(r), s[1..]), chosen, price)
         + (if s[0].role == r && s[0].athleteId in chosen then s[0].score - price else 0.0)
  {
    KeepHead(HasRole(r), s);
    var tail := Keep(HasRole(r), s[1..]);
    if s[0].role == r {
      assert ([s[0]] + tail)[1..] == tail;
    } else {
      assert [] + tail == tail;
    }
  }

  lemma {:induction false} HeadCountBound(s: seq<ScoredCandidate>, chosen: set<Uuid>)
    ensures HeadCount(s, chosen) <= |s|
    ensures (forall x :: x in s ==> x.athleteId in chosen) ==> HeadCount(s, chosen) == |s|
    ensures (forall x :: x in s ==> x.athleteId !in chosen) ==> HeadCount(s, chosen) == 0
  {
    if s != [] {
      HeadCountBound(s[1..], chosen);
      assert s[0] in s;
      assert forall x :: x in s[1..] ==> x in s;
    }
  }

  /* ---- the exchange argument inside one ranked list ---- */

  ghost predicate ScoresFall(s: seq<ScoredCandidate>) {
    forall i, j :: 0 <= i < j < |s| ==> s[i].score >= s[j].score
  }

  lemma SortedScoresFall(s: seq<ScoredCandidate>, byId: map<Uuid, CandidateInput>)
    requires SortedBy(s, ByScore(byId))
    ensures ScoresFall(s)
  {
  }

  lemma {:induction false} SurplusOfNone(s: seq<ScoredCandidate>, chosen: set<Uuid>, price: real)
    requires forall x :: x in s ==> x.score <= price
    ensures Surplus(s, chosen, price) <= 0.0
  {
    if s != [] {
      assert s[0] in s;
      assert forall x :: x in s[1..] ==> x in s;
      SurplusOfNone(s[1..], chosen, price);
    }
  }

  /** The surplus of the first `n` places, all of them taken. */
  ghost function PrefixSurplus(s: seq<ScoredCandidate>, n: nat, price: real): real
    requires n <= |s|
  {
    if n == 0 then 0.0 else PrefixSurplus(s[1..], n - 1, price) + s[0].score - price
  }

  lemma {:induction false} PrefixSurplusLast(s: seq<ScoredCandidate>, n: nat, price: real)
    requires 0 < n <= |s|
    ensures PrefixSurplus(s, n, price) == PrefixSurplus(s, n - 1, price) + s[n - 1].score - price
  {
    if n > 1 {
      PrefixSurplusLast(s[1..], n - 1, price);
    }
  }

  lemma {:induction false} PrefixIsChosen(s: seq<ScoredCandidate>, n: nat, chosen: set<Uuid>, price: real)
    requires n <= |s|
    requires forall i :: 0 <= i < |s| ==> (s[i].athleteId in chosen <==> i < n)
    ensures Surplus(s, chosen, price) == PrefixSurplus(s, n, price)
    ensures HeadCount(s, chosen) == n
  {
    if s != [] {
      forall i | 0 <= i < |s[1..]| ensures s[1..][i].athleteId in chosen <==> i < n - 1 {
        assert s[1..][i] == s[i + 1];
      }
      PrefixIsChosen(s[1..], if n == 0 then 0 else n - 1, chosen, price);
    }
  }

  /**
   * Nobody beats the first `n` of a ranked list when everyone after place `n`
   * is worth at most `price`, and either the challenger also takes `n` heads
   * or the whole prefix is worth at least `price`.
   */
  lemma {:induction false} PrefixWins(s: seq<ScoredCandidate>, chosen: set<Uuid>, n: nat, price: real)
    requires n <= |s| && ScoresFall(s)
    requires forall i :: n <= i < |s| ==> s[i].score <= price
    requires HeadCount(s, chosen) >= n || forall i :: 0 <= i < n ==> s[i].score >= price
    ensures Surplus(s, chosen, price) <= PrefixSurplus(s, n, price)
  {
    if n == 0 {
      SurplusOfNone(s, chosen, price);
    } else {
      var t := s[1..];
      assert ScoresFall(t) by {
        forall i, j | 0 <= i < j < |t| ensures t[i].score >= t[j].score {
          assert t[i] == s[i + 1] && t[j] == s[j + 1];
        }
      }
      if s[0].athleteId in chosen || forall i :: 0 <= i < n ==> s[i].score >= price {
        PrefixWins(t, chosen, n - 1, price);
      } else {
        HeadCountBound(t, chosen);
        PrefixWins(t, chosen, n, price);
        PrefixSurplusLast(t, n, price);
        assert t[n - 1] == s[n];
      }
    }
  }

  /** At this price per head `best` is worth at least as much as `team` within `s`. */
  ghost predicate NoGain(s: seq<ScoredCandidate>, team: set<Uuid>, best: set<Uuid>, price: real) {
    Surplus(s, team, price) <= Surplus(s, best, price)
  }

  lemma PrefixBeats(s: seq<ScoredCandidate>, team: set<Uuid>, best: set<Uuid>, n: nat, price: real)
    requires n <= |s| && ScoresFall(s)
    requires forall i :: n <= i < |s| ==> s[i].score <= price
    requires HeadCount(s, team) >= n || forall i :: 0 <= i < n ==> s[i].score >= price
    requires forall i :: 0 <= i < |s| ==> (s[i].athleteId in best <==> i < n)
    ensures NoGain(s, team, best, price)
  {
    PrefixWins(s, team, n, price);
    PrefixIsChosen(s, n, best, price);
  }

  lemma NoGainUnsorted(
    s: seq<ScoredCandidate>, less: (ScoredCandidate, ScoredCandidate) -> bool,
    team: set<Uuid>, best: set<Uuid>, price: real)
    requires NoGain(SortBy(s, less), team, best, price)
    ensures NoGain(s, team, best, price)
  {
    SortTotals(s, less, team, price);
    SortTotals(s, less, best, price);
  }

  lemma NoGainByRole(pool: seq<ScoredCandidate>, team: set<Uuid>, best: set<Uuid>, price: real)
    requires forall r: FantasyRole :: NoGain(Keep(HasRole(r), pool), team, best, price)
    ensures NoGain(pool, team, best, price)
  {
    assert NoGain(Keep(HasRole(P), pool), team, best, price) && NoGain(Keep(HasRole(D), pool), team, best, price);
    assert NoGain(Keep(HasRole(C), pool), team, best, price) && NoGain(Keep(HasRole(A), pool), team, best, price);
    TotalsByRole(pool, team, price);
    TotalsByRole(pool, best, price);
  }

  /** If no role gains, no team of the same size gains. */
  lemma NoGainOverall(pool: seq<ScoredCandidate>, team: set<Uuid>, best: set<Uuid>, price: real)
    requires forall r: FantasyRole :: NoGain(Keep(HasRole(r), pool), team, best, price)
    requires HeadCount(pool, team) == HeadCount(pool, best)
    ensures TotalScore(pool, team) <= TotalScore(pool, best)
  {
    NoGainByRole(pool, team, best, price);
    SurplusIsTotalLessPrice(pool, team, price);
    SurplusIsTotalLessPrice(pool, best, price);
  }
}
