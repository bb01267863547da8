/** Options and the sequence operations the models share: keep, sort, cut. */
module Options {
  datatype Option<+T> = None | Some(value: T)
}

module Sequences {
  /** The items of `s` that satisfy `p`, in order. */
  function Keep<T>(p: T -> bool, s: seq<T>): seq<T> {
    if s == [] then []
    else if p(s[|s| - 1]) then Keep(p, s[..|s| - 1]) + [s[|s| - 1]]
    else Keep(p, s[..|s| - 1])
  }

  /** The first `n` items, or all of them; none when `n` is negative. */
  function Top<T>(s: seq<T>, n: int): seq<T> {
    if n <= 0 then [] else if n >= |s| then s else s[..n]
  }

  function InsertBy<T>(x: T, s: seq<T>, less: (T, T) -> bool): seq<T> {
    if s == [] then [x]
    else if less(s[|s| - 1], x) then s + [x]
    else InsertBy(x, s[..|s| - 1], less) + [s[|s| - 1]]
  }

  /** What a library sort computes for a strict order on the items of `s`. */
  function SortBy<T>(s: seq<T>, less: (T, T) -> bool): seq<T> {
    if s == [] then [] else InsertBy(s[|s| - 1], SortBy(s[..|s| - 1], less), less)
  }

  ghost predicate StrictOrder<T(!new)>(less: (T, T) -> bool) {
    && (forall a :: !less(a, a))
    && (forall a, b, c :: less(a, b) && less(b, c) ==> less(a, c))
  }

  /** Any two places of `s` hold items that `less` tells apart. */
  ghost predicate Comparable<T>(s: seq<T>, less: (T, T) -> bool) {
    forall i, j :: 0 <= i < j < |s| ==> less(s[i], s[j]) || less(s[j], s[i])
  }

  ghost predicate SortedBy<T>(s: seq<T>, less: (T, T) -> bool) {
    forall i, j :: 0 <= i < j < |s| ==> less(s[i], s[j])
  }

  /* ---- keep ---- */

  lemma {:induction false} KeepCount<T(!new)>(p: T -> bool, s: seq<T>, x: T)
    ensures multiset(Keep(p, s))[x] == if p(x) then multiset(s)[x] else 0
  {
    if s != [] {
      assert s == s[..|s| - 1] + [s[|s| - 1]];
      KeepCount(p, s[..|s| - 1], x);
    }
  }

  lemma {:induction false} KeepIn<T(!new)>(p: T -> bool, s: seq<T>)
    ensures forall x :: x in Keep(p, s) <==> x in s && p(x)
    ensures |Keep(p, s)| <= |s|
  {
    if s != [] {
      assert s == s[..|s| - 1] + [s[|s| - 1]];
      KeepIn(p, s[..|s| - 1]);
    }
  }

  lemma KeepPermutation<T(!new)>(p: T -> bool, a: seq<T>, b: seq<T>)
    requires multiset(a) == multiset(b)
    ensures multiset(Keep(p, a)) == multiset(Keep(p, b))
  {
    forall x ensures multiset(Keep(p, a))[x] == multiset(Keep(p, b))[x] {
      KeepCount(p, a, x);
      KeepCount(p, b, x);
    }
    assert multiset(Keep(p, a)) == multiset(Keep(p, b));
  }

  lemma {:induction false} KeepAppend<T(!new)>(p: T -> bool, a: seq<T>, b: seq<T>)
    ensures Keep(p, a + b) == Keep(p, a) + Keep(p, b)
  {
    if b == [] {
      assert a + b == a;
    } else {
      assert (a + b)[..|a + b| - 1] == a + b[..|b| - 1];
      KeepAppend(p, a, b[..|b| - 1]);
    }
  }

  lemma {:induction false} KeepAll<T(!new)>(p: T -> bool, s: seq<T>)
    requires forall x :: x in s ==> p(x)
    ensures Keep(p, s) == s
  {
    if s != [] {
      KeepAll(p, s[..|s| - 1]);
      assert s == s[..|s| - 1] + [s[|s| - 1]];
    }
  }

  lemma {:induction false} KeepNone<T(!new)>(p: T -> bool, s: seq<T>)
    requires forall x :: x in s ==> !p(x)
    ensures Keep(p, s) == []
  {
    if s != [] {
      KeepNone(p, s[..|s| - 1]);
    }
  }

  lemma {:induction false} KeepCommutes<T(!new)>(p: T -> bool, q: T -> bool, s: seq<T>)
    ensures Keep(p, Keep(q, s)) == Keep(q, Keep(p, s))
  {
    if s != [] {
      var t, x := s[..|s| - 1], s[|s| - 1];
      KeepCommutes(p, q, t);
      KeepAppend(p, Keep(q, t), [x]);
      KeepAppend(q, Keep(p, t), [x]);
      assert Keep(p, [x]) == if p(x) then [x] else [];
      assert Keep(q, [x]) == if q(x) then [x] else [];
    }
  }

  /** Filtering a prefix gives a prefix of what filtering the whole gives. */
  lemma KeepOfPrefix<T(!new)>(p: T -> bool, s: seq<T>, n: nat)
    requires n <= |s|
    ensures |Keep(p, s[..n])| <= |Keep(p, s)|
    ensures Keep(p, s[..n]) == Keep(p, s)[..|Keep(p, s[..n])|]
    ensures Keep(p, s[n..]) == Keep(p, s)[|Keep(p, s[..n])|..]
  {
    assert s == s[..n] + s[n..];
    KeepAppend(p, s[..n], s[n..]);
  }

  lemma {:induction false} KeepSplits<T(!new)>(p: T -> bool, q: T -> bool, s: seq<T>)
    requires forall x :: x in s ==> p(x) == !q(x)
    ensures multiset(Keep(p, s)) + multiset(Keep(q, s)) == multiset(s)
  {
    if s != [] {
      assert s == s[..|s| - 1] + [s[|s| - 1]];
      KeepSplits(p, q, s[..|s| - 1]);
    }
  }

  /* ---- sort ---- */

  lemma {:induction false} InsertPermutation<T(!new)>(x: T, s: seq<T>, less: (T, T) -> bool)
    ensures multiset(InsertBy(x, s, less)) == multiset(s) + multiset{x}
  {
    if s != [] {
      assert s == s[..|s| - 1] + [s[|s| - 1]];
      InsertPermutation(x, s[..|s| - 1], less);
    }
  }

  lemma {:induction false} SortPermutation<T(!new)>(s: seq<T>, less: (T, T) -> bool)
    ensures multiset(SortBy(s, less)) == multiset(s)
    ensures |SortBy(s, less)| == |s|
  {
    if s != [] {
      assert s == s[..|s| - 1] + [s[|s| - 1]];
      SortPermutation(s[..|s| - 1], less);
      InsertPermutation(s[|s| - 1], SortBy(s[..|s| - 1], less), less);
      assert |SortBy(s, less)| == |multiset(SortBy(s, less))| == |multiset(s)| == |s|;
    }
  }

  lemma SameItems<T(!new)>(a: seq<T>, b: seq<T>)
    requires multiset(a) == multiset(b)
    ensures |a| == |b|
    ensures forall x :: x in a <==> x in b
  {
    assert |a| == |multiset(a)| && |b| == |multiset(b)|;
    forall x ensures x in a <==> x in b {
      assert x in a <==> x in multiset(a);
      assert x in b <==> x in multiset(b);
    }
  }

  lemma AppendSorted<T(!new)>(s: seq<T>, y: T, less: (T, T) -> bool)
    requires SortedBy(s, less) && forall z :: z in s ==> less(z, y)
    ensures SortedBy(s + [y], less)
  {
  }

  lemma SortedBelowLast<T(!new)>(s: seq<T>, x: T, less: (T, T) -> bool)
    requires StrictOrder(less) && SortedBy(s, less) && s != [] && less(s[|s| - 1], x)
    ensures forall z :: z in s ==> less(z, x)
  {
  }

  lemma {:induction false} InsertSorted<T(!new)>(x: T, s: seq<T>, less: (T, T) -> bool)
    requires StrictOrder(less) && SortedBy(s, less)
    requires forall y :: y in s ==> less(x, y) || less(y, x)
    ensures SortedBy(InsertBy(x, s, less), less)
  {
    if s == [] {
    } else if less(s[|s| - 1], x) {
      SortedBelowLast(s, x, less);
      AppendSorted(s, x, less);
    } else {
      var t, y := s[..|s| - 1], s[|s| - 1];
      var r := InsertBy(x, t, less);
      InsertSorted(x, t, less);
      InsertPermutation(x, t, less);
      SameItems(r, t + [x]);
      assert y in s;
      AppendSorted(r, y, less);
    }
  }

  lemma {:induction false} SortSorts<T(!new)>(s: seq<T>, less: (T, T) -> bool)
    requires StrictOrder(less) && Comparable(s, less)
    ensures SortedBy(SortBy(s, less), less)
  {
    if s != [] {
      var t, x := s[..|s| - 1], s[|s| - 1];
      SortSorts(t, less);
      SortPermutation(t, less);
      SameItems(SortBy(t, less), t);
      forall y | y in SortBy(t, less) ensures less(x, y) || less(y, x) {
        var i :| 0 <= i < |t| && t[i] == y;
        assert s[i] == y;
      }
      InsertSorted(x, SortBy(t, less), less);
    }
  }

  lemma SortedLastIsMaximum<T(!new)>(a: seq<T>, b: seq<T>, less: (T, T) -> bool)
    requires StrictOrder(less) && SortedBy(a, less) && SortedBy(b, less)
    requires a != [] && b != [] && a[|a| - 1] in b && b[|b| - 1] in a
    ensures a[|a| - 1] == b[|b| - 1]
  {
  }

  lemma DropSharedLast<T(!new)>(a: seq<T>, b: seq<T>)
    requires multiset(a) == multiset(b) && a != [] && b != [] && a[|a| - 1] == b[|b| - 1]
    ensures multiset(a[..|a| - 1]) == multiset(b[..|b| - 1])
  {
    assert a == a[..|a| - 1] + [a[|a| - 1]];
    assert b == b[..|b| - 1] + [b[|b| - 1]];
    assert multiset(a[..|a| - 1]) == multiset(a) - multiset{a[|a| - 1]};
    assert multiset(b[..|b| - 1]) == multiset(b) - multiset{b[|b| - 1]};
  }

  /** A strict order leaves one way to arrange a collection. */
  lemma {:induction false} SortedUnique<T(!new)>(a: seq<T>, b: seq<T>, less: (T, T) -> bool)
    requires StrictOrder(less) && SortedBy(a, less) && SortedBy(b, less)
    requires multiset(a) == multiset(b)
    ensures a == b
  {
    SameItems(a, b);
    if a != [] {
      assert a[|a| - 1] in a && b[|b| - 1] in b;
      SortedLastIsMaximum(a, b, less);
      DropSharedLast(a, b);
      SortedUnique(a[..|a| - 1], b[..|b| - 1], less);
      assert a == a[..|a| - 1] + [a[|a| - 1]];
      assert b == b[..|b| - 1] + [b[|b| - 1]];
    }
  }

  lemma {:induction false} KeepSorted<T(!new)>(p: T -> bool, s: seq<T>, less: (T, T) -> bool)
    requires SortedBy(s, less)
    ensures SortedBy(Keep(p, s), less)
  {
    if s != [] {
      var t, x := s[..|s| - 1], s[|s| - 1];
      KeepSorted(p, t, less);
      KeepIn(p, t);
      forall i | 0 <= i < |Keep(p, t)| ensures less(Keep(p, t)[i], x) {
        assert Keep(p, t)[i] in t;
      }
    }
  }

  lemma {:induction false} KeepComparable<T(!new)>(p: T -> bool, s: seq<T>, less: (T, T) -> bool)
    requires Comparable(s, less)
    ensures Comparable(Keep(p, s), less)
  {
    if s != [] {
      var t, x := s[..|s| - 1], s[|s| - 1];
      KeepComparable(p, t, less);
      KeepIn(p, t);
      forall i | 0 <= i < |Keep(p, t)| ensures less(Keep(p, t)[i], x) || less(x, Keep(p, t)[i]) {
        assert Keep(p, t)[i] in Keep(p, t);
        var j :| 0 <= j < |t| && t[j] == Keep(p, t)[i];
        assert s[j] == t[j];
      }
    }
  }

  /** Sorting and filtering commute when the order is strict. */
  lemma SortKeep<T(!new)>(p: T -> bool, s: seq<T>, less: (T, T) -> bool)
    requires StrictOrder(less) && Comparable(s, less)
    ensures SortBy(Keep(p, s), less) == Keep(p, SortBy(s, less))
  {
    SortSorts(s, less);
    SortPermutation(s, less);
    KeepSorted(p, SortBy(s, less), less);
    KeepPermutation(p, SortBy(s, less), s);
    KeepComparable(p, s, less);
    SortSorts(Keep(p, s), less);
    SortPermutation(Keep(p, s), less);
    SortedUnique(SortBy(Keep(p, s), less), Keep(p, SortBy(s, less)), less);
  }

  /** Sorting forgets the order its input came in. */
  lemma SortForgetsOrder<T(!new)>(a: seq<T>, b: seq<T>, less: (T, T) -> bool)
    requires StrictOrder(less) && Comparable(a, less) && Comparable(b, less)
    requires multiset(a) == multiset(b)
    ensures SortBy(a, less) == SortBy(b, less)
  {
    SortSorts(a, less);
    SortSorts(b, less);
    SortPermutation(a, less);
    SortPermutation(b, less);
    SortedUnique(SortBy(a, less), SortBy(b, less), less);
  }

  /* ---- relabelling the items ---- */

  function MapSeq<T, U>(f: T -> U, s: seq<T>): (r: seq<U>)
    ensures |r| == |s| && forall i :: 0 <= i < |s| ==> r[i] == f(s[i])
  {
    seq(|s|, i requires 0 <= i < |s| => f(s[i]))
  }

  lemma {:induction false} MapKeep<T(!new), U>(f: T -> U, p: U -> bool, q: T -> bool, s: seq<T>)
    requires forall x :: x in s ==> p(f(x)) == q(x)
    ensures MapSeq(f, Keep(q, s)) == Keep(p, MapSeq(f, s))
  {
    if s != [] {
      MapKeep(f, p, q, s[..|s| - 1]);
      assert MapSeq(f, s)[..|s| - 1] == MapSeq(f, s[..|s| - 1]);
    }
  }

  lemma {:induction false} MapInsert<T(!new), U>(f: T -> U, x: T, s: seq<T>, l: (U, U) -> bool, m: (T, T) -> bool)
    requires forall a, b :: l(f(a), f(b)) == m(a, b)
    ensures MapSeq(f, InsertBy(x, s, m)) == InsertBy(f(x), MapSeq(f, s), l)
  {
    if s != [] {
      MapInsert(f, x, s[..|s| - 1], l, m);
      assert MapSeq(f, s)[..|s| - 1] == MapSeq(f, s[..|s| - 1]);
    }
  }

  lemma {:induction false} MapSort<T(!new), U>(f: T -> U, s: seq<T>, l: (U, U) -> bool, m: (T, T) -> bool)
    requires forall a, b :: l(f(a), f(b)) == m(a, b)
    ensures MapSeq(f, SortBy(s, m)) == SortBy(MapSeq(f, s), l)
  {
    if s != [] {
      MapSort(f, s[..|s| - 1], l, m);
      assert MapSeq(f, s)[..|s| - 1] == MapSeq(f, s[..|s| - 1]);
      MapInsert(f, s[|s| - 1], SortBy(s[..|s| - 1], m), l, m);
    }
  }

  lemma MapRemove<T(!new), U(!new)>(f: T -> U, s: seq<T>, j: nat)
    requires j < |s|
    ensures multiset(s) == multiset(s[..j] + s[j + 1..]) + multiset{s[j]}
    ensures multiset(MapSeq(f, s)) == multiset(MapSeq(f, s[..j] + s[j + 1..])) + multiset{f(s[j])}
  {
    assert s == s[..j] + [s[j]] + s[j + 1..];
    var left, right := MapSeq(f, s[..j]), MapSeq(f, s[j + 1..]);
    assert MapSeq(f, s) == left + [f(s[j])] + right;
    assert MapSeq(f, s[..j] + s[j + 1..]) == left + right;
  }

  lemma CancelItem<T(!new)>(m: multiset<T>, n: multiset<T>, x: T)
    requires m + multiset{x} == n + multiset{x}
    ensures m == n
  {
    assert m == (m + multiset{x}) - multiset{x} && n == (n + multiset{x}) - multiset{x};
  }

  lemma {:induction false} MapPermutation<T(!new), U(!new)>(f: T -> U, a: seq<T>, b: seq<T>)
    requires multiset(a) == multiset(b)
    ensures multiset(MapSeq(f, a)) == multiset(MapSeq(f, b))
  {
    SameItems(a, b);
    if a == [] {
      assert b == [];
    } else {
      assert a[0] in a;
      var j :| 0 <= j < |b| && b[j] == a[0];
      MapRemove(f, a, 0);
      MapRemove(f, b, j);
      CancelItem(multiset(a[..0] + a[1..]), multiset(b[..j] + b[j + 1..]), a[0]);
      MapPermutation(f, a[..0] + a[1..], b[..j] + b[j + 1..]);
    }
  }
}
