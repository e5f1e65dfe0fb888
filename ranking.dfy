/**
 * `sorted(rows, key=..., reverse=True)`: Python's sort is stable, and `reverse=True` keeps it
 * stable, so rows come out by non-increasing key with rows of equal key in their original order.
 */
module Ranking {

  predicate NonIncreasing<T>(s: seq<T>, key: T -> real) {
    forall i, j :: 0 <= i < j < |s| ==> key(s[i]) >= key(s[j])
  }

  /** `x` placed after every element whose key is at least its own. */
  function InsertDesc<T(==)>(x: T, s: seq<T>, key: T -> real): (r: seq<T>)
    requires NonIncreasing(s, key)
    ensures NonIncreasing(r, key)
    ensures multiset(r) == multiset(s) + multiset{x}
    ensures forall i :: 0 <= i < |r| ==> r[i] == x || r[i] in s
  {
    if s == [] || key(s[0]) < key(x) then [x] + s
    else
      var tl := InsertDesc(x, s[1..], key);
      assert s == [s[0]] + s[1..];
      InsertDescHead(x, s, tl, key);
      [s[0]] + tl
  }

  lemma InsertDescHead<T>(x: T, s: seq<T>, tl: seq<T>, key: T -> real)
    requires NonIncreasing(s, key) && NonIncreasing(tl, key) && s != [] && key(s[0]) >= key(x)
    requires forall i :: 0 <= i < |tl| ==> tl[i] == x || tl[i] in s[1..]
    ensures NonIncreasing([s[0]] + tl, key)
  {
    var r := [s[0]] + tl;
    forall i, j | 0 <= i < j < |r|
      ensures key(r[i]) >= key(r[j])
    {
      if i == 0 {
        assert r[j] == tl[j - 1];
        if tl[j - 1] != x {
          var m :| 0 <= m < |s[1..]| && s[1..][m] == tl[j - 1];
          assert s[m + 1] == tl[j - 1];
        }
      } else {
        assert r[i] == tl[i - 1] && r[j] == tl[j - 1];
      }
    }
  }

  /** The stable descending order, built by inserting the rows one after another. */
  function SortDesc<T(==)>(xs: seq<T>, key: T -> real): (r: seq<T>)
    ensures NonIncreasing(r, key)
    ensures multiset(r) == multiset(xs)
  {
    if xs == [] then []
    else
      assert xs == xs[..|xs| - 1] + [xs[|xs| - 1]];
      InsertDesc(xs[|xs| - 1], SortDesc(xs[..|xs| - 1], key), key)
  }

  lemma SortDescLength<T>(xs: seq<T>, key: T -> real)
    ensures |SortDesc(xs, key)| == |xs|
  {
    assert |multiset(SortDesc(xs, key))| == |multiset(xs)|;
  }

  /** The elements whose key is `k`, in order. */
  function WithKey<T>(s: seq<T>, k: real, key: T -> real): seq<T> {
    if s == [] then [] else Keep(s[0], k, key) + WithKey(s[1..], k, key)
  }

  /** `[x]` when `x` has key `k`, otherwise nothing. */
  function Keep<T>(x: T, k: real, key: T -> real): seq<T> {
    if key(x) == k then [x] else []
  }

  lemma {:induction false} WithKeyNone<T>(s: seq<T>, k: real, key: T -> real)
    requires forall i :: 0 <= i < |s| ==> key(s[i]) < k
    ensures WithKey(s, k, key) == []
  {
    if s != [] {
      WithKeyNone(s[1..], k, key);
    }
  }

  lemma {:induction false} WithKeySnoc<T>(s: seq<T>, x: T, k: real, key: T -> real)
    ensures WithKey(s + [x], k, key) == WithKey(s, k, key) + Keep(x, k, key)
  {
    if s == [] {
      assert [] + [x] == [x];
      assert [x][1..] == [];
    } else {
      var t := s + [x];
      assert t[0] == s[0];
      assert t[1..] == s[1..] + [x];
      WithKeySnoc(s[1..], x, k, key);
      var h, w := Keep(s[0], k, key), WithKey(s[1..], k, key);
      assert WithKey(t, k, key) == h + (w + Keep(x, k, key));
      assert h + (w + Keep(x, k, key)) == (h + w) + Keep(x, k, key);
    }
  }

  lemma WithKeyCons<T>(h: T, t: seq<T>, k: real, key: T -> real)
    ensures WithKey([h] + t, k, key) == Keep(h, k, key) + WithKey(t, k, key)
  {
    var r := [h] + t;
    assert r[0] == h && r[1..] == t;
  }

  /** `InsertDesc` puts `x` first when the sequence is empty or its head has a smaller key ... */
  lemma InsertDescFront<T>(x: T, s: seq<T>, key: T -> real)
    requires NonIncreasing(s, key) && (s == [] || key(s[0]) < key(x))
    ensures InsertDesc(x, s, key) == [x] + s
  {
  }

  /** ... and otherwise keeps the head and inserts into the rest. */
  lemma InsertDescLater<T>(x: T, s: seq<T>, key: T -> real)
    requires NonIncreasing(s, key) && s != [] && key(s[0]) >= key(x)
    ensures NonIncreasing(s[1..], key)
    ensures InsertDesc(x, s, key) == [s[0]] + InsertDesc(x, s[1..], key)
  {
  }

  lemma {:induction false} WithKeyInsert<T>(x: T, s: seq<T>, k: real, key: T -> real)
    requires NonIncreasing(s, key)
    ensures WithKey(InsertDesc(x, s, key), k, key) == WithKey(s, k, key) + Keep(x, k, key)
  {
    if s == [] || key(s[0]) < key(x) {
      WithKeyInsertFront(x, s, k, key);
    } else {
      assert NonIncreasing(s[1..], key);
      WithKeyInsert(x, s[1..], k, key);
      WithKeyInsertLater(x, s, k, key);
    }
  }

  lemma WithKeyInsertFront<T>(x: T, s: seq<T>, k: real, key: T -> real)
    requires NonIncreasing(s, key) && (s == [] || key(s[0]) < key(x))
    ensures WithKey(InsertDesc(x, s, key), k, key) == WithKey(s, k, key) + Keep(x, k, key)
  {
    InsertDescFront(x, s, key);
    WithKeyCons(x, s, k, key);
    if key(x) == k {
      WithKeyNone(s, k, key);
    }
  }

  lemma WithKeyInsertLater<T>(x: T, s: seq<T>, k: real, key: T -> real)
    requires NonIncreasing(s, key) && s != [] && key(s[0]) >= key(x)
    requires NonIncreasing(s[1..], key)
    requires WithKey(InsertDesc(x, s[1..], key), k, key) == WithKey(s[1..], k, key) + Keep(x, k, key)
    ensures WithKey(InsertDesc(x, s, key), k, key) == WithKey(s, k, key) + Keep(x, k, key)
  {
    InsertDescLater(x, s, key);
    WithKeyConsAppend(s[0], InsertDesc(x, s[1..], key), s[1..], Keep(x, k, key), k, key);
    assert [s[0]] + s[1..] == s;
  }

  /** Putting the same element in front of two sequences keeps a relation between their filters. */
  lemma WithKeyConsAppend<T>(h: T, t: seq<T>, u: seq<T>, e: seq<T>, k: real, key: T -> real)
    requires WithKey(t, k, key) == WithKey(u, k, key) + e
    ensures WithKey([h] + t, k, key) == WithKey([h] + u, k, key) + e
  {
    WithKeyCons(h, t, k, key);
    WithKeyCons(h, u, k, key);
    var kh, w := Keep(h, k, key), WithKey(u, k, key);
    assert kh + (w + e) == (kh + w) + e;
  }

  /** Stability: the rows that share a key keep their original relative order. */
  lemma {:induction false} SortDescStable<T>(xs: seq<T>, k: real, key: T -> real)
    ensures WithKey(SortDesc(xs, key), k, key) == WithKey(xs, k, key)
  {
    if xs != [] {
      var p, x := xs[..|xs| - 1], xs[|xs| - 1];
      assert xs == p + [x];
      SortDescStable(p, k, key);
      WithKeyInsert(x, SortDesc(p, key), k, key);
      WithKeySnoc(p, x, k, key);
    }
  }

  predicate Distinct<T(==)>(s: seq<T>) {
    forall i, j :: 0 <= i < j < |s| ==> s[i] != s[j]
  }

  /** In a sequence without repetitions every value occurs at most once. */
  lemma {:induction false} DistinctMultiplicity<T>(s: seq<T>, v: T)
    requires Distinct(s)
    ensures multiset(s)[v] <= 1
  {
    if s != [] {
      var p := s[..|s| - 1];
      assert s == p + [s[|s| - 1]];
      assert Distinct(p);
      DistinctMultiplicity(p, v);
      if s[|s| - 1] == v {
        assert v !in p;
      }
    }
  }

  /** Rearranging a sequence without repetitions gives one without repetitions. */
  lemma PermutationDistinct<T>(a: seq<T>, b: seq<T>)
    requires multiset(a) == multiset(b) && Distinct(a)
    ensures Distinct(b)
  {
    forall i, j | 0 <= i < j < |b|
      ensures b[i] != b[j]
    {
      if b[i] == b[j] {
        assert b == b[..j] + [b[j]] + b[j + 1..];
        assert b[i] in b[..j];
        assert multiset(b)[b[j]] >= 2;
        DistinctMultiplicity(a, b[j]);
      }
    }
  }
}
