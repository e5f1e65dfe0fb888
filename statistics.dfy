/**
 * The arithmetic `get_logfile_stats` applies to a URL's durations: their sum, `max`, and
 * `statistics.median`, over exact reals.
 */
module Statistics {

  /** Left-to-right sum, as a running `+=`. */
  function Sum(ts: seq<real>): real {
    if ts == [] then 0.0 else Sum(ts[..|ts| - 1]) + ts[|ts| - 1]
  }

  lemma SumSnoc(ts: seq<real>, t: real)
    ensures Sum(ts + [t]) == Sum(ts) + t
  {
    assert (ts + [t])[..|ts|] == ts;
  }

  /** Durations are never negative, so neither is their sum; it is zero only when every one is. */
  lemma {:induction false} SumNonNegative(ts: seq<real>)
    requires forall i :: 0 <= i < |ts| ==> ts[i] >= 0.0
    ensures Sum(ts) >= 0.0
    ensures Sum(ts) == 0.0 <==> forall i :: 0 <= i < |ts| ==> ts[i] == 0.0
  {
    if ts != [] {
      var p := ts[..|ts| - 1];
      SumNonNegative(p);
      if Sum(ts) == 0.0 {
        forall i | 0 <= i < |ts|
          ensures ts[i] == 0.0
        {
          if i < |p| {
            assert p[i] == ts[i];
          }
        }
      }
    }
  }

  /** The running `max(time_max, request_time)`, starting from the first duration. */
  function Max(ts: seq<real>): real
    requires |ts| > 0
  {
    if |ts| == 1 then ts[0]
    else
      var p := Max(ts[..|ts| - 1]);
      if p >= ts[|ts| - 1] then p else ts[|ts| - 1]
  }

  /** `Max` is one of the durations and no duration exceeds it. */
  lemma {:induction false} MaxIsMaximum(ts: seq<real>)
    requires |ts| > 0
    ensures Max(ts) in ts
    ensures forall i :: 0 <= i < |ts| ==> ts[i] <= Max(ts)
  {
    if |ts| > 1 {
      var p := ts[..|ts| - 1];
      MaxIsMaximum(p);
      assert forall i :: 0 <= i < |p| ==> p[i] == ts[i];
    }
  }

  function Min(ts: seq<real>): real
    requires |ts| > 0
  {
    if |ts| == 1 then ts[0]
    else
      var p := Min(ts[..|ts| - 1]);
      if p <= ts[|ts| - 1] then p else ts[|ts| - 1]
  }

  /** `Min` is one of the durations and no duration is below it. */
  lemma {:induction false} MinIsMinimum(ts: seq<real>)
    requires |ts| > 0
    ensures Min(ts) in ts
    ensures forall i :: 0 <= i < |ts| ==> Min(ts) <= ts[i]
  {
    if |ts| > 1 {
      var p := ts[..|ts| - 1];
      MinIsMinimum(p);
      assert forall i :: 0 <= i < |p| ==> p[i] == ts[i];
    }
  }

  predicate SortedAsc(ts: seq<real>) {
    forall i, j :: 0 <= i < j < |ts| ==> ts[i] <= ts[j]
  }

  /** `x` placed before the first element greater than it. */
  function InsertAsc(x: real, s: seq<real>): (r: seq<real>)
    requires SortedAsc(s)
    ensures SortedAsc(r)
    ensures multiset(r) == multiset(s) + multiset{x}
    ensures forall i :: 0 <= i < |r| ==> r[i] == x || r[i] in s
  {
    if s == [] || x <= s[0] then [x] + s
    else
      var tl := InsertAsc(x, s[1..]);
      assert s == [s[0]] + s[1..];
      InsertAscHead(x, s, tl);
      [s[0]] + tl
  }

  lemma InsertAscHead(x: real, s: seq<real>, tl: seq<real>)
    requires SortedAsc(s) && SortedAsc(tl) && s != [] && s[0] < x
    requires forall i :: 0 <= i < |tl| ==> tl[i] == x || tl[i] in s[1..]
    ensures SortedAsc([s[0]] + tl)
  {
    var r := [s[0]] + tl;
    forall i, j | 0 <= i < j < |r|
      ensures r[i] <= r[j]
    {
      if i == 0 {
        assert r[j] == tl[j - 1];
        if tl[j - 1] != x {
          var m :| 0 <= m < |s[1..]| && s[1..][m] == tl[j - 1];
          assert s[m + 1] == tl[j - 1];
        }
      } else {
        assert r[i] == tl[i - 1] && r[j] == tl[j - 1];
      }
    }
  }

  /** The ascending order `sorted(data)` produces. */
  function SortAsc(ts: seq<real>): (r: seq<real>)
    ensures SortedAsc(r)
    ensures multiset(r) == multiset(ts)
  {
    if ts == [] then []
    else
      assert ts == ts[..|ts| - 1] + [ts[|ts| - 1]];
      InsertAsc(ts[|ts| - 1], SortAsc(ts[..|ts| - 1]))
  }

  /** Two ascending sequences with the same elements are the same sequence. */
  lemma {:induction false} SortedUnique(a: seq<real>, b: seq<real>)
    requires SortedAsc(a) && SortedAsc(b) && multiset(a) == multiset(b)
    ensures a == b
    decreases |a|
  {
    assert |b| == |multiset(b)| == |a|;
    if a != [] {
      SortedHeads(a, b);
      TailMultiset(a);
      TailMultiset(b);
      SortedUnique(a[1..], b[1..]);
      assert a == [a[0]] + a[1..] && b == [b[0]] + b[1..];
    }
  }

  /** Two ascending arrangements of the same elements start with the same, smallest, element. */
  lemma SortedHeads(a: seq<real>, b: seq<real>)
    requires SortedAsc(a) && SortedAsc(b) && multiset(a) == multiset(b) && |a| > 0 && |b| > 0
    ensures a[0] == b[0]
  {
    assert a[0] in multiset(b) && b[0] in multiset(a);
    var i :| 0 <= i < |b| && b[i] == a[0];
    var j :| 0 <= j < |a| && a[j] == b[0];
  }

  lemma TailMultiset(s: seq<real>)
    requires |s| > 0
    ensures multiset(s[1..]) == multiset(s) - multiset{s[0]}
  {
    assert s == [s[0]] + s[1..];
  }

  /** The middle element of a non-empty sequence, or the mean of the two middle ones. */
  function Middle(s: seq<real>): real
    requires |s| > 0
  {
    var n := |s|;
    if n % 2 == 1 then s[n / 2] else (s[n / 2 - 1] + s[n / 2]) / 2.0
  }

  /** `statistics.median`: the middle of the sorted data. */
  function Median(ts: seq<real>): real
    requires |ts| > 0
  {
    SortedLength(ts);
    Middle(SortAsc(ts))
  }

  lemma SortedLength(ts: seq<real>)
    ensures |SortAsc(ts)| == |ts|
  {
    assert |multiset(SortAsc(ts))| == |multiset(ts)|;
  }

  lemma SortedInRange(ts: seq<real>)
    requires |ts| > 0
    ensures |SortAsc(ts)| == |ts|
    ensures forall k :: 0 <= k < |SortAsc(ts)| ==> Min(ts) <= SortAsc(ts)[k] <= Max(ts)
  {
    var s := SortAsc(ts);
    SortedLength(ts);
    MaxIsMaximum(ts);
    MinIsMinimum(ts);
    forall k | 0 <= k < |s|
      ensures Min(ts) <= s[k] <= Max(ts)
    {
      assert s[k] in multiset(ts);
      var i :| 0 <= i < |ts| && ts[i] == s[k];
    }
  }

  /** The median lies between the smallest and the largest duration. */
  lemma MedianBounds(ts: seq<real>)
    requires |ts| > 0
    ensures Min(ts) <= Median(ts) <= Max(ts)
  {
    SortedInRange(ts);
  }

  /** The median depends only on the durations, not on the order they arrived in. */
  lemma MedianOfPermutation(a: seq<real>, b: seq<real>)
    requires |a| > 0 && multiset(a) == multiset(b)
    ensures |b| > 0 && Median(a) == Median(b)
  {
    assert |b| == |multiset(b)| == |a|;
    SortedUnique(SortAsc(a), SortAsc(b));
  }

  /** `sorted(data)` is the one ascending arrangement of the data. */
  lemma SortAscCharacterized(ts: seq<real>, s: seq<real>)
    requires SortedAsc(s) && multiset(s) == multiset(ts)
    ensures SortAsc(ts) == s
  {
    SortedUnique(SortAsc(ts), s);
  }

  /** The median is the middle of any ascending arrangement of the data. */
  lemma MedianOfSorted(ts: seq<real>, s: seq<real>)
    requires |ts| > 0 && SortedAsc(s) && multiset(s) == multiset(ts)
    ensures |s| == |ts| && Median(ts) == Middle(s)
  {
    SortAscCharacterized(ts, s);
    SortedLength(ts);
  }

  /** Odd count: the middle value of the sorted durations. */
  lemma MedianOddExample(a: real, b: real, c: real)
    requires a <= b <= c
    ensures Median([c, a, b]) == b
  {
    var s := [a, b, c];
    RotatedThree(a, b, c);
    MedianOfSorted([c, a, b], s);
    MiddleOfThree(a, b, c);
  }

  lemma RotatedThree(a: real, b: real, c: real)
    ensures multiset([c, a, b]) == multiset([a, b, c])
  {
  }

  lemma MiddleOfThree(a: real, b: real, c: real)
    ensures Middle([a, b, c]) == b
  {
    var s := [a, b, c];
    assert |s| == 3 && |s| / 2 == 1 && |s| % 2 == 1;
  }

  /** Even count: the mean of the two middle values. */
  lemma MedianEvenExample(a: real, b: real)
    requires a <= b
    ensures Median([b, a]) == (a + b) / 2.0
  {
    var s := [a, b];
    assert multiset([b, a]) == multiset(s);
    MedianOfSorted([b, a], s);
    MiddleOfTwo(a, b);
  }

  lemma MiddleOfTwo(a: real, b: real)
    ensures Middle([a, b]) == (a + b) / 2.0
  {
    var s := [a, b];
    assert |s| == 2 && |s| / 2 == 1 && |s| % 2 == 0;
  }
}
