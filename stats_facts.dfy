/**
 * What `get_logfile_stats` promises, stated over `Report`: when it raises which error, what each
 * row of the table holds, that the table is the top `result_size` URLs by time sum with ties in
 * first-seen order, and that the counts add up to the parsed lines.
 */
module StatsFacts {
  import opened Wrappers
  import opened LineParser
  import opened Statistics
  import opened Ranking
  import opened Aggregator

  /** A finished row of the table: the figures of URL `row.url` over the parsed records `recs`. */
  ghost predicate FinishedRow(recs: seq<LogLine>, round: real -> real, row: UrlStats) {
    var ts := Durations(recs, row.url);
    && row.url in Urls(recs)
    && |ts| > 0 && |recs| > 0 && SummaryTime(recs) != 0.0
    && row.count == |ts|
    && row.timeSum == TimeSum(ts, round)
    && row.timeMax == Max(ts)
    && row.countPerc == round(Percent(|ts| as real, |recs| as real))
    && row.timePerc == round(Percent(TimeSum(ts, round), SummaryTime(recs)))
    && row.timeAvg == round(Average(TimeSum(ts, round), |ts|))
    && row.timeMed == round(Median(ts))
  }

  /** The ranked entries: one per URL, by non-increasing time sum. */
  lemma RankedFacts(recs: seq<LogLine>, round: real -> real)
    ensures |Ranked(recs, round)| == |Urls(recs)|
    ensures NonIncreasing(Ranked(recs, round), TimeSumOf)
    ensures forall i :: 0 <= i < |Ranked(recs, round)| ==> IsRow(recs, round, Ranked(recs, round)[i])
    ensures forall i, j :: 0 <= i < j < |Ranked(recs, round)| ==> Ranked(recs, round)[i].url != Ranked(recs, round)[j].url
  {
    var rows, ranked := Rows(recs, round), Ranked(recs, round);
    RankedAreRows(recs, round);
    UrlsDistinct(recs);
    assert Distinct(rows) by {
      forall i, j | 0 <= i < j < |rows|
        ensures rows[i] != rows[j]
      {
        assert rows[i].url == Urls(recs)[i] && rows[j].url == Urls(recs)[j];
      }
    }
    PermutationDistinct(rows, ranked);
  }

  /**
   * The function raises `RuntimeError` exactly when more than a fifth of the lines did not parse,
   * and `ZeroDivisionError` exactly when there are no lines, or when rows are to be shown and the
   * durations add up to zero.
   */
  lemma ReportErrors(items: seq<Option<LogLine>>, resultSize: int, round: real -> real)
    ensures Report(items, resultSize, round) == Err(ThresholdExceeded)
      <==> |items| > 0 && (ErrorCount(items) as real) / (|items| as real) > ErrorThreshold
    ensures Report(items, resultSize, round) == Err(ZeroDivision)
      <==> || |items| == 0
           || (&& !(5 * ErrorCount(items) > |items|)
               && Kept(resultSize, |Urls(Records(items))|) > 0
               && SummaryTime(Records(items)) == 0.0)
  {
    RankedCounts(Records(items), round);
    if |items| > 0 {
      ErrorRate(ErrorCount(items), |items|);
    }
  }

  /** The table is the first rows of the ranking, finished. */
  lemma ReportIsRanked(items: seq<Option<LogLine>>, resultSize: int, round: real -> real)
    requires Report(items, resultSize, round).Ok?
    ensures var recs, rows := Records(items), Report(items, resultSize, round).value;
      var ranked := Ranked(recs, round);
      && |rows| == Kept(resultSize, |ranked|) <= |ranked|
      && (rows == [] || (|recs| > 0 && SummaryTime(recs) != 0.0))
      && forall i :: 0 <= i < |rows| ==>
           && ranked[i].count > 0 && |Durations(recs, ranked[i].url)| > 0
           && rows[i] == Finalize(ranked[i], |recs|, SummaryTime(recs), Durations(recs, ranked[i].url), round)
  {
    var recs := Records(items);
    RecordsAndErrors(items);
    RankedCounts(recs, round);
  }

  /** Each row of the table is the finished entry of a distinct URL, by non-increasing time sum. */
  lemma ReportRows(items: seq<Option<LogLine>>, resultSize: int, round: real -> real)
    requires Report(items, resultSize, round).Ok?
    ensures var recs, rows := Records(items), Report(items, resultSize, round).value;
      && |rows| == Kept(resultSize, |Urls(recs)|)
      && NonIncreasing(rows, TimeSumOf)
      && (forall i :: 0 <= i < |rows| ==> FinishedRow(recs, round, rows[i]))
      && (forall i, j :: 0 <= i < j < |rows| ==> rows[i].url != rows[j].url)
  {
    var recs := Records(items);
    var ranked := Ranked(recs, round);
    var rows := Report(items, resultSize, round).value;
    ReportIsRanked(items, resultSize, round);
    RankedFacts(recs, round);
    forall i | 0 <= i < |rows|
      ensures FinishedRow(recs, round, rows[i])
    {
      FinishedRowOf(recs, round, ranked[i]);
    }
  }

  /** Finishing the entry of a URL gives its row of the table. */
  lemma FinishedRowOf(recs: seq<LogLine>, round: real -> real, row: UrlStats)
    requires IsRow(recs, round, row) && |recs| > 0 && SummaryTime(recs) != 0.0
    ensures FinishedRow(recs, round, Finalize(row, |recs|, SummaryTime(recs), Durations(recs, row.url), round))
  {
    var ts := Durations(recs, row.url);
    FinalizeFields(row, |recs|, SummaryTime(recs), ts, TimeSum(ts, round), round);
  }

  /** The figures `Finalize` fills in, field by field. */
  lemma FinalizeFields(row: UrlStats, kept: nat, summary: real, ts: seq<real>, sum: real, round: real -> real)
    requires kept > 0 && summary != 0.0 && row.count == |ts| && |ts| > 0 && row.timeSum == sum
    ensures var f := Finalize(row, kept, summary, ts, round);
      && f.url == row.url && f.count == |ts| && f.timeSum == sum && f.timeMax == row.timeMax
      && f.countPerc == round(Percent(|ts| as real, kept as real))
      && f.timePerc == round(Percent(sum, summary))
      && f.timeAvg == round(Average(sum, |ts|))
      && f.timeMed == round(Median(ts))
  {
  }

  /** No URL left out of the table has a larger time sum than a URL shown in it. */
  lemma ReportTopK(items: seq<Option<LogLine>>, resultSize: int, round: real -> real)
    requires Report(items, resultSize, round).Ok?
    ensures var recs, rows := Records(items), Report(items, resultSize, round).value;
      forall u, i ::
        && u in Urls(recs) && |Durations(recs, u)| > 0
        && 0 <= i < |rows|
        && (forall j :: 0 <= j < |rows| ==> rows[j].url != u)
        ==> TimeSum(Durations(recs, u), round) <= rows[i].timeSum
  {
    var recs, rows := Records(items), Report(items, resultSize, round).value;
    var ranked := Ranked(recs, round);
    ReportIsRanked(items, resultSize, round);
    RankedFacts(recs, round);
    forall u, i |
        && u in Urls(recs) && |Durations(recs, u)| > 0
        && 0 <= i < |rows|
        && (forall j :: 0 <= j < |rows| ==> rows[j].url != u)
      ensures TimeSum(Durations(recs, u), round) <= rows[i].timeSum
    {
      var p := RankOf(recs, round, u);
      assert p >= |rows|;
      assert TimeSumOf(ranked[i]) >= TimeSumOf(ranked[p]);
    }
  }

  /** The position of URL `u` in the ranking. */
  lemma RankOf(recs: seq<LogLine>, round: real -> real, u: string) returns (p: nat)
    requires u in Urls(recs) && |Durations(recs, u)| > 0
    ensures p < |Ranked(recs, round)| && Ranked(recs, round)[p] == Accum(recs, u, round)
  {
    var us := Urls(recs);
    var rows := Rows(recs, round);
    var a :| 0 <= a < |us| && us[a] == u;
    assert rows[a] == Accum(recs, u, round);
    assert rows[a] in multiset(Ranked(recs, round));
    p :| 0 <= p < |Ranked(recs, round)| && Ranked(recs, round)[p] == rows[a];
  }

  /** With `result_size` at least the number of URLs, every URL has its row. */
  lemma ReportAllUrls(items: seq<Option<LogLine>>, resultSize: int, round: real -> real)
    requires Report(items, resultSize, round).Ok? && resultSize >= |Urls(Records(items))|
    ensures var recs, rows := Records(items), Report(items, resultSize, round).value;
      forall u :: u in Urls(recs) ==> exists i :: 0 <= i < |rows| && rows[i].url == u
  {
    var recs, rows := Records(items), Report(items, resultSize, round).value;
    ReportIsRanked(items, resultSize, round);
    RankedFacts(recs, round);
    UrlsHaveDurations(recs);
    forall u | u in Urls(recs)
      ensures exists i :: 0 <= i < |rows| && rows[i].url == u
    {
      var p := RankOf(recs, round, u);
      assert rows[p].url == u;
    }
  }

  /** Rows of equal time sum keep the order in which their URLs first appeared. */
  lemma RankedTies(recs: seq<LogLine>, round: real -> real, t: real)
    ensures WithKey(Ranked(recs, round), t, TimeSumOf) == WithKey(Rows(recs, round), t, TimeSumOf)
  {
    SortDescStable(Rows(recs, round), t, TimeSumOf);
  }

  /** The number of records the entries `rows` account for. */
  function CountTotal(rows: seq<UrlStats>): nat {
    if rows == [] then 0 else rows[0].count + CountTotal(rows[1..])
  }

  lemma {:induction false} CountTotalInsert(x: UrlStats, s: seq<UrlStats>)
    requires NonIncreasing(s, TimeSumOf)
    ensures CountTotal(InsertDesc(x, s, TimeSumOf)) == x.count + CountTotal(s)
  {
    if s != [] && TimeSumOf(s[0]) >= TimeSumOf(x) {
      var r := InsertDesc(x, s, TimeSumOf);
      assert r[0] == s[0] && r[1..] == InsertDesc(x, s[1..], TimeSumOf);
      CountTotalInsert(x, s[1..]);
    } else {
      assert ([x] + s)[1..] == s;
    }
  }

  lemma {:induction false} CountTotalSnoc(s: seq<UrlStats>, x: UrlStats)
    ensures CountTotal(s + [x]) == CountTotal(s) + x.count
  {
    if s == [] {
      assert [] + [x] == [x];
    } else {
      assert (s + [x])[1..] == s[1..] + [x];
      CountTotalSnoc(s[1..], x);
    }
  }

  lemma {:induction false} CountTotalSorted(xs: seq<UrlStats>)
    ensures CountTotal(SortDesc(xs, TimeSumOf)) == CountTotal(xs)
  {
    if xs != [] {
      var p, x := xs[..|xs| - 1], xs[|xs| - 1];
      assert xs == p + [x];
      CountTotalSorted(p);
      CountTotalInsert(x, SortDesc(p, TimeSumOf));
      CountTotalSnoc(p, x);
    }
  }

  /** The records of the URLs `us`, counted per URL. */
  function CountOver(recs: seq<LogLine>, us: seq<string>): nat {
    if us == [] then 0 else CountOver(recs, us[..|us| - 1]) + |Durations(recs, us[|us| - 1])|
  }

  lemma {:induction false} CountOverRows(recs: seq<LogLine>, round: real -> real, n: nat)
    requires n <= |Urls(recs)|
    ensures CountTotal(Rows(recs, round)[..n]) == CountOver(recs, Urls(recs)[..n])
  {
    if n > 0 {
      var rows, us := Rows(recs, round), Urls(recs);
      UrlsHaveDurations(recs);
      CountOverRows(recs, round, n - 1);
      assert rows[..n] == rows[..n - 1] + [rows[n - 1]];
      assert us[..n][..n - 1] == us[..n - 1];
      CountTotalSnoc(rows[..n - 1], rows[n - 1]);
    }
  }

  /** One more record adds one to the count of its URL, if that URL is among `us`, once. */
  lemma {:induction false} CountOverSnoc(recs: seq<LogLine>, x: LogLine, us: seq<string>)
    requires Distinct(us)
    ensures CountOver(recs + [x], us) == CountOver(recs, us) + (if x.url in us then 1 else 0)
  {
    if us != [] {
      var p, u := us[..|us| - 1], us[|us| - 1];
      assert us == p + [u];
      assert Distinct(p);
      CountOverSnoc(recs, x, p);
      DurationsSnoc(recs, x, u);
      if u == x.url {
        assert x.url !in p;
      }
    }
  }

  lemma {:induction false} CountOverUrls(recs: seq<LogLine>)
    ensures CountOver(recs, Urls(recs)) == |recs|
  {
    if recs != [] {
      var p, x := recs[..|recs| - 1], recs[|recs| - 1];
      assert recs == p + [x];
      CountOverUrls(p);
      UrlsSnoc(p, x);
      UrlsDistinct(p);
      UrlsDistinct(recs);
      var us := Urls(p);
      assert Distinct(us) && Distinct(Urls(recs));
      CountOverSnoc(p, x, Urls(recs));
      if x.url !in us {
        var us2 := us + [x.url];
        assert us2[..|us2| - 1] == us;
        UrlsAndDurations(p, x.url);
        CountOverSnoc(p, x, us);
        DurationsSnoc(p, x, x.url);
      }
    }
  }

  /** Every parsed line is counted in exactly one entry: the counts add up to the parsed lines. */
  lemma RankedCountsAll(recs: seq<LogLine>, round: real -> real)
    ensures CountTotal(Ranked(recs, round)) == |recs|
  {
    var rows := Rows(recs, round);
    CountTotalSorted(rows);
    CountOverRows(recs, round, |Urls(recs)|);
    assert rows[..|Urls(recs)|] == rows;
    assert Urls(recs)[..|Urls(recs)|] == Urls(recs);
    CountOverUrls(recs);
  }

  /** With all the rows shown, the table's counts add up to the lines that parsed. */
  lemma ReportCountsAll(items: seq<Option<LogLine>>, resultSize: int, round: real -> real)
    requires Report(items, resultSize, round).Ok? && resultSize >= |Urls(Records(items))|
    ensures CountTotal(Report(items, resultSize, round).value) == |items| - ErrorCount(items)
  {
    var recs := Records(items);
    var ranked := Ranked(recs, round);
    var rows := Report(items, resultSize, round).value;
    RecordsAndErrors(items);
    RankedCounts(recs, round);
    RankedCountsAll(recs, round);
    ReportRows(items, resultSize, round);
    assert ranked[..|ranked|] == ranked;
    FinishedCounts(recs, round, |recs|, SummaryTime(recs), ranked);
  }

  /** Finishing the rows leaves their counts alone. */
  lemma {:induction false} FinishedCounts(recs: seq<LogLine>, round: real -> real, kept: nat, summary: real, rows: seq<UrlStats>)
    requires forall i :: 0 <= i < |rows| ==> rows[i].count > 0 && |Durations(recs, rows[i].url)| > 0
    requires kept > 0 && (|rows| > 0 ==> summary != 0.0)
    ensures CountTotal(Finished(recs, round, kept, summary, rows)) == CountTotal(rows)
  {
    if rows != [] {
      var f := Finished(recs, round, kept, summary, rows);
      assert f[1..] == Finished(recs, round, kept, summary, rows[1..]);
      FinishedCounts(recs, round, kept, summary, rows[1..]);
    }
  }

  /** Without the rounding step, the running time sum is the plain sum of the durations. */
  lemma {:induction false} TimeSumExact(ts: seq<real>, round: real -> real)
    requires |ts| > 0 && forall x :: round(x) == x
    ensures TimeSum(ts, round) == Sum(ts)
  {
    if |ts| > 1 {
      var p := ts[..|ts| - 1];
      TimeSumExact(p, round);
    } else {
      assert ts[..0] == [];
    }
  }
}
