/**
 * `get_logfile_stats`: one pass over the parsed lines that counts them and accumulates, per URL,
 * its count, rounded time sum, maximum and list of durations; then the error-rate check, the stable
 * descending sort by time sum, the cut to `result_size` rows, and the per-row finishing figures.
 *
 * The specification is written as functions of the input (`Records`, `Urls`, `Durations`, `Report`);
 * the method `GetLogfileStats` keeps the Python variables and dictionaries and is proved to compute
 * `Report`. The lemmas at the end state what `Report` promises.
 */
module Aggregator {
  import opened Wrappers
  import opened LineParser
  import opened Statistics
  import opened Ranking

  /** `URLStats`, with the percentages, average and median as exact reals. */
  datatype UrlStats = UrlStats(
    url: string,
    count: nat,
    countPerc: real,
    timeSum: real,
    timePerc: real,
    timeAvg: real,
    timeMax: real,
    timeMed: real)

  /** The two ways the function fails: a division by zero, and `RuntimeError` for too many bad lines. */
  datatype StatsError = ZeroDivision | ThresholdExceeded

  const ErrorThreshold: real := 0.2

  // ----- what the pass over the lines accumulates -----

  /** The parsed records, in order (the `None` items dropped). */
  function Records(items: seq<Option<LogLine>>): seq<LogLine> {
    if items == [] then []
    else
      var last := items[|items| - 1];
      Records(items[..|items| - 1]) + (if last.Some? then [last.value] else [])
  }

  /** The number of lines that did not parse (`err_lines`). */
  function ErrorCount(items: seq<Option<LogLine>>): nat {
    if items == [] then 0
    else ErrorCount(items[..|items| - 1]) + (if items[|items| - 1].None? then 1 else 0)
  }

  /** The URLs in first-seen order: the key order of the `stats` dictionary. */
  function Urls(recs: seq<LogLine>): seq<string> {
    if recs == [] then []
    else
      var us := Urls(recs[..|recs| - 1]);
      var u := recs[|recs| - 1].url;
      if u in us then us else us + [u]
  }

  /** The durations of the records for `u`, in arrival order: `req_times[u]`. */
  function Durations(recs: seq<LogLine>, u: string): seq<real> {
    if recs == [] then []
    else
      var last := recs[|recs| - 1];
      Durations(recs[..|recs| - 1], u) + (if last.url == u then [last.requestTime] else [])
  }

  /** `summary_time`: every record's duration added up, unrounded. */
  function SummaryTime(recs: seq<LogLine>): real {
    if recs == [] then 0.0 else SummaryTime(recs[..|recs| - 1]) + recs[|recs| - 1].requestTime
  }

  /**
   * `time_sum`: the first duration, then `float(format(time_sum + request_time, ".3f"))` for each
   * later one. `round` stands for that formatting round trip.
   */
  function TimeSum(ts: seq<real>, round: real -> real): real
    requires |ts| > 0
  {
    if |ts| == 1 then ts[0] else round(TimeSum(ts[..|ts| - 1], round) + ts[|ts| - 1])
  }

  /** The `stats[u]` entry after the pass: the percentages, average and median still 0.0. */
  function Accum(recs: seq<LogLine>, u: string, round: real -> real): UrlStats
    requires |Durations(recs, u)| > 0
  {
    var ts := Durations(recs, u);
    UrlStats(u, |ts|, 0.0, TimeSum(ts, round), 0.0, 0.0, Max(ts), 0.0)
  }

  /** The entry a URL's first record creates. */
  function NewEntry(url: string, t: real): UrlStats {
    UrlStats(url, 1, 0.0, t, 0.0, 0.0, t, 0.0)
  }

  /** The `_replace` a later record of the URL applies: one more call, rounded sum, running max. */
  function Bumped(s: UrlStats, t: real, round: real -> real): UrlStats {
    s.(count := s.count + 1,
       timeSum := round(s.timeSum + t),
       timeMax := if s.timeMax >= t then s.timeMax else t)
  }

  /** `list(stats.values())`. */
  function Rows(recs: seq<LogLine>, round: real -> real): seq<UrlStats> {
    var us := Urls(recs);
    UrlsHaveDurations(recs);
    seq(|us|, j requires 0 <= j < |us| => Accum(recs, us[j], round))
  }

  function TimeSumOf(s: UrlStats): real { s.timeSum }

  /** `sorted(list(stats.values()), key=lambda x: x.time_sum, reverse=True)`. */
  function Ranked(recs: seq<LogLine>, round: real -> real): seq<UrlStats> {
    SortDesc(Rows(recs, round), TimeSumOf)
  }

  /** A row is the accumulated entry of one of the URLs. */
  ghost predicate IsRow(recs: seq<LogLine>, round: real -> real, row: UrlStats) {
    && row.url in Urls(recs)
    && |Durations(recs, row.url)| > 0
    && row == Accum(recs, row.url, round)
  }

  /** The figures `_replace` fills in for a kept row. */
  function Finalize(row: UrlStats, kept: nat, summary: real, times: seq<real>, round: real -> real): UrlStats
    requires kept > 0 && summary != 0.0 && row.count > 0 && |times| > 0
  {
    row.(
      countPerc := round(Percent(row.count as real, kept as real)),
      timePerc := round(Percent(row.timeSum, summary)),
      timeAvg := round(Average(row.timeSum, row.count)),
      timeMed := round(Median(times)))
  }

  /** `part / whole * 100.0`. */
  function Percent(part: real, whole: real): real
    requires whole != 0.0
  {
    part / whole * 100.0
  }

  /** `time_sum / count`. */
  function Average(sum: real, n: nat): real
    requires n > 0
  {
    sum / (n as real)
  }

  /** What `get_logfile_stats` returns or raises for the parsed lines `items`. */
  function Report(items: seq<Option<LogLine>>, resultSize: int, round: real -> real): Result<seq<UrlStats>, StatsError> {
    var total := |items|;
    var err := ErrorCount(items);
    if total == 0 then Err(ZeroDivision)
    else if 5 * err > total then Err(ThresholdExceeded)
    else Summarize(Records(items), total - err, resultSize, round)
  }

  /** The second half of the function: rank, keep `result_size` rows, fill in their figures. */
  function Summarize(recs: seq<LogLine>, kept: nat, resultSize: int, round: real -> real): Result<seq<UrlStats>, StatsError>
    requires kept > 0
  {
    var ranked := Ranked(recs, round);
    var k := Kept(resultSize, |ranked|);
    var summary := SummaryTime(recs);
    if k > 0 && summary == 0.0 then Err(ZeroDivision)
    else
      RankedCounts(recs, round);
      Ok(Finished(recs, round, kept, summary, ranked[..k]))
  }

  /** The kept rows with their figures filled in, in rank order. */
  function Finished(recs: seq<LogLine>, round: real -> real, kept: nat, summary: real, rows: seq<UrlStats>): seq<UrlStats>
    requires forall i :: 0 <= i < |rows| ==> rows[i].count > 0 && |Durations(recs, rows[i].url)| > 0
    requires kept > 0 && (|rows| > 0 ==> summary != 0.0)
  {
    seq(|rows|, i requires 0 <= i < |rows| => Finalize(rows[i], kept, summary, Durations(recs, rows[i].url), round))
  }

  // ----- facts about the accumulated state -----

  lemma {:induction false} RecordsAndErrors(items: seq<Option<LogLine>>)
    ensures |Records(items)| + ErrorCount(items) == |items|
  {
    if items != [] {
      RecordsAndErrors(items[..|items| - 1]);
    }
  }

  lemma {:induction false} UrlsAndDurations(recs: seq<LogLine>, u: string)
    ensures u in Urls(recs) <==> |Durations(recs, u)| > 0
  {
    if recs != [] {
      UrlsAndDurations(recs[..|recs| - 1], u);
    }
  }

  lemma UrlsHaveDurations(recs: seq<LogLine>)
    ensures forall u :: u in Urls(recs) ==> |Durations(recs, u)| > 0
  {
    forall u | u in Urls(recs)
      ensures |Durations(recs, u)| > 0
    {
      UrlsAndDurations(recs, u);
    }
  }

  /** Every URL of a parsed record is in `Urls`, and only those. */
  lemma {:induction false} UrlsAreRecordUrls(recs: seq<LogLine>, u: string)
    ensures u in Urls(recs) <==> exists i :: 0 <= i < |recs| && recs[i].url == u
  {
    if recs != [] {
      var p := recs[..|recs| - 1];
      UrlsAreRecordUrls(p, u);
      if exists i :: 0 <= i < |p| && p[i].url == u {
        var i :| 0 <= i < |p| && p[i].url == u;
        assert recs[i].url == u;
      }
      if exists i :: 0 <= i < |recs| && recs[i].url == u {
        var i :| 0 <= i < |recs| && recs[i].url == u;
        if i < |p| {
          assert p[i].url == u;
        }
      }
    }
  }

  /** The dictionary has one key per URL. */
  lemma {:induction false} UrlsDistinct(recs: seq<LogLine>)
    ensures forall i, j :: 0 <= i < j < |Urls(recs)| ==> Urls(recs)[i] != Urls(recs)[j]
  {
    if recs != [] {
      UrlsDistinct(recs[..|recs| - 1]);
    }
  }

  lemma RankedAreRows(recs: seq<LogLine>, round: real -> real)
    ensures |Ranked(recs, round)| == |Urls(recs)|
    ensures forall i :: 0 <= i < |Ranked(recs, round)| ==> IsRow(recs, round, Ranked(recs, round)[i])
    ensures |Urls(recs)| > 0 ==> |recs| > 0
  {
    var rows := Rows(recs, round);
    var ranked := Ranked(recs, round);
    SortDescLength(rows, TimeSumOf);
    UrlsHaveDurations(recs);
    forall i | 0 <= i < |ranked|
      ensures IsRow(recs, round, ranked[i])
    {
      assert ranked[i] in multiset(rows);
      var j :| 0 <= j < |rows| && rows[j] == ranked[i];
    }
  }

  /** The facts about the ranked rows the finishing figures need. */
  lemma RankedCounts(recs: seq<LogLine>, round: real -> real)
    ensures |Ranked(recs, round)| == |Urls(recs)|
    ensures |Urls(recs)| > 0 ==> |recs| > 0
    ensures forall i :: 0 <= i < |Ranked(recs, round)| ==>
      && Ranked(recs, round)[i].url in Urls(recs)
      && Ranked(recs, round)[i].count > 0
      && |Durations(recs, Ranked(recs, round)[i].url)| > 0
  {
    RankedAreRows(recs, round);
  }

  // ----- the pass, step by step -----

  lemma RecordsStep(items: seq<Option<LogLine>>, i: nat)
    requires i < |items|
    ensures Records(items[..i + 1]) == Records(items[..i]) + (if items[i].Some? then [items[i].value] else [])
    ensures ErrorCount(items[..i + 1]) == ErrorCount(items[..i]) + (if items[i].None? then 1 else 0)
  {
    assert items[..i + 1][..i] == items[..i];
  }

  lemma UrlsSnoc(recs: seq<LogLine>, x: LogLine)
    ensures Urls(recs + [x]) == if x.url in Urls(recs) then Urls(recs) else Urls(recs) + [x.url]
  {
    assert (recs + [x])[..|recs|] == recs;
  }

  lemma SummarySnoc(recs: seq<LogLine>, x: LogLine)
    ensures SummaryTime(recs + [x]) == SummaryTime(recs) + x.requestTime
  {
    assert (recs + [x])[..|recs|] == recs;
  }

  lemma DurationsSnoc(recs: seq<LogLine>, x: LogLine, u: string)
    ensures Durations(recs + [x], u) == Durations(recs, u) + (if x.url == u then [x.requestTime] else [])
  {
    assert (recs + [x])[..|recs|] == recs;
  }

  /** Max and rounded sum of one more duration. */
  lemma TimesSnoc(ts: seq<real>, t: real, round: real -> real)
    requires |ts| > 0
    ensures TimeSum(ts + [t], round) == round(TimeSum(ts, round) + t)
    ensures Max(ts + [t]) == if Max(ts) >= t then Max(ts) else t
  {
    assert (ts + [t])[..|ts|] == ts;
  }

  /** The first record of a URL creates its entry. */
  lemma AccumFirst(recs: seq<LogLine>, x: LogLine, round: real -> real)
    requires x.url !in Urls(recs)
    ensures |Durations(recs + [x], x.url)| > 0
    ensures Accum(recs + [x], x.url, round) == NewEntry(x.url, x.requestTime)
  {
    DurationsSnoc(recs, x, x.url);
    UrlsAndDurations(recs, x.url);
    assert Durations(recs + [x], x.url) == [x.requestTime];
  }

  /** A later record of a URL updates count, rounded time sum and maximum. */
  lemma AccumNext(recs: seq<LogLine>, x: LogLine, round: real -> real)
    requires |Durations(recs, x.url)| > 0
    ensures |Durations(recs + [x], x.url)| > 0
    ensures Accum(recs + [x], x.url, round) == Bumped(Accum(recs, x.url, round), x.requestTime, round)
  {
    DurationsSnoc(recs, x, x.url);
    TimesSnoc(Durations(recs, x.url), x.requestTime, round);
  }

  lemma AccumOther(recs: seq<LogLine>, x: LogLine, u: string, round: real -> real)
    requires u != x.url && |Durations(recs, u)| > 0
    ensures |Durations(recs + [x], u)| > 0 && Accum(recs + [x], u, round) == Accum(recs, u, round)
  {
    DurationsSnoc(recs, x, u);
    assert Durations(recs + [x], u) == Durations(recs, u);
  }

  /** The variables of the scanning loop: `stats`, `req_times`, the key order, the counters. */
  datatype Pass = Pass(
    stats: map<string, UrlStats>,
    reqTimes: map<string, seq<real>>,
    order: seq<string>,
    total: nat,
    err: nat,
    summary: real)

  /** One iteration of `for logline_info in logfile_parser`. */
  function Step(p: Pass, item: Option<LogLine>, round: real -> real): Pass {
    match item
    case None => p.(total := p.total + 1, err := p.err + 1)
    case Some(info) =>
      var u, t := info.url, info.requestTime;
      var stats := if u !in p.stats then p.stats[u := NewEntry(u, t)] else p.stats[u := Bumped(p.stats[u], t, round)];
      var order := if u !in p.stats then p.order + [u] else p.order;
      var times := if u in p.reqTimes then p.reqTimes[u] else [];
      Pass(stats, p.reqTimes[u := times + [t]], order, p.total + 1, p.err, p.summary + t)
  }

  /** The loop variables after the lines `items`. */
  function Scan(items: seq<Option<LogLine>>, round: real -> real): Pass {
    if items == [] then Pass(map[], map[], [], 0, 0, 0.0)
    else Step(Scan(items[..|items| - 1], round), items[|items| - 1], round)
  }

  /** `list(stats.values())`: the entries in key order. */
  function Values(stats: map<string, UrlStats>, order: seq<string>): seq<UrlStats>
    requires forall u :: u in order ==> u in stats
  {
    seq(|order|, j requires 0 <= j < |order| => stats[order[j]])
  }

  /** The loop variables agree with the accumulated state of the records `recs`. */
  ghost predicate PassState(
    recs: seq<LogLine>, round: real -> real, summary: real,
    stats: map<string, UrlStats>, reqTimes: map<string, seq<real>>, order: seq<string>)
  {
    && summary == SummaryTime(recs)
    && order == Urls(recs)
    && (forall u :: u in stats <==> u in order)
    && (forall u :: u in reqTimes <==> u in order)
    && EntriesMatch(recs, round, stats, reqTimes, order)
  }

  /** The dictionary entries agree with the accumulated state of `recs`. */
  ghost predicate EntriesMatch(
    recs: seq<LogLine>, round: real -> real,
    stats: map<string, UrlStats>, reqTimes: map<string, seq<real>>, order: seq<string>)
  {
    forall u :: u in order ==>
      && u in stats && u in reqTimes && |Durations(recs, u)| > 0
      && stats[u] == Accum(recs, u, round) && reqTimes[u] == Durations(recs, u)
  }

  /** Replacing the entry of `x.url` by its next state keeps every entry matching. */
  lemma EntriesStep(
    recs: seq<LogLine>, x: LogLine, round: real -> real,
    stats: map<string, UrlStats>, reqTimes: map<string, seq<real>>, order: seq<string>,
    s: UrlStats, ts: seq<real>)
    requires EntriesMatch(recs, round, stats, reqTimes, order)
    requires |Durations(recs + [x], x.url)| > 0
    requires s == Accum(recs + [x], x.url, round) && ts == Durations(recs + [x], x.url)
    ensures EntriesMatch(recs + [x], round, stats[x.url := s], reqTimes[x.url := ts], order + [x.url])
    ensures EntriesMatch(recs + [x], round, stats[x.url := s], reqTimes[x.url := ts], order)
  {
    forall u | u in order + [x.url]
      ensures u in stats[x.url := s] && u in reqTimes[x.url := ts] && |Durations(recs + [x], u)| > 0
      ensures stats[x.url := s][u] == Accum(recs + [x], u, round)
      ensures reqTimes[x.url := ts][u] == Durations(recs + [x], u)
    {
      if u != x.url {
        assert u in order;
        AccumOther(recs, x, u, round);
      }
    }
  }

  /** A record of a new URL appends it to the key order. */
  lemma PassStateFirst(
    recs: seq<LogLine>, x: LogLine, round: real -> real, summary: real,
    stats: map<string, UrlStats>, reqTimes: map<string, seq<real>>, order: seq<string>)
    requires PassState(recs, round, summary, stats, reqTimes, order)
    requires x.url !in stats
    ensures PassState(recs + [x], round, summary + x.requestTime,
        stats[x.url := NewEntry(x.url, x.requestTime)],
        reqTimes[x.url := [x.requestTime]], order + [x.url])
  {
    UrlsSnoc(recs, x);
    SummarySnoc(recs, x);
    AccumFirst(recs, x, round);
    DurationsSnoc(recs, x, x.url);
    UrlsAndDurations(recs, x.url);
    EntriesStep(recs, x, round, stats, reqTimes, order, NewEntry(x.url, x.requestTime), [x.requestTime]);
  }

  /** A record of a known URL updates its entry in place. */
  lemma PassStateNext(
    recs: seq<LogLine>, x: LogLine, round: real -> real, summary: real,
    stats: map<string, UrlStats>, reqTimes: map<string, seq<real>>, order: seq<string>)
    requires PassState(recs, round, summary, stats, reqTimes, order)
    requires x.url in stats
    ensures PassState(recs + [x], round, summary + x.requestTime,
        stats[x.url := Bumped(stats[x.url], x.requestTime, round)],
        reqTimes[x.url := reqTimes[x.url] + [x.requestTime]], order)
  {
    UrlsSnoc(recs, x);
    SummarySnoc(recs, x);
    AccumNext(recs, x, round);
    DurationsSnoc(recs, x, x.url);
    EntriesStep(recs, x, round, stats, reqTimes, order,
      Bumped(stats[x.url], x.requestTime, round), reqTimes[x.url] + [x.requestTime]);
  }

  /** A record of a URL already in `stats`. */
  lemma StepKnown(recs: seq<LogLine>, p: Pass, x: LogLine, round: real -> real)
    requires PassState(recs, round, p.summary, p.stats, p.reqTimes, p.order)
    requires x.url in p.stats
    ensures var q := Step(p, Some(x), round);
      PassState(recs + [x], round, q.summary, q.stats, q.reqTimes, q.order)
  {
    assert x.url in p.order;
    PassStateNext(recs, x, round, p.summary, p.stats, p.reqTimes, p.order);
    StepKnownIs(p, x, round);
  }

  lemma StepKnownIs(p: Pass, x: LogLine, round: real -> real)
    requires x.url in p.stats && x.url in p.reqTimes
    ensures var u, t := x.url, x.requestTime;
      Step(p, Some(x), round)
        == Pass(p.stats[u := Bumped(p.stats[u], t, round)], p.reqTimes[u := p.reqTimes[u] + [t]],
                p.order, p.total + 1, p.err, p.summary + t)
  {
  }

  /** The first record of a URL. */
  lemma StepNew(recs: seq<LogLine>, p: Pass, x: LogLine, round: real -> real)
    requires PassState(recs, round, p.summary, p.stats, p.reqTimes, p.order)
    requires x.url !in p.stats
    ensures var q := Step(p, Some(x), round);
      PassState(recs + [x], round, q.summary, q.stats, q.reqTimes, q.order)
  {
    assert x.url !in p.reqTimes;
    PassStateFirst(recs, x, round, p.summary, p.stats, p.reqTimes, p.order);
    StepNewIs(p, x, round);
  }

  lemma StepNewIs(p: Pass, x: LogLine, round: real -> real)
    requires x.url !in p.stats && x.url !in p.reqTimes
    ensures var u, t := x.url, x.requestTime;
      Step(p, Some(x), round)
        == Pass(p.stats[u := NewEntry(u, t)], p.reqTimes[u := [t]], p.order + [u], p.total + 1, p.err, p.summary + t)
  {
    assert [] + [x.requestTime] == [x.requestTime];
  }

  /** What the loop variables hold after the lines `items`. */
  lemma {:induction false} ScanMeaning(items: seq<Option<LogLine>>, round: real -> real)
    ensures Scan(items, round).total == |items|
    ensures Scan(items, round).err == ErrorCount(items)
    ensures var p := Scan(items, round);
      PassState(Records(items), round, p.summary, p.stats, p.reqTimes, p.order)
  {
    if items != [] {
      var prefix, last := items[..|items| - 1], items[|items| - 1];
      ScanMeaning(prefix, round);
      var p := Scan(prefix, round);
      match last {
        case None =>
          assert Records(items) == Records(prefix);
        case Some(x) =>
          assert Records(items) == Records(prefix) + [x];
          if x.url in p.stats {
            StepKnown(Records(prefix), p, x, round);
          } else {
            StepNew(Records(prefix), p, x, round);
          }
      }
    }
  }

  /** The consequences of `ScanMeaning` the second half of the function relies on. */
  lemma ScanFacts(items: seq<Option<LogLine>>, round: real -> real)
    ensures Scan(items, round).total == |items|
    ensures Scan(items, round).err == ErrorCount(items)
    ensures Scan(items, round).summary == SummaryTime(Records(items))
    ensures forall u :: u in Scan(items, round).order ==> u in Scan(items, round).stats
    ensures Values(Scan(items, round).stats, Scan(items, round).order) == Rows(Records(items), round)
    ensures forall u :: u in Urls(Records(items)) ==>
      u in Scan(items, round).reqTimes && Scan(items, round).reqTimes[u] == Durations(Records(items), u)
  {
    ScanMeaning(items, round);
  }

  /**
   * The `for logline_info in logfile_parser` loop of `get_logfile_stats`: the line counters,
   * `stats` (its key order kept in `order`), `req_times` and `summary_time`.
   */
  method ScanLines(items: seq<Option<LogLine>>, round: real -> real)
    returns (stats: map<string, UrlStats>, reqTimes: map<string, seq<real>>, order: seq<string>,
             totalLines: nat, errLines: nat, summaryTime: real)
    ensures Pass(stats, reqTimes, order, totalLines, errLines, summaryTime) == Scan(items, round)
  {
    stats, reqTimes, order := map[], map[], [];
    totalLines, errLines, summaryTime := 0, 0, 0.0;
    var i := 0;
    while i < |items|
      invariant i <= |items|
      invariant Pass(stats, reqTimes, order, totalLines, errLines, summaryTime) == Scan(items[..i], round)
    {
      assert items[..i + 1][..i] == items[..i];
      totalLines := totalLines + 1;
      match items[i] {
        case None =>
          errLines := errLines + 1;
        case Some(info) =>
          if info.url !in stats {
            stats := stats[info.url := NewEntry(info.url, info.requestTime)];
            order := order + [info.url];
          } else {
            stats := stats[info.url := Bumped(stats[info.url], info.requestTime, round)];
          }
          var times := if info.url in reqTimes then reqTimes[info.url] else [];
          reqTimes := reqTimes[info.url := times + [info.requestTime]];
          summaryTime := summaryTime + info.requestTime;
      }
      i := i + 1;
    }
    assert items[..i] == items;
  }

  /** The kept rows finished with the durations held in `req_times`. */
  function FinishedWith(rows: seq<UrlStats>, kept: nat, summary: real, reqTimes: map<string, seq<real>>, round: real -> real): seq<UrlStats>
    requires forall j :: 0 <= j < |rows| ==>
      rows[j].count > 0 && rows[j].url in reqTimes && |reqTimes[rows[j].url]| > 0
    requires |rows| > 0 ==> kept > 0 && summary != 0.0
  {
    seq(|rows|, j requires 0 <= j < |rows| => Finalize(rows[j], kept, summary, reqTimes[rows[j].url], round))
  }

  /**
   * The `for idx, elem in enumerate(result)` loop: each kept row gets its percentages, average
   * and median; the first one divides by `summary_time`, which fails when that is zero.
   */
  method FinishRows(rows: seq<UrlStats>, kept: nat, summary: real, reqTimes: map<string, seq<real>>, round: real -> real)
    returns (r: Result<seq<UrlStats>, StatsError>)
    requires forall j :: 0 <= j < |rows| ==>
      rows[j].count > 0 && rows[j].url in reqTimes && |reqTimes[rows[j].url]| > 0
    requires |rows| > 0 ==> kept > 0
    ensures |rows| > 0 && summary == 0.0 ==> r == Err(ZeroDivision)
    ensures !(|rows| > 0 && summary == 0.0) ==> r == Ok(FinishedWith(rows, kept, summary, reqTimes, round))
  {
    var result := rows;
    var idx := 0;
    while idx < |rows|
      invariant idx <= |rows| && |result| == |rows|
      invariant idx > 0 ==> summary != 0.0
      invariant forall j :: 0 <= j < idx ==> result[j] == Finalize(rows[j], kept, summary, reqTimes[rows[j].url], round)
      invariant forall j :: idx <= j < |rows| ==> result[j] == rows[j]
    {
      if summary == 0.0 {
        return Err(ZeroDivision);
      }
      var elem := result[idx];
      result := result[idx := Finalize(elem, kept, summary, reqTimes[elem.url], round)];
      idx := idx + 1;
    }
    assert result == FinishedWith(rows, kept, summary, reqTimes, round);
    return Ok(result);
  }

  /** Reading the durations from `req_times` or from the records gives the same rows. */
  lemma FinishedAgree(recs: seq<LogLine>, round: real -> real, kept: nat, summary: real,
                      rows: seq<UrlStats>, reqTimes: map<string, seq<real>>)
    requires forall j :: 0 <= j < |rows| ==>
      rows[j].count > 0 && |Durations(recs, rows[j].url)| > 0
      && rows[j].url in reqTimes && reqTimes[rows[j].url] == Durations(recs, rows[j].url)
    requires kept > 0 && (|rows| > 0 ==> summary != 0.0)
    ensures FinishedWith(rows, kept, summary, reqTimes, round) == Finished(recs, round, kept, summary, rows)
  {
  }

  /** `err_lines / total_lines > 0.2`, over exact reals, is a comparison of integers. */
  lemma ErrorRate(err: nat, total: nat)
    requires total > 0
    ensures (err as real) / (total as real) > ErrorThreshold <==> (err as real) > ErrorThreshold * (total as real)
    ensures (err as real) > ErrorThreshold * (total as real) <==> 5 * err > total
  {
    var rate := (err as real) / (total as real);
    assert rate * (total as real) == err as real;
  }

  /** `err_perc = err_lines / total_lines` and its comparison with the threshold. */
  method ErrorShareExceeded(errLines: nat, totalLines: nat) returns (exceeded: bool)
    requires totalLines > 0
    ensures exceeded <==> 5 * errLines > totalLines
  {
    var errPerc := (errLines as real) / (totalLines as real);
    ErrorRate(errLines, totalLines);
    exceeded := errPerc > ErrorThreshold;
  }

  /** The number of rows `[:result_size]` keeps: a negative size counts from the end. */
  function Kept(resultSize: int, n: nat): (k: nat)
    ensures k <= n
    ensures 0 <= resultSize ==> k == if resultSize < n then resultSize else n
    ensures resultSize < 0 ==> k == if n + resultSize < 0 then 0 else n + resultSize
  {
    if resultSize >= 0 then (if resultSize < n then resultSize else n)
    else if n + resultSize < 0 then 0 else n + resultSize
  }

  /** What the loop leaves behind is enough to rank and finish the kept rows. */
  lemma RankedViaScan(
    items: seq<Option<LogLine>>, round: real -> real,
    stats: map<string, UrlStats>, reqTimes: map<string, seq<real>>, order: seq<string>,
    total: nat, err: nat, summary: real)
    requires Pass(stats, reqTimes, order, total, err, summary) == Scan(items, round)
    ensures total == |items| && err == ErrorCount(items) && err <= total
    ensures summary == SummaryTime(Records(items))
    ensures forall u :: u in order ==> u in stats
    ensures var ranked := SortDesc(Values(stats, order), TimeSumOf);
      && ranked == Ranked(Records(items), round)
      && (forall j :: 0 <= j < |ranked| ==>
            ranked[j].count > 0 && ranked[j].url in reqTimes
            && reqTimes[ranked[j].url] == Durations(Records(items), ranked[j].url)
            && |Durations(Records(items), ranked[j].url)| > 0)
  {
    ScanFacts(items, round);
    RankedCounts(Records(items), round);
    RecordsAndErrors(items);
  }

  /** `Report` is what the second half of the function makes of the loop's results. */
  lemma ReportViaScan(
    items: seq<Option<LogLine>>, resultSize: int, round: real -> real,
    reqTimes: map<string, seq<real>>, ranked: seq<UrlStats>, rows: seq<UrlStats>,
    total: nat, err: nat, kept: nat, summary: real, r: Result<seq<UrlStats>, StatsError>)
    requires total == |items| && err == ErrorCount(items) && summary == SummaryTime(Records(items))
    requires total > 0 && !(5 * err > total) && kept == total - err
    requires ranked == Ranked(Records(items), round)
    requires forall j :: 0 <= j < |ranked| ==>
      ranked[j].count > 0 && ranked[j].url in reqTimes
      && reqTimes[ranked[j].url] == Durations(Records(items), ranked[j].url)
      && |Durations(Records(items), ranked[j].url)| > 0
    requires rows == ranked[..Kept(resultSize, |ranked|)]
    requires |rows| > 0 && summary == 0.0 ==> r == Err(ZeroDivision)
    requires !(|rows| > 0 && summary == 0.0) ==> r == Ok(FinishedWith(rows, kept, summary, reqTimes, round))
    ensures r == Report(items, resultSize, round)
  {
    var k := Kept(resultSize, |ranked|);
    assert Report(items, resultSize, round) == Summarize(Records(items), kept, resultSize, round);
    if !(k > 0 && summary == 0.0) {
      FinishedAgree(Records(items), round, kept, summary, ranked[..k], reqTimes);
      assert r == Ok(Finished(Records(items), round, kept, summary, ranked[..k]));
      assert Summarize(Records(items), kept, resultSize, round) == Ok(Finished(Records(items), round, kept, summary, ranked[..k]));
    } else {
      assert r == Err(ZeroDivision);
    }
  }

  /** `get_logfile_stats` over the lines `logfile_parser` yields. */
  method GetLogfileStats(items: seq<Option<LogLine>>, resultSize: int, round: real -> real)
    returns (r: Result<seq<UrlStats>, StatsError>)
    ensures r == Report(items, resultSize, round)
  {
    var stats, reqTimes, order, totalLines, errLines, summaryTime := ScanLines(items, round);
    RankedViaScan(items, round, stats, reqTimes, order, totalLines, errLines, summaryTime);
    if totalLines == 0 {
      return Err(ZeroDivision);
    }
    var tooMany := ErrorShareExceeded(errLines, totalLines);
    if tooMany {
      return Err(ThresholdExceeded);
    }
    var ranked := SortDesc(Values(stats, order), TimeSumOf);
    var result := ranked[..Kept(resultSize, |ranked|)];
    var kept := totalLines - errLines;
    r := FinishRows(result, kept, summaryTime, reqTimes, round);
    ReportViaScan(items, resultSize, round, reqTimes, ranked, result, totalLines, errLines, kept, summaryTime, r);
  }
}
