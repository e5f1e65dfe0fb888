/**
 * Choosing the log file to analyse from the names found in the log directory
 * (`select_last_logfile`).
 */
module Selector {
  import opened Wrappers
  import opened Chars
  import opened Dates

  datatype LogfileType = Plain | Gzip

  /** The `LogfileInfo` named tuple: which file, the date in its name, its compression. */
  datatype LogfileInfo = LogfileInfo(path: string, date: Date, kind: LogfileType)

  /** The four groups of the file-name pattern, converted by `int` (the year, month and day) and by `len` (the extension). */
  datatype NameMatch = NameMatch(year: nat, month: nat, day: nat, gz: bool)

  /** `$` matches at the very end or just before one final newline: the part of `name` the rest of the pattern must cover. */
  function Body(name: string): string {
    if |name| > 0 && name[|name| - 1] == '\n' then name[..|name| - 1] else name
  }

  /**
   * `nginx-access-ui.log-(19\d\d|20\d\d)([01]\d)([0-3]\d)(\.gz|)` matched against all of `b`.
   * The first `.` is unescaped, so position 15 may hold any character but a newline; the one in `\.gz` is a dot.
   */
  predicate MatchesPattern(b: string) {
    && (|b| == 28 || (|b| == 31 && b[28..] == ".gz"))
    && b[..15] == "nginx-access-ui"
    && b[15] != '\n'
    && b[16..20] == "log-"
    && All(b[20..28], IsDigit)
    && (b[20..22] == "19" || b[20..22] == "20")
    && '0' <= b[24] <= '1'
    && '0' <= b[26] <= '3'
  }

  /** The match object of the file-name pattern, or None when the name does not match it. */
  function MatchName(name: string): (m: Option<NameMatch>)
    ensures m.Some? <==> MatchesPattern(Body(name))
    ensures m.Some? ==> All(Body(name)[20..24], IsDigit) && All(Body(name)[24..26], IsDigit) && All(Body(name)[26..28], IsDigit)
    ensures m.Some? ==> && m.value.year == DigitsValue(Body(name)[20..24])
                        && m.value.month == DigitsValue(Body(name)[24..26])
                        && m.value.day == DigitsValue(Body(name)[26..28])
    ensures m.Some? ==> 1900 <= m.value.year <= 2099 && m.value.month <= 19 && m.value.day <= 39
    ensures m.Some? ==> (m.value.gz <==> |Body(name)| == 31)
  {
    var b := Body(name);
    if MatchesPattern(b) then
      PatternGroups(b);
      Some(NameMatch(DigitsValue(b[20..24]), DigitsValue(b[24..26]), DigitsValue(b[26..28]), |b| == 31))
    else
      None
  }

  /** The digit groups of a matching name, and the ranges `19\d\d|20\d\d`, `[01]\d` and `[0-3]\d` give them. */
  lemma PatternGroups(b: string)
    requires MatchesPattern(b)
    ensures All(b[20..24], IsDigit) && All(b[24..26], IsDigit) && All(b[26..28], IsDigit)
    ensures 1900 <= DigitsValue(b[20..24]) <= 2099
    ensures DigitsValue(b[24..26]) <= 19 && DigitsValue(b[26..28]) <= 39
  {
    var digits := b[20..28];
    assert forall i :: 0 <= i < 4 ==> b[20..24][i] == digits[i];
    assert forall i :: 0 <= i < 2 ==> b[24..26][i] == digits[4 + i] && b[26..28][i] == digits[6 + i];
    DigitsValue4(b[20..24]);
    DigitsValue2(b[24..26]);
    DigitsValue2(b[26..28]);
    assert b[20..22][0] == b[20] && b[20..22][1] == b[21];
  }

  /** The name carries the compressed extension (before the optional final newline). */
  predicate HasGzExtension(name: string) {
    var b := Body(name);
    |b| >= 3 && b[|b| - 3..] == ".gz"
  }

  /**
   * What one loop iteration makes of a directory entry: None when the pattern does not match or the
   * digits are no calendar date (both raise inside the `try` and are skipped), else the entry's
   * LogfileInfo.
   */
  function Candidate(name: string): (c: Option<LogfileInfo>)
    ensures c.Some? <==> MatchName(name).Some? && IsValid(Date(MatchName(name).value.year, MatchName(name).value.month, MatchName(name).value.day))
    ensures c.Some? ==> c.value.path == name && MatchName(name).Some?
    ensures c.Some? ==> c.value.date == Date(DigitsValue(Body(name)[20..24]), DigitsValue(Body(name)[24..26]), DigitsValue(Body(name)[26..28]))
    ensures c.Some? ==> IsValid(c.value.date) && 1900 <= c.value.date.year <= 2099
    ensures c.Some? ==> (c.value.kind == Gzip <==> HasGzExtension(name))
  {
    match MatchName(name)
    case None => None
    case Some(m) =>
      var d := Date(m.year, m.month, m.day);
      if IsValid(d) then Some(LogfileInfo(name, d, if m.gz then Gzip else Plain)) else None
  }

  /** What the loop makes of each name, in directory order. */
  function Candidates(files: seq<string>): (cs: seq<Option<LogfileInfo>>)
    ensures |cs| == |files|
  {
    if files == [] then [] else Candidates(files[..|files| - 1]) + [Candidate(files[|files| - 1])]
  }

  lemma {:induction false} CandidatesAt(files: seq<string>, j: int)
    requires 0 <= j < |files|
    ensures Candidates(files)[j] == Candidate(files[j])
  {
    var init := files[..|files| - 1];
    if j < |files| - 1 {
      CandidatesAt(init, j);
      assert init[j] == files[j];
    }
  }

  /** Among the first `n` candidates, the one at `k` has the latest date and no earlier one carries that date. */
  ghost predicate FirstLatest(cs: seq<Option<LogfileInfo>>, k: int, n: int)
    requires 0 <= k < n <= |cs|
  {
    && cs[k].Some?
    && (forall j :: 0 <= j < n && cs[j].Some? ==> !Before(cs[k].value.date, cs[j].value.date))
    && (forall j :: 0 <= j < k && cs[j].Some? ==> Before(cs[j].value.date, cs[k].value.date))
  }

  /** The scan stops at `j`: that candidate is dated `today` and beats every earlier one. */
  ghost predicate StopsAt(cs: seq<Option<LogfileInfo>>, today: Date, j: int)
    requires 0 <= j < |cs|
  {
    && cs[j].Some?
    && cs[j].value.date == today
    && forall i :: 0 <= i < j && cs[i].Some? ==> Before(cs[i].value.date, today)
  }

  /**
   * What the scan knows after `i` names: `found` says whether a candidate was seen (`result.path is
   * not None`), `k` is where the best one stands, and the scan has not stopped yet.
   */
  ghost predicate ScanState(cs: seq<Option<LogfileInfo>>, today: Date, i: int, found: bool, k: int, best: LogfileInfo)
    requires 0 <= i <= |cs|
  {
    && (!found ==> best.date == MinDate && forall j :: 0 <= j < i ==> cs[j].None?)
    && (found ==> 0 <= k < i && cs[k] == Some(best) && FirstLatest(cs, k, i))
    && forall j :: 0 <= j < i ==> !StopsAt(cs, today, j)
  }

  /**
   * The result `select_last_logfile` promises for candidates `cs`: None exactly when there is no
   * candidate; the candidate where the scan stops, if it stops; otherwise the first candidate that
   * carries the latest date.
   */
  ghost predicate Selected(cs: seq<Option<LogfileInfo>>, today: Date, r: Option<LogfileInfo>) {
    && (r.None? <==> forall j :: 0 <= j < |cs| ==> cs[j].None?)
    && (forall j :: 0 <= j < |cs| && StopsAt(cs, today, j) ==> r == cs[j])
    && (r.Some? && (forall j :: 0 <= j < |cs| ==> !StopsAt(cs, today, j)) ==>
          exists k :: 0 <= k < |cs| && r == cs[k] && FirstLatest(cs, k, |cs|))
  }

  /** A name no later than the current best leaves the scan where it is. */
  lemma ScanKeep(cs: seq<Option<LogfileInfo>>, today: Date, i: int, found: bool, k: int, best: LogfileInfo)
    requires 0 <= i < |cs| && ScanState(cs, today, i, found, k, best)
    requires cs[i].Some? ==> 1900 <= cs[i].value.date.year && !Before(best.date, cs[i].value.date)
    ensures ScanState(cs, today, i + 1, found, k, best)
  {
    if found {
      assert FirstLatest(cs, k, i + 1);
    }
  }

  /** A name later than everything before it, but not dated today, becomes the best. */
  lemma ScanReplace(cs: seq<Option<LogfileInfo>>, today: Date, i: int, found: bool, k: int, best: LogfileInfo)
    requires 0 <= i < |cs| && ScanState(cs, today, i, found, k, best)
    requires cs[i].Some? && Before(best.date, cs[i].value.date) && cs[i].value.date != today
    ensures ScanState(cs, today, i + 1, true, i, cs[i].value)
  {
    assert FirstLatest(cs, i, i + 1);
  }

  /** A name later than everything before it and dated today ends the scan with it. */
  lemma ScanStop(cs: seq<Option<LogfileInfo>>, today: Date, i: int, found: bool, k: int, best: LogfileInfo)
    requires 0 <= i < |cs| && ScanState(cs, today, i, found, k, best)
    requires cs[i].Some? && Before(best.date, cs[i].value.date) && cs[i].value.date == today
    ensures Selected(cs, today, cs[i])
  {
    assert FirstLatest(cs, i, i + 1);
    assert StopsAt(cs, today, i);
  }

  /** Having read every name without stopping, the scan returns the best candidate, if any. */
  lemma ScanEnd(cs: seq<Option<LogfileInfo>>, today: Date, found: bool, k: int, best: LogfileInfo)
    requires ScanState(cs, today, |cs|, found, k, best)
    ensures Selected(cs, today, if found then Some(best) else None)
  {
  }

  /**
   * `select_last_logfile`, with `datetime.date.today()` passed in as `today`.
   * Returns None exactly when no name is a candidate. If some candidate dated `today` beats all
   * earlier ones, the scan stops there and returns it; otherwise it returns the first candidate
   * carrying the latest date of all.
   */
  method SelectLastLogfile(files: seq<string>, today: Date) returns (r: Option<LogfileInfo>)
    ensures Selected(Candidates(files), today, r)
  {
    ghost var cs := Candidates(files);
    // `found` stands for `result.path is not None`.
    var result := LogfileInfo("", MinDate, Plain);
    var found := false;
    ghost var k := 0;
    var i := 0;
    while i < |files|
      invariant 0 <= i <= |files|
      invariant ScanState(cs, today, i, found, k, result)
    {
      var entry := files[i];
      var cur := Candidate(entry);
      CandidatesAt(files, i);
      if cur.Some? && Before(result.date, cur.value.date) {
        if cur.value.date == today {
          ScanStop(cs, today, i, found, k, result);
          return cur;
        }
        ScanReplace(cs, today, i, found, k, result);
        result := cur.value;
        found := true;
        k := i;
      } else {
        ScanKeep(cs, today, i, found, k, result);
      }
      i := i + 1;
    }
    ScanEnd(cs, today, found, k, result);
    if found {
      r := Some(result);
    } else {
      r := None;
    }
  }

  /** The unit test: a directory holding only `nginx-access-ui.log-20180630` yields that plain file. */
  method SelectSample(today: Date) returns (r: Option<LogfileInfo>)
    ensures r == Some(LogfileInfo("nginx-access-ui.log-20180630", Date(2018, 6, 30), Plain))
  {
    var name := "nginx-access-ui.log-20180630";
    SampleNameIsCandidate();
    r := SelectLastLogfile([name], today);
    ghost var cs := Candidates([name]);
    CandidatesAt([name], 0);
    if !StopsAt(cs, today, 0) {
      var k :| 0 <= k < 1 && r == cs[k] && FirstLatest(cs, k, 1);
    }
  }

  /** A matching name's groups, read from the positions the pattern gives them. */
  lemma NameGroups(name: string, y: string, m: string, d: string)
    requires MatchesPattern(Body(name))
    requires Body(name)[20..24] == y && Body(name)[24..26] == m && Body(name)[26..28] == d
    ensures All(y, IsDigit) && All(m, IsDigit) && All(d, IsDigit)
    ensures MatchName(name) == Some(NameMatch(DigitsValue(y), DigitsValue(m), DigitsValue(d), |Body(name)| == 31))
  {
    PatternGroups(Body(name));
  }

  /** The name of the log of date `d`: the date as `%Y%m%d`, then `.gz` for a GZIP file. */
  function LogName(d: Date, kind: LogfileType): (name: string)
    requires IsValid(d)
    ensures |name| == (if kind == Gzip then 31 else 28)
  {
    NamePieces(FixedDigits(d.year, 4), FixedDigits(d.month, 2), FixedDigits(d.day, 2), Ext(kind))
  }

  function Ext(kind: LogfileType): string {
    if kind == Gzip then ".gz" else ""
  }

  function NamePieces(y: string, m: string, d: string, ext: string): string {
    "nginx-access-ui.log-" + y + m + d + ext
  }

  /** Where the pieces of a log name stand. */
  lemma NamePiecesAt(y: string, m: string, d: string, ext: string)
    requires |y| == 4 && |m| == 2 && |d| == 2 && All(d, IsDigit) && (ext == "" || ext == ".gz")
    ensures var b := NamePieces(y, m, d, ext);
      && |b| == 28 + |ext| && Body(b) == b
      && b[..15] == "nginx-access-ui" && b[15] == '.' && b[16..20] == "log-"
      && b[20..28] == y + m + d && b[20..24] == y && b[24..26] == m && b[26..28] == d && b[28..] == ext
  {
    var b := NamePieces(y, m, d, ext);
    assert b == "nginx-access-ui.log-" + (y + (m + (d + ext)));
    if ext == "" {
      assert b[27] == d[1];
    } else {
      assert b[|b| - 1] == 'z';
    }
  }

  /** `%Y` of a year from 1900 to 2099 starts with `19` or `20`. */
  lemma YearLead(n: nat)
    requires 1900 <= n <= 2099
    ensures FixedDigits(n, 4)[..2] == "19" || FixedDigits(n, 4)[..2] == "20"
  {
    var s := FixedDigits(n, 4);
    assert s == FixedDigits(n / 10, 3) + [DigitChar(n % 10)];
    assert FixedDigits(n / 10, 3) == FixedDigits(n / 100, 2) + [DigitChar((n / 10) % 10)];
    assert FixedDigits(n / 100, 2) == FixedDigits(n / 1000, 1) + [DigitChar((n / 100) % 10)];
    assert FixedDigits(n / 1000, 1) == [DigitChar((n / 1000) % 10)];
    assert s[..2] == [DigitChar((n / 1000) % 10), DigitChar((n / 100) % 10)];
    if n < 2000 {
      assert (n / 1000) % 10 == 1 && (n / 100) % 10 == 9;
    } else {
      assert (n / 1000) % 10 == 2 && (n / 100) % 10 == 0;
    }
  }

  /** The tens digit of a two-digit field. */
  lemma TensDigit(n: nat)
    requires n < 100
    ensures FixedDigits(n, 2)[0] == DigitChar(n / 10)
  {
    assert FixedDigits(n, 2) == FixedDigits(n / 10, 1) + [DigitChar(n % 10)];
    assert FixedDigits(n / 10, 1) == [DigitChar((n / 10) % 10)];
  }

  /**
   * Every valid date from 1900 to 2099, written into a log name, is read back from it: the name is
   * a candidate with exactly that date and compression.
   */
  lemma LogNameRoundTrip(d: Date, kind: LogfileType)
    requires IsValid(d) && 1900 <= d.year <= 2099
    ensures Candidate(LogName(d, kind)) == Some(LogfileInfo(LogName(d, kind), d, kind))
  {
    var y, m, dd, ext := FixedDigits(d.year, 4), FixedDigits(d.month, 2), FixedDigits(d.day, 2), Ext(kind);
    var b := LogName(d, kind);
    NamePiecesAt(y, m, dd, ext);
    YearLead(d.year);
    TensDigit(d.month);
    TensDigit(d.day);
    AllConcat(y, m, IsDigit);
    AllConcat(y + m, dd, IsDigit);
    assert MatchesPattern(b);
    assert Pow10(4) == 10000 && Pow10(2) == 100;
    FixedDigitsValue(d.year, 4);
    FixedDigitsValue(d.month, 2);
    FixedDigitsValue(d.day, 2);
    NameGroups(b, y, m, dd);
  }

  lemma SampleNamePattern()
    ensures var b := "nginx-access-ui.log-20180630";
      Body(b) == b && MatchesPattern(b) && b[20..24] == "2018" && b[24..26] == "06" && b[26..28] == "30"
  {
    var b := "nginx-access-ui.log-20180630";
    assert Body(b) == b;
    assert b[..15] == "nginx-access-ui";
    assert b[16..20] == "log-";
    assert b[20..22] == "20";
    assert b[20..28] == "20180630";
  }

  lemma SampleNameIsCandidate()
    ensures Candidate("nginx-access-ui.log-20180630") == Some(LogfileInfo("nginx-access-ui.log-20180630", Date(2018, 6, 30), Plain))
  {
    SampleNamePattern();
    NameGroups("nginx-access-ui.log-20180630", "2018", "06", "30");
    DigitsValue4("2018");
    DigitsValue2("06");
    DigitsValue2("30");
    assert IsValid(Date(2018, 6, 30));
  }

  /** A name that matches the pattern with month 13 is skipped. */
  lemma MonthThirteenSkipped()
    ensures Candidate("nginx-access-ui.log-20181301").None?
  {
    var b := "nginx-access-ui.log-20181301";
    assert Body(b) == b && b[..15] == "nginx-access-ui" && b[16..20] == "log-" && b[20..22] == "20";
    assert b[20..28] == "20181301" && b[24..26] == "13";
    DigitsValue2("13");
  }

  /** A name that matches the pattern with 30 February is skipped. */
  lemma February30Skipped()
    ensures Candidate("nginx-access-ui.log-20180230").None?
  {
    var b := "nginx-access-ui.log-20180230";
    assert Body(b) == b && b[..15] == "nginx-access-ui" && b[16..20] == "log-" && b[20..22] == "20";
    assert b[20..28] == "20180230" && b[24..26] == "02" && b[26..28] == "30";
    DigitsValue2("02");
    DigitsValue2("30");
  }

  lemma AnyCharPattern()
    ensures var b := "nginx-access-ui_log-20180630.gz";
      Body(b) == b && MatchesPattern(b) && |b| == 31 && b[20..24] == "2018" && b[24..26] == "06" && b[26..28] == "30"
  {
    var b := "nginx-access-ui_log-20180630.gz";
    assert Body(b) == b;
    assert b[..15] == "nginx-access-ui";
    assert b[16..20] == "log-";
    assert b[20..22] == "20";
    assert b[20..28] == "20180630";
    assert b[28..] == ".gz";
  }

  /** The unescaped `.` lets any character stand between `ui` and `log`; `.gz` makes the file GZIP. */
  lemma AnyCharBeforeLog()
    ensures Candidate("nginx-access-ui_log-20180630.gz") == Some(LogfileInfo("nginx-access-ui_log-20180630.gz", Date(2018, 6, 30), Gzip))
  {
    AnyCharPattern();
    NameGroups("nginx-access-ui_log-20180630.gz", "2018", "06", "30");
    DigitsValue4("2018");
    DigitsValue2("06");
    DigitsValue2("30");
    assert IsValid(Date(2018, 6, 30));
  }
}
