/** The name of the report written for a log date (`report_date`). */
module Report {
  import opened Wrappers
  import opened Chars
  import opened Dates

  /** The text `"report-" + y + "." + m + "." + d + ".html"`. */
  function Assemble(y: string, m: string, d: string): string {
    "report-" + y + "." + m + "." + d + ".html"
  }

  /** Where the pieces of an assembled name stand. */
  lemma AssembleParts(y: string, m: string, d: string)
    requires |y| == 4 && |m| == 2 && |d| == 2
    ensures var s := Assemble(y, m, d);
      && |s| == 22
      && s[..7] == "report-" && s[7..11] == y && s[11] == '.'
      && s[12..14] == m && s[14] == '.' && s[15..17] == d && s[17..] == ".html"
  {
    var s := Assemble(y, m, d);
    assert s == "report-" + (y + ("." + (m + ("." + (d + ".html")))));
  }

  /** A name split at the positions `Assemble` puts its pieces is assembled from them. */
  lemma AssembleOfParts(s: string)
    requires |s| == 22 && s[..7] == "report-" && s[11] == '.' && s[14] == '.' && s[17..] == ".html"
    ensures Assemble(s[7..11], s[12..14], s[15..17]) == s
  {
    AssembleParts(s[7..11], s[12..14], s[15..17]);
  }

  /**
   * `report_date`: `report-` + `strftime("%Y.%m.%d")` + `.html`, the year written with four digits
   * and the month and day zero-padded to two.
   */
  function ReportName(date: Date): (s: string)
    requires IsValid(date)
    ensures |s| == 22 && s[..7] == "report-" && s[17..] == ".html" && s[11] == '.' && s[14] == '.'
    ensures All(s[7..11], IsDigit) && All(s[12..14], IsDigit) && All(s[15..17], IsDigit)
  {
    var y, m, d := FixedDigits(date.year, 4), FixedDigits(date.month, 2), FixedDigits(date.day, 2);
    AssembleParts(y, m, d);
    Assemble(y, m, d)
  }

  /** Reads the date back out of a report name; None when `s` is not shaped like one. */
  function ParseReportName(s: string): (r: Option<Date>)
    ensures r.Some? ==> 0 <= r.value.year < 10000 && 0 <= r.value.month < 100 && 0 <= r.value.day < 100
  {
    if && |s| == 22 && s[..7] == "report-" && s[11] == '.' && s[14] == '.' && s[17..] == ".html"
       && All(s[7..11], IsDigit) && All(s[12..14], IsDigit) && All(s[15..17], IsDigit)
    then
      DigitsValueBound(s[7..11]);
      DigitsValueBound(s[12..14]);
      DigitsValueBound(s[15..17]);
      assert Pow10(4) == 10000 && Pow10(2) == 100;
      Some(Date(DigitsValue(s[7..11]), DigitsValue(s[12..14]), DigitsValue(s[15..17])))
    else None
  }

  /** Every report name gives its date back. */
  lemma ReportNameRoundTrip(date: Date)
    requires IsValid(date)
    ensures ParseReportName(ReportName(date)) == Some(date)
  {
    var y, m, d := FixedDigits(date.year, 4), FixedDigits(date.month, 2), FixedDigits(date.day, 2);
    AssembleParts(y, m, d);
    assert Pow10(4) == 10000 && Pow10(2) == 100;
    FixedDigitsValue(date.year, 4);
    FixedDigitsValue(date.month, 2);
    FixedDigitsValue(date.day, 2);
  }

  /** Whatever parses as a real date is the report name of that date. */
  lemma ParseReportNameSound(s: string)
    requires ParseReportName(s).Some? && IsValid(ParseReportName(s).value)
    ensures ReportName(ParseReportName(s).value) == s
  {
    FixedDigitsOfValue(s[7..11]);
    FixedDigitsOfValue(s[12..14]);
    FixedDigitsOfValue(s[15..17]);
    AssembleOfParts(s);
  }

  /** Different dates get different report names. */
  lemma ReportNameInjective(a: Date, b: Date)
    requires IsValid(a) && IsValid(b) && ReportName(a) == ReportName(b)
    ensures a == b
  {
    ReportNameRoundTrip(a);
    ReportNameRoundTrip(b);
  }

  /** The report for the log of 30 June 2018. */
  lemma ReportNameExample()
    ensures ReportName(Date(2018, 6, 30)) == "report-" + "2018" + "." + "06" + "." + "30" + ".html"
  {
    Digits2018();
    Digits06();
    Digits30();
  }

  lemma Digits2018()
    ensures FixedDigits(2018, 4) == "2018"
  {
    DigitsValue4("2018");
    FixedDigitsOfValue("2018");
  }

  lemma Digits06()
    ensures FixedDigits(6, 2) == "06"
  {
    DigitsValue2("06");
    FixedDigitsOfValue("06");
  }

  lemma Digits30()
    ensures FixedDigits(30, 2) == "30"
  {
    DigitsValue2("30");
    FixedDigitsOfValue("30");
  }
}
