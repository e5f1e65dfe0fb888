/**
 * One access-log line in the `ui_short` format (`logfile_line_pattern` and `parse_logfile_line`).
 *
 * The grammar is a `Layout`: the twelve fields that the pattern captures before the duration, each
 * with the whitespace that follows it, then the duration and whatever trails it (the pattern has no
 * `$`, so anything may follow the longest `\d+\.?\d*`). `Grammar` says which layouts are lines;
 * `Render` writes a layout out. `ParseLayout` is the deterministic parser: it returns only
 * grammatical layouts of its input, and it finds the layout of every rendered one.
 */
module LineParser {
  import opened Wrappers
  import opened Chars

  /** `.` inside `"(.*?)"`: any character but a newline; the first `"` closes the field. */
  predicate QuotedChar(c: char) { c != '"' && c != '\n' }

  /** `.` inside `\[(.*?)\]`: any character but a newline; the first `]` closes the field. */
  predicate TimeChar(c: char) { c != ']' && c != '\n' }

  /** `\S` inside the quoted request, where the first `"` closes the request. */
  predicate UrlChar(c: char) { NonSpace(c) && c != '"' }

  predicate NotQuote(c: char) { c != '"' }

  /** A printable ASCII character other than the space and `"`. */
  predicate Plain(c: char) { '!' <= c <= '~' && c != '"' }

  /** Plain text is neither whitespace nor quotes. */
  lemma PlainText(s: string)
    requires All(s, Plain)
    ensures All(s, UrlChar) && All(s, NonSpace)
  {
  }

  /** `\s+`. */
  predicate IsSeparator(w: string) { |w| > 0 && All(w, IsSpace) }

  datatype Kind = TokenKind | TimeKind | RequestKind | StatusKind | BytesKind | QuotedKind

  /** One captured field, as it stands in the line. */
  datatype Field =
    | Token(text: string)                                           // ([\S]+)
    | Time(text: string)                                            // \[(.*?)\]
    | Request(verb: string, gap: string, url: string, tail: string) // \"([A-Z]+\s+(\S+)\s+.*?)\"
    | Status(digits: string)                                        // (\d{3})
    | Bytes(digits: string)                                         // (\d+)
    | Quoted(text: string)                                          // \"(.*?)\"

  function KindOf(f: Field): Kind {
    match f
    case Token(_) => TokenKind
    case Time(_) => TimeKind
    case Request(_, _, _, _) => RequestKind
    case Status(_) => StatusKind
    case Bytes(_) => BytesKind
    case Quoted(_) => QuotedKind
  }

  /** `\s+.*?` after the URL: a run of whitespace, then characters that are neither `"` nor a newline. */
  ghost predicate ValidTail(tail: string) {
    exists k :: 1 <= k <= |tail| && All(tail[..k], IsSpace) && All(tail[k..], QuotedChar)
  }

  ghost predicate ValidField(f: Field) {
    match f
    case Token(t) => |t| > 0 && All(t, NonSpace)
    case Time(t) => All(t, TimeChar)
    case Request(m, g, u, tl) =>
      && |m| > 0 && All(m, IsUpper)
      && IsSeparator(g)
      && |u| > 0 && All(u, UrlChar)
      && ValidTail(tl)
    case Status(d) => |d| == 3 && All(d, IsDigit)
    case Bytes(d) => |d| > 0 && All(d, IsDigit)
    case Quoted(t) => All(t, QuotedChar)
  }

  /** The text of the request line, group 5 of the pattern. */
  function RequestText(f: Field): string
    requires f.Request?
  {
    f.verb + f.gap + f.url + f.tail
  }

  /** How a field is written in the line. */
  function FieldText(f: Field): string {
    match f
    case Token(t) => t
    case Time(t) => "[" + t + "]"
    case Request(_, _, _, _) => "\"" + RequestText(f) + "\""
    case Status(d) => d
    case Bytes(d) => d
    case Quoted(t) => "\"" + t + "\""
  }

  /** A field and the whitespace after it. */
  datatype Segment = Segment(field: Field, sep: string)

  /** `(\d+\.?\d*)`: the integer digits and, when the dot is present, the digits after it. */
  datatype Duration = Duration(whole: string, frac: Option<string>)

  datatype Layout = Layout(segments: seq<Segment>, duration: Duration, suffix: string)

  /** The fields of `ui_short` in order: three tokens, the time, the request, status, bytes, five quoted headers. */
  const Shape: seq<Kind> := [TokenKind, TokenKind, TokenKind, TimeKind, RequestKind, StatusKind, BytesKind,
                             QuotedKind, QuotedKind, QuotedKind, QuotedKind, QuotedKind]

  ghost predicate ValidSegments(segs: seq<Segment>, kinds: seq<Kind>) {
    && |segs| == |kinds|
    && forall i :: 0 <= i < |segs| ==>
         ValidField(segs[i].field) && KindOf(segs[i].field) == kinds[i] && IsSeparator(segs[i].sep)
  }

  function RenderSegments(segs: seq<Segment>): string {
    if segs == [] then [] else FieldText(segs[0].field) + segs[0].sep + RenderSegments(segs[1..])
  }

  predicate ValidDuration(d: Duration) {
    && |d.whole| > 0 && All(d.whole, IsDigit)
    && (d.frac.Some? ==> All(d.frac.value, IsDigit))
  }

  function DurationText(d: Duration): string {
    d.whole + match d.frac case None => "" case Some(f) => "." + f
  }

  /** The greedy `\d+\.?\d*` cannot take the first character of `suffix` too. */
  predicate EndsDuration(d: Duration, suffix: string) {
    suffix == [] || (!IsDigit(suffix[0]) && (d.frac.Some? || suffix[0] != '.'))
  }

  /** The lines the pattern was written for. */
  ghost predicate Grammar(l: Layout) {
    && ValidSegments(l.segments, Shape)
    && ValidDuration(l.duration)
    && EndsDuration(l.duration, l.suffix)
  }

  function Render(l: Layout): string {
    RenderSegments(l.segments) + (DurationText(l.duration) + l.suffix)
  }

  /** The `LogfileLineInfo` named tuple after `status`, `body_bytes_sent` and `request_time` are converted. */
  datatype LogLine = LogLine(
    remoteAddr: string,
    remoteUser: string,
    realIp: string,
    timeLocal: string,
    request: string,
    url: string,
    status: nat,
    bodyBytesSent: nat,
    referer: string,
    userAgent: string,
    forwardedFor: string,
    requestId: string,
    rbUser: string,
    requestTime: real)

  /** `float` of the duration digits, exactly. */
  function DurationValue(d: Duration): (t: real)
    requires ValidDuration(d)
    ensures t >= 0.0
  {
    (DigitsValue(d.whole) as real) +
      match d.frac
      case None => 0.0
      case Some(f) => (DigitsValue(f) as real) / (Pow10(|f|) as real)
  }

  /** The text a field's group captures. */
  function Group(f: Field): string {
    match f
    case Request(_, _, _, _) => RequestText(f)
    case Status(d) => d
    case Bytes(d) => d
    case _ => f.text
  }

  /** The record the fourteen groups of a grammatical line make. */
  function RecordOf(l: Layout): (r: LogLine)
    requires Grammar(l)
    ensures r.status < 1000 && r.requestTime >= 0.0
    ensures |r.url| > 0 && All(r.url, UrlChar)
  {
    var s := l.segments;
    assert KindOf(s[4].field) == RequestKind && KindOf(s[5].field) == StatusKind;
    DigitsValueBound(Group(s[5].field));
    LogLine(
      Group(s[0].field), Group(s[1].field), Group(s[2].field), Group(s[3].field),
      Group(s[4].field), s[4].field.url,
      DigitsValue(Group(s[5].field)), DigitsValue(Group(s[6].field)),
      Group(s[7].field), Group(s[8].field), Group(s[9].field), Group(s[10].field), Group(s[11].field),
      DurationValue(l.duration))
  }

  // ----- the parser -----

  function ParseToken(s: string): (r: Option<(Field, string)>)
    ensures r.Some? ==> ValidField(r.value.0) && KindOf(r.value.0) == TokenKind && s == FieldText(r.value.0) + r.value.1
  {
    var n := Span(s, NonSpace);
    if n == 0 then None
    else
      assert s == s[..n] + s[n..];
      Some((Token(s[..n]), s[n..]))
  }

  /** `open (p*) close`, the content ending at the first character outside `p`. */
  function ParseDelimited(s: string, open: char, close: char, p: char -> bool): (r: Option<(string, string)>)
    ensures r.Some? ==> All(r.value.0, p) && s == [open] + r.value.0 + [close] + r.value.1
  {
    if |s| == 0 || s[0] != open then None
    else
      var b := s[1..];
      var n := Span(b, p);
      if n < |b| && b[n] == close then
        assert s == [open] + b[..n] + [close] + b[n + 1..];
        Some((b[..n], b[n + 1..]))
      else None
  }

  function ParseTime(s: string): (r: Option<(Field, string)>)
    ensures r.Some? ==> ValidField(r.value.0) && KindOf(r.value.0) == TimeKind && s == FieldText(r.value.0) + r.value.1
  {
    match ParseDelimited(s, '[', ']', TimeChar)
    case None => None
    case Some((t, rest)) => Some((Time(t), rest))
  }

  function ParseQuoted(s: string): (r: Option<(Field, string)>)
    ensures r.Some? ==> ValidField(r.value.0) && KindOf(r.value.0) == QuotedKind && s == FieldText(r.value.0) + r.value.1
  {
    match ParseDelimited(s, '"', '"', QuotedChar)
    case None => None
    case Some((t, rest)) => Some((Quoted(t), rest))
  }

  /** The tail after the URL: its leading whitespace run, then no newline. */
  predicate TailOk(tail: string) {
    var w := Span(tail, IsSpace);
    w > 0 && All(tail[w..], QuotedChar)
  }

  lemma TailOkValid(tail: string)
    requires TailOk(tail)
    ensures ValidTail(tail)
  {
    var w := Span(tail, IsSpace);
    assert 1 <= w <= |tail| && All(tail[..w], IsSpace) && All(tail[w..], QuotedChar);
  }

  lemma SplitsJoin(body: string, m: nat, g: nat, u: nat)
    requires m <= |body| && g <= |body[m..]| && u <= |body[m..][g..]|
    ensures body[..m] + body[m..][..g] + body[m..][g..][..u] + body[m..][g..][u..] == body
  {
    var b1 := body[m..];
    var b2 := b1[g..];
    assert b2[..u] + b2[u..] == b2;
    assert b1[..g] + b1[g..] == b1;
    assert body[..m] + body[m..] == body;
    assert body[..m] + b1[..g] + b2[..u] + b2[u..] == body[..m] + (b1[..g] + (b2[..u] + b2[u..]));
  }

  /** `[A-Z]+\s+(\S+)\s+.*?` over the text between the quotes. */
  function SplitRequest(body: string): (r: Option<Field>)
    ensures r.Some? ==> r.value.Request? && ValidField(r.value) && RequestText(r.value) == body
  {
    var m := Span(body, IsUpper);
    var b1 := body[m..];
    var g := Span(b1, IsSpace);
    var b2 := b1[g..];
    var u := Span(b2, UrlChar);
    var tail := b2[u..];
    if m == 0 || g == 0 || u == 0 || !TailOk(tail) then None
    else
      TailOkValid(tail);
      SplitsJoin(body, m, g, u);
      Some(Request(body[..m], b1[..g], b2[..u], tail))
  }

  function ParseRequest(s: string): (r: Option<(Field, string)>)
    ensures r.Some? ==> ValidField(r.value.0) && KindOf(r.value.0) == RequestKind && s == FieldText(r.value.0) + r.value.1
  {
    match ParseDelimited(s, '"', '"', NotQuote)
    case None => None
    case Some((body, rest)) =>
      match SplitRequest(body)
      case None => None
      case Some(f) => Some((f, rest))
  }

  function ParseStatus(s: string): (r: Option<(Field, string)>)
    ensures r.Some? ==> ValidField(r.value.0) && KindOf(r.value.0) == StatusKind && s == FieldText(r.value.0) + r.value.1
  {
    if |s| >= 3 && All(s[..3], IsDigit) then
      assert s == s[..3] + s[3..];
      Some((Status(s[..3]), s[3..]))
    else None
  }

  function ParseBytes(s: string): (r: Option<(Field, string)>)
    ensures r.Some? ==> ValidField(r.value.0) && KindOf(r.value.0) == BytesKind && s == FieldText(r.value.0) + r.value.1
  {
    var n := Span(s, IsDigit);
    if n == 0 then None
    else
      assert s == s[..n] + s[n..];
      Some((Bytes(s[..n]), s[n..]))
  }

  /** The pattern piece for field kind `k` at the start of `s`: the field and the rest of the input. */
  function ParseField(k: Kind, s: string): (r: Option<(Field, string)>)
    ensures r.Some? ==> ValidField(r.value.0) && KindOf(r.value.0) == k && s == FieldText(r.value.0) + r.value.1
  {
    match k
    case TokenKind => ParseToken(s)
    case TimeKind => ParseTime(s)
    case RequestKind => ParseRequest(s)
    case StatusKind => ParseStatus(s)
    case BytesKind => ParseBytes(s)
    case QuotedKind => ParseQuoted(s)
  }

  /** `\s+` at the start of `s`, taken greedily. */
  function ParseSep(s: string): (r: Option<(string, string)>)
    ensures r.Some? ==> IsSeparator(r.value.0) && s == r.value.0 + r.value.1
    ensures r.Some? ==> r.value.1 == [] || !IsSpace(r.value.1[0])
  {
    var n := Span(s, IsSpace);
    if n == 0 then None
    else
      assert s == s[..n] + s[n..];
      Some((s[..n], s[n..]))
  }

  lemma SegmentsCons(f: Field, w: string, segs: seq<Segment>, kinds: seq<Kind>)
    requires |kinds| > 0 && ValidField(f) && KindOf(f) == kinds[0] && IsSeparator(w)
    requires ValidSegments(segs, kinds[1..])
    ensures ValidSegments([Segment(f, w)] + segs, kinds)
  {
    var all := [Segment(f, w)] + segs;
    forall i | 0 <= i < |all|
      ensures ValidField(all[i].field) && KindOf(all[i].field) == kinds[i] && IsSeparator(all[i].sep)
    {
      if i > 0 {
        assert all[i] == segs[i - 1];
      }
    }
  }

  lemma RenderCons(seg: Segment, segs: seq<Segment>)
    ensures RenderSegments([seg] + segs) == FieldText(seg.field) + seg.sep + RenderSegments(segs)
  {
    assert ([seg] + segs)[1..] == segs;
  }

  lemma JoinCons(s: string, f: Field, w: string, segs: seq<Segment>, s1: string, s2: string, s3: string)
    requires s == FieldText(f) + s1 && s1 == w + s2 && s2 == RenderSegments(segs) + s3
    ensures s == RenderSegments([Segment(f, w)] + segs) + s3
  {
    RenderCons(Segment(f, w), segs);
  }

  /** The fields of `kinds`, each followed by whitespace, at the start of `s`. */
  function ParseSegments(kinds: seq<Kind>, s: string): (r: Option<(seq<Segment>, string)>)
    ensures r.Some? ==> ValidSegments(r.value.0, kinds) && s == RenderSegments(r.value.0) + r.value.1
    decreases |kinds|
  {
    if kinds == [] then Some(([], s))
    else
      match ParseField(kinds[0], s)
      case None => None
      case Some((f, s1)) =>
        match ParseSep(s1)
        case None => None
        case Some((w, s2)) =>
          match ParseSegments(kinds[1..], s2)
          case None => None
          case Some((segs, s3)) =>
            SegmentsCons(f, w, segs, kinds);
            JoinCons(s, f, w, segs, s1, s2, s3);
            Some(([Segment(f, w)] + segs, s3))
  }

  /** `(\d+\.?\d*)`: greedy digits, an optional dot, greedy digits. */
  function ParseDuration(s: string): (r: Option<(Duration, string)>)
    ensures r.Some? ==> ValidDuration(r.value.0) && EndsDuration(r.value.0, r.value.1)
    ensures r.Some? ==> s == DurationText(r.value.0) + r.value.1
  {
    var n := Span(s, IsDigit);
    if n == 0 then None
    else
      var rest := s[n..];
      if |rest| > 0 && rest[0] == '.' then
        var after := rest[1..];
        var f := Span(after, IsDigit);
        assert s == s[..n] + ("." + after[..f]) + after[f..];
        Some((Duration(s[..n], Some(after[..f])), after[f..]))
      else
        assert s == s[..n] + "" + rest;
        Some((Duration(s[..n], None), rest))
  }

  /** Sound: whatever layout the parser returns is grammatical and renders to the line. */
  function ParseLayout(line: string): (r: Option<Layout>)
    ensures r.Some? ==> Grammar(r.value) && Render(r.value) == line
  {
    match ParseSegments(Shape, line)
    case None => None
    case Some((segs, rest)) =>
      match ParseDuration(rest)
      case None => None
      case Some((d, suffix)) => Some(Layout(segs, d, suffix))
  }

  /**
   * `parse_logfile_line`: the record of a line, or None where the Python code raises ValueError.
   * No partial record exists: either every group is captured and converted, or nothing is returned.
   */
  function ParseLine(line: string): (r: Option<LogLine>)
    ensures r.Some? ==> exists l :: Grammar(l) && Render(l) == line && r.value == RecordOf(l)
  {
    match ParseLayout(line)
    case None => None
    case Some(l) => Some(RecordOf(l))
  }

  // ----- completeness: the parser finds the layout of every grammatical line -----

  lemma ParseDelimitedComplete(t: string, open: char, close: char, p: char -> bool, rest: string)
    requires All(t, p) && !p(close)
    ensures ParseDelimited([open] + t + [close] + rest, open, close, p) == Some((t, rest))
  {
    var s := [open] + t + [close] + rest;
    var b := s[1..];
    assert b == t + ([close] + rest);
    SpanOfConcat(t, [close] + rest, p);
    assert b[..|t|] == t && b[|t|] == close && b[|t| + 1..] == rest;
  }

  lemma TailStart(tail: string) returns (k: nat)
    requires ValidTail(tail)
    ensures 1 <= k <= |tail| && All(tail[..k], IsSpace) && All(tail[k..], QuotedChar)
    ensures All(tail, NotQuote) && TailOk(tail)
  {
    k :| 1 <= k <= |tail| && All(tail[..k], IsSpace) && All(tail[k..], QuotedChar);
    assert tail == tail[..k] + tail[k..];
    SpanAtLeast(tail, IsSpace, k);
    var w := Span(tail, IsSpace);
    assert tail[w..] == tail[k..][w - k..];
  }

  lemma SplitRequestComplete(f: Field)
    requires f.Request? && ValidField(f)
    ensures SplitRequest(RequestText(f)) == Some(f)
  {
    var body := RequestText(f);
    var k := TailStart(f.tail);
    assert body == f.verb + (f.gap + f.url + f.tail);
    SpanSplit(f.verb, f.gap + f.url + f.tail, IsUpper);
    assert f.gap + f.url + f.tail == f.gap + (f.url + f.tail);
    SpanSplit(f.gap, f.url + f.tail, IsSpace);
    SpanSplit(f.url, f.tail, UrlChar);
  }

  lemma RequestTextNoQuote(f: Field)
    requires f.Request? && ValidField(f)
    ensures All(RequestText(f), NotQuote)
  {
    var k := TailStart(f.tail);
    AllConcat(f.verb, f.gap, NotQuote);
    AllConcat(f.verb + f.gap, f.url, NotQuote);
    AllConcat(f.verb + f.gap + f.url, f.tail, NotQuote);
  }

  lemma ParseRequestComplete(f: Field, rest: string)
    requires f.Request? && ValidField(f)
    ensures ParseRequest(FieldText(f) + rest) == Some((f, rest))
  {
    RequestTextNoQuote(f);
    assert FieldText(f) + rest == ['"'] + RequestText(f) + ['"'] + rest;
    ParseDelimitedComplete(RequestText(f), '"', '"', NotQuote, rest);
    SplitRequestComplete(f);
  }

  /** Every field is found again at the start of its text when whitespace follows it. */
  lemma ParseFieldComplete(f: Field, rest: string)
    requires ValidField(f) && |rest| > 0 && IsSpace(rest[0])
    ensures ParseField(KindOf(f), FieldText(f) + rest) == Some((f, rest))
  {
    match f
    case Token(t) =>
      SpanOfConcat(t, rest, NonSpace);
      assert (t + rest)[..|t|] == t && (t + rest)[|t|..] == rest;
    case Time(t) =>
      assert FieldText(f) + rest == ['['] + t + [']'] + rest;
      ParseDelimitedComplete(t, '[', ']', TimeChar, rest);
    case Request(_, _, _, _) =>
      ParseRequestComplete(f, rest);
    case Status(d) =>
      assert (d + rest)[..3] == d && (d + rest)[3..] == rest;
    case Bytes(d) =>
      SpanOfConcat(d, rest, IsDigit);
      assert (d + rest)[..|d|] == d && (d + rest)[|d|..] == rest;
    case Quoted(t) =>
      assert FieldText(f) + rest == ['"'] + t + ['"'] + rest;
      ParseDelimitedComplete(t, '"', '"', QuotedChar, rest);
  }

  lemma ParseSepComplete(w: string, rest: string)
    requires IsSeparator(w) && (rest == [] || !IsSpace(rest[0]))
    ensures ParseSep(w + rest) == Some((w, rest))
  {
    SpanOfConcat(w, rest, IsSpace);
    assert (w + rest)[..|w|] == w && (w + rest)[|w|..] == rest;
  }

  /** No field starts with whitespace, so the separator before it ends where it begins. */
  lemma FieldStart(f: Field)
    requires ValidField(f)
    ensures |FieldText(f)| > 0 && !IsSpace(FieldText(f)[0])
  {
  }

  /** The outcome of parsing after a prefix of segments that was already read. */
  function PrependSegments(segs: seq<Segment>, o: Option<(seq<Segment>, string)>): Option<(seq<Segment>, string)> {
    match o
    case None => None
    case Some((more, rest)) => Some((segs + more, rest))
  }

  /** One step of `ParseSegments`: a field and its separator, then the remaining kinds. */
  lemma ParseSegmentsStep(kinds: seq<Kind>, s: string, f: Field, s1: string, w: string, s2: string)
    requires kinds != [] && ParseField(kinds[0], s) == Some((f, s1)) && ParseSep(s1) == Some((w, s2))
    ensures ParseSegments(kinds, s) == PrependSegments([Segment(f, w)], ParseSegments(kinds[1..], s2))
  {
  }

  lemma ValidSegmentsTail(segs: seq<Segment>, kinds: seq<Kind>)
    requires ValidSegments(segs, kinds) && segs != []
    ensures ValidSegments(segs[1..], kinds[1..])
  {
    var tl := segs[1..];
    forall i | 0 <= i < |tl|
      ensures ValidField(tl[i].field) && KindOf(tl[i].field) == kinds[1..][i] && IsSeparator(tl[i].sep)
    {
      assert tl[i] == segs[i + 1];
    }
  }

  lemma RenderStart(segs: seq<Segment>, kinds: seq<Kind>, rest: string)
    requires ValidSegments(segs, kinds) && |rest| > 0 && !IsSpace(rest[0])
    ensures |RenderSegments(segs) + rest| > 0 && !IsSpace((RenderSegments(segs) + rest)[0])
  {
    if segs != [] {
      FieldStart(segs[0].field);
    }
  }

  lemma PrependCons(seg: Segment, segs: seq<Segment>, o: Option<(seq<Segment>, string)>)
    ensures PrependSegments([seg], PrependSegments(segs, o)) == PrependSegments([seg] + segs, o)
  {
    match o
    case None =>
    case Some((m, r)) => assert [seg] + (segs + m) == ([seg] + segs) + m;
  }

  lemma HeadText(segs: seq<Segment>, rest: string)
    requires segs != []
    ensures RenderSegments(segs) + rest == FieldText(segs[0].field) + (segs[0].sep + (RenderSegments(segs[1..]) + rest))
  {
  }

  /** A grammatical field and its separator are read back, and parsing carries on after them. */
  lemma ParseSegmentsHead(kinds: seq<Kind>, f: Field, w: string, after: string)
    requires kinds != [] && ValidField(f) && KindOf(f) == kinds[0] && IsSeparator(w)
    requires |after| > 0 && !IsSpace(after[0])
    ensures ParseSegments(kinds, FieldText(f) + (w + after))
         == PrependSegments([Segment(f, w)], ParseSegments(kinds[1..], after))
  {
    ParseFieldComplete(f, w + after);
    ParseSepComplete(w, after);
    ParseSegmentsStep(kinds, FieldText(f) + (w + after), f, w + after, w, after);
  }

  lemma KindsTail(kinds: seq<Kind>, more: seq<Kind>)
    requires kinds != []
    ensures (kinds + more)[0] == kinds[0] && (kinds + more)[1..] == kinds[1..] + more
  {
  }

  lemma PrependNothing(o: Option<(seq<Segment>, string)>)
    ensures PrependSegments([], o) == o
  {
    match o
    case None =>
    case Some((m, r)) => assert [] + m == m;
  }

  /** Grammatical segments are read back one for one, and parsing then carries on where they end. */
  lemma {:induction false} ParseSegmentsPrefix(segs: seq<Segment>, kinds: seq<Kind>, more: seq<Kind>, rest: string)
    requires ValidSegments(segs, kinds) && |rest| > 0 && !IsSpace(rest[0])
    ensures ParseSegments(kinds + more, RenderSegments(segs) + rest) == PrependSegments(segs, ParseSegments(more, rest))
    decreases |segs|
  {
    if segs == [] {
      assert kinds + more == more && RenderSegments(segs) + rest == rest;
      PrependNothing(ParseSegments(more, rest));
    } else {
      var p := ParseSegments(more, rest);
      ValidSegmentsTail(segs, kinds);
      RenderStart(segs[1..], kinds[1..], rest);
      HeadText(segs, rest);
      KindsTail(kinds, more);
      ParseSegmentsHead(kinds + more, segs[0].field, segs[0].sep, RenderSegments(segs[1..]) + rest);
      ParseSegmentsPrefix(segs[1..], kinds[1..], more, rest);
      PrependCons(segs[0], segs[1..], p);
      calc {
        ParseSegments(kinds + more, RenderSegments(segs) + rest);
        PrependSegments([segs[0]], ParseSegments(kinds[1..] + more, RenderSegments(segs[1..]) + rest));
        PrependSegments([segs[0]], PrependSegments(segs[1..], p));
        PrependSegments([segs[0]] + segs[1..], p);
        { assert [segs[0]] + segs[1..] == segs; }
        PrependSegments(segs, p);
      }
    }
  }

  lemma ParseSegmentsComplete(segs: seq<Segment>, kinds: seq<Kind>, rest: string)
    requires ValidSegments(segs, kinds) && |rest| > 0 && !IsSpace(rest[0])
    ensures ParseSegments(kinds, RenderSegments(segs) + rest) == Some((segs, rest))
  {
    ParseSegmentsPrefix(segs, kinds, [], rest);
    assert kinds + [] == kinds && segs + [] == segs;
  }

  lemma ParseDurationComplete(d: Duration, suffix: string)
    requires ValidDuration(d) && EndsDuration(d, suffix)
    ensures ParseDuration(DurationText(d) + suffix) == Some((d, suffix))
  {
    var s := DurationText(d) + suffix;
    match d.frac
    case None =>
      assert s == d.whole + suffix;
      SpanOfConcat(d.whole, suffix, IsDigit);
      assert s[..|d.whole|] == d.whole && s[|d.whole|..] == suffix;
    case Some(f) =>
      assert s == d.whole + ("." + f + suffix);
      SpanOfConcat(d.whole, "." + f + suffix, IsDigit);
      var rest := s[|d.whole|..];
      assert s[..|d.whole|] == d.whole && rest == "." + f + suffix;
      assert rest[1..] == f + suffix;
      SpanOfConcat(f, suffix, IsDigit);
      assert rest[1..][..|f|] == f && rest[1..][|f|..] == suffix;
  }

  lemma ParseLayoutComplete(l: Layout)
    requires Grammar(l)
    ensures ParseLayout(Render(l)) == Some(l)
  {
    var tail := DurationText(l.duration) + l.suffix;
    assert tail[0] == l.duration.whole[0];
    ParseSegmentsComplete(l.segments, Shape, tail);
    ParseDurationComplete(l.duration, l.suffix);
  }

  /** `parse_logfile_line` returns the record of every line the pattern describes. */
  lemma ParseLineComplete(l: Layout)
    requires Grammar(l)
    ensures ParseLine(Render(l)) == Some(RecordOf(l))
  {
    ParseLayoutComplete(l);
  }

  /** The line has a layout the pattern describes. */
  ghost predicate Matches(line: string) {
    exists l :: Grammar(l) && Render(l) == line
  }

  /** A line yields a record exactly when it is grammatical; otherwise it yields none at all. */
  lemma ParseLineAccepts(line: string)
    ensures ParseLine(line).Some? <==> Matches(line)
  {
    if l :| Grammar(l) && Render(l) == line {
      ParseLineComplete(l);
    }
  }

  /**
   * The loop of `parse_logfile` with its `logfile_line_parser` argument: one item per line, in order,
   * each what the parser makes of that line (None where it raises ValueError; the warning it logs
   * is not modelled).
   */
  method ParseLogfile(lines: seq<string>, parser: string -> Option<LogLine>) returns (items: seq<Option<LogLine>>)
    ensures |items| == |lines|
    ensures forall i :: 0 <= i < |lines| ==> items[i] == parser(lines[i])
  {
    items := [];
    var i := 0;
    while i < |lines|
      invariant 0 <= i <= |lines| && |items| == i
      invariant forall j :: 0 <= j < i ==> items[j] == parser(lines[j])
    {
      items := items + [parser(lines[i])];
      i := i + 1;
    }
  }

  /** With the default parser, exactly the lines the pattern describes give records. */
  lemma DefaultParserItems(lines: seq<string>, items: seq<Option<LogLine>>)
    requires |items| == |lines|
    requires forall i :: 0 <= i < |lines| ==> items[i] == ParseLine(lines[i])
    ensures forall i :: 0 <= i < |lines| ==> (items[i].Some? <==> Matches(lines[i]))
    ensures forall i :: 0 <= i < |lines| && items[i].Some? ==> Matches(lines[i]) && ParseLine(lines[i]) == items[i]
  {
    forall i | 0 <= i < |lines|
      ensures items[i].Some? <==> Matches(lines[i])
    {
      ParseLineAccepts(lines[i]);
    }
  }

  /** The grammar is unambiguous: a line has one layout, so its record is determined. */
  lemma LayoutUnique(l1: Layout, l2: Layout)
    requires Grammar(l1) && Grammar(l2) && Render(l1) == Render(l2)
    ensures l1 == l2
  {
    ParseLayoutComplete(l1);
    ParseLayoutComplete(l2);
  }

  // ----- the line of the unit test -----

  /** The segments written left to right: the same text as `RenderSegments`, associated the other way. */
  function RenderLeft(segs: seq<Segment>): string {
    if segs == [] then []
    else
      var last := segs[|segs| - 1];
      RenderLeft(segs[..|segs| - 1]) + FieldText(last.field) + last.sep
  }

  lemma {:induction false} RenderSnoc(p: seq<Segment>, x: Segment)
    ensures RenderSegments(p + [x]) == RenderSegments(p) + (FieldText(x.field) + x.sep)
    decreases |p|
  {
    if p == [] {
      assert [] + [x] == [x] && [x][1..] == [];
    } else {
      assert (p + [x])[0] == p[0] && (p + [x])[1..] == p[1..] + [x];
      RenderSnoc(p[1..], x);
    }
  }

  lemma {:induction false} RenderLeftRight(segs: seq<Segment>)
    ensures RenderSegments(segs) == RenderLeft(segs)
    decreases |segs|
  {
    if segs != [] {
      var p, x := segs[..|segs| - 1], segs[|segs| - 1];
      assert segs == p + [x];
      RenderSnoc(p, x);
      RenderLeftRight(p);
    }
  }

  /**
   * The line of the parser's unit test, written out field by field: each field's text in parentheses
   * where it has delimiters, then the whitespace after it.
   */
  const SampleLine: string :=
    "1.196.116.32" + " " + "-" + "  " + "-" + " "
    + ("[" + "02/Nov/2022:03:50:22 +0300" + "]") + " "
    + ("\"" + ("GET" + " " + "/api/v2/banner/25019354" + " HTTP/1.1") + "\"") + " "
    + "200" + " " + "927" + " "
    + ("\"" + "-" + "\"") + " "
    + ("\"" + SampleAgent + "\"") + " "
    + ("\"" + "-" + "\"") + " "
    + ("\"" + "1496327422-2190076493-4743-9819059" + "\"") + " "
    + ("\"" + "dc7161bv4" + "\"") + " "
    + ("0" + ("." + "390") + "\n")

  const SampleAgent: string := "Lynx/2.8.8dev.9 " + "libwww-FM/2.14 " + "SSL-MM/1.4.1 " + "GNUTLS/2.10.5"

  const SampleRequest: Field := Request("GET", " ", "/api/v2/banner/25019354", " HTTP/1.1")

  const SampleLayout: Layout := Layout(
    [ Segment(Token("1.196.116.32"), " "), Segment(Token("-"), "  "), Segment(Token("-"), " "),
      Segment(Time("02/Nov/2022:03:50:22 +0300"), " "),
      Segment(SampleRequest, " "),
      Segment(Status("200"), " "), Segment(Bytes("927"), " "),
      Segment(Quoted("-"), " "),
      Segment(Quoted(SampleAgent), " "),
      Segment(Quoted("-"), " "),
      Segment(Quoted("1496327422-2190076493-4743-9819059"), " "),
      Segment(Quoted("dc7161bv4"), " ") ],
    Duration("0", Some("390")),
    "\n")

  /** The record `test_parse_correct` expects. */
  const SampleRecord: LogLine := LogLine(
    "1.196.116.32", "-", "-", "02/Nov/2022:03:50:22 +0300",
    "GET" + " " + "/api/v2/banner/25019354" + " HTTP/1.1", "/api/v2/banner/25019354",
    200, 927, "-", SampleAgent, "-", "1496327422-2190076493-4743-9819059", "dc7161bv4",
    0.39)

  lemma SampleTextsValid()
    ensures All("1.196.116.32", NonSpace) && All("-", NonSpace)
    ensures All("02/Nov/2022:03:50:22 +0300", TimeChar)
    ensures All("200", IsDigit) && All("927", IsDigit)
    ensures All("1496327422-2190076493-4743-9819059", QuotedChar) && All("dc7161bv4", QuotedChar)
    ensures IsSeparator(" ") && IsSeparator("  ")
  {
    PlainText("1.196.116.32");
    PlainText("-");
  }

  lemma SampleRequestValid()
    ensures ValidField(SampleRequest)
  {
    PlainText("/api/v2/banner/25019354");
    var tail := SampleRequest.tail;
    assert All(tail[..1], IsSpace) && All(tail[1..], QuotedChar);
  }

  lemma SampleAgentValid()
    ensures All(SampleAgent, QuotedChar)
  {
    assert All("Lynx/2.8.8dev.9 ", QuotedChar) && All("libwww-FM/2.14 ", QuotedChar);
    assert All("SSL-MM/1.4.1 ", QuotedChar) && All("GNUTLS/2.10.5", QuotedChar);
    AllConcat("Lynx/2.8.8dev.9 ", "libwww-FM/2.14 ", QuotedChar);
    AllConcat("Lynx/2.8.8dev.9 " + "libwww-FM/2.14 ", "SSL-MM/1.4.1 ", QuotedChar);
    AllConcat("Lynx/2.8.8dev.9 " + "libwww-FM/2.14 " + "SSL-MM/1.4.1 ", "GNUTLS/2.10.5", QuotedChar);
  }

  lemma SampleLayoutGrammatical()
    ensures Grammar(SampleLayout)
  {
    SampleTextsValid();
    SampleRequestValid();
    SampleAgentValid();
    var s := SampleLayout.segments;
    forall i | 0 <= i < |s|
      ensures ValidField(s[i].field) && KindOf(s[i].field) == Shape[i] && IsSeparator(s[i].sep)
    {
    }
  }

  lemma RenderLeftSnoc(p: seq<Segment>, x: Segment)
    ensures RenderLeft(p + [x]) == RenderLeft(p) + FieldText(x.field) + x.sep
  {
    assert (p + [x])[..|p|] == p;
  }

  /** Eight segments written out left to right, whatever they hold. */
  lemma RenderEight(x0: Segment, x1: Segment, x2: Segment, x3: Segment,
                    x4: Segment, x5: Segment, x6: Segment, x7: Segment)
    ensures RenderLeft([x0, x1, x2, x3, x4, x5, x6, x7])
         == FieldText(x0.field) + x0.sep + FieldText(x1.field) + x1.sep + FieldText(x2.field) + x2.sep
            + FieldText(x3.field) + x3.sep + FieldText(x4.field) + x4.sep + FieldText(x5.field) + x5.sep
            + FieldText(x6.field) + x6.sep + FieldText(x7.field) + x7.sep
  {
    RenderLeftSnoc([], x0);
    assert [] + [x0] == [x0] && RenderLeft([]) + FieldText(x0.field) == FieldText(x0.field);
    RenderLeftSnoc([x0], x1);
    assert [x0] + [x1] == [x0, x1];
    RenderLeftSnoc([x0, x1], x2);
    assert [x0, x1] + [x2] == [x0, x1, x2];
    RenderLeftSnoc([x0, x1, x2], x3);
    assert [x0, x1, x2] + [x3] == [x0, x1, x2, x3];
    RenderLeftSnoc([x0, x1, x2, x3], x4);
    assert [x0, x1, x2, x3] + [x4] == [x0, x1, x2, x3, x4];
    RenderLeftSnoc([x0, x1, x2, x3, x4], x5);
    assert [x0, x1, x2, x3, x4] + [x5] == [x0, x1, x2, x3, x4, x5];
    RenderLeftSnoc([x0, x1, x2, x3, x4, x5], x6);
    assert [x0, x1, x2, x3, x4, x5] + [x6] == [x0, x1, x2, x3, x4, x5, x6];
    RenderLeftSnoc([x0, x1, x2, x3, x4, x5, x6], x7);
    assert [x0, x1, x2, x3, x4, x5, x6] + [x7] == [x0, x1, x2, x3, x4, x5, x6, x7];
  }

  /** Twelve segments written out left to right, whatever they hold. */
  lemma RenderTwelve(x0: Segment, x1: Segment, x2: Segment, x3: Segment,
                     x4: Segment, x5: Segment, x6: Segment, x7: Segment,
                     x8: Segment, x9: Segment, x10: Segment, x11: Segment)
    ensures RenderLeft([x0, x1, x2, x3, x4, x5, x6, x7, x8, x9, x10, x11])
         == FieldText(x0.field) + x0.sep + FieldText(x1.field) + x1.sep + FieldText(x2.field) + x2.sep
            + FieldText(x3.field) + x3.sep + FieldText(x4.field) + x4.sep + FieldText(x5.field) + x5.sep
            + FieldText(x6.field) + x6.sep + FieldText(x7.field) + x7.sep + FieldText(x8.field) + x8.sep
            + FieldText(x9.field) + x9.sep + FieldText(x10.field) + x10.sep + FieldText(x11.field) + x11.sep
  {
    var p := [x0, x1, x2, x3, x4, x5, x6, x7];
    RenderEight(x0, x1, x2, x3, x4, x5, x6, x7);
    RenderLeftSnoc(p, x8);
    assert p + [x8] == [x0, x1, x2, x3, x4, x5, x6, x7, x8];
    RenderLeftSnoc(p + [x8], x9);
    assert p + [x8] + [x9] == [x0, x1, x2, x3, x4, x5, x6, x7, x8, x9];
    RenderLeftSnoc(p + [x8] + [x9], x10);
    assert p + [x8] + [x9] + [x10] == [x0, x1, x2, x3, x4, x5, x6, x7, x8, x9, x10];
    RenderLeftSnoc(p + [x8] + [x9] + [x10], x11);
    assert p + [x8] + [x9] + [x10] + [x11] == [x0, x1, x2, x3, x4, x5, x6, x7, x8, x9, x10, x11];
  }

  lemma SampleLayoutRenders()
    ensures Render(SampleLayout) == SampleLine
  {
    RenderLeftRight(SampleLayout.segments);
    RenderTwelve(
      Segment(Token("1.196.116.32"), " "), Segment(Token("-"), "  "), Segment(Token("-"), " "),
      Segment(Time("02/Nov/2022:03:50:22 +0300"), " "),
      Segment(SampleRequest, " "),
      Segment(Status("200"), " "), Segment(Bytes("927"), " "),
      Segment(Quoted("-"), " "),
      Segment(Quoted(SampleAgent), " "),
      Segment(Quoted("-"), " "),
      Segment(Quoted("1496327422-2190076493-4743-9819059"), " "),
      Segment(Quoted("dc7161bv4"), " "));
  }

  lemma SampleNumbers()
    ensures DigitsValue("200") == 200 && DigitsValue("927") == 927
    ensures DurationValue(Duration("0", Some("390"))) == 0.39
  {
    DigitsValue2("20");
    DigitsValue2("92");
    DigitsValue2("39");
    assert "200"[..2] == "20" && "927"[..2] == "92" && "390"[..2] == "39" && "0"[..0] == [];
    assert DigitsValue("390") == 390 && DigitsValue("0") == 0 && Pow10(3) == 1000;
  }

  lemma SampleRecordOf()
    requires Grammar(SampleLayout)
    ensures RecordOf(SampleLayout) == SampleRecord
  {
    SampleNumbers();
  }

  /** `test_parse_correct`: the sample line parses into the expected record. */
  lemma SampleLineParses()
    ensures ParseLine(SampleLine) == Some(SampleRecord)
  {
    SampleLayoutGrammatical();
    SampleLayoutRenders();
    ParseLineComplete(SampleLayout);
    SampleRecordOf();
  }

  /**
   * The malformed line of `test_parse_wrong`: its first eight fields are well formed, then the
   * user agent runs into the next quoted field with no whitespace between them.
   */
  const WrongLine: string := WrongHead + WrongTail

  const WrongHead: string :=
    "1.196.117.32" + " " + "-" + "  " + "-" + " "
    + ("[" + "29/Jun/2019:03:50:22 +0300" + "]") + " "
    + ("\"" + ("GET" + " " + "/api/v2/banner/25019354" + " HTTP/1.1") + "\"") + " "
    + "200" + " " + "927" + " "
    + ("\"" + "-" + "\"") + " "

  const WrongTail: string :=
    ("\"" + SampleAgent + "\"")
    + ("\"" + "1498697422-23566854564-4743-9752759" + "\"" + " " + "\"" + "dc7161bv4" + "\"")

  const WrongSegments: seq<Segment> :=
    [ Segment(Token("1.196.117.32"), " "), Segment(Token("-"), "  "), Segment(Token("-"), " "),
      Segment(Time("29/Jun/2019:03:50:22 +0300"), " "),
      Segment(SampleRequest, " "),
      Segment(Status("200"), " "), Segment(Bytes("927"), " "),
      Segment(Quoted("-"), " ") ]

  lemma WrongTextsValid()
    ensures All("1.196.117.32", NonSpace) && All("29/Jun/2019:03:50:22 +0300", TimeChar)
  {
    PlainText("1.196.117.32");
  }

  lemma WrongSegmentsValid()
    ensures ValidSegments(WrongSegments, Shape[..8])
  {
    SampleTextsValid();
    SampleRequestValid();
    WrongTextsValid();
    var s := WrongSegments;
    forall i | 0 <= i < |s|
      ensures ValidField(s[i].field) && KindOf(s[i].field) == Shape[..8][i] && IsSeparator(s[i].sep)
    {
    }
  }

  lemma WrongHeadRenders()
    ensures RenderSegments(WrongSegments) == WrongHead
  {
    RenderLeftRight(WrongSegments);
    RenderEight(
      Segment(Token("1.196.117.32"), " "), Segment(Token("-"), "  "), Segment(Token("-"), " "),
      Segment(Time("29/Jun/2019:03:50:22 +0300"), " "),
      Segment(SampleRequest, " "),
      Segment(Status("200"), " "), Segment(Bytes("927"), " "),
      Segment(Quoted("-"), " "));
  }

  /** After the user agent no whitespace follows, so the ninth field has no separator. */
  lemma WrongTailFails()
    ensures ParseSegments(Shape[8..], WrongTail) == None
  {
    var rest := "\"" + "1498697422-23566854564-4743-9752759" + "\"" + " " + "\"" + "dc7161bv4" + "\"";
    SampleAgentValid();
    assert WrongTail == ['"'] + SampleAgent + ['"'] + rest;
    ParseDelimitedComplete(SampleAgent, '"', '"', QuotedChar, rest);
    assert ParseField(QuotedKind, WrongTail) == Some((Quoted(SampleAgent), rest));
    assert rest[0] == '"';
    assert ParseSep(rest) == None;
    assert Shape[8..][0] == QuotedKind;
  }

  /** `test_parse_wrong`: the malformed line yields no record. */
  lemma WrongLineRejected()
    ensures ParseLine(WrongLine) == None
  {
    WrongSegmentsValid();
    WrongHeadRenders();
    assert WrongTail[0] == '"';
    ParseSegmentsPrefix(WrongSegments, Shape[..8], Shape[8..], WrongTail);
    assert Shape[..8] + Shape[8..] == Shape;
    WrongTailFails();
  }
}
