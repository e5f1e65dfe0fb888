/**
 * Python's `str` of integers and of tuples of integers, and the cache key `memo` builds from a
 * call's arguments, `str(args) + str(kwargs)`.
 */
module PyRepr {
  import opened Wrappers
  import opened Chars

  /** `str(n)`: a minus sign for negative numbers, then the shortest decimal form. */
  function Str(n: int): (s: string)
    ensures |s| > 0 && (IsDigit(s[0]) || s[0] == '-')
  {
    if n < 0 then "-" + Decimal(-n) else Decimal(n)
  }

  /** The items of a non-empty tuple, separated by `", "`. */
  function Items(xs: seq<int>): string
    requires |xs| > 0
  {
    if |xs| == 1 then Str(xs[0]) else Str(xs[0]) + (", " + Items(xs[1..]))
  }

  /** `str(t)` of a tuple of integers: `()`, `(x,)` for one item, `(x, y, ...)` otherwise. */
  function TupleStr(xs: seq<int>): string {
    if |xs| == 0 then "()"
    else if |xs| == 1 then "(" + (Str(xs[0]) + ",)")
    else "(" + (Items(xs) + ")")
  }

  /** The `memo` key of a call with positional arguments `args` and no keyword arguments (`str({})` is `{}`). */
  function Key(args: seq<int>): string {
    TupleStr(args) + "{}"
  }

  // ----- reading keys back -----

  /** A maximal run of digits at the start of `s`, and its value. */
  function ParseNat(s: string): (r: Option<(int, string)>)
    ensures r.Some? ==> |r.value.1| < |s|
  {
    var n := Span(s, IsDigit);
    if n == 0 then None else Some((DigitsValue(s[..n]) as int, s[n..]))
  }

  /** An integer at the start of `s`: an optional minus sign and a maximal run of digits. */
  function ParseInt(s: string): (r: Option<(int, string)>)
    ensures r.Some? ==> |r.value.1| < |s|
  {
    if |s| > 0 && s[0] == '-' then
      match ParseNat(s[1..])
      case None => None
      case Some((v, rest)) => Some((-v, rest))
    else
      match ParseNat(s)
      case None => None
      case Some((v, rest)) => Some((v, rest))
  }

  /** Integers separated by `", "` at the start of `s`, as many as there are. */
  function ParseItems(s: string): (r: Option<(seq<int>, string)>)
    ensures r.Some? ==> |r.value.0| > 0
    decreases |s|
  {
    match ParseInt(s)
    case None => None
    case Some((n, rest)) =>
      if |rest| >= 2 && rest[..2] == ", " then
        match ParseItems(rest[2..])
        case None => None
        case Some((ns, rest2)) => Some(([n] + ns, rest2))
      else Some(([n], rest))
  }

  /** The tuple a `TupleStr` text denotes; None for any other text. */
  function ParseTuple(s: string): Option<seq<int>> {
    if s == "()" then Some([])
    else if |s| > 0 && s[0] == '(' then
      match ParseItems(s[1..])
      case None => None
      case Some((xs, rest)) =>
        if |xs| == 1 && rest == ",)" then Some(xs)
        else if |xs| >= 2 && rest == ")" then Some(xs)
        else None
    else None
  }

  /** The arguments a `Key` text stands for; None for any other text. */
  function ParseKey(s: string): Option<seq<int>> {
    if |s| >= 2 && s[|s| - 2..] == "{}" then ParseTuple(s[..|s| - 2]) else None
  }

  lemma ParseIntStr(n: int, rest: string)
    requires rest == [] || !IsDigit(rest[0])
    ensures ParseInt(Str(n) + rest) == Some((n, rest))
  {
    if n < 0 {
      var d := Decimal(-n);
      DecimalValue(-n);
      var s := Str(n) + rest;
      ConcatAssoc("-", d, rest);
      Prefixed("-", d + rest);
      ParseNegative(s, d, rest);
    } else {
      var d := Decimal(n);
      DecimalValue(n);
      ParseNonNegative(d, rest);
    }
  }

  lemma ParseDigits(d: string, rest: string)
    requires |d| > 0 && All(d, IsDigit) && (rest == [] || !IsDigit(rest[0]))
    ensures ParseNat(d + rest) == Some((DigitsValue(d) as int, rest))
  {
    SpanSplit(d, rest, IsDigit);
  }

  lemma ParseNonNegative(d: string, rest: string)
    requires |d| > 0 && All(d, IsDigit) && (rest == [] || !IsDigit(rest[0]))
    ensures ParseInt(d + rest) == Some((DigitsValue(d) as int, rest))
  {
    ParseDigits(d, rest);
    assert (d + rest)[0] == d[0];
  }

  lemma ParseNegative(s: string, d: string, rest: string)
    requires |d| > 0 && All(d, IsDigit) && (rest == [] || !IsDigit(rest[0]))
    requires |s| > 0 && s[0] == '-' && s[1..] == d + rest
    ensures ParseInt(s) == Some((-(DigitsValue(d) as int), rest))
  {
    ParseDigits(d, rest);
    ParseAfterMinus(s, d + rest);
  }

  lemma ParseAfterMinus(s: string, t: string)
    requires |s| > 0 && s[0] == '-' && s[1..] == t && ParseNat(t).Some?
    ensures ParseInt(s) == Some((-ParseNat(t).value.0, ParseNat(t).value.1))
  {
  }

  /** The text after the items stops the list: it neither continues the last number nor starts `", "`. */
  predicate EndsItems(rest: string) {
    (rest == [] || !IsDigit(rest[0])) && !(|rest| >= 2 && rest[..2] == ", ")
  }

  lemma {:induction false} ParseItemsOf(xs: seq<int>, rest: string)
    requires |xs| > 0 && EndsItems(rest)
    ensures ParseItems(Items(xs) + rest) == Some((xs, rest))
    decreases |xs|
  {
    if |xs| == 1 {
      ParseIntStr(xs[0], rest);
      assert Items(xs) == Str(xs[0]);
      assert [xs[0]] == xs;
    } else {
      var more := Items(xs[1..]) + rest;
      var tail := ", " + more;
      ItemsSplit(xs, rest);
      ParseIntStr(xs[0], tail);
      ParseItemsOf(xs[1..], rest);
      ParseItemsStep(Str(xs[0]) + tail, xs[0], more, xs[1..], rest);
      assert [xs[0]] + xs[1..] == xs;
    }
  }

  lemma ItemsSplit(xs: seq<int>, rest: string)
    requires |xs| > 1
    ensures Items(xs) + rest == Str(xs[0]) + (", " + (Items(xs[1..]) + rest))
  {
    Assoc3(Str(xs[0]), ", ", Items(xs[1..]), rest);
  }

  lemma Prefixed(a: string, t: string)
    requires |a| == 1
    ensures var s := a + t; |s| > 0 && s[0] == a[0] && s[1..] == t
  {
  }

  lemma Assoc3(a: string, b: string, c: string, r: string)
    ensures a + (b + c) + r == a + (b + (c + r))
  {
  }

  /** One item followed by `", "` and the rest of a list is a longer list. */
  lemma ParseItemsStep(s: string, n: int, more: string, ns: seq<int>, rest: string)
    requires ParseInt(s) == Some((n, ", " + more))
    requires ParseItems(more) == Some((ns, rest))
    ensures ParseItems(s) == Some(([n] + ns, rest))
  {
    var tail := ", " + more;
    assert tail[..2] == ", " && tail[2..] == more;
  }

  /** Every tuple text reads back as its tuple. */
  lemma ParseTupleOf(xs: seq<int>)
    ensures ParseTuple(TupleStr(xs)) == Some(xs)
  {
    if |xs| == 1 {
      var t := Str(xs[0]) + ",)";
      assert ",)"[1] == ')';
      ParseItemsOf(xs, ",)");
      assert Items(xs) == Str(xs[0]);
      ParseTupleParts("(" + t, t, xs, ",)");
    } else if |xs| >= 2 {
      var t := Items(xs) + ")";
      ParseItemsOf(xs, ")");
      ParseTupleParts("(" + t, t, xs, ")");
    }
  }

  lemma ParseTupleParts(s: string, t: string, xs: seq<int>, rest: string)
    requires s == "(" + t && |t| > 1 && ParseItems(t) == Some((xs, rest))
    ensures ParseTuple(s) == if |xs| == 1 && rest == ",)" then Some(xs)
                             else if |xs| >= 2 && rest == ")" then Some(xs) else None
  {
    assert |s| > 2 && s[0] == '(' && s[1..] == t;
  }

  /** Every key reads back as the arguments it was built from. */
  lemma KeyRoundTrip(args: seq<int>)
    ensures ParseKey(Key(args)) == Some(args)
  {
    var s := Key(args);
    assert s[..|s| - 2] == TupleStr(args) && s[|s| - 2..] == "{}";
    ParseTupleOf(args);
  }

  /** Different arguments get different keys, so the cache never confuses two calls. */
  lemma KeyInjective(a: seq<int>, b: seq<int>)
    requires Key(a) == Key(b)
    ensures a == b
  {
    KeyRoundTrip(a);
    KeyRoundTrip(b);
  }
}
