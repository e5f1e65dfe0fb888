/**
 * Character classes of Python's `re` module and decimal digit strings.
 */
module Chars {

  /** `\d`, restricted to the ASCII digits. */
  predicate IsDigit(c: char) { '0' <= c <= '9' }

  /** `[A-Z]`. */
  predicate IsUpper(c: char) { 'A' <= c <= 'Z' }

  /** `\s` on a `str` pattern: exactly the characters for which Python's `str.isspace()` holds. */
  predicate IsSpace(c: char) {
    || ('\U{9}' <= c <= '\U{D}')
    || ('\U{1C}' <= c <= '\U{20}')
    || c == '\U{85}' || c == '\U{A0}' || c == '\U{1680}'
    || ('\U{2000}' <= c <= '\U{200A}')
    || c == '\U{2028}' || c == '\U{2029}' || c == '\U{202F}' || c == '\U{205F}' || c == '\U{3000}'
  }

  /** `\S`. */
  predicate NonSpace(c: char) { !IsSpace(c) }

  /** Every character of `s` is in class `p`. */
  predicate All(s: string, p: char -> bool) {
    forall i :: 0 <= i < |s| ==> p(s[i])
  }

  /** Length of the longest prefix of `s` in class `p`: what a greedy `p*` consumes. */
  function Span(s: string, p: char -> bool): (n: nat)
    ensures n <= |s|
    ensures All(s[..n], p)
    ensures n < |s| ==> !p(s[n])
  {
    if |s| == 0 || !p(s[0]) then 0 else 1 + Span(s[1..], p)
  }

  lemma AllConcat(a: string, b: string, p: char -> bool)
    requires All(a, p) && All(b, p)
    ensures All(a + b, p)
  {
    forall i | 0 <= i < |a + b|
      ensures p((a + b)[i])
    {
      if i >= |a| {
        assert (a + b)[i] == b[i - |a|];
      }
    }
  }

  /** A greedy run consumes at least any prefix of `s` that lies in its class. */
  lemma {:induction false} SpanAtLeast(s: string, p: char -> bool, k: nat)
    requires k <= |s| && All(s[..k], p)
    ensures Span(s, p) >= k
  {
    if k > 0 {
      assert s[..k][0] == s[0];
      var t := s[1..];
      assert t[..k - 1] == s[..k][1..];
      SpanAtLeast(t, p, k - 1);
    }
  }

  /** A greedy run stops exactly where the class stops: the run over `a + b` is `a` when `b` does not continue it. */
  lemma {:induction false} SpanOfConcat(a: string, b: string, p: char -> bool)
    requires All(a, p)
    requires b == [] || !p(b[0])
    ensures Span(a + b, p) == |a|
  {
    if a != [] {
      assert (a + b)[1..] == a[1..] + b;
      SpanOfConcat(a[1..], b, p);
    }
  }

  /** Concatenation is associative; stated for strings so that the proofs that need it stay small. */
  lemma ConcatAssoc(x: string, y: string, z: string)
    ensures x + (y + z) == x + y + z
  {
  }

  /** A greedy run over a prefix in its class that the next character does not continue. */
  lemma SpanSplit(a: string, b: string, p: char -> bool)
    requires All(a, p) && (b == [] || !p(b[0]))
    ensures Span(a + b, p) == |a| && (a + b)[..|a|] == a && (a + b)[|a|..] == b
  {
    SpanOfConcat(a, b, p);
  }

  function DigitValue(c: char): (d: nat)
    requires IsDigit(c)
    ensures d < 10
  {
    (c as int) - ('0' as int)
  }

  function DigitChar(d: nat): (c: char)
    requires d < 10
    ensures IsDigit(c) && DigitValue(c) == d
  {
    ('0' as int + d) as char
  }

  /** Python's `int(s)` on a string of digits (leading zeros allowed). */
  function DigitsValue(s: string): nat
    requires All(s, IsDigit)
  {
    if |s| == 0 then 0 else 10 * DigitsValue(s[..|s| - 1]) + DigitValue(s[|s| - 1])
  }

  /** `int` of a two-digit string. */
  lemma DigitsValue2(s: string)
    requires |s| == 2 && All(s, IsDigit)
    ensures DigitsValue(s) == 10 * DigitValue(s[0]) + DigitValue(s[1])
  {
    assert s[..1][..0] == [] && s[..1][0] == s[0];
    assert DigitsValue(s[..1]) == DigitValue(s[0]);
  }

  /** `int` of a four-digit string. */
  lemma DigitsValue4(s: string)
    requires |s| == 4 && All(s, IsDigit)
    ensures DigitsValue(s) == 1000 * DigitValue(s[0]) + 100 * DigitValue(s[1]) + 10 * DigitValue(s[2]) + DigitValue(s[3])
  {
    DigitsValue2(s[..2]);
    assert s[..3][..2] == s[..2];
  }

  function Pow10(n: nat): (p: nat)
    ensures p >= 1
  {
    if n == 0 then 1 else 10 * Pow10(n - 1)
  }

  /** The number `n` written with exactly `w` digits, zero-padded on the left (`%0wd` for `n < 10^w`). */
  function FixedDigits(n: nat, w: nat): (s: string)
    ensures |s| == w && All(s, IsDigit)
  {
    if w == 0 then [] else FixedDigits(n / 10, w - 1) + [DigitChar(n % 10)]
  }

  /** Padding to a width that holds the number loses nothing. */
  lemma {:induction false} FixedDigitsValue(n: nat, w: nat)
    requires n < Pow10(w)
    ensures DigitsValue(FixedDigits(n, w)) == n
  {
    if w > 0 {
      assert n / 10 < Pow10(w - 1);
      FixedDigitsValue(n / 10, w - 1);
      DigitsValueSnoc(FixedDigits(n / 10, w - 1), DigitChar(n % 10));
    }
  }

  /** Appending a digit multiplies by ten and adds it. */
  lemma DigitsValueSnoc(s: string, c: char)
    requires All(s, IsDigit) && IsDigit(c)
    ensures All(s + [c], IsDigit)
    ensures DigitsValue(s + [c]) == 10 * DigitsValue(s) + DigitValue(c)
  {
    assert (s + [c])[..|s|] == s;
  }

  /** A digit string of length `w` denotes a number below `10^w`. */
  lemma {:induction false} DigitsValueBound(s: string)
    requires All(s, IsDigit)
    ensures DigitsValue(s) < Pow10(|s|)
  {
    if |s| > 0 {
      DigitsValueBound(s[..|s| - 1]);
    }
  }

  /** Re-padding the value of a digit string to its own width gives the string back. */
  lemma {:induction false} FixedDigitsOfValue(s: string)
    requires All(s, IsDigit)
    ensures FixedDigits(DigitsValue(s), |s|) == s
  {
    if |s| > 0 {
      var init := s[..|s| - 1];
      var v := DigitsValue(s);
      assert v / 10 == DigitsValue(init) && v % 10 == DigitValue(s[|s| - 1]);
      FixedDigitsOfValue(init);
      assert DigitChar(v % 10) == s[|s| - 1];
      assert s == init + [s[|s| - 1]];
    }
  }

  /** Python's `str(n)` for a non-negative integer: its shortest decimal form. */
  function Decimal(n: nat): (s: string)
    ensures |s| > 0 && All(s, IsDigit)
  {
    if n < 10 then [DigitChar(n)] else Decimal(n / 10) + [DigitChar(n % 10)]
  }

  lemma {:induction false} DecimalValue(n: nat)
    ensures DigitsValue(Decimal(n)) == n
  {
    if n >= 10 {
      var s := Decimal(n);
      assert s[..|s| - 1] == Decimal(n / 10);
      DecimalValue(n / 10);
    }
  }
}
