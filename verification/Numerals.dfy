/** The numerals the C library prints and reads: %d, %lld, %llu and %llx on one side, atoi and the strto
    family on the other. */
module Numerals {

  type Base = b: nat | 2 <= b <= 16 witness 10

  const DIGITS: string := "0123456789abcdef"

  function Print(n: nat, base: Base): (s: string)
    ensures s != ""
  {
    if n < base then [DIGITS[n]] else Print(n / base, base) + [DIGITS[n % base]]
  }

  function PrintInt(n: int): string { if n < 0 then "-" + Print(-n, 10) else Print(n, 10) }

  /** The value of a digit, or the base when the character is none. */
  function DigitOf(c: char, base: Base): (d: nat)
    ensures d <= base
  {
    var d :=
      if '0' <= c <= '9' then (c - '0') as nat
      else if 'a' <= c <= 'f' then (c - 'a') as nat + 10
      else if 'A' <= c <= 'F' then (c - 'A') as nat + 10
      else 16;
    if d < base then d else base
  }

  predicate IsDigit(c: char, base: Base) { DigitOf(c, base) < base }

  predicate AllDigits(s: string, base: Base) { forall i | 0 <= i < |s| :: IsDigit(s[i], base) }

  function Times(a: nat, b: nat): nat { a * b }

  function Value(s: string, base: Base): nat {
    if s == "" then 0 else Times(Value(s[..|s| - 1], base), base) + DigitOf(s[|s| - 1], base)
  }

  /** The longest prefix of digits. */
  function Span(s: string, base: Base): (n: nat)
    ensures n <= |s| && AllDigits(s[..n], base)
  {
    if s == "" || !IsDigit(s[0], base) then 0
    else
      var n := Span(s[1..], base);
      assert s[..n + 1] == [s[0]] + s[1..][..n];
      n + 1
  }

  predicate IsSpace(c: char) { c == ' ' || c == '\t' || c == '\n' || c == '\r' }

  function SkipSpace(s: string): string { if s != "" && IsSpace(s[0]) then SkipSpace(s[1..]) else s }

  /** atoi, and strtoll in base ten: blanks, a sign, digits; anything else reads as 0.  Values in range. */
  function Atoi(s: string): int {
    var t := SkipSpace(s);
    if t != "" && t[0] == '-' then -(Value(t[1..][..Span(t[1..], 10)], 10) as int)
    else if t != "" && t[0] == '+' then Value(t[1..][..Span(t[1..], 10)], 10)
    else Value(t[..Span(t, 10)], 10)
  }

  /** strtoull with base 0 on unsigned text: the prefix of the text chooses the base.  Values in range. */
  function Strtoull0(s: string): nat {
    var t := SkipSpace(s);
    if |t| >= 3 && t[0] == '0' && (t[1] == 'x' || t[1] == 'X') && IsDigit(t[2], 16) then
      Value(t[2..][..Span(t[2..], 16)], 16)
    else if t != "" && t[0] == '0' then Value(t[..Span(t, 8)], 8)
    else Value(t[..Span(t, 10)], 10)
  }

  // ---------------------------------------------------------------- printing and reading back

  lemma DigitBack(n: nat, base: Base)
    requires n < base
    ensures DigitOf(DIGITS[n], base) == n
  {
    assert DIGITS[..10] == "0123456789" && DIGITS[10..] == "abcdef";
    if n < 10 {
      assert DIGITS[n] == "0123456789"[n];
    } else {
      assert DIGITS[n] == "abcdef"[n - 10];
    }
  }

  lemma ValueAppend(s: string, c: char, base: Base)
    ensures Value(s + [c], base) == Times(Value(s, base), base) + DigitOf(c, base)
    ensures AllDigits(s, base) && IsDigit(c, base) ==> AllDigits(s + [c], base)
  {
    assert (s + [c])[..|s|] == s;
  }

  lemma {:induction false} PrintReads(n: nat, base: Base)
    ensures AllDigits(Print(n, base), base) && Value(Print(n, base), base) == n
  {
    if n < base {
      DigitReads("", n, base);
      assert "" + [DIGITS[n]] == [DIGITS[n]];
    } else {
      PrintReads(n / base, base);
      DigitReads(Print(n / base, base), n % base, base);
      Recompose(n, base);
    }
  }

  lemma DigitReads(s: string, d: nat, base: Base)
    requires d < base && AllDigits(s, base)
    ensures AllDigits(s + [DIGITS[d]], base) && Value(s + [DIGITS[d]], base) == Times(Value(s, base), base) + d
  {
    DigitBack(d, base);
    ValueAppend(s, DIGITS[d], base);
  }

  lemma Recompose(n: nat, base: Base)
    ensures Times(n / base, base) + n % base == n
  {
  }

  /** No two numbers are printed alike. */
  lemma PrintInjective(m: nat, n: nat, base: Base)
    requires Print(m, base) == Print(n, base)
    ensures m == n
  {
    PrintReads(m, base);
    PrintReads(n, base);
  }

  /** A positive number is printed without a leading zero. */
  lemma {:induction false} NoLeadingZero(n: nat, base: Base)
    requires n > 0
    ensures Print(n, base)[0] != '0'
  {
    if n < base {
      DigitBack(n, base);
    } else {
      Quotient(n, base);
      NoLeadingZero(n / base, base);
    }
  }

  lemma Quotient(n: nat, base: Base)
    requires n >= base
    ensures n / base > 0
  {
  }

  lemma {:induction false} SpanStops(s: string, t: string, base: Base)
    requires AllDigits(s, base) && (t == "" || !IsDigit(t[0], base))
    ensures Span(s + t, base) == |s|
  {
    if s == "" {
      assert s + t == t;
    } else {
      assert (s + t)[1..] == s[1..] + t;
      assert s[1..] == s[1..] && AllDigits(s[1..], base);
      SpanStops(s[1..], t, base);
    }
  }

  /** Reading a printed number that a non-digit or the end follows gives the number. */
  lemma AtoiReads(n: nat, t: string)
    requires t == "" || !IsDigit(t[0], 10)
    ensures Atoi(Print(n, 10) + t) == n
  {
    var s := Print(n, 10);
    PrintReads(n, 10);
    SpanStops(s, t, 10);
    assert IsDigit(s[0], 10);
    assert (s + t)[0] == s[0] && SkipSpace(s + t) == s + t;
    assert (s + t)[..|s|] == s;
  }

  lemma StrtoullReads(n: nat, t: string)
    requires t == "" || (!IsDigit(t[0], 10) && t[0] != 'x' && t[0] != 'X')
    ensures Strtoull0(Print(n, 10) + t) == n
  {
    var s := Print(n, 10);
    PrintReads(n, 10);
    SpanStops(s, t, 10);
    assert IsDigit(s[0], 10);
    assert (s + t)[0] == s[0] && SkipSpace(s + t) == s + t;
    assert (s + t)[..|s|] == s;
    if n > 0 {
      NoLeadingZero(n, 10);
    } else {
      assert s == "0";
      DigitBack(0, 10);
      assert AllDigits(s, 8);
      SpanStops(s, t, 8);
      assert Value("0", 8) == 0 by { assert "0"[..0] == ""; }
    }
  }

  function Pow(base: Base, k: nat): nat { if k == 0 then 1 else Pow(base, k - 1) * base }

  /** A number below base^k takes at most k digits. */
  lemma {:induction false} PrintLength(n: nat, base: Base, k: nat)
    requires k > 0 && n < Pow(base, k)
    ensures |Print(n, base)| <= k
    decreases k
  {
    assert Pow(base, 1) == base;
    if n >= base {
      Divided(n, base, Pow(base, k - 1));
      PrintLength(n / base, base, k - 1);
    }
  }

  lemma Divided(n: nat, base: Base, m: nat)
    requires n < m * base
    ensures n / base < m
  {
  }
}
