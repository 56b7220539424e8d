/** Decimal text of naturals, as `BigInt.toString` prints it and `BigInt(s)` reads it. */
module Decimal {
  import opened Common

  predicate IsDigit(c: char) { '0' <= c <= '9' }

  predicate AllDigits(s: string) { forall i | 0 <= i < |s| :: IsDigit(s[i]) }

  function DigitChar(d: nat): (c: char)
    requires d < 10
    ensures IsDigit(c)
  {
    ('0' as int + d) as char
  }

  function DigitValue(c: char): (d: nat)
    requires IsDigit(c)
    ensures d < 10 && DigitChar(d) == c
  {
    c as int - '0' as int
  }

  /** No sign, and no leading zero except in "0" itself. */
  predicate IsCanonical(s: string) {
    s == "0" || (s != "" && s[0] != '0' && AllDigits(s))
  }

  function Print(n: nat): (s: string)
    ensures AllDigits(s) && IsCanonical(s)
    ensures n > 0 ==> s[0] != '0'
  {
    if n < 10 then [DigitChar(n)] else Print(n / 10) + [DigitChar(n % 10)]
  }

  function PrintInt(n: int): string { if n < 0 then "-" + Print(-n) else Print(n) }

  function Value(s: string): nat
    requires AllDigits(s)
  {
    if s == "" then 0 else Value(s[..|s| - 1]) * 10 + DigitValue(s[|s| - 1])
  }

  lemma {:induction false} ValueOfPrint(n: nat)
    ensures Value(Print(n)) == n
  {
    if n >= 10 {
      ValueOfPrint(n / 10);
      var s := Print(n);
      assert s[..|s| - 1] == Print(n / 10);
    } else {
      assert Print(n)[..0] == "";
    }
  }

  lemma {:induction false} ValuePositive(s: string)
    requires AllDigits(s) && s != "" && s[0] != '0'
    ensures Value(s) > 0
  {
    var t := s[..|s| - 1];
    if t != "" {
      ValuePositive(t);
    }
  }

  /** Printing inverts reading exactly on the canonical texts. */
  lemma {:induction false} PrintOfValue(s: string)
    requires IsCanonical(s)
    ensures AllDigits(s) && Print(Value(s)) == s
  {
    var t := s[..|s| - 1];
    var d := DigitValue(s[|s| - 1]);
    assert s == t + [s[|s| - 1]];
    if t == "" {
      assert Value(s) == d;
    } else {
      PrintOfValue(t);
      ValuePositive(t);
      assert Value(s) / 10 == Value(t) && Value(s) % 10 == d;
    }
  }

  /** The digits of a number, the most significant first. */
  lemma PrintDigits(n: nat, d: nat)
    requires d < 10
    ensures n > 0 ==> Print(10 * n + d) == Print(n) + Print(d)
    ensures Print(d) == ["0123456789"[d]]
    ensures PrintInt(-1 - n) == "-" + Print(n + 1)
  {
  }

  lemma PrintInjective(m: nat, n: nat)
    requires Print(m) == Print(n)
    ensures m == n
  {
    ValueOfPrint(m);
    ValueOfPrint(n);
  }

  lemma PrintIntInjective(m: int, n: int)
    requires PrintInt(m) == PrintInt(n)
    ensures m == n
  {
    assert PrintInt(m)[0] == PrintInt(n)[0];
    assert m >= 0 ==> IsDigit(PrintInt(m)[0]);
    assert n >= 0 ==> IsDigit(PrintInt(n)[0]);
    if m < 0 && n < 0 {
      assert PrintInt(m)[1..] == Print(-m) && PrintInt(n)[1..] == Print(-n);
      PrintInjective(-m, -n);
    } else if m >= 0 && n >= 0 {
      PrintInjective(m, n);
    }
  }

  lemma DigitsHaveNoBar(n: int)
    ensures '|' !in PrintInt(n) && PrintInt(n) != ""
  {
    var digits := Print(if n < 0 then -n else n);
    assert forall i | 0 <= i < |digits| :: IsDigit(digits[i]);
  }

  // ----- JavaScript numbers -----

  /** `mantissa` divided by ten to the `scale`. */
  datatype Fixed = Fixed(mantissa: int, scale: nat)

  /** A finite number: every double is such a fraction, here in lowest terms, so that equal numbers are equal values. */
  type JsNumber = x: Fixed | x.scale == 0 || x.mantissa % 10 != 0 witness Fixed(0, 0)

  function Whole(n: int): JsNumber { Fixed(n, 0) }

  function Pow10(n: nat): nat { if n == 0 then 1 else 10 * Pow10(n - 1) }

  /** `x < n` */
  predicate Before(x: JsNumber, n: int) { x.mantissa < n * Pow10(x.scale) }

  /** A number is below an integer exactly when the fraction it stands for is. */
  lemma BeforeMeans(x: JsNumber, n: int)
    ensures Pow10(x.scale) > 0 && (Before(x, n) <==> (x.mantissa as real) / (Pow10(x.scale) as real) < n as real)
    ensures Before(Whole(x.mantissa), n) <==> x.mantissa < n
  {
    Pow10Positive(x.scale);
    ScaledBelow(x.mantissa, Pow10(x.scale), n);
  }

  lemma {:induction false} Pow10Positive(n: nat)
    ensures Pow10(n) > 0
  {
    if n > 0 {
      Pow10Positive(n - 1);
    }
  }

  lemma ScaledBelow(m: int, p: int, n: int)
    requires p > 0
    ensures m < n * p <==> (m as real) / (p as real) < n as real
  {
    var q := (m as real) / (p as real);
    assert q * (p as real) == m as real;
    assert (n * p) as real == (n as real) * (p as real);
    if q < n as real {
      assert q * (p as real) < (n as real) * (p as real);
    } else {
      assert q * (p as real) >= (n as real) * (p as real);
    }
  }

  /** `x.toString()`, with a fraction written in exponent form. */
  function PrintNumber(x: JsNumber): string {
    if x.scale == 0 then PrintInt(x.mantissa) else PrintInt(x.mantissa) + "e" + ("-" + Print(x.scale))
  }

  predicate PlainChar(c: char) { IsDigit(c) || c == '-' || c == 'e' }

  lemma PlainNumber(x: JsNumber)
    ensures PrintNumber(x) != "" && forall i | 0 <= i < |PrintNumber(x)| :: PlainChar(PrintNumber(x)[i])
    ensures '|' !in PrintNumber(x)
  {
    hide Print;
  }

  lemma PrintNumberInjective(x: JsNumber, y: JsNumber)
    requires PrintNumber(x) == PrintNumber(y)
    ensures x == y
  {
    NoExponent(x.mantissa);
    NoExponent(y.mantissa);
    hide PrintInt;
    hide Print;
    if x.scale > 0 && y.scale > 0 {
      var r, t := "-" + Print(x.scale), "-" + Print(y.scale);
      SplitUnique('e', PrintInt(x.mantissa), PrintInt(y.mantissa), r, t);
      assert r[1..] == Print(x.scale) && t[1..] == Print(y.scale);
      PrintInjective(x.scale, y.scale);
    } else {
      HasExponent(x);
      HasExponent(y);
    }
    PrintIntInjective(x.mantissa, y.mantissa);
  }

  lemma NoExponent(n: int)
    ensures 'e' !in PrintInt(n)
  {
    var digits := Print(if n < 0 then -n else n);
    assert forall i | 0 <= i < |digits| :: IsDigit(digits[i]);
  }

  lemma HasExponent(x: JsNumber)
    ensures 'e' in PrintNumber(x) <==> x.scale > 0
  {
    NoExponent(x.mantissa);
    hide PrintInt;
    if x.scale > 0 {
      assert PrintNumber(x)[|PrintInt(x.mantissa)|] == 'e';
    }
  }
}
