/** Decimal numerals: how a placeholder position is written after `$`
    (JavaScript's number-to-string conversion of a non-negative integer),
    how such digits are read back, and the integer reading of a query
    string that `Number(...)` and unary `+` perform. */
module Numerals {
  import opened Wrappers

  predicate IsDigit(c: char) {
    '0' <= c <= '9'
  }

  predicate AllDigits(s: string) {
    forall i :: 0 <= i < |s| ==> IsDigit(s[i])
  }

  function DigitChar(d: nat): (c: char)
    requires d < 10
    ensures IsDigit(c)
  {
    ('0' as int + d) as char
  }

  function DigitValue(c: char): (d: nat)
    requires IsDigit(c)
    ensures d < 10
  {
    c as int - '0' as int
  }

  /** The shortest decimal numeral of `n`, as `String(n)` gives it. */
  function Show(n: nat): (s: string)
    ensures |s| >= 1 && AllDigits(s)
    ensures n < 10 <==> |s| == 1
    decreases n
  {
    if n < 10 then [DigitChar(n)] else Show(n / 10) + [DigitChar(n % 10)]
  }

  /** The value a string of decimal digits denotes. */
  function Value(ds: string): nat
    requires AllDigits(ds)
  {
    if ds == [] then 0 else Value(ds[..|ds| - 1]) * 10 + DigitValue(ds[|ds| - 1])
  }

  /** Reading a numeral back gives the number it was written from. */
  lemma {:induction false} ValueOfShow(n: nat)
    ensures Value(Show(n)) == n
  {
    var s := Show(n);
    if n >= 10 {
      ValueOfShow(n / 10);
      assert s[..|s| - 1] == Show(n / 10);
    }
  }

  /** Distinct positions are written as distinct numerals. */
  lemma ShowInjective(m: nat, n: nat)
    ensures Show(m) == Show(n) ==> m == n
  {
    ValueOfShow(m);
    ValueOfShow(n);
  }

  /** Splits `s` into its longest prefix of digits and the rest. */
  function SpanDigits(s: string): (r: (string, string))
    ensures r.0 + r.1 == s && AllDigits(r.0)
    ensures r.1 == [] || !IsDigit(r.1[0])
  {
    if s != [] && IsDigit(s[0]) then
      var (ds, rest) := SpanDigits(s[1..]);
      ([s[0]] + ds, rest)
    else
      ([], s)
  }

  /** Digits followed by a non-digit are read off exactly. */
  lemma {:induction false} SpanDigitsExact(ds: string, t: string)
    requires AllDigits(ds)
    requires t == [] || !IsDigit(t[0])
    ensures SpanDigits(ds + t) == (ds, t)
  {
    if ds != [] {
      assert (ds + t)[1..] == ds[1..] + t;
      SpanDigitsExact(ds[1..], t);
      assert [ds[0]] + ds[1..] == ds;
    } else {
      assert ds + t == t;
    }
  }

  /** `Number(s)` for a query-string value: integer reading of a non-empty
      string of decimal digits, `None` (JavaScript's NaN) otherwise. */
  function ToNumber(s: string): (r: Option<nat>)
    ensures r.Some? <==> s != [] && AllDigits(s)
  {
    if s != [] && AllDigits(s) then Some(Value(s)) else None
  }

  /** Every numeral this module writes is read by `Number` as itself. */
  lemma ToNumberOfShow(n: nat)
    ensures ToNumber(Show(n)) == Some(n)
  {
    ValueOfShow(n);
  }
}
