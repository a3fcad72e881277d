/** `compareNumbers`, the comparator that orders the priority keys of the
    `groups` dictionary. Those keys are strings (`String(priority)`), so the
    comparator parses both sides with `parseInt(·, 10)` before comparing. */
module Decimal {
  import opened Types

  predicate IsDigit(c: char)
  {
    '0' <= c <= '9'
  }

  predicate AllDigits(s: string)
  {
    forall i :: 0 <= i < |s| ==> IsDigit(s[i])
  }

  function DigitValue(c: char): nat
    requires IsDigit(c)
  {
    (c as int) - ('0' as int)
  }

  function DigitChar(d: nat): (c: char)
    requires d < 10
    ensures IsDigit(c) && DigitValue(c) == d
  {
    (('0' as int) + d) as char
  }

  /** The longest prefix of `s` made of decimal digits: where `parseInt(s, 10)`
      stops reading. */
  function LeadingDigits(s: string): (p: string)
    ensures p <= s && AllDigits(p)
    ensures |p| < |s| ==> !IsDigit(s[|p|])
  {
    if s == [] || !IsDigit(s[0]) then [] else [s[0]] + LeadingDigits(s[1..])
  }

  /** The value of a numeral, most significant digit first. */
  function DigitsValue(ds: string): nat
    requires AllDigits(ds)
  {
    if ds == [] then 0 else DigitsValue(ds[..|ds| - 1]) * 10 + DigitValue(ds[|ds| - 1])
  }

  /** `parseInt(s, 10)` on a string that starts with a digit or with neither
      blank nor sign; `None` stands for `NaN`. */
  function ParseInt(s: string): (n: Option<int>)
    ensures n.Some? <==> |s| > 0 && IsDigit(s[0])
    ensures n.Some? ==> n.value >= 0
  {
    var p := LeadingDigits(s);
    if p == [] then None else Some(DigitsValue(p))
  }

  /** `String(n)` for a non-negative integer: its shortest decimal numeral. */
  function ToDecimal(n: nat): (s: string)
    ensures |s| > 0 && AllDigits(s)
  {
    if n < 10 then [DigitChar(n)] else ToDecimal(n / 10) + [DigitChar(n % 10)]
  }

  /** `compareNumbers(a, b)`. A `NaN` side makes both tests false, hence 0. */
  function CompareNumbers(a: string, b: string): (c: int)
    ensures c == -1 || c == 0 || c == 1
    ensures ParseInt(a).None? || ParseInt(b).None? ==> c == 0
  {
    var x, y := ParseInt(a), ParseInt(b);
    if x.Some? && y.Some? && x.value < y.value then -1
    else if x.Some? && y.Some? && x.value > y.value then 1
    else 0
  }

  lemma {:induction false} LeadingDigitsOfNumeral(s: string)
    requires AllDigits(s)
    ensures LeadingDigits(s) == s
  {
    if s != [] {
      LeadingDigitsOfNumeral(s[1..]);
    }
  }

  lemma {:induction false} DigitsValueOfDecimal(n: nat)
    ensures DigitsValue(ToDecimal(n)) == n
  {
    if n >= 10 {
      var s := ToDecimal(n);
      assert s[..|s| - 1] == ToDecimal(n / 10);
      DigitsValueOfDecimal(n / 10);
    }
  }

  /** Reading back `String(n)` with `parseInt` gives `n`. */
  lemma {:induction false} ParseIntOfDecimal(n: nat)
    ensures ParseInt(ToDecimal(n)) == Some(n)
  {
    LeadingDigitsOfNumeral(ToDecimal(n));
    DigitsValueOfDecimal(n);
  }

  /** Distinct priorities give distinct dictionary keys. */
  lemma ToDecimalInjective()
    ensures forall p: nat, q: nat :: ToDecimal(p) == ToDecimal(q) ==> p == q
  {
    forall p: nat, q: nat | ToDecimal(p) == ToDecimal(q)
      ensures p == q
    {
      ParseIntOfDecimal(p);
      ParseIntOfDecimal(q);
    }
  }

  /** On the keys of `groups`, `compareNumbers` is the numeric order of the
      priorities, not the order of the strings. */
  lemma CompareNumbersIsNumericOrder(a: nat, b: nat)
    ensures CompareNumbers(ToDecimal(a), ToDecimal(b)) == (if a < b then -1 else if a > b then 1 else 0)
  {
    ParseIntOfDecimal(a);
    ParseIntOfDecimal(b);
  }

  /** For instance, "9" sorts before "10", although '1' precedes '9'. */
  lemma NineBeforeTen()
    ensures CompareNumbers("9", "10") == -1 && "10"[0] < "9"[0]
  {
    assert ToDecimal(9) == "9";
    assert ToDecimal(10) == "10";
    CompareNumbersIsNumericOrder(9, 10);
  }
}
