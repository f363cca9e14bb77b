/**
 * The statement number ("correlativo"): `EGTD-` followed by the count of
 * existing statements plus one, in decimal, zero-padded to at least two digits
 * (Python's `f"EGTD-{count+1:02d}"`).
 */
module Correlative {
  import opened Wrappers
  import opened Digits

  const Prefix: string := "EGTD-"

  function DigitChar(d: nat): (c: char)
    requires d < 10
    ensures IsDigit(c)
  {
    ('0' as int + d) as char
  }

  /** The value of a string of decimal digits, most significant first. */
  function DigitsValue(s: string): nat
    requires AllDigits(s)
  {
    if s == [] then 0
    else 10 * DigitsValue(s[..|s| - 1]) + (s[|s| - 1] as int - '0' as int)
  }

  /** `str(n)`: the decimal digits of n, no leading zero. */
  function Decimal(n: nat): (s: string)
    ensures 1 <= |s| && AllDigits(s)
    ensures n >= 10 ==> s[0] != '0'
    ensures DigitsValue(s) == n
  {
    if n < 10 then [DigitChar(n)]
    else
      var s := Decimal(n / 10) + [DigitChar(n % 10)];
      assert s[..|s| - 1] == Decimal(n / 10);
      s
  }

  /** `{n:02d}` for n >= 0: the decimal digits, with one leading zero below 10. */
  function Pad2(n: nat): (s: string)
    ensures 2 <= |s| && AllDigits(s)
    ensures |s| == 2 || s[0] != '0'
  {
    if n < 10 then "0" + Decimal(n) else Decimal(n)
  }

  /** The correlative minted when `count` statements already exist. */
  function CorrelativeFor(count: nat): (c: string)
    ensures |c| >= 7 && c[..5] == Prefix && AllDigits(c[5..])
  {
    Prefix + Pad2(count + 1)
  }

  /** Reads the number back out of a correlative, if it has that shape. */
  function ParseCorrelative(c: string): Option<nat>
  {
    if |c| > |Prefix| && c[..|Prefix|] == Prefix && AllDigits(c[|Prefix|..]) then Some(DigitsValue(c[|Prefix|..]))
    else None
  }

  /** Leading zeros do not change a decimal value. */
  lemma {:induction false} LeadingZero(s: string)
    requires AllDigits(s)
    ensures AllDigits("0" + s) && DigitsValue("0" + s) == DigitsValue(s)
  {
    if s != [] {
      var t := "0" + s;
      assert t[..|t| - 1] == "0" + s[..|s| - 1];
      LeadingZero(s[..|s| - 1]);
    }
  }

  /** Zero padding keeps the number: parsing the padded digits gives n back. */
  lemma Pad2Value(n: nat)
    ensures DigitsValue(Pad2(n)) == n
  {
    if n < 10 {
      LeadingZero(Decimal(n));
    }
  }

  /** The number inside the correlative is the statement count plus one. */
  lemma CorrelativeRoundTrip(count: nat)
    ensures ParseCorrelative(CorrelativeFor(count)) == Some(count + 1)
  {
    var c := CorrelativeFor(count);
    assert c[|Prefix|..] == Pad2(count + 1);
    Pad2Value(count + 1);
  }

  /** Different statement counts never mint the same correlative. */
  lemma CorrelativeInjective(a: nat, b: nat)
    requires CorrelativeFor(a) == CorrelativeFor(b)
    ensures a == b
  {
    CorrelativeRoundTrip(a);
    CorrelativeRoundTrip(b);
  }

  /** The first correlatives, the step to three digits, and the step after EGTD-07. */
  lemma CorrelativeExamples()
    ensures CorrelativeFor(0) == "EGTD-01"
    ensures CorrelativeFor(7) == "EGTD-08"
    ensures CorrelativeFor(9) == "EGTD-10"
    ensures CorrelativeFor(99) == "EGTD-100"
  {
    assert Decimal(10) == "10";
    assert Decimal(10) == Decimal(1) + [DigitChar(0)];
    assert Decimal(100) == Decimal(10) + [DigitChar(0)];
  }
}
