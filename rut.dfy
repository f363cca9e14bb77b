/**
 * Chilean RUT validation (`validar_rut`): the input is cleaned of '.' and '-'
 * and upper-cased; it must be 7 or 8 digits followed by a digit or 'K'; the
 * body digits are weighted 2, 3, 4, 5, 6, 7, 2, ... from the rightmost one and
 * summed, and the check character is 11 - (sum mod 11), written '0' for 11 and
 * 'K' for 10. The RUT is valid when the given check character is that one.
 */
module Rut {
  import opened Digits

  /** `int(d)` on a decimal digit. */
  function DigitValue(c: char): nat
    requires IsDigit(c)
  {
    c as int - '0' as int
  }

  /** `str.upper()` on one character; only ASCII letters change. */
  function Upper(c: char): char
  {
    if 'a' <= c <= 'z' then (c as int - 32) as char else c
  }

  /** `rut.replace('.', '').replace('-', '').upper()`. */
  function Clean(rut: string): string
  {
    if rut == [] then [] else CleanChar(rut[0]) + Clean(rut[1..])
  }

  /** What cleaning makes of one character: nothing for a separator, else its upper case. */
  function CleanChar(ch: char): string
  {
    if ch == '.' || ch == '-' then [] else [Upper(ch)]
  }

  /** The cleaned string holds no separator and no lower-case ASCII letter. */
  lemma {:induction false} CleanOutput(rut: string)
    ensures |Clean(rut)| <= |rut|
    ensures forall k :: 0 <= k < |Clean(rut)| ==> Clean(rut)[k] != '.' && Clean(rut)[k] != '-' && !('a' <= Clean(rut)[k] <= 'z')
  {
    if rut != [] {
      CleanOutput(rut[1..]);
    }
  }

  /** `re.match(r"^\d{7,8}[0-9K]$", c)`, with `$` read as the end of the string. */
  predicate MatchesPattern(c: string)
  {
    && (|c| == 8 || |c| == 9)
    && (forall k :: 0 <= k < |c| - 1 ==> IsDigit(c[k]))
    && (IsDigit(c[|c| - 1]) || c[|c| - 1] == 'K')
  }

  /** The weight of the digit k places from the right: 2, 3, 4, 5, 6, 7, 2, ... */
  function Weight(k: nat): nat
  {
    2 + k % 6
  }

  /** The body digits, each times the weight of its place counted from the right. */
  function WeightedSum(body: string): nat
    requires AllDigits(body)
  {
    if body == [] then 0 else DigitValue(body[0]) * Weight(|body| - 1) + WeightedSum(body[1..])
  }

  /** The check character of a body: 11 - (sum mod 11), with 11 as '0' and 10 as 'K'. */
  function CheckDigit(body: string): (d: char)
    requires AllDigits(body)
    ensures IsDigit(d) || d == 'K'
  {
    var dv := 11 - WeightedSum(body) % 11;
    if dv == 11 then '0' else if dv == 10 then 'K' else ('0' as int + dv) as char
  }

  /** The value a check character stands for: its digit, or 10 for 'K'. */
  function CheckValue(d: char): nat
    requires IsDigit(d) || d == 'K'
  {
    if d == 'K' then 10 else DigitValue(d)
  }

  /** The RUT the input denotes is well formed and carries its body's check character. */
  predicate IsValidRut(rut: string)
  {
    IsValidClean(Clean(rut))
  }

  /** A cleaned RUT is well formed and ends in its body's check character. */
  predicate IsValidClean(c: string)
  {
    MatchesPattern(c) && c[|c| - 1] == CheckDigit(c[..|c| - 1])
  }

  /** `validar_rut(rut)`: the loop runs over the body from its rightmost digit. */
  method ValidateRut(rut: string) returns (ok: bool)
    ensures ok == IsValidRut(rut)
  {
    var clean := Clean(rut);
    if !MatchesPattern(clean) {
      return false;
    }
    var body, entered := clean[..|clean| - 1], clean[|clean| - 1];
    var sum, weight := 0, 2;
    var i := |body|;
    while i > 0
      invariant 0 <= i <= |body|
      invariant sum == WeightedSum(body[i..])
      invariant weight == Weight(|body| - i)
    {
      i := i - 1;
      assert body[i..][1..] == body[i + 1..];
      sum := sum + DigitValue(body[i]) * weight;
      weight := if weight == 7 then 2 else weight + 1;
    }
    assert body[0..] == body;
    var computed := 11 - sum % 11;
    var expected: char;
    if computed == 11 {
      expected := '0';
    } else if computed == 10 {
      expected := 'K';
    } else {
      expected := ('0' as int + computed) as char;
    }
    ok := entered == expected;
  }

  /** The check character is the one character c of 0-9, K for which
      sum + value(c) is a multiple of 11: modulo 11 the RUT checks out. */
  lemma CheckDigitMod11(body: string, d: char)
    requires AllDigits(body)
    requires IsDigit(d) || d == 'K'
    ensures d == CheckDigit(body) <==> (WeightedSum(body) + CheckValue(d)) % 11 == 0
  {
    var s := WeightedSum(body);
    var r := s % 11;
    assert s == 11 * (s / 11) + r;
    var v := CheckValue(d);
    assert 0 <= v <= 10;
    assert (s + v) % 11 == (r + v) % 11;
    if d == CheckDigit(body) {
      assert v == (11 - r) % 11;
    }
  }

  /** Cleaning works character by character. */
  lemma {:induction false} CleanAppend(a: string, b: string)
    ensures Clean(a + b) == Clean(a) + Clean(b)
  {
    if a == [] {
      assert a + b == b;
    } else {
      var ab := a + b;
      assert ab[0] == a[0];
      assert ab[1..] == a[1..] + b;
      CleanAppend(a[1..], b);
      calc {
        Clean(ab);
        CleanChar(a[0]) + Clean(a[1..] + b);
        CleanChar(a[0]) + (Clean(a[1..]) + Clean(b));
        (CleanChar(a[0]) + Clean(a[1..])) + Clean(b);
        Clean(a) + Clean(b);
      }
    }
  }

  /** A string that is already clean is left unchanged. */
  lemma {:induction false} CleanOfClean(s: string)
    requires forall k :: 0 <= k < |s| ==> IsDigit(s[k]) || s[k] == 'K'
    ensures Clean(s) == s
  {
    if s != [] {
      CleanOfClean(s[1..]);
      assert s == [s[0]] + s[1..];
    }
  }

  /** Writing a RUT with or without its dots and dash gives the same verdict. */
  lemma SeparatorIgnored(a: string, b: string, sep: char)
    requires sep == '.' || sep == '-'
    ensures IsValidRut(a + [sep] + b) == IsValidRut(a + b)
  {
    CleanSkipsSeparator(a, b, sep);
  }

  lemma CleanSkipsSeparator(a: string, b: string, sep: char)
    requires sep == '.' || sep == '-'
    ensures Clean(a + [sep] + b) == Clean(a + b)
  {
    CleanAppend(a + [sep], b);
    CleanAppend(a, [sep]);
    CleanAppend(a, b);
    assert Clean([sep]) == CleanChar(sep) + Clean([]) == [];
  }

  /** A lower-case 'k' is accepted wherever an upper-case one is. */
  lemma LowerCaseK(a: string, b: string)
    ensures IsValidRut(a + "k" + b) == IsValidRut(a + "K" + b)
  {
    CleanAppend(a + "k", b);
    CleanAppend(a, "k");
    CleanAppend(a + "K", b);
    CleanAppend(a, "K");
    assert Clean("k") == "K" == Clean("K");
  }

  /** For a body of 7 or 8 digits, exactly one check character validates:
      the one that makes the weighted sum plus its value a multiple of 11. */
  lemma ExactlyOneCheckDigit(body: string, d: char)
    requires |body| == 7 || |body| == 8
    requires AllDigits(body)
    requires IsDigit(d) || d == 'K'
    ensures IsValidRut(body + [d]) <==> d == CheckDigit(body)
    ensures IsValidRut(body + [d]) <==> (WeightedSum(body) + CheckValue(d)) % 11 == 0
  {
    var s := body + [d];
    CleanOfClean(s);
    assert s[..|s| - 1] == body && s[|s| - 1] == d;
    assert MatchesPattern(s);
    assert IsValidRut(s) == IsValidClean(s);
    CheckDigitMod11(body, d);
  }

  /** Nothing else validates: a string that is not 7 or 8 digits plus a digit or 'K' after cleaning fails. */
  lemma MalformedRejected(rut: string)
    requires !MatchesPattern(Clean(rut))
    ensures !IsValidRut(rut)
  {
  }

  /** The weighted sum of the body 76002581 is 89. */
  lemma StatementRutSum()
    ensures WeightedSum("76002581") == 89
  {
    var body := "76002581";
    assert body[1..] == "6002581" && body[2..] == "002581" && body[3..] == "02581";
    assert body[4..] == "2581" && body[5..] == "581" && body[6..] == "81" && body[7..] == "1";
    assert WeightedSum("1") == 2;
    assert WeightedSum("81") == 26;
    assert WeightedSum("581") == 46;
    assert WeightedSum("2581") == 56;
    assert WeightedSum("02581") == 56;
    assert WeightedSum("002581") == 56;
    assert WeightedSum("6002581") == 68;
  }

  /** Cleaning the printed form 76.002.581-K gives 76002581K. */
  lemma StatementRutClean()
    ensures Clean("76.002.581-K") == "76002581K"
  {
    CleanSkipsSeparator("76", "002.581-K", '.');
    assert "76" + ['.'] + "002.581-K" == "76.002.581-K";
    assert "76" + "002.581-K" == "76002.581-K";
    CleanSkipsSeparator("76002", "581-K", '.');
    assert "76002" + ['.'] + "581-K" == "76002.581-K";
    assert "76002" + "581-K" == "76002581-K";
    CleanSkipsSeparator("76002581", "K", '-');
    assert "76002581" + ['-'] + "K" == "76002581-K";
    assert "76002581" + "K" == "76002581K";
    CleanOfClean("76002581K");
  }

  /** The company RUT printed on every statement, 76.002.581-K, is valid: its
      weighted sum is 89, 89 mod 11 is 1, and 11 - 1 = 10 is written 'K'. */
  lemma StatementRutValid()
    ensures CheckDigit("76002581") == 'K'
    ensures IsValidRut("76.002.581-K")
  {
    StatementRutSum();
    StatementRutCleanValid();
    StatementRutClean();
  }

  lemma StatementRutCleanValid()
    requires WeightedSum("76002581") == 89
    ensures IsValidClean("76002581K")
  {
    var c := "76002581K";
    assert c[..|c| - 1] == "76002581";
  }

  // ---- validar_rut as written ------------------------------------------------

  datatype Outcome = Returned(valid: bool) | RaisedValueError

  /** `validar_rut` as the source has it. Python's `$` also matches just before
      a final newline, so a cleaned input of a well-formed RUT followed by '\n'
      passes the pattern; the body is then everything but the newline, check
      character included, and `int('K')` raises when that character is 'K'. */
  function ValidateAsWritten(rut: string): (r: Outcome)
    ensures r == RaisedValueError ==> |Clean(rut)| >= 1 && Clean(rut)[|Clean(rut)| - 1] == '\n'
  {
    ValidateCleanAsWritten(Clean(rut))
  }

  function ValidateCleanAsWritten(c: string): Outcome
  {
    if MatchesPattern(c) then Returned(IsValidClean(c))
    else if |c| >= 1 && c[|c| - 1] == '\n' && MatchesPattern(c[..|c| - 1]) then
      var body := c[..|c| - 1];
      if body[|body| - 1] == 'K' then RaisedValueError
      else Returned(false)
    else Returned(false)
  }

  /** The statement RUT with a trailing newline makes the source raise instead of answering. */
  lemma TrailingNewlineRaises()
    ensures ValidateAsWritten("76.002.581-K" + ['\n']) == RaisedValueError
    ensures !IsValidRut("76.002.581-K" + ['\n'])
  {
    TrailingNewlineRejected("76.002.581-K");
    StatementRutNewlineClean();
    NewlineCleanRaises();
  }

  lemma StatementRutNewlineClean()
    ensures Clean("76.002.581-K" + ['\n']) == "76002581K" + ['\n']
  {
    CleanAppend("76.002.581-K", "\n");
    StatementRutClean();
  }

  lemma NewlineCleanRaises()
    ensures ValidateCleanAsWritten("76002581K" + ['\n']) == RaisedValueError
  {
    var c := "76002581K" + ['\n'];
    assert c[..|c| - 1] == "76002581K";
    assert !MatchesPattern(c);
    assert MatchesPattern(c[..|c| - 1]);
  }

  /** Away from a trailing newline the source and the model agree on every input. */
  lemma AsWrittenAgreesOffNewline(rut: string)
    requires Clean(rut) == [] || Clean(rut)[|Clean(rut)| - 1] != '\n'
    ensures ValidateAsWritten(rut) == Returned(IsValidRut(rut))
  {
  }

  /** The intended behaviour: a trailing newline is simply rejected. */
  lemma TrailingNewlineRejected(rut: string)
    ensures !IsValidRut(rut + ['\n'])
  {
    CleanAppend(rut, ['\n']);
  }
}
