/** Decimal digit characters, as the RUT pattern's `\d` and the correlative's digits use them. */
module Digits {
  predicate IsDigit(c: char) { '0' <= c <= '9' }

  predicate AllDigits(s: string) { forall k :: 0 <= k < |s| ==> IsDigit(s[k]) }
}
