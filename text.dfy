/** Character classes shared by the address parser and the header translator. */
module Text {
  /** An ASCII decimal digit. */
  predicate IsDigit(ch: char) {
    '0' <= ch <= '9'
  }

  /** Every character is an ASCII decimal digit. */
  predicate AllDigits(s: string) {
    forall i :: 0 <= i < |s| ==> IsDigit(s[i])
  }
}
