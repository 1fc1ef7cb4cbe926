/** Character classes shared by the phone helper and the session store. */
module Chars {

  /** An ASCII digit, what `\d` and `[0-9]` match. */
  predicate IsDigit(c: char) {
    '0' <= c <= '9'
  }

  predicate AllDigits(s: string) {
    forall i :: 0 <= i < |s| ==> IsDigit(s[i])
  }
}
