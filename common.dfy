/** Small shared vocabulary: an optional value (JavaScript's `null`/`undefined`)
    and the decimal digit characters. */
module Common {

  datatype Option<+T> = None | Some(value: T)

  /** The ASCII decimal digits, which is what `\d` matches in a JavaScript
      regular expression without the `u` flag. */
  predicate IsDigitChar(c: char) {
    '0' <= c <= '9'
  }

  predicate AllDigits(s: string) {
    forall i :: 0 <= i < |s| ==> IsDigitChar(s[i])
  }

  /** `d.toString()` for a single decimal digit. */
  function DigitChar(d: int): (c: char)
    requires 0 <= d <= 9
    ensures IsDigitChar(c)
    ensures DigitValue(c) == d
  {
    ('0' as int + d) as char
  }

  /** The value of a digit character (its offset from '0'). */
  function DigitValue(c: char): (d: int)
    requires IsDigitChar(c)
    ensures 0 <= d <= 9
  {
    c as int - '0' as int
  }

  lemma DigitCharOfValue(c: char)
    requires IsDigitChar(c)
    ensures DigitChar(DigitValue(c)) == c
  {
  }
}
