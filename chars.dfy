/** ASCII character classes used by Python's `str` methods in the model. */
module Chars {

  /** `\d` and `str.isdigit` restricted to ASCII. */
  predicate IsDigit(c: char)
  {
    '0' <= c <= '9'
  }

  /** The value of a digit character, as Python's `int(d)`. */
  function DigitValue(c: char): (d: int)
    requires IsDigit(c)
    ensures 0 <= d <= 9
  {
    c as int - '0' as int
  }

  /** `str.isspace` on ASCII: tab, line feed, vertical tab, form feed, carriage return,
      the four separators 0x1C-0x1F and the space. `str.split()` and `str.strip()` use it. */
  predicate IsSpace(c: char)
  {
    '\t' <= c <= '\r' || '\U{1C}' <= c <= '\U{1F}' || c == ' '
  }

  predicate IsUpper(c: char)
  {
    'A' <= c <= 'Z'
  }

  predicate IsLower(c: char)
  {
    'a' <= c <= 'z'
  }

  predicate IsLetter(c: char)
  {
    IsUpper(c) || IsLower(c)
  }

  /** `str.lower` on one ASCII character: upper-case letters map to lower case, the rest stay. */
  function ToLower(c: char): (l: char)
    ensures !IsUpper(l)
    ensures IsUpper(c) ==> l as int == c as int + 32
    ensures !IsUpper(c) ==> l == c
  {
    if IsUpper(c) then (c as int + 32) as char else c
  }

  /** `str.lower` on an ASCII string, character by character. */
  function Lower(s: string): (r: string)
    ensures |r| == |s|
    ensures forall k :: 0 <= k < |s| ==> r[k] == ToLower(s[k])
  {
    seq(|s|, k requires 0 <= k < |s| => ToLower(s[k]))
  }

  /** True when every character is a digit (not requiring a non-empty string). */
  predicate AllDigits(s: string)
  {
    forall k :: 0 <= k < |s| ==> IsDigit(s[k])
  }
}
