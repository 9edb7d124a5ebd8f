/** Character classes used by the tokenizer and the id coercion, restricted to ASCII:
    Python's str.isalnum, str.lower and str.isdecimal on the characters below. */
module Chars {

  /** A decimal digit '0'..'9' (str.isdecimal for one ASCII character). */
  predicate IsDigit(c: char) {
    '0' <= c <= '9'
  }

  /** A letter or a digit (str.isalnum for one ASCII character). */
  predicate IsAlnum(c: char) {
    'a' <= c <= 'z' || 'A' <= c <= 'Z' || IsDigit(c)
  }

  /** A character that lower-casing leaves as it is and that is a letter or a digit. */
  predicate IsLowerAlnum(c: char) {
    'a' <= c <= 'z' || IsDigit(c)
  }

  /** str.lower for one ASCII character: upper-case letters map to lower case, all else is kept. */
  function Lower(c: char): (r: char)
    ensures IsAlnum(c) ==> IsLowerAlnum(r)
    ensures !('A' <= c <= 'Z') ==> r == c
    ensures 'A' <= c <= 'Z' ==> r as int == c as int + 32
  {
    if 'A' <= c <= 'Z' then (c as int + 32) as char else c
  }
}
