/** Lower-case hexadecimal digits. */
module Hexadecimal {

  function Digit(d: nat): char
    requires d < 16
  {
    if d < 10 then '0' + d as char else 'a' + (d - 10) as char
  }

  predicate LowerHexDigit(c: char) { '0' <= c <= '9' || 'a' <= c <= 'f' }

  predicate LowerHex(s: string) { forall k :: 0 <= k < |s| ==> LowerHexDigit(s[k]) }
}
