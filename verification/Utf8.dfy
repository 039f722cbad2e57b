/** Well-formed UTF-8, as the syntax of RFC 3629, section 4, defines it. */
module Utf8 {
  import opened BigEndian

  predicate Tail(b: byte) { 0x80 <= b <= 0xBF }

  /** The length of the well-formed character the bytes start with, or 0 if they start with none. */
  function CharLength(s: seq<byte>): (n: nat)
    ensures n <= |s|
  {
    if s == [] then 0
    else if s[0] <= 0x7F then 1
    else if 0xC2 <= s[0] <= 0xDF then
      if |s| >= 2 && Tail(s[1]) then 2 else 0
    else if 0xE0 <= s[0] <= 0xEF then
      var low := if s[0] == 0xE0 then 0xA0 else 0x80;
      var high := if s[0] == 0xED then 0x9F else 0xBF;
      if |s| >= 3 && low <= s[1] <= high && Tail(s[2]) then 3 else 0
    else if 0xF0 <= s[0] <= 0xF4 then
      var low := if s[0] == 0xF0 then 0x90 else 0x80;
      var high := if s[0] == 0xF4 then 0x8F else 0xBF;
      if |s| >= 4 && low <= s[1] <= high && Tail(s[2]) && Tail(s[3]) then 4 else 0
    else 0
  }

  predicate ValidUtf8(s: seq<byte>) {
    s == [] || (CharLength(s) > 0 && ValidUtf8(s[CharLength(s)..]))
  }
}
