/** NUL-terminated strings, as the C code reads them. */
module CStrings {

  /** The characters before the terminator. */
  type CStr = s: seq<char> | '\0' !in s

  /** What C reads at s[i]; the terminator may be read, nothing beyond it. */
  function At(s: CStr, i: nat): (c: char)
    requires i <= |s|
    ensures c == '\0' <==> i == |s|
    ensures i < |s| ==> c == s[i]
  {
    if i < |s| then assert s[i] in s; s[i] else '\0'
  }

  /** Value of a plain `char`, which is signed on the supported targets. */
  function Ord(c: char): int {
    if c as int < 128 then c as int else c as int - 256
  }
}
