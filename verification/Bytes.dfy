// Byte strings, as far as the test2json converter uses them.
module Bytes {

  newtype byte = x: int | 0 <= x < 256

  const NL: byte := 0x0A
  const TAB: byte := 0x09
  const SPACE: byte := 0x20

  predicate HasPrefix(s: seq<byte>, p: seq<byte>) {
    p <= s
  }

  predicate HasSuffix(s: seq<byte>, p: seq<byte>) {
    |p| <= |s| && s[|s| - |p|..] == p
  }

  // bytes.TrimRight(s, " ").
  function TrimRightSpaces(s: seq<byte>): seq<byte> {
    if s != [] && s[|s| - 1] == SPACE then TrimRightSpaces(s[..|s| - 1]) else s
  }
}
