/**
 * Bytes and Go's conversion of a byte to a string. A Dafny `string` stands
 * for a Go string, one `char` per byte.
 */
module Runes {
  /** Each char of a string stands for one byte, so its code is below 256. */
  function ByteOf(c: char): (b: nat)
    ensures b < 256
  {
    (c as int) % 256
  }

  /**
   * Go's `string(b)` for a byte `b`: the UTF-8 encoding of the code point
   * `b` — one byte below 0x80, two bytes (110xxxxx 10xxxxxx) from 0x80 on.
   */
  function RuneString(c: char): (r: string)
    ensures 1 <= |r| <= 2
  {
    var b := ByteOf(c);
    if b < 0x80 then [b as char]
    else [(0xC0 + b / 64) as char, (0x80 + b % 64) as char]
  }

  /** The code point that one- or two-byte UTF-8 text encodes (0 for other lengths). */
  function DecodeRune(s: string): (cp: int)
  {
    if |s| == 1 then s[0] as int
    else if |s| == 2 then (s[0] as int - 0xC0) * 64 + (s[1] as int - 0x80)
    else 0
  }

  /** Decoding the conversion gives back the byte: the conversion keeps the byte's value. */
  lemma RuneStringDecodes(c: char)
    ensures DecodeRune(RuneString(c)) == ByteOf(c)
    ensures |RuneString(c)| == 1 <==> ByteOf(c) < 0x80
  {
  }
}
