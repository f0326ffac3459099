/** Byte strings, as the source's string and []byte values. */
module Bytes {
  type Byte = b: int | 0 <= b < 256

  type Bytes = seq<Byte>
}

/** The encoding of section 3 of RFC 3629. */
module Utf8 {
  import opened Bytes

  /** A Unicode scalar value. */
  type Scalar = c: int | 0 <= c < 0x11_0000 && !(0xD800 <= c < 0xE000)

  /** The lowest six bits in a byte of their own. */
  function Continuation(x: nat): Byte {
    0x80 + x % 64
  }

  function Encode(c: Scalar): (s: Bytes)
    ensures 0 < |s| <= 4
  {
    var lead: Byte := if c < 0x80 then c else if c < 0x800 then 0xC0 + c / 64 else if c < 0x1_0000 then 0xE0 + c / 4096 else 0xF0 + c / 262144;
    if c < 0x80 then [lead]
    else if c < 0x800 then [lead, Continuation(c)]
    else if c < 0x1_0000 then [lead, Continuation(c / 64), Continuation(c)]
    else [lead, Continuation(c / 4096), Continuation(c / 64), Continuation(c)]
  }

  function EncodeAll(text: seq<Scalar>): Bytes {
    if text == [] then [] else Encode(text[0]) + EncodeAll(text[1..])
  }

  /** The white space of Unicode. */
  predicate IsWhite(c: Scalar) {
    || 9 <= c <= 13 || c == 32 || c == 0x85 || c == 0xA0 || c == 0x1680 || 0x2000 <= c <= 0x200A
    || c == 0x2028 || c == 0x2029 || c == 0x202F || c == 0x205F || c == 0x3000
  }
}
