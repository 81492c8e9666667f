/** The UTF-8 helpers of kernel/font.hpp: the length of a sequence from its
    lead byte, decoding one sequence to a code point, and the half-width test.
    Byte patterns follow RFC 3629, section 3. Glyph rendering is not modelled. */
module Font {

  /** `CountUTF8Size`: the number of bytes of the sequence a lead byte starts,
      0 for a continuation byte or a byte that never starts a sequence. */
  function CountUTF8Size(c: bv8): (n: int)
    ensures n == 1 <==> c & 0x80 == 0x00
    ensures n == 2 <==> c & 0xE0 == 0xC0
    ensures n == 3 <==> c & 0xF0 == 0xE0
    ensures n == 4 <==> c & 0xF8 == 0xF0
    ensures n == 0 <==> c & 0xC0 == 0x80 || c >= 0xF8
  {
    if c < 0x80 then 1
    else if 0xC0 <= c < 0xE0 then 2
    else if 0xE0 <= c < 0xF0 then 3
    else if 0xF0 <= c < 0xF8 then 4
    else 0
  }

  /** The six payload bits of a continuation byte. */
  function Payload(c: bv8): bv32
  {
    (c as bv32) & 0x3F
  }

  /** The code points of two-, three- and four-byte sequences: the lead byte's
      low 5, 4 or 3 bits followed by six bits from each continuation byte. */
  function Decode2(b0: bv8, b1: bv8): bv32
  {
    (((b0 as bv32) & 0x1F) << 6) | Payload(b1)
  }

  function Decode3(b0: bv8, b1: bv8, b2: bv8): bv32
  {
    (((b0 as bv32) & 0x0F) << 12) | (Payload(b1) << 6) | Payload(b2)
  }

  function Decode4(b0: bv8, b1: bv8, b2: bv8, b3: bv8): bv32
  {
    (((b0 as bv32) & 0x07) << 18) | (Payload(b1) << 12) | (Payload(b2) << 6) | Payload(b3)
  }

  /** `ConvertUTF8To32`: the code point of the sequence at the start of `u8` and
      its length; a byte that starts no sequence gives (0, 0). Continuation
      bytes are not checked. */
  function ConvertUTF8To32(u8: seq<bv8>): (r: (bv32, int))
    requires |u8| >= 1 && |u8| >= CountUTF8Size(u8[0])
    ensures r.1 == CountUTF8Size(u8[0])
    ensures r.1 == 0 ==> r.0 == 0
  {
    match CountUTF8Size(u8[0])
    case 1 => (u8[0] as bv32, 1)
    case 2 => (Decode2(u8[0], u8[1]), 2)
    case 3 => (Decode3(u8[0], u8[1], u8[2]), 3)
    case 4 => (Decode4(u8[0], u8[1], u8[2], u8[3]), 4)
    case _ => (0, 0)
  }

  /** Unicode scalar values: below 0x110000 and not a surrogate. */
  predicate IsScalarValue(cp: bv32)
  {
    cp < 0x11_0000 && !(0xD800 <= cp <= 0xDFFF)
  }

  /** A continuation byte carrying six bits of a code point. */
  function Continuation(x: bv32): bv8
  {
    (0x80 | (x & 0x3F)) as bv8
  }

  /** The UTF-8 encoding of a scalar value (RFC 3629, section 3): the reference
      the decoder is checked against. */
  function EncodeUTF8(cp: bv32): (s: seq<bv8>)
    requires IsScalarValue(cp)
    ensures 1 <= |s| <= 4
    ensures CountUTF8Size(s[0]) == |s|
    ensures forall k :: 1 <= k < |s| ==> s[k] & 0xC0 == 0x80
  {
    if cp < 0x80 then
      [cp as bv8]
    else if cp < 0x800 then
      [(0xC0 | (cp >> 6)) as bv8, Continuation(cp)]
    else if cp < 0x1_0000 then
      [(0xE0 | (cp >> 12)) as bv8, Continuation(cp >> 6), Continuation(cp)]
    else
      [(0xF0 | (cp >> 18)) as bv8, Continuation(cp >> 12), Continuation(cp >> 6), Continuation(cp)]
  }

  lemma Decode2Encode(cp: bv32)
    requires 0x80 <= cp < 0x800
    ensures Decode2((0xC0 | (cp >> 6)) as bv8, Continuation(cp)) == cp
  {
  }

  lemma Decode3Encode(cp: bv32)
    requires 0x800 <= cp < 0x1_0000
    ensures Decode3((0xE0 | (cp >> 12)) as bv8, Continuation(cp >> 6), Continuation(cp)) == cp
  {
  }

  lemma Decode4Encode(cp: bv32)
    requires 0x1_0000 <= cp < 0x11_0000
    ensures Decode4((0xF0 | (cp >> 18)) as bv8, Continuation(cp >> 12), Continuation(cp >> 6), Continuation(cp)) == cp
  {
  }

  /** Decoding the encoding of any scalar value gives the value back, with the
      length of the encoding. */
  lemma DecodeEncode(cp: bv32)
    requires IsScalarValue(cp)
    ensures ConvertUTF8To32(EncodeUTF8(cp)) == (cp, |EncodeUTF8(cp)|)
  {
    if cp < 0x80 {
      assert ((cp as bv8) as bv32) == cp;
    } else if cp < 0x800 {
      Decode2Encode(cp);
    } else if cp < 0x1_0000 {
      Decode3Encode(cp);
    } else {
      Decode4Encode(cp);
    }
  }

  /** An ASCII byte decodes to itself with length 1, whatever follows it. */
  lemma AsciiDecodesToItself(u8: seq<bv8>)
    requires |u8| >= 1 && u8[0] < 0x80
    ensures ConvertUTF8To32(u8) == (u8[0] as bv32, 1)
  {
  }

  /** `IsHankaku`: code points drawn with the half-width (8x16) font: the ASCII range. */
  predicate IsHankaku(c: bv32)
  {
    c < 0x80
  }

  /** Every code point of a one-byte sequence is half-width, and every code
      point of a longer sequence is drawn full-width. */
  lemma HankakuIffOneByte(cp: bv32)
    requires IsScalarValue(cp)
    ensures IsHankaku(cp) <==> |EncodeUTF8(cp)| == 1
  {
  }
}
