/**
 * Pixel packing: a colour is a 32-bit word `0xAARRGGBB`; the web canvas wants
 * the bytes in the order R, G, B, A.
 */
module Pixels {

  type Byte = bv8
  type Word = bv32

  /** Rust's `u32 as u8`: the byte left when the word is reduced modulo 256. */
  function LowByte(w: Word): (b: Byte)
    ensures (w - b as Word) % 0x100 == 0
  {
    (w & 0xFF) as Byte
  }

  /**
   * Opaque alpha with the three channels in bits 16-23, 8-15 and 0-7. The
   * channels are combined with `+`; they never overlap, so no carry occurs.
   */
  function Rgb(r: Byte, g: Byte, b: Byte): (c: Word)
    ensures c >> 24 == 0xFF
    ensures c == 0xFF00_0000 | (r as Word << 16) | (g as Word << 8) | b as Word
  {
    0xFF00_0000 | ((r as Word << 16) + (g as Word << 8) + b as Word)
  }

  /** `0xAARRGGBB` becomes `[RR, GG, BB, AA]`. */
  function ToWebColor(c: Word): (w: seq<Byte>)
    ensures |w| == 4
    ensures Rgb(w[0], w[1], w[2]) == c | 0xFF00_0000
    ensures w[3] as Word == c >> 24
  {
    [LowByte(c >> 16), LowByte(c >> 8), LowByte(c & 0xFF), LowByte(c >> 24)]
  }

  /** Unpacking a packed colour gives back its channels and an opaque alpha. */
  lemma WebColorOfRgb(r: Byte, g: Byte, b: Byte)
    ensures ToWebColor(Rgb(r, g, b)) == [r, g, b, 0xFF]
  {
  }

  /** Every opaque colour is the packing of its own channels. */
  lemma RgbOfWebColor(c: Word)
    requires c >> 24 == 0xFF
    ensures var w := ToWebColor(c); Rgb(w[0], w[1], w[2]) == c && w[3] == 0xFF
  {
  }

  /**
   * Rust's saturating `f32 as u8` on ordinary values: truncation toward zero,
   * clamped to 0..255.
   */
  function SaturatingByte(x: real): (n: int)
    ensures 0 <= n < 256
    ensures x < 1.0 ==> n == 0
    ensures x >= 255.0 ==> n == 255
    ensures 0.0 <= x < 256.0 ==> n as real <= x < n as real + 1.0
  {
    if x < 1.0 then 0 else if x >= 255.0 then 255 else x.Floor
  }

  /** A colour with channels nominally in 0..1. */
  function Rgbf(r: real, g: real, b: real): (c: Word)
    ensures c >> 24 == 0xFF
  {
    Rgb(SaturatingByte(r * 255.0) as Byte, SaturatingByte(g * 255.0) as Byte, SaturatingByte(b * 255.0) as Byte)
  }

  /** White and black map to the extreme bytes. */
  lemma RgbfExtremes()
    ensures Rgbf(1.0, 1.0, 1.0) == 0xFFFF_FFFF
    ensures Rgbf(0.0, 0.0, 0.0) == 0xFF00_0000
  {
  }

  /** The web frame: each pixel contributes its four bytes, in order. */
  function WebFrame(frame: seq<Word>): (bytes: seq<Byte>)
    ensures |bytes| == 4 * |frame|
    ensures forall i :: 0 <= i < |frame| ==> bytes[4 * i..4 * i + 4] == ToWebColor(frame[i])
  {
    if |frame| == 0 then [] else
      var rest := WebFrame(frame[1..]);
      var bytes := ToWebColor(frame[0]) + rest;
      assert forall i :: 1 <= i < |frame| ==> bytes[4 * i..4 * i + 4] == rest[4 * (i - 1)..4 * (i - 1) + 4];
      bytes
  }
}
