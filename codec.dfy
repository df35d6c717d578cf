// The Ploytec PCM bit-interleaving codec shared by every driver.
//
// One S24_3LE frame is 8 channels of 3 little-endian bytes (24 bytes).  On
// the wire it is spread over 48 bytes that use only their low 4 bits: bytes
// 0x00..0x17 carry the odd channels (1, 3, 5, 7 on bits 0..3) and bytes
// 0x18..0x2F the even channels.  A capture frame is 64 bytes; the decoder
// gathers the same layout back from bytes 0x00..0x17 and 0x20..0x37.
//
// Every output byte of the source is an OR of mask-and-shift terms; `Term`
// is one such term and the byte functions below are written in that shape.
module PloytecCodec {

  const FrameBytes := 24
  const EncodedFrameBytes := 48
  const CaptureFrameBytes := 64
  /** Offset of the even-channel half inside a 64-byte capture frame. */
  const CaptureEvenHalf := 0x20

  /** Bit `i` of `x`. */
  predicate Bit(x: bv8, i: bv8)
    requires i < 8
  {
    (x >> i) & 1 == 1
  }

  /** Bit position `i` (0..7) as a shift amount. */
  function BitPos(i: int): (r: bv8)
    requires 0 <= i < 8
    ensures r < 8 && (i < 4 ==> r < 4)
  {
    if i == 0 then 0 else if i == 1 then 1 else if i == 2 then 2 else if i == 3 then 3
    else if i == 4 then 4 else if i == 5 then 5 else if i == 6 then 6 else 7
  }

  /** The inverse of BitPos. */
  function PosIndex(q: bv8): (r: int)
    requires q < 8
    ensures 0 <= r < 8 && BitPos(r) == q
  {
    if q == 0 then 0 else if q == 1 then 1 else if q == 2 then 2 else if q == 3 then 3
    else if q == 4 then 4 else if q == 5 then 5 else if q == 6 then 6 else 7
  }

  lemma PosIndexBitPos(i: int)
    requires 0 <= i < 8
    ensures PosIndex(BitPos(i)) == i
  {}

  /** One term of the source: bit `p` of `x` masked and moved to position `b`. */
  function Term(x: bv8, p: bv8, b: bv8): bv8
    requires p < 8 && b < 8
  {
    if p >= b then (x & (1 << p)) >> (p - b) else (x & (1 << p)) << (b - p)
  }

  /** Two bytes with the same eight bits are equal. */
  lemma BitsDetermineByte(x: bv8, y: bv8)
    requires forall q: bv8 :: q < 8 ==> Bit(x, q) == Bit(y, q)
    ensures x == y
  {
    assert Bit(x, 0) == Bit(y, 0) && Bit(x, 1) == Bit(y, 1);
    assert Bit(x, 2) == Bit(y, 2) && Bit(x, 3) == Bit(y, 3);
    assert Bit(x, 4) == Bit(y, 4) && Bit(x, 5) == Bit(y, 5);
    assert Bit(x, 6) == Bit(y, 6) && Bit(x, 7) == Bit(y, 7);
  }

  // ---------------------------------------------------------------- encoder

  /** One encoded byte: bit `p` of the four channel bytes on bits 0..3. */
  function Spread4(x0: bv8, x1: bv8, x2: bv8, x3: bv8, p: bv8): bv8
    requires p < 8
  {
    Term(x0, p, 0) | Term(x1, p, 1) | Term(x2, p, 2) | Term(x3, p, 3)
  }

  lemma Spread4Bits(x0: bv8, x1: bv8, x2: bv8, x3: bv8, p: bv8)
    requires p < 8
    ensures var r := Spread4(x0, x1, x2, x3, p);
      && (Bit(r, 0) <==> Bit(x0, p)) && (Bit(r, 1) <==> Bit(x1, p))
      && (Bit(r, 2) <==> Bit(x2, p)) && (Bit(r, 3) <==> Bit(x3, p))
      && r < 16
  {}

  /** Source byte that feeds bit 0 of encoded byte `k` (channel 1 or 2). */
  function EncodeBase(k: int): int
    requires 0 <= k < EncodedFrameBytes
  {
    if k < 24 then 2 - k / 8 else 5 - (k - 24) / 8
  }

  /** Bit position of the source bytes that encoded byte `k` carries. */
  function EncodeBitPos(k: int): bv8
    requires 0 <= k < EncodedFrameBytes
  {
    BitPos(7 - k % 8)
  }

  /**
   * Encoded byte `k` gathers bit 7 - k mod 8 of the same sample byte of
   * channels 1, 3, 5, 7 (k < 24) or 2, 4, 6, 8 (k >= 24).
   */
  function EncodeByte(src: seq<bv8>, k: int): bv8
    requires |src| == FrameBytes && 0 <= k < EncodedFrameBytes
  {
    var base := EncodeBase(k);
    Spread4(src[base], src[base + 6], src[base + 12], src[base + 18], EncodeBitPos(k))
  }

  /**
   * Bit `b` (0..3) of encoded byte `k` is bit 7 - k mod 8 of source byte
   * EncodeBase(k) + 6b, and bits 4..7 are clear.
   */
  lemma EncodeByteBit(src: seq<bv8>, k: int, b: bv8)
    requires |src| == FrameBytes && 0 <= k < EncodedFrameBytes && b < 4
    ensures EncodeByte(src, k) < 16
    ensures Bit(EncodeByte(src, k), b) <==> Bit(src[EncodeBase(k) + 6 * PosIndex(b)], EncodeBitPos(k))
  {
    var base := EncodeBase(k);
    Spread4Bits(src[base], src[base + 6], src[base + 12], src[base + 18], EncodeBitPos(k));
  }

  /** ploytec_convert_from_s24_3le: 24 bytes in, 48 bytes out. */
  function Encode(src: seq<bv8>): (r: seq<bv8>)
    requires |src| == FrameBytes
    ensures |r| == EncodedFrameBytes
  {
    seq(EncodedFrameBytes, k requires 0 <= k < EncodedFrameBytes => EncodeByte(src, k))
  }

  /** Every encoded byte is below 16: only bits 0..3 of the 48 playback bytes carry data. */
  lemma EncodeNibbles(src: seq<bv8>)
    requires |src| == FrameBytes
    ensures forall k :: 0 <= k < EncodedFrameBytes ==> Encode(src)[k] < 16
  {
    forall k | 0 <= k < EncodedFrameBytes
      ensures Encode(src)[k] < 16
    {
      EncodeByteBit(src, k, 0);
    }
  }

  // ---------------------------------------------------------------- decoder

  /** One decoded byte: bit `b` of eight capture bytes, x0 landing on bit 7. */
  function Gather8(x0: bv8, x1: bv8, x2: bv8, x3: bv8, x4: bv8, x5: bv8, x6: bv8, x7: bv8, b: bv8): bv8
    requires b < 8
  {
    Term(x7, b, 0) | Term(x6, b, 1) | Term(x5, b, 2) | Term(x4, b, 3)
    | Term(x3, b, 4) | Term(x2, b, 5) | Term(x1, b, 6) | Term(x0, b, 7)
  }

  lemma Gather8Bits(x0: bv8, x1: bv8, x2: bv8, x3: bv8, x4: bv8, x5: bv8, x6: bv8, x7: bv8, b: bv8)
    requires b < 8
    ensures var r := Gather8(x0, x1, x2, x3, x4, x5, x6, x7, b);
      && (Bit(r, 0) <==> Bit(x7, b)) && (Bit(r, 1) <==> Bit(x6, b))
      && (Bit(r, 2) <==> Bit(x5, b)) && (Bit(r, 3) <==> Bit(x4, b))
      && (Bit(r, 4) <==> Bit(x3, b)) && (Bit(r, 5) <==> Bit(x2, b))
      && (Bit(r, 6) <==> Bit(x1, b)) && (Bit(r, 7) <==> Bit(x0, b))
  {}

  /** Index of the capture byte that carries bit 7 of output byte `j`. */
  function DecodeTop(j: int): int
    requires 0 <= j < FrameBytes
  {
    (if (j / 3) % 2 == 0 then 0 else CaptureEvenHalf) + 8 * (2 - j % 3)
  }

  /** Bit of the capture bytes that carries output byte `j` (channel j/3 + 1). */
  function DecodeBitPos(j: int): bv8
    requires 0 <= j < FrameBytes
  {
    BitPos(j / 6)
  }

  /** Output byte `j` gathers bit DecodeBitPos(j) of capture bytes DecodeTop(j)..+7. */
  function DecodeByte(src: seq<bv8>, j: int): bv8
    requires |src| == CaptureFrameBytes && 0 <= j < FrameBytes
  {
    var t := DecodeTop(j);
    Gather8(src[t], src[t + 1], src[t + 2], src[t + 3], src[t + 4], src[t + 5], src[t + 6], src[t + 7],
            DecodeBitPos(j))
  }

  /** Bit `q` of output byte `j` is bit DecodeBitPos(j) of capture byte DecodeTop(j) + 7 - q. */
  lemma DecodeByteBit(src: seq<bv8>, j: int, q: bv8)
    requires |src| == CaptureFrameBytes && 0 <= j < FrameBytes && q < 8
    ensures Bit(DecodeByte(src, j), q) <==> Bit(src[DecodeTop(j) + 7 - PosIndex(q)], DecodeBitPos(j))
  {
    var t := DecodeTop(j);
    Gather8Bits(src[t], src[t + 1], src[t + 2], src[t + 3], src[t + 4], src[t + 5], src[t + 6], src[t + 7],
                DecodeBitPos(j));
  }

  /** ploytec_convert_to_s24_3le: 64 bytes in, 24 bytes out. */
  function Decode(src: seq<bv8>): (r: seq<bv8>)
    requires |src| == CaptureFrameBytes
    ensures |r| == FrameBytes
  {
    seq(FrameBytes, j requires 0 <= j < FrameBytes => DecodeByte(src, j))
  }

  /** The capture bytes the decoder reads. */
  predicate DecoderReads(i: int)
  {
    0 <= i < 0x18 || CaptureEvenHalf <= i < CaptureEvenHalf + 0x18
  }

  /**
   * The decoder depends only on the low 4 bits of bytes 0x00..0x17 and
   * 0x20..0x37: two capture frames that agree there decode alike.
   */
  lemma {:induction false} DecodeReadsLowNibbles(f: seq<bv8>, g: seq<bv8>)
    requires |f| == CaptureFrameBytes && |g| == CaptureFrameBytes
    requires forall i :: 0 <= i < CaptureFrameBytes && DecoderReads(i) ==> f[i] & 15 == g[i] & 15
    ensures Decode(f) == Decode(g)
  {
    forall j | 0 <= j < FrameBytes
      ensures DecodeByte(f, j) == DecodeByte(g, j)
    {
      DecodeByteLowNibbles(f, g, j);
    }
  }

  /** One output byte of the previous lemma. */
  lemma DecodeByteLowNibbles(f: seq<bv8>, g: seq<bv8>, j: int)
    requires |f| == CaptureFrameBytes && |g| == CaptureFrameBytes
    requires forall i :: 0 <= i < CaptureFrameBytes && DecoderReads(i) ==> f[i] & 15 == g[i] & 15
    requires 0 <= j < FrameBytes
    ensures DecodeByte(f, j) == DecodeByte(g, j)
  {
    forall q: bv8 | q < 8
      ensures Bit(DecodeByte(f, j), q) == Bit(DecodeByte(g, j), q)
    {
      DecodeBitLowNibble(f, g, j, q);
    }
    BitsDetermineByte(DecodeByte(f, j), DecodeByte(g, j));
  }

  /** One bit of the lemma above: it is read from a low nibble both frames share. */
  lemma DecodeBitLowNibble(f: seq<bv8>, g: seq<bv8>, j: int, q: bv8)
    requires |f| == CaptureFrameBytes && |g| == CaptureFrameBytes
    requires forall i :: 0 <= i < CaptureFrameBytes && DecoderReads(i) ==> f[i] & 15 == g[i] & 15
    requires 0 <= j < FrameBytes && q < 8
    ensures Bit(DecodeByte(f, j), q) == Bit(DecodeByte(g, j), q)
  {
    var i, b := DecodeTop(j) + 7 - PosIndex(q), DecodeBitPos(j);
    DecodeTopReads(j, PosIndex(q));
    DecodeByteBit(f, j, q);
    DecodeByteBit(g, j, q);
    assert f[i] & 15 == g[i] & 15;
    LowNibbleBit(f[i], g[i], b);
  }

  /** Bits 0..3 of a byte are bits of its low nibble. */
  lemma LowNibbleBit(x: bv8, y: bv8, b: bv8)
    requires b < 4 && x & 15 == y & 15
    ensures Bit(x, b) == Bit(y, b)
  {
    assert Bit(x, b) == Bit(x & 15, b);
    assert Bit(y, b) == Bit(y & 15, b);
  }

  /**
   * A 64-byte capture frame holding encoded bytes 0..23 at 0x00..0x17 and
   * 24..47 at 0x20..0x37; the other bytes of `frame` are kept.
   */
  function Placed(encoded: seq<bv8>, frame: seq<bv8>): (r: seq<bv8>)
    requires |encoded| == EncodedFrameBytes && |frame| == CaptureFrameBytes
    ensures |r| == CaptureFrameBytes
    ensures forall i :: 0 <= i < 24 ==> r[i] == encoded[i]
    ensures forall i :: CaptureEvenHalf <= i < CaptureEvenHalf + 24 ==> r[i] == encoded[i - 8]
  {
    encoded[..24] + frame[24..CaptureEvenHalf] + encoded[24..] + frame[CaptureEvenHalf + 24..]
  }

  /** Index arithmetic of the round trip: where bit q of output byte j travels. */
  lemma RoundTripIndex(j: int, qi: int)
    requires 0 <= j < FrameBytes && 0 <= qi < 8
    ensures var k := 8 * (2 - j % 3) + 7 - qi;
      && 0 <= k < 24 && 7 - k % 8 == qi && 7 - (24 + k) % 8 == qi
      && ((j / 3) % 2 == 0 ==> DecodeTop(j) + 7 - qi == k && EncodeBase(k) + 6 * (j / 6) == j)
      && ((j / 3) % 2 == 1 ==> DecodeTop(j) + 7 - qi == CaptureEvenHalf + k
                               && EncodeBase(24 + k) + 6 * (j / 6) == j)
  {}

  /** The capture bytes one output byte reads lie in the decoder's two halves. */
  lemma DecodeTopReads(j: int, qi: int)
    requires 0 <= j < FrameBytes && 0 <= qi < 8
    ensures DecoderReads(DecodeTop(j) + 7 - qi)
  {}

  /** Encoded byte that the decoder reads for bit `qi` of output byte `j`. */
  function RoundTripSource(j: int, qi: int): int
    requires 0 <= j < FrameBytes && 0 <= qi < 8
  {
    (if (j / 3) % 2 == 0 then 0 else 24) + 8 * (2 - j % 3) + 7 - qi
  }

  /** The capture byte read for bit `qi` of output byte `j` holds that encoded byte. */
  lemma RoundTripPlacement(src: seq<bv8>, frame: seq<bv8>, j: int, qi: int)
    requires |src| == FrameBytes && |frame| == CaptureFrameBytes
    requires 0 <= j < FrameBytes && 0 <= qi < 8
    ensures var ek := RoundTripSource(j, qi);
      && 0 <= ek < EncodedFrameBytes
      && Placed(Encode(src), frame)[DecodeTop(j) + 7 - qi] == EncodeByte(src, ek)
      && EncodeBase(ek) + 6 * (j / 6) == j
      && EncodeBitPos(ek) == BitPos(qi)
  {
    RoundTripIndex(j, qi);
  }

  /** The encoded byte the round trip reads carries bit q of source byte j on bit DecodeBitPos(j). */
  lemma EncodedBitIsSource(src: seq<bv8>, ek: int, j: int, q: bv8)
    requires |src| == FrameBytes && 0 <= ek < EncodedFrameBytes && 0 <= j < FrameBytes && q < 8
    requires EncodeBase(ek) + 6 * (j / 6) == j && EncodeBitPos(ek) == q
    ensures Bit(EncodeByte(src, ek), DecodeBitPos(j)) == Bit(src[j], q)
  {
    PosIndexBitPos(j / 6);
    EncodeByteBit(src, ek, DecodeBitPos(j));
  }

  /** A capture frame holding the right encoded byte where output byte j reads bit q decodes that bit. */
  lemma DecodedBitFromEncoded(src: seq<bv8>, f: seq<bv8>, j: int, q: bv8)
    requires |src| == FrameBytes && |f| == CaptureFrameBytes
    requires 0 <= j < FrameBytes && q < 8
    requires 0 <= RoundTripSource(j, PosIndex(q)) < EncodedFrameBytes
    requires EncodeBase(RoundTripSource(j, PosIndex(q))) + 6 * (j / 6) == j
    requires EncodeBitPos(RoundTripSource(j, PosIndex(q))) == q
    requires f[DecodeTop(j) + 7 - PosIndex(q)] == EncodeByte(src, RoundTripSource(j, PosIndex(q)))
    ensures Bit(DecodeByte(f, j), q) == Bit(src[j], q)
  {
    DecodeByteBit(f, j, q);
    EncodedBitIsSource(src, RoundTripSource(j, PosIndex(q)), j, q);
  }

  /** Bit q of output byte j comes from the same bit of source byte j. */
  lemma RoundTripBit(src: seq<bv8>, frame: seq<bv8>, j: int, q: bv8)
    requires |src| == FrameBytes && |frame| == CaptureFrameBytes
    requires 0 <= j < FrameBytes && q < 8
    ensures Bit(DecodeByte(Placed(Encode(src), frame), j), q) == Bit(src[j], q)
  {
    RoundTripPlacement(src, frame, j, PosIndex(q));
    DecodedBitFromEncoded(src, Placed(Encode(src), frame), j, q);
  }

  /** Output byte j of the round trip is source byte j. */
  lemma RoundTripByte(src: seq<bv8>, frame: seq<bv8>, j: int)
    requires |src| == FrameBytes && |frame| == CaptureFrameBytes && 0 <= j < FrameBytes
    ensures DecodeByte(Placed(Encode(src), frame), j) == src[j]
  {
    forall q: bv8 | q < 8
      ensures Bit(DecodeByte(Placed(Encode(src), frame), j), q) == Bit(src[j], q)
    {
      RoundTripBit(src, frame, j, q);
    }
    BitsDetermineByte(DecodeByte(Placed(Encode(src), frame), j), src[j]);
  }

  /**
   * Round trip: decoding a capture frame that carries an encoded frame in
   * its two 24-byte halves gives back the original 24 bytes.
   */
  lemma {:induction false} RoundTrip(src: seq<bv8>, frame: seq<bv8>)
    requires |src| == FrameBytes && |frame| == CaptureFrameBytes
    ensures Decode(Placed(Encode(src), frame)) == src
  {
    forall j | 0 <= j < FrameBytes
      ensures Decode(Placed(Encode(src), frame))[j] == src[j]
    {
      RoundTripByte(src, frame, j);
    }
  }

  // ------------------------------------------------------ in-place writers

  /** The source converters write through a caller's pointer: 48 bytes at `off`. */
  method EncodeInto(dest: array<bv8>, off: int, src: seq<bv8>)
    requires |src| == FrameBytes && 0 <= off && off + EncodedFrameBytes <= dest.Length
    modifies dest
    ensures dest[..] == old(dest[..off]) + Encode(src) + old(dest[off + EncodedFrameBytes..])
  {
    var e := Encode(src);
    forall i | off <= i < off + EncodedFrameBytes {
      dest[i] := e[i - off];
    }
    assert dest[..] == old(dest[..off]) + e + old(dest[off + EncodedFrameBytes..]);
  }

  /** 24 decoded bytes written at `off`. */
  method DecodeInto(dest: array<bv8>, off: int, src: seq<bv8>)
    requires |src| == CaptureFrameBytes && 0 <= off && off + FrameBytes <= dest.Length
    modifies dest
    ensures dest[..] == old(dest[..off]) + Decode(src) + old(dest[off + FrameBytes..])
  {
    var d := Decode(src);
    forall i | off <= i < off + FrameBytes {
      dest[i] := d[i - off];
    }
    assert dest[..] == old(dest[..off]) + d + old(dest[off + FrameBytes..]);
  }
}
