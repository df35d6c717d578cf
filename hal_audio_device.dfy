// PloytecAudioDevice of the user-space HAL plug-in: the ring capacities it
// derives from the USB buffers, the two I/O-cycle handlers that encode
// CoreAudio frames into the USB output ring and decode the USB input ring,
// the integer sign extension of its decoder, and the counters and
// zero timestamp that Playback and Capture keep.
module HalAudioDevice {
  import opened Wrap
  import opened FrameLayout
  import IoRing
  import PloytecCodec
  import UsbBuffer

  /** Bytes of one 80-frame input packet: 80 * 64. */
  const InputPacketBytes: nat := 5120
  const FramesPerPacket: nat := 80
  /** Channels of a frame, on both sides. */
  const Channels: nat := 8
  /** The buffer frame size init sets and the range it reports. */
  const BufferFrameSize: nat := 2560
  /** The 24-bit sample range. */
  const Min24: int := -0x80_0000
  const Max24: int := 0x7F_FFFF

  // ------------------------------------------------------------ capacities

  /** mInputBufferFrameCapacity: whole 5120-byte packets of the input buffer, 80 frames each. */
  function InputCapacity(rxSize: nat): (r: nat)
    ensures r % 80 == 0 && 64 * r <= rxSize < 64 * r + 5120
  {
    (rxSize / 5120) * 80
  }

  /** mOutputBufferFrameCapacity: whole packets of eight blocks, 80 frames each. */
  function OutputCapacity(layout: IoRing.Layout, txSize: nat): (r: nat)
    ensures var packet := if layout == IoRing.Bulk then 4096 else 3856;
      r % 80 == 0 && (r / 80) * packet <= txSize < (r / 80) * packet + packet
  {
    if layout == IoRing.Bulk then (txSize / 4096) * 80 else (txSize / 3856) * 80
  }

  /** Every input ring frame below the capacity lies inside the input buffer. */
  lemma InputCapacityFits(rxSize: nat, s: nat)
    requires s < InputCapacity(rxSize)
    ensures IoRing.FrameSizeIn * s + IoRing.FrameSizeIn <= rxSize
  {
    var p := rxSize / InputPacketBytes;
    assert s + 1 <= p * FramesPerPacket;
    assert IoRing.FrameSizeIn * (s + 1) <= IoRing.FrameSizeIn * (p * FramesPerPacket);
    assert p * InputPacketBytes <= rxSize;
  }

  /** Every output ring frame below the capacity lies inside the output buffer, gaps included. */
  lemma OutputCapacityFits(layout: IoRing.Layout, txSize: nat, s: nat)
    requires s < OutputCapacity(layout, txSize)
    ensures IoRing.FrameOffset(layout, s) + IoRing.FrameSizeOut <= txSize
  {
    var k := IoRing.BlockBytes(layout);
    var p := txSize / (8 * k);
    IoRing.FrameOffsetBlocks(layout, s);
    assert s / 10 < 8 * p;
    assert s / 10 + 1 <= 8 * p;
    assert k * (s / 10) + k <= k * (8 * p);
    assert (8 * k) * p <= txSize;
  }

  // ------------------------------------------------------------- samples

  /**
   * A sample as the codec handles it: the bits of an int32_t. A sample
   * fits 24 bits when bits 23..31 are equal. The encoder's clamp yields
   * -0x800000..0x800000: every value fits except 0x800000, the sample of a
   * float of exactly 1.0 (see ClampAsWritten).
   */
  predicate Fits24(s: bv32)
  {
    s >> 23 == 0 || s >> 23 == 0x1FF
  }

  /** The int32_t value of a sample, two's complement. */
  function Int32(s: bv32): int
  {
    if s < 0x8000_0000 then s as int else s as int - 0x1_0000_0000
  }

  /** The samples that fit 24 bits are exactly those whose int32_t value lies in -0x800000..0x7FFFFF. */
  lemma Fits24Range(s: bv32)
    ensures Fits24(s) <==> Min24 <= Int32(s) <= Max24
  {
    assert Fits24(s) <==> s <= 0x7F_FFFF || 0xFF80_0000 <= s;
    if s < 0x8000_0000 {
      assert s <= 0x7F_FFFF <==> s as int <= 0x7F_FFFF;
    } else {
      assert 0xFF80_0000 <= s <==> s as int >= 0xFF80_0000;
    }
  }

  /** c[i][k] of the encoder: `(s >> 8k) & 0xFF`, byte k of the sample, low byte first. */
  function SampleByte(s: bv32, k: nat): bv8
    requires k < 3
  {
    if k == 0 then (s & 0xFF) as bv8
    else if k == 1 then ((s >> 8) & 0xFF) as bv8
    else ((s >> 16) & 0xFF) as bv8
  }

  /** The S24 bytes the encoder works on: channel j / 3, byte j mod 3, low byte first. */
  function SampleBytes(x: seq<bv32>): (r: seq<bv8>)
    requires |x| == Channels
    ensures |r| == PloytecCodec.FrameBytes
  {
    seq(PloytecCodec.FrameBytes, j requires 0 <= j < PloytecCodec.FrameBytes => SampleByte(x[j / 3], j % 3))
  }

  /** EncodePloytecPCM on the int32_t samples: the Ploytec bit layout of their S24 bytes. */
  function EncodeFrame(x: seq<bv32>): (r: seq<bv8>)
    requires |x| == Channels
    ensures |r| == IoRing.FrameSizeOut
  {
    PloytecCodec.Encode(SampleBytes(x))
  }

  /** The three bytes joined: `c0 | c1 << 8 | c2 << 16`. */
  function Join24(c0: bv8, c1: bv8, c2: bv8): bv32
  {
    (c0 as bv32) | ((c1 as bv32) << 8) | ((c2 as bv32) << 16)
  }

  /** The int32_t sample of DecodePloytecPCM: the bytes joined, and `s |= 0xFF000000` when bit 23 is set. */
  function SignExtend24(c0: bv8, c1: bv8, c2: bv8): (r: bv32)
    ensures Fits24(r)
  {
    var v := Join24(c0, c1, c2);
    if v & 0x80_0000 != 0 then v | 0xFF00_0000 else v
  }

  /** A sample is negative exactly when its bit 31 is set. */
  lemma Int32Sign(s: bv32)
    ensures Int32(s) < 0 <==> s >> 31 == 1
  {
    assert s < 0x8000_0000 <==> s >> 31 == 0;
  }

  /**
   * The sign-extended sample fits 24 bits, keeps the three bytes as its
   * low 24 bits and is negative exactly when bit 7 of the high byte is set.
   */
  lemma SignExtend24Meaning(c0: bv8, c1: bv8, c2: bv8)
    ensures Fits24(SignExtend24(c0, c1, c2))
    ensures SignExtend24(c0, c1, c2) & 0xFF_FFFF == Join24(c0, c1, c2)
    ensures Int32(SignExtend24(c0, c1, c2)) < 0 <==> c2 & 0x80 != 0
  {
    SignExtendBits(c0, c1, c2);
    Int32Sign(SignExtend24(c0, c1, c2));
  }

  lemma SignExtendBits(c0: bv8, c1: bv8, c2: bv8)
    ensures Fits24(SignExtend24(c0, c1, c2))
    ensures SignExtend24(c0, c1, c2) & 0xFF_FFFF == Join24(c0, c1, c2)
    ensures SignExtend24(c0, c1, c2) >> 31 == 1 <==> c2 & 0x80 != 0
  {
  }

  lemma SampleByteWidened(s: bv32)
    ensures SampleByte(s, 0) as bv32 == s & 0xFF
    ensures SampleByte(s, 1) as bv32 == (s >> 8) & 0xFF
    ensures SampleByte(s, 2) as bv32 == (s >> 16) & 0xFF
  {
  }

  lemma JoinLowBytes(s: bv32)
    ensures (s & 0xFF) | (((s >> 8) & 0xFF) << 8) | (((s >> 16) & 0xFF) << 16) == s & 0xFF_FFFF
  {
  }

  lemma SignExtendLow24(s: bv32)
    requires Fits24(s)
    ensures (if (s & 0xFF_FFFF) & 0x80_0000 != 0 then (s & 0xFF_FFFF) | 0xFF00_0000 else s & 0xFF_FFFF) == s
  {
  }

  /** Sign extension gives back every sample that fits 24 bits from its three low bytes. */
  lemma SampleRoundTrip(s: bv32)
    requires Fits24(s)
    ensures SignExtend24(SampleByte(s, 0), SampleByte(s, 1), SampleByte(s, 2)) == s
  {
    SampleByteWidened(s);
    JoinLowBytes(s);
    SignExtendLow24(s);
  }

  /** Taking a sign-extended sample apart again gives back its three bytes. */
  lemma BytesRoundTrip(c0: bv8, c1: bv8, c2: bv8)
    ensures var s := SignExtend24(c0, c1, c2);
      SampleByte(s, 0) == c0 && SampleByte(s, 1) == c1 && SampleByte(s, 2) == c2
  {
  }

  /** DecodePloytecPCM on the int32_t samples: the Ploytec bit layout gathered back, each channel sign-extended. */
  function DecodeFrame(f: seq<bv8>): (r: seq<bv32>)
    requires |f| == PloytecCodec.CaptureFrameBytes
    ensures |r| == Channels
  {
    Samples24(PloytecCodec.Decode(f))
  }

  /** The eight channels of 24 S24 bytes, each sign-extended. */
  function Samples24(c: seq<bv8>): (r: seq<bv32>)
    requires |c| == PloytecCodec.FrameBytes
    ensures |r| == Channels
  {
    seq(Channels, i requires 0 <= i < Channels => SignExtend24(c[3 * i], c[3 * i + 1], c[3 * i + 2]))
  }

  /**
   * Round trip of the HAL codec: a capture frame carrying the encoding of
   * eight samples that fit 24 bits decodes to those samples.
   */
  lemma FrameRoundTrip(x: seq<bv32>, frame: seq<bv8>)
    requires |x| == Channels && |frame| == PloytecCodec.CaptureFrameBytes
    requires forall i :: 0 <= i < Channels ==> Fits24(x[i])
    ensures DecodeFrame(PloytecCodec.Placed(EncodeFrame(x), frame)) == x
  {
    PloytecCodec.RoundTrip(SampleBytes(x), frame);
    SamplesRoundTrip(x);
  }

  /** The S24 bytes of eight samples that fit 24 bits sign-extend back to those samples. */
  lemma SamplesRoundTrip(x: seq<bv32>)
    requires |x| == Channels
    requires forall i :: 0 <= i < Channels ==> Fits24(x[i])
    ensures Samples24(SampleBytes(x)) == x
  {
    var b := SampleBytes(x);
    var d := Samples24(b);
    forall i | 0 <= i < Channels
      ensures d[i] == x[i]
    {
      ChannelRoundTrip(x, b, i);
    }
  }

  // ------------------------------------------------------- the float clamp

  /** `(int32_t)x` for a value in int32_t range: truncation toward zero. */
  function TruncToward0(x: real): int
  {
    if x >= 0.0 then x.Floor else -((-x).Floor)
  }

  /**
   * The first loop of EncodePloytecPCM as written, on a float taken as a
   * real (the product with 2^23 is exact): the scaled value truncated, then
   * 0x7FFFFF above 1.0 and -0x800000 below -1.0. Full scale, 1.0 itself,
   * passes the test and gives 0x800000, one past the 24-bit range.
   */
  function ClampAsWritten(src: real): (s: int)
    ensures Min24 <= s <= Max24 + 1
    ensures s == Max24 + 1 <==> src == 1.0
  {
    if src > 1.0 then Max24
    else if src < -1.0 then Min24
    else TruncToward0(src * 8388608.0)
  }

  /** The clamp as evidently intended: 1.0 saturates at 0x7FFFFF like everything above it. */
  function Clamp(src: real): (s: int)
    ensures Min24 <= s <= Max24
    ensures src != 1.0 ==> s == ClampAsWritten(src)
  {
    if src >= 1.0 then Max24
    else if src < -1.0 then Min24
    else TruncToward0(src * 8388608.0)
  }

  /**
   * Full scale positive goes out as full scale negative: the sample of 1.0
   * is 0x800000, which does not fit 24 bits, and a capture frame carrying
   * its encoding decodes to -0x800000.
   */
  lemma FullScaleWraps(x: seq<bv32>, frame: seq<bv8>)
    requires |x| == Channels && |frame| == PloytecCodec.CaptureFrameBytes
    requires Int32(x[0]) == ClampAsWritten(1.0)
    ensures !Fits24(x[0]) && Int32(DecodeFrame(PloytecCodec.Placed(EncodeFrame(x), frame))[0]) == Min24
  {
    assert ClampAsWritten(1.0) == Max24 + 1;
    FullScaleSample(x[0]);
    var b := SampleBytes(x);
    PloytecCodec.RoundTrip(b, frame);
    var d := PloytecCodec.Decode(PloytecCodec.Placed(EncodeFrame(x), frame));
    assert d == b;
    assert DecodeFrame(PloytecCodec.Placed(EncodeFrame(x), frame))[0] == SignExtend24(b[0], b[1], b[2]);
    SampleBytesAt(x, 0, 0);
    SampleBytesAt(x, 0, 1);
    SampleBytesAt(x, 0, 2);
    FullScaleBytes(b[0], b[1], b[2]);
  }

  /** The only sample whose int32_t value is 0x800000. */
  lemma FullScaleSample(s: bv32)
    ensures Int32(s) == Max24 + 1 ==> s == 0x80_0000 && !Fits24(s)
  {
  }

  /** The S24 bytes of 0x800000 sign-extend to -0x800000. */
  lemma FullScaleBytes(c0: bv8, c1: bv8, c2: bv8)
    ensures c0 == SampleByte(0x80_0000, 0) && c1 == SampleByte(0x80_0000, 1) && c2 == SampleByte(0x80_0000, 2)
      ==> Int32(SignExtend24(c0, c1, c2)) == Min24
  {
  }

  /**
   * With the intended clamp every float gives a sample that fits 24 bits,
   * so eight clamped floats come back from the codec unchanged.
   */
  lemma ClampedFrameRoundTrip(src: seq<real>, x: seq<bv32>, frame: seq<bv8>)
    requires |src| == Channels && |x| == Channels && |frame| == PloytecCodec.CaptureFrameBytes
    requires forall i :: 0 <= i < Channels ==> Int32(x[i]) == Clamp(src[i])
    ensures DecodeFrame(PloytecCodec.Placed(EncodeFrame(x), frame)) == x
  {
    forall i | 0 <= i < Channels
      ensures Fits24(x[i])
    {
      Fits24Range(x[i]);
    }
    FrameRoundTrip(x, frame);
  }

  /**
   * The float DecodePloytecPCM stores for a decoded sample, `(float)s /
   * 8388608.0f`, taken as a real: a 24-bit sample is a float exactly and
   * the division by 2^23 is exact, so this is the stored value.
   */
  function StoredFloat(s: bv32): (r: real)
    ensures Fits24(s) ==> -1.0 <= r < 1.0
  {
    Fits24Range(s);
    Int32(s) as real / 8388608.0
  }

  /**
   * Capture and playback use one scale: the float stored for a 24-bit
   * sample, passed back through either clamp, gives the sample again, so
   * distinct samples store distinct floats.
   */
  lemma StoredFloatClampsBack(s: bv32)
    requires Fits24(s)
    ensures Clamp(StoredFloat(s)) == Int32(s)
    ensures ClampAsWritten(StoredFloat(s)) == Int32(s)
  {
    Fits24Range(s);
    var v := Int32(s);
    assert StoredFloat(s) * 8388608.0 == v as real;
    if v >= 0 {
      assert (v as real).Floor == v;
    } else {
      assert (-(v as real)).Floor == -v;
    }
  }

  /** One channel of the round trip: its three S24 bytes sign-extend back to the sample. */
  lemma ChannelRoundTrip(x: seq<bv32>, c: seq<bv8>, i: nat)
    requires |x| == Channels && i < Channels && Fits24(x[i])
    requires c == SampleBytes(x)
    ensures SignExtend24(c[3 * i], c[3 * i + 1], c[3 * i + 2]) == x[i]
  {
    SampleBytesAt(x, i, 0);
    SampleBytesAt(x, i, 1);
    SampleBytesAt(x, i, 2);
    SampleRoundTrip(x[i]);
  }

  /** Byte 3i + k of the S24 bytes is byte k of sample i. */
  lemma SampleBytesAt(x: seq<bv32>, i: nat, k: nat)
    requires |x| == Channels && i < Channels && k < 3
    ensures SampleBytes(x)[3 * i + k] == SampleByte(x[i], k)
  {
    ModUnique(3 * i + k, i, k, 3);
  }

  // ------------------------------------------------------------ ring slots

  /** Ring index of the i-th frame of a cycle: `sampleTime % size`, then one up per frame, back to 0 at `size`. */
  function Slot(t: nat, i: nat, size: nat): (r: nat)
    requires size > 0
    ensures r < size
  {
    (t % size + i) % size
  }

  /** Moving m frames on from a slot, without passing the end of the ring, moves the slot by m. */
  lemma SlotAdvance(t: nat, d: nat, m: nat, size: nat)
    requires size > 0 && Slot(t, d, size) + m <= size
    ensures Slot(t, d, size) + m < size ==> Slot(t, d + m, size) == Slot(t, d, size) + m
    ensures Slot(t, d, size) + m == size ==> Slot(t, d + m, size) == 0
  {
    var a := t % size + d;
    var x := Slot(t, d, size);
    assert a == (a / size) * size + x;
    ModShift(a / size, x + m, size);
    if x + m == size {
      ModUnique(x + m, 1, 0, size);
    } else {
      ModUnique(x + m, 0, x + m, size);
    }
  }

  lemma ModShift(q: nat, y: nat, size: nat)
    requires size > 0
    ensures (q * size + y) % size == y % size
  {
    var yq, yr := y / size, y % size;
    assert y == yq * size + yr;
    assert q * size + y == (q + yq) * size + yr;
    ModUnique(q * size + y, q + yq, yr, size);
  }

  /** The frames of one cycle of at most `size` frames use distinct ring slots. */
  lemma SlotsDistinct(t: nat, k: nat, i: nat, size: nat)
    requires k < i < size
    ensures Slot(t, k, size) != Slot(t, i, size)
  {
    var a := t % size + k;
    var q, x := a / size, a % size;
    assert a == q * size + x;
    var e := i - k;
    if x + e < size {
      ModUnique(a + e, q, x + e, size);
    } else {
      assert a + e == (q + 1) * size + (x + e - size);
      ModUnique(a + e, q + 1, x + e - size, size);
    }
  }

  // ----------------------------------------------------------- write cycle

  /** Output ring offsets of a write cycle, frame i at its slot. */
  function CycleOffsets(layout: IoRing.Layout, t: nat, n: nat, size: nat): (r: seq<int>)
    requires size > 0
    ensures |r| == n
  {
    if n == 0 then [] else CycleOffsets(layout, t, n - 1, size) + [IoRing.FrameOffset(layout, Slot(t, n - 1, size))]
  }

  /** Encoded frames of a write cycle: frame i from samples 8i..8i+7 of CoreAudio's buffer. */
  function CycleFrames(n: nat, src: seq<bv32>): (r: seq<seq<bv8>>)
    requires 8 * n <= |src|
    ensures |r| == n
  {
    if n == 0 then [] else CycleFrames(n - 1, src) + [EncodeFrame(src[8 * (n - 1)..8 * n])]
  }

  lemma {:induction false} CycleOffsetsAt(layout: IoRing.Layout, t: nat, n: nat, size: nat, k: nat)
    requires size > 0 && k < n
    ensures CycleOffsets(layout, t, n, size)[k] == IoRing.FrameOffset(layout, Slot(t, k, size))
  {
    if k < n - 1 {
      CycleOffsetsAt(layout, t, n - 1, size, k);
    }
  }

  lemma {:induction false} CycleFramesAt(n: nat, src: seq<bv32>, k: nat)
    requires 8 * n <= |src| && k < n
    ensures CycleFrames(n, src)[k] == EncodeFrame(src[8 * k..8 * k + 8])
  {
    if k < n - 1 {
      CycleFramesAt(n - 1, src, k);
    }
  }

  /** One more frame, written at the slot of frame i, extends the cycle's layout. */
  lemma CycleStep(layout: IoRing.Layout, a: seq<bv8>, before: seq<bv8>, t: nat, i: nat, size: nat,
                  frames: seq<seq<bv8>>, f: seq<bv8>, a2: seq<bv8>)
    requires i < size && |f| == IoRing.FrameSizeOut
    requires Laid(a, before, CycleOffsets(layout, t, i, size), frames, IoRing.FrameSizeOut)
    requires var o := IoRing.FrameOffset(layout, Slot(t, i, size));
      o + IoRing.FrameSizeOut <= |a| && a2 == a[..o] + f + a[o + IoRing.FrameSizeOut..]
    ensures Laid(a2, before, CycleOffsets(layout, t, i + 1, size), frames + [f], IoRing.FrameSizeOut)
  {
    CycleDisjoint(layout, t, i, size);
    LaidStep(a, before, CycleOffsets(layout, t, i, size), frames, IoRing.FrameSizeOut,
             IoRing.FrameOffset(layout, Slot(t, i, size)), f, a2);
  }

  /** Frame i of a cycle overlaps none of the frames before it. */
  lemma CycleDisjoint(layout: IoRing.Layout, t: nat, i: nat, size: nat)
    requires i < size
    ensures forall k :: 0 <= k < i ==>
      CycleOffsets(layout, t, i, size)[k] + IoRing.FrameSizeOut <= IoRing.FrameOffset(layout, Slot(t, i, size))
      || IoRing.FrameOffset(layout, Slot(t, i, size)) + IoRing.FrameSizeOut <= CycleOffsets(layout, t, i, size)[k]
  {
    var o := IoRing.FrameOffset(layout, Slot(t, i, size));
    var offs := CycleOffsets(layout, t, i, size);
    forall k | 0 <= k < i
      ensures offs[k] + IoRing.FrameSizeOut <= o || o + IoRing.FrameSizeOut <= offs[k]
    {
      CycleOffsetsAt(layout, t, i, size, k);
      SlotsDistinct(t, k, i, size);
      if Slot(t, k, size) < Slot(t, i, size) {
        IoRing.FramesDisjoint(layout, Slot(t, k, size), Slot(t, i, size));
      } else {
        IoRing.FramesDisjoint(layout, Slot(t, i, size), Slot(t, k, size));
      }
    }
  }

  /** A completed write cycle leaves every gap byte of the output ring as it was. */
  lemma CycleGapBytesKept(layout: IoRing.Layout, a: seq<bv8>, before: seq<bv8>, t: nat, n: nat, size: nat, src: seq<bv32>)
    requires size > 0 && 8 * n <= |src|
    requires Laid(a, before, CycleOffsets(layout, t, n, size), CycleFrames(n, src), IoRing.FrameSizeOut)
    ensures IoRing.GapsKept(layout, a, before)
  {
    var offs := CycleOffsets(layout, t, n, size);
    forall b: nat, d: nat | d < IoRing.GapWidth(layout) && IoRing.GapByte(layout, b, d) < |a|
      ensures a[IoRing.GapByte(layout, b, d)] == before[IoRing.GapByte(layout, b, d)]
    {
      forall k | 0 <= k < n
        ensures IoRing.GapByte(layout, b, d) < offs[k] || offs[k] + IoRing.FrameSizeOut <= IoRing.GapByte(layout, b, d)
      {
        CycleOffsetsAt(layout, t, n, size, k);
        IoRing.GapBytesOutsideFrames(layout, Slot(t, k, size), b, d);
      }
      assert Outside(offs, IoRing.FrameSizeOut, IoRing.GapByte(layout, b, d));
    }
  }

  /** One EncodePloytecPCM call of a write cycle: frame i at byte `off` of the output ring. */
  method WriteFrame(layout: IoRing.Layout, dest: array<bv8>, src: seq<bv32>, ghost before: seq<bv8>,
                    t: nat, i: nat, n: nat, size: nat, off: nat)
    requires i < n <= size && 8 * n <= |src|
    requires off == IoRing.FrameOffset(layout, Slot(t, i, size)) && off + IoRing.FrameSizeOut <= dest.Length
    requires Laid(dest[..], before, CycleOffsets(layout, t, i, size), CycleFrames(i, src), IoRing.FrameSizeOut)
    modifies dest
    ensures Laid(dest[..], before, CycleOffsets(layout, t, i + 1, size), CycleFrames(i + 1, src), IoRing.FrameSizeOut)
  {
    ghost var cur := dest[..];
    var x := src[8 * i..8 * i + 8];
    PloytecCodec.EncodeInto(dest, off, SampleBytes(x));
    ghost var f := EncodeFrame(x);
    assert dest[..] == cur[..off] + f + cur[off + IoRing.FrameSizeOut..];
    CycleFramesSnoc(i, src);
    CycleStep(layout, cur, before, t, i, size, CycleFrames(i, src), f, dest[..]);
  }

  lemma CycleFramesSnoc(n: nat, src: seq<bv32>)
    requires 8 * n + 8 <= |src|
    ensures CycleFrames(n + 1, src) == CycleFrames(n, src) + [EncodeFrame(src[8 * n..8 * n + 8])]
  {
  }

  /**
   * Frame k of a batch that starts at ring index r, inside one block of ten
   * frames: it is frame done + k of the cycle, at ring index r + k, and its
   * bytes start frame r mod 10 + k of block r div 10 (two bytes further on
   * for the last frame of an interrupt block).
   */
  lemma BatchFrame(layout: IoRing.Layout, t: nat, done: nat, k: nat, size: nat, r: nat)
    requires 0 < size && r == Slot(t, done, size) && r + k < size && r % 10 + k < 10
    ensures Slot(t, done + k, size) == r + k
    ensures IoRing.FrameOffset(layout, r + k) == IoRing.BlockBytes(layout) * (r / 10) + IoRing.FrameSizeOut * (r % 10 + k)
      + (if layout == IoRing.Interrupt && r % 10 + k == 9 then 2 else 0)
    ensures IoRing.FrameOffset(layout, r + k) + IoRing.FrameSizeOut <= IoRing.RingBytes(layout, size)
  {
    SlotAdvance(t, done, k, size);
    BlockFrameOffset(layout, r, r / 10, r % 10, k);
    IoRing.FrameFits(layout, r + k, size);
  }

  /** Frame m + k of block q, for ring index r = 10 q + m. */
  lemma BlockFrameOffset(layout: IoRing.Layout, r: nat, q: nat, m: nat, k: nat)
    requires r == 10 * q + m && m + k < 10
    ensures IoRing.FrameOffset(layout, r + k) == IoRing.BlockBytes(layout) * q + IoRing.FrameSizeOut * (m + k)
      + (if layout == IoRing.Interrupt && m + k == 9 then 2 else 0)
  {
    ModUnique(r + k, q, m + k, 10);
    IoRing.FrameOffsetBlocks(layout, r + k);
    if layout == IoRing.Bulk {
      assert IoRing.FrameOffset(layout, r + k) == 512 * q + 48 * (m + k);
    } else {
      assert IoRing.FrameOffset(layout, r + k) == 482 * q + 48 * (m + k) + (if m + k == 9 then 2 else 0);
    }
  }

  /**
   * The innermost loop of ioOperationBulk: `batch` frames from ring index r,
   * all in one 512-byte block, the destination stepping by 48 bytes.
   */
  method WriteBatchBulk(layout: IoRing.Layout, dest: array<bv8>, src: seq<bv32>, ghost before: seq<bv8>,
                        t: u64, done: nat, n: nat, size: nat, r: nat, batch: nat)
    requires layout == IoRing.Bulk && 0 < size && done + batch <= n <= size && 8 * n <= |src|
    requires IoRing.RingBytes(layout, size) <= dest.Length
    requires r == Slot(t, done, size) && r + batch <= size && r % 10 + batch <= 10
    requires Laid(dest[..], before, CycleOffsets(layout, t, done, size), CycleFrames(done, src), IoRing.FrameSizeOut)
    modifies dest
    ensures Laid(dest[..], before, CycleOffsets(layout, t, done + batch, size), CycleFrames(done + batch, src), IoRing.FrameSizeOut)
  {
    var blockIndex := r / 10;
    var frameInBlock := r % 10;
    var dst := blockIndex * 512 + frameInBlock * 48;
    for k := 0 to batch
      invariant dst == 512 * blockIndex + 48 * (frameInBlock + k)
      invariant Laid(dest[..], before, CycleOffsets(layout, t, done + k, size), CycleFrames(done + k, src), IoRing.FrameSizeOut)
    {
      BatchFrame(layout, t, done, k, size, r);
      WriteFrame(layout, dest, src, before, t, done + k, n, size, dst);
      dst := dst + 48;
    }
  }

  /** The destination ioOperationInterrupt computes for frame k of a batch is that frame's ring offset. */
  lemma InterruptFrameOffset(t: nat, done: nat, k: nat, size: nat, r: nat, off: nat)
    requires 0 < size && r == Slot(t, done, size) && r + k < size && r % 10 + k < 10
    requires off == 482 * (r / 10) + 48 * (r % 10 + k) + (if r % 10 + k >= 9 then 2 else 0)
    ensures off == IoRing.FrameOffset(IoRing.Interrupt, Slot(t, done + k, size))
    ensures off + IoRing.FrameSizeOut <= IoRing.RingBytes(IoRing.Interrupt, size)
  {
    BatchFrame(IoRing.Interrupt, t, done, k, size, r);
  }

  /**
   * The innermost loop of ioOperationInterrupt: `batch` frames from ring
   * index r, all in one 482-byte block, each destination recomputed from the
   * frame's place in the block, 2 bytes further on for the tenth frame.
   */
  method WriteBatchInterrupt(layout: IoRing.Layout, dest: array<bv8>, src: seq<bv32>, ghost before: seq<bv8>,
                             t: u64, done: nat, n: nat, size: nat, r: nat, batch: nat)
    requires layout == IoRing.Interrupt && 0 < size && done + batch <= n <= size && 8 * n <= |src|
    requires IoRing.RingBytes(layout, size) <= dest.Length
    requires r == Slot(t, done, size) && r + batch <= size && r % 10 + batch <= 10
    requires Laid(dest[..], before, CycleOffsets(layout, t, done, size), CycleFrames(done, src), IoRing.FrameSizeOut)
    modifies dest
    ensures Laid(dest[..], before, CycleOffsets(layout, t, done + batch, size), CycleFrames(done + batch, src), IoRing.FrameSizeOut)
  {
    var blockIndex := r / 10;
    var frameInBlock := r % 10;
    var blockBase := blockIndex * 482;
    for k := 0 to batch
      invariant frameInBlock == r % 10 + k
      invariant Laid(dest[..], before, CycleOffsets(layout, t, done + k, size), CycleFrames(done + k, src), IoRing.FrameSizeOut)
    {
      WriteInterruptFrame(dest, src, before, t, done, k, n, size, r, blockBase, frameInBlock);
      frameInBlock := frameInBlock + 1;
    }
  }

  /**
   * Frame k of an interrupt batch, written at the destination
   * ioOperationInterrupt computes for it from the block's base and the
   * frame's place in the block.
   */
  method WriteInterruptFrame(dest: array<bv8>, src: seq<bv32>, ghost before: seq<bv8>,
                             t: nat, done: nat, k: nat, n: nat, size: nat, r: nat, blockBase: nat, frameInBlock: nat)
    requires 0 < size && done + k < n <= size && 8 * n <= |src|
    requires IoRing.RingBytes(IoRing.Interrupt, size) <= dest.Length
    requires r == Slot(t, done, size) && r + k < size && frameInBlock == r % 10 + k < 10
    requires blockBase == 482 * (r / 10)
    requires Laid(dest[..], before, CycleOffsets(IoRing.Interrupt, t, done + k, size), CycleFrames(done + k, src), IoRing.FrameSizeOut)
    modifies dest
    ensures Laid(dest[..], before, CycleOffsets(IoRing.Interrupt, t, done + k + 1, size), CycleFrames(done + k + 1, src), IoRing.FrameSizeOut)
  {
    var padding := if frameInBlock >= 9 then 2 else 0;
    var byteOffset := blockBase + frameInBlock * 48 + padding;
    InterruptFrameOffset(t, done, k, size, r, byteOffset);
    WriteFrame(IoRing.Interrupt, dest, src, before, t, done + k, n, size, byteOffset);
  }

  /** One batch of frames inside one block, in the layout's own innermost loop. */
  method WriteBatch(layout: IoRing.Layout, dest: array<bv8>, src: seq<bv32>, ghost before: seq<bv8>,
                    t: u64, done: nat, n: nat, size: nat, r: nat, batch: nat)
    requires 0 < size && done + batch <= n <= size && 8 * n <= |src|
    requires IoRing.RingBytes(layout, size) <= dest.Length
    requires r == Slot(t, done, size) && r + batch <= size && r % 10 + batch <= 10
    requires Laid(dest[..], before, CycleOffsets(layout, t, done, size), CycleFrames(done, src), IoRing.FrameSizeOut)
    modifies dest
    ensures Laid(dest[..], before, CycleOffsets(layout, t, done + batch, size), CycleFrames(done + batch, src), IoRing.FrameSizeOut)
  {
    if layout == IoRing.Bulk {
      WriteBatchBulk(layout, dest, src, before, t, done, n, size, r, batch);
    } else {
      WriteBatchInterrupt(layout, dest, src, before, t, done, n, size, r, batch);
    }
  }

  /**
   * The inner loop of a WriteMix cycle: `count` frames from ring index r
   * up to at most the end of the ring, cut into batches that stay inside
   * one block of ten frames.
   */
  method WriteRun(layout: IoRing.Layout, dest: array<bv8>, src: seq<bv32>, ghost before: seq<bv8>,
                  t: u64, done: nat, n: nat, size: nat, r: nat, count: nat)
    requires 0 < size && done + count <= n <= size && 8 * n <= |src|
    requires IoRing.RingBytes(layout, size) <= dest.Length
    requires r == Slot(t, done, size) && r + count <= size
    requires Laid(dest[..], before, CycleOffsets(layout, t, done, size), CycleFrames(done, src), IoRing.FrameSizeOut)
    modifies dest
    ensures Laid(dest[..], before, CycleOffsets(layout, t, done + count, size), CycleFrames(done + count, src), IoRing.FrameSizeOut)
  {
    var ringWriteIndex: nat := r;
    var framesToProcess: nat := count;
    var srcFrame := done;  // srcPtr, counted in frames of 8 samples
    while framesToProcess > 0
      invariant done <= srcFrame && srcFrame + framesToProcess == done + count
      invariant ringWriteIndex + done == r + srcFrame
      invariant Laid(dest[..], before, CycleOffsets(layout, t, srcFrame, size), CycleFrames(srcFrame, src), IoRing.FrameSizeOut)
    {
      var batch := WriteRunBatch(layout, dest, src, before, t, done, n, size, r, count, srcFrame, ringWriteIndex, framesToProcess);
      framesToProcess := framesToProcess - batch;
      ringWriteIndex := ringWriteIndex + batch;
      srcFrame := srcFrame + batch;
    }
  }

  /**
   * One pass of the WriteRun loop: as many of the remaining frames as fit
   * in the current block of ten, from ring index ringWriteIndex.
   */
  method WriteRunBatch(layout: IoRing.Layout, dest: array<bv8>, src: seq<bv32>, ghost before: seq<bv8>,
                       t: u64, done: nat, n: nat, size: nat, r: nat, count: nat, srcFrame: nat, ringWriteIndex: nat,
                       framesToProcess: nat)
      returns (batch: nat)
    requires 0 < size && done + count <= n <= size && 8 * n <= |src|
    requires IoRing.RingBytes(layout, size) <= dest.Length
    requires r == Slot(t, done, size) && r + count <= size
    requires 0 < framesToProcess && done <= srcFrame && srcFrame + framesToProcess == done + count
    requires ringWriteIndex + done == r + srcFrame
    requires Laid(dest[..], before, CycleOffsets(layout, t, srcFrame, size), CycleFrames(srcFrame, src), IoRing.FrameSizeOut)
    modifies dest
    ensures 0 < batch <= framesToProcess
    ensures Laid(dest[..], before, CycleOffsets(layout, t, srcFrame + batch, size), CycleFrames(srcFrame + batch, src), IoRing.FrameSizeOut)
  {
    var frameInBlock: nat := ringWriteIndex % 10;
    var framesLeftInBlock: nat := 10 - frameInBlock;
    batch := if framesToProcess < framesLeftInBlock then framesToProcess else framesLeftInBlock;
    SlotAdvance(t, done, srcFrame - done, size);
    WriteBatch(layout, dest, src, before, t, srcFrame, n, size, ringWriteIndex, batch);
  }

  /**
   * The WriteMix branch of ioOperationBulk (size = the output capacity) and
   * of ioOperationInterrupt (size = the zero-timestamp period): n frames of
   * CoreAudio's buffer encoded at ring slots (sampleTime mod size + i) mod
   * size, with the UART and padding bytes of the ring left as they were.
   */
  method WriteCycle(layout: IoRing.Layout, dest: array<bv8>, src: seq<bv32>, t: u64, n: nat, size: nat)
    requires 0 < size && n <= size && 8 * n <= |src|
    requires IoRing.RingBytes(layout, size) <= dest.Length
    modifies dest
    ensures Laid(dest[..], old(dest[..]), CycleOffsets(layout, t, n, size), CycleFrames(n, src), IoRing.FrameSizeOut)
    ensures IoRing.GapsKept(layout, dest[..], old(dest[..]))
  {
    ghost var before := dest[..];
    LaidNothing(before, IoRing.FrameSizeOut);
    var ringWriteIndex: nat := t % size;
    ModUnique(t % size, 0, t % size, size);
    var framesRemaining: nat := n;
    var srcFrame: nat := 0;  // srcPtr, counted in frames of 8 samples
    while framesRemaining > 0
      invariant srcFrame + framesRemaining == n && ringWriteIndex < size
      invariant ringWriteIndex == Slot(t, srcFrame, size)
      invariant Laid(dest[..], before, CycleOffsets(layout, t, srcFrame, size), CycleFrames(srcFrame, src), IoRing.FrameSizeOut)
    {
      var framesUntilWrap: nat := size - ringWriteIndex;
      var framesToProcess: nat := if framesRemaining < framesUntilWrap then framesRemaining else framesUntilWrap;
      WriteRun(layout, dest, src, before, t, srcFrame, n, size, ringWriteIndex, framesToProcess);
      SlotAdvance(t, srcFrame, framesToProcess, size);
      framesRemaining := framesRemaining - framesToProcess;
      ringWriteIndex := ringWriteIndex + framesToProcess;
      srcFrame := srcFrame + framesToProcess;
      if ringWriteIndex >= size {
        ringWriteIndex := 0;
      }
    }
    CycleGapBytesKept(layout, dest[..], before, t, n, size, src);
  }

  // ------------------------------------------------------------ read cycle

  /** The capture frame at ring index s of the input ring: bytes 64 s .. 64 s + 63. */
  function InputFrame(ring: seq<bv8>, s: nat): (r: seq<bv8>)
    requires 64 * s + 64 <= |ring|
    ensures |r| == PloytecCodec.CaptureFrameBytes
  {
    ring[64 * s..64 * s + 64]
  }

  /** Frame i of a ReadInput cycle of n frames: the decoding of ring slot (sampleTime mod size + i) mod size. */
  function CycleDecoded(ring: seq<bv8>, t: nat, n: nat, size: nat): (r: seq<seq<bv32>>)
    requires 0 < size && 64 * size <= |ring|
    ensures |r| == n
  {
    if n == 0 then [] else CycleDecoded(ring, t, n - 1, size) + [DecodeFrame(InputFrame(ring, Slot(t, n - 1, size)))]
  }

  lemma {:induction false} CycleDecodedAt(ring: seq<bv8>, t: nat, n: nat, size: nat, k: nat)
    requires 0 < size && 64 * size <= |ring| && k < n
    ensures CycleDecoded(ring, t, n, size)[k] == DecodeFrame(InputFrame(ring, Slot(t, k, size)))
  {
    var prev := CycleDecoded(ring, t, n - 1, size);
    var last := DecodeFrame(InputFrame(ring, Slot(t, n - 1, size)));
    assert CycleDecoded(ring, t, n, size) == prev + [last];
    IndexOfSnoc(prev, last, k);
    if k < n - 1 {
      CycleDecodedAt(ring, t, n - 1, size, k);
      assert (prev + [last])[k] == prev[k];
    } else {
      assert (prev + [last])[k] == last;
    }
  }

  lemma IndexOfSnoc<T>(p: seq<T>, x: T, k: nat)
    requires k <= |p|
    ensures (p + [x])[k] == if k < |p| then p[k] else x
  {
  }

  /** Every frame of a read cycle holds eight samples. */
  lemma CycleDecodedLengths(ring: seq<bv8>, t: nat, n: nat, size: nat)
    requires 0 < size && 64 * size <= |ring|
    ensures forall i :: 0 <= i < n ==> |CycleDecoded(ring, t, n, size)[i]| == Channels
  {
    forall i | 0 <= i < n
      ensures |CycleDecoded(ring, t, n, size)[i]| == Channels
    {
      CycleDecodedAt(ring, t, n, size, i);
    }
  }

  /** The frames of eight samples one after another, as CoreAudio's interleaved buffer holds them. */
  function Flatten(fs: seq<seq<bv32>>): (r: seq<bv32>)
    requires forall i :: 0 <= i < |fs| ==> |fs[i]| == Channels
    ensures |r| == 8 * |fs|
  {
    if |fs| == 0 then [] else Flatten(fs[..|fs| - 1]) + fs[|fs| - 1]
  }

  lemma FlattenSnoc(fs: seq<seq<bv32>>, f: seq<bv32>)
    requires forall i :: 0 <= i < |fs| ==> |fs[i]| == Channels
    requires |f| == Channels
    ensures Flatten(fs + [f]) == Flatten(fs) + f
  {
    assert (fs + [f])[..|fs|] == fs;
  }

  /** Samples 8k..8k+7 of a flattened buffer are frame k. */
  lemma {:induction false} FlattenAt(fs: seq<seq<bv32>>, k: nat)
    requires forall i :: 0 <= i < |fs| ==> |fs[i]| == Channels
    requires k < |fs|
    ensures Flatten(fs)[8 * k..8 * k + 8] == fs[k]
  {
    var m := |fs| - 1;
    var prev := fs[..m];
    assert Flatten(fs) == Flatten(prev) + fs[m];
    if k < m {
      FlattenAt(prev, k);
      assert (Flatten(prev) + fs[m])[8 * k..8 * k + 8] == Flatten(prev)[8 * k..8 * k + 8];
    } else {
      assert (Flatten(prev) + fs[m])[8 * m..] == fs[m];
    }
  }

  /** The samples a ReadInput cycle of n frames hands CoreAudio, frame after frame. */
  function CycleInput(ring: seq<bv8>, t: nat, n: nat, size: nat): (r: seq<bv32>)
    requires 0 < size && 64 * size <= |ring|
    ensures |r| == 8 * n
  {
    CycleDecodedLengths(ring, t, n, size);
    Flatten(CycleDecoded(ring, t, n, size))
  }

  /** Samples 8k..8k+7 of a read cycle are the decoding of the k-th frame's slot. */
  lemma CycleInputAt(ring: seq<bv8>, t: nat, n: nat, size: nat, k: nat)
    requires 0 < size && 64 * size <= |ring| && k < n
    ensures CycleInput(ring, t, n, size)[8 * k..8 * k + 8] == DecodeFrame(InputFrame(ring, Slot(t, k, size)))
  {
    CycleDecodedAt(ring, t, n, size, k);
    CycleDecodedLengths(ring, t, n, size);
    FlattenAt(CycleDecoded(ring, t, n, size), k);
  }

  /**
   * The closing loop of DecodePloytecPCM: the eight channels of the
   * gathered S24 bytes, each sign-extended, stored at dest[at..at + 8];
   * nothing else changes.
   */
  method StoreSamples(dest: array<bv32>, at: nat, c: seq<bv8>)
    requires |c| == PloytecCodec.FrameBytes && at + 8 <= dest.Length
    modifies dest
    ensures dest[..] == old(dest[..at]) + Samples24(c) + old(dest[at + 8..])
  {
    for i := 0 to Channels
      invariant forall j :: 0 <= j < dest.Length && !(at <= j < at + i) ==> dest[j] == old(dest[j])
      invariant forall j :: 0 <= j < i ==> dest[at + j] == SignExtend24(c[3 * j], c[3 * j + 1], c[3 * j + 2])
    {
      dest[at + i] := SignExtend24(c[3 * i], c[3 * i + 1], c[3 * i + 2]);
    }
    assert dest[..] == old(dest[..at]) + Samples24(c) + old(dest[at + 8..]);
  }

  /** A read cycle of i + 1 frames hands CoreAudio that of i frames, then the decoding of slot (t + i) mod size. */
  lemma CycleInputSnoc(ring: seq<bv8>, t: nat, i: nat, size: nat)
    requires 0 < size && 64 * size <= |ring|
    ensures CycleInput(ring, t, i + 1, size) == CycleInput(ring, t, i, size) + DecodeFrame(InputFrame(ring, Slot(t, i, size)))
  {
    CycleDecodedLengths(ring, t, i, size);
    CycleDecodedLengths(ring, t, i + 1, size);
    FlattenSnoc(CycleDecoded(ring, t, i, size), DecodeFrame(InputFrame(ring, Slot(t, i, size))));
  }

  /** Overwriting the eight samples after a prefix p extends p by them and drops eight samples of the rest. */
  lemma StoreStep(p: seq<bv32>, f: seq<bv32>, rest: seq<bv32>, a: seq<bv32>, a2: seq<bv32>)
    requires |f| == Channels && Channels <= |rest| && a == p + rest
    requires a2 == a[..|p|] + f + a[|p| + 8..]
    ensures a2 == (p + f) + rest[8..]
  {
    assert a[..|p|] == p;
    assert a[|p| + 8..] == rest[8..];
  }

  /** One iteration of the inner read loop: ring slot s, the cycle's frame i, decoded into dest[8i..8i + 8]. */
  method ReadFrame(dest: array<bv32>, ring: seq<bv8>, ghost before: seq<bv32>, t: nat, i: nat, size: nat, s: nat)
    requires 0 < size && 64 * size <= |ring| && 8 * (i + 1) <= |before| == dest.Length
    requires s == Slot(t, i, size)
    requires dest[..] == CycleInput(ring, t, i, size) + before[8 * i..]
    modifies dest
    ensures dest[..] == CycleInput(ring, t, i + 1, size) + before[8 * (i + 1)..]
  {
    ghost var cur := dest[..];
    ghost var rest := before[8 * i..];
    var c := PloytecCodec.Decode(InputFrame(ring, s));  // srcPtr = baseSrc + s * 64
    StoreSamples(dest, 8 * i, c);
    CycleInputSnoc(ring, t, i, size);
    StoreStep(CycleInput(ring, t, i, size), Samples24(c), rest, cur, dest[..]);
    assert rest[8..] == before[8 * (i + 1)..];
  }

  /**
   * The inner loop of a ReadInput cycle: `count` frames decoded from ring
   * index r on, up to at most the end of the ring, the source stepping by
   * 64 bytes and the destination by 8 samples.
   */
  method ReadRun(dest: array<bv32>, ring: seq<bv8>, ghost before: seq<bv32>, t: u64, done: nat, size: nat, r: nat, count: nat)
    requires 0 < size && 64 * size <= |ring| && 8 * (done + count) <= |before| == dest.Length
    requires r == Slot(t, done, size) && r + count <= size
    requires dest[..] == CycleInput(ring, t, done, size) + before[8 * done..]
    modifies dest
    ensures dest[..] == CycleInput(ring, t, done + count, size) + before[8 * (done + count)..]
  {
    for k := 0 to count
      invariant dest[..] == CycleInput(ring, t, done + k, size) + before[8 * (done + k)..]
    {
      SlotAdvance(t, done, k, size);
      ReadFrame(dest, ring, before, t, done + k, size, r + k);
    }
  }

  /**
   * The ReadInput branch of ioOperationBulk (size = the input capacity) and
   * of ioOperationInterrupt (size = the zero-timestamp period): CoreAudio's
   * first 8n samples become the decoding of n input-ring frames from slot
   * sampleTime mod size on, wrapping to slot 0 at size as often as needed;
   * the rest of its buffer is untouched.
   */
  method ReadCycle(dest: array<bv32>, ring: seq<bv8>, t: u64, n: nat, size: nat)
    requires 0 < size && 64 * size <= |ring| && 8 * n <= dest.Length
    modifies dest
    ensures dest[..] == CycleInput(ring, t, n, size) + old(dest[8 * n..])
  {
    ghost var before := dest[..];
    var ringReadIndex: nat := t % size;
    ModUnique(t % size, 0, t % size, size);
    var framesRemaining: nat := n;
    var dstFrame: nat := 0;  // dstPtr, counted in frames of 8 samples
    while framesRemaining > 0
      invariant dstFrame + framesRemaining == n && ringReadIndex < size
      invariant ringReadIndex == Slot(t, dstFrame, size)
      invariant dest[..] == CycleInput(ring, t, dstFrame, size) + before[8 * dstFrame..]
    {
      var framesUntilWrap: nat := size - ringReadIndex;
      var framesToProcess: nat := if framesRemaining < framesUntilWrap then framesRemaining else framesUntilWrap;
      ReadRun(dest, ring, before, t, dstFrame, size, ringReadIndex, framesToProcess);
      SlotAdvance(t, dstFrame, framesToProcess, size);
      framesRemaining := framesRemaining - framesToProcess;
      ringReadIndex := ringReadIndex + framesToProcess;
      dstFrame := dstFrame + framesToProcess;
      if ringReadIndex >= size {
        ringReadIndex := 0;
      }
    }
    assert before[8 * n..] == old(dest[8 * n..]);
  }

  /** Whole input packets of the buffer fit: the input ring stays inside the receive buffer. */
  lemma InputRingFits(rxSize: nat)
    ensures 64 * InputCapacity(rxSize) <= rxSize
  {
    if InputCapacity(rxSize) > 0 {
      InputCapacityFits(rxSize, InputCapacity(rxSize) - 1);
    }
  }

  /** Whole output packets of the buffer fit: the output ring stays inside the transmit buffer. */
  lemma OutputRingFits(layout: IoRing.Layout, txSize: nat)
    requires OutputCapacity(layout, txSize) > 0
    ensures IoRing.RingBytes(layout, OutputCapacity(layout, txSize)) <= txSize
  {
    OutputCapacityFits(layout, txSize, OutputCapacity(layout, txSize) - 1);
  }

  // ------------------------------------------------------ Playback / Capture

  /** currentpos of Playback and Capture: the frameCount-sized step of the period the counter is at, stored in a uint16. */
  function PeriodPosition(t: nat, period: nat, frameCount: nat): (r: u16)
    requires period > 0 && frameCount > 0
    ensures r * frameCount <= t % period
  {
    ((t % period) / frameCount) % U16
  }

  /** When the steps of a period fit a uint16, the counter lies inside step currentpos of its period. */
  lemma PeriodPositionMeaning(t: nat, period: nat, frameCount: nat)
    requires period > 0 && frameCount > 0 && period <= U16 * frameCount
    ensures var p := PeriodPosition(t, period, frameCount);
      p * frameCount <= t % period < p * frameCount + frameCount
  {
    var q := (t % period) / frameCount;
    assert q * frameCount <= t % period;
    MulMonotone(U16, q, frameCount);
    ModUnique(q, 0, q, U16);
  }

  /** Playback moves the zero timestamp when the output counter enters a new period. */
  predicate CrossesPeriod(t: nat, next: nat, period: nat)
    requires period > 0
  {
    t / period != next / period
  }

  /** On a counter that does not wrap, frameCount frames cross into a new period exactly when they reach its end. */
  lemma CrossingIff(t: nat, frameCount: nat, period: nat)
    requires period > 0
    ensures CrossesPeriod(t, t + frameCount, period) <==> t % period + frameCount >= period
  {
    var q, r := t / period, t % period;
    if r + frameCount < period {
      ModUnique(t + frameCount, q, r + frameCount, period);
    } else {
      DivAbove(t + frameCount, q, period);
    }
  }

  /** A value at least one period above q * p lies in a later period than q. */
  lemma DivAbove(z: nat, q: nat, p: nat)
    requires p > 0 && q * p + p <= z
    ensures q < z / p
  {
    MulMonotone(z / p, q, p);
  }

  /** Division by a period is monotonic. */
  lemma DivMonotone(a: nat, b: nat, p: nat)
    requires p > 0 && a <= b
    ensures a / p <= b / p
  {
    var d := b / p;
    assert (d + 1) * p == d * p + p;
    MulMonotone(d + 1, a / p, p);
  }

  /** The sample time a crossing anchors the zero timestamp at: the last period boundary at or below the new counter. */
  function Anchor(next: nat, period: nat): nat
    requires period > 0
  {
    (next / period) * period
  }

  /** The anchor is a period boundary that the frames of this call crossed: above the old counter, at most the new one. */
  lemma AnchorCrossed(t: nat, frameCount: nat, period: nat)
    requires period > 0 && CrossesPeriod(t, t + frameCount, period)
    ensures Anchor(t + frameCount, period) % period == 0
    ensures t < Anchor(t + frameCount, period) <= t + frameCount < Anchor(t + frameCount, period) + period
  {
    var n := t + frameCount;
    BoundaryBelow(n, period);
    BoundaryAbove(t, n, period);
  }

  /** (n div p) * p is a multiple of p within one period below n. */
  lemma BoundaryBelow(n: nat, p: nat)
    requires p > 0
    ensures ((n / p) * p) % p == 0 && (n / p) * p <= n < (n / p) * p + p
  {
    ModUnique((n / p) * p, n / p, 0, p);
  }

  /** When t and n lie in different periods, the boundary below n is above t. */
  lemma BoundaryAbove(t: nat, n: nat, p: nat)
    requires p > 0 && t <= n && t / p != n / p
    ensures t < (n / p) * p
  {
    var q, qt := n / p, t / p;
    DivMonotone(t, n, p);
    MulMonotone(qt + 1, q, p);
    assert (qt + 1) * p == qt * p + p;
  }

  // -------------------------------------------------------------- the device

  /** An AudioBufferList of one buffer: mNumberBuffers, its channel count and mDataByteSize. */
  datatype BufferConfig = BufferConfig(numberBuffers: nat, numberChannels: u32, dataByteSize: u32)

  /** The memset-zero AudioBufferList init starts from. */
  const EmptyConfig := BufferConfig(0, 0, 0)

  /**
   * The stream configuration RebuildStreamConfigsForBufferSize sets for a
   * channel count: one buffer of frames * channels float samples, sized on
   * uint32; without channels the old configuration stays.
   */
  function StreamConfig(previous: BufferConfig, frames: u32, channels: u32): (r: BufferConfig)
    ensures channels == 0 ==> r == previous
    ensures channels > 0 ==> r.numberBuffers == 1 && r.numberChannels == channels
    ensures channels > 0 && frames * channels * 4 < U32 ==> r.dataByteSize == 4 * channels * frames
  {
    if channels > 0 then BufferConfig(1, channels, (frames * channels * 4) % U32) else previous
  }

  /** Even sequence numbers mark a consistent timestamp: each store moves the sequence by two on uint32. */
  lemma StoreKeepsSequenceEven(sequence: u32)
    requires sequence % 2 == 0
    ensures Add32(sequence, 1) % 2 == 1
    ensures Add32(Add32(sequence, 1), 1) % 2 == 0
  {
  }

  /**
   * The HAL plug-in's audio device: the transfer mode chosen at init, the
   * ring capacities, the stream configurations, the hardware sample
   * counters, the timestamp seed and the sequence-counted zero timestamp.
   */
  class PloytecAudioDevice {
    var layout: IoRing.Layout
    var zeroTimestampPeriod: u32
    var bufferFrameSize: u32
    var inChannelCount: u32
    var outChannelCount: u32
    var inputConfig: BufferConfig
    var outputConfig: BufferConfig
    var inputCapacity: nat
    var outputCapacity: nat
    /** The shared USB receive and transmit buffers. */
    var inputBuffer: array<bv8>
    var outputBuffer: array<bv8>
    var ioStarted: bool
    var pcmInActive: bool
    var pcmOutActive: bool
    var hwSampleTimeIn: u64
    var hwSampleTimeOut: u64
    var lastZeroReported: u64
    var timestampSeed: u32
    var timestampSeq: u32
    var timestampSample: u64
    var timestampHost: u64

    /** The capacities belong to the buffers and the published timestamp is consistent. */
    predicate Valid()
      reads this
    {
      inputCapacity == InputCapacity(inputBuffer.Length)
      && outputCapacity == OutputCapacity(layout, outputBuffer.Length)
      && timestampSeq % 2 == 0
    }

    /** The default-constructed device: the member initialisers of its instance variables. */
    constructor(rx: array<bv8>, tx: array<bv8>)
      ensures Valid()
      ensures bufferFrameSize == 32768 && zeroTimestampPeriod == 2560 && timestampSeed == 1
      ensures timestampSeq == 0 && timestampSample == 0 && timestampHost == 0
      ensures inChannelCount == 0 && outChannelCount == 0
      ensures inputBuffer == rx && outputBuffer == tx
    {
      layout := IoRing.Bulk;
      zeroTimestampPeriod := 2560;
      bufferFrameSize := 32768;
      inChannelCount, outChannelCount := 0, 0;
      inputConfig, outputConfig := EmptyConfig, EmptyConfig;
      inputBuffer, outputBuffer := rx, tx;
      inputCapacity := InputCapacity(rx.Length);
      outputCapacity := OutputCapacity(IoRing.Bulk, tx.Length);
      ioStarted, pcmInActive, pcmOutActive := false, false, false;
      hwSampleTimeIn, hwSampleTimeOut, lastZeroReported := 0, 0, 0;
      timestampSeed, timestampSeq, timestampSample, timestampHost := 1, 0, 0, 0;
    }

    /** RebuildStreamConfigsForBufferSize: the configuration of each direction that has channels. */
    method RebuildStreamConfigsForBufferSize()
      modifies this`inputConfig, this`outputConfig
      ensures inputConfig == StreamConfig(old(inputConfig), bufferFrameSize, inChannelCount)
      ensures outputConfig == StreamConfig(old(outputConfig), bufferFrameSize, outChannelCount)
    {
      var frames := bufferFrameSize;
      if inChannelCount > 0 {
        inputConfig := BufferConfig(1, inChannelCount, (frames * inChannelCount * 4) % U32);
      }
      if outChannelCount > 0 {
        outputConfig := BufferConfig(1, outChannelCount, (frames * outChannelCount * 4) % U32);
      }
    }

    /** The buffers of the transfer mode and the ring capacities they hold. */
    method AttachBuffers(rx: array<bv8>, tx: array<bv8>, mode: IoRing.Layout)
      requires timestampSeq % 2 == 0
      modifies this`layout, this`inputBuffer, this`outputBuffer, this`inputCapacity, this`outputCapacity
      ensures Valid()
      ensures layout == mode && inputBuffer == rx && outputBuffer == tx
    {
      layout := mode;
      inputBuffer, outputBuffer := rx, tx;
      inputCapacity := InputCapacity(rx.Length);
      outputCapacity := OutputCapacity(mode, tx.Length);
    }

    /**
     * init: the I/O handler of the transfer mode, the ring capacities of
     * the two buffers, the channel counts, a buffer frame size of 2560,
     * rebuilt stream configurations and cleared hardware counters.
     */
    method Init(period: u32, inChannels: u32, outChannels: u32, rx: array<bv8>, tx: array<bv8>, mode: IoRing.Layout)
      requires Valid()
      modifies this`inputConfig, this`outputConfig, this`layout, this`inputBuffer, this`outputBuffer
      modifies this`zeroTimestampPeriod, this`inputCapacity, this`outputCapacity, this`inChannelCount, this`outChannelCount
      modifies this`bufferFrameSize, this`hwSampleTimeOut, this`hwSampleTimeIn
      ensures Valid()
      ensures layout == mode && zeroTimestampPeriod == period
      ensures inputBuffer == rx && outputBuffer == tx
      ensures inChannelCount == inChannels && outChannelCount == outChannels
      ensures bufferFrameSize == BufferFrameSize
      ensures inputConfig == StreamConfig(EmptyConfig, BufferFrameSize, inChannels)
      ensures outputConfig == StreamConfig(EmptyConfig, BufferFrameSize, outChannels)
      ensures hwSampleTimeOut == 0 && hwSampleTimeIn == 0
    {
      zeroTimestampPeriod := period;
      SetChannels(inChannels, outChannels);
      hwSampleTimeOut, hwSampleTimeIn := 0, 0;
      AttachBuffers(rx, tx, mode);
    }

    /** The channel counts, a buffer frame size of 2560 and the stream configurations rebuilt from empty ones. */
    method SetChannels(inChannels: u32, outChannels: u32)
      modifies this`inputConfig, this`outputConfig, this`inChannelCount, this`outChannelCount, this`bufferFrameSize
      ensures inChannelCount == inChannels && outChannelCount == outChannels
      ensures bufferFrameSize == BufferFrameSize
      ensures inputConfig == StreamConfig(EmptyConfig, BufferFrameSize, inChannels)
      ensures outputConfig == StreamConfig(EmptyConfig, BufferFrameSize, outChannels)
    {
      inputConfig, outputConfig := EmptyConfig, EmptyConfig;
      inChannelCount, outChannelCount := inChannels, outChannels;
      bufferFrameSize := BufferFrameSize;
      RebuildStreamConfigsForBufferSize();
    }

    /** StoreTimestamp: the sequence moves on by two (odd while the sample and host time change), then the new pair is published. */
    method StoreTimestamp(sample: u64, host: u64)
      requires Valid()
      modifies this`timestampSeq, this`timestampSample, this`timestampHost
      ensures Valid()
      ensures timestampSeq == Add32(Add32(old(timestampSeq), 1), 1)
      ensures timestampSample == sample && timestampHost == host
    {
      StoreKeepsSequenceEven(timestampSeq);
      timestampSeq := Add32(timestampSeq, 1);
      timestampHost := host;
      timestampSample := sample;
      timestampSeq := Add32(timestampSeq, 1);
    }

    /** StartIO: I/O on, both directions inactive, the zero timestamp anchored at the output counter, a new seed. */
    method StartIO(now: u64)
      requires Valid()
      modifies this`lastZeroReported, this`ioStarted, this`pcmInActive, this`pcmOutActive, this`timestampSeed
      modifies this`timestampSeq, this`timestampSample, this`timestampHost
      ensures Valid()
      ensures lastZeroReported == 0 && ioStarted && !pcmInActive && !pcmOutActive
      ensures timestampSample == hwSampleTimeOut && timestampHost == now
      ensures timestampSeq == Add32(Add32(old(timestampSeq), 1), 1)
      ensures timestampSeed == Add32(old(timestampSeed), 1)
    {
      lastZeroReported := 0;
      ioStarted := true;
      pcmInActive, pcmOutActive := false, false;
      StoreTimestamp(hwSampleTimeOut, now);
      timestampSeed := Add32(timestampSeed, 1);
    }

    /**
     * StopIO: I/O off, a new seed, and the driver's ClearOutputBuffer on its
     * transmit buffer in its transfer mode (the driver singleton's state is
     * passed in).
     */
    method StopIO(driverTx: array?<bv8>, driverMode: IoRing.Layout)
      requires Valid()
      requires driverTx != null ==> driverTx.Length == UsbBuffer.BufferSizeOut
      modifies this`ioStarted, this`timestampSeed, driverTx
      ensures Valid()
      ensures !ioStarted && timestampSeed == Add32(old(timestampSeed), 1)
      ensures driverTx != null ==> forall j :: 0 <= j < driverTx.Length ==>
        driverTx[j] == if UsbBuffer.IsPcmByte(driverMode, j) then 0 else old(driverTx[j])
    {
      ioStarted := false;
      timestampSeed := Add32(timestampSeed, 1);
      UsbBuffer.ClearOutputBuffer(driverTx, driverMode);
    }

    /**
     * Playback: currentpos from the output counter before the call, the
     * counter advanced by frameCount on uint64, and the zero timestamp
     * re-anchored at the new period boundary when the counter crossed one.
     */
    method Playback(frameCount: u16, completionTimestamp: u64) returns (ok: bool, currentpos: u16)
      requires Valid() && zeroTimestampPeriod > 0 && frameCount > 0
      modifies this`hwSampleTimeOut, this`timestampSeq, this`timestampSample, this`timestampHost
      ensures Valid() && ok
      ensures currentpos == PeriodPosition(old(hwSampleTimeOut), zeroTimestampPeriod, frameCount)
      ensures hwSampleTimeOut == Add64(old(hwSampleTimeOut), frameCount)
      ensures CrossesPeriod(old(hwSampleTimeOut), hwSampleTimeOut, zeroTimestampPeriod) ==>
        timestampSample == Anchor(hwSampleTimeOut, zeroTimestampPeriod) && timestampHost == completionTimestamp
        && timestampSeq == Add32(Add32(old(timestampSeq), 1), 1)
      ensures !CrossesPeriod(old(hwSampleTimeOut), hwSampleTimeOut, zeroTimestampPeriod) ==>
        unchanged(this`timestampSeq, this`timestampSample, this`timestampHost)
    {
      var period := zeroTimestampPeriod;
      var currentSampleTime := hwSampleTimeOut;
      currentpos := ((currentSampleTime % period) / frameCount) % U16;
      hwSampleTimeOut := Add64(hwSampleTimeOut, frameCount);
      var nextSampleTime := hwSampleTimeOut;
      if currentSampleTime / period != nextSampleTime / period {
        var newAnchorSample := (nextSampleTime / period) * period;
        AnchorFits(nextSampleTime, period);
        StoreTimestamp(newAnchorSample, completionTimestamp);
      }
      ok := true;
    }

    /** Capture: currentpos from the input counter, which advances by frameCount; the timestamp is not touched. */
    method Capture(frameCount: u16, completionTimestamp: u64) returns (ok: bool, currentpos: u16)
      requires zeroTimestampPeriod > 0 && frameCount > 0
      modifies this`hwSampleTimeIn
      ensures ok && currentpos == PeriodPosition(old(hwSampleTimeIn), zeroTimestampPeriod, frameCount)
      ensures hwSampleTimeIn == Add64(old(hwSampleTimeIn), frameCount)
    {
      currentpos := ((hwSampleTimeIn % zeroTimestampPeriod) / frameCount) % U16;
      hwSampleTimeIn := Add64(hwSampleTimeIn, frameCount);
      ok := true;
    }

    /** GetZeroTimeStamp: the last published sample and host time and the current seed. */
    method GetZeroTimeStamp() returns (sampleTime: u64, hostTime: u64, seed: u32)
      ensures sampleTime == timestampSample && hostTime == timestampHost && seed == timestampSeed
    {
      sampleTime, hostTime, seed := timestampSample, timestampHost, timestampSeed;
    }

    /** The ring size of the active I/O handler: the buffer capacity in bulk mode, the zero-timestamp period in interrupt mode. */
    function OutputRingSize(): nat
      reads this
    {
      if layout == IoRing.Bulk then outputCapacity else zeroTimestampPeriod
    }

    function InputRingSize(): nat
      reads this
    {
      if layout == IoRing.Bulk then inputCapacity else zeroTimestampPeriod
    }

    /**
     * The WriteMix operation of the active I/O handler: frames of CoreAudio's
     * output buffer encoded into the output ring from slot sampleTime mod
     * size on, the ring's UART and padding bytes kept.
     */
    method WriteMix(frames: nat, sampleTime: u64, mainBuffer: seq<bv32>)
      requires Valid() && OutputRingSize() > 0 && frames <= OutputRingSize() && 8 * frames <= |mainBuffer|
      requires layout == IoRing.Interrupt ==> IoRing.RingBytes(layout, zeroTimestampPeriod) <= outputBuffer.Length
      modifies this`pcmOutActive, outputBuffer
      ensures Valid() && pcmOutActive
      ensures Laid(outputBuffer[..], old(outputBuffer[..]),
                   CycleOffsets(layout, sampleTime, frames, OutputRingSize()), CycleFrames(frames, mainBuffer), IoRing.FrameSizeOut)
      ensures IoRing.GapsKept(layout, outputBuffer[..], old(outputBuffer[..]))
    {
      pcmOutActive := true;
      var size := OutputRingSize();
      if layout == IoRing.Bulk {
        OutputRingFits(layout, outputBuffer.Length);
      }
      WriteCycle(layout, outputBuffer, mainBuffer, sampleTime, frames, size);
    }

    /**
     * The ReadInput operation of the active I/O handler: frames of the input
     * ring from slot sampleTime mod size on, decoded into CoreAudio's input
     * buffer.
     */
    method ReadInput(frames: nat, sampleTime: u64, mainBuffer: array<bv32>)
      requires Valid() && InputRingSize() > 0 && 8 * frames <= mainBuffer.Length
      requires layout == IoRing.Interrupt ==> 64 * zeroTimestampPeriod <= inputBuffer.Length
      modifies mainBuffer
      ensures mainBuffer[..] == CycleInput(old(inputBuffer[..]), sampleTime, frames, InputRingSize()) + old(mainBuffer[8 * frames..])
    {
      var size := InputRingSize();
      InputRingFits(inputBuffer.Length);
      ReadCycle(mainBuffer, inputBuffer[..], sampleTime, frames, size);
    }
  }

  /** The anchor of a new counter value is itself a uint64 value. */
  lemma AnchorFits(next: nat, period: nat)
    requires period > 0
    ensures Anchor(next, period) <= next
  {
    var q := next / period;
    assert next == q * period + next % period;
  }
}
