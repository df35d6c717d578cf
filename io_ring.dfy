// The I/O-operation handlers of the AudioDriverKit devices: each cycle
// encodes `n` CoreAudio frames into the USB output ring, or decodes `n`
// USB capture frames into CoreAudio's input ring, at ring frame
// (sample time + i) mod ring size.  The output ring is made of blocks of
// ten 48-byte frames followed by a gap the frames never touch: 32 bytes in
// a 512-byte bulk block, or two UART bytes after the ninth frame of a
// 482-byte interrupt block.
module IoRing {
  import opened Wrap
  import opened FrameLayout
  import PloytecCodec

  const FrameSizeOut: nat := 48
  const FrameSizeIn: nat := 64
  const S24Frame: nat := 24

  datatype Layout = Bulk | Interrupt

  /** The `playbackstats` record the devices report to the app. */
  datatype PlaybackStats = PlaybackStats(
    playing: bool, recording: bool,
    outSampleTime: u64, outSampleTimeUsb: u64, outSampleTimeDiff: u64,
    inSampleTime: u64, inSampleTimeUsb: u64, inSampleTimeDiff: u64,
    xruns: u64)

  /** Bytes of one block of ten output frames and its gap. */
  function BlockBytes(layout: Layout): nat
  {
    match layout
    case Bulk => 512
    case Interrupt => 482
  }

  /** Where the gap starts inside a block, and how wide it is. */
  function GapStart(layout: Layout): nat
  {
    match layout
    case Bulk => 480
    case Interrupt => 432
  }

  function GapWidth(layout: Layout): nat
  {
    match layout
    case Bulk => 32
    case Interrupt => 2
  }

  /** Byte offset of ring frame `s` in the output ring, as the handlers compute it. */
  function FrameOffset(layout: Layout, s: nat): nat
  {
    match layout
    case Bulk => s * FrameSizeOut + (if s >= 10 then ((s - 10) / 10) * 32 + 32 else 0)
    case Interrupt => s * FrameSizeOut + (if s >= 9 then ((s - 9) / 10) * 2 + 2 else 0)
  }

  /** The bulk gap term is 32 (s div 10); the interrupt one is 2 ((s + 1) div 10). */
  lemma FrameOffsetClosedForm(layout: Layout, s: nat)
    ensures layout == Bulk ==> FrameOffset(layout, s) == 48 * s + 32 * (s / 10)
    ensures layout == Interrupt ==> FrameOffset(layout, s) == 48 * s + 2 * ((s + 1) / 10)
  {
    var q, r := s / 10, s % 10;
    assert s == 10 * q + r;
    if layout == Bulk {
      if s >= 10 {
        assert s - 10 == 10 * (q - 1) + r;
        assert (s - 10) / 10 == q - 1;
      }
    } else if r == 9 {
      assert (s + 1) / 10 == q + 1;
      assert (s - 9) / 10 == q;
    } else if s >= 9 {
      assert (s + 1) / 10 == q;
      assert s - 9 == 10 * (q - 1) + (r + 1);
      assert (s - 9) / 10 == q - 1;
    } else {
      assert (s + 1) / 10 == 0;
    }
  }

  /**
   * Ring frame `s` is frame s mod 10 of block s div 10; in the interrupt
   * layout the tenth frame of a block follows the two UART bytes.
   */
  lemma FrameOffsetBlocks(layout: Layout, s: nat)
    ensures FrameOffset(layout, s) == BlockBytes(layout) * (s / 10) + FrameSizeOut * (s % 10)
      + (if layout == Interrupt && s % 10 == 9 then 2 else 0)
  {
    FrameOffsetClosedForm(layout, s);
    var q, r := s / 10, s % 10;
    assert s == 10 * q + r;
    if layout == Interrupt {
      if r == 9 {
        assert (s + 1) / 10 == q + 1;
      } else {
        assert (s + 1) / 10 == q;
      }
    }
  }

  /** Distinct ring frames occupy disjoint 48-byte ranges, in order. */
  lemma FramesDisjoint(layout: Layout, s1: nat, s2: nat)
    requires s1 < s2
    ensures FrameOffset(layout, s1) + FrameSizeOut <= FrameOffset(layout, s2)
  {
    FrameOffsetClosedForm(layout, s1);
    FrameOffsetClosedForm(layout, s2);
    assert s1 / 10 <= s2 / 10;
    assert (s1 + 1) / 10 <= (s2 + 1) / 10;
  }

  /** Byte `d` of the gap of block `b`. */
  function GapByte(layout: Layout, b: nat, d: nat): nat
    requires d < GapWidth(layout)
  {
    BlockBytes(layout) * b + GapStart(layout) + d
  }

  /** Every gap byte of `a` that lies inside it has its value in `before`. */
  ghost predicate GapsKept(layout: Layout, a: seq<bv8>, before: seq<bv8>)
    requires |a| == |before|
  {
    forall b: nat, d: nat :: d < GapWidth(layout) && GapByte(layout, b, d) < |a| ==>
      a[GapByte(layout, b, d)] == before[GapByte(layout, b, d)]
  }

  /** No frame of the output ring covers a gap byte. */
  lemma GapBytesOutsideFrames(layout: Layout, s: nat, b: nat, d: nat)
    requires d < GapWidth(layout)
    ensures GapByte(layout, b, d) < FrameOffset(layout, s) || FrameOffset(layout, s) + FrameSizeOut <= GapByte(layout, b, d)
  {
    FrameOffsetBlocks(layout, s);
    var q := s / 10;
    var k := BlockBytes(layout);
    if q < b {
      assert k * q + k <= k * b;
    } else if q > b {
      assert k * b + k <= k * q;
    }
  }

  /** Bytes an output ring of `size` frames spans: up to the end of its last frame. */
  function RingBytes(layout: Layout, size: nat): nat
    requires size > 0
  {
    FrameOffset(layout, size - 1) + FrameSizeOut
  }

  /** Every ring frame lies inside the ring. */
  lemma FrameFits(layout: Layout, s: nat, size: nat)
    requires s < size
    ensures FrameOffset(layout, s) + FrameSizeOut <= RingBytes(layout, size)
  {
    if s < size - 1 {
      FramesDisjoint(layout, s, size - 1);
    }
  }

  /** Ring frame of the i-th frame of a cycle: `(in_sample_time + i) % size` on uint64. */
  function RingFrame(t: u64, i: nat, size: nat): (s: nat)
    requires size > 0
    ensures s < size
  {
    Add64(t, i) % size
  }

  /** The output ring offsets a write cycle writes, in order. */
  function WriteOffsets(layout: Layout, t: u64, n: nat, size: nat): (r: seq<int>)
    requires size > 0
    ensures |r| == n
  {
    seq(n, i requires 0 <= i < n => FrameOffset(layout, RingFrame(t, i, size)))
  }

  /** The encoded frames a write cycle writes: CoreAudio frame s, encoded. */
  function WriteFrames(t: u64, n: nat, size: nat, src: seq<bv8>): (r: seq<seq<bv8>>)
    requires size > 0 && S24Frame * size <= |src|
    ensures |r| == n
  {
    seq(n, i requires 0 <= i < n =>
      var s := RingFrame(t, i, size); PloytecCodec.Encode(src[S24Frame * s..S24Frame * s + S24Frame]))
  }

  /** The CoreAudio input offsets a read cycle writes, in order. */
  function ReadOffsets(t: u64, n: nat, size: nat): (r: seq<int>)
    requires size > 0
    ensures |r| == n
  {
    seq(n, i requires 0 <= i < n => S24Frame * RingFrame(t, i, size))
  }

  /** The decoded frames a read cycle writes: USB ring frame s at byte 64 s, decoded. */
  function ReadFrames(t: u64, n: nat, size: nat, src: seq<bv8>): (r: seq<seq<bv8>>)
    requires size > 0 && FrameSizeIn * size <= |src|
    ensures |r| == n
  {
    seq(n, i requires 0 <= i < n =>
      var s := RingFrame(t, i, size); PloytecCodec.Decode(src[FrameSizeIn * s..FrameSizeIn * s + FrameSizeIn]))
  }

  /** The write loop's offsets and frames after i + 1 iterations extend those after i. */
  lemma WriteSeqsSnoc(layout: Layout, t: u64, i: nat, size: nat, src: seq<bv8>)
    requires size > 0 && S24Frame * size <= |src|
    ensures var s := RingFrame(t, i, size);
      WriteOffsets(layout, t, i + 1, size) == WriteOffsets(layout, t, i, size) + [FrameOffset(layout, s)]
      && WriteFrames(t, i + 1, size, src) == WriteFrames(t, i, size, src) + [PloytecCodec.Encode(src[S24Frame * s..S24Frame * s + S24Frame])]
  {
  }

  /** Frame i of the write loop lands exactly on an earlier one (same ring frame) or clear of it. */
  lemma WriteSeparated(layout: Layout, t: u64, i: nat, size: nat, src: seq<bv8>)
    requires size > 0 && S24Frame * size <= |src|
    ensures var s := RingFrame(t, i, size); var o := FrameOffset(layout, s);
      var offs, frames := WriteOffsets(layout, t, i, size), WriteFrames(t, i, size, src);
      forall k :: 0 <= k < i ==>
        (offs[k] == o && frames[k] == PloytecCodec.Encode(src[S24Frame * s..S24Frame * s + S24Frame]))
        || offs[k] + FrameSizeOut <= o || o + FrameSizeOut <= offs[k]
  {
    var s := RingFrame(t, i, size);
    forall k | 0 <= k < i
      ensures var sk := RingFrame(t, k, size);
        sk == s || FrameOffset(layout, sk) + FrameSizeOut <= FrameOffset(layout, s)
        || FrameOffset(layout, s) + FrameSizeOut <= FrameOffset(layout, sk)
    {
      var sk := RingFrame(t, k, size);
      if sk < s {
        FramesDisjoint(layout, sk, s);
      } else if s < sk {
        FramesDisjoint(layout, s, sk);
      }
    }
  }

  /** One more iteration of the write loop extends the layout by frame i. */
  lemma WriteStep(layout: Layout, a: seq<bv8>, before: seq<bv8>, t: u64, i: nat, size: nat, src: seq<bv8>, a2: seq<bv8>)
    requires size > 0 && S24Frame * size <= |src|
    requires Laid(a, before, WriteOffsets(layout, t, i, size), WriteFrames(t, i, size, src), FrameSizeOut)
    requires var s := RingFrame(t, i, size); var o := FrameOffset(layout, s);
      o + FrameSizeOut <= |a|
      && a2 == a[..o] + PloytecCodec.Encode(src[S24Frame * s..S24Frame * s + S24Frame]) + a[o + FrameSizeOut..]
    ensures Laid(a2, before, WriteOffsets(layout, t, i + 1, size), WriteFrames(t, i + 1, size, src), FrameSizeOut)
  {
    var s := RingFrame(t, i, size);
    WriteSeparated(layout, t, i, size, src);
    LaidStep(a, before, WriteOffsets(layout, t, i, size), WriteFrames(t, i, size, src), FrameSizeOut,
             FrameOffset(layout, s), PloytecCodec.Encode(src[S24Frame * s..S24Frame * s + S24Frame]), a2);
    WriteSeqsSnoc(layout, t, i, size, src);
  }

  /** A completed write loop leaves every gap byte of the output ring as it was. */
  lemma GapBytesKept(layout: Layout, a: seq<bv8>, before: seq<bv8>, t: u64, n: nat, size: nat, src: seq<bv8>)
    requires size > 0 && S24Frame * size <= |src|
    requires Laid(a, before, WriteOffsets(layout, t, n, size), WriteFrames(t, n, size, src), FrameSizeOut)
    ensures GapsKept(layout, a, before)
  {
    var offs := WriteOffsets(layout, t, n, size);
    forall b: nat, d: nat | d < GapWidth(layout) && GapByte(layout, b, d) < |a|
      ensures a[GapByte(layout, b, d)] == before[GapByte(layout, b, d)]
    {
      forall k | 0 <= k < n
        ensures GapByte(layout, b, d) < offs[k] || offs[k] + FrameSizeOut <= GapByte(layout, b, d)
      {
        GapBytesOutsideFrames(layout, RingFrame(t, k, size), b, d);
      }
      assert Outside(offs, FrameSizeOut, GapByte(layout, b, d));
    }
  }

  /** The read loop's offsets and frames after i + 1 iterations extend those after i. */
  lemma ReadSeqsSnoc(t: u64, i: nat, size: nat, src: seq<bv8>)
    requires size > 0 && FrameSizeIn * size <= |src|
    ensures var s := RingFrame(t, i, size);
      ReadOffsets(t, i + 1, size) == ReadOffsets(t, i, size) + [S24Frame * s]
      && ReadFrames(t, i + 1, size, src) == ReadFrames(t, i, size, src) + [PloytecCodec.Decode(src[FrameSizeIn * s..FrameSizeIn * s + FrameSizeIn])]
  {
  }

  /** One more iteration of the read loop extends the layout by frame i. */
  lemma ReadStep(a: seq<bv8>, before: seq<bv8>, t: u64, i: nat, size: nat, src: seq<bv8>, a2: seq<bv8>)
    requires size > 0 && FrameSizeIn * size <= |src|
    requires S24Frame * size <= |a|
    requires Laid(a, before, ReadOffsets(t, i, size), ReadFrames(t, i, size, src), S24Frame)
    requires var s := RingFrame(t, i, size);
      a2 == a[..S24Frame * s] + PloytecCodec.Decode(src[FrameSizeIn * s..FrameSizeIn * s + FrameSizeIn]) + a[S24Frame * s + S24Frame..]
    ensures Laid(a2, before, ReadOffsets(t, i + 1, size), ReadFrames(t, i + 1, size, src), S24Frame)
  {
    var s := RingFrame(t, i, size);
    var f := PloytecCodec.Decode(src[FrameSizeIn * s..FrameSizeIn * s + FrameSizeIn]);
    var offs, frames := ReadOffsets(t, i, size), ReadFrames(t, i, size, src);
    forall k | 0 <= k < i
      ensures (offs[k] == S24Frame * s && frames[k] == f) || offs[k] + S24Frame <= S24Frame * s || S24Frame * s + S24Frame <= offs[k]
    {
      var sk := RingFrame(t, k, size);
      assert offs[k] == S24Frame * sk;
      if sk == s {
        assert frames[k] == f;
      } else if sk < s {
        assert sk + 1 <= s;
      } else {
        assert s + 1 <= sk;
      }
    }
    LaidStep(a, before, offs, frames, S24Frame, S24Frame * s, f, a2);
    ReadSeqsSnoc(t, i, size, src);
  }

  /** One iteration of the write loop: CoreAudio frame (t + i) mod size encoded at its ring offset. */
  method EncodeCycleFrame(layout: Layout, dest: array<bv8>, src: seq<bv8>, ghost before: seq<bv8>, t: u64, i: nat, size: nat)
    requires size > 0
    requires RingBytes(layout, size) <= dest.Length
    requires S24Frame * size <= |src|
    requires Laid(dest[..], before, WriteOffsets(layout, t, i, size), WriteFrames(t, i, size, src), FrameSizeOut)
    modifies dest
    ensures Laid(dest[..], before, WriteOffsets(layout, t, i + 1, size), WriteFrames(t, i + 1, size, src), FrameSizeOut)
  {
    var s := RingFrame(t, i, size);
    FrameFits(layout, s, size);
    ghost var cur := dest[..];
    PloytecCodec.EncodeInto(dest, FrameOffset(layout, s), src[S24Frame * s..S24Frame * s + S24Frame]);
    WriteStep(layout, cur, before, t, i, size, src, dest[..]);
  }

  /**
   * The frame loop of WriteEnd: encode CoreAudio frames (t + i) mod size,
   * i < n, into the output ring at the layout's offsets; the gap bytes keep
   * their values.
   */
  method EncodeCycle(layout: Layout, dest: array<bv8>, src: seq<bv8>, t: u64, n: nat, size: nat)
    requires size > 0
    requires RingBytes(layout, size) <= dest.Length
    requires S24Frame * size <= |src|
    modifies dest
    ensures Laid(dest[..], old(dest[..]), WriteOffsets(layout, t, n, size), WriteFrames(t, n, size, src), FrameSizeOut)
    ensures GapsKept(layout, dest[..], old(dest[..]))
  {
    ghost var before := dest[..];
    LaidNothing(before, FrameSizeOut);
    var i: nat := 0;
    while i < n
      invariant i <= n
      invariant Laid(dest[..], before, WriteOffsets(layout, t, i, size), WriteFrames(t, i, size, src), FrameSizeOut)
    {
      EncodeCycleFrame(layout, dest, src, before, t, i, size);
      i := i + 1;
    }
    GapBytesKept(layout, dest[..], before, t, n, size, src);
  }

  /** One iteration of the read loop: USB ring frame (t + i) mod size decoded into CoreAudio's ring. */
  method DecodeCycleFrame(dest: array<bv8>, src: seq<bv8>, ghost before: seq<bv8>, t: u64, i: nat, size: nat)
    requires size > 0
    requires S24Frame * size <= dest.Length
    requires FrameSizeIn * size <= |src|
    requires Laid(dest[..], before, ReadOffsets(t, i, size), ReadFrames(t, i, size, src), S24Frame)
    modifies dest
    ensures Laid(dest[..], before, ReadOffsets(t, i + 1, size), ReadFrames(t, i + 1, size, src), S24Frame)
  {
    var s := RingFrame(t, i, size);
    ghost var cur := dest[..];
    PloytecCodec.DecodeInto(dest, S24Frame * s, src[FrameSizeIn * s..FrameSizeIn * s + FrameSizeIn]);
    ReadStep(cur, before, t, i, size, src, dest[..]);
  }

  /**
   * The frame loop of BeginRead: decode USB ring frames (t + i) mod size,
   * i < n, from byte 64 s of the input ring into CoreAudio's input ring.
   */
  method DecodeCycle(dest: array<bv8>, src: seq<bv8>, t: u64, n: nat, size: nat)
    requires size > 0
    requires S24Frame * size <= dest.Length
    requires FrameSizeIn * size <= |src|
    modifies dest
    ensures Laid(dest[..], old(dest[..]), ReadOffsets(t, n, size), ReadFrames(t, n, size, src), S24Frame)
  {
    ghost var before := dest[..];
    LaidNothing(before, S24Frame);
    var i: nat := 0;
    while i < n
      invariant i <= n
      invariant Laid(dest[..], before, ReadOffsets(t, i, size), ReadFrames(t, i, size, src), S24Frame)
    {
      DecodeCycleFrame(dest, src, before, t, i, size);
      i := i + 1;
    }
  }

  /** The write side is out of step when its counter lies outside [t - (period - n), t]. */
  predicate OutOfStepOut(usb: u64, t: u64, period: u32, n: u32)
  {
    usb < Sub64(t, Sub32(period, n)) || usb > t
  }

  /** The read side is out of step when its counter lies outside [t, t + (period - n)]. */
  predicate OutOfStepIn(usb: u64, t: u64, period: u32, n: u32)
  {
    usb > Add64(t, Sub32(period, n)) || usb < t
  }
}
