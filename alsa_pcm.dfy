// The packet side of the linux-alsa/ driver (linux-alsa/pcm.c): the two
// converter helpers that copy one 512-byte packet between the URB and the
// DMA ring, and the capture and playback packet steps built on them.
//
// The converters are modelled twice. The "as written" versions follow the
// wrap branch of the code literally: its second loop keeps the index of the
// first and measures its bound by the bytes left over, so part of the
// packet is dropped or misplaced. The corrected versions, used by the
// packet steps, move the second part to the ring head.
module AlsaPcm {
  import opened Wrappers
  import opened PcmStream
  import opened SampleRate
  import Wrap

  /** XDB4_PCM_PACKET_SIZE */
  const PacketSize: nat := 512
  /** XDB4_PLAYBACK_SAMPLES_PER_PACKET / 2 */
  const PlaybackFrames: nat := 10
  /** XDB4_CAPTURE_SAMPLES_PER_PACKET / 2 */
  const CaptureFrames: nat := 8
  const PlaybackPacket: nat := BytesPerFrame * PlaybackFrames
  const CapturePacket: nat := BytesPerFrame * CaptureFrames
  /** Bytes of one device frame in the URB, both directions. */
  const OutFrameSize: nat := 48
  const InFrameSize: nat := 64
  /** Where the sync bytes of an output packet start. */
  const SyncAt: nat := 480
  /** period_bytes_min of the hardware description: 20 playback packets. */
  const MinPeriodBytes: nat := 20 * PlaybackPacket

  function Max(a: nat, b: nat): nat
  {
    if a < b then b else a
  }

  // ---------------------------------------------------------------------
  // As written
  // ---------------------------------------------------------------------

  /**
   * How many frames the wrap branch of either converter processes as
   * written: len / 24 in the first loop, then the second loop continues
   * with the same index up to (n - len) / 24.
   */
  function WrapCountAsWritten(n: nat, len: nat): nat
    requires len <= n
  {
    Max(len / BytesPerFrame, (n - len) / BytesPerFrame)
  }

  /** Call i of convert_capture's wrap branch as written: src2 is read with the index i. */
  function CaptureOpAsWritten(dest: Ptr, src1: Ptr, src2: Ptr, len: nat, i: nat): Op
  {
    Convert(Shift(dest, BytesPerFrame * i),
            if i < len / BytesPerFrame then Shift(src1, InFrameSize * i) else Shift(src2, InFrameSize * i))
  }

  /** Call i of convert_playback's wrap branch as written. */
  function PlaybackOpAsWritten(dest: Ptr, src1: Ptr, src2: Ptr, len: nat, i: nat): Op
  {
    Convert(Shift(dest, OutFrameSize * i),
            if i < len / BytesPerFrame then Shift(src1, BytesPerFrame * i) else Shift(src2, BytesPerFrame * i))
  }

  /**
   * convert_capture as the code has it. Without src2 it converts the
   * eight frames from src1 to dest. With src2 (the ring head, passed when
   * the packet wraps) it converts len / 24 frames from src1 and then keeps
   * going with the same index from src2 into dest, up to (n - len) / 24.
   */
  method ConvertCaptureAsWritten(dest: Ptr, src1: Ptr, n: nat, src2: Option<Ptr>, len: nat) returns (ops: seq<Op>)
    requires src2.Some? ==> len <= n
    ensures src2.None? ==> |ops| == CaptureFrames
    ensures src2.None? ==> forall i :: 0 <= i < CaptureFrames ==>
      ops[i] == Convert(Shift(dest, BytesPerFrame * i), Shift(src1, InFrameSize * i))
    ensures src2.Some? ==> |ops| == WrapCountAsWritten(n, len)
    ensures src2.Some? ==> forall i :: 0 <= i < |ops| ==> ops[i] == CaptureOpAsWritten(dest, src1, src2.value, len, i)
  {
    ops := [];
    var i := 0;
    if src2.None? {
      while i < CaptureFrames
        invariant i <= CaptureFrames && |ops| == i
        invariant forall j :: 0 <= j < i ==> ops[j] == Convert(Shift(dest, BytesPerFrame * j), Shift(src1, InFrameSize * j))
      {
        ops := ops + [Convert(Shift(dest, BytesPerFrame * i), Shift(src1, InFrameSize * i))];
        i := i + 1;
      }
    } else {
      while i < len / BytesPerFrame
        invariant i <= len / BytesPerFrame && |ops| == i
        invariant forall j :: 0 <= j < i ==> ops[j] == CaptureOpAsWritten(dest, src1, src2.value, len, j)
      {
        ops := ops + [Convert(Shift(dest, BytesPerFrame * i), Shift(src1, InFrameSize * i))];
        i := i + 1;
      }
      while i < (n - len) / BytesPerFrame
        invariant len / BytesPerFrame <= i && |ops| == i
        invariant i <= WrapCountAsWritten(n, len)
        invariant forall j :: 0 <= j < i ==> ops[j] == CaptureOpAsWritten(dest, src1, src2.value, len, j)
      {
        ops := ops + [Convert(Shift(dest, BytesPerFrame * i), Shift(src2.value, InFrameSize * i))];
        i := i + 1;
      }
    }
  }

  /**
   * convert_playback as the code has it: the same two loops with the
   * playback strides (48 into the URB, 24 out of the ring), then the sync
   * bytes at dest + 480.
   */
  method ConvertPlaybackAsWritten(dest: Ptr, src1: Ptr, n: nat, src2: Option<Ptr>, len: nat) returns (ops: seq<Op>)
    requires src2.Some? ==> len <= n
    ensures src2.None? ==> |ops| == PlaybackFrames + 1
    ensures src2.None? ==> forall i :: 0 <= i < PlaybackFrames ==>
      ops[i] == Convert(Shift(dest, OutFrameSize * i), Shift(src1, BytesPerFrame * i))
    ensures src2.Some? ==> |ops| == WrapCountAsWritten(n, len) + 1
    ensures src2.Some? ==> forall i :: 0 <= i < |ops| - 1 ==> ops[i] == PlaybackOpAsWritten(dest, src1, src2.value, len, i)
    ensures ops[|ops| - 1] == Sync(Shift(dest, SyncAt))
  {
    ops := [];
    var i := 0;
    if src2.None? {
      while i < PlaybackFrames
        invariant i <= PlaybackFrames && |ops| == i
        invariant forall j :: 0 <= j < i ==> ops[j] == Convert(Shift(dest, OutFrameSize * j), Shift(src1, BytesPerFrame * j))
      {
        ops := ops + [Convert(Shift(dest, OutFrameSize * i), Shift(src1, BytesPerFrame * i))];
        i := i + 1;
      }
    } else {
      while i < len / BytesPerFrame
        invariant i <= len / BytesPerFrame && |ops| == i
        invariant forall j :: 0 <= j < i ==> ops[j] == PlaybackOpAsWritten(dest, src1, src2.value, len, j)
      {
        ops := ops + [Convert(Shift(dest, OutFrameSize * i), Shift(src1, BytesPerFrame * i))];
        i := i + 1;
      }
      while i < (n - len) / BytesPerFrame
        invariant len / BytesPerFrame <= i && |ops| == i
        invariant i <= WrapCountAsWritten(n, len)
        invariant forall j :: 0 <= j < i ==> ops[j] == PlaybackOpAsWritten(dest, src1, src2.value, len, j)
      {
        ops := ops + [Convert(Shift(dest, OutFrameSize * i), Shift(src2.value, BytesPerFrame * i))];
        i := i + 1;
      }
    }
    ops := ops + [Sync(Shift(dest, SyncAt))];
  }

  /**
   * A ring of two 201-frame periods (9648 bytes) with the capture position
   * at 9600 leaves len = 48. As written the wrap branch converts only six
   * of the eight frames, and its third call writes at byte 9648 of the
   * ring, one past its end, reading from the ring itself.
   */
  lemma CaptureWrapOverrun()
    ensures WrapCountAsWritten(CapturePacket, 48) == 6
    ensures CaptureOpAsWritten(Ptr(Dma, 9600), Ptr(Urb, 0), Ptr(Dma, 0), 48, 2) == Convert(Ptr(Dma, 9648), Ptr(Dma, 128))
    ensures 9600 + CapturePacket > 9648 && Aligned(9600, 9648) && MinPeriodBytes <= 9648 / 2
  {
  }

  /**
   * The same ring for playback: as written only eight frames of the
   * packet are converted, and the first frame taken from the ring head is
   * read from byte 48 instead of byte 0.
   */
  lemma PlaybackWrapMisreads()
    ensures WrapCountAsWritten(PlaybackPacket, 48) == 8
    ensures PlaybackOpAsWritten(Ptr(Urb, 0), Ptr(Dma, 9600), Ptr(Dma, 0), 48, 2) == Convert(Ptr(Urb, 96), Ptr(Dma, 48))
    ensures 9600 + PlaybackPacket > 9648 && Aligned(9600, 9648)
  {
  }

  // ---------------------------------------------------------------------
  // Corrected
  // ---------------------------------------------------------------------

  /**
   * Call i of the corrected capture wrap: the first len / 24 frames go to
   * dest1, the rest to dest2 counted from its start.
   */
  function CaptureWrapOp(dest1: Ptr, src: Ptr, dest2: Ptr, len: nat, i: nat): Op
  {
    var t := len / BytesPerFrame;
    Convert(if i < t then Shift(dest1, BytesPerFrame * i) else Shift(dest2, BytesPerFrame * (i - t)),
            Shift(src, InFrameSize * i))
  }

  /** Call i of the corrected playback wrap: the rest of the frames come from src2 counted from its start. */
  function PlaybackWrapOp(dest: Ptr, src1: Ptr, src2: Ptr, len: nat, i: nat): Op
  {
    var t := len / BytesPerFrame;
    Convert(Shift(dest, OutFrameSize * i),
            if i < t then Shift(src1, BytesPerFrame * i) else Shift(src2, BytesPerFrame * (i - t)))
  }

  /**
   * convert_capture with the wrap branch corrected: after len / 24 frames
   * into dest1 the second loop runs on to n / 24 frames, writing to dest2
   * from its start.
   */
  method ConvertCapture(dest1: Ptr, src: Ptr, n: nat, dest2: Option<Ptr>, len: nat) returns (ops: seq<Op>)
    requires dest2.Some? ==> len <= n
    ensures dest2.None? ==> |ops| == CaptureFrames
    ensures dest2.None? ==> forall i :: 0 <= i < CaptureFrames ==>
      ops[i] == Convert(Shift(dest1, BytesPerFrame * i), Shift(src, InFrameSize * i))
    ensures dest2.Some? ==> |ops| == n / BytesPerFrame
    ensures dest2.Some? ==> forall i :: 0 <= i < |ops| ==> ops[i] == CaptureWrapOp(dest1, src, dest2.value, len, i)
  {
    ops := [];
    var i := 0;
    if dest2.None? {
      while i < CaptureFrames
        invariant i <= CaptureFrames && |ops| == i
        invariant forall j :: 0 <= j < i ==> ops[j] == Convert(Shift(dest1, BytesPerFrame * j), Shift(src, InFrameSize * j))
      {
        ops := ops + [Convert(Shift(dest1, BytesPerFrame * i), Shift(src, InFrameSize * i))];
        i := i + 1;
      }
    } else {
      var t := len / BytesPerFrame;
      while i < t
        invariant i <= t && |ops| == i
        invariant forall j :: 0 <= j < i ==> ops[j] == CaptureWrapOp(dest1, src, dest2.value, len, j)
      {
        ops := ops + [Convert(Shift(dest1, BytesPerFrame * i), Shift(src, InFrameSize * i))];
        i := i + 1;
      }
      while i < n / BytesPerFrame
        invariant t <= i && |ops| == i
        invariant i <= n / BytesPerFrame
        invariant forall j :: 0 <= j < i ==> ops[j] == CaptureWrapOp(dest1, src, dest2.value, len, j)
      {
        ops := ops + [Convert(Shift(dest2.value, BytesPerFrame * (i - t)), Shift(src, InFrameSize * i))];
        i := i + 1;
      }
    }
  }

  /** convert_playback with the wrap branch corrected, followed by the sync bytes at dest + 480. */
  method ConvertPlayback(dest: Ptr, src1: Ptr, n: nat, src2: Option<Ptr>, len: nat) returns (ops: seq<Op>)
    requires src2.Some? ==> len <= n
    ensures src2.None? ==> |ops| == PlaybackFrames + 1
    ensures src2.None? ==> forall i :: 0 <= i < PlaybackFrames ==>
      ops[i] == Convert(Shift(dest, OutFrameSize * i), Shift(src1, BytesPerFrame * i))
    ensures src2.Some? ==> |ops| == n / BytesPerFrame + 1
    ensures src2.Some? ==> forall i :: 0 <= i < |ops| - 1 ==> ops[i] == PlaybackWrapOp(dest, src1, src2.value, len, i)
    ensures ops[|ops| - 1] == Sync(Shift(dest, SyncAt))
  {
    ops := [];
    var i := 0;
    if src2.None? {
      while i < PlaybackFrames
        invariant i <= PlaybackFrames && |ops| == i
        invariant forall j :: 0 <= j < i ==> ops[j] == Convert(Shift(dest, OutFrameSize * j), Shift(src1, BytesPerFrame * j))
      {
        ops := ops + [Convert(Shift(dest, OutFrameSize * i), Shift(src1, BytesPerFrame * i))];
        i := i + 1;
      }
    } else {
      var t := len / BytesPerFrame;
      while i < t
        invariant i <= t && |ops| == i
        invariant forall j :: 0 <= j < i ==> ops[j] == PlaybackWrapOp(dest, src1, src2.value, len, j)
      {
        ops := ops + [Convert(Shift(dest, OutFrameSize * i), Shift(src1, BytesPerFrame * i))];
        i := i + 1;
      }
      while i < n / BytesPerFrame
        invariant t <= i && |ops| == i
        invariant i <= n / BytesPerFrame
        invariant forall j :: 0 <= j < i ==> ops[j] == PlaybackWrapOp(dest, src1, src2.value, len, j)
      {
        ops := ops + [Convert(Shift(dest, OutFrameSize * i), Shift(src2.value, BytesPerFrame * (i - t)))];
        i := i + 1;
      }
    }
    ops := ops + [Sync(Shift(dest, SyncAt))];
  }

  // ---------------------------------------------------------------------
  // Packet steps
  // ---------------------------------------------------------------------

  /** The converter call that carries capture frame k of the packet at dmaOff. */
  function CaptureOp(dmaOff: nat, size: nat, k: nat): Op
    requires size > 0
  {
    Convert(Ptr(Dma, RingPos(dmaOff, k, size)), Ptr(Urb, InFrameSize * k))
  }

  /** The converter call that carries playback frame k of the packet at dmaOff. */
  function PlaybackOp(dmaOff: nat, size: nat, k: nat): Op
    requires size > 0
  {
    Convert(Ptr(Urb, OutFrameSize * k), Ptr(Dma, RingPos(dmaOff, k, size)))
  }

  /**
   * The conversion half of xonedb4_pcm_capture: a packet that fits before
   * the ring end is converted straight to dma_off; otherwise the bytes left
   * to the end (len) are passed along with the ring head. Every frame k of
   * the URB lands at ring position k of the packet.
   */
  method CaptureOps(dmaOff: nat, size: nat) returns (ops: seq<Op>)
    requires Aligned(dmaOff, size) && CapturePacket <= size
    ensures |ops| == CaptureFrames
    ensures forall k :: 0 <= k < CaptureFrames ==> ops[k] == CaptureOp(dmaOff, size, k)
  {
    if dmaOff + CapturePacket <= size {
      ops := ConvertCapture(Ptr(Dma, dmaOff), Ptr(Urb, 0), CapturePacket, None, 0);
    } else {
      var len := size - dmaOff;
      ops := ConvertCapture(Ptr(Dma, dmaOff), Ptr(Urb, 0), CapturePacket, Some(Ptr(Dma, 0)), len);
    }
    forall k | 0 <= k < CaptureFrames
      ensures ops[k] == CaptureOp(dmaOff, size, k)
    {
      RingPosCases(dmaOff, size, CaptureFrames, k);
    }
  }

  /**
   * The conversion half of xonedb4_pcm_playback: ten frames read from ring
   * position k of the packet into URB offset 48 k, then the sync bytes at
   * 480, after the last frame.
   */
  method PlaybackOps(dmaOff: nat, size: nat) returns (ops: seq<Op>)
    requires Aligned(dmaOff, size) && PlaybackPacket <= size
    ensures |ops| == PlaybackFrames + 1
    ensures forall k :: 0 <= k < PlaybackFrames ==> ops[k] == PlaybackOp(dmaOff, size, k)
    ensures ops[PlaybackFrames] == Sync(Ptr(Urb, SyncAt))
    ensures OutFrameSize * PlaybackFrames <= SyncAt
  {
    if dmaOff + PlaybackPacket <= size {
      ops := ConvertPlayback(Ptr(Urb, 0), Ptr(Dma, dmaOff), PlaybackPacket, None, 0);
    } else {
      var len := size - dmaOff;
      ops := ConvertPlayback(Ptr(Urb, 0), Ptr(Dma, dmaOff), PlaybackPacket, Some(Ptr(Dma, 0)), len);
    }
    forall k | 0 <= k < PlaybackFrames
      ensures ops[k] == PlaybackOp(dmaOff, size, k)
    {
      RingPosCases(dmaOff, size, PlaybackFrames, k);
    }
  }

  /** xonedb4_pcm_capture: the packet's eight frames, then the position moves 192 bytes on. */
  method Capture(sub: Substream) returns (ops: seq<Op>, elapsed: bool)
    requires sub.Valid() && MinPeriodBytes <= sub.periodBytes
    modifies sub`dmaOff, sub`periodOff, sub`consumed, sub`reported
    ensures |ops| == CaptureFrames
    ensures forall k :: 0 <= k < CaptureFrames ==> ops[k] == CaptureOp(old(sub.dmaOff), sub.bufferBytes, k)
    ensures sub.Valid() && sub.consumed == old(sub.consumed) + CapturePacket
    ensures sub.dmaOff == RingPos(old(sub.dmaOff), CaptureFrames, sub.bufferBytes)
    ensures elapsed <==> sub.consumed / sub.periodBytes == old(sub.consumed) / sub.periodBytes + 1
  {
    sub.ValidAligned();
    ops := CaptureOps(sub.dmaOff, sub.bufferBytes);
    elapsed := sub.Advance(CapturePacket);
  }

  /** xonedb4_pcm_playback: the packet's ten frames and sync bytes, then the position moves 240 bytes on. */
  method Playback(sub: Substream) returns (ops: seq<Op>, elapsed: bool)
    requires sub.Valid() && MinPeriodBytes <= sub.periodBytes
    modifies sub`dmaOff, sub`periodOff, sub`consumed, sub`reported
    ensures |ops| == PlaybackFrames + 1
    ensures forall k :: 0 <= k < PlaybackFrames ==> ops[k] == PlaybackOp(old(sub.dmaOff), sub.bufferBytes, k)
    ensures ops[PlaybackFrames] == Sync(Ptr(Urb, SyncAt))
    ensures sub.Valid() && sub.consumed == old(sub.consumed) + PlaybackPacket
    ensures sub.dmaOff == RingPos(old(sub.dmaOff), PlaybackFrames, sub.bufferBytes)
    ensures elapsed <==> sub.consumed / sub.periodBytes == old(sub.consumed) / sub.periodBytes + 1
  {
    sub.ValidAligned();
    ops := PlaybackOps(sub.dmaOff, sub.bufferBytes);
    elapsed := sub.Advance(PlaybackPacket);
  }

  /**
   * Both packet steps compare period_off, which counts bytes, with
   * period_size, which ALSA counts in frames. With 1024-frame periods
   * playback reports after its fifth 240-byte packet and capture after
   * its sixth 192-byte packet, where a 24576-byte period first completes
   * at packet 103 and 128 respectively; at the shortest period the
   * hardware table admits (4800 bytes, 200 frames) every playback packet
   * reports, twenty times as often as the ring completes periods.
   */
  lemma PeriodInFramesReportsEarly(m: nat)
    ensures PeriodRun(m, PlaybackPacket, 1024).1 == 0 <==> m <= 4
    ensures PeriodRun(m, CapturePacket, 1024).1 == 0 <==> m <= 5
    ensures PeriodRun(m, PlaybackPacket, 1024 * BytesPerFrame).1 == 0 <==> m <= 102
    ensures PeriodRun(m, CapturePacket, 1024 * BytesPerFrame).1 == 0 <==> m <= 127
    ensures PeriodRun(m, PlaybackPacket, MinPeriodBytes / BytesPerFrame).1 == m
    ensures PeriodRun(m, PlaybackPacket, MinPeriodBytes).1 == m / 20
  {
    assert PlaybackPacket == 240 && CapturePacket == 192 && 1024 * BytesPerFrame == 24576;
    assert MinPeriodBytes == 4800 && MinPeriodBytes / BytesPerFrame == 200;
    FirstReport(m, 240, 1024);
    FirstReport(m, 192, 1024);
    FirstReport(m, 240, 24576);
    FirstReport(m, 192, 24576);
    PeriodRunReports(m, 240, 200);
    PeriodRunReports(m, 240, 4800);
    assert (m * 240) / 4800 == m / 20 by {
      Wrap.ModUnique(m * 240, m / 20, (m % 20) * 240, 4800);
    }
  }
}
