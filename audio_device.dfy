// AudioDevice: the earlier AudioDriverKit device of the Xone:DB4 driver on
// the bulk endpoint.  Each USB packet carries 80 frames: eight 512-byte
// sub-packets of ten 48-byte frames, each closed by 32 sync bytes (0xFD,
// 0xFF, 30 zeros).  The USB counters follow CoreAudio's client I/O time,
// corrected when they drift more than a buffer apart.
module AudioDevice {
  import opened Wrap
  import opened FrameLayout
  import opened IoRing
  import PloytecCodec

  /** CoreAudio ring size in frames, which is also the zero-timestamp period. */
  const BufferFrames: nat := 640
  const TotalFramesOut: nat := 80
  const TotalFramesIn: nat := 80
  const SubPacketBytes: nat := 512
  const PcmSizeOut: nat := 8 * 512
  const PcmSizeIn: nat := 10 * 512
  const SyncOffset: nat := 480
  const SyncBytes: nat := 32

  datatype Status = Success | OtherStatus(code: int)

  /** Which buffer an AsyncIO call was given. */
  datatype Submission = DataPacket | EmptyPacket

  /** The 32 bytes ploytec_sync_bytes writes. */
  function SyncPattern(): (r: seq<bv8>)
    ensures |r| == SyncBytes && r[0] == 0xFD && r[1] == 0xFF
    ensures forall i :: 2 <= i < SyncBytes ==> r[i] == 0
  {
    [0xFD, 0xFF] + seq(30, _ => 0)
  }

  /** ploytec_sync_bytes: write the 32-byte sync pattern at `off`, and nothing else. */
  method WriteSyncBytes(dest: array<bv8>, off: nat)
    requires off + SyncBytes <= dest.Length
    modifies dest
    ensures dest[..] == old(dest[..off]) + SyncPattern() + old(dest[off + SyncBytes..])
  {
    ghost var before := dest[..];
    var pattern := SyncPattern();
    var k := 0;
    while k < SyncBytes
      invariant 0 <= k <= SyncBytes
      invariant forall j :: 0 <= j < dest.Length && !(off <= j < off + k) ==> dest[j] == before[j]
      invariant forall j :: off <= j < off + k ==> dest[j] == pattern[j - off]
    {
      dest[off + k] := pattern[k];
      k := k + 1;
    }
    assert dest[..] == before[..off] + pattern + before[off + SyncBytes..];
  }

  /** The sync-pattern offsets init writes: byte 480 of each of the eight sub-packets. */
  function SyncOffsets(packetSize: nat): (r: seq<int>)
    ensures |r| == 8
  {
    seq(8, i requires 0 <= i < 8 => SyncOffset + i * packetSize)
  }

  function SyncFrames(n: nat): (r: seq<seq<bv8>>)
    ensures |r| == n && forall k :: 0 <= k < n ==> r[k] == SyncPattern()
  {
    seq(n, _ => SyncPattern())
  }

  /** Packet k ends no later than packet i starts. */
  lemma {:induction false} PacketsApart(k: nat, i: nat, packetSize: nat)
    requires k < i
    ensures k * packetSize + packetSize <= i * packetSize
    decreases i - k
  {
    assert i * packetSize == (i - 1) * packetSize + packetSize;
    if k + 1 < i {
      PacketsApart(k, i - 1, packetSize);
    }
  }

  /** The i-th sync pattern lies clear of the earlier ones, and the layout grows by it. */
  lemma SyncStep(a: seq<bv8>, before: seq<bv8>, packetSize: nat, i: nat, a2: seq<bv8>)
    requires SyncBytes <= packetSize && i < 8
    requires Laid(a, before, SyncOffsets(packetSize)[..i], SyncFrames(i), SyncBytes)
    requires var o := SyncOffset + i * packetSize;
      o + SyncBytes <= |a| && a2 == a[..o] + SyncPattern() + a[o + SyncBytes..]
    ensures Laid(a2, before, SyncOffsets(packetSize)[..i + 1], SyncFrames(i + 1), SyncBytes)
  {
    var o := SyncOffset + i * packetSize;
    var offs := SyncOffsets(packetSize)[..i];
    forall k | 0 <= k < i
      ensures offs[k] + SyncBytes <= o
    {
      assert offs[k] == SyncOffset + k * packetSize;
      PacketsApart(k, i, packetSize);
    }
    LaidStep(a, before, offs, SyncFrames(i), SyncBytes, o, SyncPattern(), a2);
    assert SyncOffsets(packetSize)[..i + 1] == offs + [o];
    assert SyncFrames(i + 1) == SyncFrames(i) + [SyncPattern()];
  }

  /** init's loop over a packet buffer: a sync pattern at 480 + i * packetSize for i < 8. */
  method InitSyncBytes(dest: array<bv8>, packetSize: nat)
    requires SyncBytes <= packetSize
    requires SyncOffset + 7 * packetSize + SyncBytes <= dest.Length
    modifies dest
    ensures Laid(dest[..], old(dest[..]), SyncOffsets(packetSize), SyncFrames(8), SyncBytes)
  {
    ghost var before := dest[..];
    LaidNothing(before, SyncBytes);
    var i := 0;
    while i < 8
      invariant 0 <= i <= 8
      invariant Laid(dest[..], before, SyncOffsets(packetSize)[..i], SyncFrames(i), SyncBytes)
    {
      ghost var cur := dest[..];
      var off := SyncOffset + i * packetSize;
      assert i * packetSize <= 7 * packetSize;
      WriteSyncBytes(dest, off);
      SyncStep(cur, before, packetSize, i, dest[..]);
      i := i + 1;
    }
    assert SyncOffsets(packetSize)[..8] == SyncOffsets(packetSize);
  }

  /** Byte offset of packet frame i: frame i mod 10 of sub-packet i div 10, as written. */
  function PacketFrameOffset(i: nat): nat
  {
    (i / 10) * SubPacketBytes + (i % 10) * FrameSizeOut
  }

  /** The packet layout is the bulk ring layout. */
  lemma PacketFrameOffsetIsBulk(i: nat)
    ensures PacketFrameOffset(i) == FrameOffset(Bulk, i)
  {
    FrameOffsetBlocks(Bulk, i);
  }

  /** Every one of the 80 frames fits in the 4096-byte packet. */
  lemma PacketFrameFits(i: nat)
    requires i < TotalFramesOut
    ensures PacketFrameOffset(i) + FrameSizeOut <= PcmSizeOut
  {
    assert i / 10 <= 7 && i % 10 <= 9;
  }

  function PacketOffsets(n: nat): (r: seq<int>)
    ensures |r| == n
  {
    seq(n, i requires 0 <= i < n => PacketFrameOffset(i))
  }

  /** The frames one send encodes: CoreAudio frame (usb + i) mod 640 for packet frame i. */
  function PacketFrames(usb: u64, n: nat, src: seq<bv8>): (r: seq<seq<bv8>>)
    requires S24Frame * BufferFrames <= |src|
    ensures |r| == n
  {
    seq(n, i requires 0 <= i < n =>
      var s := RingFrame(usb, i, BufferFrames); PloytecCodec.Encode(src[S24Frame * s..S24Frame * s + S24Frame]))
  }

  /** One more iteration of the send loop extends the packet layout by frame i. */
  lemma PacketStep(a: seq<bv8>, before: seq<bv8>, usb: u64, i: nat, src: seq<bv8>, a2: seq<bv8>)
    requires S24Frame * BufferFrames <= |src|
    requires Laid(a, before, PacketOffsets(i), PacketFrames(usb, i, src), FrameSizeOut)
    requires var s := RingFrame(usb, i, BufferFrames); var o := PacketFrameOffset(i);
      o + FrameSizeOut <= |a|
      && a2 == a[..o] + PloytecCodec.Encode(src[S24Frame * s..S24Frame * s + S24Frame]) + a[o + FrameSizeOut..]
    ensures Laid(a2, before, PacketOffsets(i + 1), PacketFrames(usb, i + 1, src), FrameSizeOut)
  {
    var s := RingFrame(usb, i, BufferFrames);
    var f := PloytecCodec.Encode(src[S24Frame * s..S24Frame * s + S24Frame]);
    forall k | 0 <= k < i
      ensures PacketOffsets(i)[k] + FrameSizeOut <= PacketFrameOffset(i)
    {
      PacketFrameOffsetIsBulk(k);
      PacketFrameOffsetIsBulk(i);
      FramesDisjoint(Bulk, k, i);
    }
    LaidStep(a, before, PacketOffsets(i), PacketFrames(usb, i, src), FrameSizeOut, PacketFrameOffset(i), f, a2);
    assert PacketOffsets(i + 1) == PacketOffsets(i) + [PacketFrameOffset(i)];
    assert PacketFrames(usb, i + 1, src) == PacketFrames(usb, i, src) + [f];
  }

  /** After the send loop, the sync bytes 480..511 of every sub-packet are as before. */
  lemma PacketSyncBytesKept(a: seq<bv8>, before: seq<bv8>, usb: u64, n: nat, src: seq<bv8>)
    requires S24Frame * BufferFrames <= |src|
    requires Laid(a, before, PacketOffsets(n), PacketFrames(usb, n, src), FrameSizeOut)
    ensures forall b: nat, d: nat :: d < SyncBytes && GapByte(Bulk, b, d) < |a| ==>
      a[GapByte(Bulk, b, d)] == before[GapByte(Bulk, b, d)]
  {
    forall b: nat, d: nat | d < SyncBytes && GapByte(Bulk, b, d) < |a|
      ensures a[GapByte(Bulk, b, d)] == before[GapByte(Bulk, b, d)]
    {
      forall k | 0 <= k < n
        ensures GapByte(Bulk, b, d) < PacketOffsets(n)[k] || PacketOffsets(n)[k] + FrameSizeOut <= GapByte(Bulk, b, d)
      {
        PacketFrameOffsetIsBulk(k);
        GapBytesOutsideFrames(Bulk, k, b, d);
      }
      assert Outside(PacketOffsets(n), FrameSizeOut, GapByte(Bulk, b, d));
    }
  }

  /** One iteration of the send loop: CoreAudio frame (usb mod 640) encoded as packet frame i. */
  method EncodePacketFrame(dest: array<bv8>, src: array<bv8>, ghost before: seq<bv8>, ghost usb0: u64, usb: u64, i: nat)
    requires dest != src && i < TotalFramesOut && usb == Add64(usb0, i)
    requires PcmSizeOut <= dest.Length && S24Frame * BufferFrames <= src.Length
    requires Laid(dest[..], before, PacketOffsets(i), PacketFrames(usb0, i, src[..]), FrameSizeOut)
    modifies dest
    ensures Laid(dest[..], before, PacketOffsets(i + 1), PacketFrames(usb0, i + 1, src[..]), FrameSizeOut)
  {
    var s := usb % BufferFrames;
    var o := PacketFrameOffset(i);
    PacketFrameFits(i);
    ghost var a := dest[..];
    PloytecCodec.EncodeInto(dest, o, src[S24Frame * s..S24Frame * s + S24Frame]);
    PacketStep(a, before, usb0, i, src[..], dest[..]);
  }

  /**
   * The frame loop of SendPCMToDevice: encode 80 frames into the packet,
   * frame i from CoreAudio frame (usb mod 640), advancing both counters
   * after each frame.
   */
  method EncodePacket(dest: array<bv8>, src: array<bv8>, usb0: u64, cur0: u16) returns (usb: u64, cur: u16)
    requires dest != src
    requires PcmSizeOut <= dest.Length && S24Frame * BufferFrames <= src.Length
    modifies dest
    ensures usb == Add64(usb0, TotalFramesOut) && cur == Add16(cur0, TotalFramesOut)
    ensures Laid(dest[..], old(dest[..]), PacketOffsets(TotalFramesOut), PacketFrames(usb0, TotalFramesOut, src[..]), FrameSizeOut)
    ensures forall b: nat, d: nat :: d < SyncBytes && GapByte(Bulk, b, d) < dest.Length ==>
      dest[GapByte(Bulk, b, d)] == old(dest[GapByte(Bulk, b, d)])
  {
    ghost var before, input := dest[..], src[..];
    LaidNothing(before, FrameSizeOut);
    usb, cur := usb0, cur0;
    var i: nat := 0;
    while i < TotalFramesOut
      invariant i <= TotalFramesOut
      invariant usb == Add64(usb0, i) && cur == (cur0 + i) % U16
      invariant Laid(dest[..], before, PacketOffsets(i), PacketFrames(usb0, i, input), FrameSizeOut)
    {
      EncodePacketFrame(dest, src, before, usb0, usb, i);
      Add64Step(usb0, i);
      usb := Add64(usb, 1);
      cur := (cur + 1) % U16;
      i := i + 1;
    }
    PacketSyncBytesKept(dest[..], before, usb0, TotalFramesOut, input);
    assert forall j :: 0 <= j < dest.Length ==> old(dest[j]) == before[j];
  }

  /** 2^64 leaves remainder 256 modulo 640. */
  lemma U64Mod640()
    ensures U64 == 640 * (U64 / 640) + 256
  {
  }

  /** Two naturals less than a ring apart, in order, sit in different ring frames. */
  lemma RingApart(x: nat, d: nat)
    requires 0 < d < BufferFrames
    ensures x % BufferFrames != (x + d) % BufferFrames
  {
  }

  /** Adding a whole number of rings keeps the ring frame. */
  lemma RingShift(x: nat, q: nat)
    ensures (x + BufferFrames * q) % BufferFrames == x % BufferFrames
  {
  }

  /** Fewer than 256 consecutive uint64 counter values fall in distinct frames of the 640-frame ring. */
  lemma RingFramesDistinct(usb: u64, i: nat, j: nat)
    requires i < j < 256
    ensures RingFrame(usb, i, BufferFrames) != RingFrame(usb, j, BufferFrames)
  {
    var x, y := Add64(usb, i), Add64(usb, j);
    if usb + j < U64 || usb + i >= U64 {
      assert y == x + (j - i);
      RingApart(x, j - i);
    } else {
      // the counter wraps between i and j: x == y + 2^64 - (j - i)
      U64Mod640();
      assert x == (y + (256 - (j - i))) + 640 * (U64 / 640);
      RingShift(y + (256 - (j - i)), U64 / 640);
      RingApart(y, 256 - (j - i));
    }
  }

  /** The CoreAudio offsets one receive writes: frame (usb + i) mod 640. */
  function CaptureOffsets(usb: u64, n: nat): (r: seq<int>)
    ensures |r| == n
  {
    seq(n, i requires 0 <= i < n => S24Frame * RingFrame(usb, i, BufferFrames))
  }

  /** The frames one receive decodes: packet frame i at byte 64 i. */
  function CaptureFrames(n: nat, src: seq<bv8>): (r: seq<seq<bv8>>)
    requires FrameSizeIn * n <= |src|
    ensures |r| == n
  {
    seq(n, i requires 0 <= i < n => PloytecCodec.Decode(src[FrameSizeIn * i..FrameSizeIn * i + FrameSizeIn]))
  }

  lemma CaptureSeqsSnoc(usb: u64, i: nat, src: seq<bv8>)
    requires FrameSizeIn * (i + 1) <= |src|
    ensures CaptureOffsets(usb, i + 1) == CaptureOffsets(usb, i) + [S24Frame * RingFrame(usb, i, BufferFrames)]
    ensures CaptureFrames(i + 1, src) == CaptureFrames(i, src) + [PloytecCodec.Decode(src[FrameSizeIn * i..FrameSizeIn * i + FrameSizeIn])]
  {
  }

  /** One more iteration of the receive loop extends the layout by frame i. */
  lemma CaptureStep(a: seq<bv8>, before: seq<bv8>, usb: u64, i: nat, src: seq<bv8>, a2: seq<bv8>)
    requires i < TotalFramesIn && FrameSizeIn * TotalFramesIn <= |src|
    requires S24Frame * BufferFrames <= |a|
    requires Laid(a, before, CaptureOffsets(usb, i), CaptureFrames(i, src), S24Frame)
    requires var o := S24Frame * RingFrame(usb, i, BufferFrames);
      a2 == a[..o] + PloytecCodec.Decode(src[FrameSizeIn * i..FrameSizeIn * i + FrameSizeIn]) + a[o + S24Frame..]
    ensures Laid(a2, before, CaptureOffsets(usb, i + 1), CaptureFrames(i + 1, src), S24Frame)
  {
    var s := RingFrame(usb, i, BufferFrames);
    var f := PloytecCodec.Decode(src[FrameSizeIn * i..FrameSizeIn * i + FrameSizeIn]);
    var offs, frames := CaptureOffsets(usb, i), CaptureFrames(i, src);
    forall k | 0 <= k < i
      ensures offs[k] + S24Frame <= S24Frame * s || S24Frame * s + S24Frame <= offs[k]
    {
      var sk := RingFrame(usb, k, BufferFrames);
      assert offs[k] == S24Frame * sk;
      RingFramesDistinct(usb, k, i);
      if sk < s {
        assert sk + 1 <= s;
      } else {
        assert s + 1 <= sk;
      }
    }
    LaidStep(a, before, offs, frames, S24Frame, S24Frame * s, f, a2);
    CaptureSeqsSnoc(usb, i, src);
  }

  /** One iteration of the receive loop: packet frame i decoded into CoreAudio frame (usb mod 640). */
  method DecodePacketFrame(dest: array<bv8>, src: array<bv8>, ghost before: seq<bv8>, ghost usb0: u64, usb: u64, i: nat)
    requires dest != src && i < TotalFramesIn && usb == Add64(usb0, i)
    requires S24Frame * BufferFrames <= dest.Length && FrameSizeIn * TotalFramesIn <= src.Length
    requires Laid(dest[..], before, CaptureOffsets(usb0, i), CaptureFrames(i, src[..]), S24Frame)
    modifies dest
    ensures Laid(dest[..], before, CaptureOffsets(usb0, i + 1), CaptureFrames(i + 1, src[..]), S24Frame)
  {
    var s := usb % BufferFrames;
    ghost var a := dest[..];
    PloytecCodec.DecodeInto(dest, S24Frame * s, src[FrameSizeIn * i..FrameSizeIn * i + FrameSizeIn]);
    CaptureStep(a, before, usb0, i, src[..], dest[..]);
  }

  /**
   * The frame loop of ReceivePCMfromDevice: decode the 80 frames of the
   * input packet into CoreAudio frame (usb mod 640), advancing the counter
   * after each frame.
   */
  method DecodePacket(dest: array<bv8>, src: array<bv8>, usb0: u64) returns (usb: u64)
    requires dest != src
    requires S24Frame * BufferFrames <= dest.Length && FrameSizeIn * TotalFramesIn <= src.Length
    modifies dest
    ensures usb == Add64(usb0, TotalFramesIn)
    ensures Laid(dest[..], old(dest[..]), CaptureOffsets(usb0, TotalFramesIn), CaptureFrames(TotalFramesIn, src[..]), S24Frame)
  {
    ghost var before, input := dest[..], src[..];
    LaidNothing(before, S24Frame);
    usb := usb0;
    var i: nat := 0;
    while i < TotalFramesIn
      invariant i <= TotalFramesIn
      invariant usb == Add64(usb0, i)
      invariant Laid(dest[..], before, CaptureOffsets(usb0, i), CaptureFrames(i, input), S24Frame)
    {
      DecodePacketFrame(dest, src, before, usb0, usb, i);
      Add64Step(usb0, i);
      usb := Add64(usb, 1);
      i := i + 1;
    }
  }

  /** The out counter needs correcting: CoreAudio has run more than a buffer ahead of it. */
  predicate OutDrifted(client: u64, usb: u64)
  {
    client > 0 && Sub64(client, usb) > BufferFrames
  }

  /** The in counter needs correcting: it has run more than a buffer ahead of CoreAudio. */
  predicate InDrifted(client: u64, usb: u64)
  {
    client > 0 && Sub64(usb, client) > BufferFrames
  }

  class AudioDevice {
    var currentSampleOutUsb: u16
    var currentSampleTime: u64
    var outSampleTime: u64
    var inSampleTime: u64
    var inSampleTimeUsb: u64
    var outSampleTimeUsb: u64
    var startClock: bool
    var startPcmIn: bool
    var startPcmOut: bool
    /** The base class's current zero timestamp (sample time, host time). */
    var zeroSampleTime: u64
    var zeroHostTime: u64
    /** AsyncIO submissions on the out and in pipes, in order. */
    var outSubmissions: seq<Submission>
    var inSubmissions: seq<Submission>
    /** PCMoutDataAddr, PCMinDataAddr and the two CoreAudio rings. */
    const pcmOut: array<bv8>
    const pcmIn: array<bv8>
    const coreAudioOut: array<bv8>
    const coreAudioIn: array<bv8>

    predicate Valid()
      reads this
    {
      pcmOut != coreAudioOut && pcmOut != pcmIn && pcmOut != coreAudioIn
      && coreAudioOut != pcmIn && coreAudioOut != coreAudioIn && pcmIn != coreAudioIn
      && PcmSizeOut <= pcmOut.Length && FrameSizeIn * TotalFramesIn <= pcmIn.Length
      && S24Frame * BufferFrames <= coreAudioOut.Length && S24Frame * BufferFrames <= coreAudioIn.Length
    }

    constructor (pcmOut: array<bv8>, pcmIn: array<bv8>, coreAudioOut: array<bv8>, coreAudioIn: array<bv8>)
      requires pcmOut != coreAudioOut && pcmOut != pcmIn && pcmOut != coreAudioIn
      requires coreAudioOut != pcmIn && coreAudioOut != coreAudioIn && pcmIn != coreAudioIn
      requires PcmSizeOut <= pcmOut.Length && FrameSizeIn * TotalFramesIn <= pcmIn.Length
      requires S24Frame * BufferFrames <= coreAudioOut.Length && S24Frame * BufferFrames <= coreAudioIn.Length
      ensures Valid() && !startPcmIn && !startPcmOut && !startClock
      ensures currentSampleOutUsb == 0 && outSampleTimeUsb == 0 && inSampleTimeUsb == 0
      ensures outSubmissions == [] && inSubmissions == []
      ensures this.pcmOut == pcmOut && this.pcmIn == pcmIn
      ensures this.coreAudioOut == coreAudioOut && this.coreAudioIn == coreAudioIn
    {
      currentSampleOutUsb := 0;
      currentSampleTime := 0;
      outSampleTime := 0;
      inSampleTime := 0;
      inSampleTimeUsb := 0;
      outSampleTimeUsb := 0;
      startClock := false;
      startPcmIn := false;
      startPcmOut := false;
      zeroSampleTime := 0;
      zeroHostTime := 0;
      outSubmissions := [];
      inSubmissions := [];
      this.pcmOut := pcmOut;
      this.pcmIn := pcmIn;
      this.coreAudioOut := coreAudioOut;
      this.coreAudioIn := coreAudioIn;
    }

    /**
     * SendPCMToDevice: while playing, roll the zero timestamp over when a
     * buffer's worth has been sent, correct the out counter if CoreAudio
     * (`clientTime`) ran more than a buffer ahead, encode 80 frames into
     * the packet and submit it; otherwise submit the empty packet.
     */
    method SendPCMToDevice(clientTime: u64, completionTimestamp: u64, ioStatus: Status) returns (ret: Status)
      requires Valid()
      modifies this`currentSampleOutUsb, this`currentSampleTime, this`zeroSampleTime, this`zeroHostTime,
               this`outSampleTime, this`outSampleTimeUsb, this`outSubmissions, pcmOut
      ensures ret == ioStatus
      ensures !startPcmOut ==>
        outSubmissions == old(outSubmissions) + [EmptyPacket]
        && currentSampleOutUsb == old(currentSampleOutUsb) && outSampleTimeUsb == old(outSampleTimeUsb)
        && zeroSampleTime == old(zeroSampleTime) && zeroHostTime == old(zeroHostTime)
        && pcmOut[..] == old(pcmOut[..])
      ensures startPcmOut ==>
        var wrapped := old(currentSampleOutUsb) == BufferFrames;
        var usb := if OutDrifted(clientTime, old(outSampleTimeUsb)) then Sub64(clientTime, BufferFrames / 2) else old(outSampleTimeUsb);
        outSubmissions == old(outSubmissions) + [DataPacket]
        && outSampleTime == clientTime
        && (wrapped ==> zeroSampleTime == Add64(old(zeroSampleTime), BufferFrames) && zeroHostTime == completionTimestamp)
        && (!wrapped ==> zeroSampleTime == old(zeroSampleTime) && zeroHostTime == old(zeroHostTime))
        && currentSampleOutUsb == Add16(if wrapped then 0 else old(currentSampleOutUsb), TotalFramesOut)
        && outSampleTimeUsb == Add64(usb, TotalFramesOut)
        && Laid(pcmOut[..], old(pcmOut[..]), PacketOffsets(TotalFramesOut), PacketFrames(usb, TotalFramesOut, coreAudioOut[..]), FrameSizeOut)
        && (forall b: nat, d: nat :: d < SyncBytes && GapByte(Bulk, b, d) < pcmOut.Length ==>
              pcmOut[GapByte(Bulk, b, d)] == old(pcmOut[GapByte(Bulk, b, d)]))
    {
      if startPcmOut {
        if currentSampleOutUsb == BufferFrames {
          currentSampleOutUsb := 0;
          currentSampleTime := Add64(zeroSampleTime, BufferFrames);
          zeroSampleTime, zeroHostTime := currentSampleTime, completionTimestamp;
        }
        outSampleTime := clientTime;
        if OutDrifted(outSampleTime, outSampleTimeUsb) {
          outSampleTimeUsb := Sub64(outSampleTime, BufferFrames / 2);
        }
        outSampleTimeUsb, currentSampleOutUsb := EncodePacket(pcmOut, coreAudioOut, outSampleTimeUsb, currentSampleOutUsb);
        outSubmissions := outSubmissions + [DataPacket];
      } else {
        outSubmissions := outSubmissions + [EmptyPacket];
      }
      ret := ioStatus;
    }

    /**
     * ReceivePCMfromDevice: while recording, correct the in counter if it
     * ran more than a buffer ahead of CoreAudio (`clientTime`), submit the
     * input packet and decode its 80 frames; otherwise submit the empty one.
     */
    method ReceivePCMfromDevice(clientTime: u64, ioStatus: Status) returns (ret: Status)
      requires Valid()
      modifies this`inSampleTime, this`inSampleTimeUsb, this`inSubmissions, coreAudioIn
      ensures ret == ioStatus
      ensures !startPcmIn ==>
        inSubmissions == old(inSubmissions) + [EmptyPacket] && inSampleTimeUsb == old(inSampleTimeUsb)
        && coreAudioIn[..] == old(coreAudioIn[..])
      ensures startPcmIn ==>
        var usb := if InDrifted(clientTime, old(inSampleTimeUsb)) then Add64(clientTime, BufferFrames / 2) else old(inSampleTimeUsb);
        inSubmissions == old(inSubmissions) + [DataPacket]
        && inSampleTime == clientTime
        && inSampleTimeUsb == Add64(usb, TotalFramesIn)
        && Laid(coreAudioIn[..], old(coreAudioIn[..]), CaptureOffsets(usb, TotalFramesIn), CaptureFrames(TotalFramesIn, pcmIn[..]), S24Frame)
    {
      if startPcmIn {
        inSampleTime := clientTime;
        if InDrifted(inSampleTime, inSampleTimeUsb) {
          inSampleTimeUsb := Add64(inSampleTime, BufferFrames / 2);
        }
        inSubmissions := inSubmissions + [DataPacket];
        inSampleTimeUsb := DecodePacket(coreAudioIn, pcmIn, inSampleTimeUsb);
      } else {
        inSubmissions := inSubmissions + [EmptyPacket];
      }
      ret := ioStatus;
    }

    /** StartIO after the base class and the memory maps succeeded. */
    method StartIO()
      modifies this`zeroSampleTime, this`zeroHostTime, this`outSampleTimeUsb, this`inSampleTimeUsb,
               this`startClock, this`startPcmOut, this`startPcmIn
      ensures zeroSampleTime == 0 && zeroHostTime == 0
      ensures outSampleTimeUsb == 0 && inSampleTimeUsb == 0
      ensures startClock && startPcmOut && startPcmIn
    {
      zeroSampleTime, zeroHostTime := 0, 0;
      outSampleTimeUsb := 0;
      inSampleTimeUsb := 0;
      startClock := true;
      startPcmOut := true;
      startPcmIn := true;
    }

    /** StopIO: all three flags cleared and both USB counters zeroed. */
    method StopIO()
      modifies this`startClock, this`startPcmOut, this`startPcmIn, this`outSampleTimeUsb, this`inSampleTimeUsb
      ensures !startClock && !startPcmOut && !startPcmIn
      ensures outSampleTimeUsb == 0 && inSampleTimeUsb == 0
    {
      startClock := false;
      startPcmOut := false;
      startPcmIn := false;
      outSampleTimeUsb := 0;
      inSampleTimeUsb := 0;
    }
  }
}
