// The packet side of the linux/ ALSA driver (linux/pcm.c): which URB bytes
// and which DMA ring bytes every converter call of a capture, bulk playback
// or interrupt playback packet pairs up, how the position moves on after a
// packet, and the silence-and-MIDI template the output URBs start from.
module LinuxPcm {
  import opened Wrap
  import opened PcmStream
  import SampleRate

  const OutFrameSize: nat := 48
  const InFrameSize: nat := 64
  const OutFrames: nat := 40
  const InFrames: nat := 32
  const UartOutBytes: nat := 8
  /** 40 frames, the UART bytes and 30 padding bytes after every ten frames. */
  const BulkOutPacketSize: nat := OutFrames * OutFrameSize + UartOutBytes + (OutFrames / 10) * 30
  const IntOutPacketSize: nat := OutFrames * OutFrameSize + UartOutBytes
  const InPacketSize: nat := InFrames * InFrameSize
  /** ALSA bytes one playback packet consumes. */
  const AlsaOutPacket: nat := BytesPerFrame * OutFrames
  /** ALSA bytes one capture packet fills. */
  const AlsaInPacket: nat := BytesPerFrame * InFrames
  /** period_bytes_min of the hardware description. */
  const MinPeriodBytes: nat := 2 * AlsaOutPacket

  /** The two output transfer modes of the device. */
  datatype Mode = Bulk | Interrupt

  /**
   * Where playback frame k lies in the output URB: 48-byte frames, with
   * 32 bytes (the UART byte, 0xFF and padding) after every ten frames in
   * bulk mode, and a 2-byte MIDI pair before frames 9, 19, 29 and 39 in
   * interrupt mode.
   */
  function UrbFrame(mode: Mode, k: nat): nat
  {
    match mode
    case Bulk => OutFrameSize * k + 32 * (k / 10)
    case Interrupt => OutFrameSize * k + 2 * ((k + 1) / 10)
  }

  function PacketSize(mode: Mode): nat
  {
    match mode
    case Bulk => BulkOutPacketSize
    case Interrupt => IntOutPacketSize
  }

  /** The bounds of the handler's per-group frame loops. */
  function GroupStarts(mode: Mode): seq<nat>
  {
    match mode
    case Bulk => [0, 10, 20, 30, 40]
    case Interrupt => [0, 9, 19, 29, 39, 40]
  }

  /** The constant the g-th frame loop adds to the URB offset. */
  function Pad(mode: Mode, g: nat): nat
  {
    match mode
    case Bulk => 32 * g
    case Interrupt => 2 * g
  }

  /** Each group loop adds exactly the padding UrbFrame describes. */
  lemma GroupOffset(mode: Mode, g: nat, k: nat)
    requires g + 1 < |GroupStarts(mode)| && GroupStarts(mode)[g] <= k < GroupStarts(mode)[g + 1]
    ensures UrbFrame(mode, k) == OutFrameSize * k + Pad(mode, g)
  {
    match mode
    case Bulk =>
      ModUnique(k, g, k - 10 * g, 10);
    case Interrupt =>
      ModUnique(k + 1, g, k + 1 - 10 * g, 10);
  }

  /** Every playback frame lies inside the packet. */
  lemma FramesFit(mode: Mode, k: nat)
    requires k < OutFrames
    ensures UrbFrame(mode, k) + OutFrameSize <= PacketSize(mode)
  {
    if mode.Bulk? {
      assert k / 10 <= 3;
    } else {
      assert (k + 1) / 10 <= 4;
      if (k + 1) / 10 == 4 {
        ModUnique(k + 1, 4, k + 1 - 40, 10);
      }
    }
  }

  /** Earlier frames end before later ones start: the frames never overlap. */
  lemma FramesApart(mode: Mode, j: nat, k: nat)
    requires j < k
    ensures UrbFrame(mode, j) + OutFrameSize <= UrbFrame(mode, k)
  {
  }

  /**
   * In a bulk packet frame k is frame k mod 10 of 512-byte block k div 10,
   * so every frame sits in the block's first 480 bytes, clear of the UART
   * byte at 480, the 0xFF at 481 and the padding.
   */
  lemma BulkFrameInBlock(k: nat)
    requires k < OutFrames
    ensures UrbFrame(Bulk, k) == 512 * (k / 10) + OutFrameSize * (k % 10)
    ensures UrbFrame(Bulk, k) % 512 + OutFrameSize <= 480 && UrbFrame(Bulk, k) / 512 == k / 10
  {
    var q, r := k / 10, k % 10;
    assert k == 10 * q + r;
    ModUnique(UrbFrame(Bulk, k), q, OutFrameSize * r, 512);
  }

  /** Start of the j-th MIDI pair of an interrupt packet. */
  function MidiPair(j: nat): nat
  {
    432 + 482 * j
  }

  /** No interrupt-mode frame touches one of the four MIDI pairs. */
  lemma InterruptClearOfMidi(k: nat, j: nat)
    requires k < OutFrames && j < 4
    ensures UrbFrame(Interrupt, k) + OutFrameSize <= MidiPair(j) || MidiPair(j) + 2 <= UrbFrame(Interrupt, k)
  {
    var q, r := k / 10, k % 10;
    assert k == 10 * q + r;
    if r == 9 {
      ModUnique(k + 1, q + 1, 0, 10);
    } else {
      ModUnique(k + 1, q, r + 1, 10);
    }
  }

  /** The converter call that carries playback frame k. */
  function PlaybackOp(mode: Mode, dmaOff: nat, size: nat, k: nat): Op
    requires size > 0
  {
    Convert(Ptr(Urb, UrbFrame(mode, k)), Ptr(Dma, RingPos(dmaOff, k, size)))
  }

  /** The converter call that carries capture frame k. */
  function CaptureOp(dmaOff: nat, size: nat, k: nat): Op
    requires size > 0
  {
    Convert(Ptr(Dma, RingPos(dmaOff, k, size)), Ptr(Urb, InFrameSize * k))
  }

  /**
   * The frame loops of xonedb4_pcm_bulk_playback and
   * xonedb4_pcm_int_playback: one loop per group of frames. A packet that
   * fits before the ring end is read straight from dma_off; otherwise the
   * first (size - dma_off) / 24 frames come from the ring tail and the rest
   * from its head, by two cursors. Either way frame k of the packet is read
   * from ring position k of the packet and written to UrbFrame(mode, k).
   */
  method PlaybackOps(mode: Mode, dmaOff: nat, size: nat) returns (ops: seq<Op>)
    requires Aligned(dmaOff, size) && AlsaOutPacket <= size
    ensures |ops| == OutFrames
    ensures forall k :: 0 <= k < OutFrames ==> ops[k] == PlaybackOp(mode, dmaOff, size, k)
  {
    var starts := GroupStarts(mode);
    var straight := dmaOff + AlsaOutPacket <= size;
    var tail, head := 0, 0;
    if !straight {
      tail := (size - dmaOff) / BytesPerFrame;
      head := OutFrames - tail;
    }
    var cur1, cur2 := 0, 0;
    ops := [];
    var g := 0;
    while g + 1 < |starts|
      invariant 0 <= g < |starts| && |ops| == starts[g]
      invariant forall k :: 0 <= k < |ops| ==> ops[k] == PlaybackOp(mode, dmaOff, size, k)
      invariant !straight ==> cur1 == (if |ops| < tail then |ops| else tail) && cur2 == |ops| - cur1
    {
      var k := starts[g];
      while k < starts[g + 1]
        invariant starts[g] <= k <= starts[g + 1] && |ops| == k
        invariant forall i :: 0 <= i < k ==> ops[i] == PlaybackOp(mode, dmaOff, size, i)
        invariant !straight ==> cur1 == (if k < tail then k else tail) && cur2 == k - cur1
      {
        GroupOffset(mode, g, k);
        RingPosCases(dmaOff, size, OutFrames, k);
        var src := Ptr(Urb, OutFrameSize * k + Pad(mode, g));
        if straight {
          ops := ops + [Convert(src, Ptr(Dma, dmaOff + BytesPerFrame * k))];
        } else if cur1 < tail {
          ops := ops + [Convert(src, Ptr(Dma, dmaOff + BytesPerFrame * cur1))];
          cur1 := cur1 + 1;
        } else if cur2 < head {
          ops := ops + [Convert(src, Ptr(Dma, BytesPerFrame * cur2))];
          cur2 := cur2 + 1;
        }
        k := k + 1;
      }
      g := g + 1;
    }
  }

  /**
   * The frame loop of xonedb4_pcm_capture: 32 frames of 64 URB bytes each,
   * converted to the ring straight from dma_off or split over tail and
   * head. The head cursor is bounded by 40 - tail, the playback frame
   * count, but only 32 frames exist, so every frame still reaches its ring
   * position.
   */
  method CaptureOps(dmaOff: nat, size: nat) returns (ops: seq<Op>)
    requires Aligned(dmaOff, size) && AlsaInPacket <= size
    ensures |ops| == InFrames
    ensures forall k :: 0 <= k < InFrames ==> ops[k] == CaptureOp(dmaOff, size, k)
  {
    var straight := dmaOff + AlsaInPacket <= size;
    var tail, head := 0, 0;
    if !straight {
      tail := (size - dmaOff) / BytesPerFrame;
      head := OutFrames - tail;
    }
    var cur1, cur2 := 0, 0;
    ops := [];
    var k := 0;
    while k < InFrames
      invariant k <= InFrames && |ops| == k
      invariant forall i :: 0 <= i < k ==> ops[i] == CaptureOp(dmaOff, size, i)
      invariant !straight ==> cur1 == (if k < tail then k else tail) && cur2 == k - cur1
    {
      RingPosCases(dmaOff, size, InFrames, k);
      var src := Ptr(Urb, InFrameSize * k);
      if straight {
        ops := ops + [Convert(Ptr(Dma, dmaOff + BytesPerFrame * k), src)];
      } else if cur1 < tail {
        ops := ops + [Convert(Ptr(Dma, dmaOff + BytesPerFrame * cur1), src)];
        cur1 := cur1 + 1;
      } else if cur2 < head {
        ops := ops + [Convert(Ptr(Dma, BytesPerFrame * cur2), src)];
        cur2 := cur2 + 1;
      }
      k := k + 1;
    }
  }

  /**
   * One playback packet of an active substream: its 40 converter calls,
   * then the position moves one packet (960 ALSA bytes) on; the result
   * says whether a period elapsed.
   */
  method Playback(mode: Mode, sub: Substream) returns (ops: seq<Op>, elapsed: bool)
    requires sub.Valid() && MinPeriodBytes <= sub.periodBytes
    modifies sub`dmaOff, sub`periodOff, sub`consumed, sub`reported
    ensures |ops| == OutFrames
    ensures forall k :: 0 <= k < OutFrames ==> ops[k] == PlaybackOp(mode, old(sub.dmaOff), sub.bufferBytes, k)
    ensures sub.Valid() && sub.consumed == old(sub.consumed) + AlsaOutPacket
    ensures sub.dmaOff == RingPos(old(sub.dmaOff), OutFrames, sub.bufferBytes)
    ensures elapsed <==> sub.consumed / sub.periodBytes == old(sub.consumed) / sub.periodBytes + 1
  {
    sub.ValidAligned();
    ops := PlaybackOps(mode, sub.dmaOff, sub.bufferBytes);
    elapsed := sub.Advance(AlsaOutPacket);
  }

  /** One capture packet of an active substream: 32 converter calls, then the position moves 768 bytes on. */
  method Capture(sub: Substream) returns (ops: seq<Op>, elapsed: bool)
    requires sub.Valid() && MinPeriodBytes <= sub.periodBytes
    modifies sub`dmaOff, sub`periodOff, sub`consumed, sub`reported
    ensures |ops| == InFrames
    ensures forall k :: 0 <= k < InFrames ==> ops[k] == CaptureOp(old(sub.dmaOff), sub.bufferBytes, k)
    ensures sub.Valid() && sub.consumed == old(sub.consumed) + AlsaInPacket
    ensures sub.dmaOff == RingPos(old(sub.dmaOff), InFrames, sub.bufferBytes)
    ensures elapsed <==> sub.consumed / sub.periodBytes == old(sub.consumed) / sub.periodBytes + 1
  {
    sub.ValidAligned();
    ops := CaptureOps(sub.dmaOff, sub.bufferBytes);
    elapsed := sub.Advance(AlsaInPacket);
  }

  /**
   * Byte i of a freshly initialised bulk output URB: per 512-byte block,
   * 480 bytes of silence, the block's MIDI byte, 0xFF, then 30 zero bytes.
   */
  function BulkTemplate(i: nat, midi: seq<SampleRate.byte>): (r: SampleRate.byte)
    requires i < BulkOutPacketSize && |midi| == 4
    ensures r != 0 ==> i % 512 == 480 || i % 512 == 481
    ensures i % 512 == 480 ==> r == midi[i / 512]
  {
    var r := i % 512;
    if r < 480 then 0 else if r == 480 then midi[i / 512] else if r == 481 then 0xFF else 0
  }

  /**
   * Byte i of a freshly initialised interrupt output URB: silence, except
   * the four MIDI pairs at 432 + 482 j.
   */
  function IntTemplate(i: nat, midi: seq<SampleRate.byte>): (r: SampleRate.byte)
    requires i < IntOutPacketSize && |midi| == 8
    ensures r != 0 ==> exists j :: 0 <= j < 4 && MidiPair(j) <= i < MidiPair(j) + 2 && r == midi[2 * j + i - MidiPair(j)]
  {
    if i >= 432 && (i - 432) % 482 < 2 then
      var j := (i - 432) / 482;
      assert MidiPair(j) <= i < MidiPair(j) + 2;
      midi[2 * j + (i - 432) % 482]
    else 0
  }

  lemma BulkTemplateAt(b: nat, r: nat, midi: seq<SampleRate.byte>)
    requires b < 4 && r < 512 && |midi| == 4
    ensures BulkTemplate(512 * b + r, midi) == (if r < 480 then 0 else if r == 480 then midi[b] else if r == 481 then 0xFF else 0)
  {
    ModUnique(512 * b + r, b, r, 512);
  }

  lemma IntTemplateAt(j: nat, r: nat, midi: seq<SampleRate.byte>)
    requires j < 4 && r < 482 && MidiPair(j) + r < IntOutPacketSize && |midi| == 8
    ensures IntTemplate(MidiPair(j) + r, midi) == (if r < 2 then midi[2 * j + r] else 0)
  {
    ModUnique(482 * j + r, j, r, 482);
  }

  /** memset: `len` bytes from `from` set to `v`, the rest untouched. */
  method Fill(buf: array<SampleRate.byte>, from: nat, len: nat, v: SampleRate.byte)
    requires from + len <= buf.Length
    modifies buf
    ensures forall i :: 0 <= i < buf.Length ==> buf[i] == if from <= i < from + len then v else old(buf[i])
  {
    forall i | from <= i < from + len {
      buf[i] := v;
    }
  }

  /**
   * The buffer set-up of xonedb4_pcm_init_bulk_out_urbs, block by block:
   * 480 zero bytes, the byte the MIDI output hands over, 0xFF, 30 zero
   * bytes. The MIDI bytes are a parameter.
   */
  method InitBulkOut(buf: array<SampleRate.byte>, midi: seq<SampleRate.byte>)
    requires buf.Length == BulkOutPacketSize && |midi| == 4
    modifies buf
    ensures forall i :: 0 <= i < buf.Length ==> buf[i] == BulkTemplate(i, midi)
  {
    var b := 0;
    while b < 4
      invariant b <= 4
      invariant forall i :: 0 <= i < 512 * b ==> buf[i] == BulkTemplate(i, midi)
    {
      Fill(buf, 512 * b, 480, 0);
      buf[512 * b + 480] := midi[b];
      buf[512 * b + 481] := 0xFF;
      Fill(buf, 512 * b + 482, 30, 0);
      forall i | 512 * b <= i < 512 * (b + 1)
        ensures buf[i] == BulkTemplate(i, midi)
      {
        BulkTemplateAt(b, i - 512 * b, midi);
      }
      b := b + 1;
    }
  }

  /**
   * The buffer set-up of xonedb4_pcm_init_int_out_urbs: zeros up to each
   * MIDI pair, the pair the MIDI output hands over, and 48 zero bytes
   * after the last pair.
   */
  method InitIntOut(buf: array<SampleRate.byte>, midi: seq<SampleRate.byte>)
    requires buf.Length == IntOutPacketSize && |midi| == 8
    modifies buf
    ensures forall i :: 0 <= i < buf.Length ==> buf[i] == IntTemplate(i, midi)
  {
    Fill(buf, 0, 432, 0);
    var j := 0;
    while j < 4
      invariant j <= 4
      invariant forall i :: 0 <= i < (if j < 4 then MidiPair(j) else IntOutPacketSize) ==> buf[i] == IntTemplate(i, midi)
    {
      buf[MidiPair(j)] := midi[2 * j];
      buf[MidiPair(j) + 1] := midi[2 * j + 1];
      var zeros := if j < 3 then 480 else 48;
      Fill(buf, MidiPair(j) + 2, zeros, 0);
      forall i | MidiPair(j) <= i < MidiPair(j) + 2 + zeros
        ensures buf[i] == IntTemplate(i, midi)
      {
        IntTemplateAt(j, i - MidiPair(j), midi);
      }
      j := j + 1;
    }
  }

  /** A freshly initialised bulk URB plays silence in every frame. */
  lemma BulkTemplateSilent(k: nat, b: nat, midi: seq<SampleRate.byte>)
    requires k < OutFrames && b < OutFrameSize && |midi| == 4
    ensures UrbFrame(Bulk, k) + b < BulkOutPacketSize
    ensures BulkTemplate(UrbFrame(Bulk, k) + b, midi) == 0
  {
    BulkFrameInBlock(k);
    var q, r := k / 10, k % 10;
    BulkTemplateAt(q, OutFrameSize * r + b, midi);
    assert UrbFrame(Bulk, k) + b == 512 * q + (OutFrameSize * r + b);
  }

  /** A freshly initialised interrupt URB plays silence in every frame. */
  lemma IntTemplateSilent(k: nat, b: nat, midi: seq<SampleRate.byte>)
    requires k < OutFrames && b < OutFrameSize && |midi| == 8
    ensures UrbFrame(Interrupt, k) + b < IntOutPacketSize
    ensures IntTemplate(UrbFrame(Interrupt, k) + b, midi) == 0
  {
    FramesFit(Interrupt, k);
    var i := UrbFrame(Interrupt, k) + b;
    if i >= 432 {
      var j := (i - 432) / 482;
      ModUnique(i - 432, j, (i - 432) % 482, 482);
      assert j < 4;
      InterruptClearOfMidi(k, j);
      IntTemplateAt(j, (i - 432) % 482, midi);
    }
  }

  /**
   * The zeroed ranges the output handlers write while the substream is
   * inactive: the first 480 bytes of each bulk block; everything but the
   * MIDI pairs of an interrupt packet.
   */
  predicate InactiveZeroed(mode: Mode, i: nat)
  {
    match mode
    case Bulk =>
      (0 <= i < 480) || (512 <= i < 992) || (1024 <= i < 1504) || (1536 <= i < 2016)
    case Interrupt =>
      (0 <= i < 432) || (434 <= i < 914) || (916 <= i < 1396) || (1398 <= i < 1878) || (1880 <= i < 1928)
  }

  /** An inactive substream silences every byte a frame would occupy. */
  lemma InactiveSilencesFrames(mode: Mode, k: nat, b: nat)
    requires k < OutFrames && b < OutFrameSize
    ensures InactiveZeroed(mode, UrbFrame(mode, k) + b)
  {
    FramesFit(mode, k);
    if mode.Bulk? {
      BulkFrameInBlock(k);
    } else {
      forall j | 0 <= j < 4
        ensures UrbFrame(mode, k) + OutFrameSize <= MidiPair(j) || MidiPair(j) + 2 <= UrbFrame(mode, k)
      {
        InterruptClearOfMidi(k, j);
      }
    }
  }
}
