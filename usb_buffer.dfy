// The USB transmit and receive buffers of the mac-hal user-space drivers:
// zeroing, the 0xFD idle-byte prefill of the MIDI/UART slot of every
// output block, and ClearOutputBuffer, which silences the PCM bytes of the
// output buffer without touching the MIDI/UART bytes.
module UsbBuffer {
  import opened Wrap
  import IoRing

  /** The MIDI/UART idle byte the device ignores. */
  const Idle: bv8 := 0xFD

  /** BUFFER_SIZE_OUT and BUFFER_SIZE_IN of the HAL driver. */
  const BufferSizeOut: nat := 131072
  const BufferSizeIn: nat := 163840

  /** memset(buf, 0, length). */
  method ZeroFill(buf: array<bv8>)
    modifies buf
    ensures forall j :: 0 <= j < buf.Length ==> buf[j] == 0
  {
    forall j | 0 <= j < buf.Length {
      buf[j] := 0;
    }
  }

  /**
   * The bytes a prefill loop `for (i = offset; i + 1 < limit; i += stride)
   * { buf[i] = 0xFD; buf[i + 1] = 0xFD; }` writes: the first two bytes of
   * each stride step from offset, as long as the pair lies below limit.
   */
  predicate IdleAt(offset: nat, stride: nat, limit: nat, j: nat)
    requires stride >= 2
  {
    j >= offset
    && (((j - offset) % stride == 0 && j + 1 < limit) || ((j - offset) % stride == 1 && j < limit))
  }

  /** Every pair below the limit is written. */
  lemma IdlePairs(offset: nat, stride: nat, limit: nat, k: nat)
    requires stride >= 2 && offset + k * stride + 1 < limit
    ensures IdleAt(offset, stride, limit, offset + k * stride)
    ensures IdleAt(offset, stride, limit, offset + k * stride + 1)
  {
    ModUnique(k * stride, k, 0, stride);
    ModUnique(k * stride + 1, k, 1, stride);
  }

  /** Within one step of the loop only its two bytes are idle bytes. */
  lemma IdleStep(offset: nat, stride: nat, limit: nat, m: nat, j: nat)
    requires stride >= 2 && offset + m * stride + 1 < limit
    requires offset + m * stride <= j < offset + m * stride + stride
    ensures IdleAt(offset, stride, limit, j) <==> j == offset + m * stride || j == offset + m * stride + 1
  {
    ModUnique(j - offset, m, j - offset - m * stride, stride);
  }

  /** Once the loop has stopped, no byte from its position on is an idle byte. */
  lemma IdleBeyond(offset: nat, stride: nat, limit: nat, m: nat, j: nat)
    requires stride >= 2 && limit <= offset + m * stride + 1 && offset + m * stride <= j
    ensures !IdleAt(offset, stride, limit, j)
  {
    if j == offset + m * stride {
      ModUnique(j - offset, m, 0, stride);
    }
  }

  /** The prefill loop: 0xFD at the two first bytes of every stride step, nothing else changed. */
  method PrefillIdle(buf: array<bv8>, offset: nat, stride: nat, limit: nat)
    requires stride >= 2 && limit <= buf.Length
    modifies buf
    ensures forall j :: 0 <= j < buf.Length ==>
      buf[j] == if IdleAt(offset, stride, limit, j) then Idle else old(buf[j])
  {
    ghost var before := buf[..];
    var i := offset;
    ghost var m := 0;
    while i + 1 < limit
      invariant i == offset + m * stride
      invariant forall j :: 0 <= j < buf.Length ==>
        buf[j] == if j < i && IdleAt(offset, stride, limit, j) then Idle else before[j]
      decreases limit - i
    {
      buf[i] := Idle;
      buf[i + 1] := Idle;
      forall j | i <= j < i + stride
        ensures IdleAt(offset, stride, limit, j) <==> j == i || j == i + 1
      {
        IdleStep(offset, stride, limit, m, j);
      }
      i := i + stride;
      m := m + 1;
    }
    forall j | i <= j
      ensures !IdleAt(offset, stride, limit, j)
    {
      IdleBeyond(offset, stride, limit, m, j);
    }
  }

  /** The MIDI/UART byte of each block (usbMIDIbyteNo): 480 for bulk, 432 for interrupt. */
  function MidiByteNo(layout: IoRing.Layout): (r: nat)
    ensures r == IoRing.GapStart(layout)
  {
    if layout == IoRing.Bulk then 480 else 432
  }

  /** memset + prefill of StartStreaming: zero, except 0xFD pairs at MidiByteNo + k * stride. */
  method ZeroAndPrefill(buf: array<bv8>, layout: IoRing.Layout)
    modifies buf
    ensures forall j :: 0 <= j < buf.Length ==>
      buf[j] == if IdleAt(MidiByteNo(layout), IoRing.BlockBytes(layout), buf.Length, j) then Idle else 0
  {
    ZeroFill(buf);
    PrefillIdle(buf, MidiByteNo(layout), IoRing.BlockBytes(layout), buf.Length);
  }

  // ------------------------------------------------------- ClearOutputBuffer

  /** Whole blocks in the output buffer: 256 bulk blocks, 271 interrupt blocks. */
  function ClearBlocks(layout: IoRing.Layout): nat
  {
    BufferSizeOut / IoRing.BlockBytes(layout)
  }

  /**
   * The bytes ClearOutputBuffer zeroes: in each whole block, bytes 0..479
   * of a bulk block, bytes 0..431 and 434..481 of an interrupt block.
   */
  predicate IsPcmByte(layout: IoRing.Layout, j: nat)
  {
    match layout
    case Bulk => j < 256 * 512 && j % 512 < 480
    case Interrupt => j < 271 * 482 && (j % 482 < 432 || 434 <= j % 482)
  }

  /** memset(buf + from, 0, count). */
  method ZeroRange(buf: array<bv8>, from: nat, count: nat)
    requires from + count <= buf.Length
    modifies buf
    ensures forall j :: 0 <= j < buf.Length ==> buf[j] == if from <= j < from + count then 0 else old(buf[j])
  {
    forall j | from <= j < from + count {
      buf[j] := 0;
    }
  }

  /** Byte j of block i sits at i * stride + j mod stride. */
  lemma InBlock(j: nat, i: nat, stride: nat)
    requires stride > 0 && i * stride <= j < i * stride + stride
    ensures j % stride == j - i * stride
  {
    ModUnique(j, i, j - i * stride, stride);
  }

  /**
   * ClearOutputBuffer: with no buffer it returns; otherwise every PCM byte
   * of the output buffer becomes zero and every other byte keeps its value.
   */
  method ClearOutputBuffer(buf: array?<bv8>, layout: IoRing.Layout)
    requires buf != null ==> buf.Length == BufferSizeOut
    modifies buf
    ensures buf != null ==> forall j :: 0 <= j < buf.Length ==>
      buf[j] == if IsPcmByte(layout, j) then 0 else old(buf[j])
  {
    if buf == null {
      return;
    }
    ghost var before := buf[..];
    if layout == IoRing.Bulk {
      var stride, pcmSize, numBlocks := 512, 480, BufferSizeOut / 512;
      for i := 0 to numBlocks
        invariant forall j :: 0 <= j < buf.Length ==>
          buf[j] == if j < i * 512 && IsPcmByte(layout, j) then 0 else before[j]
      {
        ZeroRange(buf, i * stride, pcmSize);
        forall j | i * 512 <= j < i * 512 + 512 {
          InBlock(j, i, 512);
        }
      }
    } else {
      var stride, pcm1, gap, pcm2, numBlocks := 482, 432, 2, 48, BufferSizeOut / 482;
      for i := 0 to numBlocks
        invariant forall j :: 0 <= j < buf.Length ==>
          buf[j] == if j < i * 482 && IsPcmByte(layout, j) then 0 else before[j]
      {
        ZeroRange(buf, i * stride, pcm1);
        ZeroRange(buf, i * stride + pcm1 + gap, pcm2);
        forall j | i * 482 <= j < i * 482 + 482 {
          InBlock(j, i, 482);
        }
      }
    }
  }

  /** ClearOutputBuffer never zeroes a MIDI/UART or padding byte of the gap. */
  lemma GapBytesNotPcm(layout: IoRing.Layout, b: nat, d: nat)
    requires d < IoRing.GapWidth(layout)
    ensures !IsPcmByte(layout, IoRing.GapByte(layout, b, d))
  {
    var j := IoRing.GapByte(layout, b, d);
    InBlock(j, b, IoRing.BlockBytes(layout));
  }

  /** Every byte of every output ring frame inside the whole blocks is a PCM byte. */
  lemma FrameBytesArePcm(layout: IoRing.Layout, s: nat, c: nat)
    requires s < 10 * ClearBlocks(layout) && c < IoRing.FrameSizeOut
    ensures IsPcmByte(layout, IoRing.FrameOffset(layout, s) + c)
  {
    IoRing.FrameOffsetBlocks(layout, s);
    var q, r := s / 10, s % 10;
    var k := IoRing.BlockBytes(layout);
    var j := IoRing.FrameOffset(layout, s) + c;
    assert q < ClearBlocks(layout);
    assert k * q + k <= k * ClearBlocks(layout);
    InBlock(j, q, k);
  }
}
