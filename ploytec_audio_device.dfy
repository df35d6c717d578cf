// PloytecAudioDevice: the AudioDriverKit device of the Ploytec driver.  Its
// interrupt-mode fill encodes ten CoreAudio frames into the start of the
// outgoing packet, each at its own padded offset, and keeps a sample
// counter that rolls the zero timestamp over once per buffer.
module PloytecAudioDevice {
  import opened Wrap
  import opened FrameLayout
  import opened IoRing
  import PloytecCodec

  /** INITIAL_BUFFERSIZE: the CoreAudio ring size, and the value `currentsample` rolls over at. */
  const BufferSize: nat := 2560
  /** Frames encoded by one interrupt fill. */
  const FillFrames: nat := 10
  /** What one fill adds to `currentsample`. */
  const FillAdvance: nat := 40

  /** The padding after frame k in FillPCMPacketInt: 0, then 2 for frames 1 to 8, then 4. */
  function FillPad(k: nat): (r: nat)
    ensures k == 0 ==> r == 0
    ensures 1 <= k <= 8 ==> r == 2
    ensures k >= 9 ==> r == 4
  {
    if k == 0 then 0 else if k < 9 then 2 else 4
  }

  /** Byte offset of frame k in the packet FillPCMPacketInt writes. */
  function FillOffset(k: nat): nat
  {
    k * FrameSizeOut + FillPad(k)
  }

  /** Byte offset in the CoreAudio buffer of the frame encoded as frame k: the modulo binds to k * 24 only. */
  function FillSource(sample: u64, k: nat): nat
  {
    sample * S24Frame + (k * S24Frame) % BufferSize
  }

  /** The ten fill frames lie apart from one another, in order. */
  lemma FillOffsetsApart(k: nat, i: nat)
    requires k < i
    ensures FillOffset(k) + FrameSizeOut <= FillOffset(i)
  {
  }

  /** The ten frames end at byte 484: they fit a 1928-byte interrupt packet. */
  lemma FillFits(k: nat)
    requires k < FillFrames
    ensures FillOffset(k) + FrameSizeOut <= FillOffset(9) + FrameSizeOut == 484
  {
  }

  /** Frame 8 covers bytes 432 and 433 of the first 482-byte block, where the interrupt layout keeps its UART bytes. */
  lemma FillCoversUartBytes()
    ensures FillOffset(8) <= GapByte(Interrupt, 0, 0) < GapByte(Interrupt, 0, 1) < FillOffset(8) + FrameSizeOut
    ensures FillOffset(9) != FrameOffset(Interrupt, 9)
  {
  }

  function FillOffsets(n: nat): (r: seq<int>)
    ensures |r| == n
  {
    seq(n, k requires 0 <= k < n => FillOffset(k))
  }

  /** The frames one fill encodes: frame k from the CoreAudio bytes at FillSource(sample, k). */
  function FillFramesFrom(sample: u64, n: nat, src: seq<bv8>): (r: seq<seq<bv8>>)
    requires n <= FillFrames && sample * S24Frame + S24Frame * FillFrames <= |src|
    ensures |r| == n
  {
    seq(n, k requires 0 <= k < n =>
      var o := FillSource(sample, k); PloytecCodec.Encode(src[o..o + S24Frame]))
  }

  /** One more encoded frame extends the fill layout by frame k. */
  lemma FillStep(a: seq<bv8>, before: seq<bv8>, sample: u64, k: nat, src: seq<bv8>, a2: seq<bv8>)
    requires k < FillFrames && sample * S24Frame + S24Frame * FillFrames <= |src|
    requires Laid(a, before, FillOffsets(k), FillFramesFrom(sample, k, src), FrameSizeOut)
    requires var o := FillOffset(k); var so := FillSource(sample, k);
      o + FrameSizeOut <= |a| && a2 == a[..o] + PloytecCodec.Encode(src[so..so + S24Frame]) + a[o + FrameSizeOut..]
    ensures Laid(a2, before, FillOffsets(k + 1), FillFramesFrom(sample, k + 1, src), FrameSizeOut)
  {
    var so := FillSource(sample, k);
    var f := PloytecCodec.Encode(src[so..so + S24Frame]);
    forall j | 0 <= j < k
      ensures FillOffsets(k)[j] + FrameSizeOut <= FillOffset(k)
    {
      FillOffsetsApart(j, k);
    }
    LaidStep(a, before, FillOffsets(k), FillFramesFrom(sample, k, src), FrameSizeOut, FillOffset(k), f, a2);
    assert FillOffsets(k + 1) == FillOffsets(k) + [FillOffset(k)];
    assert FillFramesFrom(sample, k + 1, src) == FillFramesFrom(sample, k, src) + [f];
  }

  /** One ploytecPCMencode call of FillPCMPacketInt: frame k into the packet. */
  method FillFrame(dest: array<bv8>, src: seq<bv8>, ghost before: seq<bv8>, sample: u64, k: nat)
    requires k < FillFrames && FillOffset(9) + FrameSizeOut <= dest.Length
    requires sample * S24Frame + S24Frame * FillFrames <= |src|
    requires Laid(dest[..], before, FillOffsets(k), FillFramesFrom(sample, k, src), FrameSizeOut)
    modifies dest
    ensures Laid(dest[..], before, FillOffsets(k + 1), FillFramesFrom(sample, k + 1, src), FrameSizeOut)
  {
    var so := sample * S24Frame + (k * S24Frame) % BufferSize;
    FillFits(k);
    ghost var a := dest[..];
    PloytecCodec.EncodeInto(dest, FillOffset(k), src[so..so + S24Frame]);
    FillStep(a, before, sample, k, src, dest[..]);
  }

  /** The ten encoder calls of FillPCMPacketInt, frame k at FillOffset(k). */
  method FillPacket(dest: array<bv8>, src: seq<bv8>, sample: u64)
    requires FillOffset(9) + FrameSizeOut <= dest.Length
    requires sample * S24Frame + S24Frame * FillFrames <= |src|
    modifies dest
    ensures Laid(dest[..], old(dest[..]), FillOffsets(FillFrames), FillFramesFrom(sample, FillFrames, src), FrameSizeOut)
  {
    ghost var before := dest[..];
    LaidNothing(before, FrameSizeOut);
    var k := 0;
    while k < FillFrames
      invariant k <= FillFrames
      invariant Laid(dest[..], before, FillOffsets(k), FillFramesFrom(sample, k, src), FrameSizeOut)
    {
      FillFrame(dest, src, before, sample, k);
      k := k + 1;
    }
  }

  class PloytecAudioDevice {
    var startPcmIn: bool
    var startPcmOut: bool
    /** Frames sent since the last zero-timestamp rollover. */
    var currentSample: u32
    /** The base class's current zero timestamp (sample time, host time). */
    var zeroSampleTime: u64
    var zeroHostTime: u64
    /** The CoreAudio output buffer (pcmOutputBufferAddr). */
    const coreAudioOut: array<bv8>

    /** `currentsample` moves in steps of 40 between 0 and the buffer size. */
    predicate Valid()
      reads this
    {
      coreAudioOut.Length == BufferSize
      && currentSample <= BufferSize && currentSample % FillAdvance == 0
    }

    /** init: the I/O flags are clear; the ivars start zeroed. */
    constructor (coreAudioOut: array<bv8>)
      requires coreAudioOut.Length == BufferSize
      ensures Valid() && !startPcmIn && !startPcmOut && currentSample == 0
      ensures this.coreAudioOut == coreAudioOut
    {
      startPcmIn := false;
      startPcmOut := false;
      currentSample := 0;
      zeroSampleTime := 0;
      zeroHostTime := 0;
      this.coreAudioOut := coreAudioOut;
    }

    /** StartIO after the base class and the memory maps succeeded: both flags set, counter and zero timestamp zeroed. */
    method StartIO()
      requires Valid()
      modifies this`startPcmIn, this`startPcmOut, this`currentSample, this`zeroSampleTime, this`zeroHostTime
      ensures Valid()
      ensures startPcmIn && startPcmOut && currentSample == 0
      ensures zeroSampleTime == 0 && zeroHostTime == 0
    {
      startPcmIn := true;
      startPcmOut := true;
      currentSample := 0;
      zeroSampleTime, zeroHostTime := 0, 0;
    }

    /** StopIO: both flags cleared; the counter is left as it is. */
    method StopIO()
      requires Valid()
      modifies this`startPcmIn, this`startPcmOut
      ensures Valid()
      ensures !startPcmIn && !startPcmOut
    {
      startPcmIn := false;
      startPcmOut := false;
    }

    /** FillPCMPacketBulk: its encoding is commented out; it writes nothing and reports success. */
    method FillPCMPacketBulk(buffer: array<bv8>, packetSize: u32, completionTimestamp: u64) returns (ok: bool)
      ensures ok
    {
      ok := true;
    }

    /**
     * FillPCMPacketInt: while playing, roll the zero timestamp over once a
     * buffer's worth has been counted, encode ten CoreAudio frames starting
     * at the client sample time into the packet and count 40 samples;
     * otherwise leave everything alone.  Either way report success.
     */
    method FillPCMPacketInt(buffer: array<bv8>, clientSample: u64, completionTimestamp: u64) returns (ok: bool)
      requires Valid() && buffer != coreAudioOut
      requires FillOffset(9) + FrameSizeOut <= buffer.Length
      requires startPcmOut ==> clientSample * S24Frame + S24Frame * FillFrames <= coreAudioOut.Length
      modifies this`currentSample, this`zeroSampleTime, this`zeroHostTime, buffer
      ensures Valid() && ok
      ensures !startPcmOut ==>
        currentSample == old(currentSample) && zeroSampleTime == old(zeroSampleTime)
        && zeroHostTime == old(zeroHostTime) && buffer[..] == old(buffer[..])
      ensures startPcmOut ==>
        var wrapped := old(currentSample) == BufferSize;
        currentSample == (if wrapped then 0 else old(currentSample)) + FillAdvance
        && (wrapped ==> zeroSampleTime == Add64(old(zeroSampleTime), BufferSize) && zeroHostTime == completionTimestamp)
        && (!wrapped ==> zeroSampleTime == old(zeroSampleTime) && zeroHostTime == old(zeroHostTime))
        && Laid(buffer[..], old(buffer[..]), FillOffsets(FillFrames), FillFramesFrom(clientSample, FillFrames, coreAudioOut[..]), FrameSizeOut)
    {
      if startPcmOut {
        if currentSample == BufferSize {
          currentSample := 0;
          zeroSampleTime, zeroHostTime := Add64(zeroSampleTime, BufferSize), completionTimestamp;
        }
        FillPacket(buffer, coreAudioOut[..], clientSample);
        currentSample := Add32(currentSample, FillAdvance);
      }
      ok := true;
    }
  }
}
