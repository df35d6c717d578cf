// XoneDB4Device: the AudioDriverKit device of the Xone:DB4 driver on the
// interrupt endpoint.  CoreAudio's S24_3LE ring is encoded into a ring of
// 482-byte USB blocks (nine 48-byte frames, the two 0xFD UART bytes at 432,
// then the tenth frame), and 64-byte capture frames are decoded back into
// CoreAudio's input ring.
module XoneDB4Device {
  import opened Wrap
  import opened FrameLayout
  import opened IoRing

  /** Frames CoreAudio and the USB ring hold when the driver starts. */
  const InitialBufferSize: nat := 2560
  /** Frames per packet sent (4 blocks of 10) and received (4 of 8). */
  const TotalFramesOut: nat := 40
  const TotalFramesIn: nat := 32
  /** Bytes of one output packet (4 blocks) and one input packet (4 x 512). */
  const PcmSizeOut: nat := 1928
  const PcmSizeIn: nat := 2048

  datatype Status = Success | OtherStatus(code: int)

  /** Which buffer an AsyncIO call was given. */
  datatype Submission = Packet(index: int) | EmptyPacket

  /** The UART bytes of packet `p` (four interrupt blocks): bytes 432 and 433 of each block. */
  function PacketUartBytes(p: nat): (r: seq<nat>)
    ensures |r| == 8
    ensures forall k :: 0 <= k < 8 ==> r[k] == GapByte(Interrupt, 4 * p + k / 2, k % 2)
  {
    var base := PcmSizeOut * p;
    [base + 432, base + 433, base + 914, base + 915, base + 1396, base + 1397, base + 1878, base + 1879]
  }

  class XoneDB4Device {
    var bufferSize: u32
    var zeroTimestampPeriod: u32
    var outSampleTimeUsb: u64
    var inSampleTimeUsb: u64
    var outHwSampleTimeUsb: u64
    var outCurrentBufferPosUsb: u16
    var xruns: u64
    var startPcmIn: bool
    var startPcmOut: bool
    /** The base class's current zero timestamp (sample time, host time). */
    var zeroSampleTime: u64
    var zeroHostTime: u64
    /** AsyncIO submissions on the out and in pipes, in order. */
    var outSubmissions: seq<Submission>
    var inSubmissions: seq<Submission>
    /** PloytecOutputBufferAddr, CoreAudioOutputBufferAddr, PloytecInputBufferAddr, CoreAudioInputBufferAddr. */
    const ploytecOut: array<bv8>
    const coreAudioOut: array<bv8>
    const ploytecIn: array<bv8>
    const coreAudioIn: array<bv8>

    predicate Valid()
      reads this
    {
      ploytecOut != coreAudioOut && ploytecOut != ploytecIn && ploytecOut != coreAudioIn
      && coreAudioOut != ploytecIn && coreAudioOut != coreAudioIn && ploytecIn != coreAudioIn
    }

    constructor (ploytecOut: array<bv8>, coreAudioOut: array<bv8>, ploytecIn: array<bv8>, coreAudioIn: array<bv8>)
      requires ploytecOut != coreAudioOut && ploytecOut != ploytecIn && ploytecOut != coreAudioIn
      requires coreAudioOut != ploytecIn && coreAudioOut != coreAudioIn && ploytecIn != coreAudioIn
      ensures Valid() && bufferSize == InitialBufferSize && zeroTimestampPeriod == InitialBufferSize
      ensures !startPcmIn && !startPcmOut && xruns == 0
      ensures outSampleTimeUsb == 0 && inSampleTimeUsb == 0 && outCurrentBufferPosUsb == 0
      ensures outSubmissions == [] && inSubmissions == []
      ensures this.ploytecOut == ploytecOut && this.coreAudioOut == coreAudioOut
      ensures this.ploytecIn == ploytecIn && this.coreAudioIn == coreAudioIn
    {
      bufferSize := InitialBufferSize;
      zeroTimestampPeriod := InitialBufferSize;
      outSampleTimeUsb := 0;
      inSampleTimeUsb := 0;
      outHwSampleTimeUsb := 0;
      outCurrentBufferPosUsb := 0;
      xruns := 0;
      startPcmIn := false;
      startPcmOut := false;
      zeroSampleTime := 0;
      zeroHostTime := 0;
      outSubmissions := [];
      inSubmissions := [];
      this.ploytecOut := ploytecOut;
      this.coreAudioOut := coreAudioOut;
      this.ploytecIn := ploytecIn;
      this.coreAudioIn := coreAudioIn;
    }

    /**
     * io_operation, WriteEnd: resynchronise the USB write counter if it has
     * drifted out of the window, then encode the cycle's frames into the
     * output ring at the interrupt layout's offsets.
     */
    method WriteEnd(n: u32, t: u64)
      requires Valid() && bufferSize > 0
      requires RingBytes(Interrupt, bufferSize) <= ploytecOut.Length
      requires S24Frame * bufferSize <= coreAudioOut.Length
      modifies this`outSampleTimeUsb, this`xruns, ploytecOut
      ensures OutOfStepOut(old(outSampleTimeUsb), t, bufferSize, n) ==>
        xruns == Add64(old(xruns), 1) && outSampleTimeUsb == Sub64(t, bufferSize / 2)
      ensures !OutOfStepOut(old(outSampleTimeUsb), t, bufferSize, n) ==>
        xruns == old(xruns) && outSampleTimeUsb == old(outSampleTimeUsb)
      ensures Laid(ploytecOut[..], old(ploytecOut[..]), WriteOffsets(Interrupt, t, n, bufferSize),
                   WriteFrames(t, n, bufferSize, coreAudioOut[..]), FrameSizeOut)
      ensures GapsKept(Interrupt, ploytecOut[..], old(ploytecOut[..]))
    {
      if OutOfStepOut(outSampleTimeUsb, t, bufferSize, n) {
        xruns := Add64(xruns, 1);
        outSampleTimeUsb := Sub64(t, bufferSize / 2);
      }
      EncodeCycle(Interrupt, ploytecOut, coreAudioOut[..], t, n, bufferSize);
    }

    /**
     * io_operation, BeginRead: resynchronise the USB read counter if it has
     * drifted out of the window, then decode the cycle's frames from the
     * 64-byte input ring into CoreAudio's input ring.
     */
    method BeginRead(n: u32, t: u64)
      requires Valid() && bufferSize > 0
      requires FrameSizeIn * bufferSize <= ploytecIn.Length
      requires S24Frame * bufferSize <= coreAudioIn.Length
      modifies this`inSampleTimeUsb, this`xruns, coreAudioIn
      ensures OutOfStepIn(old(inSampleTimeUsb), t, bufferSize, n) ==>
        xruns == Add64(old(xruns), 1) && inSampleTimeUsb == Add64(t, bufferSize / 2)
      ensures !OutOfStepIn(old(inSampleTimeUsb), t, bufferSize, n) ==>
        xruns == old(xruns) && inSampleTimeUsb == old(inSampleTimeUsb)
      ensures Laid(coreAudioIn[..], old(coreAudioIn[..]), ReadOffsets(t, n, bufferSize),
                   ReadFrames(t, n, bufferSize, ploytecIn[..]), S24Frame)
    {
      if OutOfStepIn(inSampleTimeUsb, t, bufferSize, n) {
        xruns := Add64(xruns, 1);
        inSampleTimeUsb := Add64(t, bufferSize / 2);
      }
      DecodeCycle(coreAudioIn, ploytecIn[..], t, n, bufferSize);
    }

    /** Write 0xFD into the eight UART bytes of output packet `p`, and nothing else. */
    method MarkUartBytes(p: nat)
      requires PcmSizeOut * p + PcmSizeOut <= ploytecOut.Length
      modifies ploytecOut
      ensures forall k :: 0 <= k < 8 ==> ploytecOut[PacketUartBytes(p)[k]] == 0xFD
      ensures forall j :: 0 <= j < ploytecOut.Length && j !in PacketUartBytes(p) ==> ploytecOut[j] == old(ploytecOut[j])
    {
      var uart := PacketUartBytes(p);
      var k := 0;
      while k < 8
        invariant 0 <= k <= 8
        invariant forall m :: 0 <= m < k ==> ploytecOut[uart[m]] == 0xFD
        invariant forall j :: 0 <= j < ploytecOut.Length && j !in uart[..k] ==> ploytecOut[j] == old(ploytecOut[j])
      {
        ploytecOut[uart[k]] := 0xFD;
        assert uart[..k + 1] == uart[..k] + [uart[k]];
        k := k + 1;
      }
      assert uart[..8] == uart;
    }

    /**
     * SendPCMToDevice: while playing, re-mark the UART bytes of the packet
     * the write counter points at, submit that packet, roll the zero
     * timestamp over every buffer, and advance both counters by 40 frames;
     * otherwise submit the empty packet.  `ioStatus` is AsyncIO's answer.
     */
    method SendPCMToDevice(completionTimestamp: u64, ioStatus: Status) returns (ret: Status)
      requires Valid() && bufferSize > 0
      requires PcmSizeOut * ((bufferSize - 1) / TotalFramesOut) + PcmSizeOut <= ploytecOut.Length
      modifies this`outSubmissions, this`outCurrentBufferPosUsb, this`outHwSampleTimeUsb,
               this`zeroSampleTime, this`zeroHostTime, this`outSampleTimeUsb, ploytecOut
      ensures ret == ioStatus
      ensures !old(startPcmOut) ==>
        outSubmissions == old(outSubmissions) + [EmptyPacket]
        && outSampleTimeUsb == old(outSampleTimeUsb) && outCurrentBufferPosUsb == old(outCurrentBufferPosUsb)
        && zeroSampleTime == old(zeroSampleTime) && zeroHostTime == old(zeroHostTime)
        && ploytecOut[..] == old(ploytecOut[..])
      ensures old(startPcmOut) ==>
        var p := (old(outSampleTimeUsb) % bufferSize) / TotalFramesOut;
        var wrapped := old(outCurrentBufferPosUsb) == bufferSize;
        outSubmissions == old(outSubmissions) + [Packet(p)]
        && outSampleTimeUsb == Add64(old(outSampleTimeUsb), TotalFramesOut)
        && outCurrentBufferPosUsb == Add16(if wrapped then 0 else old(outCurrentBufferPosUsb), TotalFramesOut)
        && (wrapped ==> zeroSampleTime == Add64(old(zeroSampleTime), bufferSize) && zeroHostTime == completionTimestamp)
        && (!wrapped ==> zeroSampleTime == old(zeroSampleTime) && zeroHostTime == old(zeroHostTime))
        && (forall k :: 0 <= k < 8 ==> ploytecOut[PacketUartBytes(p)[k]] == 0xFD)
        && (forall j :: 0 <= j < ploytecOut.Length && j !in PacketUartBytes(p) ==> ploytecOut[j] == old(ploytecOut[j]))
    {
      if startPcmOut {
        var p := (outSampleTimeUsb % bufferSize) / TotalFramesOut;
        MarkUartBytes(p);
        outSubmissions := outSubmissions + [Packet(p)];
        ret := ioStatus;
        if outCurrentBufferPosUsb == bufferSize {
          outCurrentBufferPosUsb := 0;
          outHwSampleTimeUsb := Add64(zeroSampleTime, bufferSize);
          zeroSampleTime, zeroHostTime := outHwSampleTimeUsb, completionTimestamp;
        }
        outSampleTimeUsb := Add64(outSampleTimeUsb, TotalFramesOut);
        outCurrentBufferPosUsb := Add16(outCurrentBufferPosUsb, TotalFramesOut);
      } else {
        outSubmissions := outSubmissions + [EmptyPacket];
        ret := ioStatus;
      }
    }

    /**
     * ReceivePCMfromDevice: while recording, submit the input packet the
     * read counter points at and advance it by 32 frames; otherwise submit
     * the empty packet.
     */
    method ReceivePCMfromDevice(ioStatus: Status) returns (ret: Status)
      requires bufferSize > 0
      modifies this`inSubmissions, this`inSampleTimeUsb
      ensures ret == ioStatus
      ensures !startPcmIn ==> inSubmissions == old(inSubmissions) + [EmptyPacket] && inSampleTimeUsb == old(inSampleTimeUsb)
      ensures startPcmIn ==>
        inSubmissions == old(inSubmissions) + [Packet((old(inSampleTimeUsb) % bufferSize) / TotalFramesIn)]
        && inSampleTimeUsb == Add64(old(inSampleTimeUsb), TotalFramesIn)
    {
      if startPcmIn {
        var p := (inSampleTimeUsb % bufferSize) / TotalFramesIn;
        inSubmissions := inSubmissions + [Packet(p)];
        inSampleTimeUsb := Add64(inSampleTimeUsb, TotalFramesIn);
      } else {
        inSubmissions := inSubmissions + [EmptyPacket];
      }
      ret := ioStatus;
    }

    /** StartIO after the base class and the memory maps succeeded. */
    method StartIO()
      modifies this`zeroSampleTime, this`zeroHostTime, this`outSampleTimeUsb, this`inSampleTimeUsb,
               this`startPcmOut, this`startPcmIn
      ensures zeroSampleTime == 0 && zeroHostTime == 0
      ensures outSampleTimeUsb == 0 && inSampleTimeUsb == 0 && startPcmOut && startPcmIn
    {
      zeroSampleTime, zeroHostTime := 0, 0;
      outSampleTimeUsb := 0;
      inSampleTimeUsb := 0;
      startPcmOut := true;
      startPcmIn := true;
    }

    /** StopIO: both directions stop; the counters keep their values. */
    method StopIO()
      modifies this`startPcmOut, this`startPcmIn
      ensures !startPcmOut && !startPcmIn
    {
      startPcmOut := false;
      startPcmIn := false;
    }

    /** PerformDeviceConfigurationChange with the buffer-size action. */
    method ChangeBufferSize(size: u32)
      modifies this`bufferSize, this`zeroTimestampPeriod
      ensures bufferSize == size && zeroTimestampPeriod == size
    {
      bufferSize := size;
      zeroTimestampPeriod := size;
    }

    /** GetPlaybackStats, given the client I/O times of both directions. */
    function PlaybackStatsFor(outClientTime: u64, inClientTime: u64): (s: PlaybackStats)
      reads this
      ensures s.playing == startPcmOut && s.recording == startPcmIn && s.xruns == xruns
      ensures s.outSampleTimeUsb == outSampleTimeUsb && s.inSampleTimeUsb == inSampleTimeUsb
      ensures Add64(outClientTime, s.outSampleTimeDiff) == outSampleTimeUsb
      ensures Add64(inClientTime, s.inSampleTimeDiff) == inSampleTimeUsb
    {
      PlaybackStats(startPcmOut, startPcmIn,
        outClientTime, outSampleTimeUsb, Sub64(outSampleTimeUsb, outClientTime),
        inClientTime, inSampleTimeUsb, Sub64(inSampleTimeUsb, inClientTime),
        xruns)
    }
  }
}
