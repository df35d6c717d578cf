// PloytecDevice: the AudioDriverKit device of the Ploytec driver.  The USB
// transfer mode chosen at init installs the bulk or the interrupt I/O
// handler; both resynchronise by a quarter of the zero-timestamp period and
// share the ring codec of IoRing.  Playback and Capture are called per USB
// packet and advance the hardware sample counters.
module PloytecDevice {
  import opened Wrappers
  import opened Wrap
  import opened FrameLayout
  import opened IoRing

  /** Frames per output packet and per input packet. */
  const FramesPerPacketOut: nat := 40
  const FramesPerPacketIn: nat := 32

  /** The transfer mode passed to init; any other value installs no handler. */
  datatype TransferMode = BulkMode | InterruptMode | OtherMode(code: int)

  /** The handler init installs for a transfer mode. */
  function HandlerFor(mode: TransferMode): (r: Option<Layout>)
    ensures mode == InterruptMode <==> r == Some(Interrupt)
    ensures mode == BulkMode <==> r == Some(Bulk)
    ensures mode.OtherMode? <==> r == None
  {
    match mode
    case InterruptMode => Some(Interrupt)
    case BulkMode => Some(Bulk)
    case OtherMode(_) => None
  }

  /** `currentpos` of a packet: the packet index of a counter in a ring of `period` frames, as uint16. */
  function PacketIndex(counter: u64, period: nat, framesPerPacket: nat): (r: u16)
    requires period > 0 && framesPerPacket > 0
    ensures (counter % period) / framesPerPacket < U16 ==> r * framesPerPacket <= counter % period < (r + 1) * framesPerPacket
  {
    ((counter % period) / framesPerPacket) % U16
  }

  class PloytecDevice {
    /** GetZeroTimestampPeriod(): the ring size in frames. */
    var zeroTimestampPeriod: u32
    var hwSampleTimeIn: u64
    var hwSampleTimeOut: u64
    var outHwSampleTimeUsb: u64
    var outCurrentBufferPosUsb: u16
    var xruns: u64
    var startPcmIn: bool
    var startPcmOut: bool
    /** The base class's current zero timestamp (sample time, host time). */
    var zeroSampleTime: u64
    var zeroHostTime: u64
    /** The I/O handler installed at init. */
    var handler: Option<Layout>
    const ploytecOut: array<bv8>
    const coreAudioOut: array<bv8>
    const ploytecIn: array<bv8>
    const coreAudioIn: array<bv8>

    predicate Valid()
      reads this
    {
      ploytecOut != coreAudioOut && ploytecOut != ploytecIn && ploytecOut != coreAudioIn
      && coreAudioOut != ploytecIn && coreAudioOut != coreAudioIn && ploytecIn != coreAudioIn
    }

    /** init after its CoreAudio setup succeeded: flags cleared, the mode's handler installed. */
    constructor (period: u32, mode: TransferMode,
                 ploytecOut: array<bv8>, coreAudioOut: array<bv8>, ploytecIn: array<bv8>, coreAudioIn: array<bv8>)
      requires ploytecOut != coreAudioOut && ploytecOut != ploytecIn && ploytecOut != coreAudioIn
      requires coreAudioOut != ploytecIn && coreAudioOut != coreAudioIn && ploytecIn != coreAudioIn
      ensures Valid() && zeroTimestampPeriod == period && handler == HandlerFor(mode)
      ensures !startPcmIn && !startPcmOut && xruns == 0
      ensures hwSampleTimeIn == 0 && hwSampleTimeOut == 0 && outCurrentBufferPosUsb == 0
      ensures this.ploytecOut == ploytecOut && this.coreAudioOut == coreAudioOut
      ensures this.ploytecIn == ploytecIn && this.coreAudioIn == coreAudioIn
    {
      zeroTimestampPeriod := period;
      hwSampleTimeIn := 0;
      hwSampleTimeOut := 0;
      outHwSampleTimeUsb := 0;
      outCurrentBufferPosUsb := 0;
      xruns := 0;
      startPcmIn := false;
      startPcmOut := false;
      zeroSampleTime := 0;
      zeroHostTime := 0;
      handler := HandlerFor(mode);
      this.ploytecOut := ploytecOut;
      this.coreAudioOut := coreAudioOut;
      this.ploytecIn := ploytecIn;
      this.coreAudioIn := coreAudioIn;
    }

    /**
     * The installed handler on WriteEnd: resynchronise the out counter to a
     * quarter period behind t when it is out of step, then encode the
     * cycle's frames at the handler's layout.
     */
    method WriteEnd(n: u32, t: u64)
      requires Valid() && handler.Some? && zeroTimestampPeriod > 0
      requires RingBytes(handler.value, zeroTimestampPeriod) <= ploytecOut.Length
      requires S24Frame * zeroTimestampPeriod <= coreAudioOut.Length
      modifies this`hwSampleTimeOut, this`xruns, ploytecOut
      ensures OutOfStepOut(old(hwSampleTimeOut), t, zeroTimestampPeriod, n) ==>
        xruns == Add64(old(xruns), 1) && hwSampleTimeOut == Sub64(t, zeroTimestampPeriod / 4)
      ensures !OutOfStepOut(old(hwSampleTimeOut), t, zeroTimestampPeriod, n) ==>
        xruns == old(xruns) && hwSampleTimeOut == old(hwSampleTimeOut)
      ensures Laid(ploytecOut[..], old(ploytecOut[..]), WriteOffsets(handler.value, t, n, zeroTimestampPeriod),
                   WriteFrames(t, n, zeroTimestampPeriod, coreAudioOut[..]), FrameSizeOut)
      ensures GapsKept(handler.value, ploytecOut[..], old(ploytecOut[..]))
    {
      if OutOfStepOut(hwSampleTimeOut, t, zeroTimestampPeriod, n) {
        xruns := Add64(xruns, 1);
        hwSampleTimeOut := Sub64(t, zeroTimestampPeriod / 4);
      }
      EncodeCycle(handler.value, ploytecOut, coreAudioOut[..], t, n, zeroTimestampPeriod);
    }

    /**
     * The installed handler on BeginRead (the same in both modes):
     * resynchronise the in counter to a quarter period ahead of t when it is
     * out of step, then decode the cycle's frames.
     */
    method BeginRead(n: u32, t: u64)
      requires Valid() && handler.Some? && zeroTimestampPeriod > 0
      requires FrameSizeIn * zeroTimestampPeriod <= ploytecIn.Length
      requires S24Frame * zeroTimestampPeriod <= coreAudioIn.Length
      modifies this`hwSampleTimeIn, this`xruns, coreAudioIn
      ensures OutOfStepIn(old(hwSampleTimeIn), t, zeroTimestampPeriod, n) ==>
        xruns == Add64(old(xruns), 1) && hwSampleTimeIn == Add64(t, zeroTimestampPeriod / 4)
      ensures !OutOfStepIn(old(hwSampleTimeIn), t, zeroTimestampPeriod, n) ==>
        xruns == old(xruns) && hwSampleTimeIn == old(hwSampleTimeIn)
      ensures Laid(coreAudioIn[..], old(coreAudioIn[..]), ReadOffsets(t, n, zeroTimestampPeriod),
                   ReadFrames(t, n, zeroTimestampPeriod, ploytecIn[..]), S24Frame)
    {
      if OutOfStepIn(hwSampleTimeIn, t, zeroTimestampPeriod, n) {
        xruns := Add64(xruns, 1);
        hwSampleTimeIn := Add64(t, zeroTimestampPeriod / 4);
      }
      DecodeCycle(coreAudioIn, ploytecIn[..], t, n, zeroTimestampPeriod);
    }

    /**
     * Playback: while playing, report the packet the out counter points at,
     * roll the zero timestamp over once per period, and advance the out
     * counter and the buffer position by 40 frames; otherwise return false
     * with `currentpos` and the state untouched.
     */
    method Playback(currentpos: u16, completionTimestamp: u64) returns (ok: bool, pos: u16)
      requires zeroTimestampPeriod > 0
      modifies this`hwSampleTimeOut, this`outCurrentBufferPosUsb, this`outHwSampleTimeUsb,
               this`zeroSampleTime, this`zeroHostTime
      ensures ok == old(startPcmOut)
      ensures !ok ==>
        pos == currentpos && hwSampleTimeOut == old(hwSampleTimeOut)
        && outCurrentBufferPosUsb == old(outCurrentBufferPosUsb)
        && zeroSampleTime == old(zeroSampleTime) && zeroHostTime == old(zeroHostTime)
      ensures ok ==>
        var wrapped := old(outCurrentBufferPosUsb) == zeroTimestampPeriod;
        pos == PacketIndex(old(hwSampleTimeOut), zeroTimestampPeriod, FramesPerPacketOut)
        && hwSampleTimeOut == Add64(old(hwSampleTimeOut), FramesPerPacketOut)
        && outCurrentBufferPosUsb == Add16(if wrapped then 0 else old(outCurrentBufferPosUsb), FramesPerPacketOut)
        && (wrapped ==> zeroSampleTime == Add64(old(zeroSampleTime), zeroTimestampPeriod) && zeroHostTime == completionTimestamp)
        && (!wrapped ==> zeroSampleTime == old(zeroSampleTime) && zeroHostTime == old(zeroHostTime))
    {
      if startPcmOut {
        pos := PacketIndex(hwSampleTimeOut, zeroTimestampPeriod, FramesPerPacketOut);
        if outCurrentBufferPosUsb == zeroTimestampPeriod {
          outCurrentBufferPosUsb := 0;
          outHwSampleTimeUsb := Add64(zeroSampleTime, zeroTimestampPeriod);
          zeroSampleTime, zeroHostTime := outHwSampleTimeUsb, completionTimestamp;
        }
        hwSampleTimeOut := Add64(hwSampleTimeOut, FramesPerPacketOut);
        outCurrentBufferPosUsb := Add16(outCurrentBufferPosUsb, FramesPerPacketOut);
        ok := true;
      } else {
        pos := currentpos;
        ok := false;
      }
    }

    /**
     * Capture: while recording, report the packet the in counter points at
     * and advance it by 32 frames; otherwise return false with nothing changed.
     */
    method Capture(currentpos: u16) returns (ok: bool, pos: u16)
      requires zeroTimestampPeriod > 0
      modifies this`hwSampleTimeIn
      ensures ok == startPcmIn
      ensures !ok ==> pos == currentpos && hwSampleTimeIn == old(hwSampleTimeIn)
      ensures ok ==>
        pos == PacketIndex(old(hwSampleTimeIn), zeroTimestampPeriod, FramesPerPacketIn)
        && hwSampleTimeIn == Add64(old(hwSampleTimeIn), FramesPerPacketIn)
    {
      if startPcmIn {
        pos := PacketIndex(hwSampleTimeIn, zeroTimestampPeriod, FramesPerPacketIn);
        hwSampleTimeIn := Add64(hwSampleTimeIn, FramesPerPacketIn);
        ok := true;
      } else {
        pos := currentpos;
        ok := false;
      }
    }

    /** StartIO after the base class and the memory maps succeeded. */
    method StartIO()
      modifies this`zeroSampleTime, this`zeroHostTime, this`hwSampleTimeOut, this`hwSampleTimeIn,
               this`startPcmOut, this`startPcmIn
      ensures zeroSampleTime == 0 && zeroHostTime == 0
      ensures hwSampleTimeOut == 0 && hwSampleTimeIn == 0 && startPcmOut && startPcmIn
    {
      zeroSampleTime, zeroHostTime := 0, 0;
      hwSampleTimeOut := 0;
      hwSampleTimeIn := 0;
      startPcmOut := true;
      startPcmIn := true;
    }

    /** StopIO: both directions stop, whatever the base class answers. */
    method StopIO()
      modifies this`startPcmOut, this`startPcmIn
      ensures !startPcmOut && !startPcmIn
    {
      startPcmOut := false;
      startPcmIn := false;
    }

    /** GetPlaybackStats, given the client I/O times of both directions. */
    function PlaybackStatsFor(outClientTime: u64, inClientTime: u64): (s: PlaybackStats)
      reads this
      ensures s.playing == startPcmOut && s.recording == startPcmIn && s.xruns == xruns
      ensures s.outSampleTime == outClientTime && s.inSampleTime == inClientTime
      ensures s.outSampleTimeUsb == hwSampleTimeOut && s.inSampleTimeUsb == hwSampleTimeIn
      ensures Add64(outClientTime, s.outSampleTimeDiff) == hwSampleTimeOut
      ensures Add64(inClientTime, s.inSampleTimeDiff) == hwSampleTimeIn
    {
      PlaybackStats(startPcmOut, startPcmIn,
        outClientTime, hwSampleTimeOut, Sub64(hwSampleTimeOut, outClientTime),
        inClientTime, hwSampleTimeIn, Sub64(hwSampleTimeIn, inClientTime),
        xruns)
    }
  }
}
