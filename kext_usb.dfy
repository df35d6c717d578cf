// The USB engine of the legacy OzzyKext kernel extension. It streams in
// interrupt mode only: ConfigureHardware fixes 3856-byte output packets with
// the UART bytes at 432. Every submission is refused once the engine stops
// running. A completion resubmits the packet index it carried plus 2. MIDI-in
// bytes are committed at the slot the read was aimed at, without a full
// check.
module KextUsb {
  import opened Wrappers
  import opened Wrap
  import opened SharedMemory
  import opened SampleRate
  import opened PloytecDriver
  import opened UsbControl
  import opened PloytecUsb
  import MidiRing
  import IoRing
  import UsbBuffer

  /** The rate the kext reads back: the three bytes of the reply, little-endian, with no 4D case. */
  function KextFrameRate(answered: bool, reply: seq<byte>): (r: Option<u32>)
    requires |reply| == 3
    ensures r.Some? <==> answered
    ensures r.Some? ==> r == ReadFrameRate(false, true, reply)
  {
    if answered then ReadFrameRate(false, true, reply) else None
  }

  class Engine {
    /** mSHM: the mapped shared memory, if any. */
    const shm: Shared?
    /** mPipeMidiIn was found. */
    const midiPipe: bool
    var running: bool
    /** mIsBulk, as a packet layout. */
    var mode: IoRing.Layout
    var packetSizeOut: nat
    var midiOffset: nat
    var hwSampleTime: u64
    /** Control requests sent on the default pipe, in order. */
    var requests: seq<ControlRequest>
    /** PCM transfers submitted, in order. */
    var pcmOut: seq<Transfer>
    var pcmIn: seq<Transfer>
    /** The midiIn ring slot of each one-byte MIDI read submitted. */
    var midiReads: seq<nat>

    predicate Valid()
      reads this, shm, if shm != null then {shm.midiOut, shm.midiIn} else {}
    {
      midiOffset <= 480 && packetSizeOut <= BulkPacketSizeOut
      && (shm != null ==>
            shm.Valid() && shm.inputBuffer.Length == InputBufferSize && shm.outputBuffer.Length == OutputBufferSize)
    }

    constructor (shm: Shared?, midiPipe: bool)
      requires shm != null ==>
        shm.Valid() && shm.inputBuffer.Length == InputBufferSize && shm.outputBuffer.Length == OutputBufferSize
      ensures Valid() && this.shm == shm && this.midiPipe == midiPipe
      ensures !running && mode == IoRing.Interrupt && packetSizeOut == 0 && midiOffset == 0 && hwSampleTime == 0
      ensures requests == [] && pcmOut == [] && pcmIn == [] && midiReads == []
    {
      this.shm := shm;
      this.midiPipe := midiPipe;
      running := false;
      mode := IoRing.Interrupt;
      packetSizeOut, midiOffset, hwSampleTime := 0, 0, 0;
      requests, pcmOut, pcmIn, midiReads := [], [], [], [];
    }

    /**
     * ConfigureHardware after the interface search: nothing without an
     * interface or without both PCM pipes; otherwise interrupt mode is
     * fixed, the control exchange sent and streaming started.
     */
    method ConfigureHardware(interfaceFound: bool, pcmPipes: bool) returns (ok: bool)
      requires Valid()
      modifies this, if shm != null then {shm, shm.inputBuffer, shm.outputBuffer, shm.midiOut} else {}
      ensures Valid()
      ensures ok <==> interfaceFound && pcmPipes
      ensures !ok ==> requests == old(requests) && running == old(running) && pcmOut == old(pcmOut)
      ensures ok ==>
        mode == IoRing.Interrupt && packetSizeOut == InterruptPacketSizeOut && midiOffset == 432
        && requests == old(requests) + StartupRequests() && running
      ensures ok && shm != null ==> StreamingStarted(old(pcmOut), old(pcmIn))
    {
      if !interfaceFound || !pcmPipes {
        return false;
      }
      mode := IoRing.Interrupt;
      packetSizeOut := InterruptPacketSizeOut;
      midiOffset := 432;
      requests := requests + StartupRequests();
      StartStreaming();
      ok := true;
    }

    /**
     * The state StartStreaming leaves with shared memory: the hardware
     * present and the driver ready, clock and positions at zero, the input
     * buffer zero, the output buffer prefilled, and packets 0 and 1 out and
     * in.
     */
    ghost predicate StreamingStarted(pcmOut0: seq<Transfer>, pcmIn0: seq<Transfer>)
      reads this, shm, if shm != null then {shm.inputBuffer, shm.outputBuffer} else {}
      requires shm != null
    {
      shm.hardwarePresent && shm.driverReady && hwSampleTime == 0 && shm.sampleTime == 0 && shm.halWritePosition == 0
      && shm.inputBuffer.Length == InputBufferSize && shm.outputBuffer.Length == OutputBufferSize
      && (forall j :: 0 <= j < InputBufferSize ==> shm.inputBuffer[j] == 0)
      && (forall j :: 0 <= j < OutputBufferSize ==> shm.outputBuffer[j] == PrefillByte(IoRing.Interrupt, InterruptPacketSizeOut, j))
      && pcmOut == pcmOut0 + InitialOut(InterruptPacketSizeOut, InterruptPacketSizeOut, DefaultUrbs)
      && pcmIn == pcmIn0 + InitialIn(DefaultUrbs)
    }

    /**
     * StartStreaming: the engine runs from now on; with shared memory the
     * hardware is marked present, the clock and positions reset, the
     * buffers zeroed and prefilled, a MIDI read armed, packets 0 and 1
     * submitted out then in, and driverReady set last.
     */
    method StartStreaming()
      requires Valid() && mode == IoRing.Interrupt && packetSizeOut == InterruptPacketSizeOut && midiOffset == 432
      modifies this`running, this`hwSampleTime, this`pcmOut, this`pcmIn, this`midiReads
      modifies if shm != null then {shm, shm.inputBuffer, shm.outputBuffer, shm.midiOut} else {}
      ensures Valid() && running
      ensures shm == null ==> pcmOut == old(pcmOut) && pcmIn == old(pcmIn) && midiReads == old(midiReads)
      ensures shm != null ==> StreamingStarted(old(pcmOut), old(pcmIn))
      ensures shm != null ==>
        shm.sequence == old(shm.sequence) && shm.hostTime == old(shm.hostTime) && shm.sampleRate == old(shm.sampleRate)
        && shm.midiOut.readIndex == old(shm.midiOut.readIndex)
        && midiReads == old(midiReads) + (if midiPipe then [shm.midiIn.writeIndex] else [])
    {
      running := true;
      if shm == null {
        return;
      }
      StartWithMemory();
    }

    /** StartStreaming once the shared memory is known to be mapped. */
    method StartWithMemory()
      requires Valid() && shm != null && running
      requires mode == IoRing.Interrupt && packetSizeOut == InterruptPacketSizeOut && midiOffset == 432
      modifies this`hwSampleTime, this`pcmOut, this`pcmIn, this`midiReads, shm.inputBuffer, shm.outputBuffer
      modifies shm`hardwarePresent, shm`driverReady, shm`sampleTime, shm`halWritePosition, shm.midiOut`readIndex
      ensures Valid() && StreamingStarted(old(pcmOut), old(pcmIn))
      ensures shm.midiOut.readIndex == old(shm.midiOut.readIndex)
      ensures midiReads == old(midiReads) + (if midiPipe then [shm.midiIn.writeIndex] else [])
    {
      shm.hardwarePresent := true;
      shm.driverReady := false;
      hwSampleTime := 0;
      shm.sampleTime := 0;
      shm.halWritePosition := 0;
      UsbBuffer.ZeroFill(shm.inputBuffer);
      ZeroAndPrefillPackets(shm.outputBuffer, mode, packetSizeOut);
      if midiPipe {
        SubmitMIDIin();
      }
      SubmitInitial();
      shm.driverReady := true;
    }

    /** The submission loop of StartStreaming: packets 0 and 1, out before in. */
    method SubmitInitial()
      requires Valid() && shm != null && running && mode == IoRing.Interrupt && packetSizeOut == InterruptPacketSizeOut
      modifies this`pcmOut, this`pcmIn, shm.outputBuffer, shm.midiOut`readIndex
      ensures Valid() && shm.outputBuffer[..] == old(shm.outputBuffer[..])
      ensures shm.midiOut.readIndex == old(shm.midiOut.readIndex)
      ensures pcmOut == old(pcmOut) + InitialOut(InterruptPacketSizeOut, InterruptPacketSizeOut, DefaultUrbs)
      ensures pcmIn == old(pcmIn) + InitialIn(DefaultUrbs)
    {
      var i := 0;
      while i < DefaultUrbs
        invariant i <= DefaultUrbs && Valid()
        invariant shm.outputBuffer[..] == old(shm.outputBuffer[..])
        invariant shm.midiOut.readIndex == old(shm.midiOut.readIndex)
        invariant pcmOut == old(pcmOut) + InitialOut(InterruptPacketSizeOut, InterruptPacketSizeOut, i)
        invariant pcmIn == old(pcmIn) + InitialIn(i)
      {
        SubmitPCMout(i);
        SubmitPCMin(i);
        i := i + 1;
      }
    }

    /**
     * SubmitPCMout: refused unless running; the packet starts at
     * slot * packetSizeOut and, in bulk mode, carries the oldest midiOut
     * byte (or 0xFD) and then 0xFD at midiOffset.
     */
    method SubmitPCMout(index: nat)
      requires Valid() && shm != null
      modifies this`pcmOut, shm.outputBuffer, shm.midiOut`readIndex
      ensures Valid()
      ensures !running ==>
        pcmOut == old(pcmOut) && shm.outputBuffer[..] == old(shm.outputBuffer[..])
        && shm.midiOut.readIndex == old(shm.midiOut.readIndex)
      ensures running ==> pcmOut == old(pcmOut) + [Transfer(PacketBase(index, packetSizeOut), packetSizeOut)]
      ensures running && mode == IoRing.Bulk ==>
        shm.outputBuffer[..] == MidiPair(old(shm.outputBuffer[..]), PacketBase(index, packetSizeOut) + midiOffset, old(shm.midiOut.Contents()))
        && shm.midiOut.Contents() == MidiRing.Drop(old(shm.midiOut.Contents()), 1)
      ensures mode == IoRing.Interrupt ==>
        shm.outputBuffer[..] == old(shm.outputBuffer[..]) && shm.midiOut.readIndex == old(shm.midiOut.readIndex)
    {
      if !running {
        return;
      }
      var off := PacketBase(index, packetSizeOut);
      if mode == IoRing.Bulk {
        MidiRing.PopToSlot(shm.midiOut, shm.outputBuffer, off + midiOffset);
        shm.outputBuffer[off + midiOffset + 1] := MidiRing.Idle;
      }
      pcmOut := pcmOut + [Transfer(off, packetSizeOut)];
    }

    /** SubmitPCMin: refused unless running; a 5120-byte read into the slot of `index`. */
    method SubmitPCMin(index: nat)
      modifies this`pcmIn
      ensures pcmIn == old(pcmIn) + (if running then [Transfer(InputOffset(index), PacketSizeIn)] else [])
    {
      if !running {
        return;
      }
      pcmIn := pcmIn + [Transfer(InputOffset(index), PacketSizeIn)];
    }

    /** SubmitMIDIin: refused unless running with a MIDI pipe; a one-byte read at writeIndex. */
    method SubmitMIDIin()
      requires shm != null
      modifies this`midiReads
      ensures midiReads == old(midiReads) + (if running && midiPipe then [shm.midiIn.writeIndex] else [])
    {
      if !running || !midiPipe {
        return;
      }
      midiReads := midiReads + [shm.midiIn.writeIndex];
    }

    /**
     * PCMoutComplete for the packet `index` it carried: while running,
     * packet index + 2 is submitted whatever the status, and a success with
     * the driver ready advances the clock 80 frames, publishing on
     * multiples of 640 (`now` is mach_absolute_time).
     */
    method PCMoutComplete(index: u32, status: IOReturn, now: u64)
      requires Valid() && shm != null
      modifies this`pcmOut, this`hwSampleTime, shm.outputBuffer, shm.midiOut`readIndex,
        shm`sequence, shm`sampleTime, shm`hostTime, shm`sequenceStores
      ensures Valid()
      ensures pcmOut == old(pcmOut) + (if running then [Transfer(PacketBase(Add32(index, DefaultUrbs), packetSizeOut), packetSizeOut)] else [])
      ensures hwSampleTime == if running && status == Success && shm.driverReady
        then Add64(old(hwSampleTime), FramesPerPacket) else old(hwSampleTime)
      ensures running && status == Success && shm.driverReady && hwSampleTime % ZeroTimestampPeriod == 0 ==>
        shm.sampleTime == hwSampleTime && shm.hostTime == now && shm.sequence == Add32(old(shm.sequence), 2)
        && shm.sequenceStores == old(shm.sequenceStores) + [Add32(old(shm.sequence), 1), Add32(old(shm.sequence), 2)]
      ensures !(running && status == Success && shm.driverReady && hwSampleTime % ZeroTimestampPeriod == 0) ==>
        shm.sampleTime == old(shm.sampleTime) && shm.hostTime == old(shm.hostTime)
        && shm.sequence == old(shm.sequence) && shm.sequenceStores == old(shm.sequenceStores)
    {
      if running {
        SubmitPCMout(Add32(index, DefaultUrbs));
      }
      if running && status == Success && shm.driverReady {
        var published;
        hwSampleTime, published := Tick(shm, hwSampleTime, now);
      }
    }

    /** PCMinComplete for the packet `index` it carried: index + 2 is read only after a success while running. */
    method PCMinComplete(index: u32, status: IOReturn)
      modifies this`pcmIn
      ensures pcmIn == old(pcmIn) + (if running && status == Success then [Transfer(InputOffset(Add32(index, DefaultUrbs)), PacketSizeIn)] else [])
    {
      if running && status == Success {
        SubmitPCMin(Add32(index, DefaultUrbs));
      }
    }

    /**
     * MIDIinComplete for the read aimed at slot `wSlot`: while running, a
     * success with a byte other than 0xFD there sets writeIndex to the slot
     * after it, full ring or not; a read is re-armed after any status.
     */
    method MIDIinComplete(wSlot: MidiRing.Index, status: IOReturn)
      requires Valid() && shm != null
      modifies shm.midiIn`writeIndex, this`midiReads
      ensures Valid()
      ensures shm.midiIn.readIndex == old(shm.midiIn.readIndex)
      ensures running && status == Success && old(shm.midiIn.buffer[wSlot]) != MidiRing.Idle ==>
        shm.midiIn.writeIndex == MidiRing.Next(wSlot)
      ensures !(running && status == Success && old(shm.midiIn.buffer[wSlot]) != MidiRing.Idle) ==>
        shm.midiIn.writeIndex == old(shm.midiIn.writeIndex)
      ensures running && status == Success && old(shm.midiIn.writeIndex) == wSlot ==>
        shm.midiIn.Contents() == MidiRing.Overrun(old(shm.midiIn.Contents()), old(shm.midiIn.buffer[wSlot]))
      ensures midiReads == old(midiReads) + (if running && midiPipe then [shm.midiIn.writeIndex] else [])
    {
      if running && status == Success {
        shm.midiIn.CommitUnchecked(wSlot);
        SubmitMIDIin();
      } else if running {
        SubmitMIDIin();
      }
    }

    /** ReadFirmwareVersion: one 'V' request; the version is only reported. */
    method ReadFirmwareVersion(answered: bool, reply: seq<byte>) returns (fw: Option<Firmware>)
      requires |reply| >= 3
      modifies this`requests
      ensures requests == old(requests) + [FirmwareRequest]
      ensures fw.Some? <==> answered
      ensures fw.Some? ==> fw.value.id == reply[0] && fw.value.minor * 10 + fw.value.patch == reply[2]
    {
      requests := requests + [FirmwareRequest];
      fw := if answered then Some(DecodeFirmware(reply)) else None;
    }

    /** ReadHardwareStatus: one 'I' request; the flags of an answered status byte are only reported. */
    method ReadHardwareStatus(answered: bool, status: bv8) returns (st: Option<HardwareStatus>)
      modifies this`requests
      ensures requests == old(requests) + [StatusRequest]
      ensures st.Some? <==> answered
      ensures st.Some? ==> EncodeStatus(st.value) == status & 0xB7
    {
      requests := requests + [StatusRequest];
      if !answered {
        return None;
      }
      st := Some(DecodeStatus(status));
      StatusKeepsFlagBits(status);
    }

    /**
     * stop: the engine stops running, so every later submission and every
     * completion handler does nothing; releasing the pipes is the USB stack's.
     */
    method Stop()
      modifies this`running
      ensures !running
    {
      running := false;
    }

    /** GetHardwareFrameRate: one GET_CUR; the three bytes read are decoded little-endian. */
    method GetHardwareFrameRate(answered: bool, reply: seq<byte>) returns (rate: Option<u32>)
      requires |reply| == 3
      modifies this`requests
      ensures requests == old(requests) + [GetRateRequest]
      ensures rate == KextFrameRate(answered, reply)
    {
      requests := requests + [GetRateRequest];
      rate := KextFrameRate(answered, reply);
    }

    /** SetHardwareFrameRate: the five SET_CUR requests; the answer to the last is the result. */
    method SetHardwareFrameRate(rate: u32, outcomes: seq<bool>) returns (sent: seq<byte>, ok: bool)
      requires |outcomes| == |RateEndpoints|
      modifies this`requests
      ensures requests == old(requests) + RateRequests()
      ensures sent == Encode24(rate) && ok == outcomes[4]
    {
      requests := requests + RateRequests();
      sent := Encode24(rate);
      ok := outcomes[4];
    }

    /** WriteHardwareStatus: one 'I' write of `value`. */
    method WriteHardwareStatus(value: u16, answered: bool) returns (ok: bool)
      modifies this`requests
      ensures requests == old(requests) + [WriteStatusRequest(value)] && ok == answered
    {
      requests := requests + [WriteStatusRequest(value)];
      ok := answered;
    }
  }
}
