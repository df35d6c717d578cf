// The Ozzy variant of the mac-hal USB engine. It streams like ploytecusb,
// with these differences: output packets are taken at slot * packet size
// (3856 bytes apart in interrupt mode, not 4096); MIDI-in bytes are
// committed without looking at readIndex; the transfer mode falls back to
// interrupt when the pipe properties cannot be read; and the clock keeps no
// start anchor.
module OzzyUsb {
  import opened Wrappers
  import opened Wrap
  import opened SharedMemory
  import opened SampleRate
  import opened UsbControl
  import opened PloytecUsb
  import MidiRing
  import IoRing
  import UsbBuffer

  /**
   * DetectTransferMode of Ozzy: the transfer type stays 0 when
   * GetPipeProperties fails, so anything but a bulk pipe means interrupt.
   */
  function OzzyMode(q: PipeQuery): (m: IoRing.Layout)
    ensures m == IoRing.Bulk <==> q == Properties(BulkPipe)
  {
    if q == Properties(BulkPipe) then IoRing.Bulk else IoRing.Interrupt
  }

  /** Where the pipe properties are known, Ozzy and ploytecusb choose the same mode. */
  lemma OzzyModeAgrees(q: PipeQuery)
    requires q.Properties?
    ensures BulkOrInterrupt(q) == Some(OzzyMode(q))
  {
  }

  /**
   * With packets at slot * PacketSizeOut(mode), every block of every packet
   * gets its two MIDI/UART bytes prefilled with 0xFD: bytes
   * slot * size + b * block + gap and the one after it, for each of the 8
   * blocks b.
   */
  lemma PacketBlocksPrefilled(mode: IoRing.Layout, slot: nat, b: nat)
    requires slot < NumPackets && b < 8
    ensures PrefillByte(mode, PacketSizeOut(mode), slot * PacketSizeOut(mode) + b * IoRing.BlockBytes(mode) + IoRing.GapStart(mode)) == MidiRing.Idle
    ensures PrefillByte(mode, PacketSizeOut(mode), slot * PacketSizeOut(mode) + b * IoRing.BlockBytes(mode) + IoRing.GapStart(mode) + 1) == MidiRing.Idle
  {
    var block := IoRing.BlockBytes(mode);
    var k := 8 * slot + b;
    assert slot * PacketSizeOut(mode) + b * block == k * block;
    assert IoRing.GapStart(mode) + k * block + 1 < NumPackets * PacketSizeOut(mode) by {
      assert k * block + block <= 8 * NumPackets * block by {
        MulMonotone(k + 1, 8 * NumPackets, block);
      }
    }
    UsbBuffer.IdlePairs(IoRing.GapStart(mode), block, NumPackets * PacketSizeOut(mode), k);
  }

  class Engine {
    /** mSHM: the mapped shared memory, if any. */
    const shm: Shared?
    /** The device is the Xone:4D (VID 0x0A4A, PID 0xFF4D). */
    const fourD: bool
    const control: ControlChannel
    var mode: IoRing.Layout
    var midiByteOffset: nat
    var packetSizeOut: nat
    var packetSizeIn: nat
    var shutdown: bool
    var inputSequence: u64
    var outputSequence: u64
    var hwSampleTime: u64
    var anchorHostTime: u64
    var wasDriverReady: bool
    var firmware: Firmware
    /** PCM transfers submitted, in order. */
    var pcmOut: seq<Transfer>
    var pcmIn: seq<Transfer>
    /** The midiIn ring slot of each one-byte MIDI read submitted. */
    var midiReads: seq<nat>

    predicate Valid()
      reads this, control, shm, if shm != null then {shm.midiOut, shm.midiIn} else {}
    {
      control.Valid() && midiByteOffset <= 480 && packetSizeOut <= BulkPacketSizeOut && packetSizeIn <= PacketSizeIn
      && (shm != null ==>
            shm.Valid() && shm.inputBuffer.Length == InputBufferSize && shm.outputBuffer.Length == OutputBufferSize)
    }

    constructor (shm: Shared?, fourD: bool, control: ControlChannel)
      requires control.Valid()
      requires shm != null ==>
        shm.Valid() && shm.inputBuffer.Length == InputBufferSize && shm.outputBuffer.Length == OutputBufferSize
      ensures Valid() && this.shm == shm && this.fourD == fourD && this.control == control
      ensures mode == IoRing.Bulk && midiByteOffset == 0 && packetSizeOut == 0 && packetSizeIn == 0
      ensures !shutdown && inputSequence == 0 && outputSequence == 0 && hwSampleTime == 0
      ensures pcmOut == [] && pcmIn == [] && midiReads == []
    {
      this.shm := shm;
      this.fourD := fourD;
      this.control := control;
      mode, midiByteOffset, packetSizeOut, packetSizeIn := IoRing.Bulk, 0, 0, 0;
      shutdown := false;
      inputSequence, outputSequence, hwSampleTime, anchorHostTime := 0, 0, 0, 0;
      wasDriverReady := false;
      firmware := Firmware(0, 0, 0, 0);
      pcmOut, pcmIn, midiReads := [], [], [];
    }

    /**
     * DetectTransferMode: without the PCM-out interface nothing changes;
     * otherwise the mode follows OzzyMode and the MIDI byte sits at 480
     * (bulk) or 432 (interrupt).
     */
    method DetectTransferMode(hasInterface: bool, q: PipeQuery) returns (ok: bool)
      requires Valid()
      modifies this`mode, this`midiByteOffset
      ensures Valid()
      ensures ok == hasInterface
      ensures ok ==> mode == OzzyMode(q) && midiByteOffset == IoRing.GapStart(mode)
      ensures !ok ==> mode == old(mode) && midiByteOffset == old(midiByteOffset)
    {
      if !hasInterface {
        return false;
      }
      mode := OzzyMode(q);
      midiByteOffset := if mode == IoRing.Bulk then 480 else 432;
      ok := true;
    }

    /** ConfigureStreamingFormat: 4096 or 3856 bytes out per packet, 5120 in. */
    method ConfigureStreamingFormat()
      requires Valid()
      modifies this`packetSizeOut, this`packetSizeIn
      ensures Valid()
      ensures packetSizeOut == PacketSizeOut(mode) && packetSizeIn == PacketSizeIn
    {
      packetSizeOut := PacketSizeOut(mode);
      packetSizeIn := PacketSizeIn;
    }

    /** SubmitPCMin: a read of packetSizeIn bytes at slot * packetSizeIn. */
    method SubmitPCMin(index: nat)
      modifies this`pcmIn
      ensures pcmIn == old(pcmIn) + [Transfer(PacketBase(index, packetSizeIn), packetSizeIn)]
    {
      pcmIn := pcmIn + [Transfer(PacketBase(index, packetSizeIn), packetSizeIn)];
    }

    /**
     * SubmitPCMout: the packet starts at slot * packetSizeOut; in bulk mode
     * its MIDI byte is the oldest midiOut byte (consumed) or 0xFD, and the
     * byte after it 0xFD.
     */
    method SubmitPCMout(index: nat)
      requires Valid() && shm != null
      modifies this`pcmOut, shm.outputBuffer, shm.midiOut`readIndex
      ensures Valid()
      ensures pcmOut == old(pcmOut) + [Transfer(PacketBase(index, packetSizeOut), packetSizeOut)]
      ensures mode == IoRing.Bulk ==>
        shm.outputBuffer[..] == MidiPair(old(shm.outputBuffer[..]), PacketBase(index, packetSizeOut) + midiByteOffset, old(shm.midiOut.Contents()))
        && shm.midiOut.Contents() == MidiRing.Drop(old(shm.midiOut.Contents()), 1)
      ensures mode == IoRing.Interrupt ==>
        shm.outputBuffer[..] == old(shm.outputBuffer[..]) && shm.midiOut.readIndex == old(shm.midiOut.readIndex)
    {
      var off := PacketBase(index, packetSizeOut);
      if mode == IoRing.Bulk {
        MidiRing.PopToSlot(shm.midiOut, shm.outputBuffer, off + midiByteOffset);
        shm.outputBuffer[off + midiByteOffset + 1] := MidiRing.Idle;
      }
      pcmOut := pcmOut + [Transfer(off, packetSizeOut)];
    }

    /** SubmitMIDIin: a one-byte read into the midiIn slot at writeIndex. */
    method SubmitMIDIin()
      requires Valid() && shm != null
      modifies this`midiReads
      ensures midiReads == old(midiReads) + [shm.midiIn.writeIndex]
    {
      midiReads := midiReads + [shm.midiIn.writeIndex];
    }

    /** PCMinComplete: nothing during shutdown; unless aborted, packet sequence + 2 is read. */
    method PCMinComplete(result: IOReturn)
      modifies this`inputSequence, this`pcmIn
      ensures shutdown || result == Aborted ==> inputSequence == old(inputSequence) && pcmIn == old(pcmIn)
      ensures !shutdown && result != Aborted ==>
        inputSequence == Add64(old(inputSequence), 1)
        && pcmIn == old(pcmIn) + [Transfer(PacketBase(Add64(old(inputSequence), DefaultUrbs), packetSizeIn), packetSizeIn)]
    {
      if shutdown || result == Aborted {
        return;
      }
      var next := Add64(inputSequence, DefaultUrbs);
      inputSequence := Add64(inputSequence, 1);
      SubmitPCMin(next);
    }

    /**
     * PCMoutComplete: nothing during shutdown; unless aborted, packet
     * sequence + 2 is submitted; on success with the driver ready the clock
     * advances 80 frames and publishes on multiples of 640 (`now` is
     * mach_absolute_time).
     */
    method PCMoutComplete(result: IOReturn, now: u64)
      requires Valid() && shm != null
      modifies this`outputSequence, this`pcmOut, this`hwSampleTime, shm.outputBuffer, shm.midiOut`readIndex,
        shm`sequence, shm`sampleTime, shm`hostTime, shm`sequenceStores
      ensures Valid()
      ensures shutdown || result == Aborted ==>
        outputSequence == old(outputSequence) && pcmOut == old(pcmOut)
        && shm.outputBuffer[..] == old(shm.outputBuffer[..]) && shm.midiOut.readIndex == old(shm.midiOut.readIndex)
      ensures !shutdown && result != Aborted ==>
        outputSequence == Add64(old(outputSequence), 1)
        && pcmOut == old(pcmOut) + [Transfer(PacketBase(Add64(old(outputSequence), DefaultUrbs), packetSizeOut), packetSizeOut)]
      ensures !shutdown && result != Aborted && mode == IoRing.Bulk ==>
        shm.outputBuffer[..] == MidiPair(old(shm.outputBuffer[..]),
          PacketBase(Add64(old(outputSequence), DefaultUrbs), packetSizeOut) + midiByteOffset, old(shm.midiOut.Contents()))
        && shm.midiOut.Contents() == MidiRing.Drop(old(shm.midiOut.Contents()), 1)
      ensures hwSampleTime == if !shutdown && result == Success && shm.driverReady
        then Add64(old(hwSampleTime), FramesPerPacket) else old(hwSampleTime)
      ensures !shutdown && result == Success && shm.driverReady && hwSampleTime % ZeroTimestampPeriod == 0 ==>
        shm.sampleTime == hwSampleTime && shm.hostTime == now && shm.sequence == Add32(old(shm.sequence), 2)
        && shm.sequenceStores == old(shm.sequenceStores) + [Add32(old(shm.sequence), 1), Add32(old(shm.sequence), 2)]
      ensures !(!shutdown && result == Success && shm.driverReady && hwSampleTime % ZeroTimestampPeriod == 0) ==>
        shm.sampleTime == old(shm.sampleTime) && shm.hostTime == old(shm.hostTime)
        && shm.sequence == old(shm.sequence) && shm.sequenceStores == old(shm.sequenceStores)
    {
      if shutdown {
        return;
      }
      if result != Aborted {
        var next := Add64(outputSequence, DefaultUrbs);
        outputSequence := Add64(outputSequence, 1);
        SubmitPCMout(next);
      }
      if result == Success && shm.driverReady {
        var published;
        hwSampleTime, published := Tick(shm, hwSampleTime, now);
      }
    }

    /**
     * MIDIinComplete: nothing during shutdown; a successful one-byte read
     * of a byte other than 0xFD advances writeIndex whether or not the ring
     * is full; any result but an abort re-arms the read.
     */
    method MIDIinComplete(result: IOReturn, length: nat)
      requires Valid() && shm != null
      modifies shm.midiIn`writeIndex, this`midiReads
      ensures Valid()
      ensures shm.midiIn.readIndex == old(shm.midiIn.readIndex)
      ensures !shutdown && result == Success && length == 1 ==>
        shm.midiIn.Contents() == MidiRing.Overrun(old(shm.midiIn.Contents()), old(shm.midiIn.buffer[shm.midiIn.writeIndex]))
      ensures !(!shutdown && result == Success && length == 1) ==> shm.midiIn.writeIndex == old(shm.midiIn.writeIndex)
      ensures !shutdown && result != Aborted ==> midiReads == old(midiReads) + [shm.midiIn.writeIndex]
      ensures shutdown || result == Aborted ==> midiReads == old(midiReads)
    {
      if shutdown {
        return;
      }
      if result == Success && length == 1 {
        shm.midiIn.CommitUnchecked(shm.midiIn.writeIndex);
      }
      if result != Aborted {
        SubmitMIDIin();
      }
    }

    /** ReadFirmwareVersion: on an answer the version is kept. */
    method ReadFirmwareVersion(answered: bool, reply: seq<byte>) returns (ok: bool)
      requires Valid() && |reply| <= 15
      modifies control`requests, control.rxBuffer, this`firmware
      ensures Valid()
      ensures ok == answered
      ensures control.requests == old(control.requests) + [FirmwareRequest]
      ensures ok ==> firmware == DecodeFirmware(control.rxBuffer[..3]) && control.rxBuffer[..|reply|] == reply
      ensures !ok ==> firmware == old(firmware)
    {
      var fw := control.ReadFirmware(answered, reply);
      if fw.None? {
        return false;
      }
      firmware := fw.value;
      ok := true;
    }

    /** ReadHardwareStatus: one 'I' request; the flags of an answered status byte are reported. */
    method ReadHardwareStatus(answered: bool, status: bv8) returns (st: Option<HardwareStatus>)
      requires Valid()
      modifies control`requests, control.rxBuffer
      ensures Valid()
      ensures st.Some? <==> answered
      ensures control.requests == old(control.requests) + [StatusRequest]
      ensures st.Some? ==> st.value == DecodeStatus(status)
    {
      st := control.ReadStatus(answered, status);
      if st.Some? {
        StatusKeepsFlagBits(status);
      }
    }

    /** WriteHardwareStatus: one 'I' write of `value`; the answer is the result. */
    method WriteHardwareStatus(value: u16, answered: bool) returns (ok: bool)
      requires Valid()
      modifies control`requests
      ensures Valid()
      ensures ok == answered
      ensures control.requests == old(control.requests) + [WriteStatusRequest(value)]
    {
      ok := control.WriteStatus(value, answered);
    }

    /**
     * GetHardwareFrameRate: refused without shared memory; the rate read
     * (or 96 kHz on the 4D) is stored in the shared memory.
     */
    method GetHardwareFrameRate(answered: bool, reply: seq<byte>) returns (ok: bool)
      requires Valid() && |reply| <= 3
      modifies control`requests, control.rxBuffer, shm
      ensures Valid()
      ensures ok <==> shm != null && ReadFrameRate(fourD, answered, reply).Some?
      ensures ok ==> shm.sampleRate == ReadFrameRate(fourD, answered, reply).value
      ensures shm != null && !ok ==> shm.sampleRate == old(shm.sampleRate)
      ensures shm != null ==>
        shm.sequence == old(shm.sequence) && shm.sampleTime == old(shm.sampleTime)
        && shm.driverReady == old(shm.driverReady) && shm.hardwarePresent == old(shm.hardwarePresent)
    {
      if shm == null {
        return false;
      }
      var r := control.GetFrameRate(fourD, answered, reply);
      if r.None? {
        return false;
      }
      shm.sampleRate := r.value;
      ok := true;
    }

    /** SetHardwareFrameRate: the five SET_CUR requests; the answer to the last is the result. */
    method SetHardwareFrameRate(rate: u32, outcomes: seq<bool>) returns (ok: bool)
      requires Valid() && |outcomes| == |RateEndpoints|
      modifies control`requests, control.txBuffer
      ensures Valid()
      ensures control.requests == old(control.requests) + RateRequests()
      ensures control.txBuffer[..3] == Encode24(rate) && ok == outcomes[4]
    {
      ok := control.SetFrameRate(rate, outcomes);
    }

    /**
     * StartStreaming: refused without shared memory. Otherwise driverReady
     * is cleared, the buffers zeroed and prefilled, the counters, the
     * anchor, the published sample time and the HAL position reset, one
     * MIDI read and `urbCount` PCM transfers per direction submitted, and
     * driverReady set last.
     */
    method StartStreaming(urbCount: nat) returns (ok: bool)
      requires Valid() && urbCount <= NumPackets
      modifies this`shutdown, this`packetSizeOut, this`packetSizeIn, this`inputSequence, this`outputSequence,
        this`hwSampleTime, this`anchorHostTime, this`wasDriverReady, this`pcmIn, this`pcmOut, this`midiReads
      modifies if shm != null then {shm.inputBuffer, shm.outputBuffer} else {}
      modifies if shm != null then {shm.midiOut} else {}
      modifies if shm != null then {shm} else {}
      ensures Valid()
      ensures ok <==> shm != null
      ensures !ok ==> pcmOut == old(pcmOut) && pcmIn == old(pcmIn) && midiReads == old(midiReads)
      ensures shm != null ==>
        shm.sequence == old(shm.sequence) && shm.sequenceStores == old(shm.sequenceStores)
        && shm.hostTime == old(shm.hostTime)
        && shm.hardwarePresent == old(shm.hardwarePresent) && shm.sampleRate == old(shm.sampleRate)
      ensures ok ==>
        shm.driverReady && !shutdown && packetSizeOut == PacketSizeOut(mode) && packetSizeIn == PacketSizeIn
        && inputSequence == 0 && outputSequence == 0 && hwSampleTime == 0 && anchorHostTime == 0 && !wasDriverReady
        && shm.sampleTime == 0 && shm.halWritePosition == 0
      ensures ok ==>
        (forall j :: 0 <= j < InputBufferSize ==> shm.inputBuffer[j] == 0)
        && (forall j :: 0 <= j < OutputBufferSize ==>
              shm.outputBuffer[j] == StartByte(mode, PacketSizeOut(mode), midiByteOffset, old(shm.midiOut.Contents()), urbCount, j))
      ensures ok && mode == IoRing.Bulk ==> shm.midiOut.Contents() == MidiRing.Drop(old(shm.midiOut.Contents()), urbCount)
      ensures ok && mode == IoRing.Interrupt ==> shm.midiOut.readIndex == old(shm.midiOut.readIndex)
      ensures ok ==>
        midiReads == old(midiReads) + [shm.midiIn.writeIndex]
        && pcmIn == old(pcmIn) + InitialIn(urbCount)
        && pcmOut == old(pcmOut) + InitialOut(PacketSizeOut(mode), PacketSizeOut(mode), urbCount)
    {
      if shm == null {
        return false;
      }
      ok := StartWithMemory(urbCount);
    }

    /** StartStreaming once the shared memory is known to be mapped. */
    method StartWithMemory(urbCount: nat) returns (ok: bool)
      requires Valid() && shm != null && urbCount <= NumPackets
      modifies this`shutdown, this`packetSizeOut, this`packetSizeIn, this`inputSequence, this`outputSequence,
        this`hwSampleTime, this`anchorHostTime, this`wasDriverReady, this`pcmIn, this`pcmOut, this`midiReads
      modifies shm.inputBuffer, shm.outputBuffer, shm.midiOut`readIndex
      modifies shm`driverReady, shm`sampleTime, shm`halWritePosition
      ensures Valid() && ok
      ensures shm.driverReady && !shutdown && packetSizeOut == PacketSizeOut(mode) && packetSizeIn == PacketSizeIn
      ensures inputSequence == 0 && outputSequence == 0 && hwSampleTime == 0 && anchorHostTime == 0 && !wasDriverReady
      ensures shm.sampleTime == 0 && shm.halWritePosition == 0
      ensures forall j :: 0 <= j < InputBufferSize ==> shm.inputBuffer[j] == 0
      ensures forall j :: 0 <= j < OutputBufferSize ==>
        shm.outputBuffer[j] == StartByte(mode, PacketSizeOut(mode), midiByteOffset, old(shm.midiOut.Contents()), urbCount, j)
      ensures mode == IoRing.Bulk ==> shm.midiOut.Contents() == MidiRing.Drop(old(shm.midiOut.Contents()), urbCount)
      ensures mode == IoRing.Interrupt ==> shm.midiOut.readIndex == old(shm.midiOut.readIndex)
      ensures midiReads == old(midiReads) + [shm.midiIn.writeIndex]
      ensures pcmIn == old(pcmIn) + InitialIn(urbCount)
      ensures pcmOut == old(pcmOut) + InitialOut(PacketSizeOut(mode), PacketSizeOut(mode), urbCount)
    {
      shm.driverReady := false;
      shutdown := false;
      ConfigureStreamingFormat();
      UsbBuffer.ZeroFill(shm.inputBuffer);
      ZeroAndPrefillPackets(shm.outputBuffer, mode, packetSizeOut);
      ResetCounters();
      SubmitMIDIin();
      SubmitInitial(urbCount);
      shm.driverReady := true;
      ok := true;
    }

    /**
     * StopStreaming: shutdown is raised, after which every completion
     * handler returns at once; the pipe aborts themselves are the USB stack's.
     */
    method StopStreaming() returns (ok: bool)
      modifies this`shutdown
      ensures ok && shutdown
    {
      shutdown := true;
      ok := true;
    }

    /** The counters, the anchor and the published sample time start again from zero. */
    method ResetCounters()
      requires shm != null
      modifies this`inputSequence, this`outputSequence, this`hwSampleTime, this`anchorHostTime, this`wasDriverReady
      modifies shm`sampleTime, shm`halWritePosition
      ensures inputSequence == 0 && outputSequence == 0 && hwSampleTime == 0 && anchorHostTime == 0 && !wasDriverReady
      ensures shm.sampleTime == 0 && shm.halWritePosition == 0
    {
      inputSequence, outputSequence, hwSampleTime, anchorHostTime := 0, 0, 0, 0;
      wasDriverReady := false;
      shm.sampleTime, shm.halWritePosition := 0, 0;
    }

    /** The submission loop of StartStreaming: packets 0 to urbCount - 1 in and out. */
    method SubmitInitial(urbCount: nat)
      requires Valid() && shm != null && urbCount <= NumPackets
      requires packetSizeOut == PacketSizeOut(mode) && packetSizeIn == PacketSizeIn
      requires forall j :: 0 <= j < OutputBufferSize ==> shm.outputBuffer[j] == PrefillByte(mode, PacketSizeOut(mode), j)
      modifies this`pcmIn, this`pcmOut, shm.outputBuffer, shm.midiOut`readIndex
      ensures Valid()
      ensures forall j :: 0 <= j < OutputBufferSize ==>
        shm.outputBuffer[j] == StartByte(mode, PacketSizeOut(mode), midiByteOffset, old(shm.midiOut.Contents()), urbCount, j)
      ensures mode == IoRing.Bulk ==> shm.midiOut.Contents() == MidiRing.Drop(old(shm.midiOut.Contents()), urbCount)
      ensures mode == IoRing.Interrupt ==> shm.midiOut.readIndex == old(shm.midiOut.readIndex)
      ensures pcmIn == old(pcmIn) + InitialIn(urbCount)
      ensures pcmOut == old(pcmOut) + InitialOut(PacketSizeOut(mode), PacketSizeOut(mode), urbCount)
    {
      ghost var q := shm.midiOut.Contents();
      var i := 0;
      while i < urbCount
        invariant i <= urbCount && Valid()
        invariant packetSizeOut == PacketSizeOut(mode) && packetSizeIn == PacketSizeIn
        invariant forall j :: 0 <= j < OutputBufferSize ==>
          shm.outputBuffer[j] == StartByte(mode, PacketSizeOut(mode), midiByteOffset, q, i, j)
        invariant mode == IoRing.Bulk ==> shm.midiOut.Contents() == MidiRing.Drop(q, i)
        invariant mode == IoRing.Interrupt ==> shm.midiOut.readIndex == old(shm.midiOut.readIndex)
        invariant pcmIn == old(pcmIn) + InitialIn(i)
        invariant pcmOut == old(pcmOut) + InitialOut(PacketSizeOut(mode), PacketSizeOut(mode), i)
      {
        StartPacket(i, q);
        i := i + 1;
      }
    }

    /** One round of the start loop: packet i in, then packet i out. */
    method StartPacket(i: nat, ghost q: seq<bv8>)
      requires Valid() && shm != null && i < NumPackets
      requires packetSizeOut == PacketSizeOut(mode) && packetSizeIn == PacketSizeIn
      requires forall j :: 0 <= j < OutputBufferSize ==> shm.outputBuffer[j] == StartByte(mode, PacketSizeOut(mode), midiByteOffset, q, i, j)
      requires mode == IoRing.Bulk ==> shm.midiOut.Contents() == MidiRing.Drop(q, i)
      modifies this`pcmIn, this`pcmOut, shm.outputBuffer, shm.midiOut`readIndex
      ensures Valid()
      ensures forall j :: 0 <= j < OutputBufferSize ==>
        shm.outputBuffer[j] == StartByte(mode, PacketSizeOut(mode), midiByteOffset, q, i + 1, j)
      ensures mode == IoRing.Bulk ==> shm.midiOut.Contents() == MidiRing.Drop(q, i + 1)
      ensures mode == IoRing.Interrupt ==> shm.midiOut.readIndex == old(shm.midiOut.readIndex)
      ensures pcmIn == old(pcmIn) + [Transfer(InputOffset(i), PacketSizeIn)]
      ensures pcmOut == old(pcmOut) + [Transfer(PacketBase(i, PacketSizeOut(mode)), PacketSizeOut(mode))]
    {
      SubmitPCMin(i);
      ghost var before := shm.outputBuffer[..];
      SubmitPCMout(i);
      StartStep(mode, PacketSizeOut(mode), midiByteOffset, q, i, before, shm.outputBuffer[..]);
      MidiRing.DropStep(q, i);
    }
  }
}
