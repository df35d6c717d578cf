// The user-space USB engine of the mac-hal daemon (ploytecusb). It streams
// PCM between the device and the shared-memory buffers, 128 packet slots per
// direction with two transfers in flight. It carries MIDI out one byte per
// bulk packet from the midiOut ring, and MIDI in one byte per read into the
// midiIn ring. It publishes the zero timestamp the HAL plug-in follows.
module PloytecUsb {
  import opened Wrappers
  import opened Wrap
  import opened SharedMemory
  import opened SampleRate
  import opened UsbControl
  import MidiRing
  import IoRing
  import UsbBuffer

  const BulkPacketSizeOut: nat := 4096
  const InterruptPacketSizeOut: nat := 3856
  const PacketSizeIn: nat := 5120
  /** The sizes of inputBuffer and outputBuffer in the shared memory. */
  const InputBufferSize: nat := 655360
  const OutputBufferSize: nat := 524288

  /** ConfigureStreamingFormat: the output packet of each transfer mode. */
  function PacketSizeOut(mode: IoRing.Layout): (n: nat)
    ensures NumPackets * n <= OutputBufferSize
    ensures n == 8 * IoRing.BlockBytes(mode)
  {
    if mode == IoRing.Bulk then BulkPacketSizeOut else InterruptPacketSizeOut
  }

  /** The start of the slot of packet `index` in a buffer of 128 packets of `stride` bytes. */
  function PacketBase(index: nat, stride: nat): (off: nat)
    ensures off + stride <= NumPackets * stride
    ensures stride > 0 ==> off % stride == 0 && off / stride == PacketSlot(index)
  {
    var slot := PacketSlot(index);
    SlotTimesStride(slot, stride);
    slot * stride
  }

  /** The arithmetic of a slot base: below the last slot's end, and a multiple of the stride. */
  lemma SlotTimesStride(slot: nat, stride: nat)
    requires slot < NumPackets
    ensures slot * stride + stride <= NumPackets * stride
    ensures stride > 0 ==> (slot * stride) % stride == 0 && (slot * stride) / stride == slot
  {
    assert (slot + 1) * stride <= NumPackets * stride by {
      if stride > 0 {
        MulAtLeast(NumPackets - slot, stride);
      }
    }
    if stride > 0 {
      ModUnique(slot * stride, slot, 0, stride);
    }
  }

  /** Where SubmitPCMout takes packet `index` from: its slot times 4096, in both modes. */
  function OutputOffset(index: nat): (off: nat)
    ensures off % BulkPacketSizeOut == 0 && off + BulkPacketSizeOut <= OutputBufferSize
  {
    PacketBase(index, BulkPacketSizeOut)
  }

  /** Where SubmitPCMin puts packet `index`: its slot times 5120. */
  function InputOffset(index: nat): (off: nat)
    ensures off + PacketSizeIn <= InputBufferSize
  {
    PacketSlot(index) * PacketSizeIn
  }

  /** The output buffer after SubmitPCMout's MIDI step at `at`: the byte for queue q, then 0xFD. */
  function MidiPair(buf: seq<bv8>, at: nat, q: seq<bv8>): seq<bv8>
    requires at + 1 < |buf|
  {
    buf[at := MidiRing.Head(q)][at + 1 := MidiRing.Idle]
  }

  /**
   * The byte StartStreaming leaves at j once the first n packets (n <= 128)
   * of `stride` bytes each have been submitted from a midiOut queue q: in
   * bulk mode the MIDI byte of packet i is q's i-th byte, or 0xFD, and the
   * next byte is 0xFD; everything else is the prefill.
   */
  function StartByte(mode: IoRing.Layout, stride: nat, midiOffset: nat, q: seq<bv8>, n: nat, j: nat): bv8
    requires stride > 0
  {
    var slot, at := j / stride, j % stride;
    if mode == IoRing.Bulk && slot < n && at == midiOffset then MidiRing.Head(MidiRing.Drop(q, slot))
    else if mode == IoRing.Bulk && slot < n && at == midiOffset + 1 then MidiRing.Idle
    else PrefillByte(mode, PacketSizeOut(mode), j)
  }

  /**
   * With the MIDI offset DetectTransferMode chooses, the bytes StartStreaming
   * writes are all MIDI/UART bytes: every PCM byte of the buffer is 0.
   */
  lemma StartLeavesPcmSilent(mode: IoRing.Layout, q: seq<bv8>, n: nat, j: nat)
    requires n <= NumPackets && j < OutputBufferSize
    requires !UsbBuffer.IdleAt(IoRing.GapStart(mode), IoRing.BlockBytes(mode), NumPackets * PacketSizeOut(mode), j)
    ensures StartByte(mode, BulkPacketSizeOut, IoRing.GapStart(mode), q, n, j) == 0
  {
    if mode == IoRing.Bulk {
      BulkPairIdle(j);
    }
  }

  /** In bulk mode bytes 480 and 481 of every packet lie on a 0xFD pair of the prefill. */
  lemma BulkPairIdle(j: nat)
    requires j < OutputBufferSize
    ensures j % BulkPacketSizeOut == 480 || j % BulkPacketSizeOut == 481 ==>
      UsbBuffer.IdleAt(480, 512, NumPackets * BulkPacketSizeOut, j)
  {
    if j % BulkPacketSizeOut == 480 || j % BulkPacketSizeOut == 481 {
      UsbBuffer.IdlePairs(480, 512, NumPackets * BulkPacketSizeOut, 8 * (j / BulkPacketSizeOut));
    }
  }

  /**
   * In bulk mode, StartStreaming sends the first n bytes of the midiOut
   * queue, one per initial packet, in order, and 0xFD once the queue is
   * used up.
   */
  lemma StartSendsQueueInOrder(q: seq<bv8>, n: nat, i: nat)
    requires i < n <= NumPackets
    ensures StartByte(IoRing.Bulk, BulkPacketSizeOut, 480, q, n, i * BulkPacketSizeOut + 480) == if i < |q| then q[i] else MidiRing.Idle
  {
    ModUnique(i * BulkPacketSizeOut + 480, i, 480, BulkPacketSizeOut);
  }

  /**
   * In interrupt mode the output packet of slot s starts at s * 4096, but
   * the prefill lays out 482-byte blocks from byte 0: the UART byte of the
   * first block of packet 1 (byte 4096 + 432) is left at 0, not 0xFD.
   */
  lemma InterruptSlotMissesIdle()
    ensures OutputOffset(1) + 432 == 4528
    ensures PrefillByte(IoRing.Interrupt, InterruptPacketSizeOut, OutputOffset(1) + 432) == 0
  {
    ModUnique(4528 - 432, 8, 240, 482);
  }

  class Engine {
    /** mSHM: the mapped shared memory, if any. */
    const shm: Shared?
    /** mUsbDevice is open. */
    const device: bool
    /** The device is the Xone:4D (VID 0x0A4A, PID 0xFF4D). */
    const fourD: bool
    const control: ControlChannel
    var mode: IoRing.Layout
    var midiByteOffset: nat
    var packetSizeOut: nat
    var packetSizeIn: nat
    var shutdown: bool
    var inputSequence: u64
    var outputSequence: u64
    var hwSampleTime: u64
    var lastZeroReported: u64
    var anchorHostTime: u64
    var wasDriverReady: bool
    var firmware: Firmware
    /** PCM transfers submitted, in order. */
    var pcmOut: seq<Transfer>
    var pcmIn: seq<Transfer>
    /** The midiIn ring slot of each one-byte MIDI read submitted. */
    var midiReads: seq<nat>

    predicate Valid()
      reads this, control, shm, if shm != null then {shm.midiOut, shm.midiIn} else {}
    {
      control.Valid() && midiByteOffset <= 480
      && (shm != null ==>
            shm.Valid() && shm.inputBuffer.Length == InputBufferSize && shm.outputBuffer.Length == OutputBufferSize)
    }

    constructor (shm: Shared?, device: bool, fourD: bool, control: ControlChannel)
      requires control.Valid()
      requires shm != null ==>
        shm.Valid() && shm.inputBuffer.Length == InputBufferSize && shm.outputBuffer.Length == OutputBufferSize
      ensures Valid() && this.shm == shm && this.device == device && this.fourD == fourD && this.control == control
      ensures mode == IoRing.Bulk && midiByteOffset == 0 && packetSizeOut == 0 && packetSizeIn == 0
      ensures !shutdown && inputSequence == 0 && outputSequence == 0 && hwSampleTime == 0
      ensures pcmOut == [] && pcmIn == [] && midiReads == []
    {
      this.shm := shm;
      this.device := device;
      this.fourD := fourD;
      this.control := control;
      mode, midiByteOffset, packetSizeOut, packetSizeIn := IoRing.Bulk, 0, 0, 0;
      shutdown := false;
      inputSequence, outputSequence, hwSampleTime, lastZeroReported, anchorHostTime := 0, 0, 0, 0, 0;
      wasDriverReady := false;
      firmware := Firmware(0, 0, 0, 0);
      pcmOut, pcmIn, midiReads := [], [], [];
    }

    /**
     * DetectTransferMode: without properties of the PCM-out pipe nothing
     * changes; a bulk pipe selects bulk mode with the MIDI byte at 480, any
     * other type interrupt mode with the MIDI byte at 432.
     */
    method DetectTransferMode(q: PipeQuery) returns (ok: bool)
      requires Valid()
      modifies this`mode, this`midiByteOffset
      ensures Valid()
      ensures ok <==> q.Properties?
      ensures ok ==> mode == BulkOrInterrupt(q).value && midiByteOffset == IoRing.GapStart(mode)
      ensures !ok ==> mode == old(mode) && midiByteOffset == old(midiByteOffset)
    {
      var m := BulkOrInterrupt(q);
      if m.None? {
        return false;
      }
      mode := m.value;
      midiByteOffset := if mode == IoRing.Bulk then 480 else 432;
      ok := true;
    }

    /** ConfigureStreamingFormat: 4096 or 3856 bytes out per packet, 5120 in. */
    method ConfigureStreamingFormat()
      modifies this`packetSizeOut, this`packetSizeIn
      ensures packetSizeOut == PacketSizeOut(mode) && packetSizeIn == PacketSizeIn
    {
      packetSizeOut := PacketSizeOut(mode);
      packetSizeIn := PacketSizeIn;
    }

    /** SubmitPCMin: a read of packetSizeIn bytes into the slot of `index`. */
    method SubmitPCMin(index: nat)
      modifies this`pcmIn
      ensures pcmIn == old(pcmIn) + [Transfer(InputOffset(index), packetSizeIn)]
    {
      pcmIn := pcmIn + [Transfer(InputOffset(index), packetSizeIn)];
    }

    /**
     * SubmitPCMout: in bulk mode the packet's MIDI byte is the oldest
     * midiOut byte (which is consumed) or 0xFD, and the byte after it 0xFD;
     * interrupt packets go out untouched. The write starts at slot * 4096.
     */
    method SubmitPCMout(index: nat)
      requires Valid() && shm != null
      modifies this`pcmOut, shm.outputBuffer, shm.midiOut`readIndex
      ensures Valid()
      ensures pcmOut == old(pcmOut) + [Transfer(OutputOffset(index), packetSizeOut)]
      ensures mode == IoRing.Bulk ==>
        shm.outputBuffer[..] == MidiPair(old(shm.outputBuffer[..]), OutputOffset(index) + midiByteOffset, old(shm.midiOut.Contents()))
        && shm.midiOut.Contents() == MidiRing.Drop(old(shm.midiOut.Contents()), 1)
      ensures mode == IoRing.Interrupt ==>
        shm.outputBuffer[..] == old(shm.outputBuffer[..]) && shm.midiOut.readIndex == old(shm.midiOut.readIndex)
    {
      var off := OutputOffset(index);
      if mode == IoRing.Bulk {
        MidiRing.PopToSlot(shm.midiOut, shm.outputBuffer, off + midiByteOffset);
        shm.outputBuffer[off + midiByteOffset + 1] := MidiRing.Idle;
      }
      pcmOut := pcmOut + [Transfer(off, packetSizeOut)];
    }

    /** SubmitMIDIin: a one-byte read into the midiIn slot at writeIndex. */
    method SubmitMIDIin()
      requires Valid()
      modifies this`midiReads
      ensures shm == null ==> midiReads == old(midiReads)
      ensures shm != null ==> midiReads == old(midiReads) + [shm.midiIn.writeIndex]
    {
      if shm != null {
        midiReads := midiReads + [shm.midiIn.writeIndex];
      }
    }

    /**
     * PCMinComplete: nothing during shutdown; otherwise, unless the
     * transfer was aborted, the packet two ahead of the completed one is
     * read, errors included.
     */
    method PCMinComplete(result: IOReturn)
      modifies this`inputSequence, this`pcmIn
      ensures shutdown || result == Aborted ==> inputSequence == old(inputSequence) && pcmIn == old(pcmIn)
      ensures !shutdown && result != Aborted ==>
        inputSequence == Add64(old(inputSequence), 1)
        && pcmIn == old(pcmIn) + [Transfer(InputOffset(Add64(old(inputSequence), DefaultUrbs)), packetSizeIn)]
    {
      if shutdown || result == Aborted {
        return;
      }
      var next := Add64(inputSequence, DefaultUrbs);
      inputSequence := Add64(inputSequence, 1);
      SubmitPCMin(next);
    }

    /**
     * PCMoutComplete: nothing during shutdown; unless aborted, the packet
     * two ahead is submitted, errors included; on success the clock step
     * follows (`now` is mach_absolute_time).
     */
    method PCMoutComplete(result: IOReturn, now: u64)
      requires Valid() && shm != null
      modifies this`outputSequence, this`pcmOut, this`hwSampleTime, this`lastZeroReported,
        this`anchorHostTime, this`wasDriverReady, shm.outputBuffer, shm.midiOut`readIndex,
        shm`sequence, shm`sampleTime, shm`hostTime, shm`sequenceStores
      ensures Valid()
      ensures shutdown || result == Aborted ==>
        outputSequence == old(outputSequence) && pcmOut == old(pcmOut)
        && shm.outputBuffer[..] == old(shm.outputBuffer[..]) && shm.midiOut.readIndex == old(shm.midiOut.readIndex)
      ensures !shutdown && result != Aborted ==>
        outputSequence == Add64(old(outputSequence), 1)
        && pcmOut == old(pcmOut) + [Transfer(OutputOffset(Add64(old(outputSequence), DefaultUrbs)), packetSizeOut)]
      ensures !shutdown && result != Aborted && mode == IoRing.Bulk ==>
        shm.outputBuffer[..] == MidiPair(old(shm.outputBuffer[..]),
          OutputOffset(Add64(old(outputSequence), DefaultUrbs)) + midiByteOffset, old(shm.midiOut.Contents()))
        && shm.midiOut.Contents() == MidiRing.Drop(old(shm.midiOut.Contents()), 1)
      ensures !shutdown && result == Success ==> ClockStepped(old(hwSampleTime), old(wasDriverReady), old(anchorHostTime), now)
      ensures !shutdown && result == Success ==> TimestampStepped(old(hwSampleTime), old(lastZeroReported),
        old(shm.sequence), old(shm.sampleTime), old(shm.hostTime), old(shm.sequenceStores), now)
      ensures shutdown || result != Success ==>
        hwSampleTime == old(hwSampleTime) && wasDriverReady == old(wasDriverReady)
        && anchorHostTime == old(anchorHostTime) && lastZeroReported == old(lastZeroReported)
        && shm.sequence == old(shm.sequence) && shm.sampleTime == old(shm.sampleTime)
        && shm.hostTime == old(shm.hostTime) && shm.sequenceStores == old(shm.sequenceStores)
    {
      if shutdown {
        return;
      }
      if result != Aborted {
        var next := Add64(outputSequence, DefaultUrbs);
        outputSequence := Add64(outputSequence, 1);
        SubmitPCMout(next);
      }
      if result == Success {
        AdvanceClock(now);
      }
    }

    /**
     * The clock of a successful output completion: the start anchor is taken
     * when the driver has just become ready with the clock at zero, the
     * readiness is remembered, and a ready driver advances the clock by 80
     * frames.
     */
    ghost predicate ClockStepped(hw0: u64, wasReady0: bool, anchor0: u64, now: u64)
      reads this, shm
      requires shm != null
    {
      wasDriverReady == shm.driverReady
      && anchorHostTime == (if shm.driverReady && !wasReady0 && hw0 == 0 then now else anchor0)
      && hwSampleTime == (if shm.driverReady then Add64(hw0, FramesPerPacket) else hw0)
    }

    /**
     * The timestamp of a successful output completion: published, with
     * mLastZeroReported following, exactly when the driver is ready and the
     * advanced clock is a multiple of 640; untouched otherwise.
     */
    ghost predicate TimestampStepped(hw0: u64, last0: u64, seq0: u32, sample0: u64, host0: u64, stores0: seq<u32>, now: u64)
      reads this, shm
      requires shm != null
    {
      if shm.driverReady && Add64(hw0, FramesPerPacket) % ZeroTimestampPeriod == 0 then
        shm.sampleTime == hwSampleTime && shm.hostTime == now && lastZeroReported == hwSampleTime
        && shm.sequenceStores == stores0 + [Add32(seq0, 1), Add32(seq0, 2)] && shm.sequence == Add32(seq0, 2)
      else
        shm.sampleTime == sample0 && shm.hostTime == host0 && lastZeroReported == last0
        && shm.sequenceStores == stores0 && shm.sequence == seq0
    }

    /** The success branch of PCMoutComplete. */
    method AdvanceClock(now: u64)
      requires Valid() && shm != null
      modifies this`hwSampleTime, this`lastZeroReported, this`anchorHostTime, this`wasDriverReady,
        shm`sequence, shm`sampleTime, shm`hostTime, shm`sequenceStores
      ensures Valid()
      ensures ClockStepped(old(hwSampleTime), old(wasDriverReady), old(anchorHostTime), now)
      ensures TimestampStepped(old(hwSampleTime), old(lastZeroReported),
        old(shm.sequence), old(shm.sampleTime), old(shm.hostTime), old(shm.sequenceStores), now)
    {
      var ready := shm.driverReady;
      if ready && !wasDriverReady && hwSampleTime == 0 {
        anchorHostTime := now;
      }
      wasDriverReady := ready;
      if ready {
        var published;
        hwSampleTime, published := Tick(shm, hwSampleTime, now);
        if published {
          lastZeroReported := hwSampleTime;
        }
      }
    }

    /**
     * MIDIinComplete: nothing during shutdown; a successful one-byte read
     * of a byte other than 0xFD is committed with the full check; any
     * result but an abort re-arms the read at the (new) writeIndex.
     */
    method MIDIinComplete(result: IOReturn, length: nat)
      requires Valid() && shm != null
      modifies shm.midiIn`writeIndex, this`midiReads
      ensures Valid()
      ensures shm.midiIn.readIndex == old(shm.midiIn.readIndex)
      ensures !shutdown && result == Success && length == 1 && old(shm.midiIn.buffer[shm.midiIn.writeIndex]) != MidiRing.Idle ==>
        shm.midiIn.Contents() == MidiRing.Admit(old(shm.midiIn.Contents()), [old(shm.midiIn.buffer[shm.midiIn.writeIndex])])
      ensures !(!shutdown && result == Success && length == 1 && old(shm.midiIn.buffer[shm.midiIn.writeIndex]) != MidiRing.Idle) ==>
        shm.midiIn.writeIndex == old(shm.midiIn.writeIndex)
      ensures !shutdown && result != Aborted ==> midiReads == old(midiReads) + [shm.midiIn.writeIndex]
      ensures shutdown || result == Aborted ==> midiReads == old(midiReads)
    {
      if shutdown {
        return;
      }
      if result == Success && length == 1 {
        shm.midiIn.CommitChecked();
      }
      if result != Aborted {
        SubmitMIDIin();
      }
    }

    /** ReadFirmwareVersion: refused without a device; on an answer the version is kept. */
    method ReadFirmwareVersion(answered: bool, reply: seq<byte>) returns (ok: bool)
      requires Valid() && |reply| <= 15
      modifies control`requests, control.rxBuffer, this`firmware
      ensures Valid()
      ensures ok <==> device && answered
      ensures !device ==> control.requests == old(control.requests) && firmware == old(firmware)
      ensures device ==> control.requests == old(control.requests) + [FirmwareRequest]
      ensures ok ==> firmware == DecodeFirmware(control.rxBuffer[..3]) && control.rxBuffer[..|reply|] == reply
      ensures !ok ==> firmware == old(firmware)
    {
      if !device {
        return false;
      }
      var fw := control.ReadFirmware(answered, reply);
      if fw.None? {
        return false;
      }
      firmware := fw.value;
      ok := true;
    }

    /** ReadHardwareStatus: refused without a device; the flags of an answered status byte are reported. */
    method ReadHardwareStatus(answered: bool, status: bv8) returns (st: Option<HardwareStatus>)
      requires Valid()
      modifies control`requests, control.rxBuffer
      ensures Valid()
      ensures st.Some? <==> device && answered
      ensures !device ==> control.requests == old(control.requests)
      ensures device ==> control.requests == old(control.requests) + [StatusRequest]
      ensures st.Some? ==> st.value == DecodeStatus(status)
    {
      if !device {
        return None;
      }
      st := control.ReadStatus(answered, status);
      if st.Some? {
        StatusKeepsFlagBits(status);
      }
    }

    /** WriteHardwareStatus: refused without a device, otherwise one 'I' write of `value`. */
    method WriteHardwareStatus(value: u16, answered: bool) returns (ok: bool)
      requires Valid()
      modifies control`requests
      ensures Valid()
      ensures ok <==> device && answered
      ensures control.requests == old(control.requests) + (if device then [WriteStatusRequest(value)] else [])
    {
      if !device {
        return false;
      }
      ok := control.WriteStatus(value, answered);
    }

    /**
     * GetHardwareFrameRate: refused without a device or shared memory; the
     * rate read (or 96 kHz on the 4D) is stored in the shared memory.
     */
    method GetHardwareFrameRate(answered: bool, reply: seq<byte>) returns (ok: bool)
      requires Valid() && |reply| <= 3
      modifies control`requests, control.rxBuffer, shm
      ensures Valid()
      ensures ok <==> device && shm != null && ReadFrameRate(fourD, answered, reply).Some?
      ensures ok ==> shm.sampleRate == ReadFrameRate(fourD, answered, reply).value
      ensures shm != null && !ok ==> shm.sampleRate == old(shm.sampleRate)
      ensures shm != null ==>
        shm.sequence == old(shm.sequence) && shm.sampleTime == old(shm.sampleTime)
        && shm.driverReady == old(shm.driverReady) && shm.hardwarePresent == old(shm.hardwarePresent)
      ensures !device || shm == null ==> control.requests == old(control.requests)
    {
      if !device || shm == null {
        return false;
      }
      var r := control.GetFrameRate(fourD, answered, reply);
      if r.None? {
        return false;
      }
      shm.sampleRate := r.value;
      ok := true;
    }

    /**
     * SetHardwareFrameRate: refused without a device; otherwise the five
     * SET_CUR requests, and the answer to the last is the result.
     */
    method SetHardwareFrameRate(rate: u32, outcomes: seq<bool>) returns (ok: bool)
      requires Valid() && |outcomes| == |RateEndpoints|
      modifies control`requests, control.txBuffer
      ensures Valid()
      ensures !device ==> !ok && control.requests == old(control.requests)
      ensures device ==>
        control.requests == old(control.requests) + RateRequests()
        && control.txBuffer[..3] == Encode24(rate) && ok == outcomes[4]
    {
      if !device {
        return false;
      }
      ok := control.SetFrameRate(rate, outcomes);
    }

    /**
     * StartStreaming: refused without a device or shared memory. Otherwise
     * driverReady is cleared, the buffers are zeroed and prefilled, the
     * counters and the published timestamp reset, one MIDI read and
     * `urbCount` PCM transfers per direction submitted, and driverReady set
     * last.
     */
    method StartStreaming(urbCount: nat) returns (ok: bool)
      requires Valid() && urbCount <= NumPackets
      modifies this`shutdown, this`packetSizeOut, this`packetSizeIn, this`inputSequence, this`outputSequence,
        this`hwSampleTime, this`lastZeroReported, this`wasDriverReady, this`pcmIn, this`pcmOut, this`midiReads
      modifies if shm != null then {shm.inputBuffer, shm.outputBuffer} else {}
      modifies if shm != null then {shm.midiOut} else {}
      modifies if shm != null then {shm} else {}
      ensures Valid()
      ensures ok <==> device && shm != null
      ensures shm != null ==>
        shm.sequence == old(shm.sequence) && shm.sequenceStores == old(shm.sequenceStores)
        && shm.hardwarePresent == old(shm.hardwarePresent) && shm.sampleRate == old(shm.sampleRate)
      ensures !ok ==> pcmOut == old(pcmOut) && pcmIn == old(pcmIn) && midiReads == old(midiReads)
      ensures ok ==>
        shm.driverReady && !shutdown && packetSizeOut == PacketSizeOut(mode) && packetSizeIn == PacketSizeIn
        && inputSequence == 0 && outputSequence == 0 && hwSampleTime == 0 && lastZeroReported == 0 && !wasDriverReady
        && shm.sampleTime == 0 && shm.hostTime == 0 && shm.halWritePosition == 0
      ensures ok ==>
        (forall j :: 0 <= j < InputBufferSize ==> shm.inputBuffer[j] == 0)
        && (forall j :: 0 <= j < OutputBufferSize ==>
              shm.outputBuffer[j] == StartByte(mode, BulkPacketSizeOut, midiByteOffset, old(shm.midiOut.Contents()), urbCount, j))
      ensures ok && mode == IoRing.Bulk ==> shm.midiOut.Contents() == MidiRing.Drop(old(shm.midiOut.Contents()), urbCount)
      ensures ok && mode == IoRing.Interrupt ==> shm.midiOut.readIndex == old(shm.midiOut.readIndex)
      ensures ok ==>
        midiReads == old(midiReads) + [shm.midiIn.writeIndex]
        && pcmIn == old(pcmIn) + InitialIn(urbCount)
        && pcmOut == old(pcmOut) + InitialOut(BulkPacketSizeOut, PacketSizeOut(mode), urbCount)
    {
      if !device || shm == null {
        return false;
      }
      ok := StartWithMemory(urbCount);
    }

    /** StartStreaming once the device is open and the shared memory is mapped. */
    method StartWithMemory(urbCount: nat) returns (ok: bool)
      requires Valid() && shm != null && urbCount <= NumPackets
      modifies this`shutdown, this`packetSizeOut, this`packetSizeIn, this`inputSequence, this`outputSequence,
        this`hwSampleTime, this`lastZeroReported, this`wasDriverReady, this`pcmIn, this`pcmOut, this`midiReads
      modifies shm.inputBuffer, shm.outputBuffer, shm.midiOut`readIndex
      modifies shm`driverReady, shm`sampleTime, shm`hostTime, shm`halWritePosition
      ensures Valid() && ok
      ensures shm.driverReady && !shutdown && packetSizeOut == PacketSizeOut(mode) && packetSizeIn == PacketSizeIn
      ensures inputSequence == 0 && outputSequence == 0 && hwSampleTime == 0 && lastZeroReported == 0 && !wasDriverReady
      ensures shm.sampleTime == 0 && shm.hostTime == 0 && shm.halWritePosition == 0
      ensures forall j :: 0 <= j < InputBufferSize ==> shm.inputBuffer[j] == 0
      ensures forall j :: 0 <= j < OutputBufferSize ==>
        shm.outputBuffer[j] == StartByte(mode, BulkPacketSizeOut, midiByteOffset, old(shm.midiOut.Contents()), urbCount, j)
      ensures mode == IoRing.Bulk ==> shm.midiOut.Contents() == MidiRing.Drop(old(shm.midiOut.Contents()), urbCount)
      ensures mode == IoRing.Interrupt ==> shm.midiOut.readIndex == old(shm.midiOut.readIndex)
      ensures midiReads == old(midiReads) + [shm.midiIn.writeIndex]
      ensures pcmIn == old(pcmIn) + InitialIn(urbCount)
      ensures pcmOut == old(pcmOut) + InitialOut(BulkPacketSizeOut, PacketSizeOut(mode), urbCount)
    {
      shm.driverReady := false;
      shutdown := false;
      ConfigureStreamingFormat();
      UsbBuffer.ZeroFill(shm.inputBuffer);
      ZeroAndPrefillPackets(shm.outputBuffer, mode, packetSizeOut);
      ResetCounters();
      SubmitMIDIin();
      SubmitInitial(urbCount);
      shm.driverReady := true;
      ok := true;
    }

    /**
     * StopStreaming: shutdown is raised, after which every completion
     * handler returns at once; the pipe aborts themselves are the USB stack's.
     */
    method StopStreaming() returns (ok: bool)
      modifies this`shutdown
      ensures ok && shutdown
    {
      shutdown := true;
      ok := true;
    }

    /** The counters and the published timestamp start again from zero. */
    method ResetCounters()
      requires shm != null
      modifies this`inputSequence, this`outputSequence, this`hwSampleTime, this`lastZeroReported, this`wasDriverReady
      modifies shm`sampleTime, shm`hostTime, shm`halWritePosition
      ensures inputSequence == 0 && outputSequence == 0 && hwSampleTime == 0 && lastZeroReported == 0 && !wasDriverReady
      ensures shm.sampleTime == 0 && shm.hostTime == 0 && shm.halWritePosition == 0
    {
      inputSequence, outputSequence, hwSampleTime, lastZeroReported := 0, 0, 0, 0;
      wasDriverReady := false;
      shm.sampleTime, shm.hostTime, shm.halWritePosition := 0, 0, 0;
    }

    /** The submission loop of StartStreaming: packets 0 to urbCount - 1 in and out. */
    method SubmitInitial(urbCount: nat)
      requires Valid() && shm != null && urbCount <= NumPackets
      requires packetSizeOut == PacketSizeOut(mode) && packetSizeIn == PacketSizeIn
      requires forall j :: 0 <= j < OutputBufferSize ==> shm.outputBuffer[j] == PrefillByte(mode, PacketSizeOut(mode), j)
      modifies this`pcmIn, this`pcmOut, shm.outputBuffer, shm.midiOut`readIndex
      ensures Valid()
      ensures forall j :: 0 <= j < OutputBufferSize ==>
        shm.outputBuffer[j] == StartByte(mode, BulkPacketSizeOut, midiByteOffset, old(shm.midiOut.Contents()), urbCount, j)
      ensures mode == IoRing.Bulk ==> shm.midiOut.Contents() == MidiRing.Drop(old(shm.midiOut.Contents()), urbCount)
      ensures mode == IoRing.Interrupt ==> shm.midiOut.readIndex == old(shm.midiOut.readIndex)
      ensures pcmIn == old(pcmIn) + InitialIn(urbCount)
      ensures pcmOut == old(pcmOut) + InitialOut(BulkPacketSizeOut, PacketSizeOut(mode), urbCount)
    {
      ghost var q := shm.midiOut.Contents();
      var i := 0;
      while i < urbCount
        invariant i <= urbCount && Valid()
        invariant forall j :: 0 <= j < OutputBufferSize ==> shm.outputBuffer[j] == StartByte(mode, BulkPacketSizeOut, midiByteOffset, q, i, j)
        invariant mode == IoRing.Bulk ==> shm.midiOut.Contents() == MidiRing.Drop(q, i)
        invariant mode == IoRing.Interrupt ==> shm.midiOut.readIndex == old(shm.midiOut.readIndex)
        invariant pcmIn == old(pcmIn) + InitialIn(i)
        invariant pcmOut == old(pcmOut) + InitialOut(BulkPacketSizeOut, PacketSizeOut(mode), i)
      {
        assert InitialIn(i + 1) == InitialIn(i) + [Transfer(InputOffset(i), PacketSizeIn)];
        StartPacket(i, q);
        i := i + 1;
      }
    }

    /** One round of the start loop: packet i in, then packet i out. */
    method StartPacket(i: nat, ghost q: seq<bv8>)
      requires Valid() && shm != null && i < NumPackets
      requires packetSizeOut == PacketSizeOut(mode) && packetSizeIn == PacketSizeIn
      requires forall j :: 0 <= j < OutputBufferSize ==> shm.outputBuffer[j] == StartByte(mode, BulkPacketSizeOut, midiByteOffset, q, i, j)
      requires mode == IoRing.Bulk ==> shm.midiOut.Contents() == MidiRing.Drop(q, i)
      modifies this`pcmIn, this`pcmOut, shm.outputBuffer, shm.midiOut`readIndex
      ensures Valid()
      ensures forall j :: 0 <= j < OutputBufferSize ==> shm.outputBuffer[j] == StartByte(mode, BulkPacketSizeOut, midiByteOffset, q, i + 1, j)
      ensures mode == IoRing.Bulk ==> shm.midiOut.Contents() == MidiRing.Drop(q, i + 1)
      ensures mode == IoRing.Interrupt ==> shm.midiOut.readIndex == old(shm.midiOut.readIndex)
      ensures pcmIn == old(pcmIn) + [Transfer(InputOffset(i), PacketSizeIn)]
      ensures pcmOut == old(pcmOut) + [Transfer(OutputOffset(i), PacketSizeOut(mode))]
    {
      SubmitPCMin(i);
      ghost var before := shm.outputBuffer[..];
      SubmitPCMout(i);
      StartStep(mode, BulkPacketSizeOut, midiByteOffset, q, i, before, shm.outputBuffer[..]);
      MidiRing.DropStep(q, i);
    }
  }

  /** The PCM-in transfers of the start loop for packets 0 to n - 1. */
  function InitialIn(n: nat): (r: seq<Transfer>)
    ensures |r| == n
    ensures forall i :: 0 <= i < n ==> r[i] == Transfer(InputOffset(i), PacketSizeIn)
  {
    if n == 0 then [] else InitialIn(n - 1) + [Transfer(InputOffset(n - 1), PacketSizeIn)]
  }

  /** The PCM-out transfers of the start loop for packets 0 to n - 1, `size` bytes each in slots of `stride`. */
  function InitialOut(stride: nat, size: nat, n: nat): (r: seq<Transfer>)
    ensures |r| == n
    ensures forall i :: 0 <= i < n ==> r[i] == Transfer(PacketBase(i, stride), size)
  {
    if n == 0 then [] else InitialOut(stride, size, n - 1) + [Transfer(PacketBase(n - 1, stride), size)]
  }

  /** One submission of the start loop extends StartByte from i to i + 1 packets. */
  lemma StartStep(mode: IoRing.Layout, stride: nat, midiOffset: nat, q: seq<bv8>, i: nat, before: seq<bv8>, after: seq<bv8>)
    requires i < NumPackets && midiOffset + 1 < stride && NumPackets * stride <= OutputBufferSize
    requires |before| == OutputBufferSize
    requires forall j :: 0 <= j < OutputBufferSize ==> before[j] == StartByte(mode, stride, midiOffset, q, i, j)
    requires mode == IoRing.Bulk ==> after == MidiPair(before, PacketBase(i, stride) + midiOffset, MidiRing.Drop(q, i))
    requires mode == IoRing.Interrupt ==> after == before
    ensures forall j :: 0 <= j < OutputBufferSize ==> after[j] == StartByte(mode, stride, midiOffset, q, i + 1, j)
  {
    forall j | 0 <= j < OutputBufferSize
      ensures after[j] == StartByte(mode, stride, midiOffset, q, i + 1, j)
    {
      var slot, at := j / stride, j % stride;
      assert j == slot * stride + at;
      if mode == IoRing.Bulk {
        assert PacketBase(i, stride) == i * stride;
        if j == i * stride + midiOffset || j == i * stride + midiOffset + 1 {
          ModUnique(j, i, j - i * stride, stride);
        } else if slot == i {
          assert at != midiOffset && at != midiOffset + 1;
        }
      }
    }
  }
}
