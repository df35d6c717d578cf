// The Ploytec engine of the macOS kernel extension: it shares one block of
// memory (OzzySharedMemory) with the HAL plug-in, in which every one of the
// 128 packet slots of each PCM buffer is 8192 bytes long, whatever the device
// uses of it. Start runs the handshake, pre-fills the UART bytes of every
// 482-byte (interrupt) or 512-byte (bulk) block with 0xFD and keeps two
// transfers in flight on each of the PCM-out, PCM-in and MIDI-in pipes; every
// completion resubmits the packet two ahead, output completions drive the
// sample clock and carry one MIDI byte each, and MIDI-in completions feed the
// midiIn ring through a checked producer.
module PloytecEngine {
  import opened Wrappers
  import opened Wrap
  import opened SharedMemory
  import opened UsbControl
  import opened PloytecDriver
  import opened SampleRate
  import MidiRing
  import IoRing

  /** kOzzyMaxPacketSize: the bytes of one packet slot of a PCM buffer. */
  const MaxPacketSize: nat := 8192
  /** The size of each PCM buffer of the shared block. */
  const BufferBytes: nat := 1048576
  /** sizeof(midiInUSBBuffer): the landing buffer of a MIDI-in transfer. */
  const MidiInUsbBytes: nat := 512
  /** The USB blocks of one logical packet, each carrying one UART pair. */
  const BlocksPerPacket: nat := 8

  /** kPloytecInterruptSize, kPloytecBulkSize, kPloytecInSize. */
  const InterruptSize: u32 := 3856
  const BulkSize: u32 := 4096
  const InSize: u32 := 5120
  /** The MIDI-in endpoint. */
  const MidiInEndpoint: nat := 0x83

  /** The sampling rate Start asks for. */
  const StartRate: u32 := 96000
  /** The status word Start writes. */
  const StartStatus: u16 := 0xFFB2

  // ------------------------------------------------------- packet layout

  /** `(index % kOzzyNumPackets) * kOzzyMaxPacketSize`: where packet `index` starts in its buffer. */
  function SlotBase(index: nat): (off: nat)
    ensures off % MaxPacketSize == 0 && off / MaxPacketSize == PacketSlot(index)
    ensures off + MaxPacketSize <= BufferBytes
  {
    PacketSlot(index) * MaxPacketSize
  }

  /** The first of the two UART bytes of block s of the packet in slot p. */
  function PairAddress(mode: IoRing.Layout, p: nat, s: nat): (j: nat)
    ensures s < BlocksPerPacket ==> p * MaxPacketSize <= j && j + 1 < p * MaxPacketSize + MaxPacketSize
  {
    PairInSlotWhenBlock(mode, s);
    p * MaxPacketSize + s * IoRing.BlockBytes(mode) + IoRing.GapStart(mode)
  }

  lemma PairInSlotWhenBlock(mode: IoRing.Layout, s: nat)
    ensures s < BlocksPerPacket ==> s * IoRing.BlockBytes(mode) + IoRing.GapStart(mode) + 1 < MaxPacketSize
  {
    if s < BlocksPerPacket {
      PairInSlot(mode, s);
    }
  }

  /** Both UART bytes of every block lie inside its 8192-byte slot. */
  lemma PairInSlot(mode: IoRing.Layout, s: nat)
    requires s < BlocksPerPacket
    ensures s * IoRing.BlockBytes(mode) + IoRing.GapStart(mode) + 1 < MaxPacketSize
  {
    match mode
    case Bulk =>
    case Interrupt =>
  }

  /**
   * Whether byte j of an output buffer is one of the two UART bytes of a
   * block whose pair number is below k, block s of slot p being pair number
   * 8p + s: the pre-fill loop has covered the pairs numbered below k.
   */
  predicate PrefilledBelow(mode: IoRing.Layout, j: nat, k: nat)
  {
    var r := j % MaxPacketSize;
    IoRing.GapStart(mode) <= r
    && (r - IoRing.GapStart(mode)) % IoRing.BlockBytes(mode) <= 1
    && (r - IoRing.GapStart(mode)) / IoRing.BlockBytes(mode) < BlocksPerPacket
    && (j / MaxPacketSize) * BlocksPerPacket + (r - IoRing.GapStart(mode)) / IoRing.BlockBytes(mode) < k
  }

  /** Covering pair 8p + s adds exactly its two bytes to the pre-filled ones. */
  lemma PrefillStep(mode: IoRing.Layout, p: nat, s: nat, j: nat)
    requires s < BlocksPerPacket
    ensures PrefilledBelow(mode, j, p * BlocksPerPacket + s + 1)
      <==> PrefilledBelow(mode, j, p * BlocksPerPacket + s) || j == PairAddress(mode, p, s) || j == PairAddress(mode, p, s) + 1
  {
    var off, stride := IoRing.GapStart(mode), IoRing.BlockBytes(mode);
    var a := PairAddress(mode, p, s);
    PairInSlot(mode, s);
    if j == a || j == a + 1 {
      var e := j - a;
      ModUnique(j, p, s * stride + off + e, MaxPacketSize);
      ModUnique(j % MaxPacketSize - off, s, e, stride);
    }
    PairNumberUnique(mode, p, s, j);
  }

  /** The only bytes whose pair number is 8p + s are the two UART bytes of block s of slot p. */
  lemma PairNumberUnique(mode: IoRing.Layout, p: nat, s: nat, j: nat)
    requires s < BlocksPerPacket
    ensures PrefilledBelow(mode, j, p * BlocksPerPacket + s + 1) && !PrefilledBelow(mode, j, p * BlocksPerPacket + s)
      ==> j == PairAddress(mode, p, s) || j == PairAddress(mode, p, s) + 1
  {
    var off, stride := IoRing.GapStart(mode), IoRing.BlockBytes(mode);
    var r := j % MaxPacketSize;
    if PrefilledBelow(mode, j, p * BlocksPerPacket + s + 1) && !PrefilledBelow(mode, j, p * BlocksPerPacket + s) {
      var bp, bs := j / MaxPacketSize, (r - off) / stride;
      ModUnique(p * BlocksPerPacket + s, bp, bs, BlocksPerPacket);
      ModUnique(p * BlocksPerPacket + s, p, s, BlocksPerPacket);
    }
  }

  /** After the whole loop, both UART bytes of every block of every slot are pre-filled. */
  lemma {:induction false} PrefillCoversEveryBlock(mode: IoRing.Layout, p: nat, s: nat)
    requires p < NumPackets && s < BlocksPerPacket
    ensures PrefilledBelow(mode, PairAddress(mode, p, s), NumPackets * BlocksPerPacket)
    ensures PrefilledBelow(mode, PairAddress(mode, p, s) + 1, NumPackets * BlocksPerPacket)
  {
    PrefillStep(mode, p, s, PairAddress(mode, p, s));
    PrefillStep(mode, p, s, PairAddress(mode, p, s) + 1);
  }

  /** And a pre-filled byte is always one of the two UART bytes of some block of some slot. */
  lemma PrefilledIsPair(mode: IoRing.Layout, j: nat, k: nat)
    requires PrefilledBelow(mode, j, k)
    ensures var p, s := j / MaxPacketSize, (j % MaxPacketSize - IoRing.GapStart(mode)) / IoRing.BlockBytes(mode);
      s < BlocksPerPacket && (j == PairAddress(mode, p, s) || j == PairAddress(mode, p, s) + 1)
  {
    var off, stride := IoRing.GapStart(mode), IoRing.BlockBytes(mode);
    var r := j % MaxPacketSize;
    assert r - off == ((r - off) / stride) * stride + (r - off) % stride;
  }

  /**
   * A packet handed to the USB stack: the packet index it carries as its
   * completion context, where it starts in its buffer and how many bytes it moves.
   */
  datatype Submission = Submission(ctx: u32, offset: nat, length: nat)

  /** What the device answers during the handshake of Start (each reply is what a successful request returns). */
  datatype Handshake = Handshake(
    firmware: Option<seq<byte>>,
    rateBefore: Option<seq<byte>>,
    rateOutcomes: seq<bool>,
    rateAfter: Option<seq<byte>>,
    statusWritten: bool,
    status: Option<bv8>)

  /** A handshake script the engine can be run with: the replies fit the requests and there are five rate answers. */
  predicate WellFormed(h: Handshake)
  {
    (h.firmware.Some? ==> |h.firmware.value| <= 15)
    && (h.rateBefore.Some? ==> |h.rateBefore.value| <= 3)
    && (h.rateAfter.Some? ==> |h.rateAfter.value| <= 3)
    && |h.rateOutcomes| == |RateEndpoints|
  }

  /**
   * OzzySharedMemory as far as this engine uses it: the audio block (flags,
   * rate, timestamp, the two PCM buffers of 128 slots of 8192 bytes) and
   * the two MIDI rings, the MIDI-in landing buffer, and the format fields
   * the engine publishes for the HAL.
   */
  class OzzyShared {
    const audio: Shared
    const midiInUsb: array<bv8>
    var deviceFlags: u32
    var updateIntervalFrames: u32
    var framesPerPacket: u32
    var samplesPerPacket: u32
    var outputBytesPerFrame: u32
    var inputBytesPerFrame: u32

    predicate Valid()
      reads this, audio, audio.midiOut, audio.midiIn
    {
      audio.Valid()
      && audio.inputBuffer.Length == BufferBytes && audio.outputBuffer.Length == BufferBytes
      && midiInUsb.Length == MidiInUsbBytes
      && midiInUsb != audio.inputBuffer && midiInUsb != audio.outputBuffer
      && midiInUsb != audio.midiOut.buffer && midiInUsb != audio.midiIn.buffer
    }

    constructor (audio: Shared, midiInUsb: array<bv8>)
      requires audio.Valid() && audio.inputBuffer.Length == BufferBytes && audio.outputBuffer.Length == BufferBytes
      requires midiInUsb.Length == MidiInUsbBytes
      requires midiInUsb != audio.inputBuffer && midiInUsb != audio.outputBuffer
      requires midiInUsb != audio.midiOut.buffer && midiInUsb != audio.midiIn.buffer
      ensures Valid() && this.audio == audio && this.midiInUsb == midiInUsb
      ensures deviceFlags == 0 && updateIntervalFrames == 0 && framesPerPacket == 0
      ensures samplesPerPacket == 0 && outputBytesPerFrame == 0 && inputBytesPerFrame == 0
    {
      this.audio := audio;
      this.midiInUsb := midiInUsb;
      deviceFlags, updateIntervalFrames, framesPerPacket := 0, 0, 0;
      samplesPerPacket, outputBytesPerFrame, inputBytesPerFrame := 0, 0, 0;
    }
  }

  /** The control buffers of the default pipe are not the output buffer of the shared block. */
  predicate Apart(shm: OzzyShared, control: ControlChannel)
  {
    (shm.audio.outputBuffer as object) != control.txBuffer && (shm.audio.outputBuffer as object) != control.rxBuffer
  }

  /**
   * PloytecEngine: the shared block (absent until the kext maps it), whether
   * the bus is attached, the transfer type (interrupt, as the constructor
   * leaves it) and the packet size that goes with it, the default pipe, the
   * sample clock, and the packets submitted on each pipe.
   */
  class Engine {
    const shm: OzzyShared?
    const bus: bool
    const isBulk: bool
    const packetSizeOut: u32
    const control: ControlChannel
    var hwSampleTime: u64
    var pcmOut: seq<Submission>
    var pcmIn: seq<Submission>
    var midiReads: seq<u32>

    predicate Valid()
      reads this, control
      reads if shm != null then {shm, shm.audio, shm.audio.midiOut, shm.audio.midiIn} else {}
    {
      control.Valid()
      && (shm != null ==> shm.Valid() && Apart(shm, control))
      && packetSizeOut == (if isBulk then BulkSize else InterruptSize)
    }

    /** The block layout the transfer type selects. */
    function Mode(): (m: IoRing.Layout)
      ensures m == IoRing.Bulk <==> isBulk
    {
      if isBulk then IoRing.Bulk else IoRing.Interrupt
    }

    constructor (shm: OzzyShared?, bus: bool, control: ControlChannel)
      requires control.Valid() && (shm != null ==> shm.Valid() && Apart(shm, control))
      ensures Valid() && this.shm == shm && this.bus == bus && this.control == control
      ensures !isBulk && packetSizeOut == InterruptSize
      ensures hwSampleTime == 0 && pcmOut == [] && pcmIn == [] && midiReads == []
    {
      this.shm := shm;
      this.bus := bus;
      this.control := control;
      isBulk := false;
      packetSizeOut := InterruptSize;
      hwSampleTime := 0;
      pcmOut, pcmIn, midiReads := [], [], [];
    }

    // ------------------------------------------------------------ start / stop

    /**
     * Start: without the shared block nothing happens and the result is
     * false. Otherwise the format fields are published and the handshake
     * runs; when the last SET_CUR of the rate is refused the result is false
     * and the engine stops there. Otherwise the device is marked present,
     * the clock restarts at zero, both UART bytes of every block of every
     * output slot are set to 0xFD (nothing else in the buffer changes), two
     * packets go out on each pipe, and the driver is marked ready.
     */
    method Start(h: Handshake) returns (ok: bool)
      requires Valid() && WellFormed(h)
      modifies if shm != null then {shm, shm.audio, shm.audio.outputBuffer} else {}
      modifies this`hwSampleTime, this`pcmOut, this`pcmIn, this`midiReads
      modifies control, control.txBuffer, control.rxBuffer
      ensures Valid()
      ensures shm == null ==>
        !ok && control.requests == old(control.requests)
        && hwSampleTime == old(hwSampleTime) && pcmOut == old(pcmOut) && pcmIn == old(pcmIn) && midiReads == old(midiReads)
      ensures shm != null ==> FormatPublished() && (ok <==> h.rateOutcomes[|h.rateOutcomes| - 1])
      ensures shm != null && !ok ==>
        control.requests == old(control.requests) + [FirmwareRequest, GetRateRequest] + RateRequests()
        && hwSampleTime == old(hwSampleTime) && pcmOut == old(pcmOut) && pcmIn == old(pcmIn) && midiReads == old(midiReads)
        && shm.audio.hardwarePresent == old(shm.audio.hardwarePresent) && shm.audio.driverReady == old(shm.audio.driverReady)
        && shm.audio.outputBuffer[..] == old(shm.audio.outputBuffer[..])
      ensures ok ==>
        control.requests == old(control.requests) + StartupRequests()
        && shm.audio.hardwarePresent && shm.audio.driverReady && hwSampleTime == 0 && shm.audio.sampleTime == 0
        && PrefilledFrom(old(shm.audio.outputBuffer[..]))
        && KickedFrom(old(pcmOut), old(pcmIn), old(midiReads))
    {
      if shm == null {
        return false;
      }
      PublishFormat();
      ok := RunHandshake(h);
      if !ok {
        return;
      }
      BringUp();
    }

    /** The format fields Start publishes: sync every 640 frames, the bulk flag, 80 frames of 10 samples, 48 bytes out and 64 in per frame. */
    ghost predicate FormatPublished()
      reads this, shm
      requires shm != null
    {
      shm.updateIntervalFrames == ZeroTimestampPeriod && shm.deviceFlags == (if isBulk then 1 else 0)
      && shm.framesPerPacket == FramesPerPacket && shm.samplesPerPacket == 10
      && shm.outputBytesPerFrame == 48 && shm.inputBytesPerFrame == 64
    }

    /** The output buffer after the pre-fill of Start, `orig` being its contents before. */
    ghost predicate PrefilledFrom(orig: seq<bv8>)
      reads this, shm, shm.audio.outputBuffer
      requires shm != null && shm.audio.outputBuffer.Length == BufferBytes == |orig|
    {
      forall j :: 0 <= j < BufferBytes ==>
        shm.audio.outputBuffer[j] == if PrefilledBelow(Mode(), j, NumPackets * BlocksPerPacket) then MidiRing.Idle else orig[j]
    }

    /** The submissions after the kick-start of Start: packets 0 and 1 on each pipe. */
    ghost predicate KickedFrom(out0: seq<Submission>, in0: seq<Submission>, midi0: seq<u32>)
      reads this
    {
      pcmOut == out0 + [Submission(0, SlotBase(0), packetSizeOut), Submission(1, SlotBase(1), packetSizeOut)]
      && pcmIn == in0 + [Submission(0, SlotBase(0), InSize), Submission(1, SlotBase(1), InSize)]
      && midiReads == midi0 + [0, 1]
    }

    /** The format fields of Start. */
    method PublishFormat()
      requires Valid() && shm != null
      modifies shm
      ensures Valid() && FormatPublished()
    {
      shm.updateIntervalFrames := ZeroTimestampPeriod;
      shm.deviceFlags := if isBulk then 1 else 0;
      shm.framesPerPacket := FramesPerPacket;
      shm.samplesPerPacket := 10;
      shm.outputBytesPerFrame := 48;
      shm.inputBytesPerFrame := 64;
    }

    /** The part of Start after a successful handshake. */
    method BringUp()
      requires Valid() && shm != null
      modifies shm.audio, shm.audio.outputBuffer, this`hwSampleTime, this`pcmOut, this`pcmIn, this`midiReads
      ensures Valid()
      ensures shm.audio.hardwarePresent && shm.audio.driverReady && hwSampleTime == 0 && shm.audio.sampleTime == 0
      ensures PrefilledFrom(old(shm.audio.outputBuffer[..]))
      ensures KickedFrom(old(pcmOut), old(pcmIn), old(midiReads))
    {
      shm.audio.hardwarePresent := true;
      hwSampleTime := 0;
      shm.audio.sampleTime := 0;
      PrefillOutput();
      Kickstart();
      shm.audio.driverReady := true;
    }

    /** The control exchange of Start; the result is the answer to the last SET_CUR. */
    method RunHandshake(h: Handshake) returns (ok: bool)
      requires Valid() && WellFormed(h)
      modifies control, control.txBuffer, control.rxBuffer
      ensures Valid()
      ensures ok == h.rateOutcomes[|h.rateOutcomes| - 1]
      ensures !ok ==> control.requests == old(control.requests) + [FirmwareRequest, GetRateRequest] + RateRequests()
      ensures ok ==> control.requests == old(control.requests) + StartupRequests()
    {
      ghost var r0 := control.requests;
      QueryBeforeRate(h);
      ok := SetHardwareFrameRate(StartRate, h.rateOutcomes);
      if !ok {
        return;
      }
      ghost var r1 := control.requests;
      QueryAfterRate(h);
      ghost var before, after := [FirmwareRequest, GetRateRequest], [GetRateRequest, WriteStatusRequest(StartStatus), StatusRequest];
      assert r1 == r0 + (before + RateRequests());
      assert control.requests == r0 + (before + RateRequests() + after);
    }

    /** The handshake before the rate change: the firmware version, then the rate. */
    method QueryBeforeRate(h: Handshake)
      requires Valid() && WellFormed(h)
      modifies control, control.rxBuffer
      ensures Valid()
      ensures control.requests == old(control.requests) + [FirmwareRequest, GetRateRequest]
    {
      var _ := ReadFirmwareVersion(h.firmware.Some?, if h.firmware.Some? then h.firmware.value else []);
      var _ := GetHardwareFrameRate(h.rateBefore.Some?, if h.rateBefore.Some? then h.rateBefore.value else []);
    }

    /** The handshake after the rate change: the rate again, the status word 0xFFB2, the status byte. */
    method QueryAfterRate(h: Handshake)
      requires Valid() && WellFormed(h)
      modifies control, control.rxBuffer
      ensures Valid()
      ensures control.requests == old(control.requests) + [GetRateRequest, WriteStatusRequest(StartStatus), StatusRequest]
    {
      var _ := GetHardwareFrameRate(h.rateAfter.Some?, if h.rateAfter.Some? then h.rateAfter.value else []);
      var _ := WriteHardwareStatus(StartStatus, h.statusWritten);
      var _ := ReadHardwareStatus(h.status.Some?, if h.status.Some? then h.status.value else 0);
    }

    /**
     * The pre-fill of Start: for every slot p and every block s, both UART
     * bytes of the block are set to 0xFD; the buffer is not cleared first.
     */
    method PrefillOutput()
      requires Valid() && shm != null
      modifies shm.audio.outputBuffer
      ensures PrefilledFrom(old(shm.audio.outputBuffer[..]))
    {
      var buf := shm.audio.outputBuffer;
      var p := 0;
      while p < NumPackets
        invariant p <= NumPackets
        invariant forall j :: 0 <= j < BufferBytes ==>
          buf[j] == if PrefilledBelow(Mode(), j, p * BlocksPerPacket) then MidiRing.Idle else old(buf[j])
      {
        var s := 0;
        while s < BlocksPerPacket
          invariant s <= BlocksPerPacket
          invariant forall j :: 0 <= j < BufferBytes ==>
            buf[j] == if PrefilledBelow(Mode(), j, p * BlocksPerPacket + s) then MidiRing.Idle else old(buf[j])
        {
          PrefillPair(buf, p, s, old(buf[..]));
          s := s + 1;
        }
        p := p + 1;
      }
    }

    /** One step of the pre-fill: both UART bytes of block s of slot p become 0xFD. */
    method PrefillPair(buf: array<bv8>, p: nat, s: nat, ghost orig: seq<bv8>)
      requires buf.Length == BufferBytes == |orig| && p < NumPackets && s < BlocksPerPacket
      requires forall j :: 0 <= j < BufferBytes ==>
        buf[j] == if PrefilledBelow(Mode(), j, p * BlocksPerPacket + s) then MidiRing.Idle else orig[j]
      modifies buf
      ensures forall j :: 0 <= j < BufferBytes ==>
        buf[j] == if PrefilledBelow(Mode(), j, p * BlocksPerPacket + s + 1) then MidiRing.Idle else orig[j]
    {
      var stride: nat := if isBulk then 512 else 482;
      var midiOffset: nat := if isBulk then 480 else 432;
      var midiAddr := p * MaxPacketSize + s * stride + midiOffset;
      assert midiAddr == PairAddress(Mode(), p, s);
      PairInSlot(Mode(), s);
      buf[midiAddr] := MidiRing.Idle;
      buf[midiAddr + 1] := MidiRing.Idle;
      forall j | 0 <= j < BufferBytes
        ensures buf[j] == if PrefilledBelow(Mode(), j, p * BlocksPerPacket + s + 1) then MidiRing.Idle else orig[j]
      {
        PrefillStep(Mode(), p, s, j);
      }
    }

    /** The kick-start of Start: packets 0 and 1, each in, out and MIDI-in in that order. */
    method Kickstart()
      requires Valid() && shm != null
      modifies this`pcmOut, this`pcmIn, this`midiReads
      ensures KickedFrom(old(pcmOut), old(pcmIn), old(midiReads))
    {
      var i: u32 := 0;
      while i < 2
        invariant i <= 2
        invariant pcmOut == old(pcmOut) + (if i == 0 then [] else if i == 1 then [Submission(0, SlotBase(0), packetSizeOut)]
                                             else [Submission(0, SlotBase(0), packetSizeOut), Submission(1, SlotBase(1), packetSizeOut)])
        invariant pcmIn == old(pcmIn) + (if i == 0 then [] else if i == 1 then [Submission(0, SlotBase(0), InSize)]
                                           else [Submission(0, SlotBase(0), InSize), Submission(1, SlotBase(1), InSize)])
        invariant midiReads == old(midiReads) + (if i == 0 then [] else if i == 1 then [0] else [0, 1])
      {
        SubmitPCMIn(i);
        SubmitPCMOut(i);
        SubmitMIDIIn(i);
        i := i + 1;
      }
    }

    /** Stop: with the shared block, the driver is marked not ready and the device absent. */
    method Stop()
      requires Valid()
      modifies if shm != null then {shm.audio} else {}
      ensures Valid()
      ensures shm != null ==>
        !shm.audio.driverReady && !shm.audio.hardwarePresent
        && shm.audio.sampleRate == old(shm.audio.sampleRate) && shm.audio.sequence == old(shm.audio.sequence)
        && shm.audio.sampleTime == old(shm.audio.sampleTime) && shm.audio.hostTime == old(shm.audio.hostTime)
    {
      if shm == null {
        return;
      }
      shm.audio.driverReady := false;
      shm.audio.hardwarePresent := false;
    }

    // ------------------------------------------------------------ MIDI

    /**
     * ProcessMIDIOutput: the MIDI byte of packet `index` is the first UART
     * byte of the first block of its slot; it receives the oldest byte of the
     * midiOut ring, which gives it up, or 0xFD from an empty ring.
     */
    method ProcessMIDIOutput(index: u32)
      requires Valid()
      modifies if shm != null then {shm.audio.midiOut, shm.audio.outputBuffer} else {}
      ensures Valid()
      ensures shm != null ==>
        MidiByteLoaded(index, old(shm.audio.midiOut.Contents()), old(shm.audio.outputBuffer[..]))
        && shm.audio.midiOut.writeIndex == old(shm.audio.midiOut.writeIndex)
        && shm.audio.midiOut.buffer == old(shm.audio.midiOut.buffer)
    {
      if shm == null {
        return;
      }
      var logicalPacket := index % NumPackets as u32;
      var midiOffset: nat := if isBulk then 480 else 432;
      var midiAddr := logicalPacket * MaxPacketSize + midiOffset;
      PairInSlot(Mode(), 0);
      MidiRing.PopToSlot(shm.audio.midiOut, shm.audio.outputBuffer, midiAddr);
    }

    /**
     * ProcessMIDIInput: without the shared block, or for an empty transfer,
     * nothing happens; otherwise the first min(bytes, 512) bytes of the
     * landing buffer are offered in order to the midiIn ring, each dropped
     * when the ring is full.
     */
    method ProcessMIDIInput(bytes: u32)
      requires Valid()
      modifies if shm != null then {shm.audio.midiIn, shm.audio.midiIn.buffer} else {}
      ensures Valid()
      ensures shm != null ==>
        shm.audio.midiIn.Contents() == MidiRing.Admit(old(shm.audio.midiIn.Contents()), shm.midiInUsb[..MidiRing.Min(bytes, MidiInUsbBytes)])
        && shm.audio.midiIn.readIndex == old(shm.audio.midiIn.readIndex)
        && shm.audio.midiIn.buffer == old(shm.audio.midiIn.buffer)
    {
      if shm == null || bytes == 0 {
        return;
      }
      var ring, usb := shm.audio.midiIn, shm.midiInUsb;
      var n := MidiRing.Min(bytes, MidiInUsbBytes);
      var i := 0;
      while i < bytes && i < MidiInUsbBytes
        invariant i <= n
        invariant ring.Valid() && ring.buffer == old(ring.buffer) && ring.readIndex == old(ring.readIndex)
        invariant ring.Contents() == MidiRing.Admit(old(ring.Contents()), usb[..i])
      {
        MidiRing.AdmitSnoc(old(ring.Contents()), usb[..i], usb[i]);
        assert usb[..i + 1] == usb[..i] + [usb[i]];
        ring.Push(usb[i]);
        i := i + 1;
      }
    }

    // ---------------------------------------------------- completions

    /**
     * The timestamp of an output completion: published exactly when the
     * driver is ready and the advanced clock is a multiple of 640; untouched otherwise.
     */
    ghost predicate TimestampStepped(hw0: u64, ready: bool, seq0: u32, sample0: u64, host0: u64, stores0: seq<u32>, now: u64)
      reads this, shm.audio
      requires shm != null
    {
      hwSampleTime == (if ready then Add64(hw0, FramesPerPacket) else hw0)
      && if ready && Add64(hw0, FramesPerPacket) % ZeroTimestampPeriod == 0 then
        shm.audio.sampleTime == hwSampleTime && shm.audio.hostTime == now
        && shm.audio.sequenceStores == stores0 + [Add32(seq0, 1), Add32(seq0, 2)] && shm.audio.sequence == Add32(seq0, 2)
      else
        shm.audio.sampleTime == sample0 && shm.audio.hostTime == host0
        && shm.audio.sequenceStores == stores0 && shm.audio.sequence == seq0
    }

    /**
     * UpdateTimestamp: while the driver is ready, the clock advances by 80
     * frames and every multiple of 640 is published with the host time
     * `now`; without the shared block or before ready nothing changes.
     */
    method UpdateTimestamp(now: u64)
      requires Valid()
      modifies this`hwSampleTime
      modifies if shm != null then {shm.audio} else {}
      ensures Valid()
      ensures shm == null ==> hwSampleTime == old(hwSampleTime)
      ensures shm != null ==>
        TimestampStepped(old(hwSampleTime), old(shm.audio.driverReady), old(shm.audio.sequence), old(shm.audio.sampleTime),
          old(shm.audio.hostTime), old(shm.audio.sequenceStores), now)
        && shm.audio.driverReady == old(shm.audio.driverReady) && shm.audio.hardwarePresent == old(shm.audio.hardwarePresent)
        && shm.audio.sampleRate == old(shm.audio.sampleRate) && shm.audio.halWritePosition == old(shm.audio.halWritePosition)
    {
      if shm == null || !shm.audio.driverReady {
        return;
      }
      var published;
      hwSampleTime, published := Tick(shm.audio, hwSampleTime, now);
    }

    /**
     * OnPacketComplete: without a bus nothing happens. Otherwise the packet
     * two after the finished one (on uint32) is resubmitted on the same pipe;
     * before that an output completion steps the clock and loads the MIDI
     * byte of the new packet, and a MIDI-in completion hands the `bytes`
     * received to the midiIn ring. The status is not looked at.
     */
    method OnPacketComplete(pipe: nat, finished: u32, status: IOReturn, bytes: u32, now: u64)
      requires Valid() && shm != null
      modifies this`hwSampleTime, this`pcmOut, this`pcmIn, this`midiReads
      modifies shm.audio, shm.audio.midiOut, shm.audio.outputBuffer, shm.audio.midiIn, shm.audio.midiIn.buffer
      ensures Valid()
      ensures !bus || (pipe != PcmOutEndpoint && pipe != PcmInEndpoint && pipe != MidiInEndpoint) ==>
        hwSampleTime == old(hwSampleTime) && pcmOut == old(pcmOut) && pcmIn == old(pcmIn) && midiReads == old(midiReads)
      ensures bus && pipe == PcmOutEndpoint ==>
        TimestampStepped(old(hwSampleTime), old(shm.audio.driverReady), old(shm.audio.sequence), old(shm.audio.sampleTime),
          old(shm.audio.hostTime), old(shm.audio.sequenceStores), now)
        && MidiByteLoaded(Add32(finished, 2), old(shm.audio.midiOut.Contents()), old(shm.audio.outputBuffer[..]))
        && pcmOut == old(pcmOut) + [Submission(Add32(finished, 2), SlotBase(Add32(finished, 2)), packetSizeOut)]
        && pcmIn == old(pcmIn) && midiReads == old(midiReads)
      ensures bus && pipe == PcmInEndpoint ==>
        pcmIn == old(pcmIn) + [Submission(Add32(finished, 2), SlotBase(Add32(finished, 2)), InSize)]
        && pcmOut == old(pcmOut) && midiReads == old(midiReads) && hwSampleTime == old(hwSampleTime)
      ensures bus && pipe == MidiInEndpoint ==>
        shm.audio.midiIn.Contents() == MidiRing.Admit(old(shm.audio.midiIn.Contents()), shm.midiInUsb[..MidiRing.Min(bytes, MidiInUsbBytes)])
        && midiReads == old(midiReads) + [Add32(finished, 2)]
        && pcmOut == old(pcmOut) && pcmIn == old(pcmIn) && hwSampleTime == old(hwSampleTime)
    {
      if !bus {
        return;
      }
      var next := Add32(finished, 2);
      if pipe == PcmOutEndpoint {
        CompleteOutput(next, now);
      } else if pipe == PcmInEndpoint {
        SubmitPCMIn(next);
      } else if pipe == MidiInEndpoint {
        CompleteMidiIn(next, bytes);
      }
    }

    /**
     * The MIDI byte of packet `index` after ProcessMIDIOutput, `q0` and
     * `buf0` being the midiOut queue and the output buffer before: the
     * first UART byte of the packet's slot holds the oldest queued byte (or
     * 0xFD), which has left the queue, and nothing else in the buffer changed.
     */
    ghost predicate MidiByteLoaded(index: nat, q0: seq<bv8>, buf0: seq<bv8>)
      reads this, shm.audio.midiOut, shm.audio.midiOut.buffer, shm.audio.outputBuffer
      requires shm != null && shm.audio.midiOut.Valid()
    {
      var at := SlotBase(index) + IoRing.GapStart(Mode());
      at == PairAddress(Mode(), PacketSlot(index), 0) && at < |buf0|
      && shm.audio.midiOut.Contents() == MidiRing.Drop(q0, 1)
      && shm.audio.outputBuffer[..] == buf0[at := MidiRing.Head(q0)]
    }

    /** An output completion: the clock, the MIDI byte of packet `next`, and its submission. */
    method CompleteOutput(next: u32, now: u64)
      requires Valid() && shm != null
      modifies this`hwSampleTime, this`pcmOut, shm.audio, shm.audio.midiOut, shm.audio.outputBuffer
      ensures Valid()
      ensures TimestampStepped(old(hwSampleTime), old(shm.audio.driverReady), old(shm.audio.sequence), old(shm.audio.sampleTime),
          old(shm.audio.hostTime), old(shm.audio.sequenceStores), now)
      ensures MidiByteLoaded(next, old(shm.audio.midiOut.Contents()), old(shm.audio.outputBuffer[..]))
      ensures pcmOut == old(pcmOut) + [Submission(next, SlotBase(next), packetSizeOut)]
    {
      ghost var q0, buf0 := shm.audio.midiOut.Contents(), shm.audio.outputBuffer[..];
      UpdateTimestamp(now);
      assert shm.audio.midiOut.Contents() == q0 && shm.audio.outputBuffer[..] == buf0;
      ProcessMIDIOutput(next);
      SubmitPCMOut(next);
    }

    /** A MIDI-in completion: the received bytes go to the ring, and the read is submitted again as `next`. */
    method CompleteMidiIn(next: u32, bytes: u32)
      requires Valid() && shm != null
      modifies this`midiReads, shm.audio.midiIn, shm.audio.midiIn.buffer
      ensures Valid()
      ensures shm.audio.midiIn.Contents() == MidiRing.Admit(old(shm.audio.midiIn.Contents()), shm.midiInUsb[..MidiRing.Min(bytes, MidiInUsbBytes)])
      ensures midiReads == old(midiReads) + [next]
    {
      ProcessMIDIInput(bytes);
      SubmitMIDIIn(next);
    }

    /** SubmitPCMOut: packet `index` goes out from the start of its slot with the output packet size. */
    method SubmitPCMOut(index: u32)
      requires shm != null
      modifies this`pcmOut
      ensures pcmOut == old(pcmOut) + [Submission(index, SlotBase(index), packetSizeOut)]
    {
      var pIdx := index % NumPackets as u32;
      pcmOut := pcmOut + [Submission(index, pIdx * MaxPacketSize, packetSizeOut)];
    }

    /** SubmitPCMIn: packet `index` is read into the start of its slot, 5120 bytes. */
    method SubmitPCMIn(index: u32)
      requires shm != null
      modifies this`pcmIn
      ensures pcmIn == old(pcmIn) + [Submission(index, SlotBase(index), InSize)]
    {
      var pIdx := index % NumPackets as u32;
      pcmIn := pcmIn + [Submission(index, pIdx * MaxPacketSize, InSize)];
    }

    /** SubmitMIDIIn: a read of up to 512 bytes into the landing buffer, carrying `index`. */
    method SubmitMIDIIn(index: u32)
      requires shm != null
      modifies this`midiReads
      ensures midiReads == old(midiReads) + [index]
    {
      midiReads := midiReads + [index];
    }

    // ------------------------------------------------------ protocol helpers

    /** ReadFirmwareVersion: one 'V' request; the result is whether it was answered. */
    method ReadFirmwareVersion(answered: bool, reply: seq<byte>) returns (ok: bool)
      requires Valid() && |reply| <= 15
      modifies control, control.rxBuffer
      ensures Valid()
      ensures control.requests == old(control.requests) + [FirmwareRequest]
      ensures ok == answered
    {
      var fw := control.ReadFirmware(answered, reply);
      ok := fw.Some?;
    }

    /** ReadHardwareStatus: one 'I' request; the result is whether it was answered. */
    method ReadHardwareStatus(answered: bool, status: bv8) returns (ok: bool)
      requires Valid()
      modifies control, control.rxBuffer
      ensures Valid()
      ensures control.requests == old(control.requests) + [StatusRequest]
      ensures ok == answered
    {
      var st := control.ReadStatus(answered, status);
      ok := st.Some?;
    }

    /** GetHardwareFrameRate: one GET_CUR of the rate, which is only logged; the result is whether it was answered. */
    method GetHardwareFrameRate(answered: bool, reply: seq<byte>) returns (ok: bool)
      requires Valid() && |reply| <= 3
      modifies control, control.rxBuffer
      ensures Valid()
      ensures control.requests == old(control.requests) + [GetRateRequest]
      ensures ok == answered
    {
      var _ := control.GetFrameRate(false, answered, reply);
      ok := answered;
    }

    /**
     * SetHardwareFrameRate: the low 24 bits of the rate are sent with each of
     * the five SET_CUR requests; only the answer to the last is the result.
     */
    method SetHardwareFrameRate(rate: u32, outcomes: seq<bool>) returns (ok: bool)
      requires Valid() && |outcomes| == |RateEndpoints|
      modifies control, control.txBuffer
      ensures Valid()
      ensures control.requests == old(control.requests) + RateRequests()
      ensures control.txBuffer[..3] == Encode24(rate)
      ensures ok == outcomes[|outcomes| - 1]
    {
      ok := control.SetFrameRate(rate, outcomes);
    }

    /** WriteHardwareStatus: one 'I' request carrying the value; the result is whether it was answered. */
    method WriteHardwareStatus(value: u16, answered: bool) returns (ok: bool)
      requires Valid()
      modifies control
      ensures Valid()
      ensures control.requests == old(control.requests) + [WriteStatusRequest(value)]
      ensures ok == answered
    {
      ok := control.WriteStatus(value, answered);
    }
  }
}
