// The memory the USB engines share with the HAL plug-ins, and the
// bookkeeping every engine variant repeats: 128 packet slots in each PCM
// buffer, resubmission two packets ahead, a hardware sample clock that
// advances 80 frames per completed output packet, and a zero timestamp
// published every 640 frames under a sequence counter (a seqlock: odd while
// the sample and host times are being written, even once they are
// consistent).
module SharedMemory {
  import opened Wrap
  import MidiRing
  import IoRing
  import UsbBuffer

  /** kFramesPerPacket: frames carried by one USB packet. */
  const FramesPerPacket: nat := 80
  /** kZeroTimestampPeriod: frames between two published zero timestamps. */
  const ZeroTimestampPeriod: nat := 640
  /** kNumPackets: packet slots in each PCM buffer. */
  const NumPackets: nat := 128
  /** kDefaultUrbs: transfers kept in flight per direction. */
  const DefaultUrbs: nat := 2

  /** The outcome of an asynchronous USB transfer. */
  datatype IOReturn = Success | Aborted | Failed(code: int)

  /** A transfer handed to the USB stack: where it starts in its buffer and how many bytes it moves. */
  datatype Transfer = Transfer(offset: nat, length: nat)

  /** `index & kPacketMask`: the buffer slot of a packet. */
  function PacketSlot(index: nat): (s: nat)
    ensures s < NumPackets
    ensures index < NumPackets ==> s == index
    ensures (index - s) % NumPackets == 0
  {
    index % NumPackets
  }

  /** Consecutive packets use consecutive slots, the last slot being followed by the first. */
  lemma SlotRotation(index: nat)
    ensures PacketSlot(index + 1) == if PacketSlot(index) == NumPackets - 1 then 0 else PacketSlot(index) + 1
  {
  }

  /** Packets fewer than 128 apart, such as the ones in flight together, never share a slot. */
  lemma SlotsDistinct(index: nat, d: nat)
    requires 0 < d < NumPackets
    ensures PacketSlot(index) != PacketSlot(index + d)
  {
    var q, s := index / NumPackets, index % NumPackets;
    if s + d < NumPackets {
      ModUnique(index + d, q, s + d, NumPackets);
    } else {
      ModUnique(index + d, q + 1, s + d - NumPackets, NumPackets);
    }
  }

  // ------------------------------------------------------- output prefill

  /**
   * The byte StartStreaming leaves at position j of an output buffer of
   * 128 packets of `packetSize` bytes: 0xFD in the two MIDI/UART bytes of
   * every block (480/512 bulk, 432/482 interrupt) whose pair lies below
   * 128 * packetSize, and 0 everywhere else.
   */
  function PrefillByte(mode: IoRing.Layout, packetSize: nat, j: nat): bv8
  {
    if UsbBuffer.IdleAt(IoRing.GapStart(mode), IoRing.BlockBytes(mode), NumPackets * packetSize, j) then MidiRing.Idle else 0
  }

  /** The memset of the output buffer and the 0xFD loop of StartStreaming. */
  method ZeroAndPrefillPackets(buf: array<bv8>, mode: IoRing.Layout, packetSize: nat)
    requires NumPackets * packetSize <= buf.Length
    modifies buf
    ensures forall j :: 0 <= j < buf.Length ==> buf[j] == PrefillByte(mode, packetSize, j)
  {
    UsbBuffer.ZeroFill(buf);
    UsbBuffer.PrefillIdle(buf, IoRing.GapStart(mode), IoRing.BlockBytes(mode), NumPackets * packetSize);
  }

  // ---------------------------------------------------------- sample clock

  /** mHwSampleTime after k ready output completions from zero, on uint64. */
  function Clock(k: nat): u64
  {
    if k == 0 then 0 else Add64(Clock(k - 1), FramesPerPacket)
  }

  /** The clock counts 80 frames per completion until uint64 would overflow. */
  lemma {:induction false} ClockValue(k: nat)
    requires FramesPerPacket * k < U64
    ensures Clock(k) == FramesPerPacket * k
  {
    if k > 0 {
      ClockValue(k - 1);
    }
  }

  /** A timestamp is published on every eighth completion, and only then. */
  lemma PublishEveryEighth(k: nat)
    requires FramesPerPacket * k < U64
    ensures Clock(k) % ZeroTimestampPeriod == 0 <==> k % 8 == 0
  {
    ClockValue(k);
    var q, m := k / 8, k % 8;
    assert FramesPerPacket * k == q * ZeroTimestampPeriod + FramesPerPacket * m;
    ModUnique(FramesPerPacket * k, q, FramesPerPacket * m, ZeroTimestampPeriod);
  }

  /** Under the seqlock an even counter turns odd on the first store and even again on the second. */
  lemma SequenceParity(s: u32)
    requires s % 2 == 0
    ensures Add32(s, 1) % 2 == 1 && Add32(s, 2) % 2 == 0
  {
  }

  /**
   * The shared-memory block: the audio state (readiness flags, sampling
   * rate, the zero timestamp with its sequence counter, the HAL write
   * position, the two PCM buffers) and the two MIDI rings.
   */
  class Shared {
    var hardwarePresent: bool
    var driverReady: bool
    var sampleRate: u32
    var sequence: u32
    var sampleTime: u64
    var hostTime: u64
    var halWritePosition: u64
    /** Every value stored to sequence, in store order. */
    ghost var sequenceStores: seq<u32>
    const inputBuffer: array<bv8>
    const outputBuffer: array<bv8>
    const midiOut: MidiRing.Ring
    const midiIn: MidiRing.Ring

    /** The rings are well formed and no two of the buffers alias. */
    predicate Valid()
      reads this, midiOut, midiIn
    {
      midiOut.Valid() && midiIn.Valid() && midiOut != midiIn
      && midiOut.buffer != midiIn.buffer
      && inputBuffer != outputBuffer
      && inputBuffer != midiOut.buffer && inputBuffer != midiIn.buffer
      && outputBuffer != midiOut.buffer && outputBuffer != midiIn.buffer
    }

    constructor (inputBuffer: array<bv8>, outputBuffer: array<bv8>, midiOut: MidiRing.Ring, midiIn: MidiRing.Ring)
      ensures this.inputBuffer == inputBuffer && this.outputBuffer == outputBuffer
      ensures this.midiOut == midiOut && this.midiIn == midiIn
      ensures !hardwarePresent && !driverReady && sequence == 0 && sequenceStores == []
      ensures sampleRate == 0 && sampleTime == 0 && hostTime == 0 && halWritePosition == 0
    {
      this.inputBuffer := inputBuffer;
      this.outputBuffer := outputBuffer;
      this.midiOut := midiOut;
      this.midiIn := midiIn;
      hardwarePresent, driverReady := false, false;
      sampleRate, sequence, sampleTime, hostTime, halWritePosition := 0, 0, 0, 0, 0;
      sequenceStores := [];
    }

    /**
     * The writer side of the seqlock: the sequence is raised by one, the
     * sample and host times are stored, and the sequence is set to the old
     * value plus two.
     */
    method PublishTimestamp(sample: u64, host: u64)
      modifies this`sequence, this`sampleTime, this`hostTime, this`sequenceStores
      ensures sequenceStores == old(sequenceStores) + [Add32(old(sequence), 1), Add32(old(sequence), 2)]
      ensures sequence == Add32(old(sequence), 2)
      ensures sampleTime == sample && hostTime == host
    {
      var s := sequence;
      sequence := Add32(s, 1);
      sequenceStores := sequenceStores + [sequence];
      sampleTime := sample;
      hostTime := host;
      sequence := Add32(s, 2);
      sequenceStores := sequenceStores + [sequence];
    }
  }

  /**
   * One ready output completion: the clock advances by 80 frames and, on a
   * multiple of 640, the new clock value is published with the host time
   * `host` (mach_absolute_time at that moment).
   */
  method Tick(shm: Shared, hw: u64, host: u64) returns (next: u64, published: bool)
    modifies shm`sequence, shm`sampleTime, shm`hostTime, shm`sequenceStores
    ensures next == Add64(hw, FramesPerPacket)
    ensures published <==> next % ZeroTimestampPeriod == 0
    ensures published ==>
      shm.sampleTime == next && shm.hostTime == host
      && shm.sequence == Add32(old(shm.sequence), 2)
      && shm.sequenceStores == old(shm.sequenceStores) + [Add32(old(shm.sequence), 1), Add32(old(shm.sequence), 2)]
    ensures !published ==>
      shm.sampleTime == old(shm.sampleTime) && shm.hostTime == old(shm.hostTime)
      && shm.sequence == old(shm.sequence) && shm.sequenceStores == old(shm.sequenceStores)
  {
    next := Add64(hw, FramesPerPacket);
    published := next % ZeroTimestampPeriod == 0;
    if published {
      shm.PublishTimestamp(next, host);
    }
  }
}
