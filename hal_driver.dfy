// PloytecDriver of the user-space HAL plug-in (ploytechal): the streaming
// format and its segment counts, the output-buffer fill of StartStreaming,
// the MIDI byte SubmitPCMout takes from the shared midiOut ring, the
// filtered and checked push of MIDIinComplete into midiIn, the segment
// rotation of the PCM completions, the transfer-mode detection, the
// connection flag and the control requests.
module HalDriver {
  import opened Wrappers
  import opened Wrap
  import opened SampleRate
  import opened UsbControl
  import opened SharedMemory
  import MidiRing
  import IoRing
  import UsbBuffer
  import HalAudioDevice
  import PloytecUsb
  import opened PloytecDriver

  /** MIDI_RX_SIZE: the size of one MIDI-in read. */
  const MidiRxSize: nat := 512
  /** The frames of one packet in each direction, as StartStreaming configures them. */
  const StreamFrames: u16 := 80
  /** The bytes of one input frame on the wire. */
  const InputFrameBytes: nat := 64
  /** The largest start-up submission count whose segments fit both buffers. */
  const MaxUrbs: nat := 32

  // ------------------------------------------------------ streaming format

  /** The out packet of ConfigureStreamingFormat: whole ten-frame blocks of the mode's stride. */
  function OutPacket(mode: IoRing.Layout, outputFrames: u16): (n: nat)
    ensures n % IoRing.BlockBytes(mode) == 0
    ensures outputFrames < 10 <==> n == 0
    ensures n > 0 ==> n >= IoRing.BlockBytes(mode)
  {
    (outputFrames as nat / 10) * IoRing.BlockBytes(mode)
  }

  /** The in packet of ConfigureStreamingFormat: 64 bytes a frame, none without input frames. */
  function InPacket(inputFrames: u16): (n: nat)
    ensures n == 0 <==> inputFrames == 0
    ensures n % InputFrameBytes == 0
  {
    if inputFrames > 0 then inputFrames as nat * InputFrameBytes else 0
  }

  /** The packets of `packet` bytes a buffer of `size` bytes holds, or 0 for an empty packet. */
  function Segments(size: nat, packet: nat): (n: nat)
    ensures packet > 0 ==> n * packet <= size < n * packet + packet
    ensures packet == 0 ==> n == 0
  {
    if packet > 0 then size / packet else 0
  }

  /** ConfigureStreamingFormat's verdict: two output segments, and two input segments when there is input. */
  predicate FormatAccepted(txSegCount: nat, inputPacketSize: nat, rxSegCount: nat)
  {
    txSegCount >= 2 && (inputPacketSize == 0 || rxSegCount >= 2)
  }

  /** Segment `seg` of a count lies inside the buffer the count was taken from. */
  lemma SegmentFits(size: nat, packet: nat, seg: nat)
    requires seg < Segments(size, packet)
    ensures seg * packet + packet <= size
  {
    var n := Segments(size, packet);
    MulMonotone(seg + 1, n, packet);
    assert seg * packet + packet == (seg + 1) * packet;
  }

  /** A product grows with its first factor. */
  lemma {:induction false} MulMonotone(a: nat, b: nat, c: nat)
    requires a <= b
    ensures a * c <= b * c
    decreases b - a
  {
    if a < b {
      MulMonotone(a, b - 1, c);
      assert b * c == (b - 1) * c + c;
    }
  }

  /** An accepted format has room for two packets in each direction it uses. */
  lemma AcceptedHoldsTwoPackets(mode: IoRing.Layout, inputFrames: u16, outputFrames: u16)
    requires FormatAccepted(Segments(UsbBuffer.BufferSizeOut, OutPacket(mode, outputFrames)), InPacket(inputFrames),
                            Segments(UsbBuffer.BufferSizeIn, InPacket(inputFrames)))
    ensures 2 * OutPacket(mode, outputFrames) <= UsbBuffer.BufferSizeOut
    ensures inputFrames > 0 ==> 2 * InPacket(inputFrames) <= UsbBuffer.BufferSizeIn
  {
    SegmentFits(UsbBuffer.BufferSizeOut, OutPacket(mode, outputFrames), 1);
    if inputFrames > 0 {
      SegmentFits(UsbBuffer.BufferSizeIn, InPacket(inputFrames), 1);
    }
  }

  /**
   * The format StartStreaming asks for, 80 frames each way, is accepted in
   * both modes: 32 bulk or 33 interrupt output segments and 32 input ones.
   */
  lemma StreamFormat(mode: IoRing.Layout)
    ensures OutPacket(mode, StreamFrames) == 8 * IoRing.BlockBytes(mode)
    ensures InPacket(StreamFrames) == HalAudioDevice.InputPacketBytes
    ensures Segments(UsbBuffer.BufferSizeOut, OutPacket(mode, StreamFrames)) == (if mode == IoRing.Bulk then 32 else 33)
    ensures Segments(UsbBuffer.BufferSizeIn, InPacket(StreamFrames)) == MaxUrbs
    ensures FormatAccepted(Segments(UsbBuffer.BufferSizeOut, OutPacket(mode, StreamFrames)), InPacket(StreamFrames),
                           Segments(UsbBuffer.BufferSizeIn, InPacket(StreamFrames)))
  {
    if mode == IoRing.Bulk {
      ModUnique(UsbBuffer.BufferSizeOut, 32, 0, 4096);
    } else {
      ModUnique(UsbBuffer.BufferSizeOut, 33, 3824, 3856);
    }
    ModUnique(UsbBuffer.BufferSizeIn, 32, 0, 5120);
  }

  /** Fewer than ten output frames make an empty out packet, which is refused. */
  lemma ShortOutputRefused(mode: IoRing.Layout, inputFrames: u16, outputFrames: u16)
    requires outputFrames < 10
    ensures !FormatAccepted(Segments(UsbBuffer.BufferSizeOut, OutPacket(mode, outputFrames)), InPacket(inputFrames),
                            Segments(UsbBuffer.BufferSizeIn, InPacket(inputFrames)))
  {
  }

  // ----------------------------------------------------- output buffer fill

  /** The byte the memset and the 0xFD loop of StartStreaming leave at j. */
  function PrefillByte(mode: IoRing.Layout, j: nat): bv8
  {
    if UsbBuffer.IdleAt(UsbBuffer.MidiByteNo(mode), IoRing.BlockBytes(mode), UsbBuffer.BufferSizeOut, j) then MidiRing.Idle else 0
  }

  /**
   * The byte at j once the first n output segments have been submitted
   * from a midiOut queue q, with the MIDI byte at `midiOffset` of each
   * segment: with shared memory segment i carries q's i-th byte (or 0xFD)
   * and then 0xFD; everything else is the prefill.
   */
  function StartByte(mode: IoRing.Layout, midiOffset: nat, shared: bool, q: seq<bv8>, n: nat, j: nat): bv8
  {
    var p := 8 * IoRing.BlockBytes(mode);
    var slot, at := j / p, j % p;
    if shared && slot < n && at == midiOffset then MidiRing.Head(MidiRing.Drop(q, slot))
    else if shared && slot < n && at == midiOffset + 1 then MidiRing.Idle
    else PrefillByte(mode, j)
  }

  /** One output submission of the start loop extends StartByte from i to i + 1 segments. */
  lemma StartStep(mode: IoRing.Layout, midiOffset: nat, shared: bool, q: seq<bv8>, i: nat,
                  before: seq<bv8>, after: seq<bv8>)
    requires midiOffset + 1 < 8 * IoRing.BlockBytes(mode)
    requires i * (8 * IoRing.BlockBytes(mode)) + 8 * IoRing.BlockBytes(mode) <= |before|
    requires forall j :: 0 <= j < |before| ==> before[j] == StartByte(mode, midiOffset, shared, q, i, j)
    requires shared ==> after == PloytecUsb.MidiPair(before, i * (8 * IoRing.BlockBytes(mode)) + midiOffset, MidiRing.Drop(q, i))
    requires !shared ==> after == before
    ensures |after| == |before|
    ensures forall j :: 0 <= j < |after| ==> after[j] == StartByte(mode, midiOffset, shared, q, i + 1, j)
  {
    var p := 8 * IoRing.BlockBytes(mode);
    forall j | 0 <= j < |after|
      ensures after[j] == StartByte(mode, midiOffset, shared, q, i + 1, j)
    {
      var slot, at := j / p, j % p;
      assert j == slot * p + at;
      if shared {
        if j == i * p + midiOffset || j == i * p + midiOffset + 1 {
          ModUnique(j, i, j - i * p, p);
        } else if slot == i {
          assert at != midiOffset && at != midiOffset + 1;
        }
      }
    }
  }

  /**
   * With the MIDI offset DetectTransferMode chooses, the start loop writes
   * only over the 0xFD pairs of the fill: every other byte of the output
   * buffer, all PCM bytes among them, is still 0.
   */
  lemma StartLeavesPcmSilent(mode: IoRing.Layout, shared: bool, q: seq<bv8>, n: nat, j: nat)
    requires n <= MaxUrbs && j < UsbBuffer.BufferSizeOut
    requires !UsbBuffer.IdleAt(UsbBuffer.MidiByteNo(mode), IoRing.BlockBytes(mode), UsbBuffer.BufferSizeOut, j)
    ensures StartByte(mode, UsbBuffer.MidiByteNo(mode), shared, q, n, j) == 0
  {
    StartPairIdle(mode, n, j);
  }

  /** The two bytes the start loop writes into a segment lie on a 0xFD pair of the fill. */
  lemma StartPairIdle(mode: IoRing.Layout, n: nat, j: nat)
    requires n <= MaxUrbs
    ensures var p, m := 8 * IoRing.BlockBytes(mode), UsbBuffer.MidiByteNo(mode);
      j / p < n && (j % p == m || j % p == m + 1) ==>
        UsbBuffer.IdleAt(m, IoRing.BlockBytes(mode), UsbBuffer.BufferSizeOut, j)
  {
    var k := IoRing.BlockBytes(mode);
    var p, m := 8 * k, UsbBuffer.MidiByteNo(mode);
    var slot := j / p;
    if slot < n && (j % p == m || j % p == m + 1) {
      MulMonotone(slot + 1, MaxUrbs, p);
      assert slot * p == (8 * slot) * k;
      UsbBuffer.IdlePairs(m, k, UsbBuffer.BufferSizeOut, 8 * slot);
    }
  }

  /** The PCM-in reads of the start loop: segments 0 to n - 1 of `packet` bytes. */
  function InitialReads(packet: nat, n: nat): (r: seq<Transfer>)
    ensures |r| == n
    ensures forall i :: 0 <= i < n ==> r[i] == Transfer(i * packet, packet)
  {
    if n == 0 then [] else InitialReads(packet, n - 1) + [Transfer((n - 1) * packet, packet)]
  }

  // ------------------------------------------------------------ the driver

  /**
   * The driver's instance variables: the device and its interfaces as
   * flags, the three streaming buffers, the shared MIDI rings (written only
   * while the shared-memory block is mapped), the streaming format and
   * segment counters, and the USB transfers queued so far, as logs.
   */
  class Driver {
    /** usbDevice is open. */
    const device: bool
    /** The interfaces holding the PCM-in and MIDI-in pipes were found. */
    const pcmInInterface: bool
    const midiInInterface: bool
    /** NotifyDeviceListChanged has a host to tell. */
    const host: bool
    /** gSharedMem is mapped. */
    const sharedMem: bool
    const vendorId: u16
    const productId: u16
    const tx: array<bv8>
    const rx: array<bv8>
    const midiRx: array<bv8>
    const midiOut: MidiRing.Ring
    const midiIn: MidiRing.Ring
    const audio: HalAudioDevice.PloytecAudioDevice
    const control: ControlChannel

    var mode: IoRing.Layout
    var midiByteNo: nat
    var shutdown: bool
    var outputPacketSize: nat
    var inputPacketSize: nat
    var txSegCount: nat
    var rxSegCount: nat
    var txSeg: u32
    var rxSeg: u32
    var connected: bool
    /** How many device-list-changed notices went to the host. */
    var notifications: nat
    var pcmOut: seq<Transfer>
    var pcmIn: seq<Transfer>
    /** How many 512-byte MIDI-in reads were queued. */
    var midiReads: nat
    var firmware: Firmware
    var currentStatus: bv8
    var currentHWFrameRate: u32

    /** The 4D (VID 0x0A4A, PID 0xFF4D) always runs at 96 kHz. */
    predicate FourD()
    {
      vendorId == 0x0A4A && productId == 0xFF4D
    }

    predicate Valid()
      reads this, audio, control, midiOut, midiIn
    {
      Wired() && Formatted()
    }

    /** The plug-in, the control channel, the rings and the buffers are valid and pairwise distinct. */
    predicate Wired()
      reads this, audio, control, midiOut, midiIn
    {
      audio.Valid() && audio.zeroTimestampPeriod > 0 && control.Valid()
      && tx.Length == UsbBuffer.BufferSizeOut && rx.Length == UsbBuffer.BufferSizeIn && midiRx.Length == MidiRxSize
      && tx != rx && tx != midiRx && rx != midiRx
      && tx as object != control.txBuffer && tx as object != control.rxBuffer
      && midiOut.Valid() && midiIn.Valid() && midiOut != midiIn && midiOut.buffer != midiIn.buffer
      && midiOut.buffer != tx && midiIn.buffer != midiRx && midiIn.buffer != tx && midiOut.buffer != midiRx
      && midiOut.buffer != rx && midiIn.buffer != rx
    }

    /** The MIDI byte lies in a block, and the segment counts follow the packet sizes. */
    predicate Formatted()
      reads this
    {
      midiByteNo <= UsbBuffer.MidiByteNo(IoRing.Bulk)
      && (outputPacketSize == 0 || outputPacketSize >= IoRing.BlockBytes(IoRing.Interrupt))
      && txSegCount == Segments(UsbBuffer.BufferSizeOut, outputPacketSize)
      && rxSegCount == Segments(UsbBuffer.BufferSizeIn, inputPacketSize)
    }

    /**
     * A driver over an opened device and its buffers, with the initial
     * instance variables: bulk mode, MIDI byte 0, no format and no segments.
     */
    constructor (device: bool, pcmInInterface: bool, midiInInterface: bool, host: bool, sharedMem: bool,
                 vendorId: u16, productId: u16, tx: array<bv8>, rx: array<bv8>, midiRx: array<bv8>,
                 midiOut: MidiRing.Ring, midiIn: MidiRing.Ring, audio: HalAudioDevice.PloytecAudioDevice,
                 control: ControlChannel)
      requires audio.Valid() && audio.zeroTimestampPeriod > 0 && control.Valid()
      requires tx.Length == UsbBuffer.BufferSizeOut && rx.Length == UsbBuffer.BufferSizeIn && midiRx.Length == MidiRxSize
      requires tx != rx && tx != midiRx && rx != midiRx
      requires tx as object != control.txBuffer && tx as object != control.rxBuffer
      requires midiOut.Valid() && midiIn.Valid() && midiOut != midiIn && midiOut.buffer != midiIn.buffer
      requires midiOut.buffer != tx && midiIn.buffer != midiRx && midiIn.buffer != tx && midiOut.buffer != midiRx
      requires midiOut.buffer != rx && midiIn.buffer != rx
      ensures Valid()
      ensures this.device == device && this.sharedMem == sharedMem && this.tx == tx && this.rx == rx
      ensures this.midiOut == midiOut && this.midiIn == midiIn && this.audio == audio && this.control == control
      ensures mode == IoRing.Bulk && midiByteNo == 0 && !shutdown && !connected
      ensures outputPacketSize == 0 && inputPacketSize == 0 && txSegCount == 0 && rxSegCount == 0
      ensures txSeg == 0 && rxSeg == 0 && currentStatus == 0 && currentHWFrameRate == 0
      ensures pcmOut == [] && pcmIn == [] && midiReads == 0 && notifications == 0
    {
      this.device, this.pcmInInterface, this.midiInInterface, this.host, this.sharedMem := device, pcmInInterface, midiInInterface, host, sharedMem;
      this.vendorId, this.productId := vendorId, productId;
      this.tx, this.rx, this.midiRx := tx, rx, midiRx;
      this.midiOut, this.midiIn, this.audio, this.control := midiOut, midiIn, audio, control;
      mode, midiByteNo, shutdown := IoRing.Bulk, 0, false;
      outputPacketSize, inputPacketSize, txSegCount, rxSegCount := 0, 0, 0, 0;
      txSeg, rxSeg, connected, notifications := 0, 0, false, 0;
      pcmOut, pcmIn, midiReads := [], [], 0;
      firmware := Firmware(0, 0, 0, 0);
      currentStatus, currentHWFrameRate := 0, 0;
    }

    /** SetConnected: the flag takes the new value, and the host hears of it only when it changed. */
    method SetConnected(c: bool)
      modifies this`connected, this`notifications
      ensures connected == c
      ensures notifications == old(notifications) + (if host && old(connected) != c then 1 else 0)
    {
      var was := connected;
      connected := c;
      if was != c && host {
        notifications := notifications + 1;
      }
    }

    /**
     * DetectTransferMode: the PCM-out pipe decides bulk (MIDI byte 480) or
     * interrupt (MIDI byte 432); without the pipe, without its properties
     * or for any other transfer type nothing changes and the answer is no.
     */
    method DetectTransferMode(q: PipeQuery) returns (ok: bool)
      requires Valid()
      modifies this`mode, this`midiByteNo
      ensures Valid()
      ensures ok <==> q == Properties(BulkPipe) || q == Properties(InterruptPipe)
      ensures ok ==> Some(mode) == StrictMode(q) && midiByteNo == IoRing.GapStart(mode)
      ensures !ok ==> mode == old(mode) && midiByteNo == old(midiByteNo)
    {
      var m := StrictMode(q);
      if m.None? {
        return false;
      }
      mode := m.value;
      midiByteNo := UsbBuffer.MidiByteNo(mode);
      ok := true;
    }

    /** ConfigureStreamingFormat: both packet sizes and segment counts, and whether they are usable. */
    method ConfigureStreamingFormat(inputFrames: u16, outputFrames: u16) returns (ok: bool)
      requires Valid()
      modifies this`outputPacketSize, this`inputPacketSize, this`txSegCount, this`rxSegCount
      ensures Valid()
      ensures outputPacketSize == OutPacket(mode, outputFrames) && inputPacketSize == InPacket(inputFrames)
      ensures ok <==> FormatAccepted(txSegCount, inputPacketSize, rxSegCount)
    {
      var stride := if mode == IoRing.Bulk then 512 else 482;
      var outSize := (outputFrames as nat / 10) * stride;
      assert outSize == OutPacket(mode, outputFrames);
      var inSize := if inputFrames > 0 then inputFrames as nat * 64 else 0;
      var txCount := if outSize > 0 then UsbBuffer.BufferSizeOut / outSize else 0;
      var rxCount := if inSize > 0 then UsbBuffer.BufferSizeIn / inSize else 0;
      assert txCount == Segments(UsbBuffer.BufferSizeOut, outSize);
      assert rxCount == Segments(UsbBuffer.BufferSizeIn, inSize);
      outputPacketSize, inputPacketSize := outSize, inSize;
      txSegCount, rxSegCount := txCount, rxCount;
      if txSegCount < 2 {
        return false;
      }
      if inputPacketSize > 0 && rxSegCount < 2 {
        return false;
      }
      ok := true;
    }

    /** SubmitPCMin: a read of one input packet into segment `seg`, when the PCM-in interface exists. */
    method SubmitPCMin(seg: nat) returns (ok: bool)
      modifies this`pcmIn
      ensures ok == pcmInInterface
      ensures pcmIn == old(pcmIn) + (if ok then [Transfer(seg * inputPacketSize, inputPacketSize)] else [])
    {
      if !pcmInInterface {
        return false;
      }
      pcmIn := pcmIn + [Transfer(seg * inputPacketSize, inputPacketSize)];
      ok := true;
    }

    /**
     * SubmitPCMout: with shared memory, the segment's MIDI byte is the
     * oldest midiOut byte (which is consumed) or 0xFD from an empty ring,
     * and the byte after it 0xFD; then the segment is written out.
     */
    method SubmitPCMout(seg: nat)
      requires Valid() && seg < txSegCount
      modifies this`pcmOut, tx, midiOut`readIndex
      ensures Valid()
      ensures seg * outputPacketSize + midiByteNo + 1 < tx.Length
      ensures pcmOut == old(pcmOut) + [Transfer(seg * outputPacketSize, outputPacketSize)]
      ensures sharedMem ==>
        tx[..] == PloytecUsb.MidiPair(old(tx[..]), seg * outputPacketSize + midiByteNo, old(midiOut.Contents()))
        && midiOut.Contents() == MidiRing.Drop(old(midiOut.Contents()), 1)
      ensures !sharedMem ==> tx[..] == old(tx[..]) && midiOut.readIndex == old(midiOut.readIndex)
    {
      SegmentFits(UsbBuffer.BufferSizeOut, outputPacketSize, seg);
      var at := seg * outputPacketSize + midiByteNo;
      if sharedMem {
        MidiRing.PopToSlot(midiOut, tx, at);
        tx[at + 1] := MidiRing.Idle;
      }
      pcmOut := pcmOut + [Transfer(seg * outputPacketSize, outputPacketSize)];
    }

    /** SubmitMIDIin: one 512-byte read, when the MIDI-in interface exists and the read is `accepted`. */
    method SubmitMIDIin(accepted: bool) returns (ok: bool)
      modifies this`midiReads
      ensures ok <==> midiInInterface && accepted
      ensures midiReads == old(midiReads) + (if ok then 1 else 0)
    {
      if !midiInInterface || !accepted {
        return false;
      }
      midiReads := midiReads + 1;
      ok := true;
    }

    /**
     * PCMoutComplete: nothing during shutdown or after a failed transfer;
     * otherwise the playback clock advances by 80 frames and the segment
     * `txSeg mod txSegCount` is written next, with txSeg counting on.
     */
    method PCMoutComplete(result: IOReturn, now: u64)
      requires Valid()
      requires !shutdown && result == Success ==> txSegCount > 0
      modifies this`txSeg, this`pcmOut, tx, midiOut`readIndex
      modifies audio`hwSampleTimeOut, audio`timestampSeq, audio`timestampSample, audio`timestampHost
      ensures Valid()
      ensures shutdown || result != Success ==>
        txSeg == old(txSeg) && pcmOut == old(pcmOut) && tx[..] == old(tx[..])
        && midiOut.readIndex == old(midiOut.readIndex) && audio.hwSampleTimeOut == old(audio.hwSampleTimeOut)
      ensures !shutdown && result == Success ==>
        txSeg == Add32(old(txSeg), 1)
        && (old(txSeg) % txSegCount) * outputPacketSize + outputPacketSize <= tx.Length
        && pcmOut == old(pcmOut) + [Transfer((old(txSeg) % txSegCount) * outputPacketSize, outputPacketSize)]
        && audio.hwSampleTimeOut == Add64(old(audio.hwSampleTimeOut), FramesPerPacket)
    {
      if shutdown || result != Success {
        return;
      }
      var ok, currentpos := audio.Playback(StreamFrames, now);
      var nextSeg := txSeg % txSegCount;
      SegmentFits(UsbBuffer.BufferSizeOut, outputPacketSize, nextSeg);
      txSeg := Add32(txSeg, 1);
      SubmitPCMout(nextSeg);
    }

    /**
     * PCMinComplete: nothing during shutdown or after a failed transfer;
     * otherwise the capture clock advances by 80 frames and the segment
     * `rxSeg mod rxSegCount` is read next, with rxSeg counting on.
     */
    method PCMinComplete(result: IOReturn, now: u64)
      requires Valid()
      requires !shutdown && result == Success ==> rxSegCount > 0
      modifies this`rxSeg, this`pcmIn, audio`hwSampleTimeIn
      ensures Valid()
      ensures shutdown || result != Success ==>
        rxSeg == old(rxSeg) && pcmIn == old(pcmIn) && audio.hwSampleTimeIn == old(audio.hwSampleTimeIn)
      ensures !shutdown && result == Success ==>
        rxSeg == Add32(old(rxSeg), 1)
        && (old(rxSeg) % rxSegCount) * inputPacketSize + inputPacketSize <= rx.Length
        && pcmIn == old(pcmIn)
             + (if pcmInInterface then [Transfer((old(rxSeg) % rxSegCount) * inputPacketSize, inputPacketSize)] else [])
        && audio.hwSampleTimeIn == Add64(old(audio.hwSampleTimeIn), FramesPerPacket)
    {
      if shutdown || result != Success {
        return;
      }
      var ok, currentpos := audio.Capture(StreamFrames, now);
      var nextSeg := rxSeg % rxSegCount;
      SegmentFits(UsbBuffer.BufferSizeIn, inputPacketSize, nextSeg);
      rxSeg := Add32(rxSeg, 1);
      ok := SubmitPCMin(nextSeg);
    }

    /**
     * MIDIinComplete: nothing during shutdown; a failed read is only
     * resubmitted; otherwise, with shared memory, the first `len` bytes
     * received pass the 0xFD filter into midiIn, each dropped when the ring
     * is full, and the read is resubmitted.
     */
    method MIDIinComplete(result: IOReturn, len: nat, accepted: bool)
      requires Valid() && len <= MidiRxSize
      modifies this`midiReads, midiIn.buffer, midiIn`writeIndex
      ensures Valid() && midiIn.readIndex == old(midiIn.readIndex)
      ensures shutdown ==> midiReads == old(midiReads) && midiIn.Contents() == old(midiIn.Contents())
      ensures !shutdown ==> midiReads == old(midiReads) + (if midiInInterface && accepted then 1 else 0)
      ensures !shutdown && result == Success && sharedMem ==>
        midiIn.Contents() == MidiRing.Admit(old(midiIn.Contents()), MidiRing.NonIdle(midiRx[..len]))
      ensures result != Success || !sharedMem ==> midiIn.Contents() == old(midiIn.Contents())
    {
      if shutdown {
        return;
      }
      if result != Success {
        var ok := SubmitMIDIin(accepted);
        return;
      }
      if len > 0 && sharedMem {
        PushReceived(len);
      }
      var ok := SubmitMIDIin(accepted);
    }

    /** The push loop of MIDIinComplete: every non-0xFD byte of midiRx[..len] offered to midiIn in order. */
    method PushReceived(len: nat)
      requires Valid() && len <= MidiRxSize
      modifies midiIn.buffer, midiIn`writeIndex
      ensures Valid() && midiIn.readIndex == old(midiIn.readIndex)
      ensures midiIn.Contents() == MidiRing.Admit(old(midiIn.Contents()), MidiRing.NonIdle(midiRx[..len]))
    {
      ghost var q := midiIn.Contents();
      var i := 0;
      while i < len
        invariant i <= len && midiIn.Valid() && midiIn.buffer == old(midiIn.buffer)
        invariant midiIn.readIndex == old(midiIn.readIndex)
        invariant midiRx[..] == old(midiRx[..])
        invariant midiIn.Contents() == MidiRing.Admit(q, MidiRing.NonIdle(midiRx[..i]))
      {
        var b := midiRx[i];
        MidiRing.AdmitNextByte(q, midiRx[..], i);
        if b != MidiRing.Idle {
          midiIn.Push(b);
        }
        i := i + 1;
      }
    }

    /** StopStreaming: shutdown is raised; the pipe aborts themselves are the USB stack's. */
    method StopStreaming() returns (ok: bool)
      modifies this`shutdown
      ensures ok && shutdown
    {
      shutdown := true;
      ok := true;
    }
    /**
     * StartStreaming: refused without a device; otherwise the counters are
     * reset, the 80-frame format is configured, both buffers are cleared
     * and the output buffer prefilled with 0xFD pairs, one MIDI-in read is
     * queued and then `urbCount` rounds of one input and one output segment.
     */
    method StartStreaming(urbCount: nat, accepted: bool) returns (ok: bool)
      requires Valid() && urbCount <= MaxUrbs
      modifies this`shutdown, this`rxSeg, this`txSeg, this`outputPacketSize, this`inputPacketSize
      modifies this`txSegCount, this`rxSegCount, this`pcmIn, this`pcmOut, this`midiReads, rx, tx, midiOut`readIndex
      ensures Valid()
      ensures ok <==> device
      ensures !ok ==>
        shutdown == old(shutdown) && pcmIn == old(pcmIn) && pcmOut == old(pcmOut) && midiReads == old(midiReads)
        && tx[..] == old(tx[..]) && rx[..] == old(rx[..]) && midiOut.readIndex == old(midiOut.readIndex)
      ensures ok ==> Prepared() && Started(old(midiOut.Contents()), urbCount)
      ensures !sharedMem ==> midiOut.readIndex == old(midiOut.readIndex)
      ensures ok ==>
        midiReads == old(midiReads) + (if midiInInterface && accepted then 1 else 0)
        && pcmIn == old(pcmIn) + (if pcmInInterface then InitialReads(inputPacketSize, urbCount) else [])
        && pcmOut == old(pcmOut) + InitialReads(outputPacketSize, urbCount)
    {
      if !device {
        return false;
      }
      ok := StartWithDevice(urbCount, accepted);
    }

    /** StartStreaming once the device is known to be open. */
    method StartWithDevice(urbCount: nat, accepted: bool) returns (ok: bool)
      requires Valid() && device && urbCount <= MaxUrbs
      modifies this`shutdown, this`rxSeg, this`txSeg, this`outputPacketSize, this`inputPacketSize
      modifies this`txSegCount, this`rxSegCount, this`pcmIn, this`pcmOut, this`midiReads, rx, tx, midiOut`readIndex
      ensures Valid() && ok
      ensures Prepared() && Started(old(midiOut.Contents()), urbCount)
      ensures !sharedMem ==> midiOut.readIndex == old(midiOut.readIndex)
      ensures midiReads == old(midiReads) + (if midiInInterface && accepted then 1 else 0)
      ensures pcmIn == old(pcmIn) + (if pcmInInterface then InitialReads(inputPacketSize, urbCount) else [])
      ensures pcmOut == old(pcmOut) + InitialReads(outputPacketSize, urbCount)
    {
      ok := PrepareStreaming();
      ghost var q := midiOut.Contents();
      FillBuffers();
      var midiOk := SubmitMIDIin(accepted);
      SubmitInitial(urbCount, q);
    }

    /** The counters and the format StartStreaming sets up before it touches the buffers. */
    ghost predicate Prepared()
      reads this
    {
      !shutdown && rxSeg == 0 && txSeg == 0
      && outputPacketSize == 8 * IoRing.BlockBytes(mode) && inputPacketSize == HalAudioDevice.InputPacketBytes
      && FormatAccepted(txSegCount, inputPacketSize, rxSegCount)
    }

    /**
     * The buffers after the start loop over n segments from midiOut queue q:
     * the input buffer is zero and the output buffer holds StartByte.
     */
    ghost predicate Started(q: seq<bv8>, n: nat)
      reads this`mode, this`midiByteNo, tx, rx, midiOut, midiOut.buffer
      requires midiOut.Valid()
    {
      (forall j :: 0 <= j < rx.Length ==> rx[j] == 0)
      && (forall j :: 0 <= j < tx.Length ==> tx[j] == StartByte(mode, midiByteNo, sharedMem, q, n, j))
      && (sharedMem ==> midiOut.Contents() == MidiRing.Drop(q, n))
    }

    /** The counter reset and the 80-frame format of StartStreaming. */
    method PrepareStreaming() returns (ok: bool)
      requires Valid()
      modifies this`shutdown, this`rxSeg, this`txSeg, this`outputPacketSize, this`inputPacketSize
      modifies this`txSegCount, this`rxSegCount
      ensures Valid() && ok && Prepared()
    {
      shutdown := false;
      rxSeg, txSeg := 0, 0;
      ok := ConfigureStreamingFormat(StreamFrames, StreamFrames);
      StreamFormat(mode);
    }

    /** The memsets of StartStreaming and the 0xFD loop over the output buffer. */
    method FillBuffers()
      requires Valid()
      modifies rx, tx
      ensures Valid() && midiOut.Contents() == old(midiOut.Contents()) && Started(midiOut.Contents(), 0)
    {
      UsbBuffer.ZeroFill(rx);
      UsbBuffer.ZeroAndPrefill(tx, mode);
    }

    /** The submission loop of StartStreaming: segment i in, then segment i out, for i below urbCount. */
    method SubmitInitial(urbCount: nat, ghost q: seq<bv8>)
      requires Valid() && urbCount <= MaxUrbs && urbCount <= txSegCount
      requires outputPacketSize == 8 * IoRing.BlockBytes(mode)
      requires Started(q, 0)
      modifies this`pcmIn, this`pcmOut, tx, midiOut`readIndex
      ensures Valid() && Started(q, urbCount)
      ensures !sharedMem ==> midiOut.readIndex == old(midiOut.readIndex)
      ensures pcmIn == old(pcmIn) + (if pcmInInterface then InitialReads(inputPacketSize, urbCount) else [])
      ensures pcmOut == old(pcmOut) + InitialReads(outputPacketSize, urbCount)
    {
      var i := 0;
      while i < urbCount
        invariant i <= urbCount && Valid() && Started(q, i)
        invariant !sharedMem ==> midiOut.readIndex == old(midiOut.readIndex)
        invariant pcmIn == old(pcmIn) + (if pcmInInterface then InitialReads(inputPacketSize, i) else [])
        invariant pcmOut == old(pcmOut) + InitialReads(outputPacketSize, i)
      {
        StartRound(i, q);
        i := i + 1;
      }
    }

    /** One round of the start loop: SubmitPCMin(i), then SubmitPCMout(i). */
    method StartRound(i: nat, ghost q: seq<bv8>)
      requires Valid() && i < txSegCount
      requires outputPacketSize == 8 * IoRing.BlockBytes(mode)
      requires Started(q, i)
      modifies this`pcmIn, this`pcmOut, tx, midiOut`readIndex
      ensures Valid() && Started(q, i + 1)
      ensures !sharedMem ==> midiOut.readIndex == old(midiOut.readIndex)
      ensures pcmIn == old(pcmIn) + (if pcmInInterface then [Transfer(i * inputPacketSize, inputPacketSize)] else [])
      ensures pcmOut == old(pcmOut) + [Transfer(i * outputPacketSize, outputPacketSize)]
    {
      var inOk := SubmitPCMin(i);
      ghost var before := tx[..];
      SegmentFits(UsbBuffer.BufferSizeOut, outputPacketSize, i);
      SubmitPCMout(i);
      StartStep(mode, midiByteNo, sharedMem, q, i, before, tx[..]);
      MidiRing.DropStep(q, i);
    }

    // ------------------------------------------------------ control requests

    /** ReadFirmwareVersion: refused without a device; an answered 'V' request sets the firmware version. */
    method ReadFirmwareVersion(answered: bool, reply: seq<byte>) returns (ok: bool)
      requires Valid() && |reply| <= 15
      modifies control`requests, control.rxBuffer, this`firmware
      ensures Valid()
      ensures ok <==> device && answered
      ensures control.requests == old(control.requests) + (if device then [FirmwareRequest] else [])
      ensures ok ==> firmware == DecodeFirmware(control.rxBuffer[..3]) && control.rxBuffer[..|reply|] == reply
      ensures !ok ==> firmware == old(firmware)
    {
      if !device {
        return false;
      }
      var fw := control.ReadFirmware(answered, reply);
      if fw.None? {
        return false;
      }
      firmware := fw.value;
      ok := true;
    }

    /** ReadHardwareStatus: refused without a device; an answered 'I' request stores the status byte. */
    method ReadHardwareStatus(answered: bool, status: bv8) returns (ok: bool)
      requires Valid()
      modifies control`requests, control.rxBuffer, this`currentStatus
      ensures Valid()
      ensures ok <==> device && answered
      ensures control.requests == old(control.requests) + (if device then [StatusRequest] else [])
      ensures ok ==> currentStatus == status && control.rxBuffer[0] == status as byte
      ensures !ok ==> currentStatus == old(currentStatus)
    {
      if !device {
        return false;
      }
      var st := control.ReadStatus(answered, status);
      if st.None? {
        return false;
      }
      currentStatus := control.rxBuffer[0] as bv8;
      ok := true;
    }

    /** WriteHardwareStatus: refused without a device, otherwise one 'I' write of `value`. */
    method WriteHardwareStatus(value: u16, answered: bool) returns (ok: bool)
      requires Valid()
      modifies control`requests
      ensures Valid()
      ensures ok <==> device && answered
      ensures control.requests == old(control.requests) + (if device then [WriteStatusRequest(value)] else [])
    {
      if !device {
        return false;
      }
      ok := control.WriteStatus(value, answered);
    }

    /**
     * GetHardwareFrameRate: refused without a device; the 4D is set to 96
     * kHz without a request, any other device to the little-endian rate of
     * a complete three-byte answer.
     */
    method GetHardwareFrameRate(answered: bool, reply: seq<byte>) returns (ok: bool)
      requires Valid() && |reply| <= 3
      modifies control`requests, control.rxBuffer, this`currentHWFrameRate
      ensures Valid()
      ensures ok <==> device && ReadFrameRate(FourD(), answered, reply).Some?
      ensures ok ==> currentHWFrameRate == ReadFrameRate(FourD(), answered, reply).value
      ensures !ok ==> currentHWFrameRate == old(currentHWFrameRate)
      ensures control.requests == old(control.requests) + (if device && !FourD() then [GetRateRequest] else [])
    {
      if !device {
        return false;
      }
      var r := control.GetFrameRate(FourD(), answered, reply);
      if r.None? {
        return false;
      }
      currentHWFrameRate := r.value;
      ok := true;
    }

    /**
     * SetHardwareFrameRate: refused without a device; otherwise the low 24
     * bits of the rate, little-endian, go out in five SET_CUR requests and
     * the answer to the last one is the result.
     */
    method SetHardwareFrameRate(rate: u32, outcomes: seq<bool>) returns (ok: bool)
      requires Valid() && |outcomes| == |RateEndpoints|
      modifies control`requests, control.txBuffer
      ensures Valid()
      ensures ok <==> device && outcomes[4]
      ensures control.requests == old(control.requests) + (if device then RateRequests() else [])
      ensures device ==> control.txBuffer[..3] == Encode24(rate)
    {
      if !device {
        return false;
      }
      ok := control.SetFrameRate(rate, outcomes);
      assert control.txBuffer[..3] == (Encode24(rate) + old(control.txBuffer[3..]))[..3];
    }
  }
}
