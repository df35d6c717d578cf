// The control requests the mac-hal and macos USB engines send on the
// default pipe, and what they make of the answers: the firmware version
// ('V', version 1.<b2 / 10>.<b2 % 10>), the hardware status byte ('I', six
// independent flag bits), and the sampling frequency, written as the low 24
// bits of the rate to the endpoints 0x86, 0x05, 0x86, 0x05, 0x86 in turn and
// read back as three little-endian bytes, except on the Xone:4D, whose rate
// is fixed at 96 kHz. Also the transfer type of the PCM-out pipe, which
// selects the bulk or the interrupt packet layout.
module UsbControl {
  import opened Wrappers
  import opened Wrap
  import opened SampleRate
  import opened PloytecDriver
  import IoRing

  /** The vendor request for the firmware version: 15 bytes, 'V'. */
  const FirmwareRequest: ControlRequest := ControlRequest(0xC0, 0x56, 0, 0, 0x0F)
  /** The vendor request for the status byte: 1 byte, 'I'. */
  const StatusRequest: ControlRequest := ControlRequest(0xC0, 0x49, 0, 0, 1)

  /** The endpoints a frame-rate change addresses, in order. */
  const RateEndpoints: seq<nat> := [PcmInEndpoint, PcmOutEndpoint, PcmInEndpoint, PcmOutEndpoint, PcmInEndpoint]

  /** The five SET_CUR requests of SetHardwareFrameRate. */
  function RateRequests(): (r: seq<ControlRequest>)
    ensures |r| == |RateEndpoints|
    ensures forall i :: 0 <= i < |r| ==> r[i] == SetRateRequest(RateEndpoints[i])
  {
    seq(|RateEndpoints|, i requires 0 <= i < |RateEndpoints| => SetRateRequest(RateEndpoints[i]))
  }

  /** The fixed rate of the Xone:4D (VID 0x0A4A, PID 0xFF4D). */
  const FourDRate: u32 := 96000

  /** A firmware version as FirmwareVersion holds it. */
  datatype Firmware = Firmware(id: byte, major: nat, minor: nat, patch: nat)

  /** The version the engines read from the reply to 'V'. */
  function DecodeFirmware(reply: seq<byte>): (fw: Firmware)
    requires |reply| >= 3
    ensures fw.id == reply[0] && fw.major == 1
    ensures fw.patch < 10 && fw.minor * 10 + fw.patch == reply[2]
  {
    Firmware(reply[0], 1, reply[2] / 10, reply[2] % 10)
  }

  /** Two replies give the same version exactly when their first and third bytes agree. */
  lemma FirmwareDeterminedBy(a: seq<byte>, b: seq<byte>)
    requires |a| >= 3 && |b| >= 3
    ensures DecodeFirmware(a) == DecodeFirmware(b) <==> a[0] == b[0] && a[2] == b[2]
  {
    var fa, fb := DecodeFirmware(a), DecodeFirmware(b);
    if fa == fb {
      assert a[2] == fa.minor * 10 + fa.patch == fb.minor * 10 + fb.patch == b[2];
    }
  }

  // ------------------------------------------------------------ status byte

  /** The flags of the status byte, one per PloytecStatusMask bit. */
  datatype HardwareStatus = HardwareStatus(
    highSpeed: bool, legacy: bool, armed: bool, clockLock: bool, streaming: bool, stable: bool)

  const HighSpeedMask: bv8 := 0x80
  const LegacyMask: bv8 := 0x20
  const ArmedMask: bv8 := 0x10
  const ClockLockMask: bv8 := 0x04
  const StreamingMask: bv8 := 0x02
  const StableMask: bv8 := 0x01

  /** The status report: each flag is its mask tested on its own, so no flag is up exactly when no flag bit is set. */
  function DecodeStatus(s: bv8): (r: HardwareStatus)
    ensures s & 0xB7 == 0 <==> r == HardwareStatus(false, false, false, false, false, false)
  {
    HardwareStatus(s & HighSpeedMask != 0, s & LegacyMask != 0, s & ArmedMask != 0,
                   s & ClockLockMask != 0, s & StreamingMask != 0, s & StableMask != 0)
  }

  /**
   * The status byte with exactly the given flags set: the six masks are
   * disjoint bits, so every combination is read back as set, and bits 3
   * and 6 stay clear.
   */
  function EncodeStatus(st: HardwareStatus): (r: bv8)
    ensures DecodeStatus(r) == st && r & 0x48 == 0
  {
    (if st.highSpeed then HighSpeedMask else 0) | (if st.legacy then LegacyMask else 0)
    | (if st.armed then ArmedMask else 0) | (if st.clockLock then ClockLockMask else 0)
    | (if st.streaming then StreamingMask else 0) | (if st.stable then StableMask else 0)
  }

  /** The decode looks at the six flag bits and at nothing else (bits 3 and 6 are ignored). */
  lemma StatusKeepsFlagBits(s: bv8)
    ensures EncodeStatus(DecodeStatus(s)) == s & 0xB7
  {
  }

  /** The vendor request that writes `value` to the status word: 'I', out, no data. */
  function WriteStatusRequest(value: u16): (r: ControlRequest)
    ensures r.bmRequestType == 0x40 && r.bRequest == StatusRequest.bRequest
    ensures r.wValue == value && r.wIndex == 0 && r.wLength == 0
  {
    ControlRequest(0x40, 0x49, value, 0, 0)
  }

  /**
   * The handshake before streaming of the kernel engines: the firmware
   * version, the rate, the five SET_CUR requests, the rate again, the
   * status word 0xFFB2 and the status byte, in that order.
   */
  function StartupRequests(): (r: seq<ControlRequest>)
    ensures |r| == 10
    ensures r[0] == FirmwareRequest && r[1] == GetRateRequest
    ensures r[2..7] == RateRequests()
    ensures r[7] == GetRateRequest && r[8] == WriteStatusRequest(0xFFB2) && r[9] == StatusRequest
  {
    [FirmwareRequest, GetRateRequest] + RateRequests() + [GetRateRequest, WriteStatusRequest(0xFFB2), StatusRequest]
  }

  // ------------------------------------------------------------- frame rate

  /**
   * GetHardwareFrameRate of the mac-hal engines: the 4D is answered with 96
   * kHz without a request; otherwise the rate is the little-endian value of
   * the reply when the request succeeded with all three bytes
   * (`reply` holds the bytes the device returned), and nothing otherwise.
   */
  function ReadFrameRate(fourD: bool, answered: bool, reply: seq<byte>): (r: Option<u32>)
    requires |reply| <= 3
    ensures fourD ==> r == Some(FourDRate)
    ensures !fourD ==> (r.Some? <==> answered && |reply| == 3)
    ensures !fourD && r.Some? ==> Encode24(r.value) == reply
  {
    if fourD then Some(FourDRate)
    else if !answered || |reply| < 3 then None
    else
      Encode24Decode24(reply);
      assert reply[..3] == reply;
      Some(Decode24(reply))
  }

  /** Reading back the bytes SetHardwareFrameRate sends gives the rate, for every rate below 2^24. */
  lemma FrameRateRoundTrip(rate: u32)
    requires rate < Limit24
    ensures ReadFrameRate(false, true, Encode24(rate)) == Some(rate)
  {
    Decode24Encode24(rate);
  }

  /** The transfer type GetPipeProperties reports for a pipe. */
  datatype PipeType = ControlPipe | IsochronousPipe | BulkPipe | InterruptPipe

  /** What the engine learns about its PCM-out pipe. */
  datatype PipeQuery =
    | NoPipe                      // no interface, or pipe reference 0
    | PropertiesFailed            // GetPipeProperties did not succeed
    | Properties(kind: PipeType)

  /**
   * The log of the default pipe of an engine: the requests sent, in order,
   * and the control transmit and receive buffers.
   */
  class ControlChannel {
    var requests: seq<ControlRequest>
    const txBuffer: array<byte>
    const rxBuffer: array<byte>

    predicate Valid()
      reads this
    {
      txBuffer != rxBuffer && 3 <= txBuffer.Length && 15 <= rxBuffer.Length
    }

    constructor (txBuffer: array<byte>, rxBuffer: array<byte>)
      requires txBuffer != rxBuffer && 3 <= txBuffer.Length && 15 <= rxBuffer.Length
      ensures Valid() && requests == []
      ensures this.txBuffer == txBuffer && this.rxBuffer == rxBuffer
    {
      requests := [];
      this.txBuffer := txBuffer;
      this.rxBuffer := rxBuffer;
    }

    /**
     * SetHardwareFrameRate: the low 24 bits of `rate` go little-endian into
     * the transmit buffer, the five requests are sent whatever the first
     * four answers are (`outcomes[i]` is the device's answer to the i-th),
     * and only the last answer is the result.
     */
    method SetFrameRate(rate: u32, outcomes: seq<bool>) returns (ok: bool)
      requires Valid() && |outcomes| == |RateEndpoints|
      modifies this`requests, txBuffer
      ensures requests == old(requests) + RateRequests()
      ensures txBuffer[..] == Encode24(rate) + old(txBuffer[3..])
      ensures ok == outcomes[|outcomes| - 1]
    {
      var b := Encode24(rate);
      txBuffer[0], txBuffer[1], txBuffer[2] := b[0], b[1], b[2];
      assert txBuffer[..] == b + old(txBuffer[3..]);
      requests := requests + RateRequests();
      ok := outcomes[4];
    }

    /**
     * The GET_CUR of the frame rate and its decoding; the 4D sends nothing.
     * On an answer the reply lands at the start of the receive buffer.
     */
    method GetFrameRate(fourD: bool, answered: bool, reply: seq<byte>) returns (r: Option<u32>)
      requires Valid() && |reply| <= 3
      modifies this`requests, rxBuffer
      ensures fourD ==> requests == old(requests) && rxBuffer[..] == old(rxBuffer[..])
      ensures !fourD ==> requests == old(requests) + [GetRateRequest]
      ensures !fourD && answered ==> rxBuffer[..] == reply + old(rxBuffer[|reply|..])
      ensures !fourD && !answered ==> rxBuffer[..] == old(rxBuffer[..])
      ensures r == ReadFrameRate(fourD, answered, reply)
    {
      if fourD {
        return Some(FourDRate);
      }
      requests := requests + [GetRateRequest];
      if answered {
        Receive(reply);
      }
      r := ReadFrameRate(false, answered, reply);
    }

    /**
     * ReadFirmwareVersion: on an answer, the version is decoded from the
     * receive buffer after the reply has landed in it.
     */
    method ReadFirmware(answered: bool, reply: seq<byte>) returns (fw: Option<Firmware>)
      requires Valid() && |reply| <= 15
      modifies this`requests, rxBuffer
      ensures requests == old(requests) + [FirmwareRequest]
      ensures !answered ==> fw == None && rxBuffer[..] == old(rxBuffer[..])
      ensures answered ==>
        rxBuffer[..] == reply + old(rxBuffer[|reply|..]) && fw == Some(DecodeFirmware(rxBuffer[..3]))
    {
      requests := requests + [FirmwareRequest];
      if !answered {
        return None;
      }
      Receive(reply);
      fw := Some(DecodeFirmware(rxBuffer[..3]));
    }

    /**
     * ReadHardwareStatus: one 'I' request; on an answer the status byte
     * lands in the receive buffer and its six flags are reported.
     */
    method ReadStatus(answered: bool, status: bv8) returns (st: Option<HardwareStatus>)
      requires Valid()
      modifies this`requests, rxBuffer
      ensures requests == old(requests) + [StatusRequest]
      ensures !answered ==> st == None && rxBuffer[..] == old(rxBuffer[..])
      ensures answered ==>
        rxBuffer[..] == old(rxBuffer[..])[0 := status as byte]
        && st.Some? && EncodeStatus(st.value) == status & 0xB7
    {
      requests := requests + [StatusRequest];
      if !answered {
        return None;
      }
      rxBuffer[0] := status as byte;
      StatusKeepsFlagBits(status);
      st := Some(DecodeStatus(rxBuffer[0] as bv8));
    }

    /** WriteHardwareStatus: one 'I' request carrying `value`; the answer is the result. */
    method WriteStatus(value: u16, answered: bool) returns (ok: bool)
      modifies this`requests
      ensures requests == old(requests) + [WriteStatusRequest(value)]
      ensures ok == answered
    {
      requests := requests + [WriteStatusRequest(value)];
      ok := answered;
    }

    /** The reply of a control-in transfer is copied to the start of the receive buffer. */
    method Receive(reply: seq<byte>)
      requires Valid() && |reply| <= rxBuffer.Length
      modifies rxBuffer
      ensures rxBuffer[..] == reply + old(rxBuffer[|reply|..])
    {
      for i := 0 to |reply|
        invariant forall j :: 0 <= j < i ==> rxBuffer[j] == reply[j]
        invariant forall j :: i <= j < rxBuffer.Length ==> rxBuffer[j] == old(rxBuffer[j])
      {
        rxBuffer[i] := reply[i];
      }
    }
  }

  /**
   * The transfer mode the ploytechal driver derives from the PCM-out pipe:
   * bulk or interrupt, and no decision for any other type or a failed query.
   */
  function StrictMode(q: PipeQuery): (m: Option<IoRing.Layout>)
    ensures m == Some(IoRing.Bulk) <==> q == Properties(BulkPipe)
    ensures m == Some(IoRing.Interrupt) <==> q == Properties(InterruptPipe)
  {
    match q
    case Properties(BulkPipe) => Some(IoRing.Bulk)
    case Properties(InterruptPipe) => Some(IoRing.Interrupt)
    case _ => None
  }

  /**
   * The transfer mode the ploytecusb engine derives: bulk for a bulk pipe,
   * interrupt for any other type; no decision without pipe properties.
   */
  function BulkOrInterrupt(q: PipeQuery): (m: Option<IoRing.Layout>)
    ensures m.Some? <==> q.Properties?
    ensures m == Some(IoRing.Bulk) <==> q == Properties(BulkPipe)
  {
    match q
    case Properties(BulkPipe) => Some(IoRing.Bulk)
    case Properties(_) => Some(IoRing.Interrupt)
    case _ => None
  }
}
