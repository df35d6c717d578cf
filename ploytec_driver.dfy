// PloytecDriver: the USB side of the Ploytec AudioDriverKit driver.  It sets
// and reads the sampling frequency through class-specific endpoint requests
// carrying fixed 3-byte tables, and turns the manufacturer and product
// string descriptors into C strings by keeping the low byte of each UTF-16LE
// code unit (section 9.6.7 of the USB 2.0 specification).
module PloytecDriver {
  import opened Wrappers
  import opened Wrap
  import opened SampleRate

  const PcmOutEndpoint: nat := 0x05
  const PcmInEndpoint: nat := 0x86

  const Bytes44100: seq<byte> := [0x44, 0xAC, 0x00]
  const Bytes48000: seq<byte> := [0x80, 0xBB, 0x00]
  const Bytes88200: seq<byte> := [0x88, 0x58, 0x01]
  const Bytes96000: seq<byte> := [0x00, 0x77, 0x01]

  /** A control transfer on the default pipe. */
  datatype ControlRequest = ControlRequest(bmRequestType: byte, bRequest: byte, wValue: nat, wIndex: nat, wLength: nat)

  /** SET_CUR of the sampling frequency control of endpoint `ep`: the host-to-device twin of the GET_CUR. */
  function SetRateRequest(ep: nat): (r: ControlRequest)
    ensures r.wIndex == ep && r.wValue == GetRateRequest.wValue && r.wLength == GetRateRequest.wLength
    ensures r.bmRequestType == GetRateRequest.bmRequestType - 0x80
  {
    ControlRequest(0x22, 0x01, 0x0100, ep, 3)
  }

  /** GET_CUR of the sampling frequency control, as GetHWSampleRate sends it. */
  const GetRateRequest: ControlRequest := ControlRequest(0xA2, 0x81, 0x0100, 0, 3)

  /** The endpoints SetHWSampleRate addresses, in order. */
  const SetRateEndpoints: seq<nat> := [PcmInEndpoint, PcmOutEndpoint, PcmInEndpoint, PcmOutEndpoint, PcmOutEndpoint, PcmInEndpoint]

  function SetRateRequests(n: nat): (r: seq<ControlRequest>)
    requires n <= |SetRateEndpoints|
    ensures |r| == n
  {
    seq(n, i requires 0 <= i < n => SetRateRequest(SetRateEndpoints[i]))
  }

  /** The switch of SetHWSampleRate: exactly the supported rates, each as its little-endian tSampFreq. */
  function RateTable(rate: int): (r: Option<seq<byte>>)
    ensures r.Some? <==> Supported(rate)
    ensures r.Some? ==> r.value == Encode24(rate)
  {
    if rate == 44100 then Some(Bytes44100)
    else if rate == 48000 then Some(Bytes48000)
    else if rate == 88200 then Some(Bytes88200)
    else if rate == 96000 then Some(Bytes96000)
    else None
  }

  /** The comparison chain of GetHWSampleRate: a recognised reply is the tSampFreq of the supported rate it names. */
  function RateFromReply(b: seq<byte>): (r: Option<u32>)
    requires |b| >= 3
    ensures r.Some? ==> Supported(r.value) && b[..3] == Encode24(r.value)
  {
    if b[..3] == Bytes44100 then Some(44100)
    else if b[..3] == Bytes48000 then Some(48000)
    else if b[..3] == Bytes88200 then Some(88200)
    else if b[..3] == Bytes96000 then Some(96000)
    else None
  }

  /** A reply is recognised exactly when it is the tSampFreq of a supported rate, and then as that rate. */
  lemma RateFromReplyExact(b: seq<byte>, rate: nat)
    requires |b| >= 3
    ensures RateFromReply(b) == Some(rate) <==> Supported(rate) && b[..3] == Encode24(rate)
  {
  }

  /** Reading back the bytes the setter sends gives the rate that was set. */
  lemma RateRoundTrip(rate: nat)
    requires Supported(rate)
    ensures RateTable(rate).Some? && RateFromReply(RateTable(rate).value) == Some(rate)
  {
    RateFromReplyExact(RateTable(rate).value, rate);
  }

  /** How many of the device's answers succeed before the first failure. */
  function LeadingSuccesses(outcomes: seq<bool>): (r: nat)
    ensures r <= |outcomes|
    ensures forall i :: 0 <= i < r ==> outcomes[i]
    ensures r < |outcomes| ==> !outcomes[r]
  {
    if |outcomes| == 0 || !outcomes[0] then 0 else 1 + LeadingSuccesses(outcomes[1..])
  }

  /** The requests a caller stopping at the first failure issues. */
  function Issued(outcomes: seq<bool>): (r: nat)
  {
    var s := LeadingSuccesses(outcomes);
    if s == |outcomes| then s else s + 1
  }

  // ---------------------------------------------- string descriptors

  /** A string descriptor: bLength and the bytes of bString. */
  datatype StringDescriptor = StringDescriptor(bLength: byte, bString: seq<byte>)

  /** `x / 2` of C on an int: truncated toward zero. */
  function CDiv2(x: int): int
  {
    if x >= 0 then x / 2 else -((-x) / 2)
  }

  /**
   * `(bLength - 2) / 2` stored in a uint32, as written: half the UTF-16
   * bytes after the header, 0 for a one-byte descriptor (C division
   * truncates -1 / 2 to 0), and 2^32 - 1 for an empty one.
   */
  function AsWrittenNameLength(bLength: byte): (r: u32)
    ensures bLength >= 2 ==> r == (bLength - 2) / 2
    ensures bLength == 1 ==> r == 0
    ensures bLength == 0 ==> r == U32 - 1
  {
    CDiv2(bLength - 2) % U32
  }

  /** An empty descriptor makes the length 2^32 - 1 and the `len + 1` allocation empty. */
  lemma EmptyDescriptorOverflows()
    ensures AsWrittenNameLength(0) == U32 - 1
    ensures (AsWrittenNameLength(0) + 1) % U32 == 0
  {
  }

  /** The character count: one per UTF-16 code unit after the two header bytes, none for a descriptor shorter than its header. */
  function NameLength(bLength: byte): (r: nat)
    ensures bLength >= 2 ==> 2 * r + 2 <= bLength
    ensures r + 1 < U32
  {
    if bLength < 2 then 0 else (bLength - 2) / 2
  }

  /** For every descriptor with a non-zero bLength the written length is the intended one. */
  lemma NameLengthAsWritten(bLength: byte)
    requires bLength >= 1
    ensures AsWrittenNameLength(bLength) == NameLength(bLength)
  {
  }

  /** OSString::withCString: the bytes before the first NUL. */
  function CString(s: seq<byte>): (r: seq<byte>)
    ensures |r| <= |s|
    ensures forall i :: 0 <= i < |r| ==> r[i] == s[i] && r[i] != 0
    ensures |r| < |s| ==> s[|r|] == 0
  {
    if |s| == 0 || s[0] == 0 then [] else [s[0]] + CString(s[1..])
  }

  /** The low bytes of the first n UTF-16LE code units. */
  function LowBytes(bString: seq<byte>, n: nat): (r: seq<byte>)
    requires 2 * n <= |bString| + 1
    ensures |r| == n && forall i :: 0 <= i < n ==> r[i] == bString[2 * i]
  {
    seq(n, i requires 0 <= i < n => bString[2 * i])
  }

  /**
   * The copy loop of GetHWManifacturer and GetHWDeviceName: the low byte of
   * each code unit into a `len + 1` char array, NUL at the end, read back as
   * a C string.
   */
  method DecodeStringDescriptor(desc: StringDescriptor) returns (name: seq<byte>)
    requires 2 * NameLength(desc.bLength) <= |desc.bString|
    ensures name == CString(LowBytes(desc.bString, NameLength(desc.bLength)) + [0])
    ensures |name| <= NameLength(desc.bLength)
    ensures forall i :: 0 <= i < |name| ==> name[i] == desc.bString[2 * i] && name[i] != 0
    ensures |name| < NameLength(desc.bLength) ==> desc.bString[2 * |name|] == 0
  {
    var len := NameLength(desc.bLength);
    var utf8 := new byte[len + 1];
    var i := 0;
    while i < len
      invariant i <= len
      invariant forall j :: 0 <= j < i ==> utf8[j] == desc.bString[2 * j]
    {
      utf8[i] := desc.bString[i * 2];
      i := i + 1;
    }
    utf8[len] := 0;
    assert utf8[..] == LowBytes(desc.bString, len) + [0];
    name := CString(utf8[..]);
  }

  class PloytecDriver {
    /** Control transfers issued on the default pipe, in order. */
    var requests: seq<ControlRequest>
    var manufacturerName: seq<byte>
    var deviceName: seq<byte>
    /** usbTXBufferAddr and usbRXBufferAddr. */
    const txBuffer: array<byte>
    const rxBuffer: array<byte>

    predicate Valid()
      reads this
    {
      txBuffer != rxBuffer && 3 <= txBuffer.Length && 3 <= rxBuffer.Length
    }

    constructor (txBuffer: array<byte>, rxBuffer: array<byte>)
      requires txBuffer != rxBuffer && 3 <= txBuffer.Length && 3 <= rxBuffer.Length
      ensures Valid() && requests == [] && manufacturerName == [] && deviceName == []
      ensures this.txBuffer == txBuffer && this.rxBuffer == rxBuffer
    {
      requests := [];
      manufacturerName := [];
      deviceName := [];
      this.txBuffer := txBuffer;
      this.rxBuffer := rxBuffer;
    }

    /**
     * GetHWSampleRate: GET_CUR into the receive buffer (`succeeded` and
     * `reply` are the device's answer), then the rate whose table bytes
     * match; `samplerate` is the caller's variable, untouched on failure.
     */
    method GetHWSampleRate(samplerate: u32, succeeded: bool, reply: seq<byte>) returns (ok: bool, rate: u32)
      requires Valid() && |reply| == 3
      modifies this`requests, rxBuffer
      ensures requests == old(requests) + [GetRateRequest]
      ensures !succeeded ==> !ok && rate == samplerate && rxBuffer[..] == old(rxBuffer[..])
      ensures succeeded ==> rxBuffer[..] == reply + old(rxBuffer[3..])
      ensures ok <==> succeeded && exists r :: Supported(r) && reply == Encode24(r)
      ensures ok ==> Supported(rate) && reply == Encode24(rate)
      ensures !ok ==> rate == samplerate
    {
      requests := requests + [GetRateRequest];
      if !succeeded {
        return false, samplerate;
      }
      rxBuffer[0], rxBuffer[1], rxBuffer[2] := reply[0], reply[1], reply[2];
      assert rxBuffer[..] == reply + old(rxBuffer[3..]);
      var r := RateFromReply(rxBuffer[..3]);
      if r.Some? {
        RateFromReplyExact(reply, r.value);
        ok, rate := true, r.value;
      } else {
        forall x | Supported(x) ensures reply != Encode24(x) {
          RateFromReplyExact(reply, x);
        }
        ok, rate := false, samplerate;
      }
    }

    /**
     * SetHWSampleRate: an unsupported rate is refused before any transfer;
     * otherwise the table bytes go into the transmit buffer and six SET_CUR
     * requests follow, stopping at the first the device refuses
     * (`outcomes[i]` is its answer to the i-th).
     */
    method SetHWSampleRate(samplerate: u32, outcomes: seq<bool>) returns (ok: bool)
      requires Valid() && |outcomes| == |SetRateEndpoints|
      modifies this`requests, txBuffer
      ensures !Supported(samplerate) ==> !ok && requests == old(requests) && txBuffer[..] == old(txBuffer[..])
      ensures Supported(samplerate) ==>
        txBuffer[..] == Encode24(samplerate) + old(txBuffer[3..])
        && requests == old(requests) + SetRateRequests(Issued(outcomes))
        && (ok <==> forall i :: 0 <= i < |outcomes| ==> outcomes[i])
    {
      var bytes := RateTable(samplerate);
      if bytes.None? {
        return false;
      }
      txBuffer[0], txBuffer[1], txBuffer[2] := bytes.value[0], bytes.value[1], bytes.value[2];
      assert txBuffer[..] == Encode24(samplerate) + old(txBuffer[3..]);
      var i := 0;
      while i < |SetRateEndpoints|
        invariant i <= |SetRateEndpoints|
        invariant txBuffer[..] == Encode24(samplerate) + old(txBuffer[3..])
        invariant requests == old(requests) + SetRateRequests(i)
        invariant forall j :: 0 <= j < i ==> outcomes[j]
      {
        requests := requests + [SetRateRequest(SetRateEndpoints[i])];
        assert SetRateRequests(i + 1) == SetRateRequests(i) + [SetRateRequest(SetRateEndpoints[i])];
        if !outcomes[i] {
          assert LeadingSuccesses(outcomes) == i;
          return false;
        }
        i := i + 1;
      }
      assert LeadingSuccesses(outcomes) == |outcomes|;
      ok := true;
    }

    /** GetHWManifacturer: string descriptor 1; a missing descriptor leaves the name alone. */
    method GetHWManufacturer(desc: Option<StringDescriptor>)
      requires desc.Some? ==> 2 * NameLength(desc.value.bLength) <= |desc.value.bString|
      modifies this`manufacturerName
      ensures desc.None? ==> manufacturerName == old(manufacturerName)
      ensures desc.Some? ==>
        manufacturerName == CString(LowBytes(desc.value.bString, NameLength(desc.value.bLength)) + [0])
    {
      if desc.Some? {
        manufacturerName := DecodeStringDescriptor(desc.value);
      }
    }

    /** GetHWDeviceName: string descriptor 2; a missing descriptor leaves the name alone. */
    method GetHWDeviceName(desc: Option<StringDescriptor>)
      requires desc.Some? ==> 2 * NameLength(desc.value.bLength) <= |desc.value.bString|
      modifies this`deviceName
      ensures desc.None? ==> deviceName == old(deviceName)
      ensures desc.Some? ==>
        deviceName == CString(LowBytes(desc.value.bString, NameLength(desc.value.bLength)) + [0])
    {
      if desc.Some? {
        deviceName := DecodeStringDescriptor(desc.value);
      }
    }
  }
}
