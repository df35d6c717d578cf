// The chip side of the Linux ALSA driver for the Xone:DB4: the rate index
// to tSampFreq table and its inverse, the five SET_CUR transfers that move
// the device to the ALSA rate, the reset flag that links a device reset to
// the probe it causes, and the two branches of probe.
module AlsaChip {
  import opened Wrappers
  import opened SampleRate

  /** rates[]: the ALSA rates by index. */
  const Rates: seq<nat> := [44100, 48000, 88200, 96000]
  /** The index a fresh probe starts from (96 kHz). */
  const DefaultRate: nat := 3
  /** SNDRV_CARDS: the number of card slots the enable parameter covers. */
  const CardSlots: nat := 32

  const EIO: int := 5
  const ENODEV: int := 19
  /** The "unsupported sample rate" return of the rate helpers. */
  const Unsupported: int := -1

  /** A control transfer on endpoint 0. */
  datatype Transfer = Transfer(request: byte, requestType: byte, value: nat, index: nat, data: seq<byte>)

  /** The wIndex of the five SET_CUR transfers, in the order they are sent. */
  const RateTargets: seq<nat> := [0x86, 0x05, 0x86, 0x05, 0x86]

  /**
   * The k-th SET_CUR sampling-frequency transfer carrying `bytes`: the
   * control the GET_CUR reads, on the clock and the endpoint alternately.
   */
  function SetRate(bytes: seq<byte>, k: nat): (t: Transfer)
    requires k < |RateTargets|
    ensures t.data == bytes && t.value == GetRateRequest.value
    ensures t.index == if k % 2 == 0 then 0x86 else 0x05
    ensures t.requestType == GetRateRequest.requestType - 0x80
  {
    Transfer(0x01, 0x22, 0x0100, RateTargets[k], bytes)
  }

  /** The first n SET_CUR transfers. */
  function SetRates(bytes: seq<byte>, n: nat): (r: seq<Transfer>)
    requires n <= |RateTargets|
    ensures |r| == n && forall k :: 0 <= k < n ==> r[k] == SetRate(bytes, k)
  {
    if n == 0 then [] else SetRates(bytes, n - 1) + [SetRate(bytes, n - 1)]
  }

  const GetRateRequest: Transfer := Transfer(0x81, 0xA2, 0x0100, 0, [])
  const StatusRequest: Transfer := Transfer(0x49, 0xC0, 0, 0, [])
  const AllGoodRequest: Transfer := Transfer(0x49, 0x40, 0xFFB2, 0, [])
  const FirmwareRequest: Transfer := Transfer(0x56, 0xC0, 0, 0, [])

  /**
   * The switch of xonedb4_set_samplerate: the bytes for a rate index, none
   * for an index outside the table. Each entry is the rate's 24-bit
   * little-endian tSampFreq.
   */
  function RateBytes(index: nat): (r: Option<seq<byte>>)
    ensures r.Some? <==> index < |Rates|
    ensures r.Some? ==> r.value == Encode24(Rates[index])
  {
    if index == 0 then Some([0x44, 0xAC, 0x00])
    else if index == 1 then Some([0x80, 0xBB, 0x00])
    else if index == 2 then Some([0x88, 0x58, 0x01])
    else if index == 3 then Some([0x00, 0x77, 0x01])
    else None
  }

  /** The comparisons of xonedb4_get_samplerate: the index whose bytes these are, if any. */
  function RateIndex(b: seq<byte>): (r: Option<nat>)
    requires |b| == 3
    ensures r.Some? ==> r.value < |Rates| && Encode24(Rates[r.value]) == b
    ensures r.None? ==> forall i :: 0 <= i < |Rates| ==> Encode24(Rates[i]) != b
  {
    if b[0] == 0x44 && b[1] == 0xAC && b[2] == 0x00 then Some(0)
    else if b[0] == 0x80 && b[1] == 0xBB && b[2] == 0x00 then Some(1)
    else if b[0] == 0x88 && b[1] == 0x58 && b[2] == 0x01 then Some(2)
    else if b[0] == 0x00 && b[1] == 0x77 && b[2] == 0x01 then Some(3)
    else None
  }

  /** Reading back the bytes written for a rate index gives that index. */
  lemma RateRoundTrip(index: nat)
    requires index < |Rates|
    ensures RateIndex(RateBytes(index).value) == Some(index)
  {
    var b := RateBytes(index).value;
    var r := RateIndex(b);
    assert r.Some?;
    Encode24Injective(Rates[r.value], Rates[index]);
  }

  /** Bytes that decode to an index are exactly that index's bytes. */
  lemma RateIndexInverse(b: seq<byte>)
    requires |b| == 3 && RateIndex(b).Some?
    ensures RateBytes(RateIndex(b).value) == Some(b)
  {
  }

  /** The index of the first failed result, or |results| when all succeeded. */
  function FirstFailure(results: seq<int>): (k: nat)
    ensures k <= |results|
    ensures forall j :: 0 <= j < k ==> results[j] >= 0
    ensures k < |results| ==> results[k] < 0
  {
    if results == [] then 0
    else if results[0] < 0 then 0
    else 1 + FirstFailure(results[1..])
  }

  /** The results of the device's control transfers during a bring-up, in call order. */
  datatype BringUpIo = BringUpIo(
    status1: int, statusByte1: byte,
    get1: int, reply1: seq<byte>,
    setResults: seq<int>,
    get2: int, reply2: seq<byte>,
    status2: int, statusByte2: byte,
    allGood: int)
  {
    predicate WellFormed()
    {
      |reply1| == 3 && |reply2| == 3 && |setResults| == |RateTargets|
    }

    /** Every transfer of a bring-up for ALSA rate index alsarate answers without error. */
    predicate Succeeds(alsarate: nat)
    {
      WellFormed() && status1 >= 0 && get1 >= 0 && RateIndex(reply1).Some?
      && alsarate < |Rates| && FirstFailure(setResults) == |setResults|
      && get2 >= 0 && RateIndex(reply2).Some? && status2 >= 0 && allGood >= 0
    }
  }

  /** struct xonedb4_chip: the card's private data, updated in place. */
  class Chip {
    var sampleratebytes: seq<byte>
    var devicerate: nat
    var alsarate: nat
    var status: byte
    var firmwarever: seq<byte>
    /** The control transfers issued, oldest first. */
    var sent: seq<Transfer>

    predicate Valid()
      reads this
    {
      |sampleratebytes| == 3 && |firmwarever| == 15
    }

    /** The zeroed private data snd_card_new allocates. */
    constructor ()
      ensures Valid() && alsarate == 0 && devicerate == 0 && status == 0 && sent == []
      ensures sampleratebytes == [0, 0, 0]
    {
      sampleratebytes := [0, 0, 0];
      devicerate := 0;
      alsarate := 0;
      status := 0;
      firmwarever := seq(15, _ => 0);
      sent := [];
    }

    /**
     * xonedb4_set_samplerate: an index outside the table returns -1 before
     * any transfer; otherwise the rate's bytes are stored and sent to the
     * clock (0x86) and the endpoint (0x05) alternately, five times, stopping
     * at the first failure; devicerate follows alsarate only when all five
     * were accepted.
     */
    method SetSamplerate(results: seq<int>) returns (ret: int)
      requires Valid() && |results| == |RateTargets|
      modifies this`sampleratebytes, this`devicerate, this`sent
      ensures Valid()
      ensures alsarate >= |Rates| ==> (ret == Unsupported && sampleratebytes == old(sampleratebytes)
        && devicerate == old(devicerate) && sent == old(sent))
      ensures alsarate < |Rates| ==>
        var k := FirstFailure(results);
        sampleratebytes == RateBytes(alsarate).value
        && sent == old(sent) + SetRates(sampleratebytes, if k < |results| then k + 1 else k)
        && (k < |results| ==> ret == results[k] && ret < 0 && devicerate == old(devicerate))
        && (k == |results| ==> ret == results[4] && ret >= 0 && devicerate == alsarate)
    {
      var bytes := RateBytes(alsarate);
      if bytes.None? {
        return Unsupported;
      }
      sampleratebytes := bytes.value;
      ret := 0;
      var i := 0;
      while i < |RateTargets|
        invariant i <= |RateTargets| && i <= FirstFailure(results)
        invariant i > 0 ==> ret == results[i - 1]
        invariant sampleratebytes == bytes.value && devicerate == old(devicerate)
        invariant sent == old(sent) + SetRates(sampleratebytes, i)
      {
        sent := sent + [SetRate(sampleratebytes, i)];
        ret := results[i];
        if ret < 0 {
          return;
        }
        i := i + 1;
      }
      devicerate := alsarate;
    }

    /**
     * xonedb4_get_samplerate: a failed read returns its error; otherwise the
     * reply replaces sampleratebytes and devicerate becomes its index, or
     * the call returns -1 with devicerate unchanged for bytes outside the table.
     */
    method GetSamplerate(result: int, reply: seq<byte>) returns (ret: int)
      requires Valid() && |reply| == 3
      modifies this`sampleratebytes, this`devicerate, this`sent
      ensures Valid() && sent == old(sent) + [GetRateRequest]
      ensures result < 0 ==> ret == result && sampleratebytes == old(sampleratebytes) && devicerate == old(devicerate)
      ensures result >= 0 ==> sampleratebytes == reply
      ensures result >= 0 && RateIndex(reply).Some? ==> ret == result && devicerate == RateIndex(reply).value
      ensures result >= 0 && RateIndex(reply).None? ==> ret == Unsupported && devicerate == old(devicerate)
    {
      sent := sent + [GetRateRequest];
      if result < 0 {
        return result;
      }
      sampleratebytes := reply;
      var index := RateIndex(reply);
      if index.None? {
        return Unsupported;
      }
      devicerate := index.value;
      ret := result;
    }

    /** xonedb4_get_status: the one-byte status read. */
    method GetStatus(result: int, reply: byte) returns (ret: int)
      modifies this`status, this`sent
      ensures ret == result && sent == old(sent) + [StatusRequest]
      ensures status == if result >= 0 then reply else old(status)
    {
      sent := sent + [StatusRequest];
      if result >= 0 {
        status := reply;
      }
      ret := result;
    }

    /** xonedb4_send_allgood: the vendor "all good" write. */
    method SendAllGood(result: int) returns (ret: int)
      modifies this`sent
      ensures ret == result && sent == old(sent) + [AllGoodRequest]
    {
      sent := sent + [AllGoodRequest];
      ret := result;
    }

    /**
     * The bring-up both probe branches run: status, rate read, rate write,
     * rate read, status, all-good, stopping at the first failure. A
     * complete bring-up leaves a supported ALSA rate, and a device that
     * reports the bytes it was sent runs at that rate.
     */
    method BringUp(io: BringUpIo) returns (ret: int)
      requires Valid() && io.WellFormed()
      modifies this`sampleratebytes, this`devicerate, this`status, this`sent
      ensures Valid()
      ensures ret >= 0 ==> (alsarate < |Rates| && |sent| == |old(sent)| + 10
        && sampleratebytes == io.reply2 && devicerate < |Rates|
        && (io.reply2 == RateBytes(alsarate).value ==> devicerate == alsarate))
      ensures ret >= 0 <==> io.Succeeds(alsarate)
    {
      ret := GetStatus(io.status1, io.statusByte1);
      if ret < 0 { return; }
      ret := GetSamplerate(io.get1, io.reply1);
      if ret < 0 { return; }
      assert RateIndex(io.reply1).Some?;
      ret := SetSamplerate(io.setResults);
      if ret < 0 { return; }
      ret := GetSamplerate(io.get2, io.reply2);
      if ret < 0 { return; }
      if io.reply2 == RateBytes(alsarate).value {
        RateRoundTrip(alsarate);
      }
      ret := GetStatus(io.status2, io.statusByte2);
      if ret < 0 { return; }
      ret := SendAllGood(io.allGood);
    }
  }

  /** What snd_card_new and the rest of ALSA answer during a fresh probe. */
  datatype CardIo = CardIo(cardNew: int, cardNumber: int, firmware: int, firmwareReply: seq<byte>,
                           pcmInit: int, register: int)

  /** The driver's globals: the reset flag, the card index and the card it names. */
  class Globals {
    var justresetting: bool
    var cardindex: int
    /** The card snd_card_ref(cardindex) returns. */
    var card: Chip?
    /** The usb_reset_device calls made. */
    var deviceResets: nat

    /** The state at module load. */
    constructor ()
      ensures !justresetting && card == null && deviceResets == 0
    {
      justresetting := false;
      cardindex := 0;
      card := null;
      deviceResets := 0;
    }

    /**
     * xonedb4_reset: the flag is raised before the device is reset, so the
     * probe the reset causes takes the reset branch; a failed reset returns
     * its error.
     */
    method Reset(result: int) returns (ret: int)
      modifies this`justresetting, this`deviceResets
      ensures justresetting && deviceResets == old(deviceResets) + 1
      ensures ret == if result < 0 then result else 0
    {
      justresetting := true;
      deviceResets := deviceResets + 1;
      ret := if result < 0 then result else 0;
    }

    /** The card-slot search of probe: the first enabled slot, CardSlots when there is none. */
    static method FirstEnabled(enable: seq<bool>) returns (i: nat)
      requires |enable| == CardSlots
      ensures i <= CardSlots && (i < CardSlots ==> enable[i])
      ensures forall j :: 0 <= j < i ==> !enable[j]
    {
      i := 0;
      while i < CardSlots && !enable[i]
        invariant i <= CardSlots
        invariant forall j :: 0 <= j < i ==> !enable[j]
      {
        i := i + 1;
      }
    }

    /**
     * The reset branch of xonedb4_probe: the flag is cleared and the card
     * snd_card_ref(cardindex) names is brought up again and its bulk URBs
     * prepared; on any failure the card is released with snd_card_free.
     */
    method ProbeAfterReset(io: BringUpIo, pcmInit: int) returns (ret: int)
      requires justresetting && card != null && card.Valid() && io.WellFormed()
      modifies this, card
      ensures !justresetting && cardindex == old(cardindex) && deviceResets == old(deviceResets)
      ensures ret >= 0 <==> io.Succeeds(old(card.alsarate)) && pcmInit >= 0
      ensures io.Succeeds(old(card.alsarate)) && pcmInit < 0 ==> ret == pcmInit
      ensures ret >= 0 ==> ret == 0 && card == old(card)
      ensures ret < 0 ==> card == null
    {
      justresetting := false;
      ret := card.BringUp(io);
      if ret >= 0 {
        ret := pcmInit;
      }
      if ret < 0 {
        card := null;
      } else {
        ret := 0;
      }
    }

    /**
     * The fresh branch of xonedb4_probe: the first enabled slot (-ENODEV
     * when there is none), snd_card_new (its error returned as is), then the
     * firmware query, whose failure returns without freeing the card, then
     * the bring-up, PCM set-up and registration, whose failures free it.
     */
    method ProbeFresh(enable: seq<bool>, io: BringUpIo, card0: CardIo, newChip: Chip) returns (ret: int)
      requires !justresetting && |enable| == CardSlots && io.WellFormed()
      requires newChip.Valid() && |card0.firmwareReply| == 15
      modifies this, newChip
      ensures !justresetting && deviceResets == old(deviceResets)
      ensures !(exists j :: 0 <= j < CardSlots && enable[j]) ==>
        ret == -ENODEV && unchanged(this) && unchanged(newChip)
      ensures (exists j :: 0 <= j < CardSlots && enable[j]) && card0.cardNew < 0 ==>
        ret == card0.cardNew && unchanged(this) && unchanged(newChip)
      ensures (exists j :: 0 <= j < CardSlots && enable[j]) && card0.cardNew >= 0 ==>
        cardindex == card0.cardNumber && newChip.alsarate == DefaultRate
        && (card0.firmware < 0 ==> ret == card0.firmware && card == newChip)
        && (card0.firmware >= 0 ==>
             (ret >= 0 <==> io.Succeeds(DefaultRate) && card0.pcmInit >= 0 && card0.register >= 0)
             && (ret >= 0 ==>
                  ret == 0 && card == newChip
                  && newChip.firmwarever == card0.firmwareReply && newChip.devicerate < |Rates|)
             && (ret < 0 ==> card == null))
    {
      var i := FirstEnabled(enable);
      if i >= CardSlots {
        return -ENODEV;
      }
      if card0.cardNew < 0 {
        return card0.cardNew;
      }
      cardindex := card0.cardNumber;
      card := newChip;
      newChip.alsarate := DefaultRate;
      newChip.sent := newChip.sent + [FirmwareRequest];
      if card0.firmware < 0 {
        return card0.firmware;
      }
      newChip.firmwarever := card0.firmwareReply;
      ret := newChip.BringUp(io);
      if ret >= 0 {
        ret := card0.pcmInit;
      }
      if ret >= 0 {
        ret := card0.register;
      }
      if ret < 0 {
        card := null;
      } else {
        ret := 0;
      }
    }

    /**
     * xonedb4_probe. Interface 1 returns 0 and touches nothing. Otherwise
     * both interfaces are switched to alternate setting 1 (-EIO if either
     * fails); a probe after a reset brings the existing card up again, any
     * other probe creates one.
     */
    method Probe(interfaceNumber: nat, setInterface: seq<int>, enable: seq<bool>,
                 io: BringUpIo, card0: CardIo, newChip: Chip) returns (ret: int)
      requires |setInterface| == 2 && |enable| == CardSlots && io.WellFormed()
      requires newChip.Valid() && |card0.firmwareReply| == 15
      requires justresetting ==> card != null && card.Valid() && card != newChip
      modifies this, newChip, card
      ensures interfaceNumber == 1 ==> (ret == 0 && unchanged(this) && unchanged(newChip)
        && (old(card) != null ==> unchanged(old(card))))
      ensures interfaceNumber != 1 && (setInterface[0] != 0 || setInterface[1] != 0) ==>
        ret == -EIO && unchanged(this) && unchanged(newChip)
      ensures interfaceNumber != 1 && setInterface[0] == 0 && setInterface[1] == 0 && old(justresetting) ==>
        !justresetting && cardindex == old(cardindex) && unchanged(newChip)
        && (ret >= 0 <==> io.Succeeds(old(card.alsarate)) && card0.pcmInit >= 0)
        && (ret >= 0 ==> ret == 0 && card == old(card))
        && (ret < 0 ==> card == null)
      ensures interfaceNumber != 1 && setInterface[0] == 0 && setInterface[1] == 0 && !old(justresetting) ==>
        !justresetting
        && (!(exists j :: 0 <= j < CardSlots && enable[j]) ==>
             ret == -ENODEV && unchanged(this) && unchanged(newChip))
        && ((exists j :: 0 <= j < CardSlots && enable[j]) && card0.cardNew < 0 ==>
             ret == card0.cardNew && unchanged(this) && unchanged(newChip))
        && ((exists j :: 0 <= j < CardSlots && enable[j]) && card0.cardNew >= 0 ==>
             cardindex == card0.cardNumber && newChip.alsarate == DefaultRate
             && (card0.firmware < 0 ==> ret == card0.firmware && card == newChip)
             && (card0.firmware >= 0 ==>
                  (ret >= 0 <==> io.Succeeds(DefaultRate) && card0.pcmInit >= 0 && card0.register >= 0)
                  && (ret >= 0 ==> ret == 0 && card == newChip && newChip.devicerate < |Rates|)
                  && (ret < 0 ==> card == null)))
    {
      if interfaceNumber == 1 {
        return 0;
      }
      if setInterface[0] != 0 || setInterface[1] != 0 {
        return -EIO;
      }
      if justresetting {
        ret := ProbeAfterReset(io, card0.pcmInit);
      } else {
        ret := ProbeFresh(enable, io, card0, newChip);
      }
    }
  }
}
