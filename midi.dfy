// Host-side MIDI bridge of the Ploytec companion app.
//
// A MIDI 1.0 message of 1 to 3 bytes travels to the driver as one 64-bit
// word: the low byte holds the length and message byte i sits at bits
// 8(i+1) .. 8(i+1)+7.  In the other direction, a hardware notification's
// bytes are handed to the virtual MIDI source as one packet.
module MidiBridge {
  import opened Wrappers

  /** Bytes in the data field of one CoreMIDI packet. */
  const PacketDataSize := 256
  /** The longest message that is forwarded to the driver. */
  const MaxMessageLength := 3

  /** Shift that places message byte `i` (i = 0..2) or, for i = 3, the first unused byte. */
  function ByteShift(i: int): (r: bv64)
    requires 0 <= i <= MaxMessageLength
    ensures r < 64
  {
    if i == 0 then 8 else if i == 1 then 16 else if i == 2 then 24 else 32
  }

  /** The length byte of a packed word, as a word. */
  function LengthWord(n: int): (r: bv64)
    requires 0 <= n <= MaxMessageLength
    ensures r >> 8 == 0 && r & 0xFF == r
  {
    if n == 0 then 0 else if n == 1 then 1 else if n == 2 then 2 else 3
  }

  /** Message byte `i` of a packed word. */
  function ByteAt(w: bv64, i: int): bv64
    requires 0 <= i < MaxMessageLength
  {
    (w >> ByteShift(i)) & 0xFF
  }

  /** The message length a packed word announces, 0 when it is not 1..3. */
  function WordLength(w: bv64): (n: int)
    ensures 0 <= n <= MaxMessageLength
    ensures n != 0 <==> 1 <= w & 0xFF <= 3
    ensures n != 0 ==> w & 0xFF == LengthWord(n)
  {
    var l := w & 0xFF;
    if l == 1 then 1 else if l == 2 then 2 else if l == 3 then 3 else 0
  }

  /** A word the packing produces: length 1..3 and nothing above the last message byte. */
  predicate IsPackedMessage(w: bv64)
  {
    WordLength(w) != 0 && w >> ByteShift(WordLength(w)) == 0
  }

  /** The driver-side reading of a packed word: the length byte, then that many bytes. */
  function Unpack(w: bv64): (msg: seq<bv8>)
    ensures |msg| == WordLength(w)
  {
    seq(WordLength(w), i requires 0 <= i < WordLength(w) => NarrowByte(w, i))
  }

  /** Message byte `i` of a packed word, as a byte. */
  function NarrowByte(w: bv64, i: int): bv8
    requires 0 <= i < MaxMessageLength
  {
    ByteAt(w, i) as bv8
  }

  /** A byte survives the trip to 64 bits and back. */
  lemma ByteRoundTrip(x: bv8)
    ensures (x as bv64) as bv8 == x
  {}

  /**
   * Two packed words that unpack to the same message are the same word,
   * so a message has exactly one packed form.
   */
  lemma UnpackInjective(w1: bv64, w2: bv64)
    requires IsPackedMessage(w1) && IsPackedMessage(w2) && Unpack(w1) == Unpack(w2)
    ensures w1 == w2
  {
    var n := WordLength(w1);
    assert w1 & 0xFF == LengthWord(n) == w2 & 0xFF;
    SameByte(w1, w2, 0);
    if n == 1 {
      WordFromBytes1(w1, w2);
    } else if n == 2 {
      SameByte(w1, w2, 1);
      WordFromBytes2(w1, w2);
    } else {
      SameByte(w1, w2, 1);
      SameByte(w1, w2, 2);
      WordFromBytes3(w1, w2);
    }
  }

  /** Equal unpacked messages give equal bytes at every message position. */
  lemma SameByte(w1: bv64, w2: bv64, i: int)
    requires 0 <= i < WordLength(w1) && Unpack(w1) == Unpack(w2)
    ensures ByteAt(w1, i) == ByteAt(w2, i)
  {
    assert Unpack(w1)[i] == Unpack(w2)[i];
    ByteFromNarrow(w1, i);
    ByteFromNarrow(w2, i);
  }

  lemma WordFromBytes1(w1: bv64, w2: bv64)
    requires w1 & 0xFF == w2 & 0xFF && ByteAt(w1, 0) == ByteAt(w2, 0)
    requires w1 >> ByteShift(1) == 0 && w2 >> ByteShift(1) == 0
    ensures w1 == w2
  {}

  lemma WordFromBytes2(w1: bv64, w2: bv64)
    requires w1 & 0xFF == w2 & 0xFF && ByteAt(w1, 0) == ByteAt(w2, 0) && ByteAt(w1, 1) == ByteAt(w2, 1)
    requires w1 >> ByteShift(2) == 0 && w2 >> ByteShift(2) == 0
    ensures w1 == w2
  {}

  lemma WordFromBytes3(w1: bv64, w2: bv64)
    requires w1 & 0xFF == w2 & 0xFF && ByteAt(w1, 0) == ByteAt(w2, 0)
    requires ByteAt(w1, 1) == ByteAt(w2, 1) && ByteAt(w1, 2) == ByteAt(w2, 2)
    requires w1 >> ByteShift(3) == 0 && w2 >> ByteShift(3) == 0
    ensures w1 == w2
  {}

  /** A message byte of a word is determined by its narrowed value. */
  lemma ByteFromNarrow(w: bv64, i: int)
    requires 0 <= i < MaxMessageLength
    ensures NarrowByte(w, i) as bv64 == ByteAt(w, i)
  {}

  /**
   * The packing loop of midiReadCallback: the length in the low byte, then
   * each message byte ORed in at bit 8(i+1).
   */
  method Pack(data: seq<bv8>) returns (packed: bv64)
    requires 1 <= |data| <= MaxMessageLength
    ensures IsPackedMessage(packed) && Unpack(packed) == data
  {
    packed := LengthWord(|data|);
    var i := 0;
    while i < |data|
      invariant 0 <= i <= |data|
      invariant packed == PackedWord(data, i)
    {
      packed := OrByteIn(packed, data[i], i);
      i := i + 1;
    }
    PackedWordUnpacks(data);
  }

  /** `packed |= UInt64(byte) << (8 * (i + 1))`. */
  function OrByteIn(w: bv64, x: bv8, i: int): bv64
    requires 0 <= i < MaxMessageLength
  {
    w | ((x as bv64) << ByteShift(i))
  }

  /** No bit of w is set from message byte n up. */
  predicate ClearFrom(w: bv64, n: int)
    requires 0 <= n <= MaxMessageLength
  {
    w >> ByteShift(n) == 0
  }

  /** The word the packing loop holds after its first `i` iterations. */
  function PackedWord(data: seq<bv8>, i: nat): (r: bv64)
    requires i <= |data| <= MaxMessageLength
    ensures ClearFrom(r, i)
  {
    if i == 0 then LengthWord(|data|)
    else
      OrByteKeepsHighClear(PackedWord(data, i - 1), data[i - 1], i);
      OrByteIn(PackedWord(data, i - 1), data[i - 1], i - 1)
  }

  /** Or-ing message byte n - 1 into a word clear from that byte up leaves it clear from byte n up. */
  lemma OrByteKeepsHighClear(w: bv64, x: bv8, n: int)
    requires 1 <= n <= MaxMessageLength
    ensures ClearFrom(w, n - 1) ==> ClearFrom(OrByteIn(w, x, n - 1), n)
  {
    if n == 1 {
    } else if n == 2 {
    } else {
    }
  }

  /** The bytes of a word assembled from a length byte and up to three message bytes. */
  lemma WordBytes(l: bv64, a: bv64, b: bv64, c: bv64)
    requires l < 256 && a < 256 && b < 256 && c < 256
    ensures var w := ((l | (a << 8)) | (b << 16)) | (c << 24);
      w & 0xFF == l && (w >> 8) & 0xFF == a && (w >> 16) & 0xFF == b && (w >> 24) & 0xFF == c && w >> 32 == 0
    ensures var w := (l | (a << 8)) | (b << 16);
      w & 0xFF == l && (w >> 8) & 0xFF == a && (w >> 16) & 0xFF == b && w >> 24 == 0
    ensures var w := l | (a << 8);
      w & 0xFF == l && (w >> 8) & 0xFF == a && w >> 16 == 0
  {}

  /** Message byte k of a word whose byte k is `data[k]` unpacks to `data[k]`. */
  lemma NarrowBack(w: bv64, k: int, x: bv8)
    requires 0 <= k < MaxMessageLength && ByteAt(w, k) == x as bv64
    ensures NarrowByte(w, k) == x
  {
    ByteRoundTrip(x);
  }

  /** The word the completed packing loop builds unpacks to the message. */
  lemma PackedWordUnpacks(data: seq<bv8>)
    requires 1 <= |data| <= MaxMessageLength
    ensures IsPackedMessage(PackedWord(data, |data|)) && Unpack(PackedWord(data, |data|)) == data
  {
    var w1 := OrByteIn(LengthWord(|data|), data[0], 0);
    assert PackedWord(data, 1) == w1;
    if |data| == 1 {
      PackedOne(data, w1);
    } else {
      var w2 := OrByteIn(w1, data[1], 1);
      assert PackedWord(data, 2) == w2;
      if |data| == 2 {
        PackedTwo(data, w2);
      } else {
        var w3 := OrByteIn(w2, data[2], 2);
        assert PackedWord(data, 3) == w3;
        PackedThree(data, w3);
      }
    }
  }

  lemma PackedOne(data: seq<bv8>, w: bv64)
    requires |data| == 1 && w == OrByteIn(LengthWord(1), data[0], 0)
    ensures IsPackedMessage(w) && Unpack(w) == data
  {
    WordBytes(LengthWord(1), data[0] as bv64, 0, 0);
    NarrowBack(w, 0, data[0]);
    assert WordLength(w) == 1;
  }

  lemma PackedTwo(data: seq<bv8>, w: bv64)
    requires |data| == 2 && w == OrByteIn(OrByteIn(LengthWord(2), data[0], 0), data[1], 1)
    ensures IsPackedMessage(w) && Unpack(w) == data
  {
    WordBytes(LengthWord(2), data[0] as bv64, data[1] as bv64, 0);
    NarrowBack(w, 0, data[0]);
    NarrowBack(w, 1, data[1]);
    assert WordLength(w) == 2;
  }

  lemma PackedThree(data: seq<bv8>, w: bv64)
    requires |data| == 3
    requires w == OrByteIn(OrByteIn(OrByteIn(LengthWord(3), data[0], 0), data[1], 1), data[2], 2)
    ensures IsPackedMessage(w) && Unpack(w) == data
  {
    WordBytes(LengthWord(3), data[0] as bv64, data[1] as bv64, data[2] as bv64);
    NarrowBack(w, 0, data[0]);
    NarrowBack(w, 1, data[1]);
    NarrowBack(w, 2, data[2]);
    assert WordLength(w) == 3;
  }

  /** One CoreMIDI packet: a 256-byte data field of which `length` bytes are meant. */
  datatype MidiPacket = MidiPacket(timeStamp: int, length: int, data: seq<bv8>)

  /** `Array(data.prefix(length))`: the meant bytes, at most the whole data field. */
  function PacketBytes(p: MidiPacket): (bytes: seq<bv8>)
    requires 0 <= p.length
    ensures |bytes| == if p.length < |p.data| then p.length else |p.data|
    ensures bytes <= p.data
  {
    if p.length < |p.data| then p.data[..p.length] else p.data
  }

  predicate ValidPackets(packets: seq<MidiPacket>)
  {
    forall k :: 0 <= k < |packets| ==> 0 <= packets[k].length
  }

  /** A packet is forwarded only when it holds 1 to 3 bytes; others are dropped. */
  predicate IsForwarded(bytes: seq<bv8>)
  {
    1 <= |bytes| <= MaxMessageLength
  }

  /** The messages of a packet list that reach the driver, in order, one per packet. */
  function ForwardedMessages(packets: seq<MidiPacket>): (msgs: seq<seq<bv8>>)
    requires ValidPackets(packets)
    ensures |msgs| <= |packets|
    ensures forall k :: 0 <= k < |msgs| ==> IsForwarded(msgs[k])
  {
    if packets == [] then []
    else
      var last := PacketBytes(packets[|packets| - 1]);
      ForwardedMessages(packets[..|packets| - 1]) + (if IsForwarded(last) then [last] else [])
  }

  /** The messages of one more packet: the last one's bytes, if forwarded. */
  lemma ForwardedSnoc(packets: seq<MidiPacket>, i: int)
    requires ValidPackets(packets) && 0 <= i < |packets|
    ensures var last := PacketBytes(packets[i]);
      ForwardedMessages(packets[..i + 1]) == ForwardedMessages(packets[..i]) + (if IsForwarded(last) then [last] else [])
  {
    assert packets[..i + 1][..i] == packets[..i];
  }

  /** The words handed to the driver carry exactly the forwarded messages. */
  predicate CarriesMessages(words: seq<bv64>, msgs: seq<seq<bv8>>)
  {
    |words| == |msgs|
    && forall k :: 0 <= k < |words| ==> IsPackedMessage(words[k]) && Unpack(words[k]) == msgs[k]
  }

  lemma CarriesAppend(words: seq<bv64>, msgs: seq<seq<bv8>>, w: bv64, m: seq<bv8>)
    requires CarriesMessages(words, msgs) && IsPackedMessage(w) && Unpack(w) == m
    ensures CarriesMessages(words + [w], msgs + [m])
  {}

  /** Appending to a log keeps its first part and extends the rest. */
  lemma AppendAfter(log: seq<bv64>, prefix: seq<bv64>, w: bv64)
    requires |prefix| <= |log| && log[..|prefix|] == prefix
    ensures (log + [w])[..|prefix|] == prefix
    ensures (log + [w])[|prefix|..] == log[|prefix|..] + [w]
  {
    assert (log + [w])[..|prefix|] == log[..|prefix|];
  }

  /** MIDIManager: the virtual CoreMIDI endpoints and a weak link to the user client. */
  class MidiManager {
    /** `weak var userClient`: null once the user client is gone. */
    var userClient: PloytecAppUserClient?
    /** Packet lists handed to MIDIReceived on the virtual source, one packet each. */
    var received: seq<MidiPacket>

    constructor ()
      ensures userClient == null && received == []
    {
      userClient := null;
      received := [];
    }

    /**
     * send(bytes:): one packet with time stamp 0, length |bytes| and the
     * bytes at the head of a zeroed data field.
     */
    method Send(bytes: seq<bv8>)
      requires |bytes| <= PacketDataSize
      modifies this`received
      ensures received == old(received) + [MidiPacket(0, |bytes|, bytes + seq(PacketDataSize - |bytes|, _ => 0))]
      ensures PacketBytes(received[|received| - 1]) == bytes
    {
      var data := bytes + seq(PacketDataSize - |bytes|, _ => 0);
      received := received + [MidiPacket(0, |bytes|, data)];
      assert data[..|bytes|] == bytes;
    }

    /**
     * midiReadCallback: walks the packet list in order; a packet of 1 to 3
     * bytes is packed and sent to the driver, any other is dropped.
     * Without a user client nothing is sent.
     */
    method ReadCallback(packets: seq<MidiPacket>)
      requires ValidPackets(packets)
      modifies if userClient == null then {} else {userClient}
      ensures userClient == old(userClient)
      ensures userClient != null ==>
        |userClient.driverWords| == |old(userClient.driverWords)| + |ForwardedMessages(packets)|
        && userClient.driverWords[..|old(userClient.driverWords)|] == old(userClient.driverWords)
        && CarriesMessages(userClient.driverWords[|old(userClient.driverWords)|..], ForwardedMessages(packets))
    {
      var client := userClient;
      ghost var before := if client == null then [] else client.driverWords;
      var i := 0;
      while i < |packets|
        invariant 0 <= i <= |packets|
        invariant userClient == client
        invariant client != null ==>
          |client.driverWords| >= |before|
          && client.driverWords[..|before|] == before
          && CarriesMessages(client.driverWords[|before|..], ForwardedMessages(packets[..i]))
      {
        var data := PacketBytes(packets[i]);
        ForwardedSnoc(packets, i);
        if data == [] || |data| > MaxMessageLength {
          // dropped
        } else {
          var packed := Pack(data);
          if client != null {
            ghost var prev := client.driverWords;
            client.SendToDriver(packed);
            AppendAfter(prev, before, packed);
            CarriesAppend(prev[|before|..], ForwardedMessages(packets[..i]), packed, data);
          }
        }
        i := i + 1;
      }
      assert packets[..i] == packets;
    }
  }

  /** A value in a notification's userInfo dictionary, by its dynamic type. */
  datatype UserInfoValue = UInt8Value(u8: bv8) | DataValue(bytes: seq<bv8>) | OtherValue

  /** The bytes a notification asks to forward, or None when its payload is malformed. */
  function NotificationBytes(userInfo: map<string, UserInfoValue>): (r: Option<seq<bv8>>)
    ensures r.None? <==>
      !("length" in userInfo && userInfo["length"].UInt8Value?
        && "bytes" in userInfo && userInfo["bytes"].DataValue?)
    ensures r.Some? ==>
      var data := userInfo["bytes"].bytes;
      var n := userInfo["length"].u8 as int;
      |r.value| == (if n < |data| then n else |data|) && r.value <= data
  {
    if "length" in userInfo && userInfo["length"].UInt8Value?
       && "bytes" in userInfo && userInfo["bytes"].DataValue?
    then
      var n := userInfo["length"].u8 as int;
      var data := userInfo["bytes"].bytes;
      Some(if n < |data| then data[..n] else data)
    else None
  }

  /** PloytecAppUserClientSwift: the connection to the driver and the MIDI manager it owns. */
  class PloytecAppUserClient {
    const midiManager: MidiManager
    /** Words handed to sendMIDIMessage(toDriver:) on the driver connection. */
    var driverWords: seq<bv64>

    /** Opens the driver connection (external) and links the manager back to this object. */
    constructor ()
      ensures fresh(midiManager)
      ensures midiManager.userClient == this && midiManager.received == []
      ensures driverWords == []
    {
      driverWords := [];
      var manager := new MidiManager();
      midiManager := manager;
      new;
      manager.userClient := this;
    }

    /** sendToDriver: the word goes to the driver unchanged. */
    method SendToDriver(packed: bv64)
      modifies this`driverWords
      ensures driverWords == old(driverWords) + [packed]
    {
      driverWords := driverWords + [packed];
    }

    /**
     * handleMIDINotification: a malformed payload sends nothing; otherwise
     * the first min(length, |bytes|) bytes go out as one packet, also when
     * that is none at all.
     */
    method HandleMidiNotification(userInfo: map<string, UserInfoValue>)
      modifies midiManager`received
      ensures var r := NotificationBytes(userInfo);
        midiManager.received == if r.None? then old(midiManager.received)
          else old(midiManager.received) + [MidiPacket(0, |r.value|, r.value + seq(PacketDataSize - |r.value|, _ => 0))]
    {
      if "length" in userInfo && userInfo["length"].UInt8Value?
         && "bytes" in userInfo && userInfo["bytes"].DataValue?
      {
        var length := userInfo["length"].u8 as int;
        var data := userInfo["bytes"].bytes;
        var bytes := if length < |data| then data[..length] else data;
        midiManager.Send(bytes);
      }
    }
  }

  /** The MIDI manager of the legacy app, as far as the user client uses it. */
  class LegacyMidiManager {
    const deviceName: string
    var userClient: LegacyPloytecAppUserClient?
    /** Byte strings passed to send(bytes:). */
    var sent: seq<seq<bv8>>

    constructor (deviceName: string)
      ensures this.deviceName == deviceName && userClient == null && sent == []
    {
      this.deviceName := deviceName;
      userClient := null;
      sent := [];
    }

    method Send(bytes: seq<bv8>)
      modifies this`sent
      ensures sent == old(sent) + [bytes]
    {
      sent := sent + [bytes];
    }
  }

  /** The legacy PloytecAppUserClientSwift. */
  class LegacyPloytecAppUserClient {
    const midiManager: LegacyMidiManager
    var driverWords: seq<bv64>

    /**
     * The lazily built manager is forced during init; its name is the
     * driver's device name, "Ploytec" when the driver reports none.
     */
    constructor (reportedName: Option<string>)
      ensures fresh(midiManager) && midiManager.userClient == this && midiManager.sent == []
      ensures midiManager.deviceName == if reportedName.Some? then reportedName.value else "Ploytec"
      ensures driverWords == []
    {
      driverWords := [];
      var name := if reportedName.Some? then reportedName.value else "Ploytec";
      var manager := new LegacyMidiManager(name);
      midiManager := manager;
      new;
      manager.userClient := this;
    }

    method SendToDriver(packed: bv64)
      modifies this`driverWords
      ensures driverWords == old(driverWords) + [packed]
    {
      driverWords := driverWords + [packed];
    }

    method HandleMidiNotification(userInfo: map<string, UserInfoValue>)
      modifies midiManager`sent
      ensures var r := NotificationBytes(userInfo);
        midiManager.sent == if r.None? then old(midiManager.sent) else old(midiManager.sent) + [r.value]
    {
      if "length" in userInfo && userInfo["length"].UInt8Value?
         && "bytes" in userInfo && userInfo["bytes"].DataValue?
      {
        var length := userInfo["length"].u8 as int;
        var data := userInfo["bytes"].bytes;
        midiManager.Send(if length < |data| then data[..length] else data);
      }
    }
  }
}
