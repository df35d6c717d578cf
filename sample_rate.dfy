// The sampling-frequency control every driver copy sends: a 3-byte
// little-endian tSampFreq, as section 5.2.3.2.3.1 of the USB Audio Class 1.0
// specification lays it out, and the four rates the mixers run at.
module SampleRate {
  import opened Wrappers

  /** A byte of a control transfer. */
  type byte = x: nat | x < 256

  /** The rates the mixers support. */
  predicate Supported(rate: int)
  {
    rate == 44100 || rate == 48000 || rate == 88200 || rate == 96000
  }

  /** A 24-bit tSampFreq value. */
  const Limit24: nat := 0x100_0000

  /** The low 24 bits of `rate`, low byte first. */
  function Encode24(rate: nat): (r: seq<byte>)
    ensures |r| == 3
  {
    [rate % 256, (rate / 256) % 256, (rate / 65536) % 256]
  }

  /** The rate three little-endian bytes carry. */
  function Decode24(b: seq<byte>): (r: nat)
    requires |b| >= 3
    ensures r < Limit24
  {
    b[0] as nat + 256 * (b[1] as nat) + 65536 * (b[2] as nat)
  }

  /** Decoding an encoded rate gives back its low 24 bits. */
  lemma Decode24Encode24(rate: nat)
    ensures Decode24(Encode24(rate)) == rate % Limit24
  {
    var b0, q0 := rate % 256, rate / 256;
    var b1, q1 := q0 % 256, q0 / 256;
    var b2 := q1 % 256;
    assert rate == b0 + 256 * q0;
    assert q0 == b1 + 256 * q1;
    assert q1 == b2 + 256 * (q1 / 256);
    assert q1 == rate / 65536;
    assert rate == b0 + 256 * b1 + 65536 * b2 + Limit24 * (q1 / 256);
    assert Encode24(rate) == [b0, b1, b2];
  }

  /** Encoding a decoded rate gives back the three bytes. */
  lemma Encode24Decode24(b: seq<byte>)
    requires |b| >= 3
    ensures Encode24(Decode24(b)) == b[..3]
  {
    var d := Decode24(b);
    var x0, x1, x2: nat := b[0], b[1], b[2];
    assert d == x0 + 256 * (x1 + 256 * x2);
    assert d % 256 == x0 && d / 256 == x1 + 256 * x2;
    assert (d / 256) % 256 == x1 && (d / 256) / 256 == x2;
    assert d / 65536 == x2;
  }

  /** Two rates below 2^24 with the same bytes are the same rate. */
  lemma Encode24Injective(r1: nat, r2: nat)
    requires r1 < Limit24 && r2 < Limit24 && Encode24(r1) == Encode24(r2)
    ensures r1 == r2
  {
    Decode24Encode24(r1);
    Decode24Encode24(r2);
    calc {
      r1;
      r1 % Limit24;
      Decode24(Encode24(r1));
      Decode24(Encode24(r2));
      r2 % Limit24;
      r2;
    }
  }
}
