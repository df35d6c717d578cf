// The PCM runtime the two Linux drivers share (linux/pcm.c and
// linux-alsa/pcm.c carry the same code for it): stream start and stop, the
// substream position that advances by one packet per URB, trigger,
// prepare with its rate lookup, open, close, pointer and abort.
module PcmStream {
  import opened Wrap
  import opened SampleRate
  import AlsaChip

  const EPIPE: int := 32
  const ENODEV: int := 19
  const EINVAL: int := 22

  /** ALSA_BYTES_PER_FRAME: eight channels of S24_3LE. */
  const BytesPerFrame: nat := 24
  /** ARRAY_SIZE(rates): the "no rate chosen" value of the runtime's rate index. */
  const NoRate: nat := 4

  /** The STREAM_XXX states. */
  datatype State = Disabled | Starting | Running | Stopping

  /** The direction of an ALSA substream; anything else has no slot. */
  datatype Direction = Playback | Capture | UnknownDirection

  /** The trigger commands the driver knows, and any other. */
  datatype Command = TriggerStart | PauseRelease | TriggerStop | PausePush | OtherCommand(code: int)

  datatype Format = S24_3LE | OtherFormat

  /** What pointer reports: an xrun, or the position in frames. */
  datatype Position = Xrun | Frames(frames: nat)

  /** The memory a converter call touches: the URB buffer or the ALSA DMA area. */
  datatype Region = Urb | Dma
  datatype Ptr = Ptr(region: Region, offset: int)

  /**
   * One call of the Ploytec sample converters (declared in a header that is
   * not part of this model): one frame from `src` converted into `dest`,
   * or the sync bytes written at `at`.
   */
  datatype Op = Convert(dest: Ptr, src: Ptr) | Sync(at: Ptr)

  /** `p` moved `d` bytes on. */
  function Shift(p: Ptr, d: int): Ptr
  {
    Ptr(p.region, p.offset + d)
  }

  /** Where frame k of a packet lies in a ring of `size` bytes whose packet starts at dmaOff. */
  function RingPos(dmaOff: nat, k: nat, size: nat): nat
    requires size > 0
  {
    (dmaOff + BytesPerFrame * k) % size
  }

  /** A DMA position and ring size as ALSA hands them over: whole frames, the position inside the ring. */
  predicate Aligned(dmaOff: nat, size: nat)
  {
    dmaOff < size && dmaOff % BytesPerFrame == 0 && size % BytesPerFrame == 0
  }

  /**
   * The ring position of frame k when the packet of `frames` frames does
   * not reach the end of the ring (the straight case), and when it does
   * (the first (size - dmaOff) / 24 frames at the tail, the rest from 0).
   */
  lemma RingPosCases(dmaOff: nat, size: nat, frames: nat, k: nat)
    requires Aligned(dmaOff, size) && BytesPerFrame * frames <= size && k < frames
    ensures dmaOff + BytesPerFrame * frames <= size ==> RingPos(dmaOff, k, size) == dmaOff + BytesPerFrame * k
    ensures k < (size - dmaOff) / BytesPerFrame ==> RingPos(dmaOff, k, size) == dmaOff + BytesPerFrame * k
    ensures k >= (size - dmaOff) / BytesPerFrame ==>
      RingPos(dmaOff, k, size) == BytesPerFrame * (k - (size - dmaOff) / BytesPerFrame)
  {
    var t := (size - dmaOff) / BytesPerFrame;
    assert size - dmaOff == BytesPerFrame * t;
    if k >= t {
      var p := BytesPerFrame * (k - t);
      assert dmaOff + BytesPerFrame * k == size + p;
      assert p < size;
      ModAfterOneWrap(p, size);
    }
  }

  /** The next packet starts in the ring exactly where this one's frames leave off. */
  lemma RingPosContinues(dmaOff: nat, size: nat, frames: nat, k: nat)
    requires size > 0
    ensures RingPos((dmaOff + BytesPerFrame * frames) % size, k, size) == RingPos(dmaOff, frames + k, size)
  {
    DivStep(dmaOff + BytesPerFrame * frames, BytesPerFrame * k, size);
    assert dmaOff + BytesPerFrame * frames + BytesPerFrame * k == dmaOff + BytesPerFrame * (frames + k);
  }

  /** The frames of one packet occupy distinct ring slots as long as the packet fits the ring. */
  lemma RingPosDistinct(dmaOff: nat, size: nat, frames: nat, j: nat, k: nat)
    requires size > 0 && BytesPerFrame * frames <= size && j < k < frames
    ensures RingPos(dmaOff, j, size) != RingPos(dmaOff, k, size)
  {
    var a := dmaOff + BytesPerFrame * j;
    var t := BytesPerFrame * (k - j);
    assert dmaOff + BytesPerFrame * k == a + t;
    DivStep(a, t, size);
    var r := a % size;
    if r + t >= size {
      ModUnique(r + t, 1, r + t - size, size);
    } else {
      ModUnique(r + t, 0, r + t, size);
    }
  }

  lemma ModAfterOneWrap(p: nat, size: nat)
    requires p < size
    ensures (size + p) % size == p
  {
  }

  /** (c + P) / p steps past c / p exactly when the remainder plus P reaches p. */
  lemma DivStep(c: nat, step: nat, p: nat)
    requires p > 0
    ensures (c + step) / p == c / p + (c % p + step) / p
    ensures (c + step) % p == (c % p + step) % p
  {
    var q, r := c / p, c % p;
    var q2, r2 := (r + step) / p, (r + step) % p;
    MulDistributes(p, q, q2);
    ModUnique(c + step, q + q2, r2, p);
  }

  lemma MulDistributes(p: nat, a: nat, b: nat)
    ensures p * (a + b) == p * a + p * b
  {
  }

  /** A value below twice p holds p at most once. */
  lemma BelowTwice(y: nat, p: nat)
    requires 0 < p && y < 2 * p
    ensures y / p <= 1
  {
    if y >= p {
      ModUnique(y, 1, y - p, p);
    } else {
      ModUnique(y, 0, y, p);
    }
  }

  /**
   * The arithmetic of one packet step: the single subtraction of the ring
   * size and the reduction of the period offset agree with reducing the
   * new byte count, and the period count moves on by at most one.
   */
  lemma StepArithmetic(c: nat, packet: nat, size: nat, period: nat)
    requires 0 < packet <= period <= size
    ensures c % size + packet < size ==> (c + packet) % size == c % size + packet
    ensures c % size + packet >= size ==> (c + packet) % size == c % size + packet - size
    ensures c % period + packet < period ==>
      (c + packet) % period == c % period + packet && (c + packet) / period == c / period
    ensures c % period + packet >= period ==>
      (c + packet) % period == (c % period + packet) % period && (c + packet) / period == c / period + 1
    ensures (c % size + packet) % size == (c + packet) % size
    ensures c % BytesPerFrame == 0 && packet % BytesPerFrame == 0 ==> (c + packet) % BytesPerFrame == 0
  {
    if c % BytesPerFrame == 0 && packet % BytesPerFrame == 0 {
      ModUnique(c + packet, c / BytesPerFrame + packet / BytesPerFrame, 0, BytesPerFrame);
    }
    DivStep(c, packet, size);
    DivStep(c, packet, period);
    var r := c % size + packet;
    if r >= size {
      ModUnique(r, 1, r - size, size);
    } else {
      ModUnique(r, 0, r, size);
    }
    var t := c % period + packet;
    if t >= period {
      ModUnique(t, 1, t - period, period);
    } else {
      ModUnique(t, 0, t, period);
    }
  }

  /** struct pcm_substream: one direction's position in the ALSA ring. */
  class Substream {
    /** An ALSA substream is attached (instance != NULL). */
    var instance: bool
    var active: bool
    /** Bytes into the DMA area. */
    var dmaOff: nat
    /** Bytes into the current period. */
    var periodOff: nat
    /** snd_pcm_lib_buffer_bytes of the attached runtime. */
    var bufferBytes: nat
    /** The period length the period offset is measured against, in bytes. */
    var periodBytes: nat
    /** Bytes moved since prepare. */
    ghost var consumed: nat
    /** Periods reported elapsed since prepare. */
    ghost var reported: nat

    /**
     * The position invariant: both offsets are the byte count since prepare
     * reduced by their ring, and every completed period has been reported
     * exactly once.
     */
    ghost predicate Valid()
      reads this
    {
      0 < periodBytes <= bufferBytes && bufferBytes % BytesPerFrame == 0
      && consumed % BytesPerFrame == 0
      && dmaOff == consumed % bufferBytes && periodOff == consumed % periodBytes
      && reported == consumed / periodBytes
    }

    /** A substream nobody has opened. */
    constructor ()
      ensures !instance && !active && dmaOff == 0 && periodOff == 0
    {
      instance := false;
      active := false;
      dmaOff := 0;
      periodOff := 0;
      bufferBytes := 0;
      periodBytes := 0;
      consumed := 0;
      reported := 0;
    }

    /** Everything about the substream but its instance and active flags. */
    ghost function Cursor(): (nat, nat, nat, nat, nat, nat)
      reads this
    {
      (dmaOff, periodOff, bufferBytes, periodBytes, consumed, reported)
    }

    /** The DMA position is whole frames inside the ring. */
    lemma ValidAligned()
      requires Valid()
      ensures Aligned(dmaOff, bufferBytes)
    {
      var q := consumed / bufferBytes;
      assert consumed == bufferBytes * q + dmaOff;
      var a, b := consumed / BytesPerFrame, bufferBytes / BytesPerFrame;
      assert dmaOff == BytesPerFrame * a - BytesPerFrame * b * q;
      assert dmaOff == BytesPerFrame * (a - b * q);
    }

    /**
     * The common tail of every packet handler: dma_off and period_off move
     * one packet on, dma_off wrapping once at the ring end, and the handler
     * reports a period elapsed exactly when the byte count crossed a period
     * boundary.
     */
    method Advance(packet: nat) returns (elapsed: bool)
      requires Valid() && 0 < packet <= periodBytes && packet % BytesPerFrame == 0
      modifies this`dmaOff, this`periodOff, this`consumed, this`reported
      ensures Valid() && consumed == old(consumed) + packet
      ensures elapsed <==> consumed / periodBytes == old(consumed) / periodBytes + 1
      ensures !elapsed ==> consumed / periodBytes == old(consumed) / periodBytes
      ensures dmaOff == (old(dmaOff) + packet) % bufferBytes
      ensures (periodOff, elapsed) == PeriodStep(old(periodOff), packet, periodBytes)
    {
      StepArithmetic(consumed, packet, bufferBytes, periodBytes);
      var dma := dmaOff + packet;
      if dma >= bufferBytes {
        dma := dma - bufferBytes;
      }
      var period := periodOff + packet;
      elapsed := false;
      if period >= periodBytes {
        period := period % periodBytes;
        elapsed := true;
      }
      consumed := consumed + packet;
      if elapsed {
        reported := reported + 1;
      }
      dmaOff, periodOff := dma, period;
    }
  }

  /**
   * The period bookkeeping at the end of every packet handler: period_off
   * gains the packet's bytes and, once it reaches `period`, is reduced
   * modulo `period` and the handler reports a period elapsed. The code
   * passes the runtime's period_size, which ALSA counts in frames;
   * Substream.Advance passes the period in bytes.
   */
  function PeriodStep(periodOff: nat, packet: nat, period: nat): (nat, bool)
    requires period > 0
  {
    var off := periodOff + packet;
    if off >= period then (off % period, true) else (off, false)
  }

  /**
   * Whatever the period, stepping from the byte count reduced by the
   * period lands on the new byte count reduced by the period, and reports
   * exactly when the byte count passed a multiple of the period.
   */
  lemma PeriodStepTracksBytes(c: nat, packet: nat, period: nat)
    requires period > 0
    ensures PeriodStep(c % period, packet, period).0 == (c + packet) % period
    ensures PeriodStep(c % period, packet, period).1 <==> (c + packet) / period > c / period
  {
    DivStep(c, packet, period);
    var off := c % period + packet;
    if off < period {
      ModUnique(off, 0, off, period);
    } else {
      ModUnique(off, 1 + (off - period) / period, (off - period) % period, period);
    }
  }

  /** period_off and the number of reports after m packets since prepare, stepped as the code does. */
  function PeriodRun(m: nat, packet: nat, period: nat): (nat, nat)
    requires period > 0
  {
    if m == 0 then (0, 0)
    else
      var before := PeriodRun(m - 1, packet, period);
      var step := PeriodStep(before.0, packet, period);
      (step.0, if step.1 then before.1 + 1 else before.1)
  }

  /** After m packets period_off is the bytes moved reduced by the period. */
  lemma {:induction false} PeriodRunOffset(m: nat, packet: nat, period: nat)
    requires period > 0
    ensures PeriodRun(m, packet, period).0 == (m * packet) % period
  {
    if m > 0 {
      PredecessorProduct(m, packet);
      PeriodRunOffset(m - 1, packet, period);
      PeriodStepTracksBytes((m - 1) * packet, packet, period);
    }
  }

  /** Packet m (counting from 1) reports exactly when the bytes moved passed a multiple of the period. */
  lemma PeriodRunStep(m: nat, packet: nat, period: nat)
    requires period > 0 && m > 0
    ensures PeriodRun(m, packet, period).1
      == PeriodRun(m - 1, packet, period).1 + if (m * packet) / period > ((m - 1) * packet) / period then 1 else 0
  {
    PredecessorProduct(m, packet);
    PeriodRunOffset(m - 1, packet, period);
    PeriodStepTracksBytes((m - 1) * packet, packet, period);
  }

  /**
   * The number of reports after m packets: with a period no shorter than
   * a packet they count the periods completed; with a shorter one every
   * packet reports once, however many periods it spans.
   */
  lemma PeriodRunReports(m: nat, packet: nat, period: nat)
    requires period > 0
    ensures packet <= period ==> PeriodRun(m, packet, period).1 == (m * packet) / period
    ensures packet >= period ==> PeriodRun(m, packet, period).1 == m
  {
    if packet <= period {
      ReportsCountPeriods(m, packet, period);
    }
    if packet >= period {
      ReportsEveryPacket(m, packet, period);
    }
  }

  lemma {:induction false} ReportsCountPeriods(m: nat, packet: nat, period: nat)
    requires 0 < period && packet <= period
    ensures PeriodRun(m, packet, period).1 == (m * packet) / period
  {
    if m > 0 {
      PeriodRunStep(m, packet, period);
      ReportsCountPeriods(m - 1, packet, period);
      PeriodCountStep(m, packet, period);
    }
  }

  /** A packet no longer than the period moves the completed-period count on by at most one. */
  lemma PeriodCountStep(m: nat, packet: nat, period: nat)
    requires 0 < period && packet <= period && m > 0
    ensures (m * packet) / period
      == ((m - 1) * packet) / period + if (m * packet) / period > ((m - 1) * packet) / period then 1 else 0
  {
    var c := (m - 1) * packet;
    PredecessorProduct(m, packet);
    DivStep(c, packet, period);
    BelowTwice(c % period + packet, period);
  }

  lemma {:induction false} ReportsEveryPacket(m: nat, packet: nat, period: nat)
    requires 0 < period <= packet
    ensures PeriodRun(m, packet, period).1 == m
  {
    if m > 0 {
      var c := (m - 1) * packet;
      PredecessorProduct(m, packet);
      PeriodRunStep(m, packet, period);
      ReportsEveryPacket(m - 1, packet, period);
      DivStep(c, packet, period);
      ReachesOnce(c % period + packet, period);
    }
  }

  lemma ReachesOnce(y: nat, p: nat)
    requires 0 < p <= y
    ensures y / p >= 1
  {
    DivStep(y - p, p, p);
  }

  lemma PredecessorProduct(m: nat, packet: nat)
    requires m > 0
    ensures (m - 1) * packet + packet == m * packet
  {
  }

  /** With a period no shorter than a packet, nothing is reported until the bytes reach one period. */
  lemma FirstReport(m: nat, packet: nat, period: nat)
    requires 0 < packet <= period
    ensures PeriodRun(m, packet, period).1 == 0 <==> m * packet < period
  {
    PeriodRunReports(m, packet, period);
    if m * packet < period {
      ModUnique(m * packet, 0, m * packet, period);
    } else {
      ReachesOnce(m * packet, period);
    }
  }

  /**
   * With 1024-frame periods the code reports a period at its second
   * 960-byte packet (80 frames), where a 24576-byte period first
   * completes at packet 26; every 128 packets (five whole periods) report
   * 120 times.
   */
  lemma PeriodInFramesReportsEarly(m: nat, k: nat)
    ensures PeriodRun(m, 960, 1024).1 == 0 <==> m <= 1
    ensures PeriodRun(m, 960, 1024 * BytesPerFrame).1 == 0 <==> m <= 25
    ensures PeriodRun(128 * k, 960, 1024).1 == 120 * k
    ensures PeriodRun(128 * k, 960, 1024 * BytesPerFrame).1 == 5 * k
  {
    assert 1024 * BytesPerFrame == 24576;
    FirstReport(m, 960, 1024);
    FirstReport(m, 960, 24576);
    PeriodRunReports(128 * k, 960, 1024);
    PeriodRunReports(128 * k, 960, 24576);
    ModUnique(128 * k * 960, 120 * k, 0, 1024);
    ModUnique(128 * k * 960, 5 * k, 0, 24576);
  }

  /**
   * At the smallest period the hardware table admits (1920 bytes, 80
   * frames) the code reports after every 960-byte packet, twice as often
   * as the ring completes periods.
   */
  lemma ShortestPeriodReportsEveryPacket(m: nat)
    ensures PeriodRun(m, 960, 80).1 == m
    ensures PeriodRun(m, 960, 80 * BytesPerFrame).1 == m / 2
  {
    assert 80 * BytesPerFrame == 1920;
    PeriodRunReports(m, 960, 80);
    PeriodRunReports(m, 960, 1920);
    assert (m * 960) / 1920 == m / 2 by {
      ModUnique(m * 960, m / 2, (m % 2) * 960, 1920);
    }
  }

  /**
   * With the period measured in bytes, m packets no larger than a period
   * report exactly the periods they complete, and packet m reports
   * exactly when it completes one.
   */
  lemma ReportsCompletedPeriods(periodFrames: nat, packet: nat, m: nat)
    requires periodFrames > 0 && packet <= periodFrames * BytesPerFrame
    ensures PeriodRun(m, packet, periodFrames * BytesPerFrame).1 == (m * packet) / (periodFrames * BytesPerFrame)
    ensures m > 0 ==> (PeriodRun(m, packet, periodFrames * BytesPerFrame).1 > PeriodRun(m - 1, packet, periodFrames * BytesPerFrame).1
                       <==> (m * packet) / (periodFrames * BytesPerFrame) > ((m - 1) * packet) / (periodFrames * BytesPerFrame))
  {
    PeriodRunReports(m, packet, periodFrames * BytesPerFrame);
    if m > 0 {
      PeriodRunStep(m, packet, periodFrames * BytesPerFrame);
    }
  }

  /** struct pcm_runtime: the stream state shared by both directions. */
  class Runtime {
    const playback: Substream
    const capture: Substream
    const chip: AlsaChip.Chip
    const globals: AlsaChip.Globals
    var panic: bool
    var state: State
    /** Index into AlsaChip.Rates, NoRate when none is chosen. */
    var rate: nat

    predicate Valid()
      reads this
    {
      playback != capture
    }

    /** xonedb4_pcm_init: a zeroed runtime whose stream is disabled. */
    constructor (chip: AlsaChip.Chip, globals: AlsaChip.Globals)
      ensures Valid() && !panic && state == Disabled && rate == 0
      ensures this.chip == chip && this.globals == globals
      ensures fresh(playback) && fresh(capture)
    {
      playback := new Substream();
      capture := new Substream();
      this.chip := chip;
      this.globals := globals;
      panic := false;
      state := Disabled;
      rate := 0;
    }

    /** xonedb4_pcm_get_substream: the slot of a direction, none for an unknown one. */
    function Sub(d: Direction): (s: Substream?)
      ensures d.Playback? ==> s == playback
      ensures d.Capture? ==> s == capture
      ensures d.UnknownDirection? <==> s == null
    {
      match d
      case Playback => playback
      case Capture => capture
      case UnknownDirection => null
    }

    /** xonedb4_pcm_stream_stop: any state but DISABLED passes STOPPING and ends DISABLED. */
    method StreamStop()
      modifies this`state
      ensures state == Disabled
    {
      if state != Disabled {
        state := Stopping;
        state := Disabled;
      }
    }

    /**
     * xonedb4_pcm_stream_start: only a disabled stream starts; it clears
     * the panic flag and passes STARTING to RUNNING. It always returns 0.
     */
    method StreamStart() returns (ret: int)
      modifies this`state, this`panic
      ensures ret == 0
      ensures old(state) == Disabled ==> state == Running && !panic
      ensures old(state) != Disabled ==> state == old(state) && panic == old(panic)
    {
      if state == Disabled {
        panic := false;
        state := Starting;
        state := Running;
      }
      ret := 0;
    }

    /**
     * xonedb4_pcm_set_rate: the chip's ALSA rate becomes the runtime's, and
     * the device is reset exactly when that differs from the rate it runs at.
     */
    method SetRate(resetResult: int) returns (ret: int)
      modifies chip`alsarate, globals`justresetting, globals`deviceResets
      ensures ret == 0 && chip.alsarate == rate
      ensures rate != chip.devicerate ==> globals.justresetting && globals.deviceResets == old(globals.deviceResets) + 1
      ensures rate == chip.devicerate ==> (globals.justresetting == old(globals.justresetting)
        && globals.deviceResets == old(globals.deviceResets))
    {
      chip.alsarate := rate;
      if chip.alsarate != chip.devicerate {
        var _ := globals.Reset(resetResult);
      }
      ret := 0;
    }

    /** The rate lookup of prepare: the index of `hz` in the table, NoRate when it is not there. */
    static method FindRate(hz: int) returns (index: nat)
      ensures index <= NoRate
      ensures index < NoRate ==> AlsaChip.Rates[index] == hz
      ensures index == NoRate <==> forall i :: 0 <= i < |AlsaChip.Rates| ==> AlsaChip.Rates[i] != hz
    {
      index := 0;
      while index < NoRate
        invariant index <= NoRate
        invariant forall i :: 0 <= i < index ==> AlsaChip.Rates[i] != hz
      {
        if hz == AlsaChip.Rates[index] {
          break;
        }
        index := index + 1;
      }
    }

    /**
     * xonedb4_pcm_prepare: -EPIPE after a panic, -ENODEV without a slot,
     * -EINVAL for a format other than S24_3LE. Otherwise the substream's
     * position restarts at 0; a disabled stream also looks up the rate
     * (-EINVAL when it is not one of the four), applies it and starts.
     */
    method Prepare(d: Direction, format: Format, hz: int, bufferBytes: nat, periodFrames: nat, resetResult: int)
      returns (ret: int)
      requires Valid() && 0 < periodFrames * BytesPerFrame <= bufferBytes && bufferBytes % BytesPerFrame == 0
      modifies Sub(d), this`rate, this`state, this`panic, chip`alsarate, globals`justresetting, globals`deviceResets
      ensures old(panic) ==> ret == -EPIPE && unchanged(this) && (Sub(d) != null ==> unchanged(Sub(d)))
      ensures !old(panic) && d.UnknownDirection? ==> ret == -ENODEV && unchanged(this)
      ensures !old(panic) && Sub(d) != null && format.OtherFormat? ==> ret == -EINVAL && unchanged(this) && unchanged(Sub(d))
      ensures !old(panic) && Sub(d) != null && format.S24_3LE? ==>
        Sub(d).Valid() && Sub(d).dmaOff == 0 && Sub(d).periodOff == 0 && Sub(d).consumed == 0
        && Sub(d).bufferBytes == bufferBytes && Sub(d).periodBytes == periodFrames * BytesPerFrame
        && Sub(d).instance == old(Sub(d).instance) && Sub(d).active == old(Sub(d).active)
      ensures !old(panic) && Sub(d) != null && format.S24_3LE? && old(state) != Disabled ==>
        ret == 0 && state == old(state) && rate == old(rate)
      ensures !old(panic) && Sub(d) != null && format.S24_3LE? && old(state) == Disabled ==>
        (ret == -EINVAL <==> !Supported(hz))
        && (ret == 0 <==> Supported(hz))
        && (!Supported(hz) ==> rate == NoRate && state == Disabled)
        && (Supported(hz) ==> rate < NoRate && AlsaChip.Rates[rate] == hz && chip.alsarate == rate
                              && state == Running && !panic)
    {
      if panic {
        return -EPIPE;
      }
      var sub := Sub(d);
      if sub == null {
        return -ENODEV;
      }
      if format != S24_3LE {
        return -EINVAL;
      }
      sub.dmaOff := 0;
      sub.periodOff := 0;
      sub.bufferBytes := bufferBytes;
      sub.periodBytes := periodFrames * BytesPerFrame;
      sub.consumed := 0;
      sub.reported := 0;
      ret := 0;
      if state == Disabled {
        rate := FindRate(hz);
        if rate == NoRate {
          assert AlsaChip.Rates[0] != hz && AlsaChip.Rates[1] != hz && AlsaChip.Rates[2] != hz && AlsaChip.Rates[3] != hz;
          return -EINVAL;
        }
        ret := SetRate(resetResult);
        ret := StreamStart();
      }
    }

    /**
     * xonedb4_pcm_trigger: -EPIPE after a panic, -ENODEV without a slot;
     * START and PAUSE_RELEASE activate the substream, STOP and PAUSE_PUSH
     * deactivate it, any other command is -EINVAL.
     */
    method Trigger(d: Direction, cmd: Command) returns (ret: int)
      modifies Sub(d)
      ensures panic ==> ret == -EPIPE && (Sub(d) != null ==> Sub(d).active == old(Sub(d).active))
      ensures Sub(d) != null ==> Sub(d).Cursor() == old(Sub(d).Cursor())
      ensures !panic && d.UnknownDirection? ==> ret == -ENODEV
      ensures !panic && Sub(d) != null ==>
        (ret == 0 <==> !cmd.OtherCommand?)
        && (cmd.OtherCommand? ==> ret == -EINVAL && Sub(d).active == old(Sub(d).active))
        && (cmd.TriggerStart? || cmd.PauseRelease? ==> Sub(d).active)
        && (cmd.TriggerStop? || cmd.PausePush? ==> !Sub(d).active)
    {
      if panic {
        return -EPIPE;
      }
      var sub := Sub(d);
      if sub == null {
        return -ENODEV;
      }
      match cmd
      case TriggerStart =>
        sub.active := true;
        ret := 0;
      case PauseRelease =>
        sub.active := true;
        ret := 0;
      case TriggerStop =>
        sub.active := false;
        ret := 0;
      case PausePush =>
        sub.active := false;
        ret := 0;
      case OtherCommand(_) =>
        ret := -EINVAL;
    }

    /**
     * xonedb4_pcm_pointer: an xrun after a panic or without a slot,
     * otherwise the DMA position in whole frames.
     */
    method Pointer(d: Direction) returns (pos: Position)
      requires Sub(d) != null ==> Sub(d).Valid()
      ensures panic || d.UnknownDirection? <==> pos.Xrun?
      ensures pos.Frames? ==> (pos.frames * BytesPerFrame == Sub(d).dmaOff
        && pos.frames < Sub(d).bufferBytes / BytesPerFrame)
    {
      var sub := Sub(d);
      if panic || sub == null {
        return Xrun;
      }
      sub.ValidAligned();
      pos := Frames(sub.dmaOff / BytesPerFrame);
    }

    /**
     * xonedb4_pcm_open: -EPIPE after a panic; the rate index is cleared to
     * "none", an unknown direction is -EINVAL, and the slot is attached
     * inactive.
     */
    method Open(d: Direction) returns (ret: int)
      modifies this`rate, Sub(d)
      ensures panic ==> ret == -EPIPE && rate == old(rate)
      ensures panic && Sub(d) != null ==> Sub(d).instance == old(Sub(d).instance) && Sub(d).active == old(Sub(d).active)
      ensures !panic ==> rate == NoRate
      ensures !panic && d.UnknownDirection? ==> ret == -EINVAL
      ensures !panic && Sub(d) != null ==> ret == 0 && Sub(d).instance && !Sub(d).active
      ensures Sub(d) != null ==> Sub(d).Cursor() == old(Sub(d).Cursor())
    {
      if panic {
        return -EPIPE;
      }
      rate := NoRate;
      var sub := Sub(d);
      if sub == null {
        return -EINVAL;
      }
      sub.instance := true;
      sub.active := false;
      ret := 0;
    }

    /**
     * xonedb4_pcm_close: nothing after a panic; otherwise the slot is
     * detached and deactivated, and once both slots are detached the
     * stream stops and the rate index is cleared. It always returns 0.
     */
    method Close(d: Direction) returns (ret: int)
      requires Valid()
      modifies this`state, this`rate, Sub(d)
      ensures ret == 0
      ensures panic ==> state == old(state) && rate == old(rate)
      ensures panic && Sub(d) != null ==> Sub(d).instance == old(Sub(d).instance) && Sub(d).active == old(Sub(d).active)
      ensures !panic && Sub(d) != null ==> !Sub(d).instance && !Sub(d).active
      ensures Sub(d) != null ==> Sub(d).Cursor() == old(Sub(d).Cursor())
      ensures !panic && Sub(d) != null && !playback.instance && !capture.instance ==>
        state == Disabled && rate == NoRate
      ensures !panic && (Sub(d) == null || playback.instance || capture.instance) ==>
        state == old(state) && rate == old(rate)
    {
      ret := 0;
      if panic {
        return;
      }
      var sub := Sub(d);
      if sub != null {
        sub.instance := false;
        sub.active := false;
        if !playback.instance && !capture.instance {
          StreamStop();
          rate := NoRate;
        }
      }
    }

    /** xonedb4_pcm_abort: the runtime panics and the stream stops. */
    method Abort()
      modifies this`panic, this`state
      ensures panic && state == Disabled
    {
      panic := true;
      StreamStop();
    }
  }
}
