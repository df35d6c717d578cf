// The 1024-byte MIDI rings of the shared memory between the USB engines and
// the HAL plug-ins (midiOut: HAL writes, engine reads; midiIn: engine writes,
// HAL reads). Both indices are taken modulo the ring size with
// kMidiRingMask; the ring is empty when they are equal, and a checked
// producer keeps one slot free so that a full ring is never mistaken for an
// empty one.
module MidiRing {

  /** kMidiRingSize. */
  const RingSize: nat := 1024
  /** The most bytes a ring that keeps one slot free holds. */
  const Capacity: nat := RingSize - 1
  /** The MIDI/UART idle byte. */
  const Idle: bv8 := 0xFD

  type Index = i: nat | i < RingSize

  /** `(i + 1) & kMidiRingMask`. */
  function Next(i: Index): (r: Index)
    ensures i < RingSize - 1 ==> r == i + 1
    ensures i == RingSize - 1 ==> r == 0
  {
    (i + 1) % RingSize
  }

  /** The slot k places after r. */
  function At(r: Index, k: nat): Index
    requires k < RingSize
  {
    (r + k) % RingSize
  }

  /** The number of bytes between the read and the write index. */
  function Count(r: Index, w: Index): (n: nat)
    ensures n < RingSize
    ensures r <= w ==> n == w - r
    ensures w < r ==> n == w + RingSize - r
  {
    (w - r) % RingSize
  }

  /** The bytes a consumer at r would read before reaching w, oldest first. */
  function Pending(buf: seq<bv8>, r: Index, w: Index): (q: seq<bv8>)
    requires |buf| == RingSize
    ensures |q| == Count(r, w)
  {
    seq(Count(r, w), k requires 0 <= k < Count(r, w) => buf[At(r, k)])
  }

  /** Equal indices and only they mean an empty ring. */
  lemma EmptyIff(buf: seq<bv8>, r: Index, w: Index)
    requires |buf| == RingSize
    ensures Pending(buf, r, w) == [] <==> r == w
  {
    if r != w {
      assert |Pending(buf, r, w)| > 0;
    }
  }

  /** The ring is full, Capacity bytes, exactly when the slot after w is r. */
  lemma FullIff(buf: seq<bv8>, r: Index, w: Index)
    requires |buf| == RingSize
    ensures |Pending(buf, r, w)| == Capacity <==> Next(w) == r
  {
  }

  /** The write index is the slot just after the last pending byte. */
  lemma AtCount(r: Index, w: Index)
    ensures At(r, Count(r, w)) == w
  {
  }

  /** Distinct offsets below the ring size are distinct slots. */
  lemma AtInjective(r: Index, i: nat, j: nat)
    requires i < j < RingSize
    ensures At(r, i) != At(r, j)
  {
  }

  /** The byte at r is the oldest, and advancing r drops exactly it. */
  lemma PopFront(buf: seq<bv8>, r: Index, w: Index)
    requires |buf| == RingSize && r != w
    ensures Pending(buf, r, w) != [] && Pending(buf, r, w)[0] == buf[r]
    ensures Pending(buf, Next(r), w) == Pending(buf, r, w)[1..]
  {
    var p, q := Pending(buf, r, w), Pending(buf, Next(r), w);
    assert |q| == |p| - 1;
    forall k | 0 <= k < |q|
      ensures q[k] == p[k + 1]
    {
      assert At(Next(r), k) == At(r, k + 1);
    }
  }

  /** Storing b at w and advancing w appends b, unless the ring was full. */
  lemma PushBack(buf: seq<bv8>, r: Index, w: Index, b: bv8)
    requires |buf| == RingSize && Next(w) != r
    ensures Pending(buf[w := b], r, Next(w)) == Pending(buf, r, w) + [b]
  {
    var n := Count(r, w);
    var p, q := Pending(buf, r, w), Pending(buf[w := b], r, Next(w));
    assert |q| == n + 1;
    AtCount(r, w);
    forall k | 0 <= k < n
      ensures q[k] == p[k]
    {
      AtInjective(r, k, n);
    }
    assert q == p + [b];
  }

  /** The slot at w is not pending: writing it changes nothing a consumer reads. */
  lemma WriteSlotInvisible(buf: seq<bv8>, r: Index, w: Index, b: bv8)
    requires |buf| == RingSize
    ensures Pending(buf[w := b], r, w) == Pending(buf, r, w)
  {
    var n := Count(r, w);
    AtCount(r, w);
    forall k | 0 <= k < n
      ensures buf[w := b][At(r, k)] == buf[At(r, k)]
    {
      AtInjective(r, k, n);
    }
  }

  /** Advancing w past a full ring's last free slot makes all Capacity bytes unreadable. */
  lemma OverrunEmpties(buf: seq<bv8>, r: Index, w: Index, b: bv8)
    requires |buf| == RingSize && Next(w) == r
    ensures |Pending(buf, r, w)| == Capacity
    ensures Pending(buf[w := b], r, Next(w)) == []
  {
  }

  // ------------------------------------------------- batches of bytes

  function Min(a: nat, b: nat): nat
  {
    if a <= b then a else b
  }

  /**
   * The queue after offering each byte in turn to a checked producer: a
   * byte is appended while fewer than Capacity are queued, dropped otherwise.
   */
  function Admit(q: seq<bv8>, bytes: seq<bv8>): (r: seq<bv8>)
    ensures |q| <= |r| <= |q| + |bytes| && r[..|q|] == q
    ensures |q| <= Capacity ==> |r| <= Capacity
    decreases |bytes|
  {
    if bytes == [] then q
    else
      var p := Admit(q, bytes[..|bytes| - 1]);
      if |p| < Capacity then p + [bytes[|bytes| - 1]] else p
  }

  /** A checked producer keeps the longest prefix of the offered bytes that fits. */
  lemma {:induction false} AdmitPrefix(q: seq<bv8>, bytes: seq<bv8>)
    requires |q| <= Capacity
    ensures Admit(q, bytes) == q + bytes[..Min(|bytes|, Capacity - |q|)]
    decreases |bytes|
  {
    if bytes != [] {
      var n := |bytes|;
      AdmitPrefix(q, bytes[..n - 1]);
      assert bytes[..n - 1][..Min(n - 1, Capacity - |q|)] == bytes[..Min(n - 1, Capacity - |q|)];
      if n - 1 < Capacity - |q| {
        assert bytes[..n - 1] + [bytes[n - 1]] == bytes[..n];
      }
    }
  }

  /** Offering one more byte is one more step of Admit. */
  lemma AdmitSnoc(q: seq<bv8>, bytes: seq<bv8>, b: bv8)
    ensures Admit(q, bytes + [b]) == if |Admit(q, bytes)| < Capacity then Admit(q, bytes) + [b] else Admit(q, bytes)
  {
    assert (bytes + [b])[..|bytes|] == bytes;
  }

  /**
   * One step of a producer loop over a transfer: offering the filtered
   * transfer up to byte i + 1 is offering it up to byte i and then, unless
   * byte i is idle, byte i alone.
   */
  lemma AdmitNextByte(q: seq<bv8>, rx: seq<bv8>, i: nat)
    requires i < |rx|
    ensures Admit(q, NonIdle(rx[..i + 1]))
      == if rx[i] == Idle then Admit(q, NonIdle(rx[..i])) else Admit(Admit(q, NonIdle(rx[..i])), [rx[i]])
  {
    assert rx[..i + 1] == rx[..i] + [rx[i]];
    NonIdleSnoc(rx[..i], rx[i]);
    AdmitSnoc(q, NonIdle(rx[..i]), rx[i]);
    assert [rx[i]][..0] == [];
  }

  /**
   * The queue after an unchecked producer commits byte b: an idle byte
   * changes nothing, any other byte is appended, and on a full ring the
   * write index catches up with the read index, which empties the queue.
   */
  function Overrun(q: seq<bv8>, b: bv8): (r: seq<bv8>)
    ensures |q| <= Capacity ==> |r| <= Capacity
    ensures b != Idle ==> (r == [] <==> |q| >= Capacity)
  {
    if b == Idle then q else if |q| < Capacity then q + [b] else []
  }

  /**
   * Below capacity an unchecked commit is a checked one; on a full ring the
   * checked commit drops the new byte, while the unchecked one loses all
   * Capacity queued bytes.
   */
  lemma OverrunVersusAdmit(q: seq<bv8>, b: bv8)
    requires |q| <= Capacity && b != Idle
    ensures |q| < Capacity ==> Overrun(q, b) == Admit(q, [b])
    ensures |q| == Capacity ==> Admit(q, [b]) == q && Overrun(q, b) == [] && |q| - |Overrun(q, b)| == Capacity
  {
    assert [b][..0] == [];
  }

  /** The bytes of a USB MIDI transfer with the 0xFD idle bytes left out, in order. */
  function NonIdle(bytes: seq<bv8>): (r: seq<bv8>)
    ensures |r| <= |bytes|
    ensures forall k :: 0 <= k < |r| ==> r[k] != Idle
    decreases |bytes|
  {
    if bytes == [] then []
    else
      var p := NonIdle(bytes[..|bytes| - 1]);
      if bytes[|bytes| - 1] == Idle then p else p + [bytes[|bytes| - 1]]
  }

  /** Filtering one more byte is one more step of NonIdle. */
  lemma NonIdleSnoc(bytes: seq<bv8>, b: bv8)
    ensures NonIdle(bytes + [b]) == if b == Idle then NonIdle(bytes) else NonIdle(bytes) + [b]
  {
    assert (bytes + [b])[..|bytes|] == bytes;
  }

  /** A transfer without idle bytes passes the filter unchanged. */
  lemma {:induction false} NonIdleKeepsData(bytes: seq<bv8>)
    requires forall k :: 0 <= k < |bytes| ==> bytes[k] != Idle
    ensures NonIdle(bytes) == bytes
    decreases |bytes|
  {
    if bytes != [] {
      NonIdleKeepsData(bytes[..|bytes| - 1]);
      assert bytes[..|bytes| - 1] + [bytes[|bytes| - 1]] == bytes;
    }
  }

  /**
   * MidiRingBuffer: writeIndex, readIndex and the 1024 bytes, updated in
   * place by the one producer and the one consumer.
   */
  class Ring {
    var buffer: array<bv8>
    var readIndex: Index
    var writeIndex: Index

    predicate Valid()
      reads this
    {
      buffer.Length == RingSize
    }

    /** The queued bytes, oldest first. */
    function Contents(): (q: seq<bv8>)
      reads this, buffer
      requires Valid()
      ensures |q| <= Capacity
    {
      Pending(buffer[..], readIndex, writeIndex)
    }

    /**
     * The consumer step of every SubmitPCMout: the oldest byte, and the
     * read index one slot on; 0xFD from an empty ring, which is left as is.
     */
    method Pop() returns (b: bv8)
      requires Valid()
      modifies this`readIndex
      ensures Valid() && writeIndex == old(writeIndex)
      ensures old(Contents()) == [] ==> b == Idle && readIndex == old(readIndex)
      ensures old(Contents()) != [] ==>
        b == old(Contents())[0] && Contents() == old(Contents())[1..] && readIndex == Next(old(readIndex))
    {
      EmptyIff(buffer[..], readIndex, writeIndex);
      var r, w := readIndex, writeIndex;
      if r != w {
        b := buffer[r];
        readIndex := Next(r);
        PopFront(buffer[..], r, w);
      } else {
        b := Idle;
      }
    }

    /**
     * A checked producer step: if the slot after writeIndex is not
     * readIndex, b is stored and writeIndex advances; a full ring drops b.
     */
    method Push(b: bv8)
      requires Valid()
      modifies buffer, this`writeIndex
      ensures Valid() && readIndex == old(readIndex)
      ensures Contents() == Admit(old(Contents()), [b])
      ensures writeIndex != readIndex
    {
      var w, r := writeIndex, readIndex;
      var nextW := Next(w);
      FullIff(buffer[..], r, w);
      if nextW != r {
        PushBack(buffer[..], r, w, b);
        buffer[w] := b;
        writeIndex := nextW;
      }
    }

    /** A one-byte USB read into the slot at writeIndex: the queued bytes are unchanged. */
    method ReceiveAtWriteSlot(b: bv8)
      requires Valid()
      modifies buffer
      ensures Valid() && Contents() == old(Contents())
      ensures buffer[writeIndex] == b
    {
      WriteSlotInvisible(buffer[..], readIndex, writeIndex, b);
      buffer[writeIndex] := b;
    }

    /**
     * Commits the byte a USB read placed in the slot at writeIndex, with the
     * full check: a byte other than 0xFD is appended unless the ring is full.
     */
    method CommitChecked()
      requires Valid()
      modifies this`writeIndex
      ensures Valid() && readIndex == old(readIndex)
      ensures old(buffer[writeIndex]) == Idle ==> Contents() == old(Contents())
      ensures old(buffer[writeIndex]) != Idle ==> Contents() == Admit(old(Contents()), [old(buffer[writeIndex])])
    {
      var w := writeIndex;
      if buffer[w] != Idle {
        var nextW := Next(w);
        var r := readIndex;
        FullIff(buffer[..], r, w);
        if nextW != r {
          PushBack(buffer[..], r, w, buffer[w]);
          assert buffer[..][w := buffer[w]] == buffer[..];
          writeIndex := nextW;
        }
      }
    }

    /**
     * Commits the byte in slot wSlot without the full check: any byte other
     * than 0xFD moves writeIndex to the slot after wSlot, and on a full ring
     * that makes all queued bytes unreadable.
     */
    method CommitUnchecked(wSlot: Index)
      requires Valid()
      modifies this`writeIndex
      ensures Valid() && readIndex == old(readIndex)
      ensures old(buffer[wSlot]) == Idle ==> writeIndex == old(writeIndex)
      ensures old(buffer[wSlot]) != Idle ==> writeIndex == Next(wSlot)
      ensures old(writeIndex) == wSlot && old(buffer[wSlot]) != Idle && |old(Contents())| < Capacity ==>
        Contents() == old(Contents()) + [old(buffer[wSlot])]
      ensures old(writeIndex) == wSlot && old(buffer[wSlot]) != Idle && |old(Contents())| == Capacity ==>
        Contents() == []
      ensures old(writeIndex) == wSlot ==> Contents() == Overrun(old(Contents()), old(buffer[wSlot]))
    {
      FullIff(buffer[..], readIndex, wSlot);
      if buffer[wSlot] != Idle {
        if Next(wSlot) != readIndex {
          PushBack(buffer[..], readIndex, wSlot, buffer[wSlot]);
        } else {
          OverrunEmpties(buffer[..], readIndex, wSlot, buffer[wSlot]);
        }
        assert buffer[..][wSlot := buffer[wSlot]] == buffer[..];
        writeIndex := Next(wSlot);
      }
    }
  }
  // ------------------------------------------------ consumer into a packet

  /** The byte a consumer sends for queue q: the oldest byte, or 0xFD when q is empty. */
  function Head(q: seq<bv8>): bv8
  {
    if q == [] then Idle else q[0]
  }

  /** The queue after n consumer steps: each takes one byte while there is one. */
  function Drop(q: seq<bv8>, n: nat): (r: seq<bv8>)
    ensures n <= |q| ==> r == q[n..]
    ensures n >= |q| ==> r == []
  {
    if n <= |q| then q[n..] else []
  }

  /** One more consumer step takes the byte at position n, or 0xFD once the queue is used up. */
  lemma DropStep(q: seq<bv8>, n: nat)
    ensures Head(Drop(q, n)) == if n < |q| then q[n] else Idle
    ensures Drop(q, n + 1) == if Drop(q, n) == [] then [] else Drop(q, n)[1..]
  {
  }

  /**
   * The MIDI byte of an output packet: the ring's oldest byte, or 0xFD from
   * an empty ring, is written to buf[at] and nothing else in buf changes.
   */
  method PopToSlot(ring: Ring, buf: array<bv8>, at: nat)
    requires ring.Valid() && ring.buffer != buf && at < buf.Length
    modifies ring`readIndex, buf
    ensures ring.Valid() && ring.writeIndex == old(ring.writeIndex)
    ensures ring.Contents() == Drop(old(ring.Contents()), 1)
    ensures buf[..] == old(buf[..])[at := Head(old(ring.Contents()))]
  {
    var b := ring.Pop();
    buf[at] := b;
  }
}
