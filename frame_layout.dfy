// What a frame-writing loop leaves behind in a byte buffer: each frame it
// wrote sits at its offset, and every byte outside the written frames is as
// before.  The device I/O loops carry this as their invariant.
module FrameLayout {

  /** `frame` sits in `a` at byte offset `off`. */
  predicate FrameAt(a: seq<bv8>, off: int, frame: seq<bv8>)
  {
    0 <= off && off + |frame| <= |a| && a[off..off + |frame|] == frame
  }

  /** Byte `j` lies in none of the `w`-byte frames at `offs`. */
  predicate Outside(offs: seq<int>, w: int, j: int)
  {
    forall k :: 0 <= k < |offs| ==> j < offs[k] || offs[k] + w <= j
  }

  /**
   * `a` is `before` with the `w`-byte frames `frames[k]` written at `offs[k]`
   * and nothing else changed.
   */
  predicate Laid(a: seq<bv8>, before: seq<bv8>, offs: seq<int>, frames: seq<seq<bv8>>, w: int)
  {
    |a| == |before| && |offs| == |frames|
    && (forall k :: 0 <= k < |offs| ==> |frames[k]| == w && FrameAt(a, offs[k], frames[k]))
    && (forall j {:trigger Outside(offs, w, j)} :: 0 <= j < |a| && Outside(offs, w, j) ==> a[j] == before[j])
  }

  lemma LaidNothing(a: seq<bv8>, w: int)
    ensures Laid(a, a, [], [], w)
  {}

  /**
   * Writing one more frame keeps the layout, provided it lands either
   * exactly on an earlier frame with the same contents or clear of it.
   */
  lemma LaidStep(a: seq<bv8>, before: seq<bv8>, offs: seq<int>, frames: seq<seq<bv8>>, w: int,
                 o: int, f: seq<bv8>, a2: seq<bv8>)
    requires Laid(a, before, offs, frames, w)
    requires |f| == w && 0 <= o && o + w <= |a|
    requires a2 == a[..o] + f + a[o + w..]
    requires forall k :: 0 <= k < |offs| ==>
      (offs[k] == o && frames[k] == f) || offs[k] + w <= o || o + w <= offs[k]
    ensures Laid(a2, before, offs + [o], frames + [f], w)
  {
    var offs2, frames2 := offs + [o], frames + [f];
    assert |a2| == |a|;
    forall k | 0 <= k < |offs2|
      ensures |frames2[k]| == w && FrameAt(a2, offs2[k], frames2[k])
    {
      if k == |offs| {
        assert a2[o..o + w] == f;
      } else {
        assert FrameAt(a, offs[k], frames[k]);
        forall j | offs[k] <= j < offs[k] + w
          ensures a2[j] == a[j]
        {
          if offs[k] == o {
            assert a2[j] == f[j - o] == a[j];
          }
        }
        assert a2[offs[k]..offs[k] + w] == a[offs[k]..offs[k] + w];
      }
    }
    forall j | 0 <= j < |a2| && Outside(offs2, w, j)
      ensures a2[j] == before[j]
    {
      assert j < o || o + w <= j by {
        assert j < offs2[|offs|] || offs2[|offs|] + w <= j;
      }
      assert Outside(offs, w, j) by {
        forall k | 0 <= k < |offs| ensures j < offs[k] || offs[k] + w <= j {
          assert offs2[k] == offs[k];
        }
      }
    }
  }
}
