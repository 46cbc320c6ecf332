/** What the three schemes share: a shadow slot at a fixed offset from each
    protected return slot, holding the return address shifted by a key. */
module ShadowStack {
  import opened Words
  import opened Memory

  /** A live protected frame: where its return slot is, and the return address
      that its prologue found there. */
  datatype Frame = Frame(slot: int, saved: int)

  /** Return slots of nested frames go down; the innermost frame is last. */
  predicate Nested(frames: seq<Frame>) {
    forall i, j :: 0 <= i < j < |frames| ==> frames[j].slot < frames[i].slot
  }

  /** Frame `f`'s shadow slot decodes to the return address its prologue saw. */
  predicate Decodes(m: Mem, offset: int, key: int, f: Frame) {
    f.slot + offset in m && m[f.slot + offset] == Wrap(f.saved + key)
  }

  predicate Holds(m: Mem, offset: int, key: int, frames: seq<Frame>) {
    forall i :: 0 <= i < |frames| ==> Decodes(m, offset, key, frames[i])
  }

  /** Every return slot is aligned and lies in [lo, hi). */
  predicate SlotsWithin(frames: seq<Frame>, lo: int, hi: int) {
    forall i :: 0 <= i < |frames| ==> lo <= frames[i].slot < hi && Aligned(frames[i].slot)
  }

  lemma SlotsWider(frames: seq<Frame>, lo: int, hi: int, lo': int, hi': int)
    requires SlotsWithin(frames, lo, hi) && lo' <= lo && hi <= hi'
    ensures SlotsWithin(frames, lo', hi')
  {
  }

  /** A prologue's store protects the new frame and disturbs no other. */
  lemma PushHolds(m: Mem, offset: int, key: int, frames: seq<Frame>, f: Frame)
    requires Holds(m, offset, key, frames) && Nested(frames + [f])
    ensures Holds(m[f.slot + offset := Wrap(f.saved + key)], offset, key, frames + [f])
  {
    forall i | 0 <= i < |frames|
      ensures Decodes(m[f.slot + offset := Wrap(f.saved + key)], offset, key, frames[i])
    {
      assert (frames + [f])[i] == frames[i] && (frames + [f])[|frames|] == f;
    }
  }

  /** Memory kept on the range of the shadow slots keeps every frame protected. */
  lemma KeptHolds(m: Mem, m': Mem, offset: int, key: int, frames: seq<Frame>, lo: int, hi: int)
    requires Holds(m, offset, key, frames) && SlotsWithin(frames, lo - offset, hi - offset)
    requires Kept(m, m', lo, hi)
    ensures Holds(m', offset, key, frames)
  {
  }

  /** Moving the region that contains the shadow slots, and the offset with it. */
  lemma MoveHolds(m: Mem, offset: int, key: int, frames: seq<Frame>, from: int, to: int, size: int)
    requires Aligned(from) && Aligned(to) && Aligned(offset)
    requires Holds(m, offset, key, frames) && SlotsWithin(frames, from - offset, from + size - offset)
    ensures Holds(Moved(m, from, to, size), offset + (to - from), key, frames)
  {
    forall i | 0 <= i < |frames|
      ensures Decodes(Moved(m, from, to, size), offset + (to - from), key, frames[i])
    {
      assert Decodes(m, offset, key, frames[i]);
      var a := frames[i].slot + offset + (to - from);
      assert to <= a < to + size && Aligned(a) && a - to + from in m;
    }
  }

  /** Adding `x` to the key and to a range that covers every shadow slot. */
  lemma ShiftHolds(m: Mem, offset: int, key: int, frames: seq<Frame>, lo: int, hi: int, x: int)
    requires Aligned(offset)
    requires Holds(m, offset, key, frames) && SlotsWithin(frames, lo - offset, hi - offset)
    ensures Holds(Shifted(m, lo, hi, x), offset, Wrap(key + x), frames)
  {
    hide Shifted, Wrap, Aligned;
    forall i | 0 <= i < |frames|
      ensures Decodes(Shifted(m, lo, hi, x), offset, Wrap(key + x), frames[i])
    {
      assert Decodes(m, offset, key, frames[i]);
      ShiftDecodes(m, offset, key, frames[i], lo, hi, x);
    }
  }

  lemma ShiftDecodes(m: Mem, offset: int, key: int, f: Frame, lo: int, hi: int, x: int)
    requires Aligned(offset) && Aligned(f.slot) && lo <= f.slot + offset < hi && Decodes(m, offset, key, f)
    ensures Decodes(Shifted(m, lo, hi, x), offset, Wrap(key + x), f)
  {
    AlignedSum(f.slot, offset);
    ShiftedWord(m, lo, hi, x, f.slot + offset);
    hide Shifted;
    WrapSum(f.saved + key, x);
    WrapSum(key + x, f.saved);
  }
}
