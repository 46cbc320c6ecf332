/** Every step of the GS_RSP process keeps its invariant. */
module GsSteps {
  import opened Words
  import opened Memory
  import opened ShadowStack
  import opened Templates
  import opened GsRsp
  import opened GsProcess
  import opened GsInvariant

  // -------------------------------------------- Calls, prologues and returns

  /** The frames once a prologue has run at `slot`. */
  lemma PushFrame(th: Thread, slot: int, saved: int)
    requires StackOk(th) && FramesOk(th) && CanProtect(th, slot) && Aligned(slot) && IsWord(saved)
    requires th.rsp == slot
    ensures FramesOk(th.(frames := th.frames + [Frame(slot, saved)]))
  {
    var frames := th.frames + [Frame(slot, saved)];
    var th' := th.(frames := frames);
    forall i | 0 <= i < |frames|
      ensures FrameOk(th', frames[i])
    {
      if i < |th.frames| {
        assert FrameOk(th, th.frames[i]);
      }
    }
    forall i, j | 0 <= i < j < |frames|
      ensures frames[j].slot < frames[i].slot
    {
      if j == |th.frames| && i < j - 1 {
        assert th.frames[j - 1].slot < th.frames[i].slot;
      }
    }
  }

  /** A prologue's store into the shadow slot protects the new frame and leaves the
      older frames and the metadata alone. */
  lemma PrologueThread(m: Mem, th: Thread)
    requires ThreadOk(m, th) && CanProtect(th, th.rsp) && th.rsp in m && IsWord(m[th.rsp])
    ensures ThreadOk(m[GsSlot(th.gs, th.rsp) := m[th.rsp]],
                     th.(frames := th.frames + [Frame(th.rsp, m[th.rsp])]))
  {
    var th' := th.(frames := th.frames + [Frame(th.rsp, m[th.rsp])]);
    PushFrame(th, th.rsp, m[th.rsp]);
    ProloguePushes(m, th, Frame(th.rsp, m[th.rsp]));
    SlotWriteKeepsPhase(m, th, GsSlot(th.gs, th.rsp), m[th.rsp]);
    assert PhaseOk(m[GsSlot(th.gs, th.rsp) := m[th.rsp]], th');
  }

  lemma ProloguePushes(m: Mem, th: Thread, f: Frame)
    requires Placed(th.base, th.rsp0) && th.gs == GsFor(th.base, th.rsp0) && InWindow(f.slot, th.rsp0)
    requires Holds(m, Offset(th.base, th.rsp0), 0, th.frames) && Nested(th.frames + [f]) && IsWord(f.saved)
    ensures Holds(m[GsSlot(th.gs, f.slot) := f.saved], Offset(th.base, th.rsp0), 0, th.frames + [f])
    ensures GsSlot(th.gs, f.slot) < Metadata(th.base)
  {
    SlotAddress(th.base, th.rsp0, f.slot);
    PushHolds(m, Offset(th.base, th.rsp0), 0, th.frames, f);
  }

  lemma SlotPlace(th: Thread, slot: int)
    requires StackOk(th) && th.gs == GsFor(th.base, th.rsp0) && InWindow(slot, th.rsp0) && Aligned(slot)
    ensures th.base <= GsSlot(th.gs, slot) < th.base + REGION_SIZE && Aligned(GsSlot(th.gs, slot))
  {
    SlotAddress(th.base, th.rsp0, slot);
    hide GsSlot, GsFor, Wrap;
    AlignedSum(th.base, INIT_OFFSET);
    AlignedSum(th.base + INIT_OFFSET, slot);
    AlignedSum(th.base + INIT_OFFSET + slot, th.rsp0);
  }

  lemma MappedAt(m: Mem, lo: int, hi: int, a: int)
    requires Mapped(m, lo, hi) && lo <= a < hi && Aligned(a)
    ensures a in m
  {
  }

  /** The slot that a prologue writes is a mapped word of its thread's region. */
  lemma PrologueWithin(m: Mem, th: Thread, slot: int, v: int)
    requires StackOk(th) && th.gs == GsFor(th.base, th.rsp0) && InWindow(slot, th.rsp0) && Aligned(slot)
    requires Mapped(m, th.base, th.base + REGION_SIZE)
    ensures th.base <= GsSlot(th.gs, slot) < th.base + REGION_SIZE && GsSlot(th.gs, slot) in m
    ensures NothingUnmapped(m, m[GsSlot(th.gs, slot) := v])
    ensures OnlyWithin(m, m[GsSlot(th.gs, slot) := v], th.base, th.base + REGION_SIZE)
  {
    hide GsFor, GsSlot, Mapped, StackOk, NothingUnmapped, OnlyWithin, InWindow;
    SlotPlace(th, slot);
    MappedAt(m, th.base, th.base + REGION_SIZE, GsSlot(th.gs, slot));
    WriteWithin(m, GsSlot(th.gs, slot), v, th.base, th.base + REGION_SIZE);
  }

  lemma SlotWriteKeepsPhase(m: Mem, th: Thread, a: int, v: int)
    requires MetadataMapped(m, th.base) && PhaseOk(m, th) && a < Metadata(th.base)
    ensures MetadataMapped(m[a := v], th.base) && PhaseOk(m[a := v], th)
  {
  }

  lemma PrologueKeeps(p: Process, t: nat)
    requires Inv(p) && t in p.threads && CanProtect(p.threads[t], p.threads[t].rsp)
    requires p.threads[t].rsp in p.mem && IsWord(p.mem[p.threads[t].rsp])
    ensures var th := p.threads[t];
            Inv(With(p, t, th.(frames := th.frames + [Frame(th.rsp, p.mem[th.rsp])]),
                     p.mem[GsSlot(th.gs, th.rsp) := p.mem[th.rsp]]))
  {
    var th := p.threads[t];
    LiveMapped(p, t);
    PrologueThread(p.mem, th);
    PrologueWithin(p.mem, th, th.rsp, p.mem[th.rsp]);
    OwnStep(p, t, th.(frames := th.frames + [Frame(th.rsp, p.mem[th.rsp])]),
            p.mem[GsSlot(th.gs, th.rsp) := p.mem[th.rsp]]);
  }

  lemma LiveMapped(p: Process, t: nat)
    requires RegionsOk(p) && t in p.threads
    ensures Mapped(p.mem, p.threads[t].base, p.threads[t].base + REGION_SIZE)
  {
    assert RegionMapped(p, Live(t));
  }

  lemma PushMapped(p: Process, t: nat)
    requires RegionsOk(p) && t in p.threads && StackOk(p.threads[t]) && p.threads[t].lo <= p.threads[t].rsp - 8
    ensures p.threads[t].rsp - 8 in p.mem
  {
    assert StackMapped(p, t);
  }

  /** Thread `t` acted, and wrote only words of its own call stack. */
  lemma StackStep(p: Process, t: nat, th: Thread, m: Mem)
    requires Inv(p) && t in p.threads && SameOwnership(p.threads[t], th)
    requires NothingUnmapped(p.mem, m) && OnlyWithin(p.mem, m, th.lo, th.hi)
    requires ThreadOk(p.mem, th)
    ensures Inv(With(p, t, th, m))
  {
    SameOwnershipEmbeds(p, t, th, m);
    SameRegions(p, With(p, t, th, m));
    forall u | u in p.threads
      ensures Kept(p.mem, m, p.threads[u].base, p.threads[u].base + REGION_SIZE)
    {
      StackOffRegion(p, t, u);
      ApartKept(p.mem, m, th.lo, th.hi, p.threads[u].base, p.threads[u].base + REGION_SIZE);
    }
    ThreadKept(p.mem, m, th);
    forall u | u in p.threads && u != t
      ensures ThreadOk(m, p.threads[u])
    {
      ThreadKept(p.mem, m, p.threads[u]);
    }
    ThreadsOk(p, t, th, m);
  }

  lemma StackOffRegion(p: Process, t: nat, u: nat)
    requires RegionsOk(p) && t in p.threads && u in p.threads
    ensures Apart(p.threads[t].lo, p.threads[t].hi, p.threads[u].base, p.threads[u].base + REGION_SIZE)
  {
    assert OffStack(p, t, Live(u));
  }

  /** A push below the live frames. */
  lemma CallThread(m: Mem, th: Thread)
    requires ThreadOk(m, th) && th.phase.Running? && th.lo <= th.rsp - 8
    ensures ThreadOk(m, th.(rsp := th.rsp - 8))
  {
    assert forall i :: 0 <= i < |th.frames| ==>
      FrameOk(th, th.frames[i]) ==> FrameOk(th.(rsp := th.rsp - 8), th.frames[i]);
  }

  lemma CallKeeps(p: Process, t: nat, ret: int)
    requires Inv(p) && t in p.threads && p.threads[t].phase.Running? && p.threads[t].lo <= p.threads[t].rsp - 8
    ensures var th := p.threads[t]; Inv(With(p, t, th.(rsp := th.rsp - 8), p.mem[th.rsp - 8 := ret]))
  {
    hide RegionsOk;
    var th := p.threads[t];
    CallThread(p.mem, th);
    PushMapped(p, t);
    CallWrites(p, t, th.(rsp := th.rsp - 8), p.mem[th.rsp - 8 := ret], th.rsp - 8, ret);
  }

  /** Thread `t` acted, and wrote one word of its own call stack. */
  lemma CallWrites(p: Process, t: nat, th: Thread, m: Mem, a: int, v: int)
    requires Inv(p) && t in p.threads && SameOwnership(p.threads[t], th) && ThreadOk(p.mem, th)
    requires a in p.mem && th.lo <= a < th.hi && m == p.mem[a := v]
    ensures Inv(With(p, t, th, m))
  {
    WriteWithin(p.mem, a, v, th.lo, th.hi);
    StackStep(p, t, th, m);
  }

  /** A redirected call is a plain call followed by the callee's prologue. */
  lemma RedirectedIsCallThenPrologue(p: Process, t: nat, ret: int)
    requires Inv(p) && Enabled(p, RedirectedCall(t, ret))
    ensures Enabled(p, Call(t, ret))
    ensures Enabled(After(p, Call(t, ret)), Prologue(t))
    ensures After(p, RedirectedCall(t, ret)) == After(After(p, Call(t, ret)), Prologue(t))
  {
    ShadowSlotOffStack(p, t);
    RedirectedSplits(p, t, ret);
  }

  lemma RedirectedSplits(p: Process, t: nat, ret: int)
    requires Enabled(p, RedirectedCall(t, ret))
    requires GsSlot(p.threads[t].gs, p.threads[t].rsp - 8) != p.threads[t].rsp - 8
    ensures Enabled(p, Call(t, ret))
    ensures Enabled(After(p, Call(t, ret)), Prologue(t))
    ensures After(p, RedirectedCall(t, ret)) == After(After(p, Call(t, ret)), Prologue(t))
  {
    var th := p.threads[t];
    var th1 := th.(rsp := th.rsp - 8);
    var m1 := p.mem[th.rsp - 8 := ret];
    assert After(p, Call(t, ret)) == With(p, t, th1, m1);
    assert CanProtect(th1, th1.rsp);
    ProloguedAfter(With(p, t, th1, m1), t);
    SwapWrites(p.mem, GsSlot(th1.gs, th1.rsp), th1.rsp, ret);
    With2(p, t, th1, m1, th1.(frames := th1.frames + [Frame(th1.rsp, ret)]), m1[GsSlot(th1.gs, th1.rsp) := ret]);
  }

  lemma ProloguedAfter(p: Process, t: nat)
    requires t in p.threads && CanProtect(p.threads[t], p.threads[t].rsp)
    requires p.threads[t].rsp in p.mem && IsWord(p.mem[p.threads[t].rsp])
    ensures Enabled(p, Prologue(t))
    ensures var th := p.threads[t];
            After(p, Prologue(t)) == With(p, t, th.(frames := th.frames + [Frame(th.rsp, p.mem[th.rsp])]),
                                          p.mem[GsSlot(th.gs, th.rsp) := p.mem[th.rsp]])
  {
  }

  /** The second of two replacements of one thread is the one that counts. */
  lemma With2(p: Process, t: nat, th1: Thread, m1: Mem, th2: Thread, m2: Mem)
    ensures With(With(p, t, th1, m1), t, th2, m2) == With(p, t, th2, m2)
  {
  }

  lemma SwapWrites(m: Mem, a: int, b: int, v: int)
    requires a != b
    ensures m[a := v][b := v] == m[b := v][a := v]
  {
  }

  /** The callee's shadow slot is not its return slot. */
  lemma ShadowSlotOffStack(p: Process, t: nat)
    requires RegionsOk(p) && t in p.threads && ThreadOk(p.mem, p.threads[t])
    requires CanProtect(p.threads[t], p.threads[t].rsp - 8)
    ensures GsSlot(p.threads[t].gs, p.threads[t].rsp - 8) != p.threads[t].rsp - 8
  {
    var th := p.threads[t];
    StackOffRegion(p, t, t);
    SlotAddress(th.base, th.rsp0, th.rsp - 8);
  }

  /** Dropping the innermost frames and moving rsp below those that remain. */
  lemma AdjustThread(m: Mem, th: Thread, keep: nat, rsp: int)
    requires ThreadOk(m, th) && th.phase.Running? && keep <= |th.frames|
    requires th.lo <= rsp <= Ceiling(th, keep) && Aligned(rsp)
    ensures ThreadOk(m, th.(rsp := rsp, frames := th.frames[..keep]))
  {
    var th' := th.(rsp := rsp, frames := th.frames[..keep]);
    forall i | 0 <= i < keep
      ensures FrameOk(th', th'.frames[i]) && Decodes(m, Offset(th.base, th.rsp0), 0, th'.frames[i])
    {
      assert FrameOk(th, th.frames[i]) && Decodes(m, Offset(th.base, th.rsp0), 0, th.frames[i]);
      assert i < keep - 1 ==> th.frames[keep - 1].slot < th.frames[i].slot;
    }
    if keep > 0 {
      assert FrameOk(th, th.frames[keep - 1]);
    }
  }

  lemma AdjustKeeps(p: Process, t: nat, keep: nat, rsp: int)
    requires Inv(p) && t in p.threads && p.threads[t].phase.Running? && keep <= |p.threads[t].frames|
    requires p.threads[t].lo <= rsp <= Ceiling(p.threads[t], keep) && Aligned(rsp)
    ensures var th := p.threads[t]; Inv(With(p, t, th.(rsp := rsp, frames := th.frames[..keep]), p.mem))
  {
    var th := p.threads[t];
    AdjustThread(p.mem, th, keep, rsp);
    OwnStep(p, t, th.(rsp := rsp, frames := th.frames[..keep]), p.mem);
  }

  /** The innermost frame's shadow slot is what the epilogue reads. */
  lemma EpilogueReads(m: Mem, th: Thread)
    requires ThreadOk(m, th) && th.phase.Running? && th.frames != []
    requires th.rsp == th.frames[|th.frames| - 1].slot
    ensures GsSlot(th.gs, th.rsp) in m
    ensures m[GsSlot(th.gs, th.rsp)] == th.frames[|th.frames| - 1].saved
  {
    var f := th.frames[|th.frames| - 1];
    assert FrameOk(th, f) && Decodes(m, Offset(th.base, th.rsp0), 0, f);
    SlotAddress(th.base, th.rsp0, th.rsp);
  }

  lemma EpilogueKeeps(p: Process, t: nat, trace: seq<int>)
    requires Inv(p) && t in p.threads && p.threads[t].phase.Running? && p.threads[t].frames != []
    requires p.threads[t].rsp == p.threads[t].frames[|p.threads[t].frames| - 1].slot
    ensures Inv(With(p, t, Returned(p.threads[t], trace), p.mem))
  {
    ReturnedThread(p.mem, p.threads[t], trace);
    OwnStep(p, t, Returned(p.threads[t], trace), p.mem);
  }

  /** A thread that has popped its innermost frame. */
  function Returned(th: Thread, trace: seq<int>): Thread
    requires th.frames != []
  {
    th.(rsp := th.rsp + 8, frames := th.frames[..|th.frames| - 1], trace := trace)
  }

  lemma ReturnedThread(m: Mem, th: Thread, trace: seq<int>)
    requires ThreadOk(m, th) && th.phase.Running? && th.frames != []
    requires th.rsp == th.frames[|th.frames| - 1].slot
    ensures ThreadOk(m, Returned(th, trace))
  {
    EpilogueRoom(th);
    AdjustThread(m, th, |th.frames| - 1, th.rsp + 8);
    var th' := th.(rsp := th.rsp + 8, frames := th.frames[..|th.frames| - 1]);
    assert FramesOk(Returned(th, trace)) == FramesOk(th');
  }

  /** Popping the return slot stays at or below the next live frame. */
  lemma EpilogueRoom(th: Thread)
    requires StackOk(th) && FramesOk(th) && th.frames != []
    requires th.rsp == th.frames[|th.frames| - 1].slot
    ensures th.rsp + 8 <= Ceiling(th, |th.frames| - 1)
  {
    var keep := |th.frames| - 1;
    assert FrameOk(th, th.frames[keep]);
    if keep > 0 {
      assert FrameOk(th, th.frames[keep - 1]);
      assert th.frames[keep].slot < th.frames[keep - 1].slot;
    }
  }

  /** Every word of every shadow region is kept. */
  ghost predicate RegionsKept(p: Process, m: Mem) {
    forall o :: Owns(p, o) ==> Kept(p.mem, m, BaseOf(p, o), BaseOf(p, o) + REGION_SIZE)
  }

  lemma EditKeepsRegions(p: Process, writes: Mem, unmaps: set<int>)
    requires CanEdit(p, writes, unmaps)
    ensures RegionsKept(p, Edited(p.mem, writes, unmaps))
  {
  }

  lemma EnvKeeps(p: Process, m: Mem)
    requires Inv(p) && RegionsKept(p, m)
    requires forall t :: t in p.threads ==> Mapped(m, p.threads[t].lo, p.threads[t].hi)
    ensures Inv(p.(mem := m))
  {
    hide ThreadOk;
    EnvRegions(p, m);
    forall t | t in p.threads
      ensures ThreadOk(m, p.threads[t])
    {
      assert Owns(p, Live(t));
      ThreadKept(p.mem, m, p.threads[t]);
    }
  }

  lemma EnvRegions(p: Process, m: Mem)
    requires RegionsOk(p) && RegionsKept(p, m)
    requires forall t :: t in p.threads ==> Mapped(m, p.threads[t].lo, p.threads[t].hi)
    ensures RegionsOk(p.(mem := m))
  {
    var p' := p.(mem := m);
    forall o | Owns(p', o)
      ensures Mapped(m, BaseOf(p', o), BaseOf(p', o) + REGION_SIZE)
    {
      assert Owns(p, o) && RegionMapped(p, o);
    }
    EmbeddedRegions(p, p', o => o);
  }

  // ------------------------------------------- Inside the runtime, own region only

  /** The runtime of a thread below rsp0 finds the thread's own metadata. */
  lemma FindsOwnRegion(m: Mem, th: Thread)
    requires ThreadOk(m, th) && th.gs == GsFor(th.base, th.rsp0) && th.rsp < th.rsp0
    ensures Found(th) == th.base
  {
    LookupIsExact(th.base, th.rsp0, th.rsp);
  }

  /** Flag and cycle count may be written without disturbing any frame. */
  lemma MetadataWriteKeepsFrames(m: Mem, th: Thread, a: int, v: int)
    requires StackOk(th) && FramesOk(th) && Holds(m, Offset(th.base, th.rsp0), 0, th.frames)
    requires Metadata(th.base) <= a
    ensures Holds(m[a := v], Offset(th.base, th.rsp0), 0, th.frames)
  {
    SlotsInRegion(th);
  }

  lemma EnterKeeps(p: Process, t: nat, now: int)
    requires Inv(p) && t in p.threads && p.threads[t].phase.Running? && p.threads[t].rsp < p.threads[t].rsp0
    ensures var th := p.threads[t];
            Inv(With(p, t, th.(phase := Searching(Metadata(th.base))), Entered(p.mem, th.base, now)))
  {
    var th := p.threads[t];
    EnterThread(p.mem, th, now);
    EnterWithin(p.mem, th.base, now);
    OwnStep(p, t, th.(phase := Searching(Metadata(th.base))), Entered(p.mem, th.base, now));
  }

  lemma EnterWithin(m: Mem, base: int, now: int)
    requires MetadataMapped(m, base)
    ensures NothingUnmapped(m, Entered(m, base, now))
    ensures OnlyWithin(m, Entered(m, base, now), base, base + REGION_SIZE)
  {
    WriteWithin2(m, Metadata(base) + IS_RANDOMIZING, 1, Metadata(base) + CPU_CYCLES, now, base, base + REGION_SIZE);
  }

  lemma EnterThread(m: Mem, th: Thread, now: int)
    requires ThreadOk(m, th) && th.phase.Running? && th.rsp < th.rsp0
    ensures ThreadOk(Entered(m, th.base, now), th.(phase := Searching(Metadata(th.base))))
  {
    var a, b := Metadata(th.base) + IS_RANDOMIZING, Metadata(th.base) + CPU_CYCLES;
    MetadataWriteKeepsFrames(m, th, a, 1);
    MetadataWriteKeepsFrames(m[a := 1], th, b, now);
  }

  lemma WriteWithin2(m: Mem, a: int, v: int, b: int, w: int, lo: int, hi: int)
    requires a in m && b in m && lo <= a < hi && lo <= b < hi
    ensures NothingUnmapped(m, m[a := v][b := w]) && OnlyWithin(m, m[a := v][b := w], lo, hi)
  {
  }

  /** Clearing the flag ends the call, with the GS base that the metadata record. */
  lemma LeaveKeeps(p: Process, t: nat, gs: int)
    requires Inv(p) && t in p.threads && !p.threads[t].phase.Holding?
    requires gs == GsFor(p.threads[t].base, p.threads[t].rsp0)
    ensures var th := p.threads[t]; Inv(With(p, t, th.(phase := Running, gs := gs), Left(p.mem, th.base)))
  {
    hide RegionsOk;
    var th := p.threads[t];
    LeaveThread(p.mem, th, gs);
    WriteWithin(p.mem, Metadata(th.base) + IS_RANDOMIZING, 0, th.base, th.base + REGION_SIZE);
    OwnStep(p, t, th.(phase := Running, gs := gs), Left(p.mem, th.base));
  }

  lemma LeaveThread(m: Mem, th: Thread, gs: int)
    requires ThreadOk(m, th) && gs == GsFor(th.base, th.rsp0)
    ensures ThreadOk(Left(m, th.base), th.(phase := Running, gs := gs))
  {
    MetadataWriteKeepsFrames(m, th, Metadata(th.base) + IS_RANDOMIZING, 0);
  }
}
