/** The invariant of the GS_RSP process, and why every step keeps it. */
module GsInvariant {
  import opened Words
  import opened Spa
  import opened Memory
  import opened ShadowStack
  import opened GsRsp
  import opened GsProcess

  // ------------------------------------------------------------- The invariant

  ghost predicate RegionMapped(p: Process, o: Owner)
    requires Owns(p, o)
  {
    Aligned(BaseOf(p, o)) && Mapped(p.mem, BaseOf(p, o), BaseOf(p, o) + REGION_SIZE)
  }

  predicate Disjoint(p: Process, o: Owner, o': Owner)
    requires Owns(p, o) && Owns(p, o')
  {
    Apart(BaseOf(p, o), BaseOf(p, o) + REGION_SIZE, BaseOf(p, o'), BaseOf(p, o') + REGION_SIZE)
  }

  predicate OffStack(p: Process, t: nat, o: Owner)
    requires t in p.threads && Owns(p, o)
  {
    Apart(p.threads[t].lo, p.threads[t].hi, BaseOf(p, o), BaseOf(p, o) + REGION_SIZE)
  }

  predicate StacksApart(p: Process, t: nat, t': nat)
    requires t in p.threads && t' in p.threads
  {
    Apart(p.threads[t].lo, p.threads[t].hi, p.threads[t'].lo, p.threads[t'].hi)
  }

  predicate StackMapped(p: Process, t: nat)
    requires t in p.threads
  {
    Mapped(p.mem, p.threads[t].lo, p.threads[t].hi)
  }

  /** Shadow regions, live or not, and call stacks are mapped and pairwise disjoint. */
  ghost predicate RegionsOk(p: Process) {
    && (forall o :: Owns(p, o) ==> RegionMapped(p, o))
    && (forall o, o' :: Owns(p, o) && Owns(p, o') && o != o' ==> Disjoint(p, o, o'))
    && (forall t, o :: t in p.threads && Owns(p, o) ==> OffStack(p, t, o))
    && (forall t, t' :: t in p.threads && t' in p.threads && t != t' ==> StacksApart(p, t, t'))
    && (forall t :: t in p.threads ==> StackMapped(p, t))
  }

  predicate StackOk(th: Thread) {
    && Placed(th.base, th.rsp0) && Aligned(th.lo) && Aligned(th.hi) && Aligned(th.rsp)
    && 2 * REGION_SIZE <= th.lo && th.rsp0 - CALL_STACK_SIZE <= th.lo <= th.rsp <= th.hi
    && th.lo < th.hi <= USER_SPACE_SIZE
  }

  predicate FrameOk(th: Thread, f: Frame) {
    && InWindow(f.slot, th.rsp0) && Aligned(f.slot) && IsWord(f.saved)
    && th.rsp <= f.slot && f.slot + 8 <= th.hi
  }

  predicate FramesOk(th: Thread) {
    Nested(th.frames) && forall i :: 0 <= i < |th.frames| ==> FrameOk(th, th.frames[i])
  }

  /** What the metadata and the GS base hold in each phase. */
  predicate PhaseOk(m: Mem, th: Thread)
    requires MetadataMapped(m, th.base)
  {
    && Recorded(m, th.base, th.base, GsFor(th.base, th.rsp0))
    && m[Metadata(th.base) + STATE] == FLASH_STACK_INITED
    && m[Metadata(th.base) + IS_RANDOMIZING] == (if th.phase.Running? then 0 else 1)
    && match th.phase
       case Running => th.gs == GsFor(th.base, th.rsp0)
       case Searching(meta) =>
         th.gs == GsFor(th.base, th.rsp0) && meta == Metadata(th.base) && th.rsp < th.rsp0
       case Holding(meta, addr) =>
         th.gs == GsFor(th.base, th.rsp0) && meta == Metadata(th.base) && th.rsp < th.rsp0 && 0 < addr
       case Remapped(diff, addr) =>
         addr == th.base && diff == GsFor(th.base, th.rsp0) && Placed(GsRegion(th), th.rsp0) && GsRegion(th) != th.base
  }

  /** The region that the GS base belongs to: the thread's own but between remap and switch,
      when it is the one just left. */
  function GsRegion(th: Thread): int {
    th.gs - GsFor(0, th.rsp0)
  }

  /** Every live protected frame's shadow slot holds the address its prologue saw. */
  predicate ThreadOk(m: Mem, th: Thread) {
    && StackOk(th) && FramesOk(th)
    && Holds(m, Offset(th.base, th.rsp0), 0, th.frames)
    && MetadataMapped(m, th.base) && PhaseOk(m, th)
  }

  ghost predicate Inv(p: Process) {
    RegionsOk(p) && forall t :: t in p.threads ==> ThreadOk(p.mem, p.threads[t])
  }

  // ------------------------------------------------------------ Frame reasoning

  /** A thread whose region is kept is as it was. */
  lemma ThreadKept(m: Mem, m': Mem, th: Thread)
    requires ThreadOk(m, th) && Kept(m, m', th.base, th.base + REGION_SIZE)
    ensures ThreadOk(m', th)
  {
    SlotsInRegion(th);
    KeptHolds(m, m', Offset(th.base, th.rsp0), 0, th.frames, th.base, th.base + REGION_SIZE);
  }

  lemma SlotsInRegion(th: Thread)
    requires StackOk(th) && FramesOk(th)
    ensures SlotsWithin(th.frames, th.base - Offset(th.base, th.rsp0),
                        Metadata(th.base) - Offset(th.base, th.rsp0))
  {
    forall i | 0 <= i < |th.frames|
      ensures th.base - Offset(th.base, th.rsp0) <= th.frames[i].slot
              < Metadata(th.base) - Offset(th.base, th.rsp0) && Aligned(th.frames[i].slot)
    {
      assert FrameOk(th, th.frames[i]);
    }
  }

  /** Regions and stacks of `p'` are regions and stacks of `p`, possibly of other owners. */
  ghost predicate Embeds(p: Process, p': Process, f: Owner -> Owner) {
    && (forall o :: Owns(p', o) ==> Owns(p, f(o)) && BaseOf(p', o) == BaseOf(p, f(o)))
    && (forall o, o' :: Owns(p', o) && Owns(p', o') && o != o' ==> f(o) != f(o'))
    && (forall t :: t in p'.threads ==>
          t in p.threads && p'.threads[t].lo == p.threads[t].lo && p'.threads[t].hi == p.threads[t].hi)
  }

  lemma EmbeddedRegions(p: Process, p': Process, f: Owner -> Owner)
    requires RegionsOk(p) && Embeds(p, p', f)
    requires forall o :: Owns(p', o) ==> Mapped(p'.mem, BaseOf(p', o), BaseOf(p', o) + REGION_SIZE)
    requires forall t :: t in p'.threads ==> StackMapped(p', t)
    ensures RegionsOk(p')
  {
    forall o | Owns(p', o)
      ensures RegionMapped(p', o)
    {
      assert RegionMapped(p, f(o));
    }
    forall o, o' | Owns(p', o) && Owns(p', o') && o != o'
      ensures Disjoint(p', o, o')
    {
      assert Disjoint(p, f(o), f(o'));
    }
    forall t, o | t in p'.threads && Owns(p', o)
      ensures OffStack(p', t, o)
    {
      assert OffStack(p, t, f(o));
    }
    forall t, t' | t in p'.threads && t' in p'.threads && t != t'
      ensures StacksApart(p', t, t')
    {
      assert StacksApart(p, t, t');
    }
  }

  /** Owners and stacks as before, and nothing unmapped. */
  lemma SameRegions(p: Process, p': Process)
    requires RegionsOk(p) && NothingUnmapped(p.mem, p'.mem) && Embeds(p, p', o => o)
    ensures RegionsOk(p')
  {
    forall o | Owns(p', o)
      ensures Mapped(p'.mem, BaseOf(p', o), BaseOf(p', o) + REGION_SIZE)
    {
      assert RegionMapped(p, o);
    }
    forall t | t in p'.threads
      ensures StackMapped(p', t)
    {
      assert StackMapped(p, t);
    }
    EmbeddedRegions(p, p', o => o);
  }

  /** Replacing a thread by one with the same stack, region and reservation. */
  predicate SameOwnership(th: Thread, th': Thread) {
    && th'.lo == th.lo && th'.hi == th.hi && th'.base == th.base
    && (th'.phase.Holding? ==> th.phase.Holding? && th'.phase.addr == th.phase.addr)
  }

  /** Whatever happens inside one region, a thread that lives in another is as it was. */
  lemma OthersKept(p: Process, o: Owner, m: Mem, u: nat)
    requires Inv(p) && Owns(p, o) && u in p.threads && o != Live(u)
    requires OnlyWithin(p.mem, m, BaseOf(p, o), BaseOf(p, o) + REGION_SIZE)
    ensures ThreadOk(m, p.threads[u])
  {
    DisjointOwners(p, o, Live(u));
    ApartKept(p.mem, m, BaseOf(p, o), BaseOf(p, o) + REGION_SIZE, p.threads[u].base, p.threads[u].base + REGION_SIZE);
    ThreadKept(p.mem, m, p.threads[u]);
  }

  lemma DisjointOwners(p: Process, o: Owner, o': Owner)
    requires RegionsOk(p) && Owns(p, o) && Owns(p, o') && o != o'
    ensures Apart(BaseOf(p, o), BaseOf(p, o) + REGION_SIZE, BaseOf(p, o'), BaseOf(p, o') + REGION_SIZE)
  {
    assert Disjoint(p, o, o');
  }

  /** Thread `t` acted, and wrote only words of its own region. */
  lemma OwnStep(p: Process, t: nat, th: Thread, m: Mem)
    requires Inv(p) && t in p.threads && SameOwnership(p.threads[t], th)
    requires NothingUnmapped(p.mem, m) && OnlyWithin(p.mem, m, th.base, th.base + REGION_SIZE)
    requires ThreadOk(m, th)
    ensures Inv(With(p, t, th, m))
  {
    SameOwnershipEmbeds(p, t, th, m);
    SameRegions(p, With(p, t, th, m));
    forall u | u in p.threads && u != t
      ensures ThreadOk(m, p.threads[u])
    {
      OthersKept(p, Live(t), m, u);
    }
    ThreadsOk(p, t, th, m);
  }

  lemma SameOwnershipEmbeds(p: Process, t: nat, th: Thread, m: Mem)
    requires t in p.threads && SameOwnership(p.threads[t], th)
    ensures Embeds(p, With(p, t, th, m), o => o)
  {
  }

  lemma ThreadsOk(p: Process, t: nat, th: Thread, m: Mem)
    requires ThreadOk(m, th) && forall u :: u in p.threads && u != t ==> ThreadOk(m, p.threads[u])
    ensures forall u :: u in With(p, t, th, m).threads ==> ThreadOk(m, With(p, t, th, m).threads[u])
  {
  }
}
