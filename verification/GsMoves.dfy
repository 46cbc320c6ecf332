/** The steps of the GS_RSP process that map, unmap or move shadow regions. */
module GsMoves {
  import opened Spa
  import opened Memory
  import opened ShadowStack
  import opened GsRsp
  import opened GsRspRuntime
  import opened GsProcess
  import opened GsInvariant
  import opened GsSteps

  // ---------------------------------------------------------------- Unmapping

  /** Unmapping one region leaves a range apart from it mapped. */
  lemma DroppedMapped(m: Mem, lo: int, hi: int, lo': int, hi': int)
    requires Mapped(m, lo', hi') && Apart(lo, hi, lo', hi')
    ensures Mapped(Dropped(m, lo, hi), lo', hi')
  {
  }

  lemma DroppedWithin(m: Mem, lo: int, hi: int)
    ensures OnlyWithin(m, Dropped(m, lo, hi), lo, hi)
  {
  }

  /** The region of `o` is unmapped and `o` owns nothing any more. */
  lemma DropRegions(p: Process, p': Process, o: Owner)
    requires RegionsOk(p) && Owns(p, o) && !Owns(p', o) && Embeds(p, p', o => o)
    requires p'.mem == Dropped(p.mem, BaseOf(p, o), BaseOf(p, o) + REGION_SIZE)
    ensures RegionsOk(p')
  {
    forall o' | Owns(p', o')
      ensures Mapped(p'.mem, BaseOf(p', o'), BaseOf(p', o') + REGION_SIZE)
    {
      DisjointOwners(p, o, o');
      assert RegionMapped(p, o');
      DroppedMapped(p.mem, BaseOf(p, o), BaseOf(p, o) + REGION_SIZE, BaseOf(p, o'), BaseOf(p, o') + REGION_SIZE);
    }
    forall t | t in p'.threads
      ensures StackMapped(p', t)
    {
      assert OffStack(p, t, o) && StackMapped(p, t);
      DroppedMapped(p.mem, BaseOf(p, o), BaseOf(p, o) + REGION_SIZE, p.threads[t].lo, p.threads[t].hi);
    }
    EmbeddedRegions(p, p', o => o);
  }

  /** ... and every thread that lives elsewhere is as it was. */
  lemma DropThreads(p: Process, o: Owner)
    requires Inv(p) && Owns(p, o) && !o.Live?
    ensures forall u :: u in p.threads ==>
              ThreadOk(Dropped(p.mem, BaseOf(p, o), BaseOf(p, o) + REGION_SIZE), p.threads[u])
  {
    var m := Dropped(p.mem, BaseOf(p, o), BaseOf(p, o) + REGION_SIZE);
    DroppedWithin(p.mem, BaseOf(p, o), BaseOf(p, o) + REGION_SIZE);
    forall u | u in p.threads
      ensures ThreadOk(m, p.threads[u])
    {
      OthersKept(p, o, m, u);
    }
  }

  /** A holding thread gives its reservation back and goes on searching. */
  lemma RejectKeeps(p: Process, t: nat)
    requires Inv(p) && t in p.threads && p.threads[t].phase.Holding?
    ensures var th := p.threads[t];
            Inv(With(p, t, th.(phase := Searching(th.phase.meta)),
                     Dropped(p.mem, th.phase.addr, th.phase.addr + REGION_SIZE)))
  {
    var th := p.threads[t];
    var th' := th.(phase := Searching(th.phase.meta));
    var m := Dropped(p.mem, th.phase.addr, th.phase.addr + REGION_SIZE);
    SameOwnershipEmbeds(p, t, th', m);
    DropRegions(p, With(p, t, th', m), Held(t));
    DropThreads(p, Held(t));
    SearchOn(m, th);
    ThreadsOk(p, t, th', m);
  }

  lemma SearchOn(m: Mem, th: Thread)
    requires ThreadOk(m, th) && th.phase.Holding?
    ensures ThreadOk(m, th.(phase := Searching(th.phase.meta)))
  {
  }

  lemma HoldingFacts(m: Mem, th: Thread)
    requires ThreadOk(m, th) && th.phase.Holding?
    ensures th.gs == GsFor(th.base, th.rsp0) && th.phase.meta == Metadata(th.base)
    ensures th.rsp < th.rsp0 && 0 < th.phase.addr && 2 * REGION_SIZE <= th.rsp
  {
  }

  lemma AbandonKeeps(p: Process, t: nat)
    requires Inv(p) && t in p.threads && p.threads[t].phase.Holding?
    ensures Inv(Abandoned(p, t))
  {
    var th := p.threads[t];
    var p1 := With(p, t, th.(phase := Searching(th.phase.meta)),
                   Dropped(p.mem, th.phase.addr, th.phase.addr + REGION_SIZE));
    RejectKeeps(p, t);
    HoldingFacts(p.mem, th);
    LeaveKeeps(p1, t, th.gs);
    AbandonedIsRejectThenLeave(p, t);
  }

  lemma AbandonedIsRejectThenLeave(p: Process, t: nat)
    requires t in p.threads && p.threads[t].phase.Holding?
    requires p.threads[t].phase.meta == Metadata(p.threads[t].base)
    ensures var th := p.threads[t];
            var p1 := With(p, t, th.(phase := Searching(th.phase.meta)),
                           Dropped(p.mem, th.phase.addr, th.phase.addr + REGION_SIZE));
            Abandoned(p, t) == With(p1, t, p1.threads[t].(phase := Running, gs := th.gs), Left(p1.mem, th.base))
  {
  }

  lemma CleanKeeps(p: Process, i: nat)
    requires Inv(p) && i < |p.table| && p.table[i].valid
    ensures Inv(p.(table := p.table[i := p.table[i].(valid := false)],
                   mem := Dropped(p.mem, p.table[i].shadowStack, p.table[i].shadowStack + REGION_SIZE)))
  {
    hide Dropped;
    var p' := p.(table := p.table[i := p.table[i].(valid := false)],
                 mem := Dropped(p.mem, p.table[i].shadowStack, p.table[i].shadowStack + REGION_SIZE));
    DropRegions(p, p', Waiting(i));
    DropThreads(p, Waiting(i));
  }

  // ------------------------------------------------------------------ Mapping

  /** A fresh region is apart from everything that is mapped. */
  lemma FreshApart(p: Process, base: int, o: Owner)
    requires RegionsOk(p) && Owns(p, o) && Aligned(base) && Unmapped(p.mem, base, base + REGION_SIZE)
    ensures Apart(BaseOf(p, o), BaseOf(p, o) + REGION_SIZE, base, base + REGION_SIZE)
  {
    assert RegionMapped(p, o);
    FreshIsApart(p.mem, BaseOf(p, o), BaseOf(p, o) + REGION_SIZE, base, base + REGION_SIZE);
  }

  lemma FreshOffStack(p: Process, base: int, t: nat)
    requires RegionsOk(p) && t in p.threads && Aligned(base) && Unmapped(p.mem, base, base + REGION_SIZE)
    requires Aligned(p.threads[t].lo) && p.threads[t].lo < p.threads[t].hi
    ensures Apart(p.threads[t].lo, p.threads[t].hi, base, base + REGION_SIZE)
  {
    assert StackMapped(p, t);
    FreshIsApart(p.mem, p.threads[t].lo, p.threads[t].hi, base, base + REGION_SIZE);
  }

  /** A region mapped by a searching thread joins the others. */
  lemma MmapKeeps(p: Process, t: nat, addr: int)
    requires Inv(p) && t in p.threads && p.threads[t].phase.Searching?
    requires Aligned(addr) && 0 < addr && Unmapped(p.mem, addr, addr + REGION_SIZE)
    ensures var th := p.threads[t];
            Inv(With(p, t, th.(phase := Holding(th.phase.meta, addr)), Zeroed(p.mem, addr, addr + REGION_SIZE)))
  {
    var th := p.threads[t];
    var th' := th.(phase := Holding(th.phase.meta, addr));
    var m := Zeroed(p.mem, addr, addr + REGION_SIZE);
    MmapRegions(p, t, addr);
    ZeroedKeepsThreads(p, addr);
    HoldOn(m, th, addr);
    ThreadsOk(p, t, th', m);
  }

  lemma HoldOn(m: Mem, th: Thread, addr: int)
    requires ThreadOk(m, th) && th.phase.Searching? && 0 < addr
    ensures ThreadOk(m, th.(phase := Holding(th.phase.meta, addr)))
  {
  }

  lemma ZeroedKeeps(m: Mem, lo: int, hi: int, lo': int, hi': int)
    requires Unmapped(m, lo, hi)
    ensures Kept(m, Zeroed(m, lo, hi), lo', hi') && NothingUnmapped(m, Zeroed(m, lo, hi))
  {
  }

  lemma ZeroedKeepsThreads(p: Process, addr: int)
    requires Inv(p) && Unmapped(p.mem, addr, addr + REGION_SIZE)
    ensures forall u :: u in p.threads ==> ThreadOk(Zeroed(p.mem, addr, addr + REGION_SIZE), p.threads[u])
  {
    forall u | u in p.threads
      ensures ThreadOk(Zeroed(p.mem, addr, addr + REGION_SIZE), p.threads[u])
    {
      ZeroedKeeps(p.mem, addr, addr + REGION_SIZE, p.threads[u].base, p.threads[u].base + REGION_SIZE);
      ThreadKept(p.mem, Zeroed(p.mem, addr, addr + REGION_SIZE), p.threads[u]);
    }
  }

  /** One more owner, of a fresh region; everyone else as before. */
  ghost predicate Extends(p: Process, p': Process, o: Owner) {
    && Owns(p', o) && !Owns(p, o)
    && (forall o' :: Owns(p', o') && o' != o ==> Owns(p, o') && BaseOf(p', o') == BaseOf(p, o'))
  }

  lemma ExtendedRegions(p: Process, p': Process, o: Owner)
    requires RegionsOk(p) && Extends(p, p', o)
    requires Aligned(BaseOf(p', o)) && Unmapped(p.mem, BaseOf(p', o), BaseOf(p', o) + REGION_SIZE)
    requires Mapped(p'.mem, BaseOf(p', o), BaseOf(p', o) + REGION_SIZE) && NothingUnmapped(p.mem, p'.mem)
    ensures forall o' :: Owns(p', o') ==> RegionMapped(p', o')
    ensures forall o1, o2 :: Owns(p', o1) && Owns(p', o2) && o1 != o2 ==> Disjoint(p', o1, o2)
  {
    forall o' | Owns(p', o')
      ensures RegionMapped(p', o')
    {
      assert o' != o ==> RegionMapped(p, o');
    }
    forall o1, o2 | Owns(p', o1) && Owns(p', o2) && o1 != o2
      ensures Disjoint(p', o1, o2)
    {
      if o1 == o {
        FreshApart(p, BaseOf(p', o), o2);
      } else if o2 == o {
        FreshApart(p, BaseOf(p', o), o1);
      } else {
        assert Disjoint(p, o1, o2);
      }
    }
  }

  lemma MmapRegions(p: Process, t: nat, addr: int)
    requires Inv(p) && t in p.threads && p.threads[t].phase.Searching?
    requires Aligned(addr) && Unmapped(p.mem, addr, addr + REGION_SIZE)
    ensures var th := p.threads[t];
            RegionsOk(With(p, t, th.(phase := Holding(th.phase.meta, addr)),
                           Zeroed(p.mem, addr, addr + REGION_SIZE)))
  {
    var m := Zeroed(p.mem, addr, addr + REGION_SIZE);
    ZeroedKeeps(p.mem, addr, addr + REGION_SIZE, 0, 0);
    MmappedRegions(p, t, addr, m);
  }

  lemma MmappedRegions(p: Process, t: nat, addr: int, m: Mem)
    requires Inv(p) && t in p.threads && p.threads[t].phase.Searching?
    requires Aligned(addr) && Unmapped(p.mem, addr, addr + REGION_SIZE)
    requires NothingUnmapped(p.mem, m) && Mapped(m, addr, addr + REGION_SIZE)
    ensures RegionsOk(With(p, t, p.threads[t].(phase := Holding(p.threads[t].phase.meta, addr)), m))
  {
    HoldExtends(p, t, addr, m);
    ExtendedByHold(p, With(p, t, p.threads[t].(phase := Holding(p.threads[t].phase.meta, addr)), m), t);
  }

  lemma HoldExtends(p: Process, t: nat, addr: int, m: Mem)
    requires t in p.threads && p.threads[t].phase.Searching?
    ensures var p' := With(p, t, p.threads[t].(phase := Holding(p.threads[t].phase.meta, addr)), m);
            && Extends(p, p', Held(t)) && BaseOf(p', Held(t)) == addr
            && forall u :: u in p'.threads ==> u in p.threads && SameStack(p, p', u)
  {
  }

  lemma ExtendedByHold(p: Process, p': Process, t: nat)
    requires Inv(p) && Extends(p, p', Held(t)) && NothingUnmapped(p.mem, p'.mem)
    requires forall u :: u in p'.threads ==> u in p.threads && SameStack(p, p', u)
    requires Aligned(BaseOf(p', Held(t)))
    requires Unmapped(p.mem, BaseOf(p', Held(t)), BaseOf(p', Held(t)) + REGION_SIZE)
    requires Mapped(p'.mem, BaseOf(p', Held(t)), BaseOf(p', Held(t)) + REGION_SIZE)
    ensures RegionsOk(p')
  {
    ExtendedRegions(p, p', Held(t));
    ExtendedOffStack(p, p', Held(t));
    StacksAsBefore(p, p');
  }

  /** A fresh region is off every stack that is mapped. */
  lemma ExtendedOffStack(p: Process, p': Process, o: Owner)
    requires Inv(p) && Extends(p, p', o)
    requires Aligned(BaseOf(p', o)) && Unmapped(p.mem, BaseOf(p', o), BaseOf(p', o) + REGION_SIZE)
    ensures forall u, o' :: u in p.threads && u in p'.threads && SameStack(p, p', u) && Owns(p', o') ==>
              OffStack(p', u, o')
  {
    forall u, o' | u in p.threads && u in p'.threads && SameStack(p, p', u) && Owns(p', o')
      ensures OffStack(p', u, o')
    {
      if o' == o {
        StackShape(p, u);
        FreshOffStack(p, BaseOf(p', o), u);
      } else {
        assert OffStack(p, u, o');
      }
    }
  }

  predicate SameStack(p: Process, p': Process, u: nat)
    requires u in p.threads && u in p'.threads
  {
    p'.threads[u].lo == p.threads[u].lo && p'.threads[u].hi == p.threads[u].hi
  }

  lemma StacksAsBefore(p: Process, p': Process)
    requires RegionsOk(p) && NothingUnmapped(p.mem, p'.mem)
    requires forall u :: u in p'.threads ==>
               u in p.threads && SameStack(p, p', u)
    ensures forall u, u' :: u in p'.threads && u' in p'.threads && u != u' ==> StacksApart(p', u, u')
    ensures forall u :: u in p'.threads ==> StackMapped(p', u)
  {
    forall u, u' | u in p'.threads && u' in p'.threads && u != u'
      ensures StacksApart(p', u, u')
    {
      assert StacksApart(p, u, u');
    }
    forall u | u in p'.threads
      ensures StackMapped(p', u)
    {
      assert StackMapped(p, u);
    }
  }

  lemma StackShape(p: Process, u: nat)
    requires Inv(p) && u in p.threads
    ensures Aligned(p.threads[u].lo) && p.threads[u].lo < p.threads[u].hi
  {
    assert ThreadOk(p.mem, p.threads[u]);
  }

  // ----------------------------------------------------------------- Starting

  lemma StartKeeps(p: Process, t: nat, lo: int, hi: int, rsp0: int, base: int)
    requires Inv(p) && CanStart(p, t, lo, hi, rsp0, base)
    ensures Inv(With(p, t, Started(lo, hi, rsp0, base), StartMem(p.mem, rsp0, base)))
  {
    var m := StartMem(p.mem, rsp0, base);
    StartMemKeeps(p.mem, rsp0, base, 0, 0);
    StartRegions(p, t, lo, hi, rsp0, base);
    forall u | u in p.threads
      ensures ThreadOk(m, p.threads[u])
    {
      StartMemKeeps(p.mem, rsp0, base, p.threads[u].base, p.threads[u].base + REGION_SIZE);
      ThreadKept(p.mem, m, p.threads[u]);
    }
    StartedOk(p.mem, lo, hi, rsp0, base);
    ThreadsOk(p, t, Started(lo, hi, rsp0, base), m);
  }

  lemma StartedOk(m: Mem, lo: int, hi: int, rsp0: int, base: int)
    requires Aligned(lo) && Aligned(hi) && 2 * REGION_SIZE <= lo
    requires rsp0 - CALL_STACK_SIZE <= lo < rsp0 <= hi <= USER_SPACE_SIZE
    requires Placed(base, rsp0)
    ensures ThreadOk(StartMem(m, rsp0, base), Started(lo, hi, rsp0, base))
  {
    InitialisedOk(Zeroed(m, base, base + REGION_SIZE), base, rsp0);
  }

  /** Nothing that was mapped before the start has changed. */
  lemma StartMemKeeps(m: Mem, rsp0: int, base: int, lo: int, hi: int)
    requires Unmapped(m, base, base + REGION_SIZE) && Aligned(base)
    ensures Kept(m, StartMem(m, rsp0, base), lo, hi) && NothingUnmapped(m, StartMem(m, rsp0, base))
    ensures Mapped(StartMem(m, rsp0, base), base, base + REGION_SIZE)
  {
    var meta := Metadata(base);
    assert forall a :: a in m ==> !(base <= a < base + REGION_SIZE);
  }

  lemma StartRegions(p: Process, t: nat, lo: int, hi: int, rsp0: int, base: int)
    requires Inv(p) && CanStart(p, t, lo, hi, rsp0, base)
    ensures RegionsOk(With(p, t, Started(lo, hi, rsp0, base), StartMem(p.mem, rsp0, base)))
  {
    var p' := With(p, t, Started(lo, hi, rsp0, base), StartMem(p.mem, rsp0, base));
    StartMemKeeps(p.mem, rsp0, base, 0, 0);
    StartExtends(p, t, Started(lo, hi, rsp0, base), p'.mem);
    ExtendedRegions(p, p', Live(t));
    ExtendedOffStack(p, p', Live(t));
    StartOffStack(p, p', t);
    StartStacks(p, p', t);
  }

  lemma StartExtends(p: Process, t: nat, th: Thread, m: Mem)
    requires t !in p.threads && th.phase.Running?
    ensures Extends(p, With(p, t, th, m), Live(t))
  {
  }

  /** The new stack is off every region, the new one included. */
  lemma StartOffStack(p: Process, p': Process, t: nat)
    requires Extends(p, p', Live(t)) && p'.threads.Keys == p.threads.Keys + {t}
    requires StackFree(p, p'.threads[t].lo, p'.threads[t].hi)
    requires Mapped(p.mem, p'.threads[t].lo, p'.threads[t].hi) && p'.threads[t].lo < p'.threads[t].hi
    requires Aligned(p'.threads[t].lo) && Aligned(p'.threads[t].base)
    requires Unmapped(p.mem, p'.threads[t].base, p'.threads[t].base + REGION_SIZE)
    ensures forall o :: Owns(p', o) ==> OffStack(p', t, o)
  {
    forall o | Owns(p', o)
      ensures OffStack(p', t, o)
    {
      var th := p'.threads[t];
      if o == Live(t) {
        FreshIsApart(p.mem, th.lo, th.hi, th.base, th.base + REGION_SIZE);
      } else {
        assert Owns(p, o) && BaseOf(p', o) == BaseOf(p, o);
      }
    }
  }

  lemma StartStacks(p: Process, p': Process, t: nat)
    requires RegionsOk(p) && NothingUnmapped(p.mem, p'.mem) && t in p'.threads
    requires forall u :: u in p'.threads && u != t ==> u in p.threads && SameStack(p, p', u)
    requires StackFree(p, p'.threads[t].lo, p'.threads[t].hi)
    requires Mapped(p.mem, p'.threads[t].lo, p'.threads[t].hi)
    ensures forall u, u' :: u in p'.threads && u' in p'.threads && u != u' ==> StacksApart(p', u, u')
    ensures forall u :: u in p'.threads ==> StackMapped(p', u)
  {
    forall u, u' | u in p'.threads && u' in p'.threads && u != u'
      ensures StacksApart(p', u, u')
    {
      if u != t && u' != t {
        assert StacksApart(p, u, u');
      }
    }
    forall u | u in p'.threads
      ensures StackMapped(p', u)
    {
      if u != t {
        assert StackMapped(p, u);
      }
    }
  }

  // ------------------------------------------------------------------- Moving

  /** The thread once its region has been remapped onto its reservation. */
  function MovedThread(th: Thread): Thread
    requires th.phase.Holding?
  {
    Remapping(th, GsFor(th.phase.addr, th.rsp0))
  }

  function MovedMem(m: Mem, th: Thread): Mem
    requires th.phase.Holding?
  {
    Relocated(m, th.base, th.phase.addr, GsFor(th.phase.addr, th.rsp0))
  }

  /** The frames' shadow slots move with the region. */
  lemma MovedFrames(m: Mem, th: Thread)
    requires ThreadOk(m, th) && th.phase.Holding? && Aligned(th.phase.addr)
    ensures Holds(MovedMem(m, th), Offset(th.phase.addr, th.rsp0), 0, th.frames)
  {
    hide Moved;
    var to, diff := th.phase.addr, GsFor(th.phase.addr, th.rsp0);
    var m1 := m[Metadata(th.base) + SHADOW_STACK := to][Metadata(th.base) + DIFF := diff];
    RecordingKeepsFrames(m, th, to, diff);
    SlotsInRegion(th);
    SlotsWider(th.frames, th.base - Offset(th.base, th.rsp0), Metadata(th.base) - Offset(th.base, th.rsp0),
               th.base - Offset(th.base, th.rsp0), th.base + REGION_SIZE - Offset(th.base, th.rsp0));
    OffsetAligned(th.base, th.rsp0);
    MoveHolds(m1, Offset(th.base, th.rsp0), 0, th.frames, th.base, to, REGION_SIZE);
  }

  lemma RecordingKeepsFrames(m: Mem, th: Thread, to: int, diff: int)
    requires StackOk(th) && FramesOk(th) && Holds(m, Offset(th.base, th.rsp0), 0, th.frames)
    ensures Holds(m[Metadata(th.base) + SHADOW_STACK := to][Metadata(th.base) + DIFF := diff],
                  Offset(th.base, th.rsp0), 0, th.frames)
  {
    MetadataWriteKeepsFrames(m, th, Metadata(th.base) + SHADOW_STACK, to);
    MetadataWriteKeepsFrames(m[Metadata(th.base) + SHADOW_STACK := to], th, Metadata(th.base) + DIFF, diff);
  }

  lemma OffsetAligned(base: int, rsp0: int)
    requires Placed(base, rsp0)
    ensures Aligned(base) && Aligned(Offset(base, rsp0))
  {
    AlignedSum(base, INIT_OFFSET);
    AlignedSum(base + INIT_OFFSET, rsp0);
  }

  /** So do the words of the metadata. */
  lemma MovedMetadata(m: Mem, th: Thread)
    requires th.phase.Holding? && Aligned(th.base) && Aligned(th.phase.addr)
    requires Mapped(m, th.base, th.base + REGION_SIZE) && MetadataMapped(m, th.base)
    requires m[Metadata(th.base) + STATE] == FLASH_STACK_INITED && m[Metadata(th.base) + IS_RANDOMIZING] == 1
    requires Placed(GsRegion(th), th.rsp0) && GsRegion(th) != th.phase.addr
    ensures MetadataMapped(MovedMem(m, th), th.phase.addr) && PhaseOk(MovedMem(m, th), MovedThread(th))
  {
    hide Relocated;
    MetadataMoves(m, th.base, th.phase.addr, GsFor(th.phase.addr, th.rsp0));
    MovedPhase(MovedMem(m, th), MovedThread(th));
  }

  lemma MetadataMoves(m: Mem, base: int, to: int, diff: int)
    requires Aligned(base) && Aligned(to) && Mapped(m, base, base + REGION_SIZE) && MetadataMapped(m, base)
    ensures MetadataMapped(Relocated(m, base, to, diff), to)
    ensures Recorded(Relocated(m, base, to, diff), to, to, diff)
    ensures Relocated(m, base, to, diff)[Metadata(to) + STATE] == m[Metadata(base) + STATE]
    ensures Relocated(m, base, to, diff)[Metadata(to) + IS_RANDOMIZING] == m[Metadata(base) + IS_RANDOMIZING]
  {
    RelocatedIsMapped(m, base, to, diff);
    RelocatedRecords(m, base, to, diff);
    RelocatedState(m, base, to, diff);
    FlagMoves(m, base, to, diff);
  }

  lemma RelocatedIsMapped(m: Mem, base: int, to: int, diff: int)
    requires Aligned(base) && Aligned(to) && Mapped(m, base, base + REGION_SIZE)
    ensures MetadataMapped(Relocated(m, base, to, diff), to)
  {
    RelocatedMapped(m, base, to, diff);
    MetadataIsMapped(Relocated(m, base, to, diff), to);
  }

  lemma FlagMoves(m: Mem, base: int, to: int, diff: int)
    requires Aligned(base) && Aligned(to) && Mapped(m, base, base + REGION_SIZE) && MetadataMapped(m, base)
    ensures Metadata(to) + IS_RANDOMIZING in Relocated(m, base, to, diff)
    ensures Relocated(m, base, to, diff)[Metadata(to) + IS_RANDOMIZING] == m[Metadata(base) + IS_RANDOMIZING]
  {
    RelocatedContents(m, base, to, diff, Metadata(base) + IS_RANDOMIZING);
  }

  lemma MovedPhase(m: Mem, th: Thread)
    requires th.phase == Remapped(GsFor(th.base, th.rsp0), th.base)
    requires MetadataMapped(m, th.base) && Recorded(m, th.base, th.base, GsFor(th.base, th.rsp0))
    requires m[Metadata(th.base) + STATE] == FLASH_STACK_INITED && m[Metadata(th.base) + IS_RANDOMIZING] == 1
    requires Placed(GsRegion(th), th.rsp0) && GsRegion(th) != th.base
    ensures PhaseOk(m, th)
  {
  }

  lemma MovedOk(m: Mem, th: Thread)
    requires ThreadOk(m, th) && th.phase.Holding? && Acceptable(th.phase.addr, th.rsp)
    requires Mapped(m, th.base, th.base + REGION_SIZE) && th.base != th.phase.addr
    ensures ThreadOk(MovedMem(m, th), MovedThread(th))
  {
    hide MovedMem;
    HoldingFacts(m, th);
    AcceptedIsPlaced(th.phase.addr, th.rsp, th.rsp0);
    MovedFrames(m, th);
    MovedMetadata(m, th);
    MovedShape(th);
  }

  lemma MovedShape(th: Thread)
    requires StackOk(th) && FramesOk(th) && th.phase.Holding? && Placed(th.phase.addr, th.rsp0)
    ensures StackOk(MovedThread(th)) && FramesOk(MovedThread(th))
  {
    assert forall i :: 0 <= i < |th.frames| ==> FrameOk(th, th.frames[i]) ==> FrameOk(MovedThread(th), th.frames[i]);
  }

  /** Only the mover's two regions change, so every other region is kept. */
  lemma MoveKeepsOthers(p: Process, t: nat, lo: int, hi: int)
    requires t in p.threads && p.threads[t].phase.Holding?
    requires Apart(p.threads[t].base, p.threads[t].base + REGION_SIZE, lo, hi)
    requires Apart(p.threads[t].phase.addr, p.threads[t].phase.addr + REGION_SIZE, lo, hi)
    ensures Kept(p.mem, MovedMem(p.mem, p.threads[t]), lo, hi)
  {
    hide Moved;
    var th := p.threads[t];
    var a, b, diff := Metadata(th.base) + SHADOW_STACK, Metadata(th.base) + DIFF, GsFor(th.phase.addr, th.rsp0);
    MovedKeeps(p.mem[a := th.phase.addr][b := diff], th.base, th.phase.addr, REGION_SIZE, lo, hi);
  }

  lemma MoveKeepsRegion(p: Process, t: nat, o: Owner)
    requires RegionsOk(p) && t in p.threads && p.threads[t].phase.Holding? && Owns(p, o)
    requires o != Live(t) && o != Held(t)
    ensures Kept(p.mem, MovedMem(p.mem, p.threads[t]), BaseOf(p, o), BaseOf(p, o) + REGION_SIZE)
  {
    DisjointOwners(p, Live(t), o);
    DisjointOwners(p, Held(t), o);
    MoveKeepsOthers(p, t, BaseOf(p, o), BaseOf(p, o) + REGION_SIZE);
  }

  lemma MoveKeepsStack(p: Process, t: nat, u: nat)
    requires RegionsOk(p) && t in p.threads && p.threads[t].phase.Holding? && u in p.threads
    ensures Kept(p.mem, MovedMem(p.mem, p.threads[t]), p.threads[u].lo, p.threads[u].hi)
  {
    assert OffStack(p, u, Live(t)) && OffStack(p, u, Held(t));
    MoveKeepsOthers(p, t, p.threads[u].lo, p.threads[u].hi);
  }

  lemma RemapKeeps(p: Process, t: nat)
    requires Inv(p) && t in p.threads && p.threads[t].phase.Holding?
    requires Acceptable(p.threads[t].phase.addr, p.threads[t].rsp)
    ensures var th := p.threads[t];
            Inv(RemapAt(p, t, Metadata(th.base), th.base, GsFor(th.phase.addr, th.rsp0)))
  {
    var th, m := p.threads[t], MovedMem(p.mem, p.threads[t]);
    LiveMapped(p, t);
    DisjointOwners(p, Live(t), Held(t));
    MovedOk(p.mem, th);
    RemapRegions(p, t);
    forall u | u in p.threads && u != t
      ensures ThreadOk(m, p.threads[u])
    {
      MoveKeepsRegion(p, t, Live(u));
      ThreadKept(p.mem, m, p.threads[u]);
    }
    ThreadsOk(p, t, MovedThread(th), m);
  }

  lemma RemapRegions(p: Process, t: nat)
    requires RegionsOk(p) && t in p.threads && p.threads[t].phase.Holding?
    ensures RegionsOk(With(p, t, MovedThread(p.threads[t]), MovedMem(p.mem, p.threads[t])))
  {
    var m := MovedMem(p.mem, p.threads[t]);
    forall o | Owns(p, o) && o != Live(t)
      ensures Mapped(m, BaseOf(p, o), BaseOf(p, o) + REGION_SIZE)
    {
      RemapMapped(p, t, o);
    }
    forall u | u in p.threads
      ensures Kept(p.mem, m, p.threads[u].lo, p.threads[u].hi)
    {
      MoveKeepsStack(p, t, u);
    }
    KeptStacks(p, m);
    RemapEmbeds(p, t, m);
    RemappedRegions(p, t, m);
  }

  lemma RemappedRegions(p: Process, t: nat, m: Mem)
    requires RegionsOk(p) && t in p.threads && p.threads[t].phase.Holding?
    requires forall o :: Owns(p, o) && o != Live(t) ==> Mapped(m, BaseOf(p, o), BaseOf(p, o) + REGION_SIZE)
    requires forall u :: u in p.threads ==> Mapped(m, p.threads[u].lo, p.threads[u].hi)
    requires Embeds(p, With(p, t, MovedThread(p.threads[t]), m), (o: Owner) => if o == Live(t) then Held(t) else o)
    ensures RegionsOk(With(p, t, MovedThread(p.threads[t]), m))
  {
    EmbeddedRegions(p, With(p, t, MovedThread(p.threads[t]), m), (o: Owner) => if o == Live(t) then Held(t) else o);
  }

  lemma KeptStacks(p: Process, m: Mem)
    requires RegionsOk(p)
    requires forall u :: u in p.threads ==> Kept(p.mem, m, p.threads[u].lo, p.threads[u].hi)
    ensures forall u :: u in p.threads ==> Mapped(m, p.threads[u].lo, p.threads[u].hi)
  {
    forall u | u in p.threads
      ensures Mapped(m, p.threads[u].lo, p.threads[u].hi)
    {
      assert StackMapped(p, u);
    }
  }

  /** Every region but the one left behind is mapped, the reservation included. */
  lemma RemapMapped(p: Process, t: nat, o: Owner)
    requires RegionsOk(p) && t in p.threads && p.threads[t].phase.Holding? && Owns(p, o) && o != Live(t)
    ensures Mapped(MovedMem(p.mem, p.threads[t]), BaseOf(p, o), BaseOf(p, o) + REGION_SIZE)
  {
    if o == Held(t) {
      RemapTargetMapped(p, t);
    } else {
      RemapOthersMapped(p, t, o);
    }
  }

  lemma RemapEmbeds(p: Process, t: nat, m: Mem)
    requires t in p.threads && p.threads[t].phase.Holding?
    ensures Embeds(p, With(p, t, MovedThread(p.threads[t]), m), (o: Owner) => if o == Live(t) then Held(t) else o)
  {
  }

  lemma RemapTargetMapped(p: Process, t: nat)
    requires RegionsOk(p) && t in p.threads && p.threads[t].phase.Holding?
    ensures var addr := p.threads[t].phase.addr;
            Mapped(MovedMem(p.mem, p.threads[t]), addr, addr + REGION_SIZE)
  {
    var th := p.threads[t];
    assert RegionMapped(p, Live(t)) && RegionMapped(p, Held(t));
    RelocatedMapped(p.mem, th.base, th.phase.addr, GsFor(th.phase.addr, th.rsp0));
  }

  lemma RemapOthersMapped(p: Process, t: nat, o: Owner)
    requires RegionsOk(p) && t in p.threads && p.threads[t].phase.Holding? && Owns(p, o)
    requires o != Live(t) && o != Held(t)
    ensures Mapped(MovedMem(p.mem, p.threads[t]), BaseOf(p, o), BaseOf(p, o) + REGION_SIZE)
  {
    assert RegionMapped(p, o);
    MoveKeepsRegion(p, t, o);
  }

  // ------------------------------------------------------------------ Exiting

  /** Release: the thread's region passes to the table, or is lost when the table is full. */
  function Released(p: Process, t: nat, shadow: int, now: int): Process {
    p.(threads := p.threads - {t}, table := Queued(p.table, shadow, now),
       leaked := if FirstFree(p.table) == |p.table| then p.leaked + [shadow] else p.leaked)
  }

  /** The exiting thread's region has an heir; every other region keeps its owner. */
  lemma ExitEmbeds(p: Process, t: nat, now: int, heir: Owner)
    requires t in p.threads
    requires heir == if FirstFree(p.table) == |p.table| then Lost(|p.leaked|) else Waiting(FirstFree(p.table))
    ensures Embeds(p, Released(p, t, p.threads[t].base, now), (o: Owner) => if o == heir then Live(t) else o)
  {
  }

  lemma ExitKeeps(p: Process, t: nat, now: int)
    requires Inv(p) && t in p.threads
    ensures Inv(Released(p, t, p.threads[t].base, now))
  {
    var p' := Released(p, t, p.threads[t].base, now);
    var heir := if FirstFree(p.table) == |p.table| then Lost(|p.leaked|) else Waiting(FirstFree(p.table));
    var f := (o: Owner) => if o == heir then Live(t) else o;
    ExitEmbeds(p, t, now, heir);
    SameMemoryRegions(p, p', f);
  }

  lemma SameMemoryRegions(p: Process, p': Process, f: Owner -> Owner)
    requires RegionsOk(p) && Embeds(p, p', f) && p'.mem == p.mem
    ensures RegionsOk(p')
  {
    forall o | Owns(p', o)
      ensures Mapped(p.mem, BaseOf(p', o), BaseOf(p', o) + REGION_SIZE)
    {
      assert RegionMapped(p, f(o));
    }
    forall u | u in p'.threads
      ensures StackMapped(p', u)
    {
      assert StackMapped(p, u);
    }
    EmbeddedRegions(p, p', f);
  }
}
