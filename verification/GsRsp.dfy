/** The GS_RSP runtime (gs.rsp.c): the shadow slot of `a` is gs + a - 2^47, the
    metadata sits inside the shadow region, and re-randomization moves the region. */
module GsRsp {
  import opened Words
  import opened Spa
  import opened Memory
  import opened Templates

  // ------------------------------------------------------------- Geometry

  /** REAL_SHADOW_STACK_SIZE, METADATA_OFFSET_ON_SHADOW_STACK, INIT_SHADOW_STACK_OFFSET. */
  const REGION_SIZE: int := CALL_STACK_SIZE + 2 * MB
  const METADATA_OFFSET: int := CALL_STACK_SIZE + MB + MB / 2
  const INIT_OFFSET: int := CALL_STACK_SIZE
  const MAX_GS_BASE_ADDR: int := 0x7FFF_FFFF_EFFF
  const MAX_MMAP_ATTEMPTS: int := 20
  const MAX_THREADS: int := 1024
  const CYCLES_AFTER_EXIT: int := CYCLES_PER_RANDOMIZATION * 1000

  /** Offsets in struct gs_rsp_metadata. */
  const SHADOW_STACK: int := 0
  const IS_RANDOMIZING: int := 8
  const CPU_CYCLES: int := 16
  const STATE: int := 24
  const DIFF: int := 32
  const RELAXING: int := 40

  function Metadata(base: int): int {
    base + METADATA_OFFSET
  }

  /** `diff`: the GS base of a thread that was initialised at `rsp0` and whose shadow
      region is now at `base`. */
  function GsFor(base: int, rsp0: int): int {
    base + INIT_OFFSET + USER_SPACE_SIZE - rsp0
  }

  /** How far a return slot is from its shadow slot. */
  function Offset(base: int, rsp0: int): int {
    base + INIT_OFFSET - rsp0
  }

  predicate StackAligned(base: int)
    ensures StackAligned(base) ==> Aligned(base)
  {
    base % CALL_STACK_SIZE == 0
  }

  /** Where a region may be: 8MB-aligned, and at least 20MB below `rsp0`. */
  predicate Placed(base: int, rsp0: int) {
    && 0 < base && StackAligned(base) && base + 2 * REGION_SIZE <= rsp0
    && rsp0 < USER_SPACE_SIZE && Aligned(rsp0)
  }

  /** Return slots whose shadow slots are in the region and off the metadata. */
  predicate InWindow(a: int, rsp0: int) {
    rsp0 - CALL_STACK_SIZE <= a <= rsp0 + (MB + MB / 2) - WORD_BYTES
  }

  /** The wrapped address that instrumented code uses is the expected slot of the
      thread's own region, and it never touches the metadata. */
  lemma SlotAddress(base: int, rsp0: int, a: int)
    requires Placed(base, rsp0) && InWindow(a, rsp0)
    ensures GsSlot(GsFor(base, rsp0), a) == base + INIT_OFFSET + (a - rsp0) == a + Offset(base, rsp0)
    ensures base <= GsSlot(GsFor(base, rsp0), a) <= Metadata(base) - WORD_BYTES
  {
  }

  /** The recorded GS base stays far inside what arch_prctl accepts. */
  lemma GsBaseInRange(base: int, rsp0: int)
    requires Placed(base, rsp0)
    ensures CALL_STACK_SIZE < GsFor(base, rsp0) <= USER_SPACE_SIZE - 12 * MB <= MAX_GS_BASE_ADDR
  {
  }

  /** get_gs_rsp_metadata_by_rsp: mask the shadow pointer. */
  function RegionByRsp(rsp: int, gs: int): int {
    AlignDown(Wrap(rsp + gs - USER_SPACE_SIZE), CALL_STACK_BITS)
  }

  lemma CallStackBits()
    ensures Pow2(CALL_STACK_BITS) == CALL_STACK_SIZE == LOW_8MB_MASK + 1
  {
    assert Pow2(8) == 256 && Pow2(7) == 128;
    Pow2Sum(8, 8);
    Pow2Sum(16, 7);
  }

  /** Masking finds the thread's own region exactly for the 8MB below `rsp0`. */
  lemma LookupIsExact(base: int, rsp0: int, rsp: int)
    requires Placed(base, rsp0) && 0 <= rsp < USER_SPACE_SIZE
    ensures RegionByRsp(rsp, GsFor(base, rsp0)) == base <==> rsp0 - CALL_STACK_SIZE <= rsp < rsp0
  {
    hide Pow2;
    CallStackBits();
    var ssp := base + INIT_OFFSET + (rsp - rsp0);
    if ssp >= 0 {
      assert Wrap(rsp + GsFor(base, rsp0) - USER_SPACE_SIZE) == ssp;
      DivUnique(ssp, CALL_STACK_SIZE, ssp / CALL_STACK_SIZE, ssp % CALL_STACK_SIZE);
    } else {
      assert Wrap(ssp) == ssp + WORD_SPAN;
    }
  }

  // -------------------------------------------------------- Thread regions

  /** All metadata words of the region at `base` are mapped. */
  predicate MetadataMapped(m: Mem, base: int) {
    var meta := Metadata(base);
    && meta + SHADOW_STACK in m && meta + IS_RANDOMIZING in m && meta + CPU_CYCLES in m
    && meta + STATE in m && meta + DIFF in m && meta + RELAXING in m
  }

  lemma MetadataIsMapped(m: Mem, base: int)
    requires Aligned(base) && Mapped(m, base, base + REGION_SIZE)
    ensures MetadataMapped(m, base)
  {
  }

  /** What the runtime keeps true of a thread's region between its calls. */
  predicate RegionOk(m: Mem, gs: int, base: int, rsp0: int) {
    && Placed(base, rsp0) && gs == GsFor(base, rsp0)
    && Mapped(m, base, base + REGION_SIZE) && MetadataMapped(m, base)
    && Recorded(m, base, base, gs)
  }

  /** The metadata at `base` records the region `shadow` and the GS base `diff`. */
  predicate Recorded(m: Mem, base: int, shadow: int, diff: int) {
    var meta := Metadata(base);
    && meta + SHADOW_STACK in m && m[meta + SHADOW_STACK] == shadow
    && meta + DIFF in m && m[meta + DIFF] == diff
  }

  /** The struct writes of init_metadata_on_shadow_stack. */
  function MetadataSet(m: Mem, base: int, diff: int): Mem {
    var meta := Metadata(base);
    m[meta + SHADOW_STACK := base][meta + IS_RANDOMIZING := 0][meta + CPU_CYCLES := 0]
     [meta + RELAXING := 0][meta + DIFF := diff]
  }

  /** A region whose metadata are written and marked ready by set_call_stack_info. */
  function Initialised(m: Mem, base: int, diff: int): Mem {
    MetadataSet(m, base, diff)[Metadata(base) + STATE := FLASH_STACK_INITED]
  }

  /** The runtime is initialised for this thread and not in the middle of a move. */
  predicate Ready(m: Mem, base: int)
    requires MetadataMapped(m, base)
  {
    m[Metadata(base) + STATE] == FLASH_STACK_INITED && m[Metadata(base) + IS_RANDOMIZING] == 0
  }

  /** Passing the gate at cycle `now`. */
  function Entered(m: Mem, base: int, now: int): Mem {
    m[Metadata(base) + IS_RANDOMIZING := 1][Metadata(base) + CPU_CYCLES := now]
  }

  /** Leaving: the flag in the metadata at `meta` is cleared. */
  function Cleared(m: Mem, meta: int): Mem {
    m[meta + IS_RANDOMIZING := 0]
  }

  function Left(m: Mem, base: int): Mem {
    Cleared(m, Metadata(base))
  }

  /** Recording the new place of the region in the metadata at `meta`, then moving the
      region at `shadow` there. */
  function Relocate(m: Mem, meta: int, shadow: int, to: int, diff: int): Mem {
    Moved(m[meta + SHADOW_STACK := to][meta + DIFF := diff], shadow, to, REGION_SIZE)
  }

  function Relocated(m: Mem, base: int, to: int, diff: int): Mem {
    Relocate(m, Metadata(base), base, to, diff)
  }

  /** An accepted reservation for a thread that runs at `rsp`. */
  predicate Acceptable(addr: int, rsp: int) {
    StackAligned(addr) && addr <= Wrap(rsp - 2 * REGION_SIZE)
  }

  /** A fresh region with initialised metadata is a thread's region. */
  lemma InitialisedOk(m: Mem, base: int, rsp0: int)
    requires Placed(base, rsp0) && Mapped(m, base, base + REGION_SIZE)
    ensures RegionOk(Initialised(m, base, GsFor(base, rsp0)), GsFor(base, rsp0), base, rsp0)
    ensures Ready(Initialised(m, base, GsFor(base, rsp0)), base)
    ensures Initialised(m, base, GsFor(base, rsp0))[Metadata(base) + CPU_CYCLES] == 0
    ensures Initialised(m, base, GsFor(base, rsp0))[Metadata(base) + RELAXING] == 0
    ensures MetadataMapped(m, base)
  {
    MetadataIsMapped(m, base);
  }

  /** Until then, on a fresh region, the thread is not ready. */
  lemma UnfinishedNotReady(m: Mem, base: int, diff: int)
    requires StackAligned(base)
    ensures MetadataMapped(MetadataSet(Zeroed(m, base, base + REGION_SIZE), base, diff), base)
    ensures !Ready(MetadataSet(Zeroed(m, base, base + REGION_SIZE), base, diff), base)
  {
    AlignedSum(base, METADATA_OFFSET + STATE);
    MetadataIsMapped(Zeroed(m, base, base + REGION_SIZE), base);
    assert Zeroed(m, base, base + REGION_SIZE)[Metadata(base) + STATE] == 0;
    hide Zeroed;
    SetKeepsState(Zeroed(m, base, base + REGION_SIZE), base, diff);
  }

  lemma SetKeepsState(m: Mem, base: int, diff: int)
    requires MetadataMapped(m, base)
    ensures MetadataMapped(MetadataSet(m, base, diff), base)
    ensures MetadataSet(m, base, diff)[Metadata(base) + STATE] == m[Metadata(base) + STATE]
  {
  }

  /** Moving the region carries its contents, and its metadata record the new place. */
  lemma RelocatedOk(m: Mem, base: int, to: int, rsp0: int)
    requires RegionOk(m, GsFor(base, rsp0), base, rsp0) && Placed(to, rsp0)
    ensures RegionOk(Relocated(m, base, to, GsFor(to, rsp0)), GsFor(to, rsp0), to, rsp0)
  {
    RelocatedMapped(m, base, to, GsFor(to, rsp0));
    MetadataIsMapped(Relocated(m, base, to, GsFor(to, rsp0)), to);
    RelocatedRecords(m, base, to, GsFor(to, rsp0));
  }

  lemma RelocatedMapped(m: Mem, base: int, to: int, diff: int)
    requires Aligned(base) && Aligned(to) && Mapped(m, base, base + REGION_SIZE)
    ensures Mapped(Relocated(m, base, to, diff), to, to + REGION_SIZE)
  {
    hide Moved;
    MovedMapped(m[Metadata(base) + SHADOW_STACK := to][Metadata(base) + DIFF := diff], base, to, REGION_SIZE);
  }

  lemma RelocatedRecords(m: Mem, base: int, to: int, diff: int)
    requires Aligned(base) && Aligned(to)
    ensures Recorded(Relocated(m, base, to, diff), to, to, diff)
  {
    hide Moved;
    var m1 := m[Metadata(base) + SHADOW_STACK := to][Metadata(base) + DIFF := diff];
    MovedWord(m1, base, to, REGION_SIZE, Metadata(base) + SHADOW_STACK);
    MovedWord(m1, base, to, REGION_SIZE, Metadata(base) + DIFF);
  }

  /** Nothing stays mapped at the old place, and all else but the new place is as it was. */
  lemma RelocatedElsewhere(m: Mem, base: int, to: int, diff: int, a: int)
    ensures base <= a < base + REGION_SIZE && !(to <= a < to + REGION_SIZE) ==> a !in Relocated(m, base, to, diff)
    ensures !(base <= a < base + REGION_SIZE) && !(to <= a < to + REGION_SIZE) ==>
              (a in Relocated(m, base, to, diff) <==> a in m)
              && (a in m ==> Relocated(m, base, to, diff)[a] == m[a])
  {
  }

  /** Every word of the region but the two recorded ones has the same value after the move. */
  lemma RelocatedContents(m: Mem, base: int, to: int, diff: int, a: int)
    requires Aligned(base) && Aligned(to) && Mapped(m, base, base + REGION_SIZE)
    requires base <= a < base + REGION_SIZE && Aligned(a)
    requires a != Metadata(base) + SHADOW_STACK && a != Metadata(base) + DIFF
    ensures a + (to - base) in Relocated(m, base, to, diff)
    ensures Relocated(m, base, to, diff)[a + (to - base)] == m[a]
  {
    var m1 := m[Metadata(base) + SHADOW_STACK := to][Metadata(base) + DIFF := diff];
    assert a in m1 && m1[a] == m[a];
    MovedWord(m1, base, to, REGION_SIZE, a);
  }
}
