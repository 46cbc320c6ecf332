/** The functions of gs.rsp.c, one thread's calls at a time. */
module GsRspRuntime {
  import opened Words
  import opened Spa
  import opened Memory
  import opened GsRsp
  import opened RateGate

  /** struct ThreadRegionInfo: a released region waiting to be unmapped. */
  datatype RegionInfo = RegionInfo(valid: bool, shadowStack: int, expiredTime: int)

  /** The number of the first free entry, or |table|. */
  function FirstFree(table: seq<RegionInfo>): (i: nat)
    ensures i <= |table|
    ensures forall j :: 0 <= j < i ==> table[j].valid
    ensures i < |table| ==> !table[i].valid
  {
    if table == [] || !table[0].valid then 0 else 1 + FirstFree(table[1..])
  }

  /** add_memory_region: the first free entry is taken; a full table drops the region. */
  function Queued(table: seq<RegionInfo>, shadowStack: int, now: int): seq<RegionInfo> {
    if FirstFree(table) == |table| then table
    else table[FirstFree(table) := RegionInfo(true, shadowStack, now)]
  }

  /** An entry that the cleaner may unmap when the cycle counter reads `now`. */
  predicate Expired(e: RegionInfo, now: int) {
    e.valid && Wrap(now - e.expiredTime) > CYCLES_AFTER_EXIT
  }

  /** Memory after the regions of the first `n` entries that `after` retired are unmapped. */
  function Swept(m: Mem, before: seq<RegionInfo>, after: seq<RegionInfo>, n: nat): Mem
    requires n <= |before| == |after|
  {
    if n == 0 then m
    else
      var m1 := Swept(m, before, after, n - 1);
      var e := before[n - 1];
      if e.valid && !after[n - 1].valid then Dropped(m1, e.shadowStack, e.shadowStack + REGION_SIZE) else m1
  }

  /** How get_memory_at_random counts an allocation that took `tries` calls of mmap. */
  function Counted(stats: seq<int>, tries: int, init: bool): seq<int>
    requires |stats| == MAX_MMAP_ATTEMPTS + 1 && 0 <= tries
  {
    if tries >= MAX_MMAP_ATTEMPTS then stats[MAX_MMAP_ATTEMPTS := stats[MAX_MMAP_ATTEMPTS] + 1]
    else if init then stats
    else stats[tries := stats[tries] + 1]
  }

  class Runtime {
    const space: AddressSpace
    /** The GS base of the calling thread, and its gs_rsp_flash_stack_inited flag. */
    var gs: int
    var inited: bool
    /** thread_info and gsrsp_total_attempts. */
    const threadInfo: array<RegionInfo>
    const totalAttempts: array<int>
    var totalFailRandCnt: int
    var totalRandCnt: int

    ghost predicate Valid()
      reads this
    {
      threadInfo.Length == MAX_THREADS && totalAttempts.Length == MAX_MMAP_ATTEMPTS + 1
    }

    constructor (space: AddressSpace)
      ensures Valid() && this.space == space && gs == 0 && !inited
      ensures fresh(threadInfo) && fresh(totalAttempts)
      ensures threadInfo.Length == 1024 && forall i :: 0 <= i < MAX_THREADS ==> !threadInfo[i].valid
    {
      this.space := space;
      gs, inited := 0, false;
      threadInfo := new RegionInfo[MAX_THREADS](_ => RegionInfo(false, 0, 0));
      totalAttempts := new int[MAX_MMAP_ATTEMPTS + 1](_ => 0);
      totalFailRandCnt, totalRandCnt := 0, 0;
    }

    /** arch_prctl(ARCH_SET_GS, value) fails only above the largest user GS base. */
    method ArchPrctlSetGs(value: int) returns (ok: bool)
      modifies this`gs
      ensures ok ==> gs == value
      ensures !ok ==> gs == old(gs) && value > MAX_GS_BASE_ADDR
    {
      ok := *;
      if value <= MAX_GS_BASE_ADDR {
        ok := true;
      }
      if ok {
        gs := value;
      }
    }

    /** get_memory_at_random: at most 21 calls of mmap, each with a random hint; a range
        that is misaligned or too high is given back before the next try. */
    method GetMemoryAtRandom(rsp: int, init: bool) returns (ok: bool, addr: int)
      requires Valid() && IsWord(rsp)
      modifies space, totalAttempts
      ensures old(space.mmapCalls) <= space.mmapCalls <= old(space.mmapCalls) + 21
      ensures !ok ==> space.mmapCalls == old(space.mmapCalls) + 21
      ensures totalAttempts[..]
           == Counted(old(totalAttempts[..]), space.mmapCalls - old(space.mmapCalls), init)
      ensures ok ==> Acceptable(addr, rsp) && 0 < addr && addr + REGION_SIZE <= USER_SPACE_SIZE
      ensures ok ==> Unmapped(old(space.mem), addr, addr + REGION_SIZE)
      ensures space.mem == if ok then Zeroed(old(space.mem), addr, addr + REGION_SIZE) else old(space.mem)
    {
      ok, addr := false, 0;
      var i := 0;
      var adjustedRsp := Wrap(rsp - 2 * REGION_SIZE);
      while !ok
        invariant 0 <= i <= MAX_MMAP_ATTEMPTS + 1
        invariant space.mmapCalls == old(space.mmapCalls) + i
        invariant totalAttempts[..] == old(totalAttempts[..])
        invariant ok ==> Acceptable(addr, rsp) && 0 < addr && addr + REGION_SIZE <= USER_SPACE_SIZE
        invariant ok ==> Unmapped(old(space.mem), addr, addr + REGION_SIZE)
        invariant space.mem == if ok then Zeroed(old(space.mem), addr, addr + REGION_SIZE) else old(space.mem)
        decreases MAX_MMAP_ATTEMPTS + 1 - i
      {
        var random: int := *;
        var hint := Wrap(random) % MAX_SHADOW_STACK_ADDR;
        if adjustedRsp > 0 {
          hint := hint % adjustedRsp;
        }
        hint := BitAnd(hint, RAND_ADDR_MASK);
        if i > MAX_MMAP_ATTEMPTS {
          break;
        }
        ok, addr := space.Mmap(hint, REGION_SIZE);
        if ok {
          LowBitsAligned(addr);
          if BitAnd(addr, LOW_8MB_MASK) != 0 || addr > adjustedRsp {
            DropUndoesZeroed(old(space.mem), addr, addr + REGION_SIZE);
            space.Munmap(addr, REGION_SIZE);
            ok := false;
          }
        }
        i := i + 1;
      }
      if i < MAX_MMAP_ATTEMPTS {
        if !init {
          totalAttempts[i] := totalAttempts[i] + 1;
        }
      } else {
        totalAttempts[MAX_MMAP_ATTEMPTS] := totalAttempts[MAX_MMAP_ATTEMPTS] + 1;
      }
    }

    /** do_init_shadow_stack at `rsp`. The source allocates until it succeeds; `rounds`
        bounds how often it is tried here. */
    method DoInitShadowStack(rsp: int, rounds: nat) returns (ok: bool, base: int)
      requires Valid() && Aligned(rsp) && 2 * REGION_SIZE < rsp < USER_SPACE_SIZE
      modifies this`gs, space, totalAttempts
      ensures ok ==> Placed(base, rsp) && Unmapped(old(space.mem), base, base + REGION_SIZE)
      ensures ok ==> gs == GsFor(base, rsp) && RegionOk(space.mem, gs, base, rsp) && Ready(space.mem, base)
      ensures ok ==>
                space.mem == Initialised(Zeroed(old(space.mem), base, base + REGION_SIZE), base, GsFor(base, rsp))
      ensures !ok ==> gs == old(gs) && space.mem == old(space.mem)
    {
      hide Metadata;
      ok, base := false, 0;
      var round := 0;
      while !ok && round < rounds
        invariant gs == old(gs)
        invariant !ok ==> space.mem == old(space.mem)
        invariant ok ==> Placed(base, rsp) && Unmapped(old(space.mem), base, base + REGION_SIZE)
        invariant ok ==> space.mem == Zeroed(old(space.mem), base, base + REGION_SIZE)
        decreases rounds - round
      {
        ok, base := GetMemoryAtRandom(rsp, true);
        round := round + 1;
      }
      if ok {
        var diff := base + INIT_OFFSET + USER_SPACE_SIZE - rsp;
        InitialisedOk(space.mem, base, rsp);
        InitMetadataOnShadowStack(base, diff);
        GsBaseInRange(base, rsp);
        var accepted := ArchPrctlSetGs(diff);
        space.Store(Metadata(base) + STATE, FLASH_STACK_INITED);
      }
    }

    /** init_metadata_on_shadow_stack. */
    method InitMetadataOnShadowStack(base: int, diff: int)
      requires MetadataMapped(space.mem, base)
      modifies space`mem
      ensures space.mem == MetadataSet(old(space.mem), base, diff)
      ensures MetadataMapped(space.mem, base)
    {
      var meta := Metadata(base);
      space.Store(meta + SHADOW_STACK, base);
      space.Store(meta + IS_RANDOMIZING, 0);
      space.Store(meta + CPU_CYCLES, 0);
      space.Store(meta + RELAXING, 0);
      space.Store(meta + DIFF, diff);
    }

    /** gs_rsp_runtime_rerandomize, called at `rsp` with the cycle counter at `now`. The
        region of the calling thread is at `base`, and it was initialised at `rsp0`.

        Either nothing changes; or the attempt is recorded and nothing else changes; or
        contents, GS base, recorded base and recorded diff are all translated to `to`. */
    method RuntimeRerandomize(rsp: int, now: int, ghost base: int, ghost rsp0: int)
        returns (ghost attempted: bool, ghost to: int)
      requires Valid() && IsWord(now)
      requires RegionOk(space.mem, gs, base, rsp0) && rsp0 - CALL_STACK_SIZE <= rsp < rsp0 && 2 * REGION_SIZE <= rsp
      modifies this`gs, this`totalFailRandCnt, this`totalRandCnt, space, totalAttempts
      ensures attempted ==>
                inited && Ready(old(space.mem), base)
                && PeriodElapsed(old(space.mem)[Metadata(base) + CPU_CYCLES], now)
      ensures !attempted ==> space.mem == old(space.mem) && gs == old(gs) && to == base
      ensures attempted && to == base ==>
                gs == old(gs) && space.mem == old(space.mem)[Metadata(base) + CPU_CYCLES := now]
      ensures attempted && to != base ==>
                && Placed(to, rsp0) && gs == old(gs) + (to - base)
                && Unmapped(old(space.mem), to, to + REGION_SIZE)
                && space.mem == Left(Relocated(Entered(old(space.mem), base, now), base, to, gs), to)
      ensures RegionOk(space.mem, gs, to, rsp0)
      ensures attempted ==> Ready(space.mem, to)
    {
      hide RegionByRsp;
      attempted, to := false, base;
      if !inited {
        return;
      }
      var readable, meta := GetMetadataByRsp(rsp, base, rsp0);
      if !readable {
        return;
      }
      var passed := PassGate(meta, now, base);
      if !passed {
        return;
      }
      attempted := true;
      EnteredOk(old(space.mem), base, rsp0, now);
      to := MoveAndLeave(rsp, meta, base, rsp0);
      if to != base {
        EnteredKeys(old(space.mem), base, now, to);
      }
    }

    /** The rest of gs_rsp_runtime_rerandomize, with its common exit. */
    method MoveAndLeave(rsp: int, meta: int, ghost base: int, ghost rsp0: int) returns (ghost to: int)
      requires Valid() && meta == Metadata(base)
      requires RegionOk(space.mem, gs, base, rsp0) && 2 * REGION_SIZE <= rsp < rsp0
      requires space.mem[meta + STATE] == FLASH_STACK_INITED
      modifies this`gs, this`totalFailRandCnt, this`totalRandCnt, space, totalAttempts
      ensures totalRandCnt == old(totalRandCnt) + 1
      ensures to == base ==> gs == old(gs) && space.mem == Left(old(space.mem), base)
      ensures to != base ==>
                && Placed(to, rsp0) && gs == GsFor(to, rsp0)
                && Unmapped(old(space.mem), to, to + REGION_SIZE)
                && space.mem == Left(Relocated(old(space.mem), base, to, gs), to)
      ensures RegionOk(space.mem, gs, to, rsp0) && Ready(space.mem, to)
    {
      hide Moved;
      var meta';
      meta', to := TryMove(rsp, meta, base, rsp0);
      ghost var moved := space.mem;
      assert gs == GsFor(to, rsp0) && Placed(to, rsp0);
      space.Store(meta' + IS_RANDOMIZING, 0);
      totalRandCnt := totalRandCnt + 1;
      LeaveCompletes(old(space.mem), base, to, rsp0);
      assert space.mem == Left(moved, to);
    }

    /** get_gs_rsp_metadata_by_rsp; reading the GS base may fail. */
    method GetMetadataByRsp(rsp: int, ghost base: int, ghost rsp0: int) returns (ok: bool, meta: int)
      ensures ok ==> meta == Metadata(RegionByRsp(rsp, gs))
      ensures ok && Placed(base, rsp0) && gs == GsFor(base, rsp0) && 0 <= rsp < USER_SPACE_SIZE ==>
                (meta == Metadata(base) <==> rsp0 - CALL_STACK_SIZE <= rsp < rsp0)
    {
      ok, meta := *, 0;
      if ok {
        meta := Metadata(RegionByRsp(rsp, gs));
        if Placed(base, rsp0) && gs == GsFor(base, rsp0) && 0 <= rsp < USER_SPACE_SIZE {
          LookupIsExact(base, rsp0, rsp);
        }
      }
    }

    /** The first part of gs_rsp_runtime_rerandomize: refuse a thread that is not ready,
        or whose last attempt is less than a period ago. */
    method PassGate(meta: int, now: int, ghost base: int) returns (passed: bool)
      requires meta == Metadata(base) && MetadataMapped(space.mem, base)
      modifies space`mem
      ensures passed <==> Ready(old(space.mem), base) && PeriodElapsed(old(space.mem)[meta + CPU_CYCLES], now)
      ensures space.mem == if passed then Entered(old(space.mem), base, now) else old(space.mem)
      ensures passed ==> meta + IS_RANDOMIZING in space.mem && space.mem[meta + IS_RANDOMIZING] != 0
    {
      if space.mem[meta + STATE] != FLASH_STACK_INITED || space.mem[meta + IS_RANDOMIZING] != 0 {
        return false;
      }
      space.Store(meta + IS_RANDOMIZING, 1);
      if !PeriodElapsed(space.mem[meta + CPU_CYCLES], now) {
        space.Store(meta + IS_RANDOMIZING, 0);
        return false;
      }
      space.Store(meta + CPU_CYCLES, now);
      passed := true;
    }

    /** The middle part of gs_rsp_runtime_rerandomize: reserve a region and move to it. */
    method TryMove(rsp: int, meta: int, ghost base: int, ghost rsp0: int) returns (meta': int, ghost to: int)
      requires Valid() && meta == Metadata(base)
      requires RegionOk(space.mem, gs, base, rsp0) && 2 * REGION_SIZE <= rsp < rsp0
      modifies this`gs, this`totalFailRandCnt, space, totalAttempts
      ensures meta' == Metadata(to) && meta' + IS_RANDOMIZING in space.mem
      ensures to == base ==> gs == old(gs) && space.mem == old(space.mem)
      ensures to != base ==>
                && Placed(to, rsp0) && gs == GsFor(to, rsp0)
                && Unmapped(old(space.mem), to, to + REGION_SIZE)
                && space.mem == Relocated(old(space.mem), base, to, gs)
    {
      hide Relocated;
      meta', to := meta, base;
      var reserved, addr := GetMemoryAtRandom(rsp, false);
      if reserved {
        ReservationUsable(old(space.mem), base, addr, rsp, rsp0);
        assert gs + (addr - base) == GsFor(addr, rsp0);
        meta', to := MoveTo(meta, addr, base);
        assert to == addr ==> gs == GsFor(addr, rsp0);
      } else {
        totalFailRandCnt := totalFailRandCnt + 1;
      }
    }

    /** Record the reserved region `addr`, remap the shadow region onto it and switch the
        GS base; when the remap fails, restore the records and drop the reservation. */
    method MoveTo(meta: int, addr: int, ghost base: int) returns (meta': int, ghost to: int)
      requires meta == Metadata(base) && Mapped(space.mem, base, base + REGION_SIZE)
      requires Recorded(space.mem, base, base, gs) && 0 <= gs + (addr - base) <= MAX_GS_BASE_ADDR
      requires Apart(base, base + REGION_SIZE, addr, addr + REGION_SIZE)
      modifies this`gs, this`totalFailRandCnt, space`mem
      ensures meta' == Metadata(to) && (to == base || to == addr)
      ensures to == addr ==>
                gs == old(gs) + (addr - base) && space.mem == Relocated(old(space.mem), base, addr, gs)
      ensures to == base ==> gs == old(gs) && space.mem == Dropped(old(space.mem), addr, addr + REGION_SIZE)
    {
      hide Moved, Dropped;
      meta', to := meta, base;
      var shadow := space.mem[meta + SHADOW_STACK];
      var delta := addr - shadow;
      var diff := space.mem[meta + DIFF] + delta;
      if diff < 0 || diff > MAX_GS_BASE_ADDR {
        assert false;
      }
      space.Store(meta + SHADOW_STACK, addr);
      space.Store(meta + DIFF, diff);
      var moved := space.Mremap(shadow, addr, REGION_SIZE);
      if moved {
        meta', to := Metadata(addr), addr;
        var accepted := ArchPrctlSetGs(diff);
        if !accepted {
          assert false;
        }
      } else {
        totalFailRandCnt := totalFailRandCnt + 1;
        space.Store(meta + SHADOW_STACK, shadow);
        space.Store(meta + DIFF, space.mem[meta + DIFF] - delta);
        RestoreWords(old(space.mem), meta + SHADOW_STACK, addr, meta + DIFF, diff);
        space.Munmap(addr, REGION_SIZE);
      }
    }

    /** add_memory_region. */
    method AddMemoryRegion(shadowStack: int, now: int)
      requires Valid()
      modifies threadInfo
      ensures threadInfo[..] == Queued(old(threadInfo[..]), shadowStack, now)
    {
      var i := 0;
      while i < MAX_THREADS
        invariant 0 <= i <= MAX_THREADS
        invariant threadInfo[..] == old(threadInfo[..])
        invariant forall j :: 0 <= j < i ==> threadInfo[j].valid
      {
        if !threadInfo[i].valid {
          threadInfo[i] := RegionInfo(true, shadowStack, now);
          break;
        }
        i := i + 1;
      }
    }

    /** release_shadow_stack, called at `rsp`: the thread's own region is queued. */
    method ReleaseShadowStack(rsp: int, now: int, ghost base: int, ghost rsp0: int) returns (ok: bool)
      requires Valid() && Metadata(RegionByRsp(rsp, gs)) + SHADOW_STACK in space.mem
      modifies threadInfo
      ensures !ok ==> threadInfo[..] == old(threadInfo[..])
      ensures ok ==>
                var shadow := space.mem[Metadata(RegionByRsp(rsp, gs)) + SHADOW_STACK];
                threadInfo[..] == Queued(old(threadInfo[..]), shadow, now)
      ensures ok && RegionOk(space.mem, gs, base, rsp0) && rsp0 - CALL_STACK_SIZE <= rsp < rsp0 && 0 <= rsp ==>
                threadInfo[..] == Queued(old(threadInfo[..]), base, now)
    {
      var meta;
      ok, meta := GetMetadataByRsp(rsp, base, rsp0);
      if ok {
        AddMemoryRegion(space.mem[meta + SHADOW_STACK], now);
      }
    }

    /** One pass of release_memory_region, whose readings of the cycle counter are `looks`, one
        for each entry, from `start` on: it retires exactly the entries that were released more
        than ten seconds of cycles before they are looked at, and unmaps exactly their regions. */
    method CleanerPass(start: int) returns (end: int, ghost looks: seq<int>)
      requires Valid()
      modifies threadInfo, space`mem
      ensures |looks| == MAX_THREADS && forall i :: 0 <= i < MAX_THREADS ==> start <= looks[i] <= end
      ensures forall i :: 0 <= i < MAX_THREADS ==>
                threadInfo[i] == Looked(old(threadInfo[i]),
                                        Wrap(looks[i] - old(threadInfo[i]).expiredTime) > 32_000_000_000)
      ensures forall i :: 0 <= i < MAX_THREADS && old(threadInfo[i]).expiredTime <= start ==>
                && ((start - old(threadInfo[i]).expiredTime > 32_000_000_000
                     && end < old(threadInfo[i]).expiredTime + WORD_SPAN) ==> !threadInfo[i].valid)
                && (end - old(threadInfo[i]).expiredTime <= 32_000_000_000 ==> threadInfo[i] == old(threadInfo[i]))
      ensures forall a :: a in space.mem <==> a in old(space.mem) && !Retired(old(threadInfo[..]), threadInfo[..], a)
      ensures forall a :: a in space.mem ==> space.mem[a] == old(space.mem)[a]
    {
      end, looks := start, [];
      var i := 0;
      while i < MAX_THREADS
        invariant 0 <= i <= MAX_THREADS && start <= end
        invariant |looks| == i && forall j :: 0 <= j < i ==> start <= looks[j] <= end
        invariant forall j :: i <= j < MAX_THREADS ==> threadInfo[j] == old(threadInfo[j])
        invariant forall j :: 0 <= j < i ==> threadInfo[j] == LookedAt(old(threadInfo[j]), looks[j])
        invariant space.mem == Swept(old(space.mem), old(threadInfo[..]), threadInfo[..], i)
      {
        var now: int := *;
        if now > end {
          end := now;
        }
        ghost var was := threadInfo[..];
        if Expired(threadInfo[i], end) {
          space.Munmap(threadInfo[i].shadowStack, REGION_SIZE);
          threadInfo[i] := threadInfo[i].(valid := false);
        }
        looks := looks + [end];
        SweptPrefix(old(space.mem), old(threadInfo[..]), was, threadInfo[..], i);
        i := i + 1;
      }
      SweptExactly(old(space.mem), old(threadInfo[..]), threadInfo[..], MAX_THREADS);
      assert threadInfo[..MAX_THREADS] == threadInfo[..];
      assert old(threadInfo[..MAX_THREADS]) == old(threadInfo[..]);
      forall j | 0 <= j < MAX_THREADS
        ensures threadInfo[j] == Looked(old(threadInfo[j]),
                                        Wrap(looks[j] - old(threadInfo[j]).expiredTime) > 32_000_000_000)
      {
        LookedAtIs(old(threadInfo[j]), looks[j]);
      }
    }
  }

  /** An entry that was looked at, and found old enough or not. */
  function Looked(e: RegionInfo, late: bool): RegionInfo {
    if e.valid && late then e.(valid := false) else e
  }

  function LookedAt(e: RegionInfo, now: int): RegionInfo {
    Looked(e, Expired(e, now))
  }

  lemma LookedAtIs(e: RegionInfo, now: int)
    ensures LookedAt(e, now) == Looked(e, Wrap(now - e.expiredTime) > 32_000_000_000)
  {
  }

  /** The address lies in the region of an entry that was retired. */
  predicate Retired(before: seq<RegionInfo>, after: seq<RegionInfo>, a: int)
    requires |before| == |after|
  {
    exists i :: 0 <= i < |before| && before[i].valid && !after[i].valid
                && before[i].shadowStack <= a < before[i].shadowStack + REGION_SIZE
  }

  /** What is unmapped is what lies in a retired region. */
  lemma {:induction false} SweptExactly(m: Mem, before: seq<RegionInfo>, after: seq<RegionInfo>, n: nat)
    requires n <= |before| == |after|
    ensures forall a :: a in Swept(m, before, after, n) <==> a in m && !Retired(before[..n], after[..n], a)
    ensures forall a :: a in Swept(m, before, after, n) ==> Swept(m, before, after, n)[a] == m[a]
  {
    if n > 0 {
      SweptExactly(m, before, after, n - 1);
      forall a
        ensures Retired(before[..n], after[..n], a) <==>
                  || Retired(before[..n - 1], after[..n - 1], a)
                  || (before[n - 1].valid && !after[n - 1].valid
                      && before[n - 1].shadowStack <= a < before[n - 1].shadowStack + REGION_SIZE)
      {
        OneMoreRetired(before, after, n, a);
      }
    }
  }

  lemma OneMoreRetired(before: seq<RegionInfo>, after: seq<RegionInfo>, n: nat, a: int)
    requires 0 < n <= |before| == |after|
    ensures Retired(before[..n], after[..n], a) <==>
              || Retired(before[..n - 1], after[..n - 1], a)
              || (before[n - 1].valid && !after[n - 1].valid
                  && before[n - 1].shadowStack <= a < before[n - 1].shadowStack + REGION_SIZE)
  {
    if Retired(before[..n - 1], after[..n - 1], a) {
      var i :| 0 <= i < n - 1 && before[..n - 1][i].valid && !after[..n - 1][i].valid
               && before[..n - 1][i].shadowStack <= a < before[..n - 1][i].shadowStack + REGION_SIZE;
      assert before[..n][i] == before[i] && after[..n][i] == after[i];
    }
    assert before[..n][n - 1] == before[n - 1] && after[..n][n - 1] == after[n - 1];
    if Retired(before[..n], after[..n], a) {
      var i :| 0 <= i < n && before[..n][i].valid && !after[..n][i].valid
               && before[..n][i].shadowStack <= a < before[..n][i].shadowStack + REGION_SIZE;
      if i < n - 1 {
        assert before[..n - 1][i] == before[i] && after[..n - 1][i] == after[i];
      }
    }
  }

  /** What the first `n` entries retire does not depend on the later ones. */
  lemma {:induction false} SweptPrefix(m: Mem, before: seq<RegionInfo>, a: seq<RegionInfo>, b: seq<RegionInfo>, n: nat)
    requires n <= |before| == |a| == |b| && a[..n] == b[..n]
    ensures Swept(m, before, a, n) == Swept(m, before, b, n)
  {
    if n > 0 {
      assert a[..n - 1] == a[..n][..n - 1] == b[..n - 1];
      assert a[n - 1] == a[..n][n - 1] == b[n - 1];
      SweptPrefix(m, before, a, b, n - 1);
    }
  }

  /** `addr & 0x7FFFFF` is zero exactly for the 8MB-aligned addresses. */
  lemma LowBitsAligned(addr: nat)
    ensures BitAnd(addr, LOW_8MB_MASK) == 0 <==> StackAligned(addr)
  {
    CallStackBits();
    LowMaskRemainder(addr, CALL_STACK_BITS, CALL_STACK_SIZE);
  }

  /** Writing back the words that were overwritten restores the memory. */
  lemma RestoreWords(m: Mem, a: int, va: int, b: int, vb: int)
    requires a in m && b in m && a != b
    ensures m[a := va][b := vb][a := m[a]][b := m[b]] == m
  {
  }

  /** An accepted reservation is a place for the thread's region. */
  lemma AcceptedIsPlaced(addr: int, rsp: int, rsp0: int)
    requires Acceptable(addr, rsp) && 0 < addr && 2 * REGION_SIZE <= rsp < rsp0 < USER_SPACE_SIZE && Aligned(rsp0)
    ensures Placed(addr, rsp0)
    ensures addr + REGION_SIZE <= rsp - REGION_SIZE
  {
  }

  /** Passing the gate leaves the region intact, and leaving again clears the flag. */
  lemma EnteredOk(m: Mem, base: int, rsp0: int, now: int)
    requires RegionOk(m, GsFor(base, rsp0), base, rsp0) && Ready(m, base)
    ensures RegionOk(Entered(m, base, now), GsFor(base, rsp0), base, rsp0)
    ensures MetadataMapped(Entered(m, base, now), base)
    ensures Left(Entered(m, base, now), base) == m[Metadata(base) + CPU_CYCLES := now]
    ensures RegionOk(m[Metadata(base) + CPU_CYCLES := now], GsFor(base, rsp0), base, rsp0)
    ensures Ready(m[Metadata(base) + CPU_CYCLES := now], base)
  {
    MetadataIsMapped(m, base);
  }

  /** All that a move onto an accepted reservation needs. */
  lemma ReservationUsable(m: Mem, base: int, to: int, rsp: int, rsp0: int)
    requires RegionOk(m, GsFor(base, rsp0), base, rsp0) && 2 * REGION_SIZE <= rsp < rsp0
    requires Acceptable(to, rsp) && 0 < to && Unmapped(m, to, to + REGION_SIZE)
    ensures to != base && Placed(to, rsp0)
    ensures GsFor(to, rsp0) == GsFor(base, rsp0) + (to - base) && 0 <= GsFor(to, rsp0) <= MAX_GS_BASE_ADDR
    ensures Apart(base, base + REGION_SIZE, to, to + REGION_SIZE)
    ensures Mapped(Zeroed(m, to, to + REGION_SIZE), base, base + REGION_SIZE)
    ensures Recorded(Zeroed(m, to, to + REGION_SIZE), base, base, GsFor(base, rsp0))
    ensures Relocated(Zeroed(m, to, to + REGION_SIZE), base, to, GsFor(to, rsp0))
         == Relocated(m, base, to, GsFor(to, rsp0))
    ensures Metadata(to) + IS_RANDOMIZING in Relocated(m, base, to, GsFor(to, rsp0))
    ensures Dropped(Zeroed(m, to, to + REGION_SIZE), to, to + REGION_SIZE) == m
  {
    AcceptedIsPlaced(to, rsp, rsp0);
    ReservationOk(m, base, to, rsp0);
    MoveReplaces(m, base, to, rsp0);
    GsBaseInRange(to, rsp0);
    DropUndoesZeroed(m, to, to + REGION_SIZE);
  }

  lemma EnteredKeys(m: Mem, base: int, now: int, to: int)
    requires MetadataMapped(m, base) && Unmapped(Entered(m, base, now), to, to + REGION_SIZE)
    ensures Unmapped(m, to, to + REGION_SIZE)
  {
    assert forall a :: a in m ==> a in Entered(m, base, now);
  }

  /** Remapping over the reservation is remapping to the unreserved range. */
  lemma MoveReplaces(m: Mem, base: int, to: int, rsp0: int)
    requires RegionOk(m, GsFor(base, rsp0), base, rsp0) && Placed(to, rsp0)
    requires Unmapped(m, to, to + REGION_SIZE)
    ensures to != base
    ensures Relocated(Zeroed(m, to, to + REGION_SIZE), base, to, GsFor(to, rsp0))
         == Relocated(m, base, to, GsFor(to, rsp0))
    ensures MetadataMapped(Relocated(m, base, to, GsFor(to, rsp0)), to)
  {
    FreshIsApart(m, base, base + REGION_SIZE, to, to + REGION_SIZE);
    ReservationVanishes(m, base, to, GsFor(to, rsp0));
    RelocatedMapped(m, base, to, GsFor(to, rsp0));
    MetadataIsMapped(Relocated(m, base, to, GsFor(to, rsp0)), to);
  }

  /** After the move the region is whole at its new place, and ready once left. */
  lemma MoveCompletes(m: Mem, base: int, to: int, rsp0: int)
    requires RegionOk(m, GsFor(base, rsp0), base, rsp0) && Placed(to, rsp0)
    requires m[Metadata(base) + STATE] == FLASH_STACK_INITED
    ensures RegionOk(Left(Relocated(m, base, to, GsFor(to, rsp0)), to), GsFor(to, rsp0), to, rsp0)
    ensures Ready(Left(Relocated(m, base, to, GsFor(to, rsp0)), to), to)
  {
    RelocatedOk(m, base, to, rsp0);
    RelocatedState(m, base, to, GsFor(to, rsp0));
    LeftOk(Relocated(m, base, to, GsFor(to, rsp0)), to, rsp0);
  }

  /** Whether the region moved or not, leaving makes it whole and ready. */
  lemma LeaveCompletes(m: Mem, base: int, to: int, rsp0: int)
    requires RegionOk(m, GsFor(base, rsp0), base, rsp0) && Placed(to, rsp0)
    requires m[Metadata(base) + STATE] == FLASH_STACK_INITED
    ensures var m' := if to == base then m else Relocated(m, base, to, GsFor(to, rsp0));
            RegionOk(Left(m', to), GsFor(to, rsp0), to, rsp0) && Ready(Left(m', to), to)
  {
    if to == base {
      LeftOk(m, base, rsp0);
    } else {
      MoveCompletes(m, base, to, rsp0);
    }
  }

  lemma RelocatedState(m: Mem, base: int, to: int, diff: int)
    requires Aligned(base) && Aligned(to) && Mapped(m, base, base + REGION_SIZE)
    requires Metadata(base) + STATE in m
    ensures Metadata(to) + STATE in Relocated(m, base, to, diff)
    ensures Relocated(m, base, to, diff)[Metadata(to) + STATE] == m[Metadata(base) + STATE]
  {
    RelocatedContents(m, base, to, diff, Metadata(base) + STATE);
  }

  lemma LeftOk(m: Mem, base: int, rsp0: int)
    requires RegionOk(m, GsFor(base, rsp0), base, rsp0)
    requires Metadata(base) + STATE in m && m[Metadata(base) + STATE] == FLASH_STACK_INITED
    ensures RegionOk(Left(m, base), GsFor(base, rsp0), base, rsp0) && Ready(Left(m, base), base)
  {
  }

  /** A reservation is apart from the thread's region and leaves its records as they were. */
  lemma ReservationOk(m: Mem, base: int, to: int, rsp0: int)
    requires RegionOk(m, GsFor(base, rsp0), base, rsp0) && Placed(to, rsp0)
    requires Unmapped(m, to, to + REGION_SIZE)
    ensures Apart(base, base + REGION_SIZE, to, to + REGION_SIZE)
    ensures Mapped(Zeroed(m, to, to + REGION_SIZE), base, base + REGION_SIZE)
    ensures Recorded(Zeroed(m, to, to + REGION_SIZE), base, base, GsFor(base, rsp0))
    ensures MetadataMapped(m, base)
  {
    FreshIsApart(m, base, base + REGION_SIZE, to, to + REGION_SIZE);
    MetadataIsMapped(m, base);
  }

  /** A reservation that the move replaces leaves no trace. */
  lemma ReservationVanishes(m: Mem, base: int, to: int, diff: int)
    requires Apart(base, base + REGION_SIZE, to, to + REGION_SIZE)
    ensures Relocated(Zeroed(m, to, to + REGION_SIZE), base, to, diff) == Relocated(m, base, to, diff)
  {
    hide Moved;
    RecordsAroundZeroed(m, base, to, diff);
    MovedOverZeroed(m[Metadata(base) + SHADOW_STACK := to][Metadata(base) + DIFF := diff], base, to, REGION_SIZE);
  }

  lemma RecordsAroundZeroed(m: Mem, base: int, to: int, diff: int)
    requires Apart(base, base + REGION_SIZE, to, to + REGION_SIZE)
    ensures Zeroed(m, to, to + REGION_SIZE)[Metadata(base) + SHADOW_STACK := to][Metadata(base) + DIFF := diff]
         == Zeroed(m[Metadata(base) + SHADOW_STACK := to][Metadata(base) + DIFF := diff], to, to + REGION_SIZE)
  {
    var a, b := Metadata(base) + SHADOW_STACK, Metadata(base) + DIFF;
    WriteAroundZeroed(m, to, to + REGION_SIZE, a, to);
    WriteAroundZeroed(m[a := to], to, to + REGION_SIZE, b, diff);
  }
}
