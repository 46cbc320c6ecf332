/** fsgs_runtime_rerandomize and the allocation it relies on (fsgs.c). */
module FsGsRuntime {
  import opened Words
  import opened Spa
  import opened Memory
  import opened Templates
  import opened RateGate
  import opened FsGs
  import opened FsGsAttempts

  /** What a call did. `Stuck` stands for an allocation loop that never ends. */
  datatype Result =
    | Skipped
    | KeyShifted(ratio: int)
    | Relocated(to: Place)
    | Lost(to: Place)
    | Stuck

  class Runtime {
    const space: AddressSpace
    /** SPA_ENABLE_GS_MSR: stored return addresses are keyed. */
    const msr: bool
    /** The GS base of the calling thread, and its unsw_flash_stack_inited flag. */
    var gs: int
    var inited: bool

    constructor (space: AddressSpace, msr: bool)
      ensures this.space == space && this.msr == msr && gs == 0 && !inited
    {
      this.space, this.msr, gs, inited := space, msr, 0, false;
    }

    /** get_memory_at_random: mmap at random hints until it succeeds. `rounds` bounds here
        what the source does not. */
    method GetMemoryAtRandom(size: int, rounds: nat) returns (ok: bool, addr: int)
      requires size > 0
      modifies space
      ensures ok ==> PageIn(addr, size) && Unmapped(old(space.mem), addr, addr + size)
      ensures space.mem == if ok then Zeroed(old(space.mem), addr, addr + size) else old(space.mem)
    {
      ok, addr := false, 0;
      var i := 0;
      while !ok && i < rounds
        invariant ok ==> PageIn(addr, size) && Unmapped(old(space.mem), addr, addr + size)
        invariant space.mem == if ok then Zeroed(old(space.mem), addr, addr + size) else old(space.mem)
        decreases rounds - i
      {
        var hint: int := *;
        ok, addr := space.Mmap(hint, size);
        if ok {
          PageIsAligned(addr);
        }
        i := i + 1;
      }
    }

    /** init_shadow_stack, called at `rsp` in a thread whose call stack is said to be
        [low, low + size); `key` is the random number that becomes R. */
    method InitShadowStack(rsp: int, key: int, low: int, size: int, rounds: nat) returns (ok: bool, ghost pl: Place)
      requires Aligned(rsp) && Aligned(low) && Aligned(size) && IsWord(key)
      requires CALL_STACK_SIZE <= rsp && low <= rsp <= low + size && StackTop(low, size) < USER_SPACE_SIZE
      modifies this`gs, this`inited, space
      ensures inited
      ensures old(inited) ==> gs == old(gs) && space.mem == old(space.mem)
      ensures !old(inited) && ok ==> Started(old(space.mem), pl, rsp, StackTop(low, size), key)
    {
      ok, pl := false, Place(0, 0, rsp, 0);
      if !inited {
        inited := true;
        ok, pl := DoInitShadowStack(rsp, key, low, size, rounds);
      }
    }

    /** The state after initialisation: fresh ranges, every field recorded, and a thread
        without frames that can start to run. */
    ghost predicate Started(m: Mem, pl: Place, rsp: int, top: int, key: int)
      reads this, space
    {
      && pl.rsp0 == rsp && pl.top == top && gs == pl.meta
      && CanReserve(m, pl, pl) && space.mem == Initialised(Reserved(m, pl), pl, key)
      && ThreadOk(space.mem, pl)
      && (top - CALL_STACK_SIZE <= rsp ==> Live(Machine(space.mem, pl, rsp, [], []), msr))
    }

    method DoInitShadowStack(rsp: int, key: int, low: int, size: int, rounds: nat) returns (ok: bool, ghost pl: Place)
      requires Aligned(rsp) && Aligned(low) && Aligned(size) && IsWord(key)
      requires CALL_STACK_SIZE <= rsp && low <= rsp <= low + size && StackTop(low, size) < USER_SPACE_SIZE
      modifies this`gs, space
      ensures ok ==> Started(old(space.mem), pl, rsp, StackTop(low, size), key)
    {
      hide Reserved, FieldsSet, StackInfoSet, ThreadOk, Live, Mapped, StackTop, Apart, Unmapped;
      ghost var m := space.mem;
      pl := Place(0, 0, rsp, 0);
      var meta, base;
      ok, meta := GetMemoryAtRandom(META_SIZE, rounds);
      if !ok {
        return;
      }
      ok, base := GetMemoryAtRandom(REGION_SIZE, rounds);
      if !ok {
        return;
      }
      pl := Place(meta, base, rsp, StackTop(low, size));
      StartPlace(m, pl, low, size);
      InitialisedOk(Reserved(m, pl), pl, key);
      InitialisedLive(Reserved(m, pl), pl, key, msr);
      FieldsHold(Reserved(m, pl), pl, key);
      SetFields(meta, base, base + CALL_STACK_SIZE - rsp, key, pl);
      gs := meta;
      SetCallStackInfo(meta, low, size, base);
    }

    /** The struct is cleared and its fields set. */
    method SetFields(meta: int, base: int, diff: int, key: int, ghost pl: Place)
      requires meta == pl.meta && base == pl.base && diff == Offset(pl)
      modifies space`mem
      ensures space.mem == FieldsSet(old(space.mem), pl, key)
    {
      hide Zeroed;
      space.mem := Zeroed(space.mem, meta, meta + STRUCT_SIZE);
      space.mem := space.mem[meta + SELF_ADDR := meta][meta + FS_DIFF := Wrap(diff)][meta + SHADOW_STACK := base];
      space.mem := space.mem[meta + CPU_CYCLES := 0][meta + IS_RANDOMIZING := 0];
      space.mem := space.mem[meta + RATIO_FACTOR := DEFAULT_RATIO][meta + FS_R := key];
    }

    /** The tops of the call stack and of the shadow stack; then the thread is ready. */
    method SetCallStackInfo(meta: int, low: int, size: int, ghost base: int)
      requires meta + SHADOW_STACK in space.mem && space.mem[meta + SHADOW_STACK] == base
      modifies space`mem
      ensures space.mem == StackInfoSet(old(space.mem), meta, base, StackTop(low, size))
    {
      var high := low + size;
      if high < low + CALL_STACK_SIZE {
        high := low + CALL_STACK_SIZE;
      }
      space.mem := space.mem[meta + CALL_STACK_TOP := high];
      space.mem := space.mem[meta + SHADOW_STACK_TOP := space.mem[meta + SHADOW_STACK] + CALL_STACK_SIZE];
      space.mem := space.mem[meta + STATE := FLASH_STACK_INITED];
    }

    /** The gate at the head of fsgs_runtime_rerandomize. */
    method PassGate(now: int, ghost pl: Place) returns (passed: bool)
      requires ThreadOk(space.mem, pl) && gs == pl.meta
      modifies space`mem
      ensures pl.meta + STATE in old(space.mem) && pl.meta + IS_RANDOMIZING in old(space.mem)
              && pl.meta + CPU_CYCLES in old(space.mem)
      ensures passed <==> Ready(old(space.mem), pl.meta)
                          && PeriodElapsed(old(space.mem)[pl.meta + CPU_CYCLES], now)
      ensures space.mem == if passed then Entered(old(space.mem), pl.meta, now) else old(space.mem)
      ensures passed ==> pl.meta + IS_RANDOMIZING in space.mem && space.mem[pl.meta + IS_RANDOMIZING] != 0
    {
      GateFields(space.mem, pl);
      var meta := space.mem[gs + SELF_ADDR];
      if space.mem[meta + STATE] != FLASH_STACK_INITED || space.mem[meta + IS_RANDOMIZING] != 0 {
        return false;
      }
      space.Store(meta + IS_RANDOMIZING, 1);
      if !PeriodElapsed(space.mem[meta + CPU_CYCLES], now) {
        space.Store(meta + IS_RANDOMIZING, 0);
        return false;
      }
      space.Store(meta + CPU_CYCLES, now);
      passed := true;
    }

    /** The key R and the live range of the shadow stack are shifted by `delta`. */
    method ShiftKey(rsp: int, delta: int, ghost pl: Place)
      requires ThreadOk(space.mem, pl) && gs == pl.meta && pl.top - CALL_STACK_SIZE <= rsp <= pl.top
      modifies space`mem
      ensures space.mem == Rekeyed(old(space.mem), pl, rsp, delta)
    {
      var meta := space.mem[gs + SELF_ADDR];
      var key := Wrap(space.mem[meta + FS_R] + delta);
      RangeFromWords(space.mem, pl, rsp, key);
      space.Store(meta + FS_R, key);
      var end := space.mem[meta + SHADOW_STACK_TOP];
      AddToRange(rsp, delta, end, space.mem[meta + CALL_STACK_TOP], pl);
    }

    method ShiftIfKeyed(rsp: int, delta: int, ghost pl: Place)
      requires ThreadOk(space.mem, pl) && gs == pl.meta && pl.top - CALL_STACK_SIZE <= rsp <= pl.top
      modifies space`mem
      ensures space.mem == if msr then Rekeyed(old(space.mem), pl, rsp, delta) else old(space.mem)
    {
      if msr {
        ShiftKey(rsp, delta, pl);
      }
    }

    /** The four-lane loop over the live range. */
    method AddToRange(rsp: int, delta: int, end: int, callTop: int, ghost pl: Place)
      requires PlaceOk(pl) && pl.top - CALL_STACK_SIZE <= rsp <= pl.top
      requires end == pl.base + CALL_STACK_SIZE && callTop == pl.top
      requires Mapped(space.mem, ShiftFrom(pl.base, pl.top, rsp), end)
      modifies space`mem
      ensures space.mem == Shifted(old(space.mem), ShiftFrom(pl.base, pl.top, rsp), end, delta)
    {
      var start := end - (callTop - rsp);
      OffsetAligned(pl);
      ShiftFromInRegion(pl, rsp);
      space.AddFourLanes(start, end, delta);
    }

    /** The region and the metadata move to fresh places. The result of mremap is stored
        without a check. */
    method Move(rounds: nat, ghost pl: Place) returns (moved: bool, remapped: bool, ghost to: Place)
      requires ThreadOk(space.mem, pl) && gs == pl.meta
      modifies this`gs, space
      ensures moved ==> CanReserve(old(space.mem), pl, to) && gs == to.meta
      ensures moved ==> pl.meta + FS_DIFF in Reserved(old(space.mem), to)
      ensures moved ==> space.mem == Switched(Reserved(old(space.mem), to), pl, to, remapped)
    {
      remapped := false;
      var meta := space.mem[gs + SELF_ADDR];
      var ok, newMeta := GetMemoryAtRandom(META_SIZE, rounds);
      if !ok {
        return false, false, pl;
      }
      var ok', newShadow := GetMemoryAtRandom(REGION_SIZE, rounds);
      if !ok' {
        return false, false, pl;
      }
      moved, to := true, Place(newMeta, newShadow, pl.rsp0, pl.top);
      SecondReservation(old(space.mem), pl, to);
      remapped := Switch(meta, newMeta, newShadow, pl, to);
    }

    method Switch(meta: int, newMeta: int, newShadow: int, ghost pl: Place, ghost to: Place) returns (remapped: bool)
      requires ThreadOk(space.mem, pl) && meta == pl.meta && newMeta == to.meta && newShadow == to.base
      requires PlaceOk(to) && Separate(pl, to) && Mapped(space.mem, to.meta, to.meta + META_SIZE)
      modifies this`gs, space`mem
      ensures gs == to.meta
      ensures space.mem == Switched(old(space.mem), pl, to, remapped)
    {
      ghost var m := space.mem;
      var shadow := space.mem[meta + SHADOW_STACK];
      Prepare(meta, newMeta, newShadow, pl, to);
      PreparedMapped(m, pl, to);
      remapped := space.Mremap(shadow, newShadow, REGION_SIZE);
      Commit(meta, newMeta, if remapped then newShadow else WORD_SPAN - 1);
    }

    /** What follows the remap. */
    method Commit(meta: int, newMeta: int, shadow: int)
      modifies this`gs, space`mem
      ensures gs == newMeta && space.mem == Committed(old(space.mem), meta, newMeta, shadow)
    {
      space.mem := space.mem[newMeta + SHADOW_STACK := shadow]
                     [newMeta + SHADOW_STACK_TOP := Wrap(shadow + CALL_STACK_SIZE)];
      gs := newMeta;
      space.Munmap(meta, META_SIZE);
    }

    /** The struct copy and the fields of the new metadata set before the remap. */
    method Prepare(meta: int, newMeta: int, newShadow: int, ghost pl: Place, ghost to: Place)
      requires ThreadOk(space.mem, pl) && meta == pl.meta && newMeta == to.meta && newShadow == to.base
      modifies space`mem
      ensures space.mem == Prepared(old(space.mem), pl, to)
    {
      hide Copied;
      var shadow := space.mem[meta + SHADOW_STACK];
      var diff := space.mem[meta + FS_DIFF];
      space.mem := Copied(space.mem, meta, newMeta)
                     [newMeta + FS_DIFF := Wrap(diff + (newShadow - shadow))][newMeta + SELF_ADDR := newMeta];
    }

    /** fsgs_runtime_rerandomize, called at `rsp` with the cycle counter at `now`. */
    method RuntimeRerandomize(rsp: int, now: int, delta: int, rounds: nat, ghost pl: Place) returns (ghost r: Result)
      requires ThreadOk(space.mem, pl) && gs == pl.meta && pl.top - CALL_STACK_SIZE <= rsp <= pl.top
      requires IsWord(now)
      modifies this`gs, space
      ensures r.Skipped? <==> !(inited && MayAttempt(old(space.mem), pl.meta, now))
      ensures r.Skipped? ==> space.mem == old(space.mem) && gs == old(gs)
      ensures r.KeyShifted? || r.Relocated? || r.Lost? ==>
                && gs + STATE in space.mem && space.mem[gs + STATE] == FLASH_STACK_INITED
                && gs + IS_RANDOMIZING in space.mem && space.mem[gs + IS_RANDOMIZING] == 0
                && gs + CPU_CYCLES in space.mem && space.mem[gs + CPU_CYCLES] == now
                && pl.meta + RATIO_FACTOR in old(space.mem) && gs + RATIO_FACTOR in space.mem
      ensures r.KeyShifted? ==> 0 < space.mem[gs + RATIO_FACTOR] == old(space.mem)[pl.meta + RATIO_FACTOR] - 1
      ensures r.Relocated? || r.Lost? ==>
                old(space.mem)[pl.meta + RATIO_FACTOR] <= 1 && Rests(space.mem, gs, now)
      ensures Outcome(r, Attempted(old(space.mem), pl, rsp, now, delta, msr), pl)
    {
      hide ThreadOk, Rekeyed, CanReserve, Switched, Reserved;
      r := Skipped;
      if !inited {
        return;
      }
      var passed := PassGate(now, pl);
      if !passed {
        return;
      }
      EnteredOk(old(space.mem), pl, now);
      AttemptedGate(old(space.mem), pl, rsp, now, delta, msr);
      ShiftIfKeyed(rsp, delta, pl);
      r := CountAndMove(rounds, pl);
    }

    /** The rest of a call, once the gate is passed and `m` is the memory with the key shifted. */
    ghost predicate Outcome(r: Result, m: Mem, pl: Place)
      reads this, space
    {
      match r
      case Skipped => true
      case Stuck => true
      case KeyShifted(ratio) =>
        && pl.meta + RATIO_FACTOR in m && 0 < ratio == m[pl.meta + RATIO_FACTOR] - 1
        && gs == pl.meta && space.mem == Finished(m[pl.meta + RATIO_FACTOR := ratio], pl.meta)
      case Relocated(to) => MoveDue(m, pl) && Switches(m[pl.meta + RATIO_FACTOR := DEFAULT_RATIO], pl, to, true)
      case Lost(to) => MoveDue(m, pl) && Switches(m[pl.meta + RATIO_FACTOR := DEFAULT_RATIO], pl, to, false)
    }

    ghost predicate Switches(m: Mem, pl: Place, to: Place, remapped: bool)
      reads this, space
    {
      && CanReserve(m, pl, to) && gs == to.meta && pl.meta + FS_DIFF in Reserved(m, to)
      && space.mem == Finished(Switched(Reserved(m, to), pl, to, remapped), to.meta)
    }

    method SetRatio(ratio: int, ghost pl: Place)
      requires ThreadOk(space.mem, pl) && gs == pl.meta
      modifies space`mem
      ensures space.mem == old(space.mem)[pl.meta + RATIO_FACTOR := ratio] && ThreadOk(space.mem, pl)
    {
      hide ThreadOk;
      GateFields(space.mem, pl);
      FieldWritten(space.mem, pl, RATIO_FACTOR, ratio);
      space.Store(space.mem[gs + SELF_ADDR] + RATIO_FACTOR, ratio);
    }

    method GetRatio(ghost pl: Place) returns (ratio: int)
      requires ThreadOk(space.mem, pl) && gs == pl.meta
      ensures pl.meta + RATIO_FACTOR in space.mem && ratio == space.mem[pl.meta + RATIO_FACTOR]
    {
      GateFields(space.mem, pl);
      ratio := space.mem[space.mem[gs + SELF_ADDR] + RATIO_FACTOR];
    }

    method ClearFlag()
      modifies space`mem
      ensures space.mem == Finished(old(space.mem), gs)
    {
      space.mem := space.mem[gs + IS_RANDOMIZING := 0];
    }

    /** Every DEFAULT_RATIO-th shift of the key is followed by a move. */
    method CountAndMove(rounds: nat, ghost pl: Place) returns (ghost r: Result)
      requires ThreadOk(space.mem, pl) && gs == pl.meta
      modifies this`gs, space
      ensures !r.Skipped? && Outcome(r, old(space.mem), pl)
      ensures !r.Stuck? ==> GateLeft(old(space.mem), pl.meta, space.mem, gs)
    {
      ghost var m := space.mem;
      var ratio := GetRatio(pl);
      if ratio - 1 <= 0 {
        SetRatio(DEFAULT_RATIO, pl);
        var moved, remapped;
        ghost var to;
        moved, remapped, to := Move(rounds, pl);
        if !moved {
          r := Stuck;
          return;
        }
        r := if remapped then Relocated(to) else Lost(to);
        MoveLeft(m, pl, to, remapped);
      } else {
        SetRatio(ratio - 1, pl);
        r := KeyShifted(ratio - 1);
        CountLeft(m, pl, ratio - 1);
      }
      ClearFlag();
    }
  }

  lemma FieldsHold(m: Mem, pl: Place, key: int)
    ensures pl.meta + SHADOW_STACK in FieldsSet(m, pl, key)
    ensures FieldsSet(m, pl, key)[pl.meta + SHADOW_STACK] == pl.base
  {
  }

  /** The two reservations of the initialisation make a place. */
  lemma StartPlace(m: Mem, pl: Place, low: int, size: int)
    requires Aligned(pl.rsp0) && Aligned(low) && Aligned(size) && pl.top == StackTop(low, size)
    requires CALL_STACK_SIZE <= pl.rsp0 && low <= pl.rsp0 <= low + size && pl.top < USER_SPACE_SIZE
    requires PageIn(pl.meta, META_SIZE) && Unmapped(m, pl.meta, pl.meta + META_SIZE)
    requires PageIn(pl.base, REGION_SIZE)
    requires Unmapped(Zeroed(m, pl.meta, pl.meta + META_SIZE), pl.base, pl.base + REGION_SIZE)
    ensures CanReserve(m, pl, pl)
    ensures Reserved(m, pl) == Zeroed(Zeroed(m, pl.meta, pl.meta + META_SIZE), pl.base, pl.base + REGION_SIZE)
    ensures Mapped(Reserved(m, pl), pl.meta, pl.meta + META_SIZE)
    ensures Mapped(Reserved(m, pl), pl.base, pl.base + REGION_SIZE)
  {
    AlignedSum(low, size);
    AlignedSum(low, CALL_STACK_SIZE);
    BothFresh(m, pl);
    ReservedKeeps(m, pl, pl);
  }

  lemma GateFields(m: Mem, pl: Place)
    requires ThreadOk(m, pl)
    ensures pl.meta + STATE in m && pl.meta + IS_RANDOMIZING in m && pl.meta + CPU_CYCLES in m
    ensures pl.meta + RATIO_FACTOR in m && pl.meta + SELF_ADDR in m && m[pl.meta + SELF_ADDR] == pl.meta
  {
    AlignedSum(pl.meta, STATE);
    AlignedSum(pl.meta, IS_RANDOMIZING);
    AlignedSum(pl.meta, CPU_CYCLES);
    AlignedSum(pl.meta, RATIO_FACTOR);
  }

  /** The range that the metadata words describe is the live range of the region. */
  lemma RangeFromWords(m: Mem, pl: Place, rsp: int, key: int)
    requires ThreadOk(m, pl) && IsWord(key) && pl.top - CALL_STACK_SIZE <= rsp <= pl.top
    ensures var m1 := m[pl.meta + FS_R := key];
            && pl.meta + SHADOW_STACK_TOP in m1 && pl.meta + CALL_STACK_TOP in m1
            && m1[pl.meta + SHADOW_STACK_TOP] == pl.base + CALL_STACK_SIZE && m1[pl.meta + CALL_STACK_TOP] == pl.top
            && Mapped(m1, ShiftFrom(pl.base, pl.top, rsp), pl.base + CALL_STACK_SIZE)
  {
    KeyWritten(m, pl, key);
    ShiftFromInRegion(pl, rsp);
  }

  /** The second reservation is fresh in the original memory too, and apart from the first. */
  lemma SecondReservation(m: Mem, pl: Place, to: Place)
    requires ThreadOk(m, pl) && to.rsp0 == pl.rsp0 && to.top == pl.top
    requires PageIn(to.meta, META_SIZE) && Unmapped(m, to.meta, to.meta + META_SIZE)
    requires PageIn(to.base, REGION_SIZE)
    requires Unmapped(Zeroed(m, to.meta, to.meta + META_SIZE), to.base, to.base + REGION_SIZE)
    ensures CanReserve(m, pl, to) && ThreadOk(Reserved(m, to), pl) && Separate(pl, to)
    ensures Mapped(Reserved(m, to), to.meta, to.meta + META_SIZE)
  {
    BothFresh(m, to);
    ReservedOk(m, pl, to);
    ReservedSeparate(m, pl, to);
    ReservedKeeps(m, pl, to);
  }

  lemma BothFresh(m: Mem, to: Place)
    requires PageIn(to.meta, META_SIZE) && PageIn(to.base, REGION_SIZE)
    requires Unmapped(Zeroed(m, to.meta, to.meta + META_SIZE), to.base, to.base + REGION_SIZE)
    ensures Unmapped(m, to.base, to.base + REGION_SIZE)
    ensures Apart(to.meta, to.meta + META_SIZE, to.base, to.base + REGION_SIZE)
  {
    var z := Zeroed(m, to.meta, to.meta + META_SIZE);
    FreshIsApart(z, to.meta, to.meta + META_SIZE, to.base, to.base + REGION_SIZE);
    assert forall a :: a in m ==> a in z;
  }
}
