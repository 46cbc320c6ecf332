/** The functions of buddy_tls.c and simd_rand.c, and whole runs of a protected thread. */
module BuddyRuntime {
  import opened Words
  import opened Spa
  import opened Memory
  import opened ShadowStack
  import opened Templates
  import opened Buddy

  class Runtime {
    const space: AddressSpace
    /** The stack size that the program was compiled for is 2^k. */
    const k: nat

    constructor (space: AddressSpace, k: nat)
      ensures this.space == space && this.k == k
    {
      this.space, this.k := space, k;
    }

    /** buddy_get_tls_info. */
    method GetTlsInfo(rsp: int, ghost top: int) returns (tls: int)
      requires Geometry(top, k) && top - Pow2(k) <= rsp < top
      ensures tls == Near(top, k) || tls == Far(top, k)
      ensures tls == RecordOf(rsp, Pow2(k))
    {
      WordSpanIsPow2();
      RecordFound(top, k, rsp);
      tls := AlignDown(rsp, k) - 2 * Pow2(k);
    }

    method SetRecord(rec: int, random: int, top: int, buddy: int)
      modifies space`mem
      ensures space.mem == RecordSet(old(space.mem), rec, random, top, buddy)
    {
      space.mem := space.mem[rec + RANDOM_VAL := random];
      space.mem := space.mem[rec + STACK_TOP := top];
      space.mem := space.mem[rec + BUDDY_INFO := buddy];
      space.mem := space.mem[rec + TLS_CPU_CYCLES := 0];
      space.mem := space.mem[rec + IS_RANDOMIZING := 0];
    }

    /** buddy_init_tls_metadata. */
    method InitTlsMetadata(stackHigh: int, random: int)
      requires Geometry(stackHigh, k) && IsWord(random)
      requires Mapped(space.mem, stackHigh - 4 * Pow2(k), stackHigh)
      modifies space`mem
      ensures space.mem == Initialised(old(space.mem), stackHigh, k, random)
      ensures ThreadOk(space.mem, stackHigh, k) && Key(space.mem, stackHigh, k) == random
      ensures Stamped(space.mem, stackHigh, k, 0)
    {
      hide RecordSet;
      var near := AlignDown(stackHigh, k) - 2 * Pow2(k);
      var far := AlignDown(stackHigh, k) - 3 * Pow2(k);
      InitialisedOk(space.mem, stackHigh, k, random);
      SetRecord(near, random, stackHigh, far);
      SetRecord(far, random, stackHigh, near);
    }

    /** buddy_init_main_thread_tls, for a stack whose attributes are `stackLow` and
        `stackSize`: a stack that is too small is taken to reach higher. */
    method InitMainThreadTls(stackLow: int, stackSize: int, random: int) returns (top: int)
      requires stackLow % PAGE_SIZE == 0 && stackSize % PAGE_SIZE == 0 && Pow2(k) <= stackLow && 0 <= stackSize
      requires 12 <= k < 45 && IsWord(random) && stackLow + stackSize < USER_SPACE_SIZE
      requires stackLow + 4 * Pow2(k) < USER_SPACE_SIZE
      requires Mapped(space.mem, stackLow, stackLow + stackSize)
      requires Mapped(space.mem, stackLow, stackLow + 4 * Pow2(k))
      modifies space`mem
      ensures top == if stackSize >= 4 * Pow2(k) then stackLow + stackSize else stackLow + 4 * Pow2(k)
      ensures ThreadOk(space.mem, top, k) && Key(space.mem, top, k) == random && Stamped(space.mem, top, k, 0)
      ensures OnlyWithin(old(space.mem), space.mem, top - 4 * Pow2(k), top - Pow2(k))
    {
      top := stackLow + stackSize;
      if top < stackLow + 4 * Pow2(k) {
        top := stackLow + 4 * Pow2(k);
      }
      TopIsPage(stackLow, stackSize, k);
      ghost var m := space.mem;
      InitTlsMetadata(top, random);
      InitialisedWithin(m, top, k, random);
    }

    /** au_edu_unsw_randomize, called at `rsp` with the record `tls`: a record without a buddy
        that points back, or one of a pair that is being changed, is left alone. */
    method Randomize(tls: int, cycles: int, rsp: int, random: int, ghost top: int) returns (done: bool)
      requires RecordMapped(space.mem, tls)
      requires var buddy := space.mem[tls + BUDDY_INFO];
               && (buddy != 0 ==> RecordMapped(space.mem, buddy))
               && (buddy != 0 && space.mem[buddy + BUDDY_INFO] == tls
                   && space.mem[tls + IS_RANDOMIZING] == 0 == space.mem[buddy + IS_RANDOMIZING] ==>
                     ThreadOk(space.mem, top, k) && (tls == Near(top, k) || tls == Far(top, k)))
      requires top - Pow2(k) + PAGE_SIZE <= rsp <= top && Aligned(rsp)
      modifies space`mem
      ensures var m, buddy := old(space.mem), old(space.mem)[tls + BUDDY_INFO];
              done <==> buddy != 0 && m[buddy + BUDDY_INFO] == tls
                        && m[tls + IS_RANDOMIZING] == 0 && m[buddy + IS_RANDOMIZING] == 0
      ensures !done ==> space.mem == old(space.mem)
      ensures old(ThreadOk(space.mem, top, k)) && (tls == Near(top, k) || tls == Far(top, k)) ==> done
      ensures done ==>
                && old(ThreadOk(space.mem, top, k))
                && var buddy := if tls == Near(top, k) then Far(top, k) else Near(top, k);
                   space.mem == Rekeyed(old(space.mem), tls, buddy, top, k, rsp, random, cycles)
      ensures done ==> ThreadOk(space.mem, top, k) && Stamped(space.mem, top, k, cycles)
      ensures done ==> Key(space.mem, top, k) == Wrap(Key(old(space.mem), top, k) + random)
    {
      hide Ended, Geometry, Mapped;
      done := false;
      var buddy := space.mem[tls + BUDDY_INFO];
      RecordAbove(space.mem, tls, top, k);
      if buddy != 0 && space.mem[buddy + BUDDY_INFO] == tls
         && space.mem[tls + IS_RANDOMIZING] == 0 && space.mem[buddy + IS_RANDOMIZING] == 0
      {
        RekeyedOk(space.mem, tls, buddy, top, k, rsp, random, cycles);
        RekeyedStamps(space.mem, tls, buddy, top, k, rsp, random, cycles);
        Rekey(tls, buddy, space.mem[tls + STACK_TOP], cycles, rsp, random);
        done := true;
      }
    }

    method Rekey(tls: int, buddy: int, stackTop: int, cycles: int, rsp: int, random: int)
      requires ThreadOk(space.mem, stackTop, k) && Pair(stackTop, k, tls, buddy)
      requires stackTop - Pow2(k) + PAGE_SIZE <= rsp <= stackTop && Aligned(rsp)
      modifies space`mem
      ensures space.mem == Rekeyed(old(space.mem), tls, buddy, stackTop, k, rsp, random, cycles)
    {
      hide Near;
      ghost var m := space.mem;
      ChangeRecords(tls, buddy, random, cycles);
      RangeMapped(m, stackTop, k, tls, buddy, rsp, random, cycles);
      ShiftRange(stackTop, rsp, random);
      ClearFlag(tls);
    }

    method ClearFlag(tls: int)
      modifies space`mem
      ensures space.mem == Ended(old(space.mem), tls)
    {
      space.mem := space.mem[tls + IS_RANDOMIZING := 0];
    }

    /** Both records, the caller's first. */
    method ChangeRecords(tls: int, buddy: int, random: int, cycles: int)
      requires RecordMapped(space.mem, tls) && RecordMapped(space.mem, buddy)
      modifies space`mem
      ensures space.mem == Changed(old(space.mem), tls, buddy, random, cycles)
    {
      space.mem := space.mem[tls + IS_RANDOMIZING := 1];
      space.mem := space.mem[tls + RANDOM_VAL := Wrap(space.mem[tls + RANDOM_VAL] + random)];
      space.mem := space.mem[tls + TLS_CPU_CYCLES := cycles];
      assert space.mem == Begun(old(space.mem), tls, random, cycles);
      ChangeBuddy(buddy, random, cycles);
    }

    method ChangeBuddy(buddy: int, random: int, cycles: int)
      requires buddy + RANDOM_VAL in space.mem
      modifies space`mem
      ensures space.mem == Followed(old(space.mem), buddy, random, cycles)
    {
      space.mem := space.mem[buddy + IS_RANDOMIZING := 1];
      space.mem := space.mem[buddy + RANDOM_VAL := Wrap(space.mem[buddy + RANDOM_VAL] + random)];
      space.mem := space.mem[buddy + TLS_CPU_CYCLES := cycles];
      space.mem := space.mem[buddy + IS_RANDOMIZING := 0];
    }

    /** The four-lane loop over the live range of the shadow stack. */
    method ShiftRange(stackTop: int, rsp: int, random: int)
      requires Geometry(stackTop, k) && stackTop - Pow2(k) + PAGE_SIZE <= rsp <= stackTop && Aligned(rsp)
      requires Mapped(space.mem, ShiftFrom(rsp, k), stackTop - Pow2(k))
      modifies space`mem
      ensures space.mem == Shifted(old(space.mem), ShiftFrom(rsp, k), stackTop - Pow2(k), random)
    {
      ShiftFromInShadow(stackTop, k, rsp);
      space.AddFourLanes(rsp - Pow2(k), stackTop - Pow2(k), random);
    }
  }

  lemma RecordAbove(m: Mem, tls: int, top: int, k: nat)
    requires tls + BUDDY_INFO in m
    ensures ThreadOk(m, top, k) && (tls == Near(top, k) || tls == Far(top, k)) ==> m[tls + BUDDY_INFO] != 0
  {
    if ThreadOk(m, top, k) {
      RecordsInside(top, k);
    }
  }

  lemma RangeMapped(m: Mem, top: int, k: nat, tls: int, buddy: int, rsp: int, r: int, cycles: int)
    requires ThreadOk(m, top, k) && Pair(top, k, tls, buddy)
    requires top - Pow2(k) + PAGE_SIZE <= rsp <= top && Aligned(rsp)
    ensures Mapped(Changed(m, tls, buddy, r, cycles), ShiftFrom(rsp, k), top - Pow2(k))
  {
    ShiftFromInShadow(top, k, rsp);
    RecordsInside(top, k);
    ChangedMapped(m, tls, buddy, r, cycles);
  }

  lemma ChangedMapped(m: Mem, tls: int, buddy: int, r: int, cycles: int)
    requires tls + RANDOM_VAL in m && buddy + RANDOM_VAL in m
    ensures NothingUnmapped(m, Changed(m, tls, buddy, r, cycles))
  {
  }

  lemma TopIsPage(low: int, size: int, k: nat)
    requires 12 <= k && low % PAGE_SIZE == 0 && size % PAGE_SIZE == 0
    ensures (low + size) % PAGE_SIZE == 0 && (low + 4 * Pow2(k)) % PAGE_SIZE == 0
  {
    PageDivides(k);
    Multiples(low, -size, PAGE_SIZE);
    Multiples(low, -Pow2(k), PAGE_SIZE);
    Multiples(low + Pow2(k), -Pow2(k), PAGE_SIZE);
    Multiples(low + 2 * Pow2(k), -Pow2(k), PAGE_SIZE);
    Multiples(low + 3 * Pow2(k), -Pow2(k), PAGE_SIZE);
  }

  lemma InitialisedWithin(m: Mem, top: int, k: nat, random: int)
    requires Geometry(top, k)
    ensures OnlyWithin(m, Initialised(m, top, k, random), top - 4 * Pow2(k), top - Pow2(k))
  {
    RecordsInside(top, k);
    var m1 := RecordSet(m, Near(top, k), random, top, Far(top, k));
    RecordSetWithin(m, Near(top, k), random, top, Far(top, k));
    RecordSetWithin(m1, Far(top, k), random, top, Near(top, k));
  }

  // ----------------------------------------------------------------- Whole runs

  datatype Machine = Machine(mem: Mem, top: int, k: nat, rsp: int, frames: seq<Frame>, trace: seq<int>)

  datatype Step =
    /** Anything else that runs, outside the records and the shadow stack. */
    | Env(mem: Mem)
    /** Moving rsp, by calls, pushes or unwinding; frames below it are abandoned. */
    | Adjust(keep: nat, rsp: int)
    | Prologue
    | Epilogue
    | Rerandomize(tls: int, cycles: int, random: int)

  /** A processor that runs the thread, whatever is in its scratch registers. */
  predicate Runs(c: Asm.Cpu, s: Machine) {
    c.rsp == s.rsp && c.mem == s.mem
  }

  function CpuOf(s: Machine): Asm.Cpu {
    Asm.Cpu(0, 0, 0, s.rsp, 0, s.mem)
  }

  /** The live frames lie between rsp and the top, above the guard page. */
  predicate Shape(s: Machine) {
    && Geometry(s.top, s.k) && Nested(s.frames) && SlotsWithin(s.frames, s.rsp, s.top)
    && s.top - Pow2(s.k) + PAGE_SIZE <= s.rsp <= s.top && Aligned(s.rsp)
    && forall i :: 0 <= i < |s.frames| ==> IsWord(s.frames[i].saved)
  }

  predicate Live(s: Machine) {
    Shape(s) && ThreadOk(s.mem, s.top, s.k) && Holds(s.mem, -Pow2(s.k), Key(s.mem, s.top, s.k), s.frames)
  }

  function Ceiling(s: Machine, keep: nat): int
    requires keep <= |s.frames|
  {
    if keep == 0 then s.top else s.frames[keep - 1].slot
  }

  function Other(s: Machine, tls: int): int {
    if tls == Near(s.top, s.k) then Far(s.top, s.k) else Near(s.top, s.k)
  }

  predicate Enabled(s: Machine, e: Step)
    requires Live(s)
  {
    match e
    case Env(m) =>
      Kept(s.mem, m, s.top - 4 * Pow2(s.k), s.top - Pow2(s.k)) && Mapped(m, s.top - 4 * Pow2(s.k), s.top)
    case Adjust(keep, rsp) =>
      keep <= |s.frames| && s.top - Pow2(s.k) + PAGE_SIZE <= rsp <= Ceiling(s, keep) && Aligned(rsp)
    case Prologue => s.rsp < Ceiling(s, |s.frames|) && s.rsp in s.mem && IsWord(s.mem[s.rsp])
    case Epilogue => s.frames != [] && s.rsp == s.frames[|s.frames| - 1].slot
    case Rerandomize(tls, _, _) => tls == Near(s.top, s.k) || tls == Far(s.top, s.k)
  }

  /** The template's key record and shadow slot. */
  lemma LiveReadable(s: Machine)
    requires Live(s) && s.rsp < s.top
    ensures BuddyReadable(CpuOf(s), s.k)
    ensures s.mem[RecordOf(s.rsp, Pow2(s.k))] == Key(s.mem, s.top, s.k)
  {
    RecordFound(s.top, s.k, s.rsp);
    SlotMapped(s.mem, s.top, s.k, s.rsp);
  }

  lemma SlotMapped(m: Mem, top: int, k: nat, rsp: int)
    requires 12 <= k && Mapped(m, top - 4 * Pow2(k), top) && top - Pow2(k) <= rsp < top && Aligned(rsp)
    ensures rsp - Pow2(k) in m
  {
    SizeAligned(k);
    AlignedSum(rsp, -Pow2(k));
  }

  function After(s: Machine, e: Step): Machine
    requires Live(s) && Enabled(s, e)
  {
    match e
    case Env(m) => s.(mem := m)
    case Adjust(keep, rsp) => s.(rsp := rsp, frames := s.frames[..keep])
    case Prologue =>
      LiveReadable(s);
      s.(mem := Protected(CpuOf(s), Pow2(s.k), 0).mem, frames := s.frames + [Frame(s.rsp, s.mem[s.rsp])])
    case Epilogue =>
      LiveReadable(s);
      s.(rsp := s.rsp + 8, frames := s.frames[..|s.frames| - 1], trace := s.trace + [BuddyTarget(CpuOf(s), Pow2(s.k))])
    case Rerandomize(tls, cycles, random) =>
      s.(mem := Rekeyed(s.mem, tls, Other(s, tls), s.top, s.k, s.rsp, random, cycles))
  }

  lemma PushShape(s: Machine, f: Frame)
    requires Shape(s) && f.slot == s.rsp < Ceiling(s, |s.frames|) && IsWord(f.saved)
    ensures Shape(s.(frames := s.frames + [f]))
  {
  }

  lemma PopShape(s: Machine, keep: nat, rsp: int)
    requires Shape(s) && keep <= |s.frames| && Aligned(rsp)
    requires s.top - Pow2(s.k) + PAGE_SIZE <= rsp <= Ceiling(s, keep)
    ensures Shape(s.(rsp := rsp, frames := s.frames[..keep]))
  {
    forall i | 0 <= i < keep
      ensures rsp <= s.frames[i].slot
    {
      assert i < keep - 1 ==> s.frames[keep - 1].slot < s.frames[i].slot;
    }
  }

  lemma PopRoom(s: Machine)
    requires Shape(s) && s.frames != [] && s.rsp == s.frames[|s.frames| - 1].slot
    ensures s.top - Pow2(s.k) + PAGE_SIZE <= s.rsp + 8 <= Ceiling(s, |s.frames| - 1) && Aligned(s.rsp + 8)
  {
    hide Geometry;
    TopAligned(s.top, s.k);
    var keep := |s.frames| - 1;
    if keep > 0 {
      assert s.frames[keep].slot < s.frames[keep - 1].slot;
    }
  }

  lemma TopAligned(top: int, k: nat)
    requires Geometry(top, k)
    ensures Aligned(top)
  {
  }

  /** A write into the shadow stack leaves the records alone. */
  lemma SlotWriteOk(m: Mem, top: int, k: nat, a: int, v: int)
    requires ThreadOk(m, top, k) && top - 2 * Pow2(k) + PAGE_SIZE <= a < top - Pow2(k)
    ensures ThreadOk(m[a := v], top, k) && Key(m[a := v], top, k) == Key(m, top, k)
  {
    RecordsInside(top, k);
    SlotWriteRecord(m, Near(top, k), top, Far(top, k), a, v);
    SlotWriteRecord(m, Far(top, k), top, Near(top, k), a, v);
  }

  lemma SlotWriteRecord(m: Mem, rec: int, top: int, buddy: int, a: int, v: int)
    requires RecordOk(m, rec, top, buddy) && rec + TLS_INFO_SIZE <= a
    ensures RecordOk(m[a := v], rec, top, buddy) && m[a := v][rec + RANDOM_VAL] == m[rec + RANDOM_VAL]
  {
  }

  lemma PrologueIs(s: Machine, f: Frame)
    requires Live(s) && Enabled(s, Prologue) && f == Frame(s.rsp, s.mem[s.rsp])
    ensures After(s, Prologue)
         == s.(mem := s.mem[s.rsp - Pow2(s.k) := Wrap(f.saved + Key(s.mem, s.top, s.k))], frames := s.frames + [f])
  {
    LiveReadable(s);
  }

  lemma PrologueLive(s: Machine)
    requires Live(s) && Enabled(s, Prologue)
    ensures Live(After(s, Prologue))
  {
    hide After, ThreadOk;
    var f, key := Frame(s.rsp, s.mem[s.rsp]), Key(s.mem, s.top, s.k);
    PrologueIs(s, f);
    PushShape(s, f);
    PushHolds(s.mem, -Pow2(s.k), key, s.frames, f);
    SlotWriteOk(s.mem, s.top, s.k, s.rsp - Pow2(s.k), Wrap(f.saved + key));
  }

  lemma PopLive(s: Machine, keep: nat, rsp: int, trace: seq<int>)
    requires Live(s) && keep <= |s.frames| && Aligned(rsp)
    requires s.top - Pow2(s.k) + PAGE_SIZE <= rsp <= Ceiling(s, keep)
    ensures Live(s.(rsp := rsp, frames := s.frames[..keep], trace := trace))
  {
    PopShape(s, keep, rsp);
  }

  lemma AdjustLive(s: Machine, keep: nat, rsp: int)
    requires Live(s) && Enabled(s, Adjust(keep, rsp))
    ensures Live(After(s, Adjust(keep, rsp)))
  {
    PopLive(s, keep, rsp, s.trace);
  }

  lemma EpilogueLive(s: Machine)
    requires Live(s) && Enabled(s, Epilogue)
    ensures Live(After(s, Epilogue))
  {
    hide After;
    PopRoom(s);
    EpilogueIs(s);
    PopLive(s, |s.frames| - 1, s.rsp + 8, s.trace + [BuddyTarget(CpuOf(s), Pow2(s.k))]);
  }

  lemma EpilogueIs(s: Machine)
    requires Live(s) && Enabled(s, Epilogue)
    ensures BuddyReadable(CpuOf(s), s.k)
    ensures After(s, Epilogue)
         == s.(rsp := s.rsp + 8, frames := s.frames[..|s.frames| - 1],
               trace := s.trace + [BuddyTarget(CpuOf(s), Pow2(s.k))])
  {
    hide BuddyTarget, Protected, Rekeyed;
    LiveReadable(s);
  }

  lemma EnvLive(s: Machine, m: Mem)
    requires Live(s) && Enabled(s, Env(m))
    ensures Live(s.(mem := m))
  {
    hide RecordOk, Mapped;
    var S := Pow2(s.k);
    RecordsInside(s.top, s.k);
    SlotsWider(s.frames, s.rsp, s.top, s.top - 3 * S, s.top);
    KeptHolds(s.mem, m, -S, Key(s.mem, s.top, s.k), s.frames, s.top - 4 * S, s.top - S);
    RecordKept(s.mem, m, Near(s.top, s.k), s.top, Far(s.top, s.k));
    RecordKept(s.mem, m, Far(s.top, s.k), s.top, Near(s.top, s.k));
  }

  lemma RerandomizeLive(s: Machine, tls: int, cycles: int, random: int)
    requires Live(s) && Enabled(s, Rerandomize(tls, cycles, random))
    ensures Live(After(s, Rerandomize(tls, cycles, random)))
  {
    hide Rekeyed;
    RekeyedOk(s.mem, tls, Other(s, tls), s.top, s.k, s.rsp, random, cycles);
    RekeyedHolds(s.mem, tls, Other(s, tls), s.top, s.k, s.rsp, random, cycles, s.frames);
  }

  lemma StepLive(s: Machine, e: Step)
    requires Live(s) && Enabled(s, e)
    ensures Live(After(s, e))
  {
    match e
    case Env(m) => EnvLive(s, m);
    case Adjust(keep, rsp) => AdjustLive(s, keep, rsp);
    case Prologue => PrologueLive(s);
    case Epilogue => EpilogueLive(s);
    case Rerandomize(tls, cycles, random) => RerandomizeLive(s, tls, cycles, random);
  }

  predicate StepAt(states: seq<Machine>, steps: seq<Step>, i: nat)
    requires |states| == |steps| + 1 && i < |steps|
  {
    Live(states[i]) ==> Enabled(states[i], steps[i]) && states[i + 1] == After(states[i], steps[i])
  }

  /** A run through `states`, by `steps`, from a live state; all its states are (RunKeepsLive). */
  predicate IsRun(states: seq<Machine>, steps: seq<Step>) {
    |states| == |steps| + 1 && Live(states[0]) && forall i :: 0 <= i < |steps| ==> StepAt(states, steps, i)
  }

  lemma {:induction false} RunKeepsLive(states: seq<Machine>, steps: seq<Step>, i: nat)
    requires IsRun(states, steps) && i <= |steps|
    ensures Live(states[i])
  {
    hide Live, Enabled, After;
    if i > 0 {
      RunKeepsLive(states, steps, i - 1);
      assert StepAt(states, steps, i - 1);
      StepLive(states[i - 1], steps[i - 1]);
    }
  }

  /** The innermost frame's return slot is on top of the stack. */
  predicate AtReturn(s: Machine) {
    s.frames != [] && s.rsp == s.frames[|s.frames| - 1].slot
  }

  /** In every state of every run both records agree, every live slot holds its return
      address plus their key, and running the compiled epilogue of the innermost frame
      jumps to the address recorded for it. */
  lemma RunReturns(states: seq<Machine>, steps: seq<Step>, j: nat, c: Asm.Cpu)
    requires IsRun(states, steps) && j <= |steps| && Runs(c, states[j])
    ensures Live(states[j])
    ensures var s := states[j];
            AtReturn(s) ==> JumpsTo(Asm.Run(BuddyEpilogue(Pow2(s.k)), c), s.frames[|s.frames| - 1].saved)
  {
    hide Live, JumpsTo, StepAt;
    RunKeepsLive(states, steps, j);
    if AtReturn(states[j]) {
      EpilogueJumps(states[j], c);
    }
  }

  /** `f` is the live frame at depth `d`. */
  predicate LiveAt(s: Machine, d: nat, f: Frame) {
    d < |s.frames| && s.frames[d] == f
  }

  /** The step pushes the frame `f`: what is on top of the stack, at rsp. */
  predicate Pushes(s: Machine, e: Step, f: Frame) {
    e.Prologue? && s.rsp in s.mem && f == Frame(s.rsp, s.mem[s.rsp])
  }

  lemma FrameStep(s: Machine, e: Step, d: nat, f: Frame)
    requires Live(s) && Enabled(s, e) && LiveAt(After(s, e), d, f)
    ensures LiveAt(s, d, f) || Pushes(s, e, f)
  {
  }

  /** A frame that was not live at the start was pushed by one step and has been live, at its
      depth, ever since. */
  lemma {:induction false} FrameOrigin(states: seq<Machine>, steps: seq<Step>, j: nat, d: nat, f: Frame)
      returns (i: nat)
    requires IsRun(states, steps) && j <= |steps| && LiveAt(states[j], d, f) && !LiveAt(states[0], d, f)
    ensures i < j && Pushes(states[i], steps[i], f)
    ensures forall k :: i < k <= j ==> LiveAt(states[k], d, f)
  {
    hide Live, Enabled, After;
    RunKeepsLive(states, steps, j - 1);
    assert StepAt(states, steps, j - 1);
    FrameStep(states[j - 1], steps[j - 1], d, f);
    if LiveAt(states[j - 1], d, f) {
      i := FrameOrigin(states, steps, j - 1, d, f);
    } else {
      i := j - 1;
    }
  }

  /** Return correctness, for runs that start without frames: whatever ran in between, the
      compiled epilogue jumps to the address that was in its frame's slot when that frame's
      prologue ran. */
  lemma EpilogueReturns(states: seq<Machine>, steps: seq<Step>, j: nat, c: Asm.Cpu)
      returns (i: nat, f: Frame)
    requires IsRun(states, steps) && states[0].frames == [] && j <= |steps|
    requires AtReturn(states[j]) && Runs(c, states[j])
    ensures i < j && Pushes(states[i], steps[i], f) && states[i].rsp == states[j].rsp
    ensures forall k :: i < k <= j ==> LiveAt(states[k], |states[j].frames| - 1, f)
    ensures JumpsTo(Asm.Run(BuddyEpilogue(Pow2(states[j].k)), c), f.saved)
  {
    hide Live, JumpsTo, StepAt;
    RunReturns(states, steps, j, c);
    f := states[j].frames[|states[j].frames| - 1];
    i := FrameOrigin(states, steps, j, |states[j].frames| - 1, f);
  }

  /** The records once initialised, a thread above the guard page can start to run, without frames. */
  lemma InitialisedLive(m: Mem, top: int, k: nat, rsp: int)
    requires ThreadOk(m, top, k)
    ensures Live(Machine(m, top, k, rsp, [], []))
       <==> top - Pow2(k) + PAGE_SIZE <= rsp <= top && Aligned(rsp)
  {
    hide RecordOk, Mapped, Pow2;
  }

  predicate JumpsTo(o: Asm.Outcome, target: int) {
    o.Jump? && o.target == target
  }

  lemma EpilogueJumps(s: Machine, c: Asm.Cpu)
    requires Live(s) && Runs(c, s) && s.frames != [] && s.rsp == s.frames[|s.frames| - 1].slot
    ensures JumpsTo(Asm.Run(BuddyEpilogue(Pow2(s.k)), c), s.frames[|s.frames| - 1].saved)
  {
    hide ThreadOk;
    TargetIsSaved(s);
    LiveReadable(s);
    BuddyEpilogueRuns(c, s.k);
  }

  /** The same for code that reads the mask from the global variable at `g`. */
  lemma SizedEpilogueJumps(s: Machine, g: int, c: Asm.Cpu)
    requires Live(s) && Runs(c, s) && s.frames != [] && s.rsp == s.frames[|s.frames| - 1].slot
    requires IsWord(g) && g in s.mem && s.mem[g] == Wrap(-Pow2(s.k))
    ensures JumpsTo(Asm.Run(SizedEpilogue(g), c), s.frames[|s.frames| - 1].saved)
  {
    hide ThreadOk;
    TargetIsSaved(s);
    LiveReadable(s);
    SizedEpilogueRuns(c, s.k, g);
  }

  lemma SizedPrologueCode(s: Machine, g: int, c: Asm.Cpu)
    requires Live(s) && Runs(c, s) && Enabled(s, Prologue) && IsWord(g) && g in s.mem && s.mem[g] == Wrap(-Pow2(s.k))
    ensures var o := Asm.Run(SizedPrologue(g), c);
            o.Next? && o.cpu.rsp == s.rsp && o.cpu.mem == After(s, Prologue).mem
  {
    hide SizedPrologue, ThreadOk;
    LiveReadable(s);
    SizedPrologueRuns(c, s.k, g);
  }

  lemma TargetIsSaved(s: Machine)
    requires Live(s) && s.frames != [] && s.rsp == s.frames[|s.frames| - 1].slot
    ensures RecordOf(s.rsp, Pow2(s.k)) in s.mem && s.rsp - Pow2(s.k) in s.mem && IsWord(s.mem[s.rsp - Pow2(s.k)])
    ensures BuddyTarget(CpuOf(s), Pow2(s.k)) == s.frames[|s.frames| - 1].saved
  {
    hide ThreadOk;
    var f, key := s.frames[|s.frames| - 1], Key(s.mem, s.top, s.k);
    LiveReadable(s);
    assert Decodes(s.mem, -Pow2(s.k), key, f);
    WrapSum(f.saved + key, -key);
  }
}
