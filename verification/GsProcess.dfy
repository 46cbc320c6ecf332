/** A process under GS_RSP as a state machine: many threads call, return, move their
    shadow regions, start and exit, in any interleaving, while the cleaner unmaps
    released regions and the rest of the program does what it likes outside them. */
module GsProcess {
  import opened Words
  import opened Spa
  import opened Memory
  import opened ShadowStack
  import opened Templates
  import opened GsRsp
  import opened GsRspRuntime
  import opened RateGate

  /** Where a thread is in gs_rsp_runtime_rerandomize, with its local variables. */
  datatype Phase =
    | Running
    | Searching(meta: int)
    | Holding(meta: int, addr: int)
    | Remapped(diff: int, addr: int)

  /** A thread: the bounds of its call stack, the rsp of its initialisation, its rsp and
      GS base; where its shadow region is; its live protected frames; and the targets
      of its returns so far. */
  datatype Thread = Thread(
    lo: int, hi: int, rsp0: int, rsp: int, gs: int,
    base: int, phase: Phase, frames: seq<Frame>, trace: seq<int>)

  datatype Process = Process(mem: Mem, threads: map<nat, Thread>, table: seq<RegionInfo>, leaked: seq<int>)

  datatype Step =
    /** A thread whose stack is [lo, hi) is initialised at rsp0 with a region at base. */
    | Start(t: nat, lo: int, hi: int, rsp0: int, base: int)
    /** Anything else that runs: it writes and maps words, and unmaps others, outside shadow regions. */
    | Env(writes: Mem, unmaps: set<int>)
    | Call(t: nat, ret: int)
    | Prologue(t: nat)
    /** A call site that stores the return address itself and enters past the prologue. */
    | RedirectedCall(t: nat, ret: int)
    /** Moving rsp; frames below it are abandoned (as longjmp and unwinding do). */
    | Adjust(t: nat, keep: nat, rsp: int)
    | Epilogue(t: nat)
    /** The pieces of gs_rsp_runtime_rerandomize between system calls. */
    | Enter(t: nat, now: int)
    | Mmap(t: nat, addr: int)
    | Reject(t: nat)
    | GiveUp(t: nat)
    | RangeFails(t: nat)
    | Remap(t: nat)
    | RemapFails(t: nat)
    | SetGs(t: nat)
    | SetGsFails(t: nat)
    /** release_shadow_stack, after which the thread is gone. */
    | Exit(t: nat, now: int)
    /** The cleaner retires one expired entry. */
    | Clean(i: nat, now: int)

  // ------------------------------------------------------ Who owns which region

  datatype Owner = Live(t: nat) | Held(t: nat) | Waiting(i: nat) | Lost(i: nat)

  predicate Owns(p: Process, o: Owner) {
    match o
    case Live(t) => t in p.threads
    case Held(t) => t in p.threads && p.threads[t].phase.Holding?
    case Waiting(i) => i < |p.table| && p.table[i].valid
    case Lost(i) => i < |p.leaked|
  }

  function BaseOf(p: Process, o: Owner): int
    requires Owns(p, o)
  {
    match o
    case Live(t) => p.threads[t].base
    case Held(t) => p.threads[t].phase.addr
    case Waiting(i) => p.table[i].shadowStack
    case Lost(i) => p.leaked[i]
  }

  ghost predicate Outside(p: Process, a: int) {
    forall o :: Owns(p, o) ==> !(BaseOf(p, o) <= a < BaseOf(p, o) + REGION_SIZE)
  }

  /** Memory with some words written or mapped, and others unmapped. */
  function Edited(m: Mem, writes: Mem, unmaps: set<int>): Mem {
    (m + writes) - unmaps
  }

  /** What the rest of the program may do: anything outside shadow regions that leaves
      call stacks mapped. */
  ghost predicate CanEdit(p: Process, writes: Mem, unmaps: set<int>) {
    && (forall a :: a in writes || a in unmaps ==> Outside(p, a))
    && forall t :: t in p.threads ==> Mapped(Edited(p.mem, writes, unmaps), p.threads[t].lo, p.threads[t].hi)
  }

  // ------------------------------------------------------------------ The steps

  /** The highest rsp that leaves the outermost `keep` frames live. */
  function Ceiling(th: Thread, keep: nat): int
    requires keep <= |th.frames|
  {
    if keep == 0 then th.hi else th.frames[keep - 1].slot
  }

  ghost predicate StackFree(p: Process, lo: int, hi: int) {
    && (forall o :: Owns(p, o) ==> Apart(lo, hi, BaseOf(p, o), BaseOf(p, o) + REGION_SIZE))
    && (forall t :: t in p.threads ==> Apart(lo, hi, p.threads[t].lo, p.threads[t].hi))
  }

  /** A thread right after its initialisation at rsp0. */
  function Started(lo: int, hi: int, rsp0: int, base: int): Thread {
    Thread(lo, hi, rsp0, rsp0, GsFor(base, rsp0), base, Running, [], [])
  }

  /** Memory once a fresh region at `base` is initialised for it. */
  function StartMem(m: Mem, rsp0: int, base: int): Mem {
    Initialised(Zeroed(m, base, base + REGION_SIZE), base, GsFor(base, rsp0))
  }

  ghost predicate CanStart(p: Process, t: nat, lo: int, hi: int, rsp0: int, base: int) {
    && t !in p.threads && Aligned(lo) && Aligned(hi)
    && 2 * REGION_SIZE <= lo && rsp0 - CALL_STACK_SIZE <= lo < rsp0 <= hi <= USER_SPACE_SIZE
    && Mapped(p.mem, lo, hi) && StackFree(p, lo, hi)
    && Placed(base, rsp0) && Unmapped(p.mem, base, base + REGION_SIZE)
  }

  /** A running thread that is about to push a protected frame at `slot`. */
  predicate CanProtect(th: Thread, slot: int) {
    && th.phase.Running? && th.lo <= slot && slot + 8 <= th.hi && InWindow(slot, th.rsp0)
    && slot < Ceiling(th, |th.frames|)
  }

  /** The region that the runtime finds for a thread by masking. */
  function Found(th: Thread): int {
    RegionByRsp(th.rsp, th.gs)
  }

  predicate InRuntime(p: Process, t: nat) {
    t in p.threads && p.threads[t].rsp0 - CALL_STACK_SIZE <= p.threads[t].rsp < p.threads[t].rsp0
  }

  /** The new GS base that a holding thread computes from its metadata. */
  function NewDiff(m: Mem, ph: Phase): int
    requires ph.Holding? && ph.meta + DIFF in m && ph.meta + SHADOW_STACK in m
  {
    m[ph.meta + DIFF] + (ph.addr - m[ph.meta + SHADOW_STACK])
  }

  predicate CanMove(p: Process, t: nat) {
    && t in p.threads && p.threads[t].phase.Holding?
    && Acceptable(p.threads[t].phase.addr, p.threads[t].rsp)
    && p.threads[t].phase.meta + DIFF in p.mem && p.threads[t].phase.meta + SHADOW_STACK in p.mem
  }

  ghost predicate Enabled(p: Process, s: Step) {
    match s
    case Start(t, lo, hi, rsp0, base) =>
      CanStart(p, t, lo, hi, rsp0, base)
    case Env(writes, unmaps) =>
      CanEdit(p, writes, unmaps)
    case Call(t, ret) =>
      && t in p.threads && p.threads[t].phase.Running? && IsWord(ret)
      && p.threads[t].lo <= p.threads[t].rsp - 8 && p.threads[t].rsp <= p.threads[t].hi
    case Prologue(t) =>
      && t in p.threads && CanProtect(p.threads[t], p.threads[t].rsp)
      && p.threads[t].rsp in p.mem && IsWord(p.mem[p.threads[t].rsp])
    case RedirectedCall(t, ret) =>
      t in p.threads && CanProtect(p.threads[t], p.threads[t].rsp - 8) && IsWord(ret)
    case Adjust(t, keep, rsp) =>
      && t in p.threads && p.threads[t].phase.Running? && keep <= |p.threads[t].frames|
      && p.threads[t].lo <= rsp <= Ceiling(p.threads[t], keep) && Aligned(rsp)
    case Epilogue(t) =>
      && t in p.threads && p.threads[t].phase.Running? && p.threads[t].frames != []
      && p.threads[t].rsp == p.threads[t].frames[|p.threads[t].frames| - 1].slot
      && GsSlot(p.threads[t].gs, p.threads[t].rsp) in p.mem
    case Enter(t, now) =>
      && InRuntime(p, t) && p.threads[t].phase.Running? && IsWord(now)
      && MetadataMapped(p.mem, Found(p.threads[t])) && Ready(p.mem, Found(p.threads[t]))
      && PeriodElapsed(p.mem[Metadata(Found(p.threads[t])) + CPU_CYCLES], now)
    case Mmap(t, addr) =>
      && t in p.threads && p.threads[t].phase.Searching?
      && addr % PAGE_SIZE == 0 && 0 < addr && Unmapped(p.mem, addr, addr + REGION_SIZE)
    case Reject(t) =>
      && t in p.threads && p.threads[t].phase.Holding?
      && !Acceptable(p.threads[t].phase.addr, p.threads[t].rsp)
    case GiveUp(t) =>
      t in p.threads && p.threads[t].phase.Searching?
    case RangeFails(t) =>
      CanMove(p, t) && !(0 <= NewDiff(p.mem, p.threads[t].phase) <= MAX_GS_BASE_ADDR)
    case Remap(t) =>
      CanMove(p, t) && 0 <= NewDiff(p.mem, p.threads[t].phase) <= MAX_GS_BASE_ADDR
    case RemapFails(t) =>
      CanMove(p, t)
    case SetGs(t) =>
      t in p.threads && p.threads[t].phase.Remapped?
    case SetGsFails(t) =>
      t in p.threads && p.threads[t].phase.Remapped? && p.threads[t].phase.diff > MAX_GS_BASE_ADDR
    case Exit(t, now) =>
      && InRuntime(p, t) && p.threads[t].phase.Running?
      && Metadata(Found(p.threads[t])) + SHADOW_STACK in p.mem
    case Clean(i, now) =>
      i < |p.table| && Expired(p.table[i], now)
  }

  /** The state with thread `t` replaced. */
  function With(p: Process, t: nat, th: Thread, m: Mem): Process {
    p.(threads := p.threads[t := th], mem := m)
  }

  /** A thread whose region has been remapped onto its reservation. */
  function Remapping(th: Thread, diff: int): Thread
    requires th.phase.Holding?
  {
    th.(phase := Remapped(diff, th.phase.addr), base := th.phase.addr)
  }

  /** The region at `shadow` is moved, and its new place and GS base recorded at `meta`. */
  function RemapAt(p: Process, t: nat, meta: int, shadow: int, diff: int): Process
    requires t in p.threads && p.threads[t].phase.Holding?
  {
    With(p, t, Remapping(p.threads[t], diff), Relocate(p.mem, meta, shadow, p.threads[t].phase.addr, diff))
  }

  ghost function After(p: Process, s: Step): Process
    requires Enabled(p, s)
  {
    match s
    case Start(t, lo, hi, rsp0, base) =>
      With(p, t, Started(lo, hi, rsp0, base), StartMem(p.mem, rsp0, base))
    case Env(writes, unmaps) =>
      p.(mem := Edited(p.mem, writes, unmaps))
    case Call(t, ret) =>
      var th := p.threads[t];
      With(p, t, th.(rsp := th.rsp - 8), p.mem[th.rsp - 8 := ret])
    case Prologue(t) =>
      var th := p.threads[t];
      With(p, t, th.(frames := th.frames + [Frame(th.rsp, p.mem[th.rsp])]),
           p.mem[GsSlot(th.gs, th.rsp) := p.mem[th.rsp]])
    case RedirectedCall(t, ret) =>
      var th := p.threads[t];
      With(p, t, th.(rsp := th.rsp - 8, frames := th.frames + [Frame(th.rsp - 8, ret)]),
           p.mem[GsSlot(th.gs, th.rsp - 8) := ret][th.rsp - 8 := ret])
    case Adjust(t, keep, rsp) =>
      var th := p.threads[t];
      With(p, t, th.(rsp := rsp, frames := th.frames[..keep]), p.mem)
    case Epilogue(t) =>
      var th := p.threads[t];
      With(p, t, th.(rsp := th.rsp + 8, frames := th.frames[..|th.frames| - 1],
                     trace := th.trace + [p.mem[GsSlot(th.gs, th.rsp)]]), p.mem)
    case Enter(t, now) =>
      var th := p.threads[t];
      With(p, t, th.(phase := Searching(Metadata(Found(th)))), Entered(p.mem, Found(th), now))
    case Mmap(t, addr) =>
      var th := p.threads[t];
      With(p, t, th.(phase := Holding(th.phase.meta, addr)), Zeroed(p.mem, addr, addr + REGION_SIZE))
    case Reject(t) =>
      var th := p.threads[t];
      With(p, t, th.(phase := Searching(th.phase.meta)),
           Dropped(p.mem, th.phase.addr, th.phase.addr + REGION_SIZE))
    case GiveUp(t) =>
      var th := p.threads[t];
      With(p, t, th.(phase := Running), Cleared(p.mem, th.phase.meta))
    case RangeFails(t) =>
      Abandoned(p, t)
    case Remap(t) =>
      var th := p.threads[t];
      RemapAt(p, t, th.phase.meta, p.mem[th.phase.meta + SHADOW_STACK], NewDiff(p.mem, th.phase))
    case RemapFails(t) =>
      Abandoned(p, t)
    case SetGs(t) =>
      var th := p.threads[t];
      With(p, t, th.(phase := Running, gs := th.phase.diff), Left(p.mem, th.phase.addr))
    case SetGsFails(t) => // what the source does here unmaps the region just moved
      var th := p.threads[t];
      With(p, t, th.(phase := Running), Dropped(p.mem, th.phase.addr, th.phase.addr + REGION_SIZE))
    case Exit(t, now) =>
      var shadow := p.mem[Metadata(Found(p.threads[t])) + SHADOW_STACK];
      p.(threads := p.threads - {t}, table := Queued(p.table, shadow, now),
         leaked := if FirstFree(p.table) == |p.table| then p.leaked + [shadow] else p.leaked)
    case Clean(i, now) =>
      p.(table := p.table[i := p.table[i].(valid := false)],
         mem := Dropped(p.mem, p.table[i].shadowStack, p.table[i].shadowStack + REGION_SIZE))
  }

  /** A thread that could not move gives its reservation back and leaves. */
  function Abandoned(p: Process, t: nat): Process
    requires t in p.threads && p.threads[t].phase.Holding?
  {
    var th := p.threads[t];
    With(p, t, th.(phase := Running),
         Cleared(Dropped(p.mem, th.phase.addr, th.phase.addr + REGION_SIZE), th.phase.meta))
  }
}
