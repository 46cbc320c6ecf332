/** Whole runs of the GS_RSP process: what holds in every reachable state. */
module GsRuns {
  import opened Spa
  import opened Memory
  import opened ShadowStack
  import opened Templates
  import opened GsRsp
  import opened GsRspRuntime
  import opened GsProcess
  import opened GsInvariant
  import opened GsSteps
  import opened GsMoves

  // ------------------------------------------------- Every step keeps the invariant

  lemma StartStep(p: Process, t: nat, lo: int, hi: int, rsp0: int, base: int)
    requires Inv(p) && Enabled(p, Start(t, lo, hi, rsp0, base))
    ensures Inv(After(p, Start(t, lo, hi, rsp0, base)))
  {
    StartKeeps(p, t, lo, hi, rsp0, base);
  }

  lemma RedirectedStep(p: Process, t: nat, ret: int)
    requires Inv(p) && Enabled(p, RedirectedCall(t, ret))
    ensures Inv(After(p, RedirectedCall(t, ret)))
  {
    RedirectedIsCallThenPrologue(p, t, ret);
    CallStep(p, t, ret);
    PrologueStep(After(p, Call(t, ret)), t);
  }

  lemma CallStep(p: Process, t: nat, ret: int)
    requires Inv(p) && Enabled(p, Call(t, ret))
    ensures Inv(After(p, Call(t, ret)))
  {
    CallIs(p, t, ret);
    CallKeeps(p, t, ret);
  }

  lemma CallIs(p: Process, t: nat, ret: int)
    requires Enabled(p, Call(t, ret))
    ensures t in p.threads && p.threads[t].phase.Running? && p.threads[t].lo <= p.threads[t].rsp - 8
    ensures After(p, Call(t, ret))
         == With(p, t, p.threads[t].(rsp := p.threads[t].rsp - 8), p.mem[p.threads[t].rsp - 8 := ret])
  {
  }

  lemma PrologueStep(p: Process, t: nat)
    requires Inv(p) && Enabled(p, Prologue(t))
    ensures Inv(After(p, Prologue(t)))
  {
    PrologueKeeps(p, t);
  }

  lemma AdjustStep(p: Process, t: nat, keep: nat, rsp: int)
    requires Inv(p) && Enabled(p, Adjust(t, keep, rsp))
    ensures Inv(After(p, Adjust(t, keep, rsp)))
  {
    AdjustKeeps(p, t, keep, rsp);
  }

  lemma EpilogueStep(p: Process, t: nat)
    requires Inv(p) && Enabled(p, Epilogue(t))
    ensures Inv(After(p, Epilogue(t)))
  {
    var th := p.threads[t];
    EpilogueIs(p, t);
    EpilogueKeeps(p, t, th.trace + [p.mem[GsSlot(th.gs, th.rsp)]]);
  }

  lemma EpilogueIs(p: Process, t: nat)
    requires Enabled(p, Epilogue(t))
    ensures t in p.threads && p.threads[t].phase.Running? && p.threads[t].frames != []
    ensures p.threads[t].rsp == p.threads[t].frames[|p.threads[t].frames| - 1].slot
    ensures GsSlot(p.threads[t].gs, p.threads[t].rsp) in p.mem
    ensures After(p, Epilogue(t))
         == With(p, t, Returned(p.threads[t], p.threads[t].trace
                                              + [p.mem[GsSlot(p.threads[t].gs, p.threads[t].rsp)]]), p.mem)
  {
  }

  lemma FoundIsOwn(p: Process, t: nat)
    requires Inv(p) && InRuntime(p, t) && p.threads[t].phase.Running?
    ensures Found(p.threads[t]) == p.threads[t].base
    ensures MetadataMapped(p.mem, p.threads[t].base)
    ensures Recorded(p.mem, p.threads[t].base, p.threads[t].base, p.threads[t].gs)
  {
    FindsOwnRegion(p.mem, p.threads[t]);
  }

  lemma EnterStep(p: Process, t: nat, now: int)
    requires Inv(p) && Enabled(p, Enter(t, now))
    ensures Inv(After(p, Enter(t, now)))
  {
    FoundIsOwn(p, t);
    EnterKeeps(p, t, now);
  }

  lemma MmapStep(p: Process, t: nat, addr: int)
    requires Inv(p) && Enabled(p, Mmap(t, addr))
    ensures Inv(After(p, Mmap(t, addr)))
  {
    MmapIs(p, t, addr);
    MmapKeeps(p, t, addr);
  }

  lemma MmapIs(p: Process, t: nat, addr: int)
    requires Enabled(p, Mmap(t, addr))
    ensures t in p.threads && p.threads[t].phase.Searching? && Aligned(addr) && 0 < addr
    ensures Unmapped(p.mem, addr, addr + REGION_SIZE)
    ensures After(p, Mmap(t, addr))
         == With(p, t, p.threads[t].(phase := Holding(p.threads[t].phase.meta, addr)),
                 Zeroed(p.mem, addr, addr + REGION_SIZE))
  {
    hide Zeroed, Unmapped, Aligned, Initialised, Relocate, Dropped;
    PageIsAligned(addr);
  }

  lemma RejectStep(p: Process, t: nat)
    requires Inv(p) && Enabled(p, Reject(t))
    ensures Inv(After(p, Reject(t)))
  {
    RejectKeeps(p, t);
  }

  lemma SearchingFacts(m: Mem, th: Thread)
    requires ThreadOk(m, th) && th.phase.Searching?
    ensures th.gs == GsFor(th.base, th.rsp0) && th.phase.meta == Metadata(th.base)
  {
  }

  lemma GiveUpStep(p: Process, t: nat)
    requires Inv(p) && Enabled(p, GiveUp(t))
    ensures Inv(After(p, GiveUp(t)))
  {
    SearchingFacts(p.mem, p.threads[t]);
    LeaveKeeps(p, t, p.threads[t].gs);
    GiveUpIs(p, t);
  }

  lemma GiveUpIs(p: Process, t: nat)
    requires Enabled(p, GiveUp(t)) && p.threads[t].phase.meta == Metadata(p.threads[t].base)
    ensures After(p, GiveUp(t))
         == With(p, t, p.threads[t].(phase := Running, gs := p.threads[t].gs), Left(p.mem, p.threads[t].base))
  {
  }

  /** The move that a holding thread computes is one of its own region, to a GS base in range. */
  predicate MovesOwn(m: Mem, th: Thread) {
    && th.phase.Holding? && th.phase.meta + DIFF in m && th.phase.meta + SHADOW_STACK in m
    && th.phase.meta == Metadata(th.base) && m[th.phase.meta + SHADOW_STACK] == th.base
    && NewDiff(m, th.phase) == GsFor(th.phase.addr, th.rsp0)
    && 0 <= NewDiff(m, th.phase) <= MAX_GS_BASE_ADDR
  }

  /** What a holding thread computes from its metadata is the GS base of the new place. */
  lemma NewDiffIsGsFor(p: Process, t: nat)
    requires CanMove(p, t) && Inv(p)
    ensures t in p.threads && MovesOwn(p.mem, p.threads[t])
  {
    HoldingRange(p.mem, p.threads[t]);
  }

  lemma HoldingRange(m: Mem, th: Thread)
    requires ThreadOk(m, th) && th.phase.Holding? && Acceptable(th.phase.addr, th.rsp)
    ensures th.phase.meta + DIFF in m && th.phase.meta + SHADOW_STACK in m
    ensures th.phase.meta == Metadata(th.base) && m[th.phase.meta + SHADOW_STACK] == th.base
    ensures NewDiff(m, th.phase) == GsFor(th.phase.addr, th.rsp0)
    ensures 0 <= GsFor(th.phase.addr, th.rsp0) <= MAX_GS_BASE_ADDR
  {
    HoldingFacts(m, th);
    AcceptedIsPlaced(th.phase.addr, th.rsp, th.rsp0);
    GsBaseInRange(th.phase.addr, th.rsp0);
  }

  lemma RemapStep(p: Process, t: nat)
    requires Inv(p) && Enabled(p, Remap(t))
    ensures Inv(After(p, Remap(t)))
  {
    NewDiffIsGsFor(p, t);
    RemapIs(p, t, p.threads[t].base, GsFor(p.threads[t].phase.addr, p.threads[t].rsp0));
    RemapKeeps(p, t);
  }

  lemma RemapIs(p: Process, t: nat, base: int, diff: int)
    requires Enabled(p, Remap(t)) && p.threads[t].phase.meta == Metadata(base)
    requires p.mem[p.threads[t].phase.meta + SHADOW_STACK] == base && NewDiff(p.mem, p.threads[t].phase) == diff
    ensures After(p, Remap(t)) == RemapAt(p, t, Metadata(base), base, diff)
  {
    hide RemapAt;
  }

  lemma RemappedFacts(m: Mem, th: Thread)
    requires ThreadOk(m, th) && th.phase.Remapped?
    ensures th.phase.addr == th.base && th.phase.diff == GsFor(th.base, th.rsp0)
    ensures th.phase.diff <= MAX_GS_BASE_ADDR
  {
    GsBaseInRange(th.base, th.rsp0);
  }

  lemma SetGsStep(p: Process, t: nat)
    requires Inv(p) && Enabled(p, SetGs(t))
    ensures Inv(After(p, SetGs(t)))
  {
    RemappedFacts(p.mem, p.threads[t]);
    LeaveKeeps(p, t, p.threads[t].phase.diff);
  }

  lemma ExitStep(p: Process, t: nat, now: int)
    requires Inv(p) && Enabled(p, Exit(t, now))
    ensures Inv(After(p, Exit(t, now)))
  {
    FoundIsOwn(p, t);
    ExitIs(p, t, now);
    ExitKeeps(p, t, now);
  }

  lemma ExitIs(p: Process, t: nat, now: int)
    requires Enabled(p, Exit(t, now)) && Recorded(p.mem, Found(p.threads[t]), p.threads[t].base, p.threads[t].gs)
    ensures After(p, Exit(t, now)) == Released(p, t, p.threads[t].base, now)
  {
  }

  lemma RangeNeverFails(p: Process, t: nat)
    requires Inv(p)
    ensures !Enabled(p, RangeFails(t))
  {
    hide Inv;
    if CanMove(p, t) {
      NewDiffIsGsFor(p, t);
    }
  }

  lemma SetGsNeverFails(p: Process, t: nat)
    requires Inv(p)
    ensures !Enabled(p, SetGsFails(t))
  {
    if t in p.threads && p.threads[t].phase.Remapped? {
      RemappedFacts(p.mem, p.threads[t]);
    }
  }

  lemma RerandomizeStepKeepsInv(p: Process, s: Step)
    requires Inv(p) && Enabled(p, s)
    requires || s.Enter? || s.Mmap? || s.Reject? || s.GiveUp? || s.RangeFails?
             || s.Remap? || s.RemapFails? || s.SetGs? || s.SetGsFails?
    ensures Inv(After(p, s))
  {
    match s
    case Enter(t, now) => EnterStep(p, t, now);
    case Mmap(t, addr) => MmapStep(p, t, addr);
    case Reject(t) => RejectStep(p, t);
    case GiveUp(t) => GiveUpStep(p, t);
    case RangeFails(t) => RangeNeverFails(p, t);
    case Remap(t) => RemapStep(p, t);
    case RemapFails(t) => AbandonKeeps(p, t);
    case SetGs(t) => SetGsStep(p, t);
    case SetGsFails(t) => SetGsNeverFails(p, t);
  }

  lemma CodeStepKeepsInv(p: Process, s: Step)
    requires Inv(p) && Enabled(p, s)
    requires s.Call? || s.Prologue? || s.RedirectedCall? || s.Adjust? || s.Epilogue?
    ensures Inv(After(p, s))
  {
    match s
    case Call(t, ret) => CallStep(p, t, ret);
    case Prologue(t) => PrologueStep(p, t);
    case RedirectedCall(t, ret) => RedirectedStep(p, t, ret);
    case Adjust(t, keep, rsp) => AdjustStep(p, t, keep, rsp);
    case Epilogue(t) => EpilogueStep(p, t);
  }

  lemma EnvStep(p: Process, writes: Mem, unmaps: set<int>)
    requires Inv(p) && Enabled(p, Env(writes, unmaps))
    ensures Inv(After(p, Env(writes, unmaps)))
  {
    EditKeepsRegions(p, writes, unmaps);
    EnvKeeps(p, Edited(p.mem, writes, unmaps));
  }

  lemma CleanStep(p: Process, i: nat, now: int)
    requires Inv(p) && Enabled(p, Clean(i, now))
    ensures Inv(After(p, Clean(i, now)))
  {
    hide Inv;
    CleanKeeps(p, i);
  }

  lemma ProcessStepKeepsInv(p: Process, s: Step)
    requires Inv(p) && Enabled(p, s) && (s.Start? || s.Env? || s.Exit? || s.Clean?)
    ensures Inv(After(p, s))
  {
    match s
    case Start(t, lo, hi, rsp0, base) => StartStep(p, t, lo, hi, rsp0, base);
    case Env(writes, unmaps) => EnvStep(p, writes, unmaps);
    case Exit(t, now) => ExitStep(p, t, now);
    case Clean(i, now) => CleanStep(p, i, now);
  }

  /** Any step of any thread, of the cleaner or of the rest of the program. */
  lemma StepKeepsInv(p: Process, s: Step)
    requires Inv(p) && Enabled(p, s)
    ensures Inv(After(p, s))
  {
    if s.Start? || s.Env? || s.Exit? || s.Clean? {
      ProcessStepKeepsInv(p, s);
    } else if s.Call? || s.Prologue? || s.RedirectedCall? || s.Adjust? || s.Epilogue? {
      CodeStepKeepsInv(p, s);
    } else {
      RerandomizeStepKeepsInv(p, s);
    }
  }

  // ---------------------------------------------------------------------- Runs

  ghost predicate StepAt(states: seq<Process>, steps: seq<Step>, i: nat)
    requires |states| == |steps| + 1 && i < |steps|
  {
    Enabled(states[i], steps[i]) && states[i + 1] == After(states[i], steps[i])
  }

  /** A run through `states`, by `steps`. */
  ghost predicate IsRun(states: seq<Process>, steps: seq<Step>) {
    |states| == |steps| + 1 && forall i :: 0 <= i < |steps| ==> StepAt(states, steps, i)
  }

  /** A process before its first thread is initialised. */
  predicate Initial(p: Process) {
    && p.threads == map[] && p.leaked == [] && |p.table| == MAX_THREADS
    && forall i :: 0 <= i < |p.table| ==> !p.table[i].valid
  }

  /** Shadow regions and stacks are mapped and disjoint, and every live protected frame
      is recorded in its shadow slot, in every state of every run. */
  lemma {:induction false} RunKeepsInv(states: seq<Process>, steps: seq<Step>, i: nat)
    requires IsRun(states, steps) && Initial(states[0]) && i <= |steps|
    ensures Inv(states[i])
  {
    if i == 0 {
      assert forall o :: !Owns(states[0], o);
    } else {
      RunKeepsInv(states, steps, i - 1);
      assert StepAt(states, steps, i - 1);
      StepKeepsInv(states[i - 1], steps[i - 1]);
    }
  }

  /** In no state of any run is the range check or the arch_prctl rollback taken. */
  lemma RollbacksUnreachable(states: seq<Process>, steps: seq<Step>, i: nat, t: nat)
    requires IsRun(states, steps) && Initial(states[0]) && i <= |steps|
    ensures !Enabled(states[i], RangeFails(t)) && !Enabled(states[i], SetGsFails(t))
  {
    RunKeepsInv(states, steps, i);
    RangeNeverFails(states[i], t);
    SetGsNeverFails(states[i], t);
  }

  /** However often a thread's region has moved, masking the shadow pointer finds it in the
      8MB below the rsp of its initialisation, and only there; except between the remap and
      the switch of the GS base, when it finds the region just left. */
  lemma LookupAlwaysExact(states: seq<Process>, steps: seq<Step>, i: nat, t: nat, rsp: int)
    requires IsRun(states, steps) && Initial(states[0]) && i <= |steps| && t in states[i].threads
    requires 0 <= rsp < USER_SPACE_SIZE
    ensures var th := states[i].threads[t];
            && (RegionByRsp(rsp, th.gs) == GsRegion(th) <==> th.rsp0 - CALL_STACK_SIZE <= rsp < th.rsp0)
            && (GsRegion(th) == th.base <==> !th.phase.Remapped?)
    ensures var th := states[i].threads[t];
            th.rsp0 - CALL_STACK_SIZE <= rsp < th.rsp0 ==>
              (RegionByRsp(rsp, th.gs) == th.base <==> !th.phase.Remapped?)
  {
    hide Inv, RegionByRsp;
    RunKeepsInv(states, steps, i);
    ThreadInRun(states[i], t);
    var th := states[i].threads[t];
    GsBelongs(states[i].mem, th);
    LookupIsExact(GsRegion(th), th.rsp0, rsp);
  }

  lemma ThreadInRun(p: Process, t: nat)
    requires Inv(p) && t in p.threads
    ensures ThreadOk(p.mem, p.threads[t])
  {
  }

  lemma GsBelongs(m: Mem, th: Thread)
    requires ThreadOk(m, th)
    ensures Placed(GsRegion(th), th.rsp0) && th.gs == GsFor(GsRegion(th), th.rsp0)
    ensures GsRegion(th) == th.base <==> !th.phase.Remapped?
  {
  }

  // ------------------------------------------------------- Where frames come from

  /** Step `s` pushes the protected frame `f` of thread `t`. */
  predicate Pushes(p: Process, s: Step, t: nat, f: Frame) {
    && t in p.threads
    && match s
       case Prologue(u) =>
         u == t && p.threads[t].rsp in p.mem && f == Frame(p.threads[t].rsp, p.mem[p.threads[t].rsp])
       case RedirectedCall(u, ret) => u == t && f == Frame(p.threads[t].rsp - 8, ret)
       case _ => false
  }

  /** `f` is thread `t`'s live frame at depth `d`. */
  predicate LiveAt(p: Process, t: nat, d: nat, f: Frame) {
    t in p.threads && d < |p.threads[t].frames| && p.threads[t].frames[d] == f
  }

  lemma FrameStep(p: Process, s: Step, t: nat, d: nat, f: Frame)
    requires Enabled(p, s) && LiveAt(After(p, s), t, d, f)
    ensures LiveAt(p, t, d, f) || Pushes(p, s, t, f)
  {
  }

  /** A live frame was pushed by one step and has been live, at its depth, ever since. */
  lemma {:induction false} FrameOrigin(states: seq<Process>, steps: seq<Step>, j: nat, t: nat, d: nat, f: Frame)
      returns (i: nat)
    requires IsRun(states, steps) && Initial(states[0]) && j <= |steps| && LiveAt(states[j], t, d, f)
    ensures i < j && Pushes(states[i], steps[i], t, f)
    ensures forall k :: i < k <= j ==> LiveAt(states[k], t, d, f)
  {
    assert StepAt(states, steps, j - 1);
    FrameStep(states[j - 1], steps[j - 1], t, d, f);
    if LiveAt(states[j - 1], t, d, f) {
      i := FrameOrigin(states, steps, j - 1, t, d, f);
    } else {
      i := j - 1;
    }
  }

  /** Return correctness: whatever ran in between, an epilogue jumps to the address that
      was in its frame's slot when that frame's prologue ran. */
  lemma EpilogueReturns(states: seq<Process>, steps: seq<Step>, j: nat, t: nat) returns (i: nat, f: Frame)
    requires IsRun(states, steps) && Initial(states[0]) && j < |steps| && steps[j] == Epilogue(t)
    ensures i < j && Pushes(states[i], steps[i], t, f)
    ensures t in states[j].threads && t in states[j + 1].threads && f.slot == states[j].threads[t].rsp
    ensures |states[j].threads[t].frames| > 0
    ensures forall k :: i < k <= j ==> LiveAt(states[k], t, |states[j].threads[t].frames| - 1, f)
    ensures states[j + 1].threads[t].trace == states[j].threads[t].trace + [f.saved]
  {
    hide ThreadOk;
    var p := states[j];
    assert StepAt(states, steps, j);
    EpilogueIs(p, t);
    RunKeepsInv(states, steps, j);
    var frames := p.threads[t].frames;
    f := frames[|frames| - 1];
    i := FrameOrigin(states, steps, j, t, |frames| - 1, f);
    EpilogueReads(p.mem, p.threads[t]);
  }
}
