/** What the threads of a GS_RSP process never do to one another, and how often they move. */
module GsSafety {
  import opened Words
  import opened Spa
  import opened Memory
  import opened Templates
  import opened GsRsp
  import opened RateGate
  import opened GsProcess
  import opened GsInvariant
  import opened GsSteps
  import opened GsMoves
  import opened GsRuns

  // --------------------------------------------------------------- Bystanders

  /** Step `s` is a step of thread `u`. */
  predicate ActsOn(s: Step, u: nat) {
    match s
    case Start(t, _, _, _, _) => t == u
    case Env(_, _) => false
    case Call(t, _) => t == u
    case Prologue(t) => t == u
    case RedirectedCall(t, _) => t == u
    case Adjust(t, _, _) => t == u
    case Epilogue(t) => t == u
    case Enter(t, _) => t == u
    case Mmap(t, _) => t == u
    case Reject(t) => t == u
    case GiveUp(t) => t == u
    case RangeFails(t) => t == u
    case Remap(t) => t == u
    case RemapFails(t) => t == u
    case SetGs(t) => t == u
    case SetGsFails(t) => t == u
    case Exit(t, _) => t == u
    case Clean(_, _) => false
  }

  /** Thread `u`'s shadow region and call stack are word for word as they were. */
  ghost predicate Spared(p: Process, m: Mem, u: nat)
    requires u in p.threads
  {
    && Kept(p.mem, m, p.threads[u].base, p.threads[u].base + REGION_SIZE)
    && Kept(p.mem, m, p.threads[u].lo, p.threads[u].hi)
  }

  /** Writing inside a region that is not `u`'s. */
  lemma RegionSpares(p: Process, o: Owner, m: Mem, u: nat)
    requires RegionsOk(p) && Owns(p, o) && u in p.threads && o != Live(u)
    requires OnlyWithin(p.mem, m, BaseOf(p, o), BaseOf(p, o) + REGION_SIZE)
    ensures Spared(p, m, u)
  {
    DisjointOwners(p, o, Live(u));
    assert OffStack(p, u, o);
    ApartKept(p.mem, m, BaseOf(p, o), BaseOf(p, o) + REGION_SIZE, p.threads[u].base, p.threads[u].base + REGION_SIZE);
    ApartKept(p.mem, m, BaseOf(p, o), BaseOf(p, o) + REGION_SIZE, p.threads[u].lo, p.threads[u].hi);
  }

  /** Writing inside the call stack of another thread. */
  lemma StackSpares(p: Process, t: nat, m: Mem, u: nat)
    requires RegionsOk(p) && t in p.threads && u in p.threads && t != u
    requires OnlyWithin(p.mem, m, p.threads[t].lo, p.threads[t].hi)
    ensures Spared(p, m, u)
  {
    StackOffRegion(p, t, u);
    assert StacksApart(p, t, u);
    ApartKept(p.mem, m, p.threads[t].lo, p.threads[t].hi, p.threads[u].base, p.threads[u].base + REGION_SIZE);
    ApartKept(p.mem, m, p.threads[t].lo, p.threads[t].hi, p.threads[u].lo, p.threads[u].hi);
  }

  lemma SparedTwice(p: Process, p1: Process, m: Mem, u: nat)
    requires u in p.threads && u in p1.threads && p1.threads[u] == p.threads[u]
    requires Spared(p, p1.mem, u) && Spared(p1, m, u)
    ensures Spared(p, m, u)
  {
  }

  lemma StartSpares(p: Process, s: Step, u: nat)
    requires Inv(p) && Enabled(p, s) && s.Start? && u in p.threads
    ensures Spared(p, After(p, s).mem, u)
  {
    StartMemKeeps(p.mem, s.rsp0, s.base, p.threads[u].base, p.threads[u].base + REGION_SIZE);
    StartMemKeeps(p.mem, s.rsp0, s.base, p.threads[u].lo, p.threads[u].hi);
  }

  lemma CallSpares(p: Process, t: nat, ret: int, u: nat)
    requires Inv(p) && Enabled(p, Call(t, ret)) && u in p.threads && t != u
    ensures Spared(p, After(p, Call(t, ret)).mem, u)
    ensures u in After(p, Call(t, ret)).threads && After(p, Call(t, ret)).threads[u] == p.threads[u]
  {
    hide RegionsOk;
    CallIs(p, t, ret);
    PushMapped(p, t);
    PushSpares(p, t, p.threads[t].rsp - 8, ret, u);
    BystanderRecordKept(p, Call(t, ret), u);
  }

  lemma PushSpares(p: Process, t: nat, a: int, v: int, u: nat)
    requires RegionsOk(p) && t in p.threads && u in p.threads && t != u
    requires a in p.mem && p.threads[t].lo <= a < p.threads[t].hi
    ensures Spared(p, p.mem[a := v], u)
  {
    WriteWithin(p.mem, a, v, p.threads[t].lo, p.threads[t].hi);
    StackSpares(p, t, p.mem[a := v], u);
  }

  lemma PrologueSpares(p: Process, t: nat, u: nat)
    requires Inv(p) && Enabled(p, Prologue(t)) && u in p.threads && t != u
    ensures Spared(p, After(p, Prologue(t)).mem, u)
  {
    var th := p.threads[t];
    LiveMapped(p, t);
    PrologueWithin(p.mem, th, th.rsp, p.mem[th.rsp]);
    RegionSpares(p, Live(t), p.mem[GsSlot(th.gs, th.rsp) := p.mem[th.rsp]], u);
  }

  lemma RedirectedSpares(p: Process, t: nat, ret: int, u: nat)
    requires Inv(p) && Enabled(p, RedirectedCall(t, ret)) && u in p.threads && t != u
    ensures Spared(p, After(p, RedirectedCall(t, ret)).mem, u)
  {
    RedirectedIsCallThenPrologue(p, t, ret);
    var p1 := After(p, Call(t, ret));
    CallStep(p, t, ret);
    CallSpares(p, t, ret, u);
    PrologueSpares(p1, t, u);
    SparedTwice(p, p1, After(p1, Prologue(t)).mem, u);
  }

  lemma EnterSpares(p: Process, t: nat, now: int, u: nat)
    requires Inv(p) && Enabled(p, Enter(t, now)) && u in p.threads && t != u
    ensures Spared(p, After(p, Enter(t, now)).mem, u)
  {
    FoundIsOwn(p, t);
    EnterWithin(p.mem, p.threads[t].base, now);
    RegionSpares(p, Live(t), Entered(p.mem, p.threads[t].base, now), u);
  }

  lemma MmapSpares(p: Process, t: nat, addr: int, u: nat)
    requires Enabled(p, Mmap(t, addr)) && u in p.threads
    ensures Spared(p, After(p, Mmap(t, addr)).mem, u)
  {
    MmapIs(p, t, addr);
    ZeroedKeeps(p.mem, addr, addr + REGION_SIZE, p.threads[u].base, p.threads[u].base + REGION_SIZE);
    ZeroedKeeps(p.mem, addr, addr + REGION_SIZE, p.threads[u].lo, p.threads[u].hi);
  }

  lemma RejectSpares(p: Process, t: nat, u: nat)
    requires Inv(p) && t in p.threads && p.threads[t].phase.Holding? && u in p.threads
    ensures Spared(p, Dropped(p.mem, p.threads[t].phase.addr, p.threads[t].phase.addr + REGION_SIZE), u)
  {
    DroppedWithin(p.mem, p.threads[t].phase.addr, p.threads[t].phase.addr + REGION_SIZE);
    RegionSpares(p, Held(t), Dropped(p.mem, p.threads[t].phase.addr, p.threads[t].phase.addr + REGION_SIZE), u);
  }

  lemma ClearSpares(p: Process, t: nat, u: nat)
    requires Inv(p) && t in p.threads && u in p.threads && t != u
    ensures Spared(p, Left(p.mem, p.threads[t].base), u)
  {
    ClearWithin(p.mem, p.threads[t]);
    RegionSpares(p, Live(t), Left(p.mem, p.threads[t].base), u);
  }

  lemma ClearWithin(m: Mem, th: Thread)
    requires ThreadOk(m, th)
    ensures OnlyWithin(m, Left(m, th.base), th.base, th.base + REGION_SIZE)
  {
    WriteWithin(m, Metadata(th.base) + IS_RANDOMIZING, 0, th.base, th.base + REGION_SIZE);
  }

  lemma AbandonSpares(p: Process, t: nat, u: nat)
    requires Inv(p) && t in p.threads && p.threads[t].phase.Holding? && u in p.threads && t != u
    ensures Spared(p, Abandoned(p, t).mem, u)
  {
    hide ThreadOk;
    var p1 := Rejected(p, t);
    RejectKeeps(p, t);
    RejectSpares(p, t, u);
    HoldingFacts(p.mem, p.threads[t]);
    ClearSpares(p1, t, u);
    SparedTwice(p, p1, Left(p1.mem, p.threads[t].base), u);
  }

  function Rejected(p: Process, t: nat): Process
    requires t in p.threads && p.threads[t].phase.Holding?
  {
    var th := p.threads[t];
    With(p, t, th.(phase := Searching(th.phase.meta)),
         Dropped(p.mem, th.phase.addr, th.phase.addr + REGION_SIZE))
  }

  lemma RemapSpares(p: Process, t: nat, u: nat)
    requires Inv(p) && Enabled(p, Remap(t)) && u in p.threads && t != u
    ensures Spared(p, After(p, Remap(t)).mem, u)
  {
    NewDiffIsGsFor(p, t);
    RemapIs(p, t, p.threads[t].base, GsFor(p.threads[t].phase.addr, p.threads[t].rsp0));
    MoveKeepsRegion(p, t, Live(u));
    MoveKeepsStack(p, t, u);
  }

  lemma LeavingSpares(p: Process, s: Step, u: nat)
    requires Inv(p) && Enabled(p, s) && (s.GiveUp? || s.SetGs?) && u in p.threads && s.t != u
    ensures Spared(p, After(p, s).mem, u)
  {
    ClearSpares(p, s.t, u);
    if s.GiveUp? {
      SearchingFacts(p.mem, p.threads[s.t]);
    } else {
      RemappedFacts(p.mem, p.threads[s.t]);
    }
  }

  lemma CleanSpares(p: Process, i: nat, now: int, u: nat)
    requires Inv(p) && Enabled(p, Clean(i, now)) && u in p.threads
    ensures Spared(p, After(p, Clean(i, now)).mem, u)
  {
    hide ThreadOk;
    RetireSpares(p, i, u);
  }

  lemma RetireSpares(p: Process, i: nat, u: nat)
    requires RegionsOk(p) && i < |p.table| && p.table[i].valid && u in p.threads
    ensures Spared(p, Dropped(p.mem, p.table[i].shadowStack, p.table[i].shadowStack + REGION_SIZE), u)
  {
    DroppedWithin(p.mem, p.table[i].shadowStack, p.table[i].shadowStack + REGION_SIZE);
    RegionSpares(p, Waiting(i), Dropped(p.mem, p.table[i].shadowStack, p.table[i].shadowStack + REGION_SIZE), u);
  }

  lemma RerandomizeSpares(p: Process, s: Step, u: nat)
    requires Inv(p) && Enabled(p, s) && u in p.threads && !ActsOn(s, u)
    requires || s.Enter? || s.Mmap? || s.Reject? || s.GiveUp? || s.RangeFails?
             || s.Remap? || s.RemapFails? || s.SetGs? || s.SetGsFails?
    ensures Spared(p, After(p, s).mem, u)
  {
    hide Inv;
    match s
    case Enter(t, now) => EnterSpares(p, t, now, u);
    case Mmap(t, addr) => MmapSpares(p, t, addr, u);
    case Reject(t) => RejectSpares(p, t, u);
    case GiveUp(t) => LeavingSpares(p, s, u);
    case RangeFails(t) => RangeNeverFails(p, t);
    case Remap(t) => RemapSpares(p, t, u);
    case RemapFails(t) => AbandonSpares(p, t, u);
    case SetGs(t) => LeavingSpares(p, s, u);
    case SetGsFails(t) => SetGsNeverFails(p, t);
  }

  /** No step of another thread or of the cleaner touches a live thread's shadow region
      or call stack: no fixed-address move, no unmap, no metadata write. */
  lemma BystanderSpared(p: Process, s: Step, u: nat)
    requires Inv(p) && Enabled(p, s) && u in p.threads && !ActsOn(s, u) && !s.Env?
    ensures Spared(p, After(p, s).mem, u)
    ensures u in After(p, s).threads && After(p, s).threads[u] == p.threads[u]
  {
    hide Inv;
    BystanderRecordKept(p, s, u);
    match s
    case Start(_, _, _, _, _) => StartSpares(p, s, u);
    case Call(t, ret) => CallSpares(p, t, ret, u);
    case Prologue(t) => PrologueSpares(p, t, u);
    case RedirectedCall(t, ret) => RedirectedSpares(p, t, ret, u);
    case Adjust(_, _, _) =>
    case Epilogue(_) =>
    case Exit(_, _) =>
    case Clean(i, now) => CleanSpares(p, i, now, u);
    case _ => RerandomizeSpares(p, s, u);
  }

  lemma BystanderRecordKept(p: Process, s: Step, u: nat)
    requires Enabled(p, s) && u in p.threads && !ActsOn(s, u)
    ensures u in After(p, s).threads && After(p, s).threads[u] == p.threads[u]
  {
  }

  // ------------------------------------------------------- How often threads move

  /** Thread `t`'s metadata store the cycle count `v`. */
  predicate Stamped(p: Process, t: nat, v: int) {
    t in p.threads && CountAt(p.mem, p.threads[t].base, v)
  }

  predicate CountAt(m: Mem, base: int, v: int) {
    Metadata(base) + CPU_CYCLES in m && m[Metadata(base) + CPU_CYCLES] == v
  }

  /** Both memories hold the same stored cycle count for regions at these places. */
  predicate StampMoved(m: Mem, base: int, m': Mem, base': int) {
    && Metadata(base) + CPU_CYCLES in m && Metadata(base') + CPU_CYCLES in m'
    && m'[Metadata(base') + CPU_CYCLES] == m[Metadata(base) + CPU_CYCLES]
  }

  lemma StampKept(m: Mem, m': Mem, th: Thread)
    requires ThreadOk(m, th) && Kept(m, m', th.base, th.base + REGION_SIZE)
    ensures StampMoved(m, th.base, m', th.base)
  {
  }

  lemma CallKeepsStamp(p: Process, t: nat, ret: int)
    requires Inv(p) && Enabled(p, Call(t, ret))
    ensures t in After(p, Call(t, ret)).threads && After(p, Call(t, ret)).threads[t].base == p.threads[t].base
    ensures StampMoved(p.mem, p.threads[t].base, After(p, Call(t, ret)).mem, p.threads[t].base)
  {
    CallIs(p, t, ret);
    StackOffRegion(p, t, t);
    StampOffStack(p.mem, p.threads[t], p.threads[t].rsp - 8, ret);
  }

  lemma StampOffStack(m: Mem, th: Thread, a: int, v: int)
    requires ThreadOk(m, th) && th.lo <= a < th.hi && Apart(th.lo, th.hi, th.base, th.base + REGION_SIZE)
    ensures StampMoved(m, th.base, m[a := v], th.base)
  {
  }

  lemma PrologueKeepsStamp(p: Process, t: nat)
    requires Inv(p) && Enabled(p, Prologue(t))
    ensures StampMoved(p.mem, p.threads[t].base, After(p, Prologue(t)).mem, p.threads[t].base)
  {
    StampOffSlots(p.mem, p.threads[t], p.threads[t].rsp, p.mem[p.threads[t].rsp]);
  }

  lemma StampOffSlots(m: Mem, th: Thread, slot: int, v: int)
    requires ThreadOk(m, th) && th.phase.Running? && InWindow(slot, th.rsp0)
    ensures StampMoved(m, th.base, m[GsSlot(th.gs, slot) := v], th.base)
  {
    SlotAddress(th.base, th.rsp0, slot);
  }

  lemma RedirectedKeepsStamp(p: Process, t: nat, ret: int)
    requires Inv(p) && Enabled(p, RedirectedCall(t, ret))
    ensures StampMoved(p.mem, p.threads[t].base, After(p, RedirectedCall(t, ret)).mem, p.threads[t].base)
  {
    RedirectedIsCallThenPrologue(p, t, ret);
    CallStep(p, t, ret);
    CallKeepsStamp(p, t, ret);
    PrologueKeepsStamp(After(p, Call(t, ret)), t);
  }

  lemma MmapKeepsStamp(p: Process, t: nat, addr: int)
    requires Inv(p) && Enabled(p, Mmap(t, addr))
    ensures StampMoved(p.mem, p.threads[t].base, After(p, Mmap(t, addr)).mem, p.threads[t].base)
  {
    MmapSpares(p, t, addr, t);
    StampKept(p.mem, After(p, Mmap(t, addr)).mem, p.threads[t]);
  }

  lemma RejectKeepsStamp(p: Process, t: nat)
    requires Inv(p) && t in p.threads && p.threads[t].phase.Holding?
    ensures StampMoved(p.mem, p.threads[t].base, Rejected(p, t).mem, p.threads[t].base)
    ensures StampMoved(p.mem, p.threads[t].base, Abandoned(p, t).mem, p.threads[t].base)
  {
    RejectSpares(p, t, t);
    StampKept(p.mem, Rejected(p, t).mem, p.threads[t]);
    HoldingFacts(p.mem, p.threads[t]);
  }

  lemma LeavingKeepsStamp(p: Process, s: Step)
    requires Inv(p) && Enabled(p, s) && (s.GiveUp? || s.SetGs?)
    ensures StampMoved(p.mem, p.threads[s.t].base, After(p, s).mem, p.threads[s.t].base)
  {
    if s.GiveUp? {
      SearchingFacts(p.mem, p.threads[s.t]);
    } else {
      RemappedFacts(p.mem, p.threads[s.t]);
    }
  }

  lemma RemapKeepsStamp(p: Process, t: nat)
    requires Inv(p) && Enabled(p, Remap(t))
    ensures StampMoved(p.mem, p.threads[t].base, After(p, Remap(t)).mem, p.threads[t].phase.addr)
  {
    NewDiffIsGsFor(p, t);
    LiveMapped(p, t);
    var th := p.threads[t];
    RemapIs(p, t, th.base, GsFor(th.phase.addr, th.rsp0));
    RelocateMovesStamp(p.mem, th.base, th.phase.addr, GsFor(th.phase.addr, th.rsp0));
  }

  lemma RelocateMovesStamp(m: Mem, base: int, to: int, diff: int)
    requires Aligned(base) && Aligned(to) && Mapped(m, base, base + REGION_SIZE)
    ensures StampMoved(m, base, Relocate(m, Metadata(base), base, to, diff), to)
  {
    hide Relocate;
    RelocatedContents(m, base, to, diff, Metadata(base) + CPU_CYCLES);
  }

  lemma OwnCodeKeepsStamp(p: Process, s: Step, t: nat)
    requires Inv(p) && Enabled(p, s) && t in p.threads && ActsOn(s, t)
    requires s.Call? || s.Prologue? || s.RedirectedCall? || s.Adjust? || s.Epilogue?
    ensures t in After(p, s).threads
    ensures StampMoved(p.mem, p.threads[t].base, After(p, s).mem, After(p, s).threads[t].base)
  {
    match s
    case Call(_, ret) => CallKeepsStamp(p, t, ret);
    case Prologue(_) => PrologueKeepsStamp(p, t);
    case RedirectedCall(_, ret) => RedirectedKeepsStamp(p, t, ret);
    case Adjust(_, _, _) => StampKept(p.mem, p.mem, p.threads[t]);
    case Epilogue(_) => StampKept(p.mem, p.mem, p.threads[t]);
  }

  lemma OwnMoveKeepsStamp(p: Process, s: Step, t: nat)
    requires Inv(p) && Enabled(p, s) && t in p.threads && ActsOn(s, t)
    requires || s.Mmap? || s.Reject? || s.GiveUp? || s.RangeFails?
             || s.Remap? || s.RemapFails? || s.SetGs? || s.SetGsFails?
    ensures t in After(p, s).threads
    ensures StampMoved(p.mem, p.threads[t].base, After(p, s).mem, After(p, s).threads[t].base)
  {
    match s
    case Mmap(_, addr) => MmapKeepsStamp(p, t, addr);
    case Reject(_) => RejectKeepsStamp(p, t);
    case GiveUp(_) => LeavingKeepsStamp(p, s);
    case RangeFails(_) => RangeNeverFails(p, t);
    case Remap(_) => RemapKeepsStamp(p, t);
    case RemapFails(_) => RejectKeepsStamp(p, t);
    case SetGs(_) => LeavingKeepsStamp(p, s);
    case SetGsFails(_) => SetGsNeverFails(p, t);
  }

  /** Only passing the gate changes a thread's stored cycle count; moving carries it along. */
  lemma StampStep(p: Process, s: Step, t: nat)
    requires Inv(p) && Enabled(p, s) && t in p.threads && t in After(p, s).threads
    requires s.Enter? ==> s.t != t
    ensures StampMoved(p.mem, p.threads[t].base, After(p, s).mem, After(p, s).threads[t].base)
  {
    hide ThreadOk;
    if s.Env? {
      EditKeepsRegions(p, s.writes, s.unmaps);
      assert Owns(p, Live(t));
      StampKept(p.mem, Edited(p.mem, s.writes, s.unmaps), p.threads[t]);
    } else if !ActsOn(s, t) {
      BystanderSpared(p, s, t);
      StampKept(p.mem, After(p, s).mem, p.threads[t]);
    } else if s.Call? || s.Prologue? || s.RedirectedCall? || s.Adjust? || s.Epilogue? {
      OwnCodeKeepsStamp(p, s, t);
    } else {
      OwnMoveKeepsStamp(p, s, t);
    }
  }

  lemma EnterStamps(p: Process, t: nat, now: int)
    requires Inv(p) && Enabled(p, Enter(t, now))
    ensures Stamped(After(p, Enter(t, now)), t, now)
  {
    hide RegionsOk;
    FoundIsOwn(p, t);
  }

  /** A thread passes the gate only a full period after the count its metadata store. */
  lemma EnterWaits(p: Process, t: nat, now: int, last: int)
    requires Inv(p) && Enabled(p, Enter(t, now)) && Stamped(p, t, last)
    ensures PeriodElapsed(last, now)
  {
    hide Inv;
    FoundIsOwn(p, t);
  }

  /** Thread `t` is alive from state `i` to state `j`. */
  predicate Alive(states: seq<Process>, i: nat, j: nat, t: nat)
    requires j < |states|
  {
    forall k :: i <= k <= j ==> t in states[k].threads
  }

  /** The cycle counter that thread `t` reads when it passes the gate never goes back. */
  predicate ClockRuns(steps: seq<Step>, t: nat) {
    forall i, j :: 0 <= i < j < |steps| && steps[i].Enter? && steps[j].Enter? && steps[i].t == t == steps[j].t ==>
      steps[i].now <= steps[j].now
  }

  /** What a thread's metadata store is the count of its latest attempt. */
  lemma {:induction false} StampIsLatest(states: seq<Process>, steps: seq<Step>, i: nat, j: nat, t: nat)
      returns (l: nat)
    requires IsRun(states, steps) && Initial(states[0]) && i < j <= |steps|
    requires steps[i].Enter? && steps[i].t == t && Alive(states, i, j, t)
    ensures i <= l < j && steps[l].Enter? && steps[l].t == t
    ensures Stamped(states[j], t, steps[l].now)
  {
    var k := j - 1;
    assert StepAt(states, steps, k) && t in states[k].threads && t in states[j].threads;
    if steps[k].Enter? && steps[k].t == t {
      RunKeepsInv(states, steps, k);
      EnterStamps(states[k], t, steps[k].now);
      l := k;
    } else {
      l := StampIsLatest(states, steps, i, k, t);
      RunKeepsInv(states, steps, k);
      StampStays(states[k], steps[k], t, steps[l].now);
    }
  }

  lemma StampStays(p: Process, s: Step, t: nat, v: int)
    requires Inv(p) && Enabled(p, s) && Stamped(p, t, v) && t in After(p, s).threads
    requires s.Enter? ==> s.t != t
    ensures Stamped(After(p, s), t, v)
  {
    hide PhaseOk, After;
    StampStep(p, s, t);
  }

  /** Rate bound: any two attempts of one thread to re-randomize are a full period apart,
      whether the first of them succeeded, failed or was overtaken by other threads. */
  lemma AttemptsApart(states: seq<Process>, steps: seq<Step>, i: nat, j: nat, t: nat)
    requires IsRun(states, steps) && Initial(states[0]) && i < j < |steps| && ClockRuns(steps, t)
    requires steps[i].Enter? && steps[i].t == t && steps[j].Enter? && steps[j].t == t
    requires Alive(states, i, j, t)
    ensures steps[j].now - steps[i].now >= 32_000_000
  {
    hide Inv;
    var l := StampIsLatest(states, steps, i, j, t);
    assert StepAt(states, steps, j) && StepAt(states, steps, l);
    RunKeepsInv(states, steps, j);
    EnterWaits(states[j], t, steps[j].now, steps[l].now);
    assert IsWord(steps[l].now) && IsWord(steps[j].now);
  }

  // ------------------------------------------------------ Attempts in a window

  predicate IsAttempt(s: Step, t: nat) {
    s.Enter? && s.t == t
  }

  /** How many of the steps from `i` on, before `j`, are attempts of thread `t`. */
  function AttemptCount(steps: seq<Step>, t: nat, i: nat, j: nat): nat
    requires i <= j <= |steps|
  {
    if i == j then 0 else AttemptCount(steps, t, i, j - 1) + if IsAttempt(steps[j - 1], t) then 1 else 0
  }

  lemma {:induction false} CountFromFront(steps: seq<Step>, t: nat, i: nat, j: nat)
    requires i < j <= |steps|
    ensures AttemptCount(steps, t, i, j) == (if IsAttempt(steps[i], t) then 1 else 0) + AttemptCount(steps, t, i + 1, j)
    decreases j
  {
    if i + 1 < j {
      CountFromFront(steps, t, i, j - 1);
    }
  }

  /** From an attempt at `i` on, the latest one before `j` is as many periods away as there
      are attempts after the first. */
  lemma {:induction false} AttemptsSpread(states: seq<Process>, steps: seq<Step>, i: nat, j: nat, t: nat)
      returns (l: nat)
    requires IsRun(states, steps) && Initial(states[0]) && ClockRuns(steps, t)
    requires i < j <= |steps| && IsAttempt(steps[i], t) && Alive(states, i, j - 1, t)
    ensures i <= l < j && IsAttempt(steps[l], t)
    ensures steps[l].now - steps[i].now >= (AttemptCount(steps, t, i, j) - 1) * 32_000_000
    decreases j
  {
    assert |states| == |steps| + 1;
    hide IsRun, Initial, ClockRuns, Alive;
    var k := j - 1;
    if k == i {
      l := i;
      assert AttemptCount(steps, t, i, j) == 1;
    } else {
      AliveBefore(states, i, k, t);
      l := AttemptsSpread(states, steps, i, k, t);
      if IsAttempt(steps[k], t) {
        AliveFrom(states, i, l, k, t);
        AttemptsApart(states, steps, l, k, t);
        l := k;
      }
    }
  }

  lemma AliveBefore(states: seq<Process>, i: nat, j: nat, t: nat)
    requires 0 < j < |states| && Alive(states, i, j, t)
    ensures Alive(states, i, j - 1, t)
  {
  }

  lemma AliveFrom(states: seq<Process>, i: nat, l: nat, j: nat, t: nat)
    requires i <= l <= j < |states| && Alive(states, i, j, t)
    ensures Alive(states, l, j, t)
  {
  }

  /** Of the steps from `i` on, before `j`, the attempts of `t` that read a cycle count in a
      window of `span` cycles are at most span / period + 1, whatever else interleaves. */
  lemma {:induction false} AttemptsInWindow(
      states: seq<Process>, steps: seq<Step>, i: nat, j: nat, t: nat, from: int, span: nat)
    requires IsRun(states, steps) && Initial(states[0]) && ClockRuns(steps, t)
    requires i < j <= |steps| && Alive(states, i, j - 1, t)
    requires forall m :: i <= m < j && IsAttempt(steps[m], t) ==> from <= steps[m].now <= from + span
    ensures AttemptCount(steps, t, i, j) <= span / 32_000_000 + 1
    decreases j - i
  {
    assert |states| == |steps| + 1;
    hide IsRun, Initial, ClockRuns, Alive;
    if IsAttempt(steps[i], t) {
      var l := AttemptsSpread(states, steps, i, j, t);
      WholePeriods(AttemptCount(steps, t, i, j) - 1, span);
    } else {
      CountFromFront(steps, t, i, j);
      if i + 1 < j {
        AliveFrom(states, i, i + 1, j - 1, t);
        AttemptsInWindow(states, steps, i + 1, j, t, from, span);
      }
    }
  }

  lemma WholePeriods(n: int, span: int)
    requires n * 32_000_000 <= span
    ensures n <= span / 32_000_000
  {
  }
}
