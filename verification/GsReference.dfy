/** The GS_RSP process against the uninstrumented program: as long as return slots are
    not overwritten, both return to the same places. */
module GsReference {
  import opened Words
  import opened Memory
  import opened ShadowStack
  import opened Templates
  import opened GsRsp
  import opened GsRspRuntime
  import opened GsProcess
  import opened GsInvariant
  import opened GsSteps
  import opened GsMoves
  import opened GsRuns
  import opened GsSafety

  // -------------------------------------------------------- The plain machine

  datatype PlainThread = PlainThread(rsp: int, trace: seq<int>)

  /** A process without shadow stacks: a return jumps to what is on top of the stack. */
  datatype Plain = Plain(mem: Mem, threads: map<nat, PlainThread>)

  function PlainCall(r: Plain, t: nat, ret: int): Plain {
    if t in r.threads then
      var rsp := r.threads[t].rsp - 8;
      r.(mem := r.mem[rsp := ret], threads := r.threads[t := r.threads[t].(rsp := rsp)])
    else r
  }

  function PlainReturn(r: Plain, t: nat): Plain {
    if t in r.threads && r.threads[t].rsp in r.mem then
      var th := r.threads[t];
      r.(threads := r.threads[t := PlainThread(th.rsp + 8, th.trace + [r.mem[th.rsp]])])
    else r
  }

  /** The same step of the uninstrumented program: prologues, the runtime and the
      cleaner do nothing. */
  function PlainAfter(r: Plain, s: Step): Plain {
    match s
    case Start(t, _, _, rsp0, _) => r.(threads := r.threads[t := PlainThread(rsp0, [])])
    case Env(writes, unmaps) => r.(mem := Edited(r.mem, writes, unmaps))
    case Call(t, ret) => PlainCall(r, t, ret)
    case RedirectedCall(t, ret) => PlainCall(r, t, ret)
    case Adjust(t, _, rsp) =>
      if t in r.threads then r.(threads := r.threads[t := r.threads[t].(rsp := rsp)]) else r
    case Epilogue(t) => PlainReturn(r, t)
    case Exit(t, _) => r.(threads := r.threads - {t})
    case _ => r
  }

  // ------------------------------------------------ What the program can observe

  /** A mapped word outside every shadow region. */
  ghost predicate Seen(p: Process, a: int) {
    a in p.mem && Outside(p, a)
  }

  /** The words that the program can see, and their values, are the same. */
  ghost predicate Invisible(p: Process, p': Process) {
    forall a :: (Seen(p, a) <==> Seen(p', a)) && (Seen(p, a) ==> p'.mem[a] == p.mem[a])
  }

  ghost predicate SameOutside(m: Mem, m': Mem, lo: int, hi: int) {
    forall a :: !(lo <= a < hi) ==> (a in m <==> a in m') && (a in m ==> m'[a] == m[a])
  }

  ghost predicate SameOwners(p: Process, p': Process) {
    forall o :: (Owns(p, o) <==> Owns(p', o)) && (Owns(p, o) ==> BaseOf(p', o) == BaseOf(p, o))
  }

  lemma OutsideSame(p: Process, p': Process, a: int)
    requires SameOwners(p, p') && Outside(p, a)
    ensures Outside(p', a)
  {
    forall o | Owns(p', o)
      ensures !(BaseOf(p', o) <= a < BaseOf(p', o) + REGION_SIZE)
    {
      assert Owns(p, o);
    }
  }

  /** Writing inside one region. */
  lemma WriteInvisible(p: Process, p': Process, o: Owner)
    requires SameOwners(p, p') && Owns(p, o)
    requires SameOutside(p.mem, p'.mem, BaseOf(p, o), BaseOf(p, o) + REGION_SIZE)
    ensures Invisible(p, p')
  {
    forall a
      ensures (Seen(p, a) <==> Seen(p', a)) && (Seen(p, a) ==> p'.mem[a] == p.mem[a])
    {
      if Outside(p, a) {
        OutsideSame(p, p', a);
      } else if Outside(p', a) {
        OutsideSame(p', p, a);
      }
    }
  }

  /** Mapping a fresh region for a new owner. */
  lemma MapInvisible(p: Process, p': Process, o: Owner)
    requires Extends(p, p', o) && forall o' :: Owns(p, o') ==> Owns(p', o')
    requires Unmapped(p.mem, BaseOf(p', o), BaseOf(p', o) + REGION_SIZE)
    requires SameOutside(p.mem, p'.mem, BaseOf(p', o), BaseOf(p', o) + REGION_SIZE)
    ensures Invisible(p, p') && Invisible(p', p)
  {
    forall a
      ensures (Seen(p, a) <==> Seen(p', a)) && (Seen(p, a) ==> p'.mem[a] == p.mem[a])
    {
      OutsideExtends(p, p', o, a);
    }
  }

  lemma OutsideExtends(p: Process, p': Process, o: Owner, a: int)
    requires Extends(p, p', o) && forall o' :: Owns(p, o') ==> Owns(p', o')
    ensures Outside(p', a) <==> Outside(p, a) && !(BaseOf(p', o) <= a < BaseOf(p', o) + REGION_SIZE)
  {
    if Outside(p', a) {
      forall o' | Owns(p, o')
        ensures !(BaseOf(p, o') <= a < BaseOf(p, o') + REGION_SIZE)
      {
        assert Owns(p', o') && o' != o;
      }
    }
  }

  lemma InvisibleTwice(p: Process, p1: Process, p2: Process)
    requires Invisible(p, p1) && Invisible(p1, p2)
    ensures Invisible(p, p2)
  {
    forall a
      ensures (Seen(p, a) <==> Seen(p2, a)) && (Seen(p, a) ==> p2.mem[a] == p.mem[a])
    {
      assert Seen(p, a) <==> Seen(p1, a);
      assert Seen(p1, a) <==> Seen(p2, a);
    }
  }

  // ------------------------------------------- The runtime's steps are invisible

  lemma ThreadInvisible(p: Process, t: nat, th: Thread, m: Mem)
    requires RegionsOk(p) && t in p.threads && SameOwnership(p.threads[t], th)
    requires th.phase.Holding? == p.threads[t].phase.Holding?
    requires SameOutside(p.mem, m, th.base, th.base + REGION_SIZE)
    ensures Invisible(p, With(p, t, th, m))
  {
    ReplacedOwners(p, t, th, m);
    WriteInvisible(p, With(p, t, th, m), Live(t));
  }

  lemma ReplacedOwners(p: Process, t: nat, th: Thread, m: Mem)
    requires t in p.threads && SameOwnership(p.threads[t], th)
    requires th.phase.Holding? == p.threads[t].phase.Holding?
    ensures SameOwners(p, With(p, t, th, m))
  {
  }

  lemma WriteSameOutside(m: Mem, a: int, v: int, lo: int, hi: int)
    requires lo <= a < hi
    ensures SameOutside(m, m[a := v], lo, hi)
  {
  }

  lemma StartInvisible(p: Process, s: Step)
    requires Enabled(p, s) && s.Start?
    ensures Invisible(p, After(p, s))
  {
    var th := Started(s.lo, s.hi, s.rsp0, s.base);
    StartExtends(p, s.t, th, StartMem(p.mem, s.rsp0, s.base));
    StartSameOutside(p.mem, s.rsp0, s.base);
    MapInvisible(p, With(p, s.t, th, StartMem(p.mem, s.rsp0, s.base)), Live(s.t));
  }

  lemma StartSameOutside(m: Mem, rsp0: int, base: int)
    ensures SameOutside(m, StartMem(m, rsp0, base), base, base + REGION_SIZE)
  {
  }

  lemma PrologueInvisible(p: Process, t: nat)
    requires Inv(p) && Enabled(p, Prologue(t))
    ensures Invisible(p, After(p, Prologue(t)))
  {
    var th := p.threads[t];
    LiveMapped(p, t);
    PrologueWithin(p.mem, th, th.rsp, p.mem[th.rsp]);
    WriteSameOutside(p.mem, GsSlot(th.gs, th.rsp), p.mem[th.rsp], th.base, th.base + REGION_SIZE);
    ThreadInvisible(p, t, th.(frames := th.frames + [Frame(th.rsp, p.mem[th.rsp])]),
                    p.mem[GsSlot(th.gs, th.rsp) := p.mem[th.rsp]]);
  }

  lemma EnterInvisible(p: Process, t: nat, now: int)
    requires Inv(p) && Enabled(p, Enter(t, now))
    ensures Invisible(p, After(p, Enter(t, now)))
  {
    hide ThreadOk;
    var th := p.threads[t];
    FoundIsOwn(p, t);
    ThreadInvisible(p, t, th.(phase := Searching(Metadata(th.base))), Entered(p.mem, th.base, now));
  }

  lemma MmapInvisible(p: Process, t: nat, addr: int)
    requires Enabled(p, Mmap(t, addr))
    ensures Invisible(p, After(p, Mmap(t, addr)))
  {
    MmapIs(p, t, addr);
    HoldInvisible(p, t, addr);
  }

  lemma HoldInvisible(p: Process, t: nat, addr: int)
    requires t in p.threads && p.threads[t].phase.Searching? && Unmapped(p.mem, addr, addr + REGION_SIZE)
    ensures Invisible(p, With(p, t, p.threads[t].(phase := Holding(p.threads[t].phase.meta, addr)),
                              Zeroed(p.mem, addr, addr + REGION_SIZE)))
  {
    var m := Zeroed(p.mem, addr, addr + REGION_SIZE);
    HoldExtends(p, t, addr, m);
    MapInvisible(p, With(p, t, p.threads[t].(phase := Holding(p.threads[t].phase.meta, addr)), m), Held(t));
  }

  lemma RejectInvisible(p: Process, t: nat)
    requires t in p.threads && p.threads[t].phase.Holding?
    ensures Invisible(p, Rejected(p, t))
  {
    RejectShrinks(p, t);
    MapInvisible(Rejected(p, t), p, Held(t));
  }

  lemma RejectShrinks(p: Process, t: nat)
    requires t in p.threads && p.threads[t].phase.Holding?
    ensures Extends(Rejected(p, t), p, Held(t)) && forall o :: Owns(Rejected(p, t), o) ==> Owns(p, o)
  {
  }

  lemma LeaveInvisible(p: Process, t: nat, gs: int)
    requires Inv(p) && t in p.threads && !p.threads[t].phase.Holding?
    ensures Invisible(p, With(p, t, p.threads[t].(phase := Running, gs := gs), Left(p.mem, p.threads[t].base)))
  {
    var th := p.threads[t];
    FlagMapped(p.mem, th);
    WriteSameOutside(p.mem, Metadata(th.base) + IS_RANDOMIZING, 0, th.base, th.base + REGION_SIZE);
    ThreadInvisible(p, t, th.(phase := Running, gs := gs), Left(p.mem, th.base));
  }

  lemma FlagMapped(m: Mem, th: Thread)
    requires ThreadOk(m, th)
    ensures Metadata(th.base) + IS_RANDOMIZING in m
  {
  }

  lemma LeavingInvisible(p: Process, s: Step)
    requires Inv(p) && Enabled(p, s) && (s.GiveUp? || s.SetGs?)
    ensures Invisible(p, After(p, s))
  {
    if s.GiveUp? {
      SearchingFacts(p.mem, p.threads[s.t]);
      GiveUpIs(p, s.t);
      LeaveInvisible(p, s.t, p.threads[s.t].gs);
    } else {
      RemappedFacts(p.mem, p.threads[s.t]);
      LeaveInvisible(p, s.t, p.threads[s.t].phase.diff);
    }
  }

  lemma AbandonInvisible(p: Process, t: nat)
    requires Inv(p) && t in p.threads && p.threads[t].phase.Holding?
    ensures Invisible(p, Abandoned(p, t))
  {
    HoldingFacts(p.mem, p.threads[t]);
    AbandonedIsRejectThenLeave(p, t);
    RejectKeeps(p, t);
    RejectInvisible(p, t);
    LeaveInvisible(Rejected(p, t), t, p.threads[t].gs);
    InvisibleTwice(p, Rejected(p, t), Abandoned(p, t));
  }

  lemma RemapInvisible(p: Process, t: nat)
    requires Inv(p) && Enabled(p, Remap(t))
    ensures Invisible(p, After(p, Remap(t)))
  {
    hide StackOk;
    NewDiffIsGsFor(p, t);
    var th := p.threads[t];
    RemapIs(p, t, th.base, GsFor(th.phase.addr, th.rsp0));
    RelocateSeen(p.mem, th.base, th.phase.addr, GsFor(th.phase.addr, th.rsp0));
    RemappedInvisible(p, t, Relocate(p.mem, Metadata(th.base), th.base, th.phase.addr, GsFor(th.phase.addr, th.rsp0)),
                      GsFor(th.phase.addr, th.rsp0));
  }

  /** A move changes words of its two regions only, and unmaps the one it leaves. */
  lemma RelocateSeen(m: Mem, base: int, to: int, diff: int)
    ensures var m' := Relocate(m, Metadata(base), base, to, diff);
            forall a :: !(base <= a < base + REGION_SIZE) && !(to <= a < to + REGION_SIZE) ==>
              (a in m <==> a in m') && (a in m ==> m'[a] == m[a])
    ensures forall a :: base <= a < base + REGION_SIZE && !(to <= a < to + REGION_SIZE) ==>
              a !in Relocate(m, Metadata(base), base, to, diff)
  {
    assert Relocated(m, base, to, diff) == Relocate(m, Metadata(base), base, to, diff);
    hide Relocate, Relocated;
    forall a
      ensures !(base <= a < base + REGION_SIZE) && !(to <= a < to + REGION_SIZE) ==>
                (a in m <==> a in Relocated(m, base, to, diff))
                && (a in m ==> Relocated(m, base, to, diff)[a] == m[a])
      ensures base <= a < base + REGION_SIZE && !(to <= a < to + REGION_SIZE) ==> a !in Relocated(m, base, to, diff)
    {
      RelocatedElsewhere(m, base, to, diff, a);
    }
  }

  lemma RemappedInvisible(p: Process, t: nat, m: Mem, diff: int)
    requires t in p.threads && p.threads[t].phase.Holding?
    requires var th := p.threads[t];
             forall a :: !(th.base <= a < th.base + REGION_SIZE)
                         && !(th.phase.addr <= a < th.phase.addr + REGION_SIZE) ==>
               (a in p.mem <==> a in m) && (a in p.mem ==> m[a] == p.mem[a])
    requires var th := p.threads[t];
             forall a :: th.base <= a < th.base + REGION_SIZE && !(th.phase.addr <= a < th.phase.addr + REGION_SIZE) ==>
               a !in m
    ensures Invisible(p, With(p, t, Remapping(p.threads[t], diff), m))
  {
    var p' := With(p, t, Remapping(p.threads[t], diff), m);
    forall a
      ensures (Seen(p, a) <==> Seen(p', a)) && (Seen(p, a) ==> p'.mem[a] == p.mem[a])
    {
      OutsideRemapped(p, t, m, diff, a);
    }
  }

  lemma OutsideRemapped(p: Process, t: nat, m: Mem, diff: int, a: int)
    requires t in p.threads && p.threads[t].phase.Holding?
    ensures Outside(p, a) <==> Outside(With(p, t, Remapping(p.threads[t], diff), m), a)
                               && !(p.threads[t].base <= a < p.threads[t].base + REGION_SIZE)
    ensures Outside(p, a) ==> !(p.threads[t].phase.addr <= a < p.threads[t].phase.addr + REGION_SIZE)
    ensures Outside(With(p, t, Remapping(p.threads[t], diff), m), a) ==>
              !(p.threads[t].phase.addr <= a < p.threads[t].phase.addr + REGION_SIZE)
  {
    var p' := With(p, t, Remapping(p.threads[t], diff), m);
    assert Owns(p, Live(t)) && Owns(p, Held(t)) && Owns(p', Live(t));
    if Outside(p, a) {
      forall o | Owns(p', o)
        ensures !(BaseOf(p', o) <= a < BaseOf(p', o) + REGION_SIZE)
      {
        assert o != Live(t) ==> Owns(p, o) && BaseOf(p', o) == BaseOf(p, o);
      }
    }
    if Outside(p', a) && !(p.threads[t].base <= a < p.threads[t].base + REGION_SIZE) {
      forall o | Owns(p, o)
        ensures !(BaseOf(p, o) <= a < BaseOf(p, o) + REGION_SIZE)
      {
        assert o != Live(t) && o != Held(t) ==> Owns(p', o) && BaseOf(p', o) == BaseOf(p, o);
      }
    }
  }

  lemma ExitInvisible(p: Process, t: nat, now: int)
    requires Inv(p) && Enabled(p, Exit(t, now))
    ensures Invisible(p, After(p, Exit(t, now)))
  {
    FoundIsOwn(p, t);
    ExitIs(p, t, now);
    forall a
      ensures (Seen(p, a) <==> Seen(Released(p, t, p.threads[t].base, now), a))
    {
      OutsideReleased(p, t, now, a);
    }
  }

  lemma OutsideReleased(p: Process, t: nat, now: int, a: int)
    requires Inv(p) && t in p.threads && !p.threads[t].phase.Holding?
    ensures Outside(p, a) <==> Outside(Released(p, t, p.threads[t].base, now), a)
  {
    var p' := Released(p, t, p.threads[t].base, now);
    var heir := if FirstFree(p.table) == |p.table| then Lost(|p.leaked|) else Waiting(FirstFree(p.table));
    ExitEmbeds(p, t, now, heir);
    if Outside(p, a) {
      forall o | Owns(p', o)
        ensures !(BaseOf(p', o) <= a < BaseOf(p', o) + REGION_SIZE)
      {
        var f := (o: Owner) => if o == heir then Live(t) else o;
        assert Owns(p, f(o)) && BaseOf(p', o) == BaseOf(p, f(o));
      }
    }
    if Outside(p', a) {
      forall o | Owns(p, o)
        ensures !(BaseOf(p, o) <= a < BaseOf(p, o) + REGION_SIZE)
      {
        HeirOwns(p, t, now, heir, o);
      }
    }
  }

  lemma HeirOwns(p: Process, t: nat, now: int, heir: Owner, o: Owner)
    requires t in p.threads && !p.threads[t].phase.Holding? && Owns(p, o)
    requires heir == if FirstFree(p.table) == |p.table| then Lost(|p.leaked|) else Waiting(FirstFree(p.table))
    ensures var o' := if o == Live(t) then heir else o;
            && Owns(Released(p, t, p.threads[t].base, now), o')
            && BaseOf(Released(p, t, p.threads[t].base, now), o') == BaseOf(p, o)
  {
  }

  function Retired(p: Process, i: nat): Process
    requires i < |p.table|
  {
    p.(table := p.table[i := p.table[i].(valid := false)],
       mem := Dropped(p.mem, p.table[i].shadowStack, p.table[i].shadowStack + REGION_SIZE))
  }

  lemma CleanInvisible(p: Process, i: nat, now: int)
    requires Enabled(p, Clean(i, now))
    ensures Invisible(p, After(p, Clean(i, now)))
  {
    RetireShrinks(p, i);
    MapInvisible(Retired(p, i), p, Waiting(i));
  }

  lemma RetireShrinks(p: Process, i: nat)
    requires i < |p.table| && p.table[i].valid
    ensures Extends(Retired(p, i), p, Waiting(i)) && forall o :: Owns(Retired(p, i), o) ==> Owns(p, o)
  {
  }

  /** A step that changes no word that the program can see: all but calls and the
      program's own writes. */
  predicate Behind(s: Step) {
    !s.Env? && !s.Call? && !s.RedirectedCall?
  }

  lemma MovingInvisible(p: Process, s: Step)
    requires Inv(p) && Enabled(p, s)
    requires s.Mmap? || s.Reject? || s.RangeFails? || s.Remap? || s.RemapFails? || s.SetGsFails?
    ensures Invisible(p, After(p, s))
  {
    match s
    case Mmap(t, addr) => MmapInvisible(p, t, addr);
    case Reject(t) => RejectInvisible(p, t);
    case RangeFails(t) => RangeNeverFails(p, t);
    case Remap(t) => RemapInvisible(p, t);
    case RemapFails(t) => AbandonInvisible(p, t);
    case SetGsFails(t) => SetGsNeverFails(p, t);
  }

  lemma PopInvisible(p: Process, s: Step)
    requires Enabled(p, s) && (s.Adjust? || s.Epilogue?)
    ensures Invisible(p, After(p, s))
  {
    PopOwners(p, s);
    SameMemoryInvisible(p, After(p, s));
  }

  lemma PopOwners(p: Process, s: Step)
    requires Enabled(p, s) && (s.Adjust? || s.Epilogue?)
    ensures SameOwners(p, After(p, s)) && After(p, s).mem == p.mem
  {
    var th := p.threads[s.t];
    var th' := After(p, s).threads[s.t];
    ReplacedOwners(p, s.t, th', p.mem);
  }

  lemma SameMemoryInvisible(p: Process, p': Process)
    requires SameOwners(p, p') && p'.mem == p.mem
    ensures Invisible(p, p')
  {
    forall a
      ensures Outside(p, a) <==> Outside(p', a)
    {
      if Outside(p, a) {
        OutsideSame(p, p', a);
      } else if Outside(p', a) {
        OutsideSame(p', p, a);
      }
    }
  }

  /** Prologues, epilogues, re-randomizations, thread starts and exits and the cleaner
      change nothing outside the shadow regions. */
  lemma BehindInvisible(p: Process, s: Step)
    requires Inv(p) && Enabled(p, s) && Behind(s)
    ensures Invisible(p, After(p, s))
  {
    hide Enabled;
    match s
    case Start(_, _, _, _, _) => StartInvisible(p, s);
    case Prologue(t) => PrologueInvisible(p, t);
    case Adjust(_, _, _) => PopInvisible(p, s);
    case Epilogue(_) => PopInvisible(p, s);
    case Enter(t, now) => EnterInvisible(p, t, now);
    case GiveUp(_) => LeavingInvisible(p, s);
    case SetGs(_) => LeavingInvisible(p, s);
    case Exit(t, now) => ExitInvisible(p, t, now);
    case Clean(i, now) => CleanInvisible(p, i, now);
    case _ => MovingInvisible(p, s);
  }

  // --------------------------------------------------------- Intact return slots

  predicate IntactAt(m: Mem, f: Frame) {
    f.slot in m && m[f.slot] == f.saved
  }

  /** Every live frame's return slot still holds the address its prologue saw. */
  ghost predicate Intact(p: Process) {
    forall t: nat, d: nat, f :: LiveAt(p, t, d, f) ==> IntactAt(p.mem, f)
  }

  /** The program's own writes leave the return slots of live frames alone. */
  ghost predicate Benign(p: Process, s: Step) {
    s.Env? ==>
      forall t: nat, d: nat, f :: LiveAt(p, t, d, f) && IntactAt(p.mem, f) ==>
        IntactAt(Edited(p.mem, s.writes, s.unmaps), f)
  }

  /** A live frame's return slot is a word that the program can see. */
  lemma SlotSeen(p: Process, t: nat, d: nat, f: Frame)
    requires Inv(p) && LiveAt(p, t, d, f)
    ensures Seen(p, f.slot) && p.threads[t].lo <= f.slot < p.threads[t].hi
  {
    SlotOnStack(p.mem, p.threads[t], d);
    StackSeen(p, t, f.slot);
  }

  lemma SlotOnStack(m: Mem, th: Thread, d: nat)
    requires ThreadOk(m, th) && d < |th.frames|
    ensures th.rsp <= th.frames[d].slot && th.lo <= th.frames[d].slot < th.hi && Aligned(th.frames[d].slot)
  {
    assert FrameOk(th, th.frames[d]);
  }

  lemma StackSeen(p: Process, t: nat, a: int)
    requires RegionsOk(p) && t in p.threads && p.threads[t].lo <= a < p.threads[t].hi && Aligned(a)
    ensures Seen(p, a)
  {
    assert StackMapped(p, t);
    forall o | Owns(p, o)
      ensures !(BaseOf(p, o) <= a < BaseOf(p, o) + REGION_SIZE)
    {
      assert OffStack(p, t, o);
    }
  }

  lemma BehindKeepsIntact(p: Process, s: Step)
    requires Inv(p) && Intact(p) && Enabled(p, s) && Behind(s)
    ensures Intact(After(p, s))
  {
    var p' := After(p, s);
    BehindInvisible(p, s);
    forall t: nat, d: nat, f | LiveAt(p', t, d, f)
      ensures IntactAt(p'.mem, f)
    {
      FrameStep(p, s, t, d, f);
      BehindKeepsSlot(p, s, p', t, d, f);
    }
  }

  lemma BehindKeepsSlot(p: Process, s: Step, p': Process, t: nat, d: nat, f: Frame)
    requires Inv(p) && Intact(p) && Enabled(p, s) && Behind(s) && Invisible(p, p')
    requires LiveAt(p, t, d, f) || Pushes(p, s, t, f)
    ensures IntactAt(p'.mem, f)
  {
    if LiveAt(p, t, d, f) {
      SlotSeen(p, t, d, f);
    } else {
      TopSeen(p, t);
    }
  }

  lemma TopSeen(p: Process, t: nat)
    requires Inv(p) && Enabled(p, Prologue(t))
    ensures Seen(p, p.threads[t].rsp)
  {
    TopOnStack(p.mem, p.threads[t]);
    StackSeen(p, t, p.threads[t].rsp);
  }

  lemma TopOnStack(m: Mem, th: Thread)
    requires ThreadOk(m, th) && CanProtect(th, th.rsp)
    ensures th.lo <= th.rsp < th.hi && Aligned(th.rsp)
  {
  }

  lemma CallKeepsIntact(p: Process, t: nat, ret: int)
    requires Inv(p) && Intact(p) && Enabled(p, Call(t, ret))
    ensures Intact(After(p, Call(t, ret)))
  {
    hide Inv;
    CallIs(p, t, ret);
    var p' := After(p, Call(t, ret));
    forall u: nat, d: nat, f | LiveAt(p', u, d, f)
      ensures IntactAt(p'.mem, f)
    {
      assert LiveAt(p, u, d, f);
      PushMissesSlot(p, t, u, d, f);
    }
  }

  lemma PushMissesSlot(p: Process, t: nat, u: nat, d: nat, f: Frame)
    requires Inv(p) && t in p.threads && LiveAt(p, u, d, f) && p.threads[t].lo <= p.threads[t].rsp - 8
    ensures f.slot != p.threads[t].rsp - 8
  {
    SlotOnStack(p.mem, p.threads[u], d);
    if u != t {
      assert StacksApart(p, t, u);
      RspOnStack(p.mem, p.threads[t]);
    }
  }

  lemma RspOnStack(m: Mem, th: Thread)
    requires ThreadOk(m, th)
    ensures th.lo <= th.rsp <= th.hi
  {
  }

  lemma EnvKeepsIntact(p: Process, s: Step)
    requires Intact(p) && s.Env? && Enabled(p, s) && Benign(p, s)
    ensures Intact(After(p, s))
  {
    forall u: nat, d: nat, f | LiveAt(After(p, s), u, d, f)
      ensures IntactAt(After(p, s).mem, f)
    {
      assert LiveAt(p, u, d, f);
    }
  }

  // -------------------------------------------------------------- The simulation

  ghost predicate SameThreads(p: Process, r: Plain) {
    && (forall t: nat :: t in p.threads <==> t in r.threads)
    && (forall t: nat :: t in p.threads ==> r.threads[t] == PlainThread(p.threads[t].rsp, p.threads[t].trace))
  }

  /** The plain machine's memory is what the instrumented program can see: all that is
      mapped outside shadow regions. */
  ghost predicate Agrees(p: Process, m: Mem) {
    forall a :: (a in m <==> Seen(p, a)) && (a in m ==> m[a] == p.mem[a])
  }

  ghost predicate Related(p: Process, r: Plain) {
    SameThreads(p, r) && Agrees(p, r.mem)
  }

  lemma BehindAgrees(p: Process, s: Step, m: Mem)
    requires Inv(p) && Enabled(p, s) && Behind(s) && Agrees(p, m)
    ensures Agrees(After(p, s), m)
  {
    BehindInvisible(p, s);
    InvisibleAgrees(p, After(p, s), m);
  }

  lemma InvisibleAgrees(p: Process, p': Process, m: Mem)
    requires Invisible(p, p') && Agrees(p, m)
    ensures Agrees(p', m)
  {
  }

  /** The plain return jumps where the epilogue jumps. */
  lemma TargetsAlike(p: Process, r: Plain, t: nat)
    requires Inv(p) && Intact(p) && Agrees(p, r.mem) && Enabled(p, Epilogue(t))
    ensures t in p.threads && p.threads[t].rsp in r.mem && GsSlot(p.threads[t].gs, p.threads[t].rsp) in p.mem
    ensures r.mem[p.threads[t].rsp] == p.mem[GsSlot(p.threads[t].gs, p.threads[t].rsp)]
  {
    hide Inv, Intact, Agrees, Enabled;
    LastFrameRead(p, t);
    var frames := p.threads[t].frames;
    PlainSlot(p, r.mem, t, |frames| - 1, frames[|frames| - 1]);
  }

  lemma LastFrameRead(p: Process, t: nat)
    requires Inv(p) && Enabled(p, Epilogue(t))
    ensures t in p.threads && p.threads[t].frames != []
    ensures var th, f := p.threads[t], p.threads[t].frames[|p.threads[t].frames| - 1];
            && f.slot == th.rsp && LiveAt(p, t, |th.frames| - 1, f)
            && GsSlot(th.gs, th.rsp) in p.mem && p.mem[GsSlot(th.gs, th.rsp)] == f.saved
  {
    EpilogueIs(p, t);
    EpilogueReads(p.mem, p.threads[t]);
  }

  /** The plain machine's memory still holds a live frame's return address. */
  lemma PlainSlot(p: Process, m: Mem, t: nat, d: nat, f: Frame)
    requires Inv(p) && Intact(p) && Agrees(p, m) && LiveAt(p, t, d, f)
    ensures f.slot in m && m[f.slot] == f.saved
  {
    SlotSeen(p, t, d, f);
  }

  lemma ReturnsAlike(p: Process, r: Plain, t: nat)
    requires Enabled(p, Epilogue(t)) && SameThreads(p, r)
    requires var th := p.threads[t];
             th.rsp in r.mem && r.mem[th.rsp] == p.mem[GsSlot(th.gs, th.rsp)]
    ensures SameThreads(After(p, Epilogue(t)), PlainAfter(r, Epilogue(t)))
    ensures PlainAfter(r, Epilogue(t)).mem == r.mem
  {
    EpilogueIs(p, t);
    assert t in r.threads;
  }

  lemma BehindSameThreads(p: Process, r: Plain, s: Step)
    requires SameThreads(p, r) && Enabled(p, s) && Behind(s) && !s.Epilogue?
    ensures SameThreads(After(p, s), PlainAfter(r, s)) && PlainAfter(r, s).mem == r.mem
  {
    if s.Start? || s.Prologue? || s.Adjust? || s.Exit? || s.Clean? {
      hide Initialised, Zeroed, Dropped, Queued, Abandoned, RemapAt;
    } else {
      PhaseSameThreads(p, r, s);
    }
  }

  /** The steps of a move touch neither rsp nor what has been returned to. */
  lemma PhaseSameThreads(p: Process, r: Plain, s: Step)
    requires SameThreads(p, r) && Enabled(p, s) && Behind(s) && !s.Epilogue?
    requires !s.Start? && !s.Prologue? && !s.Adjust? && !s.Exit? && !s.Clean?
    ensures SameThreads(After(p, s), PlainAfter(r, s)) && PlainAfter(r, s).mem == r.mem
  {
    hide Relocate, Zeroed, Dropped, Cleared, Entered, Left;
  }

  lemma CallRelated(p: Process, r: Plain, t: nat, ret: int)
    requires Inv(p) && Related(p, r) && Enabled(p, Call(t, ret))
    ensures Related(After(p, Call(t, ret)), PlainCall(r, t, ret))
  {
    hide Inv, Enabled, SameThreads, Agrees, Seen;
    CallIs(p, t, ret);
    PushSeen(p, t, ret);
    var th, m := p.threads[t].(rsp := p.threads[t].rsp - 8), p.mem[p.threads[t].rsp - 8 := ret];
    ReplacedOwners(p, t, th, m);
    CallAgrees(p, With(p, t, th, m), p.threads[t].rsp - 8, ret, r.mem);
    CallSameThreads(p, r, t, ret, m);
    PlainCallWrites(p, r, t, ret);
  }

  lemma CallSameThreads(p: Process, r: Plain, t: nat, ret: int, m: Mem)
    requires SameThreads(p, r) && t in p.threads
    ensures SameThreads(With(p, t, p.threads[t].(rsp := p.threads[t].rsp - 8), m), PlainCall(r, t, ret))
  {
  }

  lemma PlainCallWrites(p: Process, r: Plain, t: nat, ret: int)
    requires SameThreads(p, r) && t in p.threads
    ensures PlainCall(r, t, ret).mem == r.mem[p.threads[t].rsp - 8 := ret]
  {
  }

  lemma CallAgrees(p: Process, p': Process, a: int, v: int, m: Mem)
    requires Agrees(p, m) && Seen(p, a) && p'.mem == p.mem[a := v] && SameOwners(p', p) && SameOwners(p, p')
    ensures Agrees(p', m[a := v])
  {
    forall b
      ensures Outside(p, b) <==> Outside(p', b)
    {
      if Outside(p', b) {
        OutsideSame(p', p, b);
      } else if Outside(p, b) {
        OutsideSame(p, p', b);
      }
    }
  }

  lemma PushSeen(p: Process, t: nat, ret: int)
    requires Inv(p) && Enabled(p, Call(t, ret))
    ensures t in p.threads && Seen(p, p.threads[t].rsp - 8)
  {
    hide ThreadOk;
    PushOnStack(p.mem, p.threads[t]);
    StackSeen(p, t, p.threads[t].rsp - 8);
  }

  lemma PushOnStack(m: Mem, th: Thread)
    requires ThreadOk(m, th) && th.lo <= th.rsp - 8
    ensures th.lo <= th.rsp - 8 < th.hi && Aligned(th.rsp - 8)
  {
  }

  /** The program's own writes reach the same words in both memories. */
  lemma EnvRelated(p: Process, r: Plain, writes: Mem, unmaps: set<int>)
    requires Related(p, r) && Enabled(p, Env(writes, unmaps))
    ensures Related(After(p, Env(writes, unmaps)), PlainAfter(r, Env(writes, unmaps)))
  {
    EditAgrees(p, p.(mem := Edited(p.mem, writes, unmaps)), r.mem, writes, unmaps);
  }

  lemma EditAgrees(p: Process, p': Process, m: Mem, writes: Mem, unmaps: set<int>)
    requires Agrees(p, m) && CanEdit(p, writes, unmaps) && p' == p.(mem := Edited(p.mem, writes, unmaps))
    ensures Agrees(p', Edited(m, writes, unmaps))
  {
    forall a
      ensures Outside(p, a) <==> Outside(p', a)
    {
      SameOwnersEdited(p, p');
      if Outside(p, a) {
        OutsideSame(p, p', a);
      } else if Outside(p', a) {
        OutsideSame(p', p, a);
      }
    }
  }

  lemma SameOwnersEdited(p: Process, p': Process)
    requires p' == p.(mem := p'.mem)
    ensures SameOwners(p, p') && SameOwners(p', p)
  {
  }

  /** One step of a benign program: the plain machine follows. */
  lemma StepRelated(p: Process, r: Plain, s: Step)
    requires Inv(p) && Intact(p) && Related(p, r) && Enabled(p, s) && Benign(p, s)
    ensures Intact(After(p, s)) && Related(After(p, s), PlainAfter(r, s))
  {
    if Behind(s) {
      BehindKeepsIntact(p, s);
      BehindRelated(p, r, s);
    } else if s.Env? {
      EnvKeepsIntact(p, s);
      EnvRelated(p, r, s.writes, s.unmaps);
    } else if s.Call? {
      CallKeepsIntact(p, s.t, s.ret);
      CallRelated(p, r, s.t, s.ret);
    } else {
      RedirectedRelated(p, r, s.t, s.ret);
    }
  }

  lemma BehindRelated(p: Process, r: Plain, s: Step)
    requires Inv(p) && Intact(p) && Related(p, r) && Enabled(p, s) && Behind(s)
    ensures Related(After(p, s), PlainAfter(r, s))
  {
    BehindAgrees(p, s, r.mem);
    if s.Epilogue? {
      TargetsAlike(p, r, s.t);
      ReturnsAlike(p, r, s.t);
    } else {
      BehindSameThreads(p, r, s);
    }
  }

  lemma RedirectedRelated(p: Process, r: Plain, t: nat, ret: int)
    requires Inv(p) && Intact(p) && Related(p, r) && Enabled(p, RedirectedCall(t, ret))
    ensures Intact(After(p, RedirectedCall(t, ret)))
    ensures Related(After(p, RedirectedCall(t, ret)), PlainCall(r, t, ret))
  {
    hide ThreadOk;
    RedirectedIsCallThenPrologue(p, t, ret);
    CallStep(p, t, ret);
    CallKeepsIntact(p, t, ret);
    CallRelated(p, r, t, ret);
    BehindKeepsIntact(After(p, Call(t, ret)), Prologue(t));
    BehindRelated(After(p, Call(t, ret)), PlainCall(r, t, ret), Prologue(t));
  }

  /** The plain machine's run by the same steps. */
  predicate IsPlainRun(plain: seq<Plain>, steps: seq<Step>) {
    |plain| == |steps| + 1 && forall i :: 0 <= i < |steps| ==> plain[i + 1] == PlainAfter(plain[i], steps[i])
  }

  ghost predicate AllBenign(states: seq<Process>, steps: seq<Step>) {
    |states| == |steps| + 1 && forall i :: 0 <= i < |steps| ==> Benign(states[i], steps[i])
  }

  /** Transparency: if the program never overwrites the return slot of a live frame, then
      through any number of moves every thread's returns go where those of the
      uninstrumented program go, and memory outside shadow regions is the same. */
  lemma {:induction false} SameAsPlain(states: seq<Process>, steps: seq<Step>, plain: seq<Plain>, j: nat)
    requires IsRun(states, steps) && Initial(states[0]) && AllBenign(states, steps)
    requires IsPlainRun(plain, steps) && plain[0] == Plain(states[0].mem, map[]) && j <= |steps|
    ensures Intact(states[j]) && Related(states[j], plain[j])
  {
    if j > 0 {
      SameAsPlain(states, steps, plain, j - 1);
      RunKeepsInv(states, steps, j - 1);
      assert StepAt(states, steps, j - 1);
      StepRelated(states[j - 1], plain[j - 1], steps[j - 1]);
    }
  }

  // ---------------------------------------------------------- Redirected call sites

  /** The steps with every redirected call site replaced by a plain one. */
  function Expanded(steps: seq<Step>): seq<Step> {
    if steps == [] then []
    else
      (match steps[0]
       case RedirectedCall(t, ret) => [Call(t, ret), Prologue(t)]
       case s => [s])
      + Expanded(steps[1..])
  }

  ghost predicate Reaches(p: Process, steps: seq<Step>, p': Process)
    decreases |steps|
  {
    if steps == [] then p' == p
    else Enabled(p, steps[0]) && Reaches(After(p, steps[0]), steps[1..], p')
  }

  /** Whatever mix of redirected and plain call sites a program has, it reaches the state
      that it would reach with plain call sites only: same memory, same returns. */
  lemma {:induction false} RedirectionIsTransparent(p: Process, steps: seq<Step>, p': Process)
    requires Inv(p) && Reaches(p, steps, p')
    ensures Reaches(p, Expanded(steps), p')
    decreases |steps|
  {
    if steps != [] {
      var s := steps[0];
      var p1 := After(p, s);
      StepKeepsInv(p, s);
      RedirectionIsTransparent(p1, steps[1..], p');
      if s.RedirectedCall? {
        RedirectedIsCallThenPrologue(p, s.t, s.ret);
        ReachesTwo(p, Call(s.t, s.ret), Prologue(s.t), Expanded(steps[1..]), p');
      } else {
        ReachesOne(p, s, Expanded(steps[1..]), p');
      }
    }
  }

  lemma ReachesOne(p: Process, s: Step, rest: seq<Step>, p': Process)
    requires Enabled(p, s) && Reaches(After(p, s), rest, p')
    ensures Reaches(p, [s] + rest, p')
  {
    assert ([s] + rest)[1..] == rest;
  }

  lemma ReachesTwo(p: Process, s: Step, s': Step, rest: seq<Step>, p': Process)
    requires Enabled(p, s) && Enabled(After(p, s), s') && Reaches(After(After(p, s), s'), rest, p')
    ensures Reaches(p, [s, s'] + rest, p')
  {
    hide After;
    ReachesOne(After(p, s), s', rest, p');
    ReachesOne(p, s, [s'] + rest, p');
    assert [s] + ([s'] + rest) == [s, s'] + rest;
  }

  // -------------------------------------------- The steps and the runtime's function

  /** Four steps, one after the other. */
  lemma ReachesFour(p: Process, a: Step, b: Step, c: Step, d: Step, q: Process)
    requires Reaches(p, [a, b, c, d], q)
    ensures Enabled(p, a)
    ensures Enabled(After(p, a), b)
    ensures Enabled(After(After(p, a), b), c)
    ensures Enabled(After(After(After(p, a), b), c), d)
    ensures q == After(After(After(After(p, a), b), c), d)
  {
    hide Reaches;
    assert [a, b, c, d] == [a] + [b, c, d] && [b, c, d] == [b] + [c, d] && [c, d] == [c] + [d];
    assert [d] == [d] + [];
    ReachesFirst(p, a, [b, c, d], q);
    ReachesFirst(After(p, a), b, [c, d], q);
    ReachesFirst(After(After(p, a), b), c, [d], q);
    ReachesFirst(After(After(After(p, a), b), c), d, [], q);
  }

  lemma ReachesFirst(p: Process, s: Step, rest: seq<Step>, q: Process)
    requires Reaches(p, [s] + rest, q)
    ensures Enabled(p, s) && Reaches(After(p, s), rest, q)
    ensures rest == [] ==> q == After(p, s)
  {
    assert ([s] + rest)[1..] == rest;
  }

  /** The steps of one thread's successful move, uninterrupted, do to the process what
      GsRspRuntime.Runtime.RuntimeRerandomize does to its address space. */
  lemma MoveInSteps(p: Process, t: nat, now: int, addr: int, q: Process)
    requires Inv(p) && t in p.threads
    requires Reaches(p, [Enter(t, now), Mmap(t, addr), Remap(t), SetGs(t)], q)
    ensures var th := p.threads[t];
            q.mem == Left(Relocated(Entered(p.mem, th.base, now), th.base, addr, GsFor(addr, th.rsp0)), addr)
    ensures var th := p.threads[t];
            t in q.threads && q.threads[t] == th.(gs := GsFor(addr, th.rsp0), base := addr)
  {
    hide Inv, Reaches, Enabled, After, Relocated, Zeroed, Entered, Left, GsFor, Unmapped;
    ReachesFour(p, Enter(t, now), Mmap(t, addr), Remap(t), SetGs(t), q);
    EnterIs(p, t, now);
    EnterStep(p, t, now);
    var p1 := After(p, Enter(t, now));
    MmapIs(p1, t, addr);
    MmapStep(p1, t, addr);
    var p2 := After(p1, Mmap(t, addr));
    RemapDone(p2, t);
    SetGsIs(After(p2, Remap(t)), t);
    MoveCommits(p1, t, addr);
  }

  lemma RemapDone(p: Process, t: nat)
    requires Inv(p) && Enabled(p, Remap(t))
    ensures t in p.threads && p.threads[t].phase.Holding?
    ensures var th := p.threads[t];
            var diff := GsFor(th.phase.addr, th.rsp0);
            After(p, Remap(t)) == With(p, t, Remapping(th, diff), Relocated(p.mem, th.base, th.phase.addr, diff))
  {
    hide Inv, After, Relocate;
    NewDiffIsGsFor(p, t);
    RemapIs(p, t, p.threads[t].base, GsFor(p.threads[t].phase.addr, p.threads[t].rsp0));
  }

  lemma SetGsIs(p: Process, t: nat)
    requires Enabled(p, SetGs(t))
    ensures t in p.threads && p.threads[t].phase.Remapped?
    ensures var th := p.threads[t];
            After(p, SetGs(t)) == With(p, t, th.(phase := Running, gs := th.phase.diff), Left(p.mem, th.phase.addr))
  {
  }

  lemma EnterIs(p: Process, t: nat, now: int)
    requires Inv(p) && Enabled(p, Enter(t, now))
    ensures t in p.threads && p.threads[t].phase.Running?
    ensures var th := p.threads[t];
            After(p, Enter(t, now))
              == With(p, t, th.(phase := Searching(Metadata(th.base))), Entered(p.mem, th.base, now))
  {
    FoundIsOwn(p, t);
  }

  /** The reservation that a move replaces leaves no trace. */
  lemma MoveCommits(p: Process, t: nat, addr: int)
    requires Inv(p) && t in p.threads && Aligned(addr) && Unmapped(p.mem, addr, addr + REGION_SIZE)
    ensures var base, diff := p.threads[t].base, GsFor(addr, p.threads[t].rsp0);
            Relocated(Zeroed(p.mem, addr, addr + REGION_SIZE), base, addr, diff) == Relocated(p.mem, base, addr, diff)
  {
    FreshApart(p, addr, Live(t));
    ReservationVanishes(p.mem, p.threads[t].base, addr, GsFor(addr, p.threads[t].rsp0));
  }

  // -------------------------------------------------- The steps and the templates

  /** The processor agrees with thread `t` on everything but scratch registers. */
  predicate Runs(c: Asm.Cpu, p: Process, t: nat) {
    t in p.threads && c.rsp == p.threads[t].rsp && c.gs == p.threads[t].gs && c.mem == p.mem
  }

  predicate At(o: Asm.Outcome, p: Process, t: nat) {
    !o.Fault? && Runs(o.cpu, p, t)
  }

  lemma RspIsWord(m: Mem, th: Thread)
    requires ThreadOk(m, th)
    ensures 8 <= th.rsp && th.rsp + 8 < WORD_SPAN
  {
  }

  /** The compiled prologue does what the step Prologue does. */
  lemma PrologueCode(p: Process, t: nat, c: Asm.Cpu)
    requires Inv(p) && Enabled(p, Prologue(t)) && Runs(c, p, t)
    ensures var o := Asm.Run(GsPrologue(), c); o.Next? && At(o, After(p, Prologue(t)), t)
  {
    var th := p.threads[t];
    LiveMapped(p, t);
    PrologueWithin(p.mem, th, th.rsp, p.mem[th.rsp]);
    RspIsWord(p.mem, th);
    GsPrologueRuns(c);
  }

  /** The compiled epilogue does what the step Epilogue does, and jumps where it says. */
  lemma EpilogueCode(p: Process, t: nat, c: Asm.Cpu)
    requires Inv(p) && Enabled(p, Epilogue(t)) && Runs(c, p, t)
    ensures var o, p' := Asm.Run(GsEpilogue(), c), After(p, Epilogue(t));
            o.Jump? && At(o, p', t) && p'.threads[t].trace == p.threads[t].trace + [o.target]
  {
    EpilogueIs(p, t);
    RspIsWord(p.mem, p.threads[t]);
    GsEpilogueRuns(c);
  }

  /** The compiled call site that enters past the prologue does what RedirectedCall does. */
  lemma DirectCallCode(p: Process, t: nat, ret: int, entry: int, c: Asm.Cpu)
    requires Inv(p) && Enabled(p, RedirectedCall(t, ret)) && Runs(c, p, t)
    ensures var o := Asm.Run(GsDirectCall(entry, ret), c);
            o.Jump? && o.target == entry + |GsPrologueBytes()| && At(o, After(p, RedirectedCall(t, ret)), t)
    ensures Encoding.DecodeFrom(GsPrologueBytes(), 0) == Asm.Some(GsPrologue()) && |GsPrologueBytes()| == 19
  {
    hide ThreadOk, Encoding.DecodeFrom, GsPrologueBytes;
    GsCompiled();
    CallSlotsMapped(p, t);
    RspIsWord(p.mem, p.threads[t]);
    ShadowSlotOffStack(p, t);
    PushCommutes(c, ret);
    GsDirectCallIsCallThenPrologue(c, entry, ret);
  }

  lemma CallSlotsMapped(p: Process, t: nat)
    requires Inv(p) && t in p.threads && CanProtect(p.threads[t], p.threads[t].rsp - 8)
    ensures p.threads[t].rsp - 8 in p.mem && GsSlot(p.threads[t].gs, p.threads[t].rsp - 8) in p.mem
  {
    LiveMapped(p, t);
    PushMapped(p, t);
    PrologueWithin(p.mem, p.threads[t], p.threads[t].rsp - 8, 0);
  }
}
