/** When the regions of finished threads are unmapped. */
module GsReclaim {
  import opened Words
  import opened Spa
  import opened Memory
  import opened GsRsp
  import opened GsRspRuntime
  import opened GsProcess
  import opened GsInvariant
  import opened GsMoves
  import opened GsRuns

  /** The cleaner may retire an entry exactly when more than ten seconds of cycles have gone by
      since the thread released it. */
  lemma CleanExactly(p: Process, i: nat, now: int)
    requires i < |p.table| && p.table[i].expiredTime <= now < p.table[i].expiredTime + WORD_SPAN
    ensures Enabled(p, Clean(i, now)) <==> p.table[i].valid && now - p.table[i].expiredTime > 32_000_000_000
  {
  }

  /** The entry that an exit takes. */
  predicate Takes(p: Process, s: Step, p': Process, i: nat) {
    && s.Exit? && s.t in p.threads && s.t !in p'.threads && i < |p'.table|
    && p'.table[i] == RegionInfo(true, p.threads[s.t].base, s.now)
  }

  lemma ExitTable(p: Process, t: nat, now: int)
    requires Inv(p) && Enabled(p, Exit(t, now))
    ensures t in p.threads && After(p, Exit(t, now)) == Released(p, t, p.threads[t].base, now)
  {
    FoundIsOwn(p, t);
    ExitIs(p, t, now);
  }

  lemma EntryStep(p: Process, s: Step, i: nat)
    requires Inv(p) && Enabled(p, s) && i < |After(p, s).table| && After(p, s).table[i].valid
    ensures |After(p, s).table| == |p.table|
    ensures p.table[i] == After(p, s).table[i] || Takes(p, s, After(p, s), i)
  {
    hide Inv;
    if s.Exit? {
      ExitTable(p, s.t, s.now);
    }
    hide InRuntime, RegionByRsp, CanMove, NewDiff, CanStart, CanProtect, CanEdit;
  }

  /** A waiting region was put into the table by the exit of the thread that it belonged to,
      and its entry has not changed since. */
  lemma {:induction false} QueuedByExit(states: seq<Process>, steps: seq<Step>, k: nat, i: nat) returns (j: nat)
    requires IsRun(states, steps) && Initial(states[0]) && k <= |steps|
    requires i < |states[k].table| && states[k].table[i].valid
    ensures j < k && Takes(states[j], steps[j], states[j + 1], i)
    ensures forall n :: j < n <= k ==> i < |states[n].table| && states[n].table[i] == states[k].table[i]
  {
    hide Inv, Enabled, After;
    assert StepAt(states, steps, k - 1);
    RunKeepsInv(states, steps, k - 1);
    EntryStep(states[k - 1], steps[k - 1], i);
    if states[k - 1].table[i] == states[k].table[i] {
      j := QueuedByExit(states, steps, k - 1, i);
    } else {
      j := k - 1;
    }
  }

  /** The cycle counter does not go back between a thread's exit and a look of the cleaner. */
  predicate ClockGoesOn(steps: seq<Step>) {
    forall j, k :: 0 <= j < k < |steps| && steps[j].Exit? && steps[k].Clean? ==> steps[j].now <= steps[k].now
  }

  /** In every run, what the cleaner unmaps is the whole region of a thread that exited more
      than ten seconds of cycles before, and nothing else. */
  lemma CleanedLate(states: seq<Process>, steps: seq<Step>, k: nat) returns (j: nat)
    requires IsRun(states, steps) && Initial(states[0]) && ClockGoesOn(steps)
    requires k < |steps| && steps[k].Clean?
    ensures j < k && Takes(states[j], steps[j], states[j + 1], steps[k].i)
    ensures steps[k].now - steps[j].now > 32_000_000_000
    ensures var base := states[j].threads[steps[j].t].base;
            states[k + 1].mem == Dropped(states[k].mem, base, base + 0xA0_0000)
    ensures steps[k].i < |states[k + 1].table| && !states[k + 1].table[steps[k].i].valid
  {
    hide Inv;
    assert StepAt(states, steps, k);
    j := QueuedByExit(states, steps, k, steps[k].i);
    WrapBelow(steps[k].now - steps[j].now);
  }

  lemma WrapBelow(x: int)
    requires 0 <= x
    ensures Wrap(x) <= x
  {
  }

  /** Before that the region stays in the table and mapped. */
  lemma {:induction false} WaitsUntilLate(states: seq<Process>, steps: seq<Step>, j: nat, k: nat, i: nat)
    requires IsRun(states, steps) && Initial(states[0]) && j < k <= |steps|
    requires Takes(states[j], steps[j], states[j + 1], i)
    requires forall n :: j < n < k && steps[n].Clean? ==>
               steps[j].now <= steps[n].now <= steps[j].now + 32_000_000_000
    ensures i < |states[k].table| && states[k].table[i] == states[j + 1].table[i]
    ensures var base := states[j].threads[steps[j].t].base; Mapped(states[k].mem, base, base + REGION_SIZE)
  {
    hide Inv, Enabled, After, Mapped;
    if j + 1 < k {
      WaitsUntilLate(states, steps, j, k - 1, i);
      assert StepAt(states, steps, k - 1);
      EntryWaits(states[k - 1], steps[k - 1], i);
    }
    RunKeepsInv(states, steps, k);
    WaitingMapped(states[k], i);
  }

  lemma EntryWaits(p: Process, s: Step, i: nat)
    requires Enabled(p, s) && i < |p.table| && p.table[i].valid
    requires s.Clean? ==> p.table[i].expiredTime <= s.now <= p.table[i].expiredTime + 32_000_000_000
    ensures i < |After(p, s).table| && After(p, s).table[i] == p.table[i]
  {
    if s.Clean? && s.i == i {
      CleanExactly(p, i, s.now);
    }
    hide InRuntime, RegionByRsp, CanMove, NewDiff, CanStart, CanProtect, CanEdit;
  }

  lemma WaitingMapped(p: Process, i: nat)
    requires Inv(p) && i < |p.table| && p.table[i].valid
    ensures Mapped(p.mem, p.table[i].shadowStack, p.table[i].shadowStack + REGION_SIZE)
  {
    assert Owns(p, Waiting(i)) && RegionMapped(p, Waiting(i));
  }
}
