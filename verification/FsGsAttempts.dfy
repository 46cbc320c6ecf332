/** How often a thread of FS_GS re-randomizes: every call that comes a period after the latest
    attempt passes the gate, moves the thread and leaves the gate open for the next one. */
module FsGsAttempts {
  import opened Words
  import opened Spa
  import opened Memory
  import opened ShadowStack
  import opened Templates
  import opened RateGate
  import opened FsGs

  /** Between calls: ready, `count` is the cycle count of the latest attempt, and the next
      shift of the key is followed by a move. */
  predicate Rests(m: Mem, meta: int, count: int) {
    && meta + STATE in m && meta + IS_RANDOMIZING in m && meta + CPU_CYCLES in m && meta + RATIO_FACTOR in m
    && m[meta + STATE] == FLASH_STACK_INITED && m[meta + IS_RANDOMIZING] == 0
    && m[meta + CPU_CYCLES] == count && m[meta + RATIO_FACTOR] == 1
  }

  // ------------------------------------------------------------- One attempt

  /** The fields of the gate. */
  predicate GateField(field: int) {
    field == STATE || field == IS_RANDOMIZING || field == CPU_CYCLES || field == RATIO_FACTOR
  }

  lemma FieldThere(m: Mem, pl: Place, field: int)
    requires ThreadOk(m, pl) && GateField(field)
    ensures pl.meta + field in m
  {
    AlignedSum(pl.meta, field);
  }

  /** Shifting the key changes no field of the gate. */
  lemma RekeyedGate(m: Mem, pl: Place, rsp: int, delta: int, field: int)
    requires ThreadOk(m, pl) && pl.top - CALL_STACK_SIZE <= rsp && GateField(field)
    ensures pl.meta + field in m && pl.meta + field in Rekeyed(m, pl, rsp, delta)
    ensures Rekeyed(m, pl, rsp, delta)[pl.meta + field] == m[pl.meta + field]
  {
    FieldThere(m, pl, field);
    ShiftFromInRegion(pl, rsp);
    var m1 := m[pl.meta + FS_R := Wrap(m[pl.meta + FS_R] + delta)];
    ShiftedKeeps(m1, ShiftFrom(pl.base, pl.top, rsp), pl.base + CALL_STACK_SIZE, delta, pl.meta, pl.meta + META_SIZE);
  }

  /** What an attempt leaves in the fields of the gate before it is finished. */
  lemma AttemptedGate(m: Mem, pl: Place, rsp: int, now: int, delta: int, msr: bool)
    requires ThreadOk(m, pl) && pl.top - CALL_STACK_SIZE <= rsp
    ensures pl.meta + STATE in m && pl.meta + RATIO_FACTOR in m
    ensures var m' := Attempted(m, pl, rsp, now, delta, msr);
            && ThreadOk(m', pl)
            && pl.meta + STATE in m' && m'[pl.meta + STATE] == m[pl.meta + STATE]
            && pl.meta + IS_RANDOMIZING in m'
            && pl.meta + CPU_CYCLES in m' && m'[pl.meta + CPU_CYCLES] == now
            && pl.meta + RATIO_FACTOR in m' && m'[pl.meta + RATIO_FACTOR] == m[pl.meta + RATIO_FACTOR]
  {
    hide ThreadOk, Rekeyed;
    EnteredOk(m, pl, now);
    FieldThere(m, pl, STATE);
    FieldThere(m, pl, IS_RANDOMIZING);
    FieldThere(m, pl, RATIO_FACTOR);
    if msr {
      var m1 := Entered(m, pl.meta, now);
      RekeyedOk(m1, pl, rsp, delta);
      RekeyedGate(m1, pl, rsp, delta, STATE);
      RekeyedGate(m1, pl, rsp, delta, IS_RANDOMIZING);
      RekeyedGate(m1, pl, rsp, delta, CPU_CYCLES);
      RekeyedGate(m1, pl, rsp, delta, RATIO_FACTOR);
    }
  }

  /** The struct copy takes the fields of the gate along, whether the remap succeeds or not. */
  lemma MovedGate(m: Mem, pl: Place, to: Place, remapped: bool, field: int)
    requires ThreadOk(m, pl) && CanReserve(m, pl, to) && GateField(field)
    ensures pl.meta + field in m && pl.meta + FS_DIFF in Reserved(m, to)
    ensures to.meta + field in Switched(Reserved(m, to), pl, to, remapped)
    ensures Switched(Reserved(m, to), pl, to, remapped)[to.meta + field] == m[pl.meta + field]
  {
    hide Switched, Reserved;
    FieldThere(m, pl, field);
    ReservedKeeps(m, pl, to);
    ReservedSeparate(m, pl, to);
    SwitchedField(Reserved(m, to), pl, to, remapped, field);
  }

  /** After a move, or what was to be one, the thread is ready where its metadata is now. */
  lemma MoveRests(m: Mem, pl: Place, to: Place, remapped: bool, now: int)
    requires ThreadOk(m, pl) && CanReserve(m, pl, to)
    requires pl.meta + STATE in m && m[pl.meta + STATE] == FLASH_STACK_INITED
    requires pl.meta + CPU_CYCLES in m && m[pl.meta + CPU_CYCLES] == now
    requires pl.meta + RATIO_FACTOR in m && m[pl.meta + RATIO_FACTOR] == 1
    ensures pl.meta + FS_DIFF in Reserved(m, to)
    ensures Rests(Finished(Switched(Reserved(m, to), pl, to, remapped), to.meta), to.meta, now)
  {
    hide Switched, Reserved, ThreadOk, CanReserve;
    MovedGate(m, pl, to, remapped, STATE);
    MovedGate(m, pl, to, remapped, CPU_CYCLES);
    MovedGate(m, pl, to, remapped, RATIO_FACTOR);
  }

  /** What the end of a call leaves in the fields of the gate, at the place where the thread's
      metadata are then. */
  predicate GateLeft(m: Mem, meta: int, m': Mem, meta': int) {
    && meta + STATE in m && meta + CPU_CYCLES in m && meta + RATIO_FACTOR in m
    && meta' + STATE in m' && m'[meta' + STATE] == m[meta + STATE]
    && meta' + IS_RANDOMIZING in m' && m'[meta' + IS_RANDOMIZING] == 0
    && meta' + CPU_CYCLES in m' && m'[meta' + CPU_CYCLES] == m[meta + CPU_CYCLES]
    && meta' + RATIO_FACTOR in m'
    && m'[meta' + RATIO_FACTOR] == if m[meta + RATIO_FACTOR] > 1 then m[meta + RATIO_FACTOR] - 1 else 1
  }

  lemma CountLeft(m: Mem, pl: Place, ratio: int)
    requires ThreadOk(m, pl)
    requires pl.meta + RATIO_FACTOR in m ==> 0 < ratio == m[pl.meta + RATIO_FACTOR] - 1
    ensures GateLeft(m, pl.meta, Finished(m[pl.meta + RATIO_FACTOR := ratio], pl.meta), pl.meta)
  {
    FieldThere(m, pl, STATE);
    FieldThere(m, pl, CPU_CYCLES);
    FieldThere(m, pl, RATIO_FACTOR);
    FieldThere(m, pl, IS_RANDOMIZING);
  }

  lemma MoveLeft(m: Mem, pl: Place, to: Place, remapped: bool)
    requires ThreadOk(m, pl) && MoveDue(m, pl) && CanReserve(m[pl.meta + RATIO_FACTOR := DEFAULT_RATIO], pl, to)
    ensures var m1 := m[pl.meta + RATIO_FACTOR := DEFAULT_RATIO];
            && pl.meta + FS_DIFF in Reserved(m1, to)
            && GateLeft(m, pl.meta, Finished(Switched(Reserved(m1, to), pl, to, remapped), to.meta), to.meta)
  {
    hide Switched, Reserved, ThreadOk, CanReserve;
    FieldThere(m, pl, STATE);
    FieldThere(m, pl, CPU_CYCLES);
    FieldWritten(m, pl, RATIO_FACTOR, DEFAULT_RATIO);
    var m1 := m[pl.meta + RATIO_FACTOR := DEFAULT_RATIO];
    MovedGate(m1, pl, to, remapped, STATE);
    MovedGate(m1, pl, to, remapped, CPU_CYCLES);
    MovedGate(m1, pl, to, remapped, RATIO_FACTOR);
  }

  // ------------------------------------------------------------- Whole runs

  lemma StartRests(m: Mem, pl: Place, key: int)
    ensures Rests(Initialised(m, pl, key), pl.meta, 0)
  {
  }

  /** The count that is stored after a step. */
  function CountAfter(e: Step, count: int): int {
    if e.RekeyAndMove? then e.now else count
  }

  /** A thread at rest never shifts its key without moving, and is at rest after every step. */
  lemma StepRests(s: Machine, e: Step, msr: bool, count: int)
    requires Live(s, msr) && Enabled(s, e, msr) && Rests(s.mem, s.pl.meta, count)
    ensures !e.Rekey? && (IsWord(count) ==> IsWord(CountAfter(e, count)))
    ensures Rests(After(s, e, msr).mem, After(s, e, msr).pl.meta, CountAfter(e, count))
  {
    match e
    case Env(m) =>
    case Adjust(_, _) =>
    case Epilogue =>
    case Prologue => PrologueRests(s, msr, count);
    case Rekey(_, _, _) =>
    case RekeyAndMove(now, delta, to) => AttemptRests(s, now, delta, to, msr, count);
  }

  lemma PrologueRests(s: Machine, msr: bool, count: int)
    requires Live(s, msr) && Enabled(s, Prologue, msr) && Rests(s.mem, s.pl.meta, count)
    ensures Rests(After(s, Prologue, msr).mem, s.pl.meta, count)
  {
    hide After;
    PrologueIs(s, msr, Frame(s.rsp, s.mem[s.rsp]), FsKey(msr, s.pl.meta, s.mem));
    SlotAddress(s.pl, s.rsp);
  }

  lemma AttemptRests(s: Machine, now: int, delta: int, to: Place, msr: bool, count: int)
    requires Live(s, msr) && Enabled(s, RekeyAndMove(now, delta, to), msr) && Rests(s.mem, s.pl.meta, count)
    ensures var s' := After(s, RekeyAndMove(now, delta, to), msr); Rests(s'.mem, s'.pl.meta, now)
  {
    hide Attempted, Reserved, Switched, CanReserve;
    AttemptedGate(s.mem, s.pl, s.rsp, now, delta, msr);
    ShakenOk(s, now, delta, DEFAULT_RATIO, msr);
    MoveRests(Shaken(s, now, delta, DEFAULT_RATIO, msr), s.pl, to, true, now);
  }

  /** `count` is the cycle count of the latest attempt of the first `j` steps, or 0. */
  predicate LatestCount(steps: seq<Step>, j: nat, count: int)
    requires j <= |steps|
  {
    || (count == 0 && forall k :: 0 <= k < j ==> !steps[k].RekeyAndMove?)
    || exists l :: 0 <= l < j && steps[l].RekeyAndMove? && steps[l].now == count
                   && forall k :: l < k < j ==> !steps[k].RekeyAndMove?
  }

  /** In every state of every run from the initialisation on, the thread is ready, what it
      stores is the count of its latest attempt, and no attempt so far has left it in place. */
  lemma {:induction false} RunRests(m: Mem, pl: Place, key: int, states: seq<Machine>, steps: seq<Step>, j: nat,
                                    msr: bool) returns (count: int)
    requires StartedRun(m, pl, key, states, steps, msr) && j <= |steps|
    ensures Live(states[j], msr) && Rests(states[j].mem, states[j].pl.meta, count)
    ensures IsWord(count) && LatestCount(steps, j, count)
    ensures forall k :: 0 <= k < j ==> !steps[k].Rekey?
  {
    hide Live, Enabled, After, Rests, Initialised, Mapped;
    InitialisedLive(m, pl, key, msr);
    RunKeepsLive(states, steps, j, msr);
    if j == 0 {
      count := 0;
      StartRests(m, pl, key);
    } else {
      var before := RunRests(m, pl, key, states, steps, j - 1, msr);
      assert StepAt(states, steps, j - 1, msr);
      StepRests(states[j - 1], steps[j - 1], msr, before);
      count := CountAfter(steps[j - 1], before);
    }
  }

  /** The cycle counter that the attempts read does not go back. */
  predicate ClockRuns(steps: seq<Step>) {
    forall k, l :: 0 <= k < l < |steps| && steps[k].RekeyAndMove? && steps[l].RekeyAndMove? ==>
      steps[k].now <= steps[l].now
  }

  /** A thread can attempt to move to fresh places exactly when a full period has gone by
      since its latest attempt. */
  lemma NextAttempt(m: Mem, pl: Place, key: int, states: seq<Machine>, steps: seq<Step>, j: nat, msr: bool,
                    now: int, delta: int, to: Place) returns (count: int)
    requires StartedRun(m, pl, key, states, steps, msr) && j <= |steps|
    ensures Live(states[j], msr) && LatestCount(steps, j, count)
    ensures var s := states[j];
            count <= now < WORD_SPAN && CanReserve(Shaken(s, now, delta, DEFAULT_RATIO, msr), s.pl, to)
            ==> (Enabled(s, RekeyAndMove(now, delta, to), msr) <==> now - count >= 32_000_000)
  {
    hide Live, StepAt, Initialised, Shaken, CanReserve, Mapped;
    count := RunRests(m, pl, key, states, steps, j, msr);
  }

  lemma LatestIsLatest(steps: seq<Step>, i: nat, j: nat, count: int)
    requires ClockRuns(steps) && i < j <= |steps| && steps[i].RekeyAndMove? && LatestCount(steps, j, count)
    ensures steps[i].now <= count
  {
    var l :| 0 <= l < j && steps[l].RekeyAndMove? && steps[l].now == count
             && forall k :: l < k < j ==> !steps[k].RekeyAndMove?;
    assert i <= l;
  }

  lemma AttemptWaits(s: Machine, e: Step, msr: bool, count: int)
    requires Live(s, msr) && Enabled(s, e, msr) && e.RekeyAndMove? && Rests(s.mem, s.pl.meta, count)
    ensures IsWord(e.now) && Wrap(e.now - count) >= 32_000_000
  {
  }

  /** Any two attempts are a full period apart. */
  lemma AttemptsApart(m: Mem, pl: Place, key: int, states: seq<Machine>, steps: seq<Step>, i: nat, j: nat, msr: bool)
    requires StartedRun(m, pl, key, states, steps, msr) && ClockRuns(steps) && i < j < |steps|
    requires steps[i].RekeyAndMove? && steps[j].RekeyAndMove?
    ensures steps[j].now - steps[i].now >= 32_000_000
  {
    var count := RunRests(m, pl, key, states, steps, j, msr);
    assert StepAt(states, steps, j, msr);
    hide Live, Enabled, Rests, Initialised, Mapped;
    AttemptWaits(states[j], steps[j], msr, count);
    LatestIsLatest(steps, i, j, count);
    LatestBefore(steps, j, count);
  }

  lemma LatestBefore(steps: seq<Step>, j: nat, count: int)
    requires ClockRuns(steps) && j < |steps| && steps[j].RekeyAndMove? && LatestCount(steps, j, count)
    ensures count <= steps[j].now || count == 0
  {
  }
}
