/** The code that the instrumenter's marks stand for, in each scheme. */
module EmittedCode {
  import opened Words
  import opened Memory
  import opened Bytes
  import opened Asm
  import opened Encoding
  import opened Templates
  import opened Instrumenter
  import opened FlagEffects
  import opened LineText
  import opened Consistency

  /** The scheme, whether stored addresses are keyed, and the buddy stack size 2^k: compiled
      in, or its mask read from memory at `sizeAt`. */
  datatype Options = Options(scheme: Scheme, msr: bool, k: nat, sizeAt: Option<int>)

  /** The instructions written for a prologue and for a replaced return. */
  function EntryCode(o: Options): seq<Instr> {
    match o.scheme
    case GsRsp => GsPrologue()
    case FsGs => FsPrologue(o.msr)
    case Buddy => if o.sizeAt.Some? then SizedPrologue(o.sizeAt.value) else BuddyPrologue(Pow2(o.k))
  }

  function ExitCode(o: Options): seq<Instr> {
    match o.scheme
    case GsRsp => GsEpilogue()
    case FsGs => FsEpilogue(o.msr)
    case Buddy => if o.sizeAt.Some? then SizedEpilogue(o.sizeAt.value) else BuddyEpilogue(Pow2(o.k))
  }

  /** What the symbols of a call stand for: the target, the bytes found there, and the
      address after the call. */
  datatype Place = Place(entry: int, target: Target, first: Option<Image>, ret: int)

  /** The marks that stand for protecting code; buddy calls are never redirected. */
  predicate Coded(o: Options, k: Chunk) {
    k.Prologue? || k.Epilogue? || (!o.scheme.Buddy? && (k.DirectCall? || k.IndirectCall?))
  }

  /** The compiled prologue. */
  function EntryBytes(o: Options): Image {
    if o.scheme.FsGs? then FsPrologueBytes(o.msr) else GsPrologueBytes()
  }

  function EntryMagic(o: Options): int {
    if o.scheme.FsGs? then FsMagic(o.msr) else GS_PROLOGUE_MAGIC
  }

  /** The processor runs what is written for a mark. */
  function RunChunk(o: Options, k: Chunk, at: Place, c: Cpu): Outcome
    requires Coded(o, k)
  {
    match k
    case Prologue => Run(EntryCode(o), c)
    case Epilogue => Run(ExitCode(o), c)
    case DirectCall(_) =>
      Run(if o.scheme.FsGs? then FsDirectCall(o.msr, at.entry, at.ret) else GsDirectCall(at.entry, at.ret), c)
    case IndirectCall(_) =>
      RunIndirectCall(at.target, FirstWord(at.first), EntryMagic(o),
                      if o.scheme.FsGs? then FsSkipPrologue(o.msr, at.ret) else GsSkipPrologue(at.ret), at.ret, c)
  }

  /** Everything that is written stands for itself or for such code. */
  lemma WrittenIsCoded(o: Options, c: Config, f: Flags, l: Line, lucky: bool, k: Chunk)
    requires o.scheme == c.scheme && k in Output(c, f, l, lucky)
    ensures k.Text? || k.Note? || k.InitCall? || k.HandlerCall? || Coded(o, k)
  {
  }

  function SlotOf(o: Options, c: Cpu): int
    requires o.scheme.FsGs? ==> c.gs + FS_DIFF in c.mem
  {
    match o.scheme
    case GsRsp => GsSlot(c.gs, c.rsp)
    case FsGs => Wrap(c.rsp + c.mem[c.gs + FS_DIFF])
    case Buddy => c.rsp - Pow2(o.k)
  }

  /** The words that say where the slot is and how it is keyed. */
  function KeyWords(o: Options, c: Cpu): set<int> {
    match o.scheme
    case GsRsp => {}
    case FsGs => {c.gs + FS_DIFF, c.gs + FS_R}
    case Buddy => {RecordOf(c.rsp, Pow2(o.k))} + (if o.sizeAt.Some? then {o.sizeAt.value} else {})
  }

  /** What the buddy code reads: the record and, unless it is compiled in, the mask. */
  predicate BuddyCodeReadable(o: Options, c: Cpu) {
    && BuddyReadable(c, o.k)
    && (o.sizeAt.Some? ==>
          IsWord(o.sizeAt.value) && o.sizeAt.value in c.mem && c.mem[o.sizeAt.value] == Wrap(-Pow2(o.k)))
  }

  /** The words that the code uses are mapped, and the shadow slot is not one of the key words. */
  predicate Protectable(o: Options, c: Cpu) {
    && IsWord(c.rsp) && c.rsp + 8 < WORD_SPAN && c.rsp in c.mem && IsWord(c.mem[c.rsp])
    && (o.scheme.FsGs? ==> FsReadable(c)) && (o.scheme.Buddy? ==> BuddyCodeReadable(o, c))
    && SlotOf(o, c) in c.mem && SlotOf(o, c) !in KeyWords(o, c)
  }

  /** The processor when the frame returns: same rsp and GS base, the slot and the key words
      as the prologue left them; anything else may have changed. */
  predicate Undisturbed(o: Options, c: Cpu, m: Mem, c': Cpu)
    requires Protectable(o, c)
  {
    && c'.rsp == c.rsp && c'.gs == c.gs
    && forall a :: (a == SlotOf(o, c) || a in KeyWords(o, c)) && a in m ==> a in c'.mem && c'.mem[a] == m[a]
  }

  /** A jump to what was on top of the stack at `c`, which is popped, and nothing else written. */
  predicate ReturnsTo(back: Outcome, c: Cpu, c': Cpu)
    requires c.rsp in c.mem
  {
    back.Jump? && back.target == c.mem[c.rsp] && back.cpu.rsp == c.rsp + 8 && back.cpu.mem == c'.mem
  }

  /** In every scheme a prologue and a replaced return belong together: the second jumps to
      the address that the first one saw, whatever happened to the return slot since. */
  lemma PairReturns(o: Options, at: Place, c: Cpu, c': Cpu)
    requires Protectable(o, c)
    requires RunChunk(o, Prologue, at, c).Next? ==> Undisturbed(o, c, RunChunk(o, Prologue, at, c).cpu.mem, c')
    ensures RunChunk(o, Prologue, at, c).Next?
    ensures ReturnsTo(RunChunk(o, Epilogue, at, c'), c, c')
  {
    hide Run, Protectable, Undisturbed, ReturnsTo;
    hide GsPrologue, GsEpilogue, FsPrologue, FsEpilogue, BuddyPrologue, BuddyEpilogue, SizedPrologue, SizedEpilogue;
    match o.scheme
    case GsRsp => GsPairReturns(o, c, c');
    case FsGs => FsPairReturns(o, c, c');
    case Buddy =>
      if o.sizeAt.Some? {
        SizedPairReturns(o, o.sizeAt.value, c, c');
      } else {
        BuddyPairReturns(o, c, c');
      }
  }

  lemma GsPairReturns(o: Options, c: Cpu, c': Cpu)
    requires o.scheme.GsRsp? && Protectable(o, c)
    requires Run(GsPrologue(), c).Next? ==> Undisturbed(o, c, Run(GsPrologue(), c).cpu.mem, c')
    ensures Run(GsPrologue(), c).Next?
    ensures ReturnsTo(Run(GsEpilogue(), c'), c, c')
  {
    hide Run, GsPrologue, GsEpilogue;
    GsPrologueRuns(c);
    GsEpilogueRuns(c');
  }

  lemma FsPairReturns(o: Options, c: Cpu, c': Cpu)
    requires o.scheme.FsGs? && Protectable(o, c)
    requires Run(FsPrologue(o.msr), c).Next? ==> Undisturbed(o, c, Run(FsPrologue(o.msr), c).cpu.mem, c')
    ensures Run(FsPrologue(o.msr), c).Next?
    ensures ReturnsTo(Run(FsEpilogue(o.msr), c'), c, c')
  {
    hide Run, FsPrologue, FsEpilogue;
    FsPrologueRuns(c, o.msr);
    var m := FsProtected(c, o.msr).mem;
    var key := FsKey(o.msr, c.gs, c.mem);
    assert c.gs + FS_DIFF in m && c.gs + FS_R in m;
    WrapSum(c.mem[c.rsp] + key, -key);
    FsEpilogueRuns(c', o.msr);
  }

  lemma BuddyPairReturns(o: Options, c: Cpu, c': Cpu)
    requires o.scheme.Buddy? && o.sizeAt.None? && Protectable(o, c)
    requires Run(BuddyPrologue(Pow2(o.k)), c).Next? ==>
               Undisturbed(o, c, Run(BuddyPrologue(Pow2(o.k)), c).cpu.mem, c')
    ensures Run(BuddyPrologue(Pow2(o.k)), c).Next?
    ensures ReturnsTo(Run(BuddyEpilogue(Pow2(o.k)), c'), c, c')
  {
    hide Run, BuddyPrologue, BuddyEpilogue;
    var S := Pow2(o.k);
    BuddyPrologueRuns(c, o.k);
    var key := c.mem[RecordOf(c.rsp, S)];
    assert RecordOf(c.rsp, S) in Templates.Protected(c, S, c.r10).mem;
    WrapSum(key + c.mem[c.rsp], -key);
    BuddyEpilogueRuns(c', o.k);
  }

  lemma SizedPairReturns(o: Options, g: int, c: Cpu, c': Cpu)
    requires o.scheme.Buddy? && o.sizeAt == Some(g) && Protectable(o, c)
    requires Run(SizedPrologue(g), c).Next? ==> Undisturbed(o, c, Run(SizedPrologue(g), c).cpu.mem, c')
    ensures Run(SizedPrologue(g), c).Next?
    ensures ReturnsTo(Run(SizedEpilogue(g), c'), c, c')
  {
    hide Run, SizedPrologue, SizedEpilogue;
    var S := Pow2(o.k);
    SizedPrologueRuns(c, o.k, g);
    var key := c.mem[RecordOf(c.rsp, S)];
    var m := Templates.Protected(c, S, Wrap(-S)).mem;
    assert RecordOf(c.rsp, S) in m && g in m;
    WrapSum(key + c.mem[c.rsp], -key);
    SizedEpilogueRuns(c', o.k, g);
  }

  // ------------------------------------------------------------------------ Calls

  /** The call can push, and its target's prologue can run. */
  predicate Callable(o: Options, c: Cpu) {
    && (o.scheme.FsGs? ==> FsCallable(c))
    && (o.scheme.GsRsp? ==>
          && 8 <= c.rsp < WORD_SPAN && c.rsp - 8 in c.mem
          && GsSlot(c.gs, c.rsp - 8) in c.mem && GsSlot(c.gs, c.rsp - 8) != c.rsp - 8)
  }

  /** A redirected call does what a plain call and then the target's prologue do, and is past
      the prologue. */
  lemma CallThenPrologue(o: Options, bare: string, at: Place, c: Cpu)
    requires !o.scheme.Buddy? && Callable(o, c) && IsWord(at.ret)
    ensures DecodeFrom(EntryBytes(o), 0) == Some(EntryCode(o))
    ensures RunChunk(o, Prologue, at, c.Pushed(at.ret)).Next?
    ensures RunChunk(o, DirectCall(bare), at, c)
         == Jump(RunChunk(o, Prologue, at, c.Pushed(at.ret)).cpu, at.entry + |EntryBytes(o)|)
  {
    hide Run, GsPrologue, FsPrologue, GsDirectCall, FsDirectCall, DecodeFrom, GsPrologueBytes, FsPrologueBytes;
    if o.scheme.FsGs? {
      FsDirectCallIsCallThenPrologue(c, o.msr, at.entry, at.ret);
    } else {
      GsDirectCallIsCallThenPrologue(c, at.entry, at.ret);
    }
  }

  /** The same but for the registers that hold the target and scratch values. */
  predicate AlikeBut(o: Outcome, c: Cpu) {
    o.Jump? && o.cpu.rsp == c.rsp && o.cpu.gs == c.gs && o.cpu.mem == c.mem
  }

  /** An indirect call does so exactly when the target starts with the prologue's first eight
      bytes; otherwise it is the plain call. */
  lemma IndirectCallThenPrologue(o: Options, operand: string, at: Place, bs: Image, c: Cpu)
    requires !o.scheme.Buddy? && Callable(o, c) && IsWord(at.ret)
    requires TargetOf(at.target, c) == Some(at.entry) && at.first == Some(bs) && |bs| == 8
    requires IsWord(at.entry) && at.entry + |EntryBytes(o)| < WORD_SPAN
    ensures PlainIndirectCall(at.target, at.ret, c) == Jump(c.Pushed(at.ret), at.entry)
    ensures DecodeFrom(EntryBytes(o), 0) == Some(EntryCode(o)) && |EntryBytes(o)| > 8
    ensures RunChunk(o, Prologue, at, c.Pushed(at.ret)).Next?
    ensures var called := RunChunk(o, IndirectCall(operand), at, c);
            if bs == EntryBytes(o)[..8] then
              && AlikeBut(called, RunChunk(o, Prologue, at, c.Pushed(at.ret)).cpu)
              && called.target == at.entry + |EntryBytes(o)|
            else
              AlikeBut(called, c.Pushed(at.ret)) && called.target == at.entry
  {
    hide Run, GsPrologue, FsPrologue, RunIndirectCall, GsSkipPrologue, FsSkipPrologue, DecodeFrom, Value;
    if o.scheme.FsGs? {
      FsIndirectCallIsCall(c, o.msr, at.target, at.entry, at.first, at.ret);
    } else {
      GsIndirectCallIsCall(c, at.target, at.entry, at.first, at.ret);
    }
  }

  // ------------------------------------------------------------------ A procedure

  /** In a procedure that is not exempt and whose returns are plainly written, what is written
      for each return jumps to the address that what is written at the entry saw. */
  lemma ProcedureReturns(file: File, i: nat, j: nat, m: nat, o: Options, at: Place, c: Cpu, c': Cpu)
    requires file.Valid() && Active(file.c) && AsRead(file.lines) && o.scheme == file.c.scheme
    requires Procedure(file.lines, i, j) && DotLabelsOnly(file.lines, i, j) && ReturnsPlain(file.lines, i, j)
    requires Consistency.Protected(file, i) && i < m < j && IsReturn(file.lines[m].text)
    requires Protectable(o, c)
    requires RunChunk(o, Prologue, at, c).Next? ==> Undisturbed(o, c, RunChunk(o, Prologue, at, c).cpu.mem, c')
    ensures Prologue in file.Out(i) && RunChunk(o, Prologue, at, c).Next?
    ensures Epilogue in file.Out(m) && Text(file.lines[m].text) !in file.Out(m)
    ensures ReturnsTo(RunChunk(o, Epilogue, at, c'), c, c')
  {
    hide Run, RunChunk, Protectable, Undisturbed, ReturnsTo, Exempt, Output, IsReturn, AsRead;
    ProceduresAreConsistent(file, i, j);
    PairReturns(o, at, c, c');
  }
}
