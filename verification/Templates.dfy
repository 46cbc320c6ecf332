/** The prologue, epilogue and call-site templates that the instrumenter prints
    for each scheme, and what they do when run. */
module Templates {
  import opened Words
  import opened Spa
  import opened Memory
  import opened Bytes
  import opened Asm
  import opened Encoding

  // ---------------------------------------------------------------- GS_RSP

  /** The address that `%gs:disp(%rsp, %r10)` denotes once r10 holds -2^47. */
  function GsSlot(gs: int, rsp: int): int {
    Wrap(gs + rsp - USER_SPACE_SIZE)
  }

  function GsPrologue(): seq<Instr> {
    [Load(At(Rsp, 0), R11),
     MovImm(-USER_SPACE_SIZE, R10),
     Asm.Store(R11, GsIndexed(Rsp, R10, 0))]
  }

  function GsEpilogue(): seq<Instr> {
    [MovImm(-USER_SPACE_SIZE, R10),
     AddImm(WORD_BYTES, Rsp),
     JmpMem(GsIndexed(Rsp, R10, -8))]
  }

  /** Length in bytes of the compiled GS_RSP prologue. */
  const GS_PROLOGUE_LENGTH: int := 19
  /** The first eight bytes of the compiled prologue, as a word. */
  const GS_PROLOGUE_MAGIC: int := 0x0000_ba49_241c_8b4c

  /** The compiled prologue. */
  function GsPrologueBytes(): Image {
    [0x4c, 0x8b, 0x1c, 0x24]
    + [0x49, 0xba, 0x00, 0x00, 0x00, 0x00, 0x00, 0x80, 0xff, 0xff]
    + [0x65, 0x4e, 0x89, 0x1c, 0x14]
  }

  /** These bytes decode to the prologue, so a call that enters as many bytes later is past it
      and nothing else; and the magic number is that of the first eight. */
  lemma GsCompiled()
    ensures DecodeFrom(GsPrologueBytes(), 0) == Some(GsPrologue())
    ensures |GsPrologueBytes()| == 19 == GS_PROLOGUE_LENGTH
    ensures Value(GsPrologueBytes()[..8]) == GS_PROLOGUE_MAGIC
  {
    hide DecodeAt, DecodeFrom, Value;
    var p, e := GsPrologueBytes(), GsPrologue();
    LoadTopAt(p);
    MinusUserSpaceAt(p, 4);
    StoreGsSlotAt(p, 14);
    DecodesNothing(p);
    assert e[3..] == [] && e[0..] == e;
    DecodesOn(p, 14, 19, e, 2);
    DecodesOn(p, 4, 14, e, 1);
    DecodesOn(p, 0, 4, e, 0);
    MagicWord(p[..8], 0x241c_8b4c, 0x0000_ba49);
  }

  lemma DecodesNothing(p: Image)
    ensures DecodeFrom(p, |p|) == Some([])
  {
  }

  /** `movq (%rsp), %r11`, with which all prologues but the buddy one start. */
  lemma LoadTopAt(p: Image)
    requires |p| >= 4 && p[..4] == [0x4c, 0x8b, 0x1c, 0x24]
    ensures DecodeAt(p, 0) == Some((Load(At(Rsp, 0), R11), 4))
  {
    assert p[0] == p[..4][0] && p[1] == p[..4][1] && p[2] == p[..4][2] && p[3] == p[..4][3];
  }

  lemma MinusUserSpaceAt(p: Image, o: nat)
    requires o + 10 <= |p| && p[o..o + 10] == [0x49, 0xba, 0x00, 0x00, 0x00, 0x00, 0x00, 0x80, 0xff, 0xff]
    ensures DecodeAt(p, o) == Some((MovImm(-USER_SPACE_SIZE, R10), o + 10))
  {
    var w := p[o + 2..o + 10];
    assert p[o] == p[o..o + 10][0] && p[o + 1] == p[o..o + 10][1] && w == p[o..o + 10][2..];
    MagicWord(w, 0, 0xffff_8000);
    hide Value;
  }

  lemma StoreGsSlotAt(p: Image, o: nat)
    requires o + 5 <= |p| && p[o..o + 5] == [0x65, 0x4e, 0x89, 0x1c, 0x14]
    ensures DecodeAt(p, o) == Some((Asm.Store(R11, GsIndexed(Rsp, R10, 0)), o + 5))
  {
    var w := p[o..o + 5];
    assert p[o] == w[0] && p[o + 1] == w[1] && p[o + 2] == w[2] && p[o + 3] == w[3] && p[o + 4] == w[4];
  }

  /** Eight bytes as a word, from its halves. */
  lemma MagicWord(bs: Image, low: int, high: int)
    requires |bs| == 8
    requires low == bs[0] as int + 0x100 * bs[1] as int + 0x1_0000 * bs[2] as int + 0x100_0000 * bs[3] as int
    requires high == bs[4] as int + 0x100 * bs[5] as int + 0x1_0000 * bs[6] as int + 0x100_0000 * bs[7] as int
    ensures Value(bs) == low + 0x1_0000_0000 * high
  {
    hide Value;
    ValueOfEight(bs);
    ValueOfFour(bs[..4]);
    ValueOfFour(bs[4..]);
  }

  /** A direct call to a protected function, entering past its prologue. */
  function GsDirectCall(entry: int, ret: int): seq<Instr> {
    [LeaLabel(ret, R11),
     MovImm(-USER_SPACE_SIZE, R10),
     Asm.Store(R11, GsIndexed(Rsp, R10, -8)),
     CallTo(entry + GS_PROLOGUE_LENGTH, ret)]
  }

  /** The operand of an indirect call. */
  datatype Target = InReg(r: Reg) | InMem(ea: Operand)

  function LoadTarget(target: Target): Instr {
    match target
    case InReg(r) => MovReg(r, Rax)
    case InMem(ea) => Load(ea, Rax)
  }

  /** The address that an operand denotes, where it can be read. */
  function TargetOf(target: Target, c: Cpu): Option<int> {
    match target
    case InReg(r) => Some(c.Get(r))
    case InMem(ea) => if c.Address(ea) in c.mem then Some(c.mem[c.Address(ea)]) else None
  }

  /** The indirect call of the uninstrumented program. */
  function PlainIndirectCall(target: Target, ret: int, c: Cpu): Outcome {
    var entry := TargetOf(target, c);
    if entry.Some? && Wrap(c.rsp - 8) in c.mem then Jump(c.Pushed(ret), entry.value) else Fault
  }

  /** A redirected indirect call: the guarded part runs only when `first`, the eight bytes
      at the target, however aligned, is that of a compiled prologue. */
  function RunIndirectCall(target: Target, first: Option<int>, magic: int, skip: seq<Instr>, ret: int, c: Cpu)
      : Outcome
  {
    var o := Step(LoadTarget(target), c);
    if o.Next? then RunGuarded(first, R11, skip, [CallReg(Rax, ret)], o.cpu.(r11 := magic)) else o
  }

  function GsSkipPrologue(ret: int): seq<Instr> {
    [LeaLabel(ret, R11),
     MovImm(-USER_SPACE_SIZE, R10),
     Asm.Store(R11, GsIndexed(Rsp, R10, -8)),
     AddImm(GS_PROLOGUE_LENGTH, Rax)]
  }

  /** Where `%gs:disp(%rsp, %r10)` points: the wrapped constant drops out. */
  lemma GsSlotAddress(c: Cpu, disp: int)
    requires c.r10 == Wrap(-USER_SPACE_SIZE)
    ensures c.Address(GsIndexed(Rsp, R10, disp)) == GsSlot(c.gs, c.rsp + disp)
  {
    hide Masked, BitAnd;
    WrapSum(-USER_SPACE_SIZE, c.gs + c.rsp + disp);
  }

  /** The prologue copies the return address on top of the stack into the shadow
      slot and changes nothing else but its scratch registers. */
  lemma GsPrologueRuns(c: Cpu)
    requires IsWord(c.rsp) && c.rsp in c.mem && GsSlot(c.gs, c.rsp) in c.mem
    ensures Run(GsPrologue(), c)
         == Next(c.(r11 := c.mem[c.rsp], r10 := Wrap(-USER_SPACE_SIZE),
                    mem := c.mem[GsSlot(c.gs, c.rsp) := c.mem[c.rsp]]))
  {
    hide Masked, BitAnd;
    var c1 := c.(r11 := c.mem[c.rsp]);
    var c2 := c1.(r10 := Wrap(-USER_SPACE_SIZE));
    GsSlotAddress(c2, 0);
    Run3(Load(At(Rsp, 0), R11), MovImm(-USER_SPACE_SIZE, R10), Asm.Store(R11, GsIndexed(Rsp, R10, 0)),
         c, c1, c2);
  }

  /** The epilogue pops the return slot and jumps to what the shadow slot holds. */
  lemma GsEpilogueRuns(c: Cpu)
    requires IsWord(c.rsp) && c.rsp + 8 < WORD_SPAN && GsSlot(c.gs, c.rsp) in c.mem
    ensures Run(GsEpilogue(), c)
         == Jump(c.(r10 := Wrap(-USER_SPACE_SIZE), rsp := c.rsp + 8),
                 c.mem[GsSlot(c.gs, c.rsp)])
  {
    hide Masked, BitAnd;
    var c1 := c.(r10 := Wrap(-USER_SPACE_SIZE));
    var c2 := c1.(rsp := c.rsp + 8);
    GsSlotAddress(c2, -8);
    Run3(MovImm(-USER_SPACE_SIZE, R10), AddImm(WORD_BYTES, Rsp), JmpMem(GsIndexed(Rsp, R10, -8)),
         c, c1, c2);
  }

  /** The state after the return address has been stored in the callee's shadow slot. */
  function PreStored(c: Cpu, ret: int): Cpu {
    c.(r11 := ret, r10 := Wrap(-USER_SPACE_SIZE), mem := c.mem[GsSlot(c.gs, c.rsp - 8) := ret])
  }

  /** The states through which a pre-store takes the processor. */
  function PreStoring(c: Cpu, ret: int): seq<Cpu> {
    var c1 := c.(r11 := ret);
    [c, c1, c1.(r10 := Wrap(-USER_SPACE_SIZE)), PreStored(c, ret)]
  }

  /** Pushing the return address after the pre-store, or running the prologue after
      the push, writes the same two words. */
  lemma PushCommutes(c: Cpu, ret: int)
    requires 8 <= c.rsp < WORD_SPAN && c.rsp - 8 in c.mem
    requires GsSlot(c.gs, c.rsp - 8) in c.mem && GsSlot(c.gs, c.rsp - 8) != c.rsp - 8
    ensures Run(GsPrologue(), c.Pushed(ret)) == Next(PreStored(c, ret).Pushed(ret))
  {
    hide Masked, BitAnd;
    GsPrologueRuns(c.Pushed(ret));
    assert PreStored(c, ret).Pushed(ret).mem == c.Pushed(ret).mem[GsSlot(c.gs, c.rsp - 8) := ret];
  }

  /** Entering just past the bytes of the prologue, with the return address stored by the
      caller, leaves the state of a plain call followed by the prologue. */
  lemma GsDirectCallIsCallThenPrologue(c: Cpu, entry: int, ret: int)
    requires 8 <= c.rsp < WORD_SPAN && c.rsp - 8 in c.mem
    requires GsSlot(c.gs, c.rsp - 8) in c.mem && GsSlot(c.gs, c.rsp - 8) != c.rsp - 8
    ensures Step(CallTo(entry, ret), c) == Jump(c.Pushed(ret), entry)
    ensures DecodeFrom(GsPrologueBytes(), 0) == Some(GsPrologue()) && Run(GsPrologue(), c.Pushed(ret)).Next?
    ensures Run(GsDirectCall(entry, ret), c)
         == Jump(Run(GsPrologue(), c.Pushed(ret)).cpu, entry + |GsPrologueBytes()|)
  {
    hide Masked, BitAnd, GsPrologue, Wrap, DecodeFrom, GsPrologueBytes, Value;
    GsCompiled();
    PushCommutes(c, ret);
    GsSlotAddress(PreStoring(c, ret)[2], -8);
    var code, cs := GsDirectCall(entry, ret), PreStoring(c, ret);
    assert code == [code[0], code[1], code[2], code[3]];
    Run4(code[0], code[1], code[2], code[3], cs[0], cs[1], cs[2], cs[3]);
  }

  lemma GsSkipPrologueRuns(c: Cpu, ret: int)
    requires 8 <= c.rsp < WORD_SPAN && GsSlot(c.gs, c.rsp - 8) in c.mem
    requires IsWord(c.rax) && c.rax + GS_PROLOGUE_LENGTH < WORD_SPAN
    ensures Run(GsSkipPrologue(ret), c) == Next(PreStored(c, ret).(rax := c.rax + GS_PROLOGUE_LENGTH))
  {
    hide Masked, BitAnd, Wrap;
    var c1 := c.(r11 := ret);
    var c2 := c1.(r10 := Wrap(-USER_SPACE_SIZE));
    GsSlotAddress(c2, -8);
    hide GsSlot;
    Run4(LeaLabel(ret, R11), MovImm(-USER_SPACE_SIZE, R10), Asm.Store(R11, GsIndexed(Rsp, R10, -8)),
         AddImm(GS_PROLOGUE_LENGTH, Rax), c, c1, c2, PreStored(c, ret));
  }

  /** Where it leads, once the guarded part is known to lead to `s`. */
  lemma IndirectCallRuns(c: Cpu, target: Target, entry: int, first: Option<int>, magic: int, skip: seq<Instr>,
                         s: Cpu, ret: int)
    requires TargetOf(target, c) == Some(entry) && Wrap(c.rsp - 8) in c.mem
    requires Run(skip, c.(rax := entry, r11 := magic)) == Next(s) && Wrap(s.rsp - 8) in s.mem
    ensures RunIndirectCall(target, first, magic, skip, ret, c)
         == match first
            case None => Fault
            case Some(w) => if w == magic then Jump(s.Pushed(ret), s.rax)
                            else Jump(c.(rax := entry, r11 := magic).Pushed(ret), entry)
  {
    hide Masked, BitAnd, Wrap;
    var c1 := c.(rax := entry, r11 := magic);
    assert Step(LoadTarget(target), c) == Next(c.(rax := entry));
    RunAppend(skip, [CallReg(Rax, ret)], c1, s);
  }

  /** The eight bytes found at a target, as the word that is compared. */
  function FirstWord(first: Option<Image>): Option<int> {
    if first.Some? then Some(Value(first.value)) else None
  }

  /** The bytes found, if they can be read, are eight. */
  predicate EightBytes(first: Option<Image>) {
    first.Some? ==> |first.value| == 8
  }

  /** Eight bytes are the first of a prologue exactly when their word is the magic number. */
  lemma MagicDecides(bs: Image, prologue: Image, magic: int)
    requires |bs| == 8 <= |prologue| && Value(prologue[..8]) == magic
    ensures Value(bs) == magic <==> bs == prologue[..8]
  {
    ValueDecides(bs, prologue[..8]);
  }

  /** An indirect call: if the target starts with the prologue's first eight bytes, the state
      is that of a plain call followed by the prologue, just past its bytes; otherwise that of
      a plain call. */
  lemma GsIndirectCallIsCall(c: Cpu, target: Target, entry: int, first: Option<Image>, ret: int)
    requires TargetOf(target, c) == Some(entry) && EightBytes(first)
    requires 8 <= c.rsp < WORD_SPAN && c.rsp - 8 in c.mem
    requires IsWord(entry) && entry + |GsPrologueBytes()| < WORD_SPAN
    requires GsSlot(c.gs, c.rsp - 8) in c.mem && GsSlot(c.gs, c.rsp - 8) != c.rsp - 8
    ensures PlainIndirectCall(target, ret, c) == Jump(c.Pushed(ret), entry)
    ensures DecodeFrom(GsPrologueBytes(), 0) == Some(GsPrologue())
    ensures Run(GsPrologue(), c.Pushed(ret)) == Next(PreStored(c, ret).Pushed(ret))
    ensures RunIndirectCall(target, FirstWord(first), GS_PROLOGUE_MAGIC, GsSkipPrologue(ret), ret, c)
         == match first
            case None => Fault
            case Some(bs) =>
              var past := entry + |GsPrologueBytes()|;
              if bs == GsPrologueBytes()[..8] then Jump(PreStored(c, ret).(rax := past).Pushed(ret), past)
              else Jump(c.(rax := entry, r11 := GS_PROLOGUE_MAGIC).Pushed(ret), entry)
  {
    hide Masked, BitAnd, Run, RunIndirectCall, DecodeFrom, GsPrologueBytes, Value;
    GsCompiled();
    PushCommutes(c, ret);
    GsSkipPrologueRuns(c.(rax := entry, r11 := GS_PROLOGUE_MAGIC), ret);
    IndirectCallRuns(c, target, entry, FirstWord(first), GS_PROLOGUE_MAGIC, GsSkipPrologue(ret),
                     PreStored(c, ret).(rax := entry + GS_PROLOGUE_LENGTH), ret);
    if first.Some? {
      MagicDecides(first.value, GsPrologueBytes(), GS_PROLOGUE_MAGIC);
    }
  }

  // ----------------------------------------------------------------- FS_GS

  /** Offsets in struct gs_metadata. */
  const FS_DIFF: int := 8
  const FS_R: int := 16

  /** `msr` is SPA_ENABLE_GS_MSR: stored addresses are shifted by the key R. */
  function FsPrologue(msr: bool): seq<Instr> {
    if msr then
      [Load(At(Rsp, 0), R11), AddMem(GsAt(FS_R), R11),
       Load(GsAt(FS_DIFF), R10), Asm.Store(R11, Indexed(Rsp, R10, By1, 0))]
    else
      [Load(At(Rsp, 0), R11), Load(GsAt(FS_DIFF), R10), Asm.Store(R11, Indexed(Rsp, R10, By1, 0))]
  }

  function FsEpilogue(msr: bool): seq<Instr> {
    if msr then
      [Load(GsAt(FS_DIFF), R11), Load(Indexed(Rsp, R11, By1, 0), R11), SubMem(GsAt(FS_R), R11),
       AddImm(WORD_BYTES, Rsp), JmpReg(R11)]
    else
      [Load(GsAt(FS_DIFF), R11), Load(Indexed(Rsp, R11, By1, 0), R11),
       AddImm(WORD_BYTES, Rsp), JmpReg(R11)]
  }

  /** The key in force: R when the scheme is keyed, otherwise nothing. */
  function FsKey(msr: bool, gs: int, mem: Mem): int
    requires msr ==> gs + FS_R in mem
  {
    if msr then mem[gs + FS_R] else 0
  }

  predicate FsReadable(c: Cpu) {
    && IsWord(c.rsp) && 0 <= c.gs && c.gs + FS_R < WORD_SPAN
    && c.gs + FS_DIFF in c.mem && c.gs + FS_R in c.mem
    && Wrap(c.rsp + c.mem[c.gs + FS_DIFF]) in c.mem
  }

  /** After a prologue: the keyed return address is in the shadow slot. */
  function FsProtected(c: Cpu, msr: bool): Cpu
    requires FsReadable(c) && c.rsp in c.mem
  {
    var diff, v := c.mem[c.gs + FS_DIFF], Wrap(c.mem[c.rsp] + FsKey(msr, c.gs, c.mem));
    c.(r10 := diff, r11 := v, mem := c.mem[Wrap(c.rsp + diff) := v])
  }

  /** What an epilogue jumps to: the shadow slot less the key. */
  function FsTarget(c: Cpu, msr: bool): int
    requires FsReadable(c)
  {
    Wrap(c.mem[Wrap(c.rsp + c.mem[c.gs + FS_DIFF])] - FsKey(msr, c.gs, c.mem))
  }

  /** Where the operands of the two templates point. */
  lemma FsAddresses(c: Cpu)
    requires 0 <= c.gs && c.gs + FS_R < WORD_SPAN
    ensures c.Address(GsAt(FS_DIFF)) == c.gs + FS_DIFF && c.Address(GsAt(FS_R)) == c.gs + FS_R
    ensures IsWord(c.rsp) ==> c.Address(At(Rsp, 0)) == c.rsp
    ensures c.Address(Indexed(Rsp, R10, By1, 0)) == Wrap(c.rsp + c.r10)
    ensures c.Address(Indexed(Rsp, R11, By1, 0)) == Wrap(c.rsp + c.r11)
  {
  }

  lemma FsPrologueRuns(c: Cpu, msr: bool)
    requires FsReadable(c) && c.rsp in c.mem && IsWord(c.mem[c.rsp])
    ensures Run(FsPrologue(msr), c) == Next(FsProtected(c, msr))
  {
    hide Run, Masked, BitAnd, Wrap, Cpu.Address;
    var c1 := c.(r11 := c.mem[c.rsp]);
    FsAddresses(c);
    FsAddresses(c1);
    if msr {
      var c2 := c1.(r11 := Wrap(c1.r11 + c.mem[c.gs + FS_R]));
      var c3 := c2.(r10 := c.mem[c.gs + FS_DIFF]);
      FsAddresses(c2);
      FsAddresses(c3);
      FsKeyedPrologueSteps(c, c1, c2, c3, FsProtected(c, true));
    } else {
      UnkeyedWord(c);
      var c2 := c1.(r10 := c.mem[c.gs + FS_DIFF]);
      FsAddresses(c2);
      Run3(Load(At(Rsp, 0), R11), Load(GsAt(FS_DIFF), R10), Asm.Store(R11, Indexed(Rsp, R10, By1, 0)), c, c1, c2);
    }
  }

  lemma UnkeyedWord(c: Cpu)
    requires FsReadable(c)
    ensures forall v :: IsWord(v) ==> Wrap(v + FsKey(false, c.gs, c.mem)) == v == Wrap(v - FsKey(false, c.gs, c.mem))
  {
  }

  lemma FsKeyedPrologueSteps(c: Cpu, c1: Cpu, c2: Cpu, c3: Cpu, c4: Cpu)
    requires Step(Load(At(Rsp, 0), R11), c) == Next(c1)
    requires Step(AddMem(GsAt(FS_R), R11), c1) == Next(c2)
    requires Step(Load(GsAt(FS_DIFF), R10), c2) == Next(c3)
    requires Step(Asm.Store(R11, Indexed(Rsp, R10, By1, 0)), c3) == Next(c4)
    ensures Run(FsPrologue(true), c) == Next(c4)
  {
    hide Masked, BitAnd;
    Run4(Load(At(Rsp, 0), R11), AddMem(GsAt(FS_R), R11), Load(GsAt(FS_DIFF), R10),
         Asm.Store(R11, Indexed(Rsp, R10, By1, 0)), c, c1, c2, c3);
  }

  lemma FsEpilogueRuns(c: Cpu, msr: bool)
    requires FsReadable(c) && c.rsp + 8 < WORD_SPAN
    requires IsWord(c.mem[Wrap(c.rsp + c.mem[c.gs + FS_DIFF])])
    ensures Run(FsEpilogue(msr), c)
         == Jump(c.(rsp := c.rsp + 8, r11 := FsTarget(c, msr)), FsTarget(c, msr))
  {
    hide Run, Step, Masked, BitAnd, Wrap, FsTarget, Cpu.Address;
    var c1 := c.(r11 := c.mem[c.gs + FS_DIFF]);
    var c2 := c1.(r11 := c.mem[Wrap(c.rsp + c.mem[c.gs + FS_DIFF])]);
    var c3 := c2.(r11 := FsTarget(c, msr));
    FsEpilogueLoads(c);
    FsEpiloguePops(c3);
    if msr {
      KeySubtracted(c);
      FsKeyedSteps(c, c1, c2, c3, c3.(rsp := c.rsp + 8));
    } else {
      UnkeyedTarget(c);
      FsUnkeyedSteps(c, c1, c2, c3.(rsp := c.rsp + 8));
    }
  }

  /** The two loads with which both epilogues begin. */
  lemma FsEpilogueLoads(c: Cpu)
    requires FsReadable(c)
    ensures var c1 := c.(r11 := c.mem[c.gs + FS_DIFF]);
            && Step(Load(GsAt(FS_DIFF), R11), c) == Next(c1)
            && Step(Load(Indexed(Rsp, R11, By1, 0), R11), c1)
               == Next(c1.(r11 := c.mem[Wrap(c.rsp + c.mem[c.gs + FS_DIFF])]))
  {
    hide Wrap, Cpu.Address;
    FsAddresses(c);
    FsAddresses(c.(r11 := c.mem[c.gs + FS_DIFF]));
  }

  lemma FsEpiloguePops(c: Cpu)
    requires IsWord(c.rsp) && c.rsp + 8 < WORD_SPAN
    ensures Step(AddImm(WORD_BYTES, Rsp), c) == Next(c.(rsp := c.rsp + 8))
  {
  }

  lemma KeySubtracted(c: Cpu)
    requires FsReadable(c)
    ensures var c2 := c.(r11 := c.mem[Wrap(c.rsp + c.mem[c.gs + FS_DIFF])]);
            Step(SubMem(GsAt(FS_R), R11), c2) == Next(c2.(r11 := FsTarget(c, true)))
  {
    hide Wrap, Cpu.Address;
    FsAddresses(c.(r11 := c.mem[Wrap(c.rsp + c.mem[c.gs + FS_DIFF])]));
  }

  lemma UnkeyedTarget(c: Cpu)
    requires FsReadable(c) && IsWord(c.mem[Wrap(c.rsp + c.mem[c.gs + FS_DIFF])])
    ensures FsTarget(c, false) == c.mem[Wrap(c.rsp + c.mem[c.gs + FS_DIFF])]
  {
  }

  lemma FsUnkeyedSteps(c: Cpu, c1: Cpu, c2: Cpu, c3: Cpu)
    requires Step(Load(GsAt(FS_DIFF), R11), c) == Next(c1)
    requires Step(Load(Indexed(Rsp, R11, By1, 0), R11), c1) == Next(c2)
    requires Step(AddImm(WORD_BYTES, Rsp), c2) == Next(c3)
    ensures Run(FsEpilogue(false), c) == Jump(c3, c3.r11)
  {
    Run4(Load(GsAt(FS_DIFF), R11), Load(Indexed(Rsp, R11, By1, 0), R11), AddImm(WORD_BYTES, Rsp), JmpReg(R11),
         c, c1, c2, c3);
  }

  lemma FsKeyedSteps(c: Cpu, c1: Cpu, c2: Cpu, c3: Cpu, c4: Cpu)
    requires Step(Load(GsAt(FS_DIFF), R11), c) == Next(c1)
    requires Step(Load(Indexed(Rsp, R11, By1, 0), R11), c1) == Next(c2)
    requires Step(SubMem(GsAt(FS_R), R11), c2) == Next(c3)
    requires Step(AddImm(WORD_BYTES, Rsp), c3) == Next(c4)
    ensures Run(FsEpilogue(true), c) == Jump(c4, c4.r11)
  {
    hide Masked, BitAnd;
    Run5(Load(GsAt(FS_DIFF), R11), Load(Indexed(Rsp, R11, By1, 0), R11), SubMem(GsAt(FS_R), R11),
         AddImm(WORD_BYTES, Rsp), JmpReg(R11), c, c1, c2, c3, c4);
  }

  /** The compiled FS_GS prologues. */
  function FsPrologueBytes(msr: bool): Image {
    [0x4c, 0x8b, 0x1c, 0x24]
    + (if msr then [0x65, 0x4c, 0x03, 0x1c, 0x25, 0x10, 0x00, 0x00, 0x00] else [])
    + [0x65, 0x4c, 0x8b, 0x14, 0x25, 0x08, 0x00, 0x00, 0x00]
    + [0x4e, 0x89, 0x1c, 0x14]
  }

  /** They decode to the prologues, their lengths are those that calls skip, and their first
      eight bytes are the magic numbers. */
  lemma FsCompiled(msr: bool)
    ensures DecodeFrom(FsPrologueBytes(msr), 0) == Some(FsPrologue(msr))
    ensures |FsPrologueBytes(msr)| == (if msr then 26 else 17) == FsLength(msr)
    ensures Value(FsPrologueBytes(msr)[..8]) == FsMagic(msr)
  {
    hide DecodeAt, DecodeFrom, Value;
    var p, e := FsPrologueBytes(msr), FsPrologue(msr);
    LoadTopAt(p);
    DecodesNothing(p);
    if msr {
      AddKeyAt(p, 4);
      LoadDiffAt(p, 13);
      StoreSlotAt(p, 22);
      assert e[4..] == [] && e[0..] == e;
      DecodesOn(p, 22, 26, e, 3);
      DecodesOn(p, 13, 22, e, 2);
      DecodesOn(p, 4, 13, e, 1);
      DecodesOn(p, 0, 4, e, 0);
      MagicWord(p[..8], 0x241c_8b4c, 0x1c03_4c65);
    } else {
      LoadDiffAt(p, 4);
      StoreSlotAt(p, 13);
      assert e[3..] == [] && e[0..] == e;
      DecodesOn(p, 13, 17, e, 2);
      DecodesOn(p, 4, 13, e, 1);
      DecodesOn(p, 0, 4, e, 0);
      MagicWord(p[..8], 0x241c_8b4c, 0x148b_4c65);
    }
  }

  lemma SmallNumber(w: Image, n: byte)
    requires w == [n, 0, 0, 0]
    ensures Signed(w) == n
  {
    ValueOfFour(w);
  }

  lemma AddKeyAt(p: Image, o: nat)
    requires o + 9 <= |p| && p[o..o + 9] == [0x65, 0x4c, 0x03, 0x1c, 0x25, 0x10, 0x00, 0x00, 0x00]
    ensures DecodeAt(p, o) == Some((AddMem(GsAt(FS_R), R11), o + 9))
  {
    var w := p[o..o + 9];
    assert p[o] == w[0] && p[o + 1] == w[1] && p[o + 2] == w[2] && p[o + 3] == w[3] && p[o + 4] == w[4];
    assert p[o + 5..o + 9] == w[5..];
    SmallNumber(w[5..], 0x10);
    hide Signed;
  }

  lemma LoadDiffAt(p: Image, o: nat)
    requires o + 9 <= |p| && p[o..o + 9] == [0x65, 0x4c, 0x8b, 0x14, 0x25, 0x08, 0x00, 0x00, 0x00]
    ensures DecodeAt(p, o) == Some((Load(GsAt(FS_DIFF), R10), o + 9))
  {
    var w := p[o..o + 9];
    assert p[o] == w[0] && p[o + 1] == w[1] && p[o + 2] == w[2] && p[o + 3] == w[3] && p[o + 4] == w[4];
    assert p[o + 5..o + 9] == w[5..];
    SmallNumber(w[5..], 0x08);
    hide Signed;
  }

  lemma StoreSlotAt(p: Image, o: nat)
    requires o + 4 <= |p| && p[o..o + 4] == [0x4e, 0x89, 0x1c, 0x14]
    ensures DecodeAt(p, o) == Some((Asm.Store(R11, Indexed(Rsp, R10, By1, 0)), o + 4))
  {
    var w := p[o..o + 4];
    assert p[o] == w[0] && p[o + 1] == w[1] && p[o + 2] == w[2] && p[o + 3] == w[3];
  }

  /** Length in bytes of the compiled FS_GS prologue, and its first eight bytes as a word. */
  function FsLength(msr: bool): int {
    if msr then 26 else 17
  }

  function FsMagic(msr: bool): int {
    if msr then 0x1c03_4c65_241c_8b4c else 0x148b_4c65_241c_8b4c
  }

  /** The caller stores the keyed return address in the slot of its callee. */
  function FsPreStore(msr: bool, ret: int): seq<Instr> {
    [LeaLabel(ret, R11)] + (if msr then [AddMem(GsAt(FS_R), R11)] else [])
    + [Load(GsAt(FS_DIFF), R10), Asm.Store(R11, Indexed(Rsp, R10, By1, -8))]
  }

  function FsDirectCall(msr: bool, entry: int, ret: int): seq<Instr> {
    FsPreStore(msr, ret) + [CallTo(entry + FsLength(msr), ret)]
  }

  function FsSkipPrologue(msr: bool, ret: int): seq<Instr> {
    FsPreStore(msr, ret) + [AddImm(FsLength(msr), Rax)]
  }

  /** A call may push, and then the prologue can run: the pushed word is neither the slot nor
      a word of the metadata that the prologue reads. */
  predicate FsCallable(c: Cpu) {
    && 8 <= c.rsp < WORD_SPAN && c.rsp - 8 in c.mem
    && 0 <= c.gs && c.gs + FS_R < WORD_SPAN && c.gs + FS_DIFF in c.mem && c.gs + FS_R in c.mem
    && c.rsp - 8 != c.gs + FS_DIFF && c.rsp - 8 != c.gs + FS_R
    && var slot := Wrap(c.rsp - 8 + c.mem[c.gs + FS_DIFF]); slot in c.mem && slot != c.rsp - 8
  }

  function FsPreStored(c: Cpu, msr: bool, ret: int): Cpu
    requires FsCallable(c)
  {
    var diff, v := c.mem[c.gs + FS_DIFF], Wrap(ret + FsKey(msr, c.gs, c.mem));
    c.(r10 := diff, r11 := v, mem := c.mem[Wrap(c.rsp - 8 + diff) := v])
  }

  lemma FsPushCommutes(c: Cpu, msr: bool, ret: int)
    requires FsCallable(c) && IsWord(ret)
    ensures Run(FsPrologue(msr), c.Pushed(ret)) == Next(FsPreStored(c, msr, ret).Pushed(ret))
  {
    hide Run, Masked, BitAnd, FsPrologue;
    var p := c.Pushed(ret);
    assert p.rsp == c.rsp - 8 && FsReadable(p);
    FsPrologueRuns(p, msr);
    assert FsPreStored(c, msr, ret).Pushed(ret).mem == FsProtected(p, msr).mem;
  }

  lemma FsPreStoreRuns(c: Cpu, msr: bool, ret: int)
    requires FsCallable(c) && IsWord(ret)
    ensures Run(FsPreStore(msr, ret), c) == Next(FsPreStored(c, msr, ret))
  {
    hide Run, Masked, BitAnd, Wrap, Cpu.Address;
    var c1 := c.(r11 := ret);
    var load, store := Load(GsAt(FS_DIFF), R10), Asm.Store(R11, Indexed(Rsp, R10, By1, -8));
    FsAddresses(c1);
    if msr {
      var c2 := c1.(r11 := Wrap(ret + c.mem[c.gs + FS_R]));
      var c3 := c2.(r10 := c.mem[c.gs + FS_DIFF]);
      FsAddresses(c2);
      FsSlotBelow(c3);
      assert FsPreStore(msr, ret) == [LeaLabel(ret, R11), AddMem(GsAt(FS_R), R11), load, store];
      Run4(LeaLabel(ret, R11), AddMem(GsAt(FS_R), R11), load, store, c, c1, c2, c3);
    } else {
      WordUnkeyed(c, ret);
      var c2 := c1.(r10 := c.mem[c.gs + FS_DIFF]);
      FsSlotBelow(c2);
      assert FsPreStore(msr, ret) == [LeaLabel(ret, R11), load, store];
      Run3(LeaLabel(ret, R11), load, store, c, c1, c2);
    }
  }

  lemma WordUnkeyed(c: Cpu, v: int)
    requires IsWord(v)
    ensures Wrap(v + FsKey(false, c.gs, c.mem)) == v
  {
  }

  lemma FsSlotBelow(c: Cpu)
    ensures c.Address(Indexed(Rsp, R10, By1, -8)) == Wrap(c.rsp - 8 + c.r10)
  {
  }

  /** The redirected direct call of FS_GS leaves the state of a plain call followed by the
      prologue, too. */
  lemma FsDirectCallIsCallThenPrologue(c: Cpu, msr: bool, entry: int, ret: int)
    requires FsCallable(c) && IsWord(ret)
    ensures Step(CallTo(entry, ret), c) == Jump(c.Pushed(ret), entry)
    ensures DecodeFrom(FsPrologueBytes(msr), 0) == Some(FsPrologue(msr)) && Run(FsPrologue(msr), c.Pushed(ret)).Next?
    ensures Run(FsDirectCall(msr, entry, ret), c)
         == Jump(Run(FsPrologue(msr), c.Pushed(ret)).cpu, entry + |FsPrologueBytes(msr)|)
  {
    hide Masked, BitAnd, FsPrologue, FsPreStore, DecodeFrom, FsPrologueBytes;
    FsCompiled(msr);
    FsPushCommutes(c, msr, ret);
    FsPreStoreRuns(c, msr, ret);
    RunAppend(FsPreStore(msr, ret), [CallTo(entry + FsLength(msr), ret)], c, FsPreStored(c, msr, ret));
  }

  lemma FsSkipPrologueRuns(c: Cpu, msr: bool, ret: int)
    requires FsCallable(c) && IsWord(ret) && IsWord(c.rax) && c.rax + FsLength(msr) < WORD_SPAN
    ensures Run(FsSkipPrologue(msr, ret), c) == Next(FsPreStored(c, msr, ret).(rax := c.rax + FsLength(msr)))
  {
    hide Masked, BitAnd, FsPreStore;
    FsPreStoreRuns(c, msr, ret);
    RunAppend(FsPreStore(msr, ret), [AddImm(FsLength(msr), Rax)], c, FsPreStored(c, msr, ret));
  }

  /** And so does the indirect call, when the target starts with the prologue's first bytes. */
  lemma FsIndirectCallIsCall(c: Cpu, msr: bool, target: Target, entry: int, first: Option<Image>, ret: int)
    requires TargetOf(target, c) == Some(entry) && EightBytes(first) && FsCallable(c) && IsWord(ret)
    requires IsWord(entry) && entry + |FsPrologueBytes(msr)| < WORD_SPAN
    ensures PlainIndirectCall(target, ret, c) == Jump(c.Pushed(ret), entry)
    ensures DecodeFrom(FsPrologueBytes(msr), 0) == Some(FsPrologue(msr))
    ensures Run(FsPrologue(msr), c.Pushed(ret)) == Next(FsPreStored(c, msr, ret).Pushed(ret))
    ensures RunIndirectCall(target, FirstWord(first), FsMagic(msr), FsSkipPrologue(msr, ret), ret, c)
         == match first
            case None => Fault
            case Some(bs) =>
              var past := entry + |FsPrologueBytes(msr)|;
              if bs == FsPrologueBytes(msr)[..8] then Jump(FsPreStored(c, msr, ret).(rax := past).Pushed(ret), past)
              else Jump(c.(rax := entry, r11 := FsMagic(msr)).Pushed(ret), entry)
  {
    hide Masked, BitAnd, Run, RunIndirectCall, FsPrologue, FsSkipPrologue, DecodeFrom, FsPrologueBytes, Value;
    FsCompiled(msr);
    FsPushCommutes(c, msr, ret);
    FsSkipPrologueRuns(c.(rax := entry, r11 := FsMagic(msr)), msr, ret);
    IndirectCallRuns(c, target, entry, FirstWord(first), FsMagic(msr), FsSkipPrologue(msr, ret),
                     FsPreStored(c, msr, ret).(rax := entry + FsLength(msr)), ret);
    if first.Some? {
      MagicDecides(first.value, FsPrologueBytes(msr), FsMagic(msr));
    }
  }

  // ----------------------------------------------------------------- Buddy

  /** The buddy scheme with the stack size S compiled in as immediates. */
  function BuddyPrologue(S: int): seq<Instr> {
    [MovReg(Rsp, R11), AndImm(-S, R11), Load(At(R11, -2 * S), R11),
     AddMem(At(Rsp, 0), R11), Asm.Store(R11, At(Rsp, -S))]
  }

  function BuddyEpilogue(S: int): seq<Instr> {
    [MovReg(Rsp, R10), AndImm(-S, R10), Load(At(Rsp, -S), R11),
     SubMem(At(R10, -2 * S), R11), AddImm(WORD_BYTES, Rsp), JmpReg(R11)]
  }

  /** The buddy scheme with the mask -S read from a global variable at `g`. */
  function SizedKey(g: int): seq<Instr> {
    [MovReg(Rsp, R11), LeaLabel(g, R10), Load(At(R10, 0), R10), AndReg(R10, R11),
     Load(Indexed(R11, R10, By2, 0), R11)]
  }

  function SizedPrologue(g: int): seq<Instr> {
    SizedKey(g) + [AddMem(At(Rsp, 0), R11), Asm.Store(R11, Indexed(Rsp, R10, By1, 0))]
  }

  function SizedEpilogue(g: int): seq<Instr> {
    SizedKey(g) + [Load(Indexed(Rsp, R10, By1, 0), R10), SubReg(R11, R10),
                   AddImm(WORD_BYTES, Rsp), JmpReg(R10)]
  }

  /** The record that a protected function reads its random value from. */
  function RecordOf(rsp: int, S: int): int
    requires S > 0
  {
    rsp - rsp % S - 2 * S
  }

  predicate BuddyReadable(c: Cpu, k: nat) {
    var S := Pow2(k);
    && k < 62 && 4 * S <= c.rsp < WORD_SPAN - 8
    && RecordOf(c.rsp, S) in c.mem && IsWord(c.mem[RecordOf(c.rsp, S)])
    && c.rsp - S in c.mem
  }

  /** The immediate or loaded mask -S selects the record of `rsp`. */
  lemma MaskFindsRecord(rsp: int, k: nat)
    requires IsWord(rsp) && k < 62
    ensures 0 < Pow2(k) < WORD_SPAN && Wrap(-Pow2(k)) == WORD_SPAN - Pow2(k)
    ensures Masked(Wrap(-Pow2(k)), rsp) == rsp - rsp % Pow2(k)
  {
    Pow2IsWord(k);
    AndCommutes(rsp, WORD_SPAN - Pow2(k));
    AlignWord(rsp, k);
  }

  /** After a prologue: the keyed return address is in `rsp`'s shadow slot. */
  function Protected(c: Cpu, S: int, r10: int): Cpu
    requires S > 0 && RecordOf(c.rsp, S) in c.mem && c.rsp in c.mem
  {
    var v := Wrap(c.mem[RecordOf(c.rsp, S)] + c.mem[c.rsp]);
    c.(r10 := r10, r11 := v, mem := c.mem[c.rsp - S := v])
  }

  /** What an epilogue jumps to: the shadow slot less the key. */
  function BuddyTarget(c: Cpu, S: int): int
    requires S > 0 && RecordOf(c.rsp, S) in c.mem && c.rsp - S in c.mem
  {
    Wrap(c.mem[c.rsp - S] - c.mem[RecordOf(c.rsp, S)])
  }

  lemma BuddyPrologueRuns(c: Cpu, k: nat)
    requires BuddyReadable(c, k) && c.rsp in c.mem && IsWord(c.mem[c.rsp])
    ensures Run(BuddyPrologue(Pow2(k)), c) == Next(Protected(c, Pow2(k), c.r10))
  {
    hide Pow2, Masked, BitAnd;
    var S := Pow2(k);
    var c1 := c.(r11 := c.rsp);
    var c2 := c1.(r11 := c.rsp - c.rsp % S);
    var c3 := c2.(r11 := c.mem[RecordOf(c.rsp, S)]);
    MasksRsp(c1, R11, k);
    BuddyPrologueSteps(c, S, c1, c2, c3, c3.(r11 := Wrap(c3.r11 + c.mem[c.rsp])));
  }

  /** `andq $-S, reg` on a copy of rsp. */
  lemma MasksRsp(c: Cpu, reg: Reg, k: nat)
    requires IsWord(c.rsp) && k < 62 && reg != Rsp && c.Get(reg) == c.rsp
    ensures Step(AndImm(-Pow2(k), reg), c) == Next(c.Set(reg, c.rsp - c.rsp % Pow2(k)))
  {
    MaskFindsRecord(c.rsp, k);
  }

  lemma BuddyPrologueSteps(c: Cpu, S: int, c1: Cpu, c2: Cpu, c3: Cpu, c4: Cpu)
    requires Step(MovReg(Rsp, R11), c) == Next(c1)
    requires Step(AndImm(-S, R11), c1) == Next(c2)
    requires Step(Load(At(R11, -2 * S), R11), c2) == Next(c3)
    requires Step(AddMem(At(Rsp, 0), R11), c3) == Next(c4)
    ensures Run(BuddyPrologue(S), c) == Step(Asm.Store(R11, At(Rsp, -S)), c4)
  {
    hide Masked, BitAnd;
    Run5(MovReg(Rsp, R11), AndImm(-S, R11), Load(At(R11, -2 * S), R11), AddMem(At(Rsp, 0), R11),
         Asm.Store(R11, At(Rsp, -S)),
         c, c1, c2, c3, c4);
  }

  lemma BuddyEpilogueRuns(c: Cpu, k: nat)
    requires BuddyReadable(c, k) && IsWord(c.mem[c.rsp - Pow2(k)])
    ensures Run(BuddyEpilogue(Pow2(k)), c)
         == Jump(c.(r10 := c.rsp - c.rsp % Pow2(k), r11 := BuddyTarget(c, Pow2(k)), rsp := c.rsp + 8),
                 BuddyTarget(c, Pow2(k)))
  {
    hide BitAnd, Pow2, Masked;
    var S := Pow2(k);
    var c1 := c.(r10 := c.rsp);
    var c2 := c1.(r10 := c.rsp - c.rsp % S);
    var c3 := c2.(r11 := c.mem[c.rsp - S]);
    var c4 := c3.(r11 := BuddyTarget(c, S));
    MasksRsp(c1, R10, k);
    BuddyEpilogueSteps(c, S, c1, c2, c3, c4, c4.(rsp := c.rsp + 8));
  }

  lemma BuddyEpilogueSteps(c: Cpu, S: int, c1: Cpu, c2: Cpu, c3: Cpu, c4: Cpu, c5: Cpu)
    requires Step(MovReg(Rsp, R10), c) == Next(c1)
    requires Step(AndImm(-S, R10), c1) == Next(c2)
    requires Step(Load(At(Rsp, -S), R11), c2) == Next(c3)
    requires Step(SubMem(At(R10, -2 * S), R11), c3) == Next(c4)
    requires Step(AddImm(WORD_BYTES, Rsp), c4) == Next(c5)
    ensures Run(BuddyEpilogue(S), c) == Jump(c5, c5.r11)
  {
    hide Masked, BitAnd;
    Run6(MovReg(Rsp, R10), AndImm(-S, R10), Load(At(Rsp, -S), R11), SubMem(At(R10, -2 * S), R11),
         AddImm(WORD_BYTES, Rsp), JmpReg(R11),
         c, c1, c2, c3, c4, c5);
  }

  /** A mask in a register acts as a signed displacement, modulo 2^64. */
  lemma MaskDisplaces(base: int, times: int, k: nat)
    requires k < 62 && 0 <= times <= 2 && 2 * Pow2(k) <= base < WORD_SPAN
    ensures 0 < Pow2(k) < WORD_SPAN
    ensures Wrap(base + times * Wrap(-Pow2(k))) == base - times * Pow2(k)
  {
    hide Pow2;
    MaskFindsRecord(base, k);
    WrapPeriod(base - times * Pow2(k), times);
  }

  /** Both templates first load the mask and the key. */
  lemma SizedKeyRuns(c: Cpu, k: nat, g: int)
    requires BuddyReadable(c, k) && IsWord(g) && g in c.mem && c.mem[g] == Wrap(-Pow2(k))
    ensures Run(SizedKey(g), c)
         == Next(c.(r10 := Wrap(-Pow2(k)), r11 := c.mem[RecordOf(c.rsp, Pow2(k))]))
  {
    hide Masked, BitAnd;
    var S, mask := Pow2(k), Wrap(-Pow2(k));
    MaskFindsRecord(c.rsp, k);
    var c1 := c.(r11 := c.rsp);
    var c2 := c1.(r10 := g);
    var c3 := c2.(r10 := mask);
    var c4 := c3.(r11 := c.rsp - c.rsp % S);
    MaskDisplaces(c4.r11, 2, k);
    Run5(MovReg(Rsp, R11), LeaLabel(g, R10), Load(At(R10, 0), R10), AndReg(R10, R11),
         Load(Indexed(R11, R10, By2, 0), R11), c, c1, c2, c3, c4);
  }

  /** With the mask in r10, `(%rsp, %r10)` is the shadow slot. */
  lemma SizedSlotAddress(c: Cpu, k: nat)
    requires k < 62 && 2 * Pow2(k) <= c.rsp < WORD_SPAN && c.r10 == Wrap(-Pow2(k))
    ensures c.Address(Indexed(Rsp, R10, By1, 0)) == c.rsp - Pow2(k)
  {
    hide Masked, BitAnd;
    MaskDisplaces(c.rsp, 1, k);
  }

  lemma SizedPrologueRuns(c: Cpu, k: nat, g: int)
    requires BuddyReadable(c, k) && c.rsp in c.mem && IsWord(c.mem[c.rsp])
    requires IsWord(g) && g in c.mem && c.mem[g] == Wrap(-Pow2(k))
    ensures Run(SizedPrologue(g), c) == Next(Protected(c, Pow2(k), Wrap(-Pow2(k))))
  {
    hide Wrap, Run, Masked, BitAnd;
    SizedKeyRuns(c, k, g);
    var add, save := AddMem(At(Rsp, 0), R11), Asm.Store(R11, Indexed(Rsp, R10, By1, 0));
    var c5 := c.(r10 := Wrap(-Pow2(k)), r11 := c.mem[RecordOf(c.rsp, Pow2(k))]);
    var c6 := c5.(r11 := Wrap(c5.r11 + c.mem[c.rsp]));
    SizedSlotAddress(c6, k);
    RunAppend(SizedKey(g), [add, save], c, c5);
    Run2(add, save, c5, c6);
  }

  lemma SizedEpilogueRuns(c: Cpu, k: nat, g: int)
    requires BuddyReadable(c, k) && IsWord(c.mem[c.rsp - Pow2(k)])
    requires IsWord(g) && g in c.mem && c.mem[g] == Wrap(-Pow2(k))
    ensures Run(SizedEpilogue(g), c)
         == Jump(c.(r10 := BuddyTarget(c, Pow2(k)), r11 := c.mem[RecordOf(c.rsp, Pow2(k))], rsp := c.rsp + 8),
                 BuddyTarget(c, Pow2(k)))
  {
    hide Run, Masked, BitAnd;
    SizedKeyRuns(c, k, g);
    var c5 := c.(r10 := Wrap(-Pow2(k)), r11 := c.mem[RecordOf(c.rsp, Pow2(k))]);
    var c6 := c5.(r10 := c.mem[c.rsp - Pow2(k)]);
    var c7 := c6.(r10 := BuddyTarget(c, Pow2(k)));
    SizedSlotAddress(c5, k);
    RunAppend(SizedKey(g), SizedEpilogue(g)[5..], c, c5);
    assert SizedEpilogue(g) == SizedKey(g) + SizedEpilogue(g)[5..];
    assert SizedEpilogue(g)[5..] == [Load(Indexed(Rsp, R10, By1, 0), R10), SubReg(R11, R10),
                                     AddImm(WORD_BYTES, Rsp), JmpReg(R10)];
    Run4(Load(Indexed(Rsp, R10, By1, 0), R10), SubReg(R11, R10), AddImm(WORD_BYTES, Rsp), JmpReg(R10),
         c5, c6, c7, c7.(rsp := c.rsp + 8));
  }
}
