/** The x86-64 instructions that the instrumentation emits, with an interpreter. */
module Asm {
  import opened Words
  import opened Memory

  datatype Reg = Rax | R10 | R11 | Rsp

  datatype Option<T> = None | Some(value: T)

  datatype Scale = By1 | By2

  /** An operand `%gs:disp(base, index, scale)`; every part is optional. */
  datatype Operand = Operand(viaGs: bool, base: Option<Reg>, index: Option<Reg>, scale: Scale, disp: int)

  datatype Instr =
    | MovImm(imm: int, dst: Reg)
    | MovReg(src: Reg, dst: Reg)
    | Load(ea: Operand, dst: Reg)
    | Store(src: Reg, ea: Operand)
    | AddImm(imm: int, dst: Reg)
    | AndImm(imm: int, dst: Reg)
    | AndReg(src: Reg, dst: Reg)
    | AddMem(ea: Operand, dst: Reg)
    | SubMem(ea: Operand, dst: Reg)
    | SubReg(src: Reg, dst: Reg)
    | LeaLabel(address: int, dst: Reg)
    | JmpReg(src: Reg)
    | JmpMem(ea: Operand)
    | CallTo(target: int, ret: int)
    | CallReg(src: Reg, ret: int)

  datatype Cpu = Cpu(rax: int, r10: int, r11: int, rsp: int, gs: int, mem: Mem) {
    function Get(r: Reg): int {
      match r
      case Rax => rax
      case R10 => r10
      case R11 => r11
      case Rsp => rsp
    }

    function Set(r: Reg, v: int): Cpu {
      match r
      case Rax => this.(rax := v)
      case R10 => this.(r10 := v)
      case R11 => this.(r11 := v)
      case Rsp => this.(rsp := v)
    }

    function Part(r: Option<Reg>): int {
      if r.Some? then Get(r.value) else 0
    }

    static function Scaled(scale: Scale, index: int): int {
      if scale == By2 then index + index else index
    }

    /** Effective address, modulo 2^64. */
    function Address(ea: Operand): int {
      Wrap((if ea.viaGs then gs else 0) + Part(ea.base) + Scaled(ea.scale, Part(ea.index)) + ea.disp)
    }

    /** Push a return address. */
    function Pushed(ret: int): Cpu {
      this.(rsp := Wrap(rsp - 8), mem := mem[Wrap(rsp - 8) := ret])
    }
  }

  /** Falling through, jumping, or touching an unmapped word. */
  datatype Outcome = Next(cpu: Cpu) | Jump(cpu: Cpu, target: int) | Fault

  function Step(i: Instr, c: Cpu): Outcome {
    match i
    case MovImm(imm, dst) => Next(c.Set(dst, Wrap(imm)))
    case MovReg(src, dst) => Next(c.Set(dst, c.Get(src)))
    case Load(ea, dst) =>
      var a := c.Address(ea);
      if a in c.mem then Next(c.Set(dst, c.mem[a])) else Fault
    case Store(src, ea) =>
      var a := c.Address(ea);
      if a in c.mem then Next(c.(mem := c.mem[a := c.Get(src)])) else Fault
    case AddImm(imm, dst) => Next(c.Set(dst, Wrap(c.Get(dst) + imm)))
    case AndImm(imm, dst) => Next(c.Set(dst, Masked(Wrap(imm), c.Get(dst))))
    case AndReg(src, dst) => Next(c.Set(dst, Masked(c.Get(src), c.Get(dst))))
    case AddMem(ea, dst) =>
      var a := c.Address(ea);
      if a in c.mem then Next(c.Set(dst, Wrap(c.Get(dst) + c.mem[a]))) else Fault
    case SubMem(ea, dst) =>
      var a := c.Address(ea);
      if a in c.mem then Next(c.Set(dst, Wrap(c.Get(dst) - c.mem[a]))) else Fault
    case SubReg(src, dst) => Next(c.Set(dst, Wrap(c.Get(dst) - c.Get(src))))
    case LeaLabel(address, dst) => Next(c.Set(dst, address))
    case JmpReg(src) => Jump(c, c.Get(src))
    case JmpMem(ea) =>
      var a := c.Address(ea);
      if a in c.mem then Jump(c, c.mem[a]) else Fault
    case CallTo(target, ret) =>
      if Wrap(c.rsp - 8) in c.mem then Jump(c.Pushed(ret), target) else Fault
    case CallReg(src, ret) =>
      if Wrap(c.rsp - 8) in c.mem then Jump(c.Pushed(ret), c.Get(src)) else Fault
  }

  /** Run a straight-line template until it ends, jumps or faults. */
  function Run(code: seq<Instr>, c: Cpu): Outcome {
    if code == [] then Next(c)
    else
      var o := Step(code[0], c);
      if o.Next? then Run(code[1..], o.cpu) else o
  }

  /** `cmpq (ea), reg; jne` past `body`: runs `body` only when the eight bytes compared, if
      they can be read, equal the register. */
  function RunGuarded(word: Option<int>, reg: Reg, body: seq<Instr>, rest: seq<Instr>, c: Cpu): Outcome {
    if word.None? then Fault
    else if word.value == c.Get(reg) then Run(body + rest, c)
    else Run(rest, c)
  }

  /** AND of register contents; anything that is not a word cannot arise. */
  function Masked(x: int, y: int): int {
    if IsWord(x) && IsWord(y) then BitAnd(x, y) else 0
  }

  function At(base: Reg, disp: int): Operand {
    Operand(false, Some(base), None, By1, disp)
  }

  function Indexed(base: Reg, index: Reg, scale: Scale, disp: int): Operand {
    Operand(false, Some(base), Some(index), scale, disp)
  }

  function GsAt(disp: int): Operand {
    Operand(true, None, None, By1, disp)
  }

  function GsIndexed(base: Reg, index: Reg, disp: int): Operand {
    Operand(true, Some(base), Some(index), By1, disp)
  }

  /** One instruction that falls through. */
  lemma RunsOn(i: Instr, rest: seq<Instr>, c: Cpu, c': Cpu)
    requires Step(i, c) == Next(c')
    ensures Run([i] + rest, c) == Run(rest, c')
  {
    assert ([i] + rest)[1..] == rest;
  }

  /** A template that falls through, followed by another. */
  lemma {:induction false} RunAppend(a: seq<Instr>, b: seq<Instr>, c: Cpu, c': Cpu)
    requires Run(a, c) == Next(c')
    ensures Run(a + b, c) == Run(b, c')
  {
    if a == [] {
      assert a + b == b;
    } else {
      assert (a + b)[1..] == a[1..] + b;
      RunAppend(a[1..], b, Step(a[0], c).cpu, c');
    }
  }

  // Templates of two to six instructions, given the state before each one.

  lemma Run2(i0: Instr, i1: Instr, c0: Cpu, c1: Cpu)
    requires Step(i0, c0) == Next(c1)
    ensures Run([i0, i1], c0) == Step(i1, c1)
  {
    RunsOn(i0, [i1], c0, c1);
    assert [i0, i1] == [i0] + [i1];
  }

  lemma Run3(i0: Instr, i1: Instr, i2: Instr,
             c0: Cpu, c1: Cpu, c2: Cpu)
    requires Step(i0, c0) == Next(c1) && Step(i1, c1) == Next(c2)
    ensures Run([i0, i1, i2], c0) == Step(i2, c2)
  {
    RunsOn(i0, [i1, i2], c0, c1);
    assert [i0, i1, i2] == [i0] + [i1, i2];
    Run2(i1, i2, c1, c2);
  }

  lemma Run4(i0: Instr, i1: Instr, i2: Instr, i3: Instr,
             c0: Cpu, c1: Cpu, c2: Cpu, c3: Cpu)
    requires Step(i0, c0) == Next(c1) && Step(i1, c1) == Next(c2) && Step(i2, c2) == Next(c3)
    ensures Run([i0, i1, i2, i3], c0) == Step(i3, c3)
  {
    RunsOn(i0, [i1, i2, i3], c0, c1);
    assert [i0, i1, i2, i3] == [i0] + [i1, i2, i3];
    Run3(i1, i2, i3, c1, c2, c3);
  }

  lemma Run5(i0: Instr, i1: Instr, i2: Instr, i3: Instr, i4: Instr,
             c0: Cpu, c1: Cpu, c2: Cpu, c3: Cpu, c4: Cpu)
    requires Step(i0, c0) == Next(c1) && Step(i1, c1) == Next(c2) && Step(i2, c2) == Next(c3)
             && Step(i3, c3) == Next(c4)
    ensures Run([i0, i1, i2, i3, i4], c0) == Step(i4, c4)
  {
    RunsOn(i0, [i1, i2, i3, i4], c0, c1);
    assert [i0, i1, i2, i3, i4] == [i0] + [i1, i2, i3, i4];
    Run4(i1, i2, i3, i4, c1, c2, c3, c4);
  }

  lemma Run6(i0: Instr, i1: Instr, i2: Instr, i3: Instr, i4: Instr, i5: Instr,
             c0: Cpu, c1: Cpu, c2: Cpu, c3: Cpu, c4: Cpu, c5: Cpu)
    requires Step(i0, c0) == Next(c1) && Step(i1, c1) == Next(c2) && Step(i2, c2) == Next(c3)
             && Step(i3, c3) == Next(c4) && Step(i4, c4) == Next(c5)
    ensures Run([i0, i1, i2, i3, i4, i5], c0) == Step(i5, c5)
  {
    RunsOn(i0, [i1, i2, i3, i4, i5], c0, c1);
    assert [i0, i1, i2, i3, i4, i5] == [i0] + [i1, i2, i3, i4, i5];
    Run5(i1, i2, i3, i4, i5, c1, c2, c3, c4, c5);
  }
}
