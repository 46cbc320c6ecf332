/** The x86-64 encoding of the instructions that the instrumentation emits: prefixes, opcode,
    ModRM and SIB bytes, displacements and immediates. */
module Encoding {
  import opened Bytes
  import opened Asm

  /** A displacement or an immediate of one, four or eight bytes, sign-extended. */
  function Signed(bs: Image): int
    requires |bs| == 1 || |bs| == 4 || |bs| == 8
  {
    var v := Value(bs);
    var half := if |bs| == 1 then 0x80 else if |bs| == 4 then 0x8000_0000 else 0x8000_0000_0000_0000;
    if v < half then v else v - 2 * half
  }

  /** The bytes [p, p + n), sign-extended. */
  function SignedAt(bs: Image, p: nat, n: nat): Option<int>
    requires n == 1 || n == 4 || n == 8
  {
    if p + n <= |bs| then Some(Signed(bs[p..p + n])) else None
  }

  /** The extension byte 0100WRXB: wide operands, and what is added to the numbers of the
      register, the index and the base. */
  datatype Rex = Rex(wide: bool, r: nat, x: nat, b: nat)

  function RexOf(b: byte): Rex {
    Rex(b / 8 % 2 == 1, if b / 4 % 2 == 1 then 8 else 0, if b / 2 % 2 == 1 then 8 else 0, if b % 2 == 1 then 8 else 0)
  }

  /** The registers that the templates use, by number. */
  function RegOf(n: nat): Option<Reg> {
    if n == 0 then Some(Rax)
    else if n == 4 then Some(Rsp)
    else if n == 10 then Some(R10)
    else if n == 11 then Some(R11)
    else None
  }

  /** A register or a place in memory. */
  datatype Rm = Direct(reg: Reg) | InMemory(ea: Operand)

  /** The displacement at `p` for a mode: none, one byte or four. */
  function Displacement(bs: Image, p: nat, mode: nat): Option<int> {
    if mode == 0 then Some(0) else if mode == 1 then SignedAt(bs, p, 1) else SignedAt(bs, p, 4)
  }

  function DisplacementSize(mode: nat): nat {
    if mode == 0 then 0 else if mode == 1 then 1 else 4
  }

  /** The operand that the ModRM byte at `p` describes, and where it ends. */
  function RmAt(bs: Image, p: nat, gs: bool, rex: Rex): Option<(Rm, nat)> {
    if p >= |bs| then None
    else
      var mode, low := bs[p] / 64, bs[p] % 8;
      if mode == 3 then
        var r := RegOf(low + rex.b);
        if r.Some? then Some((Direct(r.value), p + 1)) else None
      else if low == 4 then SibAt(bs, p + 1, mode, gs, rex)
      else if mode == 0 && low == 5 then None
      else
        var base, disp := RegOf(low + rex.b), Displacement(bs, p + 1, mode);
        if base.None? || disp.None? then None
        else Some((InMemory(Operand(gs, base, None, By1, disp.value)), p + 1 + DisplacementSize(mode)))
  }

  /** The same with a SIB byte at `p`: a base, unless it is number 5 without a displacement of
      its own, and an index, unless it is number 4. */
  function SibAt(bs: Image, p: nat, mode: nat, gs: bool, rex: Rex): Option<(Rm, nat)> {
    if p >= |bs| || bs[p] / 64 > 1 then None
    else
      var scale := if bs[p] / 64 == 1 then By2 else By1;
      var absolute, plain := mode == 0 && bs[p] % 8 == 5, bs[p] / 8 % 8 + rex.x == 4;
      var size := if absolute then 2 else mode;
      var base, index := RegOf(bs[p] % 8 + rex.b), RegOf(bs[p] / 8 % 8 + rex.x);
      var disp := Displacement(bs, p + 1, size);
      if (!absolute && base.None?) || (!plain && index.None?) || disp.None? then None
      else
        Some((InMemory(Operand(gs, if absolute then None else base, if plain then None else index, scale, disp.value)),
              p + 1 + DisplacementSize(size)))
  }

  /** Two-operand instructions between a register and an operand. */
  function Binary(op: byte, reg: Reg, rm: Rm): Option<Instr> {
    if op == 0x89 then Some(if rm.Direct? then MovReg(reg, rm.reg) else Asm.Store(reg, rm.ea))
    else if op == 0x8b then Some(if rm.Direct? then MovReg(rm.reg, reg) else Load(rm.ea, reg))
    else if op == 0x03 && rm.InMemory? then Some(AddMem(rm.ea, reg))
    else if op == 0x2b then Some(if rm.Direct? then SubReg(rm.reg, reg) else SubMem(rm.ea, reg))
    else None
  }

  /** Instructions on a register and an immediate, by the digit in the ModRM byte. */
  function Immediate(digit: nat, imm: int, rm: Rm): Option<Instr> {
    if digit == 0 && rm.Direct? then Some(AddImm(imm, rm.reg))
    else if digit == 4 && rm.Direct? then Some(AndImm(imm, rm.reg))
    else None
  }

  /** The instruction whose opcode is at `p`, and where the next one begins. */
  function OpcodeAt(bs: Image, p: nat, gs: bool, rex: Rex): Option<(Instr, nat)>
    requires p < |bs|
  {
    if 0xb8 <= bs[p] < 0xc0 then
      var r, imm := RegOf(bs[p] % 8 + rex.b), SignedAt(bs, p + 1, 8);
      if rex.wide && r.Some? && imm.Some? then Some((MovImm(imm.value, r.value), p + 9)) else None
    else
      var rm := RmAt(bs, p + 1, gs, rex);
      if rm.None? then None else WithOperand(bs, p, rex, bs[p + 1] / 8 % 8, rm.value.0, rm.value.1)
  }

  /** The same once the operand is known, which ends at `q`. */
  function WithOperand(bs: Image, p: nat, rex: Rex, digit: nat, rm: Rm, q: nat): Option<(Instr, nat)>
    requires p < |bs|
  {
    if bs[p] == 0xff then
      if digit != 4 then None else Some((if rm.Direct? then JmpReg(rm.reg) else JmpMem(rm.ea), q))
    else if !rex.wide then None
    else if bs[p] == 0x81 || bs[p] == 0x83 then
      var n := if bs[p] == 0x81 then 4 else 1;
      var imm := SignedAt(bs, q, n);
      var i := if imm.Some? then Immediate(digit, imm.value, rm) else None;
      if i.Some? then Some((i.value, q + n)) else None
    else
      var reg := RegOf(digit + rex.r);
      var i := if reg.Some? then Binary(bs[p], reg.value, rm) else None;
      if i.Some? then Some((i.value, q)) else None
  }

  /** The instruction at `o`, and where the next one begins. All have a REX byte; one that uses
      the GS base has the prefix 0x65. */
  function DecodeAt(bs: Image, o: nat): Option<(Instr, nat)> {
    var gs := o < |bs| && bs[o] == 0x65;
    var p := if gs then o + 1 else o;
    if p + 1 < |bs| && bs[p] / 16 == 4 then OpcodeAt(bs, p + 1, gs, RexOf(bs[p])) else None
  }

  /** All instructions from offset `o` on. */
  function DecodeFrom(bs: Image, o: nat): Option<seq<Instr>>
    requires o <= |bs|
    decreases |bs| - o
  {
    if o == |bs| then Some([])
    else
      var first := DecodeAt(bs, o);
      if first.None? || first.value.1 <= o || first.value.1 > |bs| then None
      else
        var rest := DecodeFrom(bs, first.value.1);
        if rest.None? then None else Some([first.value.0] + rest.value)
  }

  /** The j-th instruction of `e` from offset `o` to `q`, and the later ones after it. */
  lemma DecodesOn(bs: Image, o: nat, q: nat, e: seq<Instr>, j: nat)
    requires o < q <= |bs| && j < |e| && DecodeAt(bs, o) == Some((e[j], q))
    requires DecodeFrom(bs, q) == Some(e[j + 1..])
    ensures DecodeFrom(bs, o) == Some(e[j..])
  {
    hide DecodeAt;
    assert [e[j]] + e[j + 1..] == e[j..];
  }
}
