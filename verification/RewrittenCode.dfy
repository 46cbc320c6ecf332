/** What the patched bytes mean to the processor: the buddy templates for the new size, as
    long as the size fits the sign-extended immediates. */
module RewrittenCode {
  import opened Words
  import opened Bytes
  import opened CodeRewriter
  import opened Asm
  import opened Encoding
  import opened Templates
  import Buddy = BuddyRuntime

  /** Sign extension gives back exactly the numbers of 32 bits. */
  lemma SignExtends(y: int)
    ensures Signed(LowBytes(y, 4)) == y <==> -0x8000_0000 <= y < 0x8000_0000
  {
    hide LowBytes;
    ValueOfLowBytes(y, 4);
    assert Power256(4) == 0x1_0000_0000 by {
      assert Power256(2) == 0x1_0000;
    }
  }

  /** Both patched immediates are right exactly for sizes up to 2^30. */
  lemma ImmediatesRight(x: int)
    ensures Signed(LowBytes(-x, 4)) == -x && Signed(LowBytes(-2 * x, 4)) == -2 * x
       <==> -0x4000_0000 < x <= 0x4000_0000
  {
    SignExtends(-x);
    SignExtends(-2 * x);
  }

  // --------------------------------------------------------------------- Decoding

  predicate Has3(bs: Image, o: nat, a: byte, b: byte, c: byte) {
    o + 3 <= |bs| && bs[o] == a && bs[o + 1] == b && bs[o + 2] == c
  }

  predicate Has4(bs: Image, o: nat, a: byte, b: byte, c: byte, d: byte) {
    Has3(bs, o, a, b, c) && o + 4 <= |bs| && bs[o + 3] == d
  }

  lemma ImmediateBytes(k: Kind, x: int)
    ensures Pat(k, x)[First(k)..First(k) + 4] == LowBytes(-x, 4)
    ensures Pat(k, x)[Second(k)..Second(k) + 4] == LowBytes(-x, 4)
    ensures Pat(k, x)[Double(k)..Double(k) + 4] == LowBytes(-2 * x, 4)
  {
    hide Base, LowBytes;
    HoleBytes(k, x, First(k), LowBytes(-x, 4));
    HoleBytes(k, x, Second(k), LowBytes(-x, 4));
    HoleBytes(k, x, Double(k), LowBytes(-2 * x, 4));
  }

  lemma HoleBytes(k: Kind, x: int, p: nat, bs: Image)
    requires p + 4 <= Len(k) && |bs| == 4 && forall o: nat :: o < 4 ==> PatByte(k, x, p + o) == bs[o]
    ensures Pat(k, x)[p..p + 4] == bs
  {
    hide PatByte;
    var w := Pat(k, x)[p..p + 4];
    forall o: nat | o < 4
      ensures w[o] == bs[o]
    {
      assert w[o] == Pat(k, x)[p + o] == PatByte(k, x, p + o);
    }
  }

  lemma ProOpcodes(x: int)
    ensures var p := Pat(Pro, x);
            && Has3(p, 0, 0x49, 0x89, 0xe3) && Has3(p, 3, 0x49, 0x81, 0xe3) && Has3(p, 10, 0x4d, 0x8b, 0x9b)
            && Has4(p, 17, 0x4c, 0x03, 0x1c, 0x24) && Has4(p, 21, 0x4c, 0x89, 0x9c, 0x24)
  {
  }

  lemma EpiOpcodes(x: int)
    ensures var p := Pat(Epi, x);
            && Has3(p, 0, 0x49, 0x89, 0xe2) && Has3(p, 3, 0x49, 0x81, 0xe2) && Has4(p, 10, 0x4c, 0x8b, 0x9c, 0x24)
            && Has3(p, 18, 0x4d, 0x2b, 0x9a) && Has4(p, 25, 0x48, 0x83, 0xc4, 0x08) && Has3(p, 29, 0x41, 0xff, 0xe3)
  {
  }

  /** The templates that the bytes of a size decode to, with their immediates as encoded. */
  function Encoded(k: Kind, x: int): seq<Instr> {
    var once, twice := Signed(LowBytes(-x, 4)), Signed(LowBytes(-2 * x, 4));
    match k
    case Pro =>
      [MovReg(Rsp, R11), AndImm(once, R11), Load(At(R11, twice), R11),
       AddMem(At(Rsp, 0), R11), Asm.Store(R11, At(Rsp, once))]
    case Epi =>
      [MovReg(Rsp, R10), AndImm(once, R10), Load(At(Rsp, once), R11),
       SubMem(At(R10, twice), R11), AddImm(8, Rsp), JmpReg(R11)]
  }

  // The instructions of the patterns, one by one.

  lemma MovRspAt(p: Image, o: nat, r: Reg)
    requires r == R11 || r == R10
    requires Has3(p, o, 0x49, 0x89, if r == R11 then 0xe3 else 0xe2)
    ensures DecodeAt(p, o) == Some((MovReg(Rsp, r), o + 3))
  {
  }

  lemma AndAt(p: Image, o: nat, r: Reg, imm: int)
    requires r == R11 || r == R10
    requires Has3(p, o, 0x49, 0x81, if r == R11 then 0xe3 else 0xe2) && SignedAt(p, o + 3, 4) == Some(imm)
    ensures DecodeAt(p, o) == Some((AndImm(imm, r), o + 7))
  {
    hide SignedAt;
  }

  lemma LoadKeyAt(p: Image, o: nat, disp: int)
    requires Has3(p, o, 0x4d, 0x8b, 0x9b) && SignedAt(p, o + 3, 4) == Some(disp)
    ensures DecodeAt(p, o) == Some((Load(At(R11, disp), R11), o + 7))
  {
    hide SignedAt;
  }

  lemma SubKeyAt(p: Image, o: nat, disp: int)
    requires Has3(p, o, 0x4d, 0x2b, 0x9a) && SignedAt(p, o + 3, 4) == Some(disp)
    ensures DecodeAt(p, o) == Some((SubMem(At(R10, disp), R11), o + 7))
  {
    hide SignedAt;
  }

  lemma AddTopAt(p: Image, o: nat)
    requires Has4(p, o, 0x4c, 0x03, 0x1c, 0x24)
    ensures DecodeAt(p, o) == Some((AddMem(At(Rsp, 0), R11), o + 4))
  {
  }

  lemma StoreSlotAt(p: Image, o: nat, disp: int)
    requires Has4(p, o, 0x4c, 0x89, 0x9c, 0x24) && SignedAt(p, o + 4, 4) == Some(disp)
    ensures DecodeAt(p, o) == Some((Asm.Store(R11, At(Rsp, disp)), o + 8))
  {
    hide SignedAt;
  }

  lemma LoadSlotAt(p: Image, o: nat, disp: int)
    requires Has4(p, o, 0x4c, 0x8b, 0x9c, 0x24) && SignedAt(p, o + 4, 4) == Some(disp)
    ensures DecodeAt(p, o) == Some((Load(At(Rsp, disp), R11), o + 8))
  {
    hide SignedAt;
  }

  lemma PopAt(p: Image, o: nat)
    requires Has4(p, o, 0x48, 0x83, 0xc4, 0x08)
    ensures DecodeAt(p, o) == Some((AddImm(8, Rsp), o + 4))
  {
    var imm: Image := [0x08];
    assert imm[1..] == [] && Value(imm) == 8;
    assert p[o + 3..o + 4] == imm;
  }

  lemma JumpAt(p: Image, o: nat)
    requires Has3(p, o, 0x41, 0xff, 0xe3)
    ensures DecodeAt(p, o) == Some((JmpReg(R11), o + 3))
  {
  }

  lemma ProDecodes(x: int)
    ensures DecodeFrom(Pat(Pro, x), 0) == Some(Encoded(Pro, x))
  {
    hide Pat, DecodeAt, DecodeFrom, LowBytes, Signed;
    var p, e := Pat(Pro, x), Encoded(Pro, x);
    var once, twice := Signed(LowBytes(-x, 4)), Signed(LowBytes(-2 * x, 4));
    ProOpcodes(x);
    ImmediateBytes(Pro, x);
    MovRspAt(p, 0, R11);
    AndAt(p, 3, R11, once);
    LoadKeyAt(p, 10, twice);
    AddTopAt(p, 17);
    StoreSlotAt(p, 21, once);
    DecodesNothing(p);
    assert e[5..] == [];
    DecodesOn(p, 21, 29, e, 4);
    DecodesOn(p, 17, 21, e, 3);
    DecodesOn(p, 10, 17, e, 2);
    DecodesOn(p, 3, 10, e, 1);
    DecodesOn(p, 0, 3, e, 0);
    assert e[0..] == e;
  }

  lemma EpiDecodes(x: int)
    ensures DecodeFrom(Pat(Epi, x), 0) == Some(Encoded(Epi, x))
  {
    hide Pat, DecodeAt, DecodeFrom, LowBytes, Signed;
    var p, e := Pat(Epi, x), Encoded(Epi, x);
    var once, twice := Signed(LowBytes(-x, 4)), Signed(LowBytes(-2 * x, 4));
    EpiOpcodes(x);
    ImmediateBytes(Epi, x);
    MovRspAt(p, 0, R10);
    AndAt(p, 3, R10, once);
    LoadSlotAt(p, 10, once);
    SubKeyAt(p, 18, twice);
    PopAt(p, 25);
    JumpAt(p, 29);
    DecodesNothing(p);
    assert e[6..] == [];
    DecodesOn(p, 29, 32, e, 5);
    DecodesOn(p, 25, 29, e, 4);
    DecodesOn(p, 18, 25, e, 3);
    DecodesOn(p, 10, 18, e, 2);
    DecodesOn(p, 3, 10, e, 1);
    DecodesOn(p, 0, 3, e, 0);
    assert e[0..] == e;
  }

  /** Code patched for size `x` is the buddy pair for `x` exactly when x fits. */
  lemma PatchedMeansBuddy(x: int)
    ensures DecodeFrom(Pat(Pro, x), 0) == Some(BuddyPrologue(x)) <==> -0x4000_0000 < x <= 0x4000_0000
    ensures DecodeFrom(Pat(Epi, x), 0) == Some(BuddyEpilogue(x)) <==> -0x4000_0000 < x <= 0x4000_0000
  {
    ProDecodes(x);
    EpiDecodes(x);
    ImmediatesRight(x);
    EncodedIsBuddy(x);
  }

  lemma EncodedIsBuddy(x: int)
    ensures var right := Signed(LowBytes(-x, 4)) == -x && Signed(LowBytes(-2 * x, 4)) == -2 * x;
            (Encoded(Pro, x) == BuddyPrologue(x) <==> right) && (Encoded(Epi, x) == BuddyEpilogue(x) <==> right)
  {
    var e, f, b, c := Encoded(Pro, x), Encoded(Epi, x), BuddyPrologue(x), BuddyEpilogue(x);
    assert e[1] == b[1] <==> Signed(LowBytes(-x, 4)) == -x;
    assert e[2] == b[2] <==> Signed(LowBytes(-2 * x, 4)) == -2 * x;
    assert f[1] == c[1] <==> Signed(LowBytes(-x, 4)) == -x;
    assert f[3] == c[3] <==> Signed(LowBytes(-2 * x, 4)) == -2 * x;
  }

  /** A thread whose code was patched for its stack size: the patched epilogue of its
      innermost frame jumps to the address that the patched prologue saw. */
  lemma PatchedEpilogueReturns(s: Buddy.Machine, c: Cpu)
    requires Buddy.Live(s) && Buddy.Runs(c, s) && s.k <= 30 && s.frames != [] && s.rsp == s.frames[|s.frames| - 1].slot
    ensures DecodeFrom(Pat(Epi, Pow2(s.k)), 0).Some?
    ensures Buddy.JumpsTo(Run(DecodeFrom(Pat(Epi, Pow2(s.k)), 0).value, c), s.frames[|s.frames| - 1].saved)
  {
    UpTo30(s.k);
    PatchedMeansBuddy(Pow2(s.k));
    Buddy.EpilogueJumps(s, c);
  }

  /** ... and the patched prologue does the step that protects a frame. */
  lemma PatchedPrologueProtects(s: Buddy.Machine, c: Cpu)
    requires Buddy.Live(s) && Buddy.Runs(c, s) && s.k <= 30 && Buddy.Enabled(s, Buddy.Prologue)
    ensures DecodeFrom(Pat(Pro, Pow2(s.k)), 0).Some?
    ensures var o := Run(DecodeFrom(Pat(Pro, Pow2(s.k)), 0).value, c);
            o.Next? && o.cpu.rsp == s.rsp && o.cpu.mem == Buddy.After(s, Buddy.Prologue).mem
  {
    hide DecodeFrom, BuddyEpilogue, Step, Pow2, BuddyPrologue;
    UpTo30(s.k);
    PatchedMeansBuddy(Pow2(s.k));
    Buddy.LiveReadable(s);
    BuddyPrologueRuns(c, s.k);
  }

  lemma UpTo30(k: nat)
    requires k <= 30
    ensures 0 < Pow2(k) <= 0x4000_0000
  {
    Pow2Splits(k, 30);
    Pow2Sum(15, 15);
    assert Pow2(15) == 32768;
  }
}
