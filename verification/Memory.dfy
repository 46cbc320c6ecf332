/** Word-granular memory: an address space is a map from mapped 8-byte aligned
    addresses to 64-bit words, and the memory system calls edit that map. */
module Memory {
  import opened Words

  /** The mapped words. Unaligned keys never occur. */
  type Mem = map<int, int>

  predicate Aligned(a: int) {
    a % 8 == 0
  }

  predicate Mapped(m: Mem, lo: int, hi: int) {
    forall a :: lo <= a < hi && Aligned(a) ==> a in m
  }

  predicate Unmapped(m: Mem, lo: int, hi: int) {
    forall a :: lo <= a < hi ==> a !in m
  }

  /** Two half-open address ranges share no byte. */
  predicate Apart(lo: int, hi: int, lo': int, hi': int) {
    hi <= lo' || hi' <= lo
  }

  /** Every word of [lo, hi) mapped in `m` is mapped in `m'` with the same value. */
  predicate Kept(m: Mem, m': Mem, lo: int, hi: int) {
    forall a :: lo <= a < hi && a in m ==> a in m' && m'[a] == m[a]
  }

  /** Words outside [lo, hi) are the same in both memories. */
  predicate OnlyWithin(m: Mem, m': Mem, lo: int, hi: int) {
    forall a :: a in m && !(lo <= a < hi) ==> a in m' && m'[a] == m[a]
  }

  /** Nothing that was mapped has been unmapped. */
  predicate NothingUnmapped(m: Mem, m': Mem) {
    forall a :: a in m ==> a in m'
  }

  /** Anonymous mmap: fresh zero words. */
  function Zeroed(m: Mem, lo: int, hi: int): Mem {
    m + map a | lo <= a < hi && Aligned(a) :: 0
  }

  /** munmap. */
  function Dropped(m: Mem, lo: int, hi: int): Mem {
    map a | a in m && !(lo <= a < hi) :: m[a]
  }

  /** mremap to a fixed address: whatever was mapped at the target is replaced by
      the source's words, and the source is no longer mapped. */
  function Moved(m: Mem, from: int, to: int, size: int): Mem {
    Dropped(Dropped(m, from, from + size), to, to + size) + Carried(m, from, to, size)
  }

  /** The words of a range, at their new addresses. */
  function Carried(m: Mem, from: int, to: int, size: int): Mem {
    map a | to <= a < to + size && Aligned(a) && a - to + from in m :: m[a - to + from]
  }

  lemma CarriedWord(m: Mem, from: int, to: int, size: int, a: int)
    requires to <= a < to + size && Aligned(a) && a - to + from in m
    ensures a in Carried(m, from, to, size) && Carried(m, from, to, size)[a] == m[a - to + from]
  {
  }

  /** Adding `x` to every word of [lo, hi). */
  function Shifted(m: Mem, lo: int, hi: int, x: int): Mem {
    map a | a in m :: if lo <= a < hi && Aligned(a) then Wrap(m[a] + x) else m[a]
  }

  lemma PageIsAligned(a: int)
    requires a % 4096 == 0
    ensures a % 32 == 0 && Aligned(a)
  {
  }

  lemma AlignedSum(a: int, b: int)
    requires Aligned(a) && Aligned(b)
    ensures Aligned(a + b) && Aligned(a - b)
  {
  }

  /** Rounding down to a 32-byte block does not pass a block boundary. */
  lemma RoundedToBlock(lo: int, a: int)
    requires lo % 32 == 0 && lo <= a
    ensures lo <= a - a % 32 <= a && (a - a % 32) % 32 == 0
  {
  }

  lemma ShiftedWord(m: Mem, lo: int, hi: int, x: int, a: int)
    requires a in m && Aligned(a)
    ensures a in Shifted(m, lo, hi, x)
    ensures Shifted(m, lo, hi, x)[a] == if lo <= a < hi then Wrap(m[a] + x) else m[a]
  {
  }

  /** A fresh range shares no address with a mapped one. */
  lemma FreshIsApart(m: Mem, lo: int, hi: int, lo': int, hi': int)
    requires Aligned(lo) && Aligned(lo') && lo < hi && lo' < hi'
    requires Mapped(m, lo, hi) && Unmapped(m, lo', hi')
    ensures Apart(lo, hi, lo', hi')
  {
    var common := if lo <= lo' then lo' else lo;
    assert lo <= common < hi && lo' <= common < hi' ==> common in m && common !in m;
  }

  /** munmap undoes an anonymous mmap. */
  lemma DropUndoesZeroed(m: Mem, lo: int, hi: int)
    requires Unmapped(m, lo, hi)
    ensures Dropped(Zeroed(m, lo, hi), lo, hi) == m
  {
  }

  /** Where each word of the source is after a move. */
  lemma MovedWord(m: Mem, from: int, to: int, size: int, a: int)
    requires Aligned(from) && Aligned(to) && from <= a < from + size && Aligned(a) && a in m
    ensures a + (to - from) in Moved(m, from, to, size)
    ensures Moved(m, from, to, size)[a + (to - from)] == m[a]
  {
    var b := a + (to - from);
    assert to <= b < to + size && Aligned(b) && b - to + from == a;
  }

  /** A move keeps every range apart from its source and its target. */
  lemma MovedKeeps(m: Mem, from: int, to: int, size: int, lo: int, hi: int)
    requires Apart(from, from + size, lo, hi) && Apart(to, to + size, lo, hi)
    ensures Kept(m, Moved(m, from, to, size), lo, hi)
  {
  }

  /** Whatever a move finds at its target does not matter. */
  lemma MovedOverZeroed(m: Mem, from: int, to: int, size: int)
    requires Apart(from, from + size, to, to + size)
    ensures Moved(Zeroed(m, to, to + size), from, to, size) == Moved(m, from, to, size)
  {
    hide Dropped, Carried, Zeroed, SameBeyond;
    var z := Zeroed(m, to, to + size);
    ZeroedSameBeyond(m, to, to + size);
    DropSameBeyond(m, z, from, from + size, to, to + size);
    SameAfterDrop(Dropped(m, from, from + size), Dropped(z, from, from + size), to, to + size);
    SameCarried(m, z, from, to, size);
  }

  lemma ZeroedSameBeyond(m: Mem, lo: int, hi: int)
    ensures SameBeyond(m, Zeroed(m, lo, hi), lo, hi)
  {
  }

  /** The memories differ at most in [lo, hi). */
  ghost predicate SameBeyond(m: Mem, m': Mem, lo: int, hi: int) {
    forall a :: !(lo <= a < hi) ==> (a in m <==> a in m') && (a in m ==> m'[a] == m[a])
  }

  lemma DropSameBeyond(m: Mem, m': Mem, from: int, until: int, lo: int, hi: int)
    requires SameBeyond(m, m', lo, hi)
    ensures SameBeyond(Dropped(m, from, until), Dropped(m', from, until), lo, hi)
  {
  }

  lemma SameCarried(m: Mem, m': Mem, from: int, to: int, size: int)
    requires SameBeyond(m, m', to, to + size) && Apart(from, from + size, to, to + size)
    ensures Carried(m, from, to, size) == Carried(m', from, to, size)
  {
  }

  /** Memories that differ only in a range are the same once it is unmapped. */
  lemma SameAfterDrop(m: Mem, m': Mem, lo: int, hi: int)
    requires SameBeyond(m, m', lo, hi)
    ensures Dropped(m, lo, hi) == Dropped(m', lo, hi)
  {
  }

  /** A word outside a fresh range can be written before or after mapping the range. */
  lemma WriteAroundZeroed(m: Mem, lo: int, hi: int, a: int, v: int)
    requires !(lo <= a < hi)
    ensures Zeroed(m, lo, hi)[a := v] == Zeroed(m[a := v], lo, hi)
  {
  }

  /** The target of a move is mapped when its source was. */
  lemma MovedMapped(m: Mem, from: int, to: int, size: int)
    requires Aligned(from) && Aligned(to) && Mapped(m, from, from + size)
    ensures Mapped(Moved(m, from, to, size), to, to + size)
  {
    forall b | to <= b < to + size && Aligned(b)
      ensures b in Moved(m, from, to, size)
    {
      assert Aligned(b - to + from);
    }
  }

  /** Writing one mapped word. */
  lemma WriteWithin(m: Mem, a: int, v: int, lo: int, hi: int)
    requires a in m && lo <= a < hi
    ensures NothingUnmapped(m, m[a := v]) && OnlyWithin(m, m[a := v], lo, hi)
  {
  }

  /** A change confined to one range keeps every range apart from it. */
  lemma ApartKept(m: Mem, m': Mem, lo: int, hi: int, lo': int, hi': int)
    requires OnlyWithin(m, m', lo, hi) && Apart(lo, hi, lo', hi')
    ensures Kept(m, m', lo', hi')
  {
  }

  /** A process's memory, with the system calls that the runtimes issue. What the
      kernel chooses is left open; what it promises is in the contracts. */
  class AddressSpace {
    var mem: Mem
    /** How many times mmap was called. */
    var mmapCalls: nat

    constructor ()
      ensures mem == map[] && mmapCalls == 0
    {
      mem, mmapCalls := map[], 0;
    }

    /** mmap(hint, size, PROT_READ | PROT_WRITE, MAP_ANONYMOUS | MAP_PRIVATE): the
        kernel may ignore the hint; it fails, or returns a fresh, non-null,
        page-aligned range of user space. */
    method Mmap(hint: int, size: int) returns (ok: bool, addr: int)
      requires size > 0
      modifies this
      ensures mmapCalls == old(mmapCalls) + 1
      ensures ok ==> addr % 4096 == 0 && 0 < addr && addr + size <= 0x8000_0000_0000
      ensures ok ==> Unmapped(old(mem), addr, addr + size)
      ensures mem == if ok then Zeroed(old(mem), addr, addr + size) else old(mem)
    {
      mmapCalls := mmapCalls + 1;
      addr := *;
      ok := *;
      if ok && addr % 4096 == 0 && 0 < addr && addr + size <= 0x8000_0000_0000
         && Unmapped(mem, addr, addr + size) {
        mem := Zeroed(mem, addr, addr + size);
      } else {
        ok := false;
      }
    }

    method Munmap(addr: int, size: int)
      modifies this`mem
      ensures mem == Dropped(old(mem), addr, addr + size)
    {
      mem := Dropped(mem, addr, addr + size);
    }

    /** mremap(from, size, size, MREMAP_MAYMOVE | MREMAP_FIXED, to): a failing call
        leaves both ranges as they were. */
    method Mremap(from: int, to: int, size: int) returns (ok: bool)
      requires Mapped(mem, from, from + size)
      modifies this`mem
      ensures mem == if ok then Moved(old(mem), from, to, size) else old(mem)
    {
      ok := *;
      if ok {
        mem := Moved(mem, from, to, size);
      }
    }

    method Store(a: int, v: int)
      requires a in mem
      modifies this`mem
      ensures mem == old(mem)[a := v]
    {
      mem := mem[a := v];
    }

    /** avx2_64_x_4_add: adds `x` to the four words of each 32-byte block from
        `start`, rounded down to a block, up to the aligned `end`. */
    method AddFourLanes(start: int, end: int, x: int)
      requires IsWord(start) && end % 32 == 0
      requires Mapped(mem, start - start % 32, end)
      modifies this`mem
      ensures mem == Shifted(old(mem), start - start % 32, end, x)
    {
      hide Shifted, Mapped, BitAnd, Wrap;
      assert Pow2(5) == 32;
      var p := AlignDown(start, 5);
      hide AlignDown, Pow2;
      ghost var lo := p;
      ShiftedNothing(mem, lo, end, x);
      while p < end
        invariant p % 32 == 0 && lo <= p && (p <= end || p == lo)
        invariant mem == Shifted(old(mem), lo, p, x)
        decreases end - p
      {
        ghost var was := mem;
        BlockMapped(old(mem), mem, lo, p, end, x);
        mem := mem[p := Wrap(mem[p] + x)][p + 8 := Wrap(mem[p + 8] + x)]
                  [p + 16 := Wrap(mem[p + 16] + x)][p + 24 := Wrap(mem[p + 24] + x)];
        BlockShifted(old(mem), was, mem, lo, p, x);
        p := p + 32;
      }
    }
  }

  lemma ShiftedNothing(m: Mem, lo: int, end: int, x: int)
    ensures m == Shifted(m, lo, lo, x) && (end <= lo ==> Shifted(m, lo, end, x) == m)
  {
  }

  /** The words of a 32-byte block. */
  lemma FourWords(p: int, a: int)
    requires p % 32 == 0 && p <= a < p + 32 && Aligned(a)
    ensures a == p || a == p + 8 || a == p + 16 || a == p + 24
  {
  }

  lemma BlockAligned(p: int)
    requires p % 32 == 0
    ensures Aligned(p) && Aligned(p + 8) && Aligned(p + 16) && Aligned(p + 24)
  {
  }

  /** The next block is mapped. */
  lemma BlockMapped(m: Mem, was: Mem, lo: int, p: int, end: int, x: int)
    requires p % 32 == 0 && end % 32 == 0 && lo <= p < end && Mapped(m, lo, end)
    requires was == Shifted(m, lo, p, x)
    ensures p + 32 <= end
    ensures p in was && p + 8 in was && p + 16 in was && p + 24 in was
    ensures p in m && p + 8 in m && p + 16 in m && p + 24 in m
  {
    BlockAligned(p);
  }

  /** One block of the four-lane loop extends the shifted range by 32 bytes. */
  lemma BlockShifted(m: Mem, was: Mem, now: Mem, lo: int, p: int, x: int)
    requires p % 32 == 0 && lo <= p
    requires was == Shifted(m, lo, p, x)
    requires p in was && p + 8 in was && p + 16 in was && p + 24 in was
    requires now == was[p := Wrap(was[p] + x)][p + 8 := Wrap(was[p + 8] + x)]
                       [p + 16 := Wrap(was[p + 16] + x)][p + 24 := Wrap(was[p + 24] + x)]
    ensures now == Shifted(m, lo, p + 32, x)
  {
    BlockAligned(p);
    var want := Shifted(m, lo, p + 32, x);
    forall a
      ensures (a in now <==> a in want) && (a in now ==> now[a] == want[a])
    {
      if p <= a < p + 32 && Aligned(a) {
        FourWords(p, a);
      }
    }
  }
}
