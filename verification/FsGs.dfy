/** The FS_GS runtime (fsgs.c): the shadow slot of `a` is a + diff, with `diff` and the key
    R in a metadata page that the GS base points to. Re-randomization first shifts the key
    and the live shadow range, then moves both the region and the metadata. */
module FsGs {
  import opened Words
  import opened Spa
  import opened Memory
  import opened ShadowStack
  import opened Templates
  import opened RateGate

  /** REAL_SHADOW_STACK_SIZE and REAL_META_DATA_SIZE. */
  const REGION_SIZE: int := CALL_STACK_SIZE + MB
  const META_SIZE: int := PAGE_SIZE
  const DEFAULT_RATIO: int := 1

  /** Offsets in struct gs_metadata; `diff` and `R` are Templates.FS_DIFF and FS_R. */
  const SELF_ADDR: int := 0
  const IS_RANDOMIZING: int := 24
  const SHADOW_STACK: int := 32
  const CPU_CYCLES: int := 40
  const STATE: int := 48
  const SHADOW_STACK_TOP: int := 56
  const CALL_STACK_TOP: int := 64
  const RATIO_FACTOR: int := 72
  const STRUCT_SIZE: int := 96

  /** Where a thread's metadata page and shadow region are; the rsp of its initialisation
      and the top of its call stack. */
  datatype Place = Place(meta: int, base: int, rsp0: int, top: int)

  function Offset(pl: Place): int {
    pl.base + CALL_STACK_SIZE - pl.rsp0
  }

  /** A page-aligned range of user space; page alignment implies the finer ones. */
  predicate PageIn(a: int, size: int) {
    a % PAGE_SIZE == 0 && a % 32 == 0 && Aligned(a) && 0 < a && a + size <= USER_SPACE_SIZE
  }

  predicate PlaceOk(pl: Place) {
    && PageIn(pl.meta, META_SIZE) && PageIn(pl.base, REGION_SIZE)
    && Apart(pl.meta, pl.meta + META_SIZE, pl.base, pl.base + REGION_SIZE)
    && CALL_STACK_SIZE <= pl.rsp0 <= pl.top < USER_SPACE_SIZE && Aligned(pl.rsp0) && Aligned(pl.top)
  }

  predicate Recorded(m: Mem, pl: Place) {
    && pl.meta + SELF_ADDR in m && m[pl.meta + SELF_ADDR] == pl.meta
    && pl.meta + FS_DIFF in m && m[pl.meta + FS_DIFF] == Wrap(Offset(pl))
    && pl.meta + FS_R in m && IsWord(m[pl.meta + FS_R])
    && pl.meta + SHADOW_STACK in m && m[pl.meta + SHADOW_STACK] == pl.base
    && pl.meta + SHADOW_STACK_TOP in m && m[pl.meta + SHADOW_STACK_TOP] == pl.base + CALL_STACK_SIZE
    && pl.meta + CALL_STACK_TOP in m && m[pl.meta + CALL_STACK_TOP] == pl.top
  }

  /** What the runtime keeps true of a thread between its calls. */
  predicate ThreadOk(m: Mem, pl: Place) {
    && PlaceOk(pl) && Recorded(m, pl)
    && Mapped(m, pl.meta, pl.meta + META_SIZE) && Mapped(m, pl.base, pl.base + REGION_SIZE)
  }

  // ----------------------------------------------------- What a call does to memory

  predicate Ready(m: Mem, meta: int)
    requires meta + STATE in m && meta + IS_RANDOMIZING in m
  {
    m[meta + STATE] == FLASH_STACK_INITED && m[meta + IS_RANDOMIZING] == 0
  }

  /** A call that reads the cycle count `now` passes the gate. */
  predicate MayAttempt(m: Mem, meta: int, now: int) {
    && meta + STATE in m && meta + IS_RANDOMIZING in m && meta + CPU_CYCLES in m && Ready(m, meta)
    && IsWord(now) && PeriodElapsed(m[meta + CPU_CYCLES], now)
  }

  /** The next shift of the key is followed by a move. */
  predicate MoveDue(m: Mem, pl: Place) {
    pl.meta + RATIO_FACTOR in m && m[pl.meta + RATIO_FACTOR] - 1 <= 0
  }

  function Entered(m: Mem, meta: int, now: int): Mem {
    m[meta + IS_RANDOMIZING := 1][meta + CPU_CYCLES := now]
  }

  /** The first word that the four-lane loop shifts, for a thread running at `rsp`. */
  function ShiftFrom(base: int, top: int, rsp: int): int {
    var start := base + CALL_STACK_SIZE - (top - rsp);
    start - start % 32
  }

  /** Key and shadow range shifted by `delta`. */
  function Rekeyed(m: Mem, pl: Place, rsp: int, delta: int): Mem
    requires pl.meta + FS_R in m
  {
    Shifted(m[pl.meta + FS_R := Wrap(m[pl.meta + FS_R] + delta)],
            ShiftFrom(pl.base, pl.top, rsp), pl.base + CALL_STACK_SIZE, delta)
  }

  /** Both reservations of a move. */
  function Reserved(m: Mem, to: Place): Mem {
    Zeroed(Zeroed(m, to.meta, to.meta + META_SIZE), to.base, to.base + REGION_SIZE)
  }

  function Copied(m: Mem, from: int, to: int): Mem {
    m + Carried(m, from, to, STRUCT_SIZE)
  }

  /** What mremap returned: the requested address, or -1. */
  function RemapResult(to: Place, remapped: bool): int {
    if remapped then to.base else WORD_SPAN - 1
  }

  /** The new metadata page before the region is remapped. */
  function Prepared(m: Mem, pl: Place, to: Place): Mem
    requires pl.meta + FS_DIFF in m
  {
    Copied(m, pl.meta, to.meta)
      [to.meta + FS_DIFF := Wrap(m[pl.meta + FS_DIFF] + (to.base - pl.base))][to.meta + SELF_ADDR := to.meta]
  }

  /** The move: copy the metadata, remap the region, record what mremap returned and
      unmap the old page. A failure of mremap is not checked. */
  function Switched(m: Mem, pl: Place, to: Place, remapped: bool): Mem
    requires pl.meta + FS_DIFF in m
  {
    var m1 := Prepared(m, pl, to);
    var m2 := if remapped then Moved(m1, pl.base, to.base, REGION_SIZE) else m1;
    Committed(m2, pl.meta, to.meta, RemapResult(to, remapped))
  }

  /** The fields of the new page that depend on the remap; the old page is unmapped. */
  function Committed(m: Mem, meta: int, newMeta: int, shadow: int): Mem {
    Dropped(m[newMeta + SHADOW_STACK := shadow][newMeta + SHADOW_STACK_TOP := Wrap(shadow + CALL_STACK_SIZE)],
            meta, meta + META_SIZE)
  }

  /** The places a move may choose. */
  predicate CanReserve(m: Mem, pl: Place, to: Place) {
    && PlaceOk(to) && to.rsp0 == pl.rsp0 && to.top == pl.top
    && Unmapped(m, to.meta, to.meta + META_SIZE) && Unmapped(m, to.base, to.base + REGION_SIZE)
  }

  // --------------------------------------------------------------- Shifting the key

  lemma ShiftFromInRegion(pl: Place, rsp: int)
    requires PlaceOk(pl) && pl.top - CALL_STACK_SIZE <= rsp
    ensures pl.base <= ShiftFrom(pl.base, pl.top, rsp) && ShiftFrom(pl.base, pl.top, rsp) % 32 == 0
    ensures ShiftFrom(pl.base, pl.top, rsp) <= rsp + Offset(pl)
  {
    RoundedToBlock(pl.base, pl.base + CALL_STACK_SIZE - (pl.top - rsp));
  }

  lemma OffsetAligned(pl: Place)
    requires PlaceOk(pl)
    ensures Aligned(Offset(pl)) && (pl.base + CALL_STACK_SIZE) % 32 == 0
  {
    WholePages(pl.base);
    StackAbove(pl.base);
    AlignedSum(pl.base + CALL_STACK_SIZE, pl.rsp0);
  }

  lemma WholePages(x: int)
    requires x % PAGE_SIZE == 0
    ensures x % 32 == 0
  {
  }

  lemma StackAbove(x: int)
    requires x % 32 == 0
    ensures (x + CALL_STACK_SIZE) % 32 == 0 && Aligned(x + CALL_STACK_SIZE)
  {
  }

  /** Shifting a range of the region leaves the metadata page alone. */
  lemma ShiftedKeeps(m: Mem, lo: int, hi: int, x: int, lo': int, hi': int)
    requires Apart(lo, hi, lo', hi')
    ensures Kept(m, Shifted(m, lo, hi, x), lo', hi')
    ensures NothingUnmapped(m, Shifted(m, lo, hi, x))
  {
  }

  lemma RecordedKept(m: Mem, m': Mem, pl: Place)
    requires ThreadOk(m, pl) && NothingUnmapped(m, m') && Kept(m, m', pl.meta, pl.meta + META_SIZE)
    ensures ThreadOk(m', pl)
  {
  }

  lemma KeyWritten(m: Mem, pl: Place, key: int)
    requires ThreadOk(m, pl) && IsWord(key)
    ensures ThreadOk(m[pl.meta + FS_R := key], pl)
  {
  }

  lemma RekeyedOk(m: Mem, pl: Place, rsp: int, delta: int)
    requires ThreadOk(m, pl) && pl.top - CALL_STACK_SIZE <= rsp
    ensures ThreadOk(Rekeyed(m, pl, rsp, delta), pl)
    ensures Rekeyed(m, pl, rsp, delta)[pl.meta + FS_R] == Wrap(m[pl.meta + FS_R] + delta)
  {
    var m1 := m[pl.meta + FS_R := Wrap(m[pl.meta + FS_R] + delta)];
    var lo, hi := ShiftFrom(pl.base, pl.top, rsp), pl.base + CALL_STACK_SIZE;
    KeyWritten(m, pl, Wrap(m[pl.meta + FS_R] + delta));
    ShiftFromInRegion(pl, rsp);
    ShiftedKeeps(m1, lo, hi, delta, pl.meta, pl.meta + META_SIZE);
    RecordedKept(m1, Rekeyed(m, pl, rsp, delta), pl);
  }

  /** Shadow slots lie in the region, so writing the metadata page disturbs none. */
  lemma PageWriteHolds(m: Mem, pl: Place, key: int, frames: seq<Frame>, a: int, v: int)
    requires PlaceOk(pl) && Holds(m, Offset(pl), key, frames)
    requires SlotsWithin(frames, pl.rsp0 - CALL_STACK_SIZE, pl.rsp0 + MB)
    requires pl.meta <= a < pl.meta + META_SIZE
    ensures Holds(m[a := v], Offset(pl), key, frames)
  {
    KeptHolds(m, m[a := v], Offset(pl), key, frames, pl.base, pl.base + REGION_SIZE);
  }

  /** Every live slot below rsp0 is shifted with the key, although the range is computed
      from the top of the call stack and `diff` from rsp0. */
  lemma RekeyedHolds(m: Mem, pl: Place, rsp: int, delta: int, frames: seq<Frame>)
    requires PlaceOk(pl) && pl.meta + FS_R in m && pl.top - CALL_STACK_SIZE <= rsp
    requires SlotsWithin(frames, rsp, pl.rsp0) && Holds(m, Offset(pl), m[pl.meta + FS_R], frames)
    ensures Holds(Rekeyed(m, pl, rsp, delta), Offset(pl), Wrap(m[pl.meta + FS_R] + delta), frames)
  {
    var key := m[pl.meta + FS_R];
    SlotsWider(frames, rsp, pl.rsp0, pl.rsp0 - CALL_STACK_SIZE, pl.rsp0 + MB);
    PageWriteHolds(m, pl, key, frames, pl.meta + FS_R, Wrap(key + delta));
    LiveRangeShifted(m[pl.meta + FS_R := Wrap(key + delta)], pl, key, rsp, delta, frames);
  }

  lemma LiveRangeShifted(m: Mem, pl: Place, key: int, rsp: int, delta: int, frames: seq<Frame>)
    requires PlaceOk(pl) && pl.top - CALL_STACK_SIZE <= rsp
    requires SlotsWithin(frames, rsp, pl.rsp0) && Holds(m, Offset(pl), key, frames)
    ensures var from := ShiftFrom(pl.base, pl.top, rsp);
            Holds(Shifted(m, from, pl.base + CALL_STACK_SIZE, delta), Offset(pl), Wrap(key + delta), frames)
  {
    var from := ShiftFrom(pl.base, pl.top, rsp);
    ShiftFromInRegion(pl, rsp);
    SlotsWider(frames, rsp, pl.rsp0, from - Offset(pl), pl.rsp0);
    OffsetAligned(pl);
    ShiftHolds(m, Offset(pl), key, frames, from, pl.base + CALL_STACK_SIZE, delta);
  }

  /** The hypothesis is needed: a live slot keeps decoding exactly when it lies below the
      rsp of the initialisation, or the shift is none. */
  lemma RekeyedSlot(m: Mem, pl: Place, rsp: int, delta: int, f: Frame)
    requires PlaceOk(pl) && pl.meta + FS_R in m
    requires pl.top - CALL_STACK_SIZE <= rsp <= f.slot < pl.rsp0 + MB && Aligned(f.slot)
    requires Decodes(m, Offset(pl), m[pl.meta + FS_R], f)
    ensures Decodes(Rekeyed(m, pl, rsp, delta), Offset(pl), Wrap(m[pl.meta + FS_R] + delta), f)
       <==> f.slot < pl.rsp0 || Wrap(delta) == 0
  {
    var key := m[pl.meta + FS_R];
    RekeyedWord(m, pl, rsp, delta, f.slot);
    WrapSum(f.saved + key, delta);
    WrapSum(key + delta, f.saved);
    ShiftCancels(f.saved + key, delta);
  }

  /** The shadow slot of a live slot is shifted exactly when the slot is below rsp0. */
  lemma RekeyedWord(m: Mem, pl: Place, rsp: int, delta: int, slot: int)
    requires PlaceOk(pl) && pl.meta + FS_R in m && slot + Offset(pl) in m && Aligned(slot)
    requires pl.top - CALL_STACK_SIZE <= rsp <= slot < pl.rsp0 + MB
    ensures var a, m' := slot + Offset(pl), Rekeyed(m, pl, rsp, delta);
            a in m' && m'[a] == if slot < pl.rsp0 then Wrap(m[a] + delta) else m[a]
  {
    ShiftFromInRegion(pl, rsp);
    OffsetAligned(pl);
    AlignedSum(slot, Offset(pl));
    ShiftedWord(m[pl.meta + FS_R := Wrap(m[pl.meta + FS_R] + delta)], ShiftFrom(pl.base, pl.top, rsp),
                pl.base + CALL_STACK_SIZE, delta, slot + Offset(pl));
  }

  lemma ShiftCancels(x: int, delta: int)
    ensures Wrap(x + delta) == Wrap(x) <==> Wrap(delta) == 0
  {
    WrapSum(delta, x);
    WrapSum(x + delta, -x);
    WrapSum(x, -x);
  }

  // -------------------------------------------------------------------- Moving

  /** The four ranges of a move are pairwise apart. */
  predicate Separate(pl: Place, to: Place) {
    && Apart(pl.meta, pl.meta + META_SIZE, to.meta, to.meta + META_SIZE)
    && Apart(pl.meta, pl.meta + META_SIZE, to.base, to.base + REGION_SIZE)
    && Apart(pl.base, pl.base + REGION_SIZE, to.meta, to.meta + META_SIZE)
    && Apart(pl.base, pl.base + REGION_SIZE, to.base, to.base + REGION_SIZE)
  }

  lemma ReservedSeparate(m: Mem, pl: Place, to: Place)
    requires ThreadOk(m, pl) && CanReserve(m, pl, to)
    ensures Separate(pl, to)
  {
    FreshApart(m, pl, to.meta, to.meta + META_SIZE);
    FreshApart(m, pl, to.base, to.base + REGION_SIZE);
  }

  lemma FreshApart(m: Mem, pl: Place, lo: int, hi: int)
    requires ThreadOk(m, pl) && Aligned(lo) && lo < hi && Unmapped(m, lo, hi)
    ensures Apart(pl.meta, pl.meta + META_SIZE, lo, hi) && Apart(pl.base, pl.base + REGION_SIZE, lo, hi)
  {
    assert Apart(pl.meta, pl.meta + META_SIZE, lo, hi) by {
      FreshIsApart(m, pl.meta, pl.meta + META_SIZE, lo, hi);
    }
    FreshIsApart(m, pl.base, pl.base + REGION_SIZE, lo, hi);
  }

  lemma ReservedKeeps(m: Mem, pl: Place, to: Place)
    requires CanReserve(m, pl, to)
    ensures NothingUnmapped(m, Reserved(m, to)) && OnlyWithin(m, Reserved(m, to), 0, 0)
    ensures Mapped(Reserved(m, to), to.meta, to.meta + META_SIZE)
    ensures Mapped(Reserved(m, to), to.base, to.base + REGION_SIZE)
  {
  }

  /** Preparing the new page writes only there. */
  lemma PreparedWithin(m: Mem, pl: Place, to: Place)
    requires pl.meta + FS_DIFF in m && Mapped(m, to.meta, to.meta + META_SIZE)
    requires PlaceOk(to)
    ensures NothingUnmapped(m, Prepared(m, pl, to))
    ensures OnlyWithin(m, Prepared(m, pl, to), to.meta, to.meta + META_SIZE)
  {
  }

  /** A field that the move does not set is copied. */
  lemma PreparedField(m: Mem, pl: Place, to: Place, field: int)
    requires pl.meta + FS_DIFF in m && pl.meta + field in m && 0 <= field < STRUCT_SIZE && Aligned(field)
    requires Aligned(to.meta) && field != FS_DIFF && field != SELF_ADDR
    ensures to.meta + field in Prepared(m, pl, to) && Prepared(m, pl, to)[to.meta + field] == m[pl.meta + field]
  {
    AlignedSum(to.meta, field);
    CopiedField(m, pl.meta, to.meta, field);
    hide Copied;
    assert to.meta + field != to.meta + FS_DIFF && to.meta + field != to.meta + SELF_ADDR;
  }

  lemma CopiedField(m: Mem, from: int, to: int, field: int)
    requires 0 <= field < STRUCT_SIZE && Aligned(to + field) && from + field in m
    ensures to + field in Copied(m, from, to) && Copied(m, from, to)[to + field] == m[from + field]
  {
    assert to + field - to + from == from + field;
    CarriedWord(m, from, to, STRUCT_SIZE, to + field);
    hide Carried, Aligned;
  }

  /** After the remap, a word outside the four ranges' leftovers is what it was. */
  lemma SwitchedKeeps(m: Mem, pl: Place, to: Place, remapped: bool, a: int)
    requires pl.meta + FS_DIFF in m && a in Prepared(m, pl, to) && Separate(pl, to) && PlaceOk(to)
    requires to.meta <= a < to.meta + META_SIZE && a != to.meta + SHADOW_STACK && a != to.meta + SHADOW_STACK_TOP
    ensures a in Switched(m, pl, to, remapped) && Switched(m, pl, to, remapped)[a] == Prepared(m, pl, to)[a]
  {
  }

  lemma SwitchedField(m: Mem, pl: Place, to: Place, remapped: bool, field: int)
    requires pl.meta + FS_DIFF in m && pl.meta + field in m && PlaceOk(to) && Separate(pl, to)
    requires 0 <= field < STRUCT_SIZE && Aligned(field) && field != FS_DIFF && field != SELF_ADDR
    requires field != SHADOW_STACK && field != SHADOW_STACK_TOP
    ensures to.meta + field in Switched(m, pl, to, remapped)
    ensures Switched(m, pl, to, remapped)[to.meta + field] == m[pl.meta + field]
  {
    PreparedField(m, pl, to, field);
    SwitchedKeeps(m, pl, to, remapped, to.meta + field);
  }

  /** The fields that the move sets. */
  lemma SwitchedSets(m: Mem, pl: Place, to: Place, remapped: bool)
    requires pl.meta + FS_DIFF in m && PlaceOk(to) && Separate(pl, to)
    ensures var m' := Switched(m, pl, to, remapped);
            && to.meta + SELF_ADDR in m' && m'[to.meta + SELF_ADDR] == to.meta
            && to.meta + FS_DIFF in m' && m'[to.meta + FS_DIFF] == Wrap(m[pl.meta + FS_DIFF] + (to.base - pl.base))
            && to.meta + SHADOW_STACK in m' && m'[to.meta + SHADOW_STACK] == RemapResult(to, remapped)
            && to.meta + SHADOW_STACK_TOP in m'
            && m'[to.meta + SHADOW_STACK_TOP] == Wrap(RemapResult(to, remapped) + CALL_STACK_SIZE)
  {
    SwitchedKeeps(m, pl, to, remapped, to.meta + SELF_ADDR);
    SwitchedKeeps(m, pl, to, remapped, to.meta + FS_DIFF);
  }

  lemma SwitchedMapped(m: Mem, pl: Place, to: Place)
    requires pl.meta + FS_DIFF in m && PlaceOk(to) && Separate(pl, to) && Aligned(pl.base)
    requires Mapped(m, to.meta, to.meta + META_SIZE) && Mapped(m, pl.base, pl.base + REGION_SIZE)
    ensures Mapped(Switched(m, pl, to, true), to.meta, to.meta + META_SIZE)
    ensures Mapped(Switched(m, pl, to, true), to.base, to.base + REGION_SIZE)
  {
    PreparedMapped(m, pl, to);
    RegionMappedBySwitch(m, pl, to);
    PageMappedBySwitch(m, pl, to);
  }

  lemma PreparedMapped(m: Mem, pl: Place, to: Place)
    requires pl.meta + FS_DIFF in m && PlaceOk(to) && Mapped(m, to.meta, to.meta + META_SIZE)
    requires Mapped(m, pl.base, pl.base + REGION_SIZE)
    ensures Mapped(Prepared(m, pl, to), to.meta, to.meta + META_SIZE)
    ensures Mapped(Prepared(m, pl, to), pl.base, pl.base + REGION_SIZE)
  {
    PreparedWithin(m, pl, to);
  }

  lemma RegionMappedBySwitch(m: Mem, pl: Place, to: Place)
    requires pl.meta + FS_DIFF in m && PlaceOk(to) && Separate(pl, to) && Aligned(pl.base)
    requires Mapped(Prepared(m, pl, to), pl.base, pl.base + REGION_SIZE)
    ensures Mapped(Switched(m, pl, to, true), to.base, to.base + REGION_SIZE)
  {
    MovedMapped(Prepared(m, pl, to), pl.base, to.base, REGION_SIZE);
    RegionKeptBySwitch(m, pl, to);
  }

  lemma PageMappedBySwitch(m: Mem, pl: Place, to: Place)
    requires pl.meta + FS_DIFF in m && PlaceOk(to) && Separate(pl, to)
    requires Mapped(Prepared(m, pl, to), to.meta, to.meta + META_SIZE)
    ensures Mapped(Switched(m, pl, to, true), to.meta, to.meta + META_SIZE)
  {
    MovedKeeps(Prepared(m, pl, to), pl.base, to.base, REGION_SIZE, to.meta, to.meta + META_SIZE);
  }

  lemma SwitchedRecorded(m: Mem, pl: Place, to: Place)
    requires pl.meta + FS_DIFF in m && pl.meta + FS_R in m && Recorded(m, pl)
    requires PlaceOk(to) && Separate(pl, to) && to.rsp0 == pl.rsp0 && to.top == pl.top
    ensures to.meta + FS_R in Switched(m, pl, to, true)
    ensures Switched(m, pl, to, true)[to.meta + FS_R] == m[pl.meta + FS_R]
    ensures Recorded(Switched(m, pl, to, true), to)
  {
    hide Switched;
    SwitchedSets(m, pl, to, true);
    SwitchedField(m, pl, to, true, FS_R);
    SwitchedField(m, pl, to, true, CALL_STACK_TOP);
    OffsetMoves(pl, to);
  }

  lemma OffsetMoves(pl: Place, to: Place)
    requires to.rsp0 == pl.rsp0
    ensures Wrap(Wrap(Offset(pl)) + (to.base - pl.base)) == Wrap(Offset(to))
    ensures 0 <= to.base + CALL_STACK_SIZE < WORD_SPAN ==> Wrap(to.base + CALL_STACK_SIZE) == to.base + CALL_STACK_SIZE
  {
    WrapSum(Offset(pl), to.base - pl.base);
  }

  /** The region and the metadata move together, and the key stays. */
  lemma SwitchedHolds(m: Mem, pl: Place, to: Place, key: int, frames: seq<Frame>)
    requires pl.meta + FS_DIFF in m && PlaceOk(pl) && PlaceOk(to) && Separate(pl, to) && to.rsp0 == pl.rsp0
    requires Mapped(m, to.meta, to.meta + META_SIZE)
    requires SlotsWithin(frames, pl.rsp0 - CALL_STACK_SIZE, pl.rsp0 + MB) && Holds(m, Offset(pl), key, frames)
    ensures Holds(Switched(m, pl, to, true), Offset(to), key, frames)
  {
    PreparedHolds(m, pl, to, key, frames);
    RemappedHolds(Prepared(m, pl, to), pl, to, key, frames);
    SwitchKeepsRegion(m, pl, to, key, frames);
  }

  lemma RemappedHolds(m: Mem, pl: Place, to: Place, key: int, frames: seq<Frame>)
    requires PlaceOk(pl) && PlaceOk(to) && to.rsp0 == pl.rsp0
    requires SlotsWithin(frames, pl.rsp0 - CALL_STACK_SIZE, pl.rsp0 + MB) && Holds(m, Offset(pl), key, frames)
    ensures Holds(Moved(m, pl.base, to.base, REGION_SIZE), Offset(to), key, frames)
  {
    OffsetAligned(pl);
    assert Offset(pl) + (to.base - pl.base) == Offset(to);
    SlotsWider(frames, pl.rsp0 - CALL_STACK_SIZE, pl.rsp0 + MB,
               pl.base - Offset(pl), pl.base + REGION_SIZE - Offset(pl));
    MoveHolds(m, Offset(pl), key, frames, pl.base, to.base, REGION_SIZE);
  }

  lemma SwitchKeepsRegion(m: Mem, pl: Place, to: Place, key: int, frames: seq<Frame>)
    requires pl.meta + FS_DIFF in m && PlaceOk(to) && Separate(pl, to)
    requires SlotsWithin(frames, to.rsp0 - CALL_STACK_SIZE, to.rsp0 + MB)
    requires Holds(Moved(Prepared(m, pl, to), pl.base, to.base, REGION_SIZE), Offset(to), key, frames)
    ensures Holds(Switched(m, pl, to, true), Offset(to), key, frames)
  {
    RegionKeptBySwitch(m, pl, to);
    KeptHolds(Moved(Prepared(m, pl, to), pl.base, to.base, REGION_SIZE), Switched(m, pl, to, true),
              Offset(to), key, frames, to.base, to.base + REGION_SIZE);
  }

  lemma PreparedHolds(m: Mem, pl: Place, to: Place, key: int, frames: seq<Frame>)
    requires pl.meta + FS_DIFF in m && PlaceOk(to) && Separate(pl, to)
    requires Mapped(m, to.meta, to.meta + META_SIZE)
    requires SlotsWithin(frames, pl.rsp0 - CALL_STACK_SIZE, pl.rsp0 + MB) && Holds(m, Offset(pl), key, frames)
    ensures Holds(Prepared(m, pl, to), Offset(pl), key, frames)
  {
    PreparedWithin(m, pl, to);
    ApartKept(m, Prepared(m, pl, to), to.meta, to.meta + META_SIZE, pl.base, pl.base + REGION_SIZE);
    KeptHolds(m, Prepared(m, pl, to), Offset(pl), key, frames, pl.base, pl.base + REGION_SIZE);
  }

  lemma RegionKeptBySwitch(m: Mem, pl: Place, to: Place)
    requires pl.meta + FS_DIFF in m && PlaceOk(to) && Separate(pl, to)
    ensures Kept(Moved(Prepared(m, pl, to), pl.base, to.base, REGION_SIZE), Switched(m, pl, to, true),
                 to.base, to.base + REGION_SIZE)
  {
  }

  // --------------------------------------------------------- Shift, then move

  lemma EnteredOk(m: Mem, pl: Place, now: int)
    requires ThreadOk(m, pl)
    ensures ThreadOk(Entered(m, pl.meta, now), pl)
    ensures Entered(m, pl.meta, now)[pl.meta + FS_R] == m[pl.meta + FS_R]
  {
  }

  lemma FieldWritten(m: Mem, pl: Place, field: int, v: int)
    requires ThreadOk(m, pl) && (field == IS_RANDOMIZING || field == RATIO_FACTOR)
    ensures ThreadOk(m[pl.meta + field := v], pl)
    ensures m[pl.meta + field := v][pl.meta + FS_R] == m[pl.meta + FS_R]
  {
  }

  lemma ReservedOk(m: Mem, pl: Place, to: Place)
    requires ThreadOk(m, pl) && CanReserve(m, pl, to)
    ensures ThreadOk(Reserved(m, to), pl) && Reserved(m, to)[pl.meta + FS_R] == m[pl.meta + FS_R]
  {
    ReservedKeeps(m, pl, to);
    RecordedKept(m, Reserved(m, to), pl);
  }

  /** A move onto fresh reservations keeps the thread whole, its frames protected and
      its key. */
  lemma MoveKeepsThread(m: Mem, pl: Place, to: Place, key: int, frames: seq<Frame>)
    requires ThreadOk(m, pl) && CanReserve(m, pl, to)
    requires SlotsWithin(frames, pl.rsp0 - CALL_STACK_SIZE, pl.rsp0 + MB) && Holds(m, Offset(pl), key, frames)
    ensures pl.meta + FS_DIFF in Reserved(m, to)
    ensures ThreadOk(Switched(Reserved(m, to), pl, to, true), to)
    ensures Switched(Reserved(m, to), pl, to, true)[to.meta + FS_R] == m[pl.meta + FS_R]
    ensures Holds(Switched(Reserved(m, to), pl, to, true), Offset(to), key, frames)
  {
    ReservedSeparate(m, pl, to);
    ReservedOk(m, pl, to);
    ReservedHolds(m, pl, to, key, frames);
    SwitchKeepsThread(Reserved(m, to), pl, to, key, frames);
  }

  lemma ReservedHolds(m: Mem, pl: Place, to: Place, key: int, frames: seq<Frame>)
    requires CanReserve(m, pl, to) && Holds(m, Offset(pl), key, frames)
    ensures Holds(Reserved(m, to), Offset(pl), key, frames)
    ensures Mapped(Reserved(m, to), to.meta, to.meta + META_SIZE)
  {
    ReservedKeeps(m, pl, to);
  }

  lemma SwitchKeepsThread(m: Mem, pl: Place, to: Place, key: int, frames: seq<Frame>)
    requires ThreadOk(m, pl) && PlaceOk(to) && Separate(pl, to) && to.rsp0 == pl.rsp0 && to.top == pl.top
    requires Mapped(m, to.meta, to.meta + META_SIZE)
    requires SlotsWithin(frames, pl.rsp0 - CALL_STACK_SIZE, pl.rsp0 + MB) && Holds(m, Offset(pl), key, frames)
    ensures ThreadOk(Switched(m, pl, to, true), to)
    ensures Switched(m, pl, to, true)[to.meta + FS_R] == m[pl.meta + FS_R]
    ensures Holds(Switched(m, pl, to, true), Offset(to), key, frames)
  {
    SwitchedRecorded(m, pl, to);
    SwitchedHolds(m, pl, to, key, frames);
    SwitchedOk(m, pl, to);
  }

  lemma SwitchedOk(m: Mem, pl: Place, to: Place)
    requires pl.meta + FS_DIFF in m && PlaceOk(to) && Separate(pl, to) && Aligned(pl.base)
    requires Mapped(m, to.meta, to.meta + META_SIZE) && Mapped(m, pl.base, pl.base + REGION_SIZE)
    requires Recorded(Switched(m, pl, to, true), to)
    ensures ThreadOk(Switched(m, pl, to, true), to)
  {
    SwitchedMapped(m, pl, to);
  }

  /** A move leaks nothing: the old page and the old region are unmapped, only the new ones
      are mapped besides, and all that is in none of them is as it was. */
  lemma MoveLeaksNothing(m: Mem, pl: Place, to: Place, a: int)
    requires ThreadOk(m, pl) && CanReserve(m, pl, to)
    ensures pl.meta + FS_DIFF in Reserved(m, to)
    ensures var m' := Switched(Reserved(m, to), pl, to, true);
            && (InPlace(pl, a) ==> a !in m')
            && (!InPlace(pl, a) && !InPlace(to, a) ==> (a in m' <==> a in m) && (a in m ==> m'[a] == m[a]))
  {
    ReservedSeparate(m, pl, to);
    ReservedKeeps(m, pl, to);
    ReservedElsewhere(m, to, a);
    hide Reserved, ThreadOk, CanReserve;
    SwitchedElsewhere(Reserved(m, to), pl, to, a);
  }

  lemma ReservedElsewhere(m: Mem, to: Place, a: int)
    ensures !InPlace(to, a) ==>
              (a in Reserved(m, to) <==> a in m) && (a in m ==> Reserved(m, to)[a] == m[a])
  {
  }

  lemma SwitchedElsewhere(m: Mem, pl: Place, to: Place, a: int)
    requires pl.meta + FS_DIFF in m && PlaceOk(pl) && PlaceOk(to) && Separate(pl, to)
    ensures var m' := Switched(m, pl, to, true);
            && (InPlace(pl, a) ==> a !in m')
            && (!InPlace(pl, a) && !InPlace(to, a) ==> (a in m' <==> a in m) && (a in m ==> m'[a] == m[a]))
  {
    hide Aligned, Copied;
    CopiedElsewhere(m, pl.meta, to.meta, a);
  }

  lemma CopiedElsewhere(m: Mem, from: int, to: int, a: int)
    ensures !(to <= a < to + STRUCT_SIZE) ==>
              (a in Copied(m, from, to) <==> a in m) && (a in m ==> Copied(m, from, to)[a] == m[a])
  {
  }

  predicate InPlace(pl: Place, a: int) {
    pl.meta <= a < pl.meta + 0x1000 || pl.base <= a < pl.base + 0x90_0000
  }

  /** The unchecked failure of mremap: the slots are then read from the fresh reservation,
      and a frame still decodes only if its keyed return address is zero. */
  lemma FailedRemapLosesFrames(m: Mem, pl: Place, to: Place, key: int, f: Frame)
    requires ThreadOk(m, pl) && CanReserve(m, pl, to)
    requires Apart(to.meta, to.meta + META_SIZE, to.base, to.base + REGION_SIZE)
    requires pl.rsp0 - CALL_STACK_SIZE <= f.slot < pl.rsp0 + MB && Aligned(f.slot)
    ensures pl.meta + FS_DIFF in Reserved(m, to)
    ensures Decodes(Switched(Reserved(m, to), pl, to, false), Offset(to), key, f) <==> Wrap(f.saved + key) == 0
  {
    hide Switched, Reserved;
    ReservedSeparate(m, pl, to);
    OffsetAligned(to);
    AlignedSum(f.slot, Offset(to));
    var a := f.slot + Offset(to);
    FreshWord(m, to, a);
    ReservedKeeps(m, pl, to);
    FailedSwitchKeeps(Reserved(m, to), pl, to, a);
  }

  lemma FreshWord(m: Mem, to: Place, a: int)
    requires to.base <= a < to.base + REGION_SIZE && Aligned(a)
    ensures a in Reserved(m, to) && Reserved(m, to)[a] == 0
  {
  }

  lemma FailedSwitchKeeps(m: Mem, pl: Place, to: Place, a: int)
    requires pl.meta + FS_DIFF in m && a in m && to.base <= a < to.base + REGION_SIZE
    requires Separate(pl, to) && PlaceOk(to)
    ensures a in Switched(m, pl, to, false) && Switched(m, pl, to, false)[a] == m[a]
  {
  }

  // ------------------------------------------------------------- Initialisation

  /** The top of a call stack that pthread_attr_getstack describes: a stack smaller than
      8MB is taken to reach higher. */
  function StackTop(low: int, size: int): (top: int)
    ensures low + size <= top && low + 0x80_0000 <= top && (top == low + size || top == low + 0x80_0000)
  {
    if size < CALL_STACK_SIZE then low + CALL_STACK_SIZE else low + size
  }

  /** The fields that do_init_shadow_stack sets; `key` is the initial R. */
  function FieldsSet(m: Mem, pl: Place, key: int): Mem {
    Zeroed(m, pl.meta, pl.meta + STRUCT_SIZE)
      [pl.meta + SELF_ADDR := pl.meta][pl.meta + FS_DIFF := Wrap(Offset(pl))][pl.meta + SHADOW_STACK := pl.base]
      [pl.meta + CPU_CYCLES := 0][pl.meta + IS_RANDOMIZING := 0][pl.meta + RATIO_FACTOR := DEFAULT_RATIO]
      [pl.meta + FS_R := key]
  }

  /** set_call_stack_info. */
  function StackInfoSet(m: Mem, meta: int, base: int, top: int): Mem {
    m[meta + CALL_STACK_TOP := top][meta + SHADOW_STACK_TOP := base + CALL_STACK_SIZE]
      [meta + STATE := FLASH_STACK_INITED]
  }

  function Initialised(m: Mem, pl: Place, key: int): Mem {
    StackInfoSet(FieldsSet(m, pl, key), pl.meta, pl.base, pl.top)
  }

  /** Initialisation records the place, ready for the gate, and unmaps nothing. */
  lemma InitialisedOk(m: Mem, pl: Place, key: int)
    requires PlaceOk(pl) && IsWord(key)
    requires Mapped(m, pl.meta, pl.meta + META_SIZE) && Mapped(m, pl.base, pl.base + REGION_SIZE)
    ensures ThreadOk(Initialised(m, pl, key), pl)
    ensures var m' := Initialised(m, pl, key);
            && pl.meta + STATE in m' && pl.meta + IS_RANDOMIZING in m' && Ready(m', pl.meta)
            && m'[pl.meta + FS_R] == key
  {
  }

  /** Until the call stack is recorded the thread is not ready. */
  lemma UnfinishedNotReady(m: Mem, pl: Place, key: int)
    requires Aligned(pl.meta)
    ensures pl.meta + STATE in FieldsSet(m, pl, key) && pl.meta + IS_RANDOMIZING in FieldsSet(m, pl, key)
    ensures !Ready(FieldsSet(m, pl, key), pl.meta)
  {
    AlignedSum(pl.meta, STATE);
  }

  /** A thread that was initialised in the upper 8MB of its call stack can start to run. */
  lemma InitialisedLive(m: Mem, pl: Place, key: int, msr: bool)
    requires PlaceOk(pl) && IsWord(key)
    requires Mapped(m, pl.meta, pl.meta + META_SIZE) && Mapped(m, pl.base, pl.base + REGION_SIZE)
    ensures Live(Machine(Initialised(m, pl, key), pl, pl.rsp0, [], []), msr) <==> pl.top - CALL_STACK_SIZE <= pl.rsp0
  {
    hide Initialised;
    InitialisedOk(m, pl, key);
  }

  // ---------------------------------------------------------------- Whole runs

  /** One protected thread. */
  datatype Machine = Machine(mem: Mem, pl: Place, rsp: int, frames: seq<Frame>, trace: seq<int>)

  datatype Step =
    /** Anything else that runs, outside the metadata page and the shadow region. */
    | Env(mem: Mem)
    /** Moving rsp, by calls, pushes or unwinding; frames below it are abandoned. */
    | Adjust(keep: nat, rsp: int)
    | Prologue
    | Epilogue
    /** fsgs_runtime_rerandomize without and with the move. */
    | Rekey(now: int, delta: int, ratio: int)
    | RekeyAndMove(now: int, delta: int, to: Place)

  /** A processor that runs the thread, whatever is in its scratch registers. */
  predicate Runs(c: Asm.Cpu, s: Machine) {
    c.rsp == s.rsp && c.gs == s.pl.meta && c.mem == s.mem
  }

  function CpuOf(s: Machine): Asm.Cpu {
    Asm.Cpu(0, 0, 0, s.rsp, s.pl.meta, s.mem)
  }

  /** The live frames lie between rsp and rsp0. */
  predicate Shape(s: Machine) {
    && PlaceOk(s.pl) && Nested(s.frames) && SlotsWithin(s.frames, s.rsp, s.pl.rsp0)
    && s.pl.top - CALL_STACK_SIZE <= s.rsp <= s.pl.top && Aligned(s.rsp)
    && forall i :: 0 <= i < |s.frames| ==> IsWord(s.frames[i].saved)
  }

  predicate Live(s: Machine, msr: bool) {
    && Shape(s) && ThreadOk(s.mem, s.pl)
    && Holds(s.mem, Offset(s.pl), FsKey(msr, s.pl.meta, s.mem), s.frames)
  }

  function Ceiling(s: Machine, keep: nat): int
    requires keep <= |s.frames|
  {
    if keep == 0 then s.pl.top else s.frames[keep - 1].slot
  }

  predicate Enabled(s: Machine, e: Step, msr: bool)
    requires Live(s, msr)
  {
    match e
    case Env(m) =>
      Kept(s.mem, m, s.pl.meta, s.pl.meta + META_SIZE) && Kept(s.mem, m, s.pl.base, s.pl.base + REGION_SIZE)
    case Adjust(keep, rsp) =>
      keep <= |s.frames| && s.pl.top - CALL_STACK_SIZE <= rsp <= Ceiling(s, keep) && Aligned(rsp)
    case Prologue =>
      s.rsp < s.pl.rsp0 && s.rsp < Ceiling(s, |s.frames|) && s.rsp in s.mem && IsWord(s.mem[s.rsp])
    case Epilogue => s.frames != [] && s.rsp == s.frames[|s.frames| - 1].slot
    case Rekey(now, _, ratio) =>
      && MayAttempt(s.mem, s.pl.meta, now) && s.pl.meta + RATIO_FACTOR in s.mem
      && 0 < ratio == s.mem[s.pl.meta + RATIO_FACTOR] - 1
    case RekeyAndMove(now, delta, to) =>
      && MayAttempt(s.mem, s.pl.meta, now) && MoveDue(s.mem, s.pl)
      && CanReserve(Shaken(s, now, delta, DEFAULT_RATIO, msr), s.pl, to)
  }

  /** Memory after the gate, the shift of the key and the count of the ratio. */
  function Shaken(s: Machine, now: int, delta: int, ratio: int, msr: bool): Mem
    requires ThreadOk(s.mem, s.pl)
  {
    Attempted(s.mem, s.pl, s.rsp, now, delta, msr)[s.pl.meta + RATIO_FACTOR := ratio]
  }

  function Attempted(m: Mem, pl: Place, rsp: int, now: int, delta: int, msr: bool): Mem
    requires pl.meta + FS_R in m
  {
    if msr then Rekeyed(Entered(m, pl.meta, now), pl, rsp, delta) else Entered(m, pl.meta, now)
  }

  function Finished(m: Mem, meta: int): Mem {
    m[meta + IS_RANDOMIZING := 0]
  }

  lemma LiveReadable(s: Machine, msr: bool)
    requires Live(s, msr) && s.rsp < s.pl.rsp0
    ensures FsReadable(CpuOf(s)) && Wrap(s.rsp + s.mem[s.pl.meta + FS_DIFF]) == s.rsp + Offset(s.pl)
  {
    SlotAddress(s.pl, s.rsp);
  }

  /** The wrapped address that instrumented code computes. */
  lemma SlotAddress(pl: Place, a: int)
    requires PlaceOk(pl) && pl.rsp0 - CALL_STACK_SIZE <= a < pl.rsp0 + MB && Aligned(a)
    ensures Wrap(a + Wrap(Offset(pl))) == a + Offset(pl)
    ensures pl.base <= a + Offset(pl) < pl.base + REGION_SIZE && Aligned(a + Offset(pl))
  {
    OffsetAligned(pl);
    AlignedSum(a, Offset(pl));
    WrappedOffset(Offset(pl), a);
  }

  lemma WrappedOffset(offset: int, a: int)
    requires IsWord(a + offset)
    ensures Wrap(a + Wrap(offset)) == a + offset
  {
    WrapSum(offset, a);
  }

  function After(s: Machine, e: Step, msr: bool): Machine
    requires Live(s, msr) && Enabled(s, e, msr)
  {
    match e
    case Env(m) => s.(mem := m)
    case Adjust(keep, rsp) => s.(rsp := rsp, frames := s.frames[..keep])
    case Prologue =>
      LiveReadable(s, msr);
      s.(mem := FsProtected(CpuOf(s), msr).mem, frames := s.frames + [Frame(s.rsp, s.mem[s.rsp])])
    case Epilogue =>
      LiveReadable(s, msr);
      s.(rsp := s.rsp + 8, frames := s.frames[..|s.frames| - 1], trace := s.trace + [FsTarget(CpuOf(s), msr)])
    case Rekey(now, delta, ratio) =>
      s.(mem := Finished(Shaken(s, now, delta, ratio, msr), s.pl.meta))
    case RekeyAndMove(now, delta, to) =>
      ShakenOk(s, now, delta, DEFAULT_RATIO, msr);
      MovedTo(s, Shaken(s, now, delta, DEFAULT_RATIO, msr), to)
  }

  /** The thread once memory `m` has been switched to the place `to`. */
  function MovedTo(s: Machine, m: Mem, to: Place): Machine
    requires ThreadOk(m, s.pl) && CanReserve(m, s.pl, to)
  {
    ReservedOk(m, s.pl, to);
    s.(mem := Finished(Switched(Reserved(m, to), s.pl, to, true), to.meta), pl := to)
  }

  lemma ShakenOk(s: Machine, now: int, delta: int, ratio: int, msr: bool)
    requires Live(s, msr)
    ensures ThreadOk(Shaken(s, now, delta, ratio, msr), s.pl)
    ensures Holds(Shaken(s, now, delta, ratio, msr), Offset(s.pl),
                  FsKey(msr, s.pl.meta, Shaken(s, now, delta, ratio, msr)), s.frames)
  {
    var m := Attempted(s.mem, s.pl, s.rsp, now, delta, msr);
    AttemptedHolds(s, now, delta, msr);
    FieldWritten(m, s.pl, RATIO_FACTOR, ratio);
    SlotsWider(s.frames, s.rsp, s.pl.rsp0, s.pl.rsp0 - CALL_STACK_SIZE, s.pl.rsp0 + MB);
    PageWriteHolds(m, s.pl, FsKey(msr, s.pl.meta, m), s.frames, s.pl.meta + RATIO_FACTOR, ratio);
  }

  lemma AttemptedHolds(s: Machine, now: int, delta: int, msr: bool)
    requires Live(s, msr)
    ensures var m := Attempted(s.mem, s.pl, s.rsp, now, delta, msr);
            ThreadOk(m, s.pl) && Holds(m, Offset(s.pl), FsKey(msr, s.pl.meta, m), s.frames)
  {
    hide Mapped, Rekeyed, Holds;
    var m := Entered(s.mem, s.pl.meta, now);
    EnteredOk(s.mem, s.pl, now);
    EnteredHolds(s, now, FsKey(msr, s.pl.meta, s.mem));
    if msr {
      RekeyedOk(m, s.pl, s.rsp, delta);
      RekeyedHolds(m, s.pl, s.rsp, delta, s.frames);
    }
  }

  lemma EnteredHolds(s: Machine, now: int, key: int)
    requires PlaceOk(s.pl) && SlotsWithin(s.frames, s.rsp, s.pl.rsp0) && s.pl.top - CALL_STACK_SIZE <= s.rsp
    requires Holds(s.mem, Offset(s.pl), key, s.frames)
    ensures Holds(Entered(s.mem, s.pl.meta, now), Offset(s.pl), key, s.frames)
  {
    SlotsWider(s.frames, s.rsp, s.pl.rsp0, s.pl.rsp0 - CALL_STACK_SIZE, s.pl.rsp0 + MB);
    PageWriteHolds(s.mem, s.pl, key, s.frames, s.pl.meta + IS_RANDOMIZING, 1);
    PageWriteHolds(s.mem[s.pl.meta + IS_RANDOMIZING := 1], s.pl, key, s.frames, s.pl.meta + CPU_CYCLES, now);
  }

  lemma FinishedHolds(m: Mem, pl: Place, key: int, frames: seq<Frame>)
    requires ThreadOk(m, pl) && Holds(m, Offset(pl), key, frames)
    requires SlotsWithin(frames, pl.rsp0 - CALL_STACK_SIZE, pl.rsp0 + MB)
    ensures ThreadOk(Finished(m, pl.meta), pl) && Holds(Finished(m, pl.meta), Offset(pl), key, frames)
    ensures Finished(m, pl.meta)[pl.meta + FS_R] == m[pl.meta + FS_R]
  {
    FieldWritten(m, pl, IS_RANDOMIZING, 0);
    PageWriteHolds(m, pl, key, frames, pl.meta + IS_RANDOMIZING, 0);
  }

  lemma RekeyLive(s: Machine, now: int, delta: int, ratio: int, msr: bool)
    requires Live(s, msr) && Enabled(s, Rekey(now, delta, ratio), msr)
    ensures Live(After(s, Rekey(now, delta, ratio), msr), msr)
  {
    hide Mapped;
    ShakenOk(s, now, delta, ratio, msr);
    SlotsWider(s.frames, s.rsp, s.pl.rsp0, s.pl.rsp0 - CALL_STACK_SIZE, s.pl.rsp0 + MB);
    var m := Shaken(s, now, delta, ratio, msr);
    FinishedHolds(m, s.pl, FsKey(msr, s.pl.meta, m), s.frames);
  }

  lemma RekeyAndMoveLive(s: Machine, now: int, delta: int, to: Place, msr: bool)
    requires Live(s, msr) && Enabled(s, RekeyAndMove(now, delta, to), msr)
    ensures Live(After(s, RekeyAndMove(now, delta, to), msr), msr)
  {
    ShakenOk(s, now, delta, DEFAULT_RATIO, msr);
    MovedLive(s, Shaken(s, now, delta, DEFAULT_RATIO, msr), to, msr);
  }

  lemma MovedLive(s: Machine, m: Mem, to: Place, msr: bool)
    requires Shape(s) && ThreadOk(m, s.pl) && CanReserve(m, s.pl, to)
    requires Holds(m, Offset(s.pl), FsKey(msr, s.pl.meta, m), s.frames)
    ensures s.pl.meta + FS_DIFF in Reserved(m, to)
    ensures Live(s.(mem := Finished(Switched(Reserved(m, to), s.pl, to, true), to.meta), pl := to), msr)
  {
    hide Carried, Zeroed, Dropped;
    var key := FsKey(msr, s.pl.meta, m);
    SlotsWider(s.frames, s.rsp, s.pl.rsp0, s.pl.rsp0 - CALL_STACK_SIZE, s.pl.rsp0 + MB);
    MoveKeepsThread(m, s.pl, to, key, s.frames);
    FinishedHolds(Switched(Reserved(m, to), s.pl, to, true), to, key, s.frames);
  }

  lemma PrologueLive(s: Machine, msr: bool)
    requires Live(s, msr) && Enabled(s, Prologue, msr)
    ensures Live(After(s, Prologue, msr), msr)
  {
    hide After, Mapped;
    var f, key := Frame(s.rsp, s.mem[s.rsp]), FsKey(msr, s.pl.meta, s.mem);
    LiveReadable(s, msr);
    SlotAddress(s.pl, s.rsp);
    RegionWriteOk(s.mem, s.pl, s.rsp + Offset(s.pl), Wrap(f.saved + key));
    PushShape(s, f);
    PushHolds(s.mem, Offset(s.pl), key, s.frames, f);
    PrologueIs(s, msr, f, key);
  }

  lemma PushShape(s: Machine, f: Frame)
    requires Shape(s) && f.slot == s.rsp < s.pl.rsp0 && s.rsp < Ceiling(s, |s.frames|) && IsWord(f.saved)
    ensures Shape(s.(frames := s.frames + [f]))
  {
    PushNested(s.frames, f);
  }

  lemma PrologueIs(s: Machine, msr: bool, f: Frame, key: int)
    requires Live(s, msr) && Enabled(s, Prologue, msr)
    requires f == Frame(s.rsp, s.mem[s.rsp]) && key == FsKey(msr, s.pl.meta, s.mem)
    ensures After(s, Prologue, msr)
         == s.(mem := s.mem[s.rsp + Offset(s.pl) := Wrap(f.saved + key)], frames := s.frames + [f])
  {
    LiveReadable(s, msr);
  }

  lemma PushNested(frames: seq<Frame>, f: Frame)
    requires Nested(frames) && (frames != [] ==> f.slot < frames[|frames| - 1].slot)
    ensures Nested(frames + [f])
  {
  }

  lemma RegionWriteOk(m: Mem, pl: Place, a: int, v: int)
    requires ThreadOk(m, pl) && pl.base <= a < pl.base + REGION_SIZE
    ensures ThreadOk(m[a := v], pl) && m[a := v][pl.meta + FS_R] == m[pl.meta + FS_R]
  {
  }

  lemma AdjustLive(s: Machine, keep: nat, rsp: int, msr: bool)
    requires Live(s, msr) && Enabled(s, Adjust(keep, rsp), msr)
    ensures Live(After(s, Adjust(keep, rsp), msr), msr)
  {
    PopLive(s, keep, rsp, s.trace, msr);
  }

  lemma PopLive(s: Machine, keep: nat, rsp: int, trace: seq<int>, msr: bool)
    requires Live(s, msr) && keep <= |s.frames| && Aligned(rsp)
    requires s.pl.top - CALL_STACK_SIZE <= rsp <= Ceiling(s, keep)
    ensures Live(s.(rsp := rsp, frames := s.frames[..keep], trace := trace), msr)
  {
    PopShape(s, keep, rsp);
  }

  lemma PopShape(s: Machine, keep: nat, rsp: int)
    requires Shape(s) && keep <= |s.frames| && s.pl.top - CALL_STACK_SIZE <= rsp <= Ceiling(s, keep) && Aligned(rsp)
    ensures Shape(s.(rsp := rsp, frames := s.frames[..keep]))
  {
    forall i | 0 <= i < keep
      ensures rsp <= s.frames[i].slot
    {
      assert i < keep - 1 ==> s.frames[keep - 1].slot < s.frames[i].slot;
    }
  }

  lemma EpilogueLive(s: Machine, msr: bool)
    requires Live(s, msr) && Enabled(s, Epilogue, msr)
    ensures Live(After(s, Epilogue, msr), msr)
  {
    hide After;
    PopRoom(s);
    EpilogueIs(s, msr);
    PopLive(s, |s.frames| - 1, s.rsp + 8, s.trace + [FsTarget(CpuOf(s), msr)], msr);
  }

  lemma EpilogueIs(s: Machine, msr: bool)
    requires Live(s, msr) && Enabled(s, Epilogue, msr)
    ensures FsReadable(CpuOf(s))
    ensures After(s, Epilogue, msr)
         == s.(rsp := s.rsp + 8, frames := s.frames[..|s.frames| - 1], trace := s.trace + [FsTarget(CpuOf(s), msr)])
  {
    hide FsTarget, FsProtected, Shaken, Switched, Reserved, Finished;
    LiveReadable(s, msr);
  }

  lemma PopRoom(s: Machine)
    requires Shape(s) && s.frames != [] && s.rsp == s.frames[|s.frames| - 1].slot
    ensures s.pl.top - CALL_STACK_SIZE <= s.rsp + 8 <= Ceiling(s, |s.frames| - 1) && Aligned(s.rsp + 8)
  {
    AlignedSum(s.rsp, 8);
    var keep := |s.frames| - 1;
    if keep > 0 {
      assert s.frames[keep].slot < s.frames[keep - 1].slot;
    }
  }

  lemma EnvLive(s: Machine, m: Mem, msr: bool)
    requires Live(s, msr) && Enabled(s, Env(m), msr)
    ensures Live(s.(mem := m), msr)
  {
    KeptHolds(s.mem, m, Offset(s.pl), FsKey(msr, s.pl.meta, s.mem), s.frames, s.pl.base, s.pl.base + REGION_SIZE);
  }

  lemma StepLive(s: Machine, e: Step, msr: bool)
    requires Live(s, msr) && Enabled(s, e, msr)
    ensures Live(After(s, e, msr), msr)
  {
    match e
    case Env(m) => EnvLive(s, m, msr);
    case Adjust(keep, rsp) => AdjustLive(s, keep, rsp, msr);
    case Prologue => PrologueLive(s, msr);
    case Epilogue => EpilogueLive(s, msr);
    case Rekey(now, delta, ratio) => RekeyLive(s, now, delta, ratio, msr);
    case RekeyAndMove(now, delta, to) => RekeyAndMoveLive(s, now, delta, to, msr);
  }

  predicate StepAt(states: seq<Machine>, steps: seq<Step>, i: nat, msr: bool)
    requires |states| == |steps| + 1 && i < |steps|
  {
    Live(states[i], msr) ==> Enabled(states[i], steps[i], msr) && states[i + 1] == After(states[i], steps[i], msr)
  }

  /** A run through `states`, by `steps`, from a live state; all its states are (RunKeepsLive). */
  predicate IsRun(states: seq<Machine>, steps: seq<Step>, msr: bool) {
    |states| == |steps| + 1 && Live(states[0], msr) && forall i :: 0 <= i < |steps| ==> StepAt(states, steps, i, msr)
  }

  lemma {:induction false} RunKeepsLive(states: seq<Machine>, steps: seq<Step>, i: nat, msr: bool)
    requires IsRun(states, steps, msr) && i <= |steps|
    ensures Live(states[i], msr)
  {
    hide Live, Enabled, After;
    if i > 0 {
      RunKeepsLive(states, steps, i - 1, msr);
      assert StepAt(states, steps, i - 1, msr);
      StepLive(states[i - 1], steps[i - 1], msr);
    }
  }

  /** The innermost frame's return slot is on top of the stack. */
  predicate AtReturn(s: Machine) {
    s.frames != [] && s.rsp == s.frames[|s.frames| - 1].slot
  }

  /** Through any run of calls, returns, key shifts and moves, running the compiled epilogue
      of the innermost frame jumps to the address recorded for it. */
  lemma RunReturns(states: seq<Machine>, steps: seq<Step>, j: nat, msr: bool, c: Asm.Cpu)
    requires IsRun(states, steps, msr) && j <= |steps| && Runs(c, states[j])
    ensures Live(states[j], msr)
    ensures var s := states[j];
            AtReturn(s) ==> JumpsTo(Asm.Run(FsEpilogue(msr), c), s.frames[|s.frames| - 1].saved)
  {
    hide Live, JumpsTo, StepAt;
    RunKeepsLive(states, steps, j, msr);
    if AtReturn(states[j]) {
      EpilogueJumps(states[j], msr, c);
    }
  }

  /** `f` is the live frame at depth `d`. */
  predicate LiveAt(s: Machine, d: nat, f: Frame) {
    d < |s.frames| && s.frames[d] == f
  }

  /** The step pushes the frame `f`: what is on top of the stack, at rsp. */
  predicate Pushes(s: Machine, e: Step, f: Frame) {
    e.Prologue? && s.rsp in s.mem && f == Frame(s.rsp, s.mem[s.rsp])
  }

  lemma FrameStep(s: Machine, e: Step, d: nat, f: Frame, msr: bool)
    requires Live(s, msr) && Enabled(s, e, msr) && LiveAt(After(s, e, msr), d, f)
    ensures LiveAt(s, d, f) || Pushes(s, e, f)
  {
  }

  /** A frame that was not live at the start was pushed by one step and has been live, at its
      depth, ever since. */
  lemma {:induction false} FrameOrigin(states: seq<Machine>, steps: seq<Step>, j: nat, d: nat, f: Frame, msr: bool)
      returns (i: nat)
    requires IsRun(states, steps, msr) && j <= |steps| && LiveAt(states[j], d, f) && !LiveAt(states[0], d, f)
    ensures i < j && Pushes(states[i], steps[i], f)
    ensures forall k :: i < k <= j ==> LiveAt(states[k], d, f)
  {
    hide Live, Enabled, After;
    RunKeepsLive(states, steps, j - 1, msr);
    assert StepAt(states, steps, j - 1, msr);
    FrameStep(states[j - 1], steps[j - 1], d, f, msr);
    if LiveAt(states[j - 1], d, f) {
      i := FrameOrigin(states, steps, j - 1, d, f, msr);
    } else {
      i := j - 1;
    }
  }

  /** Return correctness, for runs that start without frames: whatever ran in between, the
      compiled epilogue jumps to the address that was in its frame's slot when that frame's
      prologue ran. */
  lemma EpilogueReturns(states: seq<Machine>, steps: seq<Step>, j: nat, msr: bool, c: Asm.Cpu)
      returns (i: nat, f: Frame)
    requires IsRun(states, steps, msr) && states[0].frames == [] && j <= |steps|
    requires AtReturn(states[j]) && Runs(c, states[j])
    ensures i < j && Pushes(states[i], steps[i], f) && states[i].rsp == states[j].rsp
    ensures forall k :: i < k <= j ==> LiveAt(states[k], |states[j].frames| - 1, f)
    ensures JumpsTo(Asm.Run(FsEpilogue(msr), c), f.saved)
  {
    hide Live, JumpsTo, StepAt;
    RunReturns(states, steps, j, msr, c);
    f := states[j].frames[|states[j].frames| - 1];
    i := FrameOrigin(states, steps, j, |states[j].frames| - 1, f, msr);
  }

  /** A run of a thread from its initialisation on. */
  predicate StartedRun(m: Mem, pl: Place, key: int, states: seq<Machine>, steps: seq<Step>, msr: bool) {
    && PlaceOk(pl) && IsWord(key) && pl.top - CALL_STACK_SIZE <= pl.rsp0
    && Mapped(m, pl.meta, pl.meta + META_SIZE) && Mapped(m, pl.base, pl.base + REGION_SIZE)
    && |states| == |steps| + 1 && states[0] == Machine(Initialised(m, pl, key), pl, pl.rsp0, [], [])
    && forall n :: 0 <= n < |steps| ==> StepAt(states, steps, n, msr)
  }

  /** The same from the initialisation of a thread on. */
  lemma StartedRunReturns(m: Mem, pl: Place, key: int, states: seq<Machine>, steps: seq<Step>, j: nat, msr: bool,
                          c: Asm.Cpu)
      returns (i: nat, f: Frame)
    requires StartedRun(m, pl, key, states, steps, msr) && j <= |steps|
    requires AtReturn(states[j]) && Runs(c, states[j])
    ensures i < j && Pushes(states[i], steps[i], f) && states[i].rsp == states[j].rsp
    ensures forall n :: i < n <= j ==> LiveAt(states[n], |states[j].frames| - 1, f)
    ensures JumpsTo(Asm.Run(FsEpilogue(msr), c), f.saved)
  {
    hide Initialised, Live, StepAt, JumpsTo;
    InitialisedLive(m, pl, key, msr);
    i, f := EpilogueReturns(states, steps, j, msr, c);
  }

  predicate JumpsTo(o: Asm.Outcome, target: int) {
    o.Jump? && o.target == target
  }

  lemma EpilogueJumps(s: Machine, msr: bool, c: Asm.Cpu)
    requires Live(s, msr) && Runs(c, s) && s.frames != [] && s.rsp == s.frames[|s.frames| - 1].slot
    ensures JumpsTo(Asm.Run(FsEpilogue(msr), c), s.frames[|s.frames| - 1].saved)
  {
    TargetIsSaved(s, msr);
    FsEpilogueRuns(c, msr);
  }

  /** The compiled prologue does the step that protects a frame. */
  lemma PrologueCode(s: Machine, msr: bool, c: Asm.Cpu)
    requires Live(s, msr) && Enabled(s, Prologue, msr) && Runs(c, s)
    ensures var o := Asm.Run(FsPrologue(msr), c);
            o.Next? && o.cpu.rsp == s.rsp && o.cpu.mem == After(s, Prologue, msr).mem
  {
    hide ThreadOk;
    LiveReadable(s, msr);
    FsPrologueRuns(c, msr);
  }

  lemma TargetIsSaved(s: Machine, msr: bool)
    requires Live(s, msr) && s.frames != [] && s.rsp == s.frames[|s.frames| - 1].slot
    ensures FsReadable(CpuOf(s)) && s.rsp < s.pl.rsp0
    ensures IsWord(s.mem[Wrap(s.rsp + s.mem[s.pl.meta + FS_DIFF])])
    ensures FsTarget(CpuOf(s), msr) == s.frames[|s.frames| - 1].saved
  {
    var f := s.frames[|s.frames| - 1];
    LiveReadable(s, msr);
    assert Decodes(s.mem, Offset(s.pl), FsKey(msr, s.pl.meta, s.mem), f);
    WrapSum(f.saved + FsKey(msr, s.pl.meta, s.mem), -FsKey(msr, s.pl.meta, s.mem));
  }
}
