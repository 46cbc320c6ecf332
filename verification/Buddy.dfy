/** The buddy scheme (buddy_tls.c, simd_rand.c): four stacks' worth of memory below a
    thread's top hold its call stack, its shadow stack and a pair of records with its key. */
module Buddy {
  import opened Words
  import opened Spa
  import opened Memory
  import opened ShadowStack
  import opened Templates

  /** Offsets in struct Buddy_TLS_Info. */
  const RANDOM_VAL: int := 0
  const STACK_TOP: int := 8
  const BUDDY_INFO: int := 16
  const IS_RANDOMIZING: int := 24
  const TLS_CPU_CYCLES: int := 32
  const TLS_INFO_SIZE: int := 40

  // ------------------------------------------------------------------- Geometry

  /** A stack size of 2^k bytes, and the page-aligned top of a thread's memory. */
  predicate Geometry(top: int, k: nat) {
    12 <= k < 45 && top % PAGE_SIZE == 0 && 5 * Pow2(k) <= top < USER_SPACE_SIZE
  }

  function Near(top: int, k: nat): int {
    RecordOf(top, Pow2(k))
  }

  /** The other record, one stack size below. */
  function Far(top: int, k: nat): int {
    Near(top, k) - Pow2(k)
  }

  /** A size of at least a page is a multiple of it. */
  lemma PageDivides(k: nat)
    requires 12 <= k
    ensures PAGE_SIZE <= Pow2(k) && Pow2(k) % PAGE_SIZE == 0
  {
    assert Pow2(6) == 64;
    Pow2Sum(6, 6);
    Pow2Splits(12, k);
  }

  /** A multiple of 2^k stays one when reduced by its remainder, and remains page-aligned. */
  lemma AlignedParts(x: int, k: nat)
    requires 12 <= k && x % PAGE_SIZE == 0
    ensures x % Pow2(k) % PAGE_SIZE == 0
  {
    PageDivides(k);
    var S := Pow2(k);
    var q := S / PAGE_SIZE;
    assert S == PAGE_SIZE * q;
    assert x == S * (x / S) + x % S;
    ScaledMod(x % S, PAGE_SIZE, q * (x / S));
    assert PAGE_SIZE * (q * (x / S)) == S * (x / S);
  }

  lemma {:induction false} ScaledMod(r: int, d: int, n: int)
    requires d > 0
    ensures (r + d * n) % d == r % d
    decreases if n < 0 then -n else n
  {
    DivUnique(r + d * n, d, r / d + n, r % d);
  }

  /** For every rsp of the call stack, masking finds one of the two records: the near one
      exactly when rsp is not below the last multiple of the stack size. */
  lemma RecordFound(top: int, k: nat, rsp: int)
    requires Geometry(top, k) && top - Pow2(k) <= rsp < top
    ensures RecordOf(rsp, Pow2(k)) == if rsp >= top - top % Pow2(k) then Near(top, k) else Far(top, k)
  {
    RoundedDown(top, Pow2(k), rsp);
  }

  /** Of the S addresses below `top`, each rounds down to one of two multiples of S. */
  lemma RoundedDown(top: int, S: int, a: int)
    requires S > 0 && top - S <= a < top
    ensures a - a % S == if a >= top - top % S then top - top % S else top - top % S - S
  {
    var q := top / S;
    assert top - top % S == S * q && S * (q - 1) == S * q - S;
    if a >= S * q {
      DivUnique(a, S, q, a - S * q);
    } else {
      DivUnique(a, S, q - 1, a - S * (q - 1));
    }
  }

  /** Both record pages lie in the thread's memory, apart from each other, and below every
      shadow slot of a call stack whose lowest page is the guard page. */
  lemma RecordsInside(top: int, k: nat)
    requires Geometry(top, k)
    ensures top - 4 * Pow2(k) < Far(top, k) && Far(top, k) + PAGE_SIZE <= Near(top, k)
    ensures Near(top, k) + PAGE_SIZE <= top - 2 * Pow2(k) + PAGE_SIZE <= top - Pow2(k)
    ensures Near(top, k) % PAGE_SIZE == 0 && Far(top, k) % PAGE_SIZE == 0
    ensures Pow2(k) % PAGE_SIZE == 0 && PAGE_SIZE <= Pow2(k)
  {
    PageDivides(k);
    AlignedParts(top, k);
    Multiples(top, top % Pow2(k), PAGE_SIZE);
    Multiples(top - top % Pow2(k), Pow2(k), PAGE_SIZE);
    Multiples(top - top % Pow2(k) - Pow2(k), Pow2(k), PAGE_SIZE);
    Multiples(Near(top, k), Pow2(k), PAGE_SIZE);
  }

  lemma Multiples(a: int, b: int, d: int)
    requires d > 0 && a % d == 0 && b % d == 0
    ensures (a - b) % d == 0
  {
    assert a == d * (a / d) && b == d * (b / d);
    assert d * (a / d - b / d) == d * (a / d) - d * (b / d);
    DivUnique(a - b, d, a / d - b / d, 0);
  }

  /** Without the guard page, a shadow slot of the call stack falls on a record exactly
      when the top is a multiple of the stack size. */
  lemma GuardPageNeeded(top: int, k: nat)
    requires Geometry(top, k)
    ensures (exists a :: OnRecord(top, k, a)) <==> top % Pow2(k) == 0
  {
    hide Pow2;
    RecordsInside(top, k);
    AlignedParts(top, k);
    if top % Pow2(k) == 0 {
      assert OnRecord(top, k, top - Pow2(k));
    }
  }

  /** `a` is a return slot of the call stack whose shadow slot is a word of a record. */
  predicate OnRecord(top: int, k: nat, a: int) {
    && top - Pow2(k) <= a < top
    && (Near(top, k) <= a - Pow2(k) < Near(top, k) + TLS_INFO_SIZE
        || Far(top, k) <= a - Pow2(k) < Far(top, k) + TLS_INFO_SIZE)
  }

  // ----------------------------------------------------------------- The records

  predicate RecordMapped(m: Mem, rec: int) {
    && rec + RANDOM_VAL in m && rec + STACK_TOP in m && rec + BUDDY_INFO in m
    && rec + IS_RANDOMIZING in m && rec + TLS_CPU_CYCLES in m
  }

  /** A record of the thread with this top, whose buddy is at `buddy`. */
  predicate RecordOk(m: Mem, rec: int, top: int, buddy: int) {
    && RecordMapped(m, rec) && IsWord(m[rec + RANDOM_VAL])
    && m[rec + STACK_TOP] == top && m[rec + BUDDY_INFO] == buddy && m[rec + IS_RANDOMIZING] == 0
  }

  /** What the runtime keeps true between its calls: in particular, the records agree. */
  predicate ThreadOk(m: Mem, top: int, k: nat) {
    && Geometry(top, k) && Mapped(m, top - 4 * Pow2(k), top)
    && RecordOk(m, Near(top, k), top, Far(top, k)) && RecordOk(m, Far(top, k), top, Near(top, k))
    && m[Near(top, k) + RANDOM_VAL] == m[Far(top, k) + RANDOM_VAL]
  }

  /** Both records hold the same cycle count. */
  predicate Stamped(m: Mem, top: int, k: nat, cycles: int) {
    && Near(top, k) + TLS_CPU_CYCLES in m && m[Near(top, k) + TLS_CPU_CYCLES] == cycles
    && Far(top, k) + TLS_CPU_CYCLES in m && m[Far(top, k) + TLS_CPU_CYCLES] == cycles
  }

  function Key(m: Mem, top: int, k: nat): int
    requires ThreadOk(m, top, k)
  {
    m[Near(top, k) + RANDOM_VAL]
  }

  /** One record as buddy_init_tls_metadata writes it. */
  function RecordSet(m: Mem, rec: int, random: int, top: int, buddy: int): Mem {
    m[rec + RANDOM_VAL := random][rec + STACK_TOP := top][rec + BUDDY_INFO := buddy]
     [rec + TLS_CPU_CYCLES := 0][rec + IS_RANDOMIZING := 0]
  }

  /** Both records written. */
  function Initialised(m: Mem, top: int, k: nat, random: int): Mem {
    RecordSet(RecordSet(m, Near(top, k), random, top, Far(top, k)), Far(top, k), random, top, Near(top, k))
  }

  lemma RecordSetOk(m: Mem, rec: int, random: int, top: int, buddy: int)
    requires IsWord(random)
    ensures RecordOk(RecordSet(m, rec, random, top, buddy), rec, top, buddy)
    ensures RecordSet(m, rec, random, top, buddy)[rec + RANDOM_VAL] == random
    ensures RecordSet(m, rec, random, top, buddy)[rec + TLS_CPU_CYCLES] == 0
  {
  }

  lemma RecordSetWithin(m: Mem, rec: int, random: int, top: int, buddy: int)
    ensures OnlyWithin(m, RecordSet(m, rec, random, top, buddy), rec, rec + TLS_INFO_SIZE)
    ensures NothingUnmapped(m, RecordSet(m, rec, random, top, buddy))
  {
  }

  lemma RecordKept(m: Mem, m': Mem, rec: int, top: int, buddy: int)
    requires RecordOk(m, rec, top, buddy) && Kept(m, m', rec, rec + TLS_INFO_SIZE)
    ensures RecordOk(m', rec, top, buddy) && m'[rec + RANDOM_VAL] == m[rec + RANDOM_VAL]
    ensures m'[rec + TLS_CPU_CYCLES] == m[rec + TLS_CPU_CYCLES]
  {
  }

  /** Writing one record leaves the other alone. */
  lemma InitialisedOk(m: Mem, top: int, k: nat, random: int)
    requires Geometry(top, k) && Mapped(m, top - 4 * Pow2(k), top) && IsWord(random)
    ensures ThreadOk(Initialised(m, top, k, random), top, k)
    ensures Key(Initialised(m, top, k, random), top, k) == random
    ensures Stamped(Initialised(m, top, k, random), top, k, 0)
  {
    hide Geometry, RecordSet;
    var near, far := Near(top, k), Far(top, k);
    var m1 := RecordSet(m, near, random, top, far);
    var m2 := RecordSet(m1, far, random, top, near);
    RecordsInside(top, k);
    RecordSetOk(m, near, random, top, far);
    RecordSetOk(m1, far, random, top, near);
    RecordSetWithin(m, near, random, top, far);
    RecordSetWithin(m1, far, random, top, near);
    RecordKept(m1, m2, near, top, far);
  }

  // ------------------------------------------------------------- Re-randomization

  /** The caller's record as the change begins. */
  function Begun(m: Mem, tls: int, r: int, cycles: int): Mem
    requires tls + RANDOM_VAL in m
  {
    m[tls + IS_RANDOMIZING := 1][tls + RANDOM_VAL := Wrap(m[tls + RANDOM_VAL] + r)][tls + TLS_CPU_CYCLES := cycles]
  }

  /** The buddy record, changed in one go. */
  function Followed(m: Mem, buddy: int, r: int, cycles: int): Mem
    requires buddy + RANDOM_VAL in m
  {
    m[buddy + IS_RANDOMIZING := 1][buddy + RANDOM_VAL := Wrap(m[buddy + RANDOM_VAL] + r)]
     [buddy + TLS_CPU_CYCLES := cycles][buddy + IS_RANDOMIZING := 0]
  }

  /** Both records changed. */
  function Changed(m: Mem, tls: int, buddy: int, r: int, cycles: int): Mem
    requires tls + RANDOM_VAL in m && buddy + RANDOM_VAL in m
  {
    Followed(Begun(m, tls, r, cycles), buddy, r, cycles)
  }

  function Ended(m: Mem, tls: int): Mem {
    m[tls + IS_RANDOMIZING := 0]
  }

  /** The first word that the four-lane loop shifts. */
  function ShiftFrom(rsp: int, k: nat): int {
    rsp - Pow2(k) - (rsp - Pow2(k)) % 32
  }

  /** au_edu_unsw_randomize at `rsp`, for the record `tls` and its buddy. */
  function Rekeyed(m: Mem, tls: int, buddy: int, top: int, k: nat, rsp: int, r: int, cycles: int): Mem
    requires tls + RANDOM_VAL in m && buddy + RANDOM_VAL in m
  {
    Ended(Shifted(Changed(m, tls, buddy, r, cycles), ShiftFrom(rsp, k), top - Pow2(k), r), tls)
  }

  /** rsp is above the guard page: the loop starts in the shadow stack, above the records,
      and at or below the shadow slot of rsp. */
  lemma ShiftFromInShadow(top: int, k: nat, rsp: int)
    requires Geometry(top, k) && top - Pow2(k) + PAGE_SIZE <= rsp <= top && Aligned(rsp)
    ensures Near(top, k) + PAGE_SIZE <= ShiftFrom(rsp, k) <= rsp - Pow2(k) && ShiftFrom(rsp, k) % 32 == 0
    ensures (top - Pow2(k)) % 32 == 0 && IsWord(rsp - Pow2(k))
  {
    hide Pow2;
    ShadowPages(top, k);
    RoundedToBlock(top - 2 * Pow2(k) + PAGE_SIZE, rsp - Pow2(k));
    RoundedToBlock(top - Pow2(k), rsp - Pow2(k));
  }

  lemma ShadowPages(top: int, k: nat)
    requires Geometry(top, k)
    ensures (top - Pow2(k)) % PAGE_SIZE == 0 && (top - 2 * Pow2(k) + PAGE_SIZE) % PAGE_SIZE == 0
    ensures Near(top, k) + PAGE_SIZE <= top - 2 * Pow2(k) + PAGE_SIZE <= top - Pow2(k)
  {
    RecordsInside(top, k);
    Multiples(top, Pow2(k), PAGE_SIZE);
    Multiples(top - Pow2(k), Pow2(k), PAGE_SIZE);
    assert top - Pow2(k) - Pow2(k) == top - 2 * Pow2(k);
    Multiples(top - 2 * Pow2(k), -PAGE_SIZE, PAGE_SIZE);
  }

  lemma RoundedToBlock(page: int, a: int)
    requires page % PAGE_SIZE == 0
    ensures page % 32 == 0 && (a - a % 32) % 32 == 0 && (page <= a ==> page <= a - a % 32)
  {
  }

  /** Only words of dead slots are shifted besides those of live ones. */
  lemma ShiftedExactlyOnce(m: Mem, top: int, k: nat, rsp: int, r: int, a: int)
    requires Geometry(top, k) && top - Pow2(k) + PAGE_SIZE <= rsp <= top && Aligned(rsp)
    requires a in m && Aligned(a)
    ensures var m' := Shifted(m, ShiftFrom(rsp, k), top - Pow2(k), r);
            && a in m'
            && (rsp <= a + Pow2(k) < top ==> m'[a] == Wrap(m[a] + r))
            && (m'[a] != m[a] ==> a + Pow2(k) < top && rsp - 32 < a + Pow2(k))
  {
    ShiftFromInShadow(top, k, rsp);
  }

  lemma BegunWithin(m: Mem, tls: int, r: int, cycles: int)
    requires RecordMapped(m, tls)
    ensures OnlyWithin(m, Begun(m, tls, r, cycles), tls, tls + TLS_INFO_SIZE)
    ensures NothingUnmapped(m, Begun(m, tls, r, cycles))
  {
  }

  lemma FollowedWithin(m: Mem, buddy: int, r: int, cycles: int)
    requires RecordMapped(m, buddy)
    ensures OnlyWithin(m, Followed(m, buddy, r, cycles), buddy, buddy + TLS_INFO_SIZE)
    ensures NothingUnmapped(m, Followed(m, buddy, r, cycles))
  {
  }

  /** The two records of a thread, in either order. */
  predicate Pair(top: int, k: nat, tls: int, buddy: int) {
    (tls == Near(top, k) && buddy == Far(top, k)) || (tls == Far(top, k) && buddy == Near(top, k))
  }

  lemma BegunRecord(m: Mem, tls: int, top: int, buddy: int, r: int, cycles: int)
    requires RecordOk(m, tls, top, buddy)
    ensures RecordOk(Ended(Begun(m, tls, r, cycles), tls), tls, top, buddy)
    ensures Begun(m, tls, r, cycles)[tls + RANDOM_VAL] == Wrap(m[tls + RANDOM_VAL] + r)
  {
  }

  lemma FollowedRecord(m: Mem, buddy: int, top: int, tls: int, r: int, cycles: int)
    requires RecordOk(m, buddy, top, tls)
    ensures RecordOk(Followed(m, buddy, r, cycles), buddy, top, tls)
    ensures Followed(m, buddy, r, cycles)[buddy + RANDOM_VAL] == Wrap(m[buddy + RANDOM_VAL] + r)
  {
  }

  /** Everything but the flag of `tls` is as in a record at rest. */
  predicate RecordBusy(m: Mem, rec: int, top: int, buddy: int, random: int) {
    && RecordMapped(m, rec) && IsWord(random) && m[rec + RANDOM_VAL] == random
    && m[rec + STACK_TOP] == top && m[rec + BUDDY_INFO] == buddy
  }

  lemma BusyKept(m: Mem, m': Mem, rec: int, top: int, buddy: int, random: int)
    requires RecordBusy(m, rec, top, buddy, random) && Kept(m, m', rec, rec + TLS_INFO_SIZE)
    ensures RecordBusy(m', rec, top, buddy, random)
  {
  }

  /** The records after both were changed, and after the shift: they agree again. */
  lemma RekeyedRecords(m: Mem, tls: int, buddy: int, top: int, k: nat, rsp: int, r: int, cycles: int)
    requires ThreadOk(m, top, k) && Pair(top, k, tls, buddy)
    requires top - Pow2(k) + PAGE_SIZE <= rsp <= top && Aligned(rsp)
    ensures var m' := Rekeyed(m, tls, buddy, top, k, rsp, r, cycles);
            && RecordOk(m', tls, top, buddy) && RecordOk(m', buddy, top, tls)
            && m'[tls + RANDOM_VAL] == m'[buddy + RANDOM_VAL] == Wrap(Key(m, top, k) + r)
  {
    hide Changed, Begun, Followed, Pow2;
    RecordsInside(top, k);
    ShiftFromInShadow(top, k, rsp);
    ChangedRecords(m, tls, buddy, top, Key(m, top, k), r, cycles);
    ShiftedRecords(Changed(m, tls, buddy, r, cycles), tls, buddy, top, Wrap(Key(m, top, k) + r),
                   ShiftFrom(rsp, k), top - Pow2(k), r);
  }

  lemma ChangedRecords(m: Mem, tls: int, buddy: int, top: int, key: int, r: int, cycles: int)
    requires RecordOk(m, tls, top, buddy) && RecordOk(m, buddy, top, tls)
    requires m[tls + RANDOM_VAL] == key == m[buddy + RANDOM_VAL]
    requires Apart(tls, tls + TLS_INFO_SIZE, buddy, buddy + TLS_INFO_SIZE)
    ensures var m2 := Changed(m, tls, buddy, r, cycles);
            && RecordBusy(m2, tls, top, buddy, Wrap(key + r))
            && RecordOk(m2, buddy, top, tls) && m2[buddy + RANDOM_VAL] == Wrap(key + r)
  {
    var m1 := Begun(m, tls, r, cycles);
    BegunRecord(m, tls, top, buddy, r, cycles);
    BegunWithin(m, tls, r, cycles);
    RecordKept(m, m1, buddy, top, tls);
    FollowedRecord(m1, buddy, top, tls, r, cycles);
    FollowedWithin(m1, buddy, r, cycles);
    BusyKept(m1, Followed(m1, buddy, r, cycles), tls, top, buddy, Wrap(key + r));
  }

  lemma ShiftedRecords(m: Mem, tls: int, buddy: int, top: int, key: int, lo: int, hi: int, r: int)
    requires RecordBusy(m, tls, top, buddy, key)
    requires RecordOk(m, buddy, top, tls) && m[buddy + RANDOM_VAL] == key
    requires tls + TLS_INFO_SIZE <= lo && buddy + TLS_INFO_SIZE <= lo
    requires Apart(tls, tls + TLS_INFO_SIZE, buddy, buddy + TLS_INFO_SIZE)
    ensures var m' := Ended(Shifted(m, lo, hi, r), tls);
            && RecordOk(m', tls, top, buddy) && RecordOk(m', buddy, top, tls)
            && m'[tls + RANDOM_VAL] == m'[buddy + RANDOM_VAL] == key
  {
    var m1 := Shifted(m, lo, hi, r);
    BusyKept(m, m1, tls, top, buddy, key);
    RecordKept(m, m1, buddy, top, tls);
    RecordKept(m1, Ended(m1, tls), buddy, top, tls);
  }

  lemma RekeyedMapped(m: Mem, tls: int, buddy: int, top: int, k: nat, rsp: int, r: int, cycles: int)
    requires tls + RANDOM_VAL in m && buddy + RANDOM_VAL in m
    ensures NothingUnmapped(m, Rekeyed(m, tls, buddy, top, k, rsp, r, cycles))
  {
  }

  /** The invariant survives a re-randomization, with both records shifted alike. */
  lemma RekeyedOk(m: Mem, tls: int, buddy: int, top: int, k: nat, rsp: int, r: int, cycles: int)
    requires ThreadOk(m, top, k) && Pair(top, k, tls, buddy)
    requires top - Pow2(k) + PAGE_SIZE <= rsp <= top && Aligned(rsp)
    ensures ThreadOk(Rekeyed(m, tls, buddy, top, k, rsp, r, cycles), top, k)
    ensures Key(Rekeyed(m, tls, buddy, top, k, rsp, r, cycles), top, k) == Wrap(Key(m, top, k) + r)
  {
    hide Rekeyed;
    RekeyedRecords(m, tls, buddy, top, k, rsp, r, cycles);
    RekeyedMapped(m, tls, buddy, top, k, rsp, r, cycles);
  }

  /** Both records hold the cycle count of the re-randomization. */
  lemma RekeyedStamps(m: Mem, tls: int, buddy: int, top: int, k: nat, rsp: int, r: int, cycles: int)
    requires ThreadOk(m, top, k) && Pair(top, k, tls, buddy)
    requires top - Pow2(k) + PAGE_SIZE <= rsp <= top && Aligned(rsp)
    ensures Stamped(Rekeyed(m, tls, buddy, top, k, rsp, r, cycles), top, k, cycles)
  {
    hide Pow2, Geometry, Near, Far;
    RecordsInside(top, k);
    ShiftFromInShadow(top, k, rsp);
    ChangedStamps(m, tls, buddy, r, cycles);
  }

  lemma ChangedStamps(m: Mem, tls: int, buddy: int, r: int, cycles: int)
    requires RecordMapped(m, tls) && RecordMapped(m, buddy)
    requires Apart(tls, tls + TLS_INFO_SIZE, buddy, buddy + TLS_INFO_SIZE)
    ensures var m' := Changed(m, tls, buddy, r, cycles);
            && tls + TLS_CPU_CYCLES in m' && m'[tls + TLS_CPU_CYCLES] == cycles
            && buddy + TLS_CPU_CYCLES in m' && m'[buddy + TLS_CPU_CYCLES] == cycles
  {
  }

  /** Records and shadow slots are apart, so a change of a record disturbs no frame. */
  lemma RecordWriteHolds(m: Mem, m': Mem, top: int, k: nat, key: int, frames: seq<Frame>, rec: int)
    requires Geometry(top, k) && (rec == Near(top, k) || rec == Far(top, k))
    requires OnlyWithin(m, m', rec, rec + TLS_INFO_SIZE)
    requires SlotsWithin(frames, top - Pow2(k) + PAGE_SIZE, top) && Holds(m, -Pow2(k), key, frames)
    ensures Holds(m', -Pow2(k), key, frames)
  {
    var S := Pow2(k);
    RecordsInside(top, k);
    ApartKept(m, m', rec, rec + TLS_INFO_SIZE, top - 2 * S + PAGE_SIZE, top - S);
    KeptHolds(m, m', -S, key, frames, top - 2 * S + PAGE_SIZE, top - S);
  }

  lemma EndedWithin(m: Mem, tls: int)
    ensures OnlyWithin(m, Ended(m, tls), tls, tls + TLS_INFO_SIZE)
  {
  }

  /** Additive re-keying: every live slot is shifted with both records. */
  lemma RekeyedHolds(m: Mem, tls: int, buddy: int, top: int, k: nat, rsp: int, r: int, cycles: int, frames: seq<Frame>)
    requires ThreadOk(m, top, k) && Pair(top, k, tls, buddy)
    requires top - Pow2(k) + PAGE_SIZE <= rsp <= top && Aligned(rsp)
    requires SlotsWithin(frames, rsp, top) && Holds(m, -Pow2(k), Key(m, top, k), frames)
    ensures Holds(Rekeyed(m, tls, buddy, top, k, rsp, r, cycles), -Pow2(k), Wrap(Key(m, top, k) + r), frames)
  {
    hide Changed, Begun, Followed, Geometry;
    SlotsWider(frames, rsp, top, top - Pow2(k) + PAGE_SIZE, top);
    ChangedHolds(m, tls, buddy, top, k, Key(m, top, k), r, cycles, frames);
    ShiftedHolds(Changed(m, tls, buddy, r, cycles), tls, buddy, top, k, Key(m, top, k), rsp, r, frames);
  }

  lemma ChangedHolds(m: Mem, tls: int, buddy: int, top: int, k: nat, key: int, r: int, cycles: int, frames: seq<Frame>)
    requires ThreadOk(m, top, k) && Pair(top, k, tls, buddy)
    requires SlotsWithin(frames, top - Pow2(k) + PAGE_SIZE, top) && Holds(m, -Pow2(k), key, frames)
    ensures Holds(Changed(m, tls, buddy, r, cycles), -Pow2(k), key, frames)
  {
    BegunWithin(m, tls, r, cycles);
    RecordWriteHolds(m, Begun(m, tls, r, cycles), top, k, key, frames, tls);
    BuddyStillMapped(m, tls, buddy, top, k, r, cycles);
    FollowedWithin(Begun(m, tls, r, cycles), buddy, r, cycles);
    RecordWriteHolds(Begun(m, tls, r, cycles), Followed(Begun(m, tls, r, cycles), buddy, r, cycles),
                     top, k, key, frames, buddy);
  }

  lemma ShiftedHolds(m: Mem, tls: int, buddy: int, top: int, k: nat, key: int, rsp: int, r: int, frames: seq<Frame>)
    requires Geometry(top, k) && Pair(top, k, tls, buddy)
    requires top - Pow2(k) + PAGE_SIZE <= rsp <= top && Aligned(rsp)
    requires SlotsWithin(frames, rsp, top) && SlotsWithin(frames, top - Pow2(k) + PAGE_SIZE, top)
    requires Holds(m, -Pow2(k), key, frames)
    ensures Holds(Ended(Shifted(m, ShiftFrom(rsp, k), top - Pow2(k), r), tls), -Pow2(k), Wrap(key + r), frames)
  {
    var m1 := Shifted(m, ShiftFrom(rsp, k), top - Pow2(k), r);
    LiveRangeShifted(m, top, k, key, rsp, r, frames);
    EndedWithin(m1, tls);
    RecordWriteHolds(m1, Ended(m1, tls), top, k, Wrap(key + r), frames, tls);
  }

  lemma BuddyStillMapped(m: Mem, tls: int, buddy: int, top: int, k: nat, r: int, cycles: int)
    requires ThreadOk(m, top, k) && Pair(top, k, tls, buddy)
    ensures RecordMapped(Begun(m, tls, r, cycles), buddy)
  {
  }

  lemma LiveRangeShifted(m: Mem, top: int, k: nat, key: int, rsp: int, r: int, frames: seq<Frame>)
    requires Geometry(top, k) && top - Pow2(k) + PAGE_SIZE <= rsp <= top && Aligned(rsp)
    requires SlotsWithin(frames, rsp, top) && Holds(m, -Pow2(k), key, frames)
    ensures Holds(Shifted(m, ShiftFrom(rsp, k), top - Pow2(k), r), -Pow2(k), Wrap(key + r), frames)
  {
    SizeAligned(k);
    SlotsWider(frames, rsp, top, ShiftFrom(rsp, k) + Pow2(k), top);
    ShiftHolds(m, -Pow2(k), key, frames, ShiftFrom(rsp, k), top - Pow2(k), r);
  }

  lemma SizeAligned(k: nat)
    requires 12 <= k
    ensures Aligned(-Pow2(k))
  {
    Pow2Splits(3, k);
    assert Pow2(3) == 8;
  }
}
