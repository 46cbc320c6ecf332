/** code_rewriter.py: every prologue and epilogue compiled for one stack size is patched in
    place to work with another. */
module CodeRewriter {
  import opened Words
  import opened Bytes

  datatype Kind = Pro | Epi

  /** prolog_pattern and epilog_pattern, as written for an 8MB stack. */
  function Base(k: Kind): Image {
    match k
    case Pro =>
      [0x49, 0x89, 0xe3]
      + [0x49, 0x81, 0xe3, 0x00, 0x00, 0x80, 0xff]
      + [0x4d, 0x8b, 0x9b, 0x00, 0x00, 0x00, 0xff]
      + [0x4c, 0x03, 0x1c, 0x24]
      + [0x4c, 0x89, 0x9c, 0x24, 0x00, 0x00, 0x80, 0xff]
    case Epi =>
      [0x49, 0x89, 0xe2]
      + [0x49, 0x81, 0xe2, 0x00, 0x00, 0x80, 0xff]
      + [0x4c, 0x8b, 0x9c, 0x24, 0x00, 0x00, 0x80, 0xff]
      + [0x4d, 0x2b, 0x9a, 0x00, 0x00, 0x00, 0xff]
      + [0x48, 0x83, 0xc4, 0x08]
      + [0x41, 0xff, 0xe3]
  }

  function Len(k: Kind): (n: nat)
    ensures n == |Base(k)|
  {
    match k
    case Pro => 29
    case Epi => 32
  }

  /** Where -x is encoded, twice, and where -2x is (prolog_indexes, epilog_indexes). */
  function First(k: Kind): nat {
    6
  }

  function Second(k: Kind): nat {
    if k == Pro then 25 else 14
  }

  function Double(k: Kind): nat {
    if k == Pro then 13 else 21
  }

  /** Byte `o` of the pattern for stack size `x`. */
  function PatByte(k: Kind, x: int, o: nat): byte
    requires o < Len(k)
  {
    if First(k) <= o < First(k) + 4 then LowBytes(-x, 4)[o - First(k)]
    else if Second(k) <= o < Second(k) + 4 then LowBytes(-x, 4)[o - Second(k)]
    else if Double(k) <= o < Double(k) + 4 then LowBytes(-2 * x, 4)[o - Double(k)]
    else Base(k)[o]
  }

  function Pat(k: Kind, x: int): (p: Image)
    ensures |p| == Len(k)
  {
    seq(Len(k), o requires 0 <= o < Len(k) => PatByte(k, x, o))
  }

  /** The image holds a prologue or epilogue for stack size `x` at `i`. */
  predicate Occurs(s: Image, i: nat, k: Kind, x: int) {
    MatchesAt(s, i, Pat(k, x))
  }

  /** A prologue for size `x` ends with the first `n` bytes of a pattern. */
  predicate EndsAsStart(x: int, k: Kind, n: nat)
    requires n <= 4
  {
    LowBytes(-x, 4)[4 - n..] == Base(k)[..n]
  }

  /** No prologue for this size ends with the start of a pattern. */
  predicate Unambiguous(x: int) {
    forall k: Kind, n: nat :: 1 <= n <= 4 ==> !EndsAsStart(x, k, n)
  }

  // ---------------------------------------------------------- Occurrences are apart

  lemma OccursByte(s: Image, i: nat, k: Kind, x: int, o: nat)
    requires Occurs(s, i, k, x) && o < Len(k)
    ensures i + o < |s| && s[i + o] == PatByte(k, x, o)
  {
    assert s[i..i + Len(k)][o] == Pat(k, x)[o];
  }

  /** Where an immediate stands. */
  predicate InHole(k: Kind, p: nat, o: nat) {
    (p == First(k) || p == Second(k) || p == Double(k)) && p <= o < p + 4
  }

  /** The first byte of a pattern is found in another only at 0, at 3 and in immediates. */
  lemma MarkerOffsets(k: Kind, x: int, o: nat)
    requires o < Len(k) && PatByte(k, x, o) == 0x49
    ensures o == 0 || o == 3 || InHole(k, First(k), o) || InHole(k, Second(k), o) || InHole(k, Double(k), o)
  {
    hide Len;
  }

  /** What follows an immediate is not found at the start of a pattern; only the second
      immediate of a prologue is followed by nothing. */
  lemma AfterHole(k: Kind, x: int, p: nat, k': Kind, n: nat)
    requires InHole(k, p, p) && 1 <= n <= 4 && !(k == Pro && p == Second(k))
    ensures p + 4 < Len(k) && PatByte(k, x, p + 4) != Base(k')[n]
  {
    hide Len, LowBytes;
  }

  /** A pattern that starts inside an occurrence starts in the last bytes of a prologue. */
  lemma OverlapAtEnd(s: Image, i: nat, k: Kind, x: int, j: nat, k': Kind, x': int)
    requires Occurs(s, i, k, x) && Occurs(s, j, k', x') && i < j < i + Len(k)
    ensures k == Pro && i + Second(k) <= j
  {
    hide Occurs, PatByte, Pat, Base;
    OccursByte(s, i, k, x, j - i);
    OccursByte(s, j, k', x', 0);
    StartBytes(k', x', 0);
    MarkerOffsets(k, x, j - i);
    if j == i + 3 {
      NotAtThree(s, i, k, x, k', x');
    } else if InHole(k, First(k), j - i) {
      NotInHole(s, i, k, x, First(k), j, k', x');
    } else if InHole(k, Double(k), j - i) {
      NotInHole(s, i, k, x, Double(k), j, k', x');
    } else if k == Epi {
      NotInHole(s, i, k, x, Second(k), j, k', x');
    }
  }

  lemma StartBytes(k: Kind, x: int, o: nat)
    requires o <= 5
    ensures PatByte(k, x, o) == Base(k)[o] && Base(k)[0] == 0x49 && Base(k)[1] == 0x89 && Base(k)[4] == 0x81
  {
    hide LowBytes;
  }

  lemma NotAtThree(s: Image, i: nat, k: Kind, x: int, k': Kind, x': int)
    requires Occurs(s, i, k, x)
    ensures !Occurs(s, i + 3, k', x')
  {
    hide Occurs, PatByte, Pat, Base;
    OccursByte(s, i, k, x, 4);
    StartBytes(k, x, 4);
    StartBytes(k', x', 1);
    if Occurs(s, i + 3, k', x') {
      OccursByte(s, i + 3, k', x', 1);
    }
  }

  lemma NotInHole(s: Image, i: nat, k: Kind, x: int, p: nat, j: nat, k': Kind, x': int)
    requires Occurs(s, i, k, x)
    requires InHole(k, p, p) && !(k == Pro && p == Second(k)) && i + p <= j < i + p + 4
    ensures !Occurs(s, j, k', x')
  {
    hide Occurs, PatByte, Pat, Base;
    var n := i + p + 4 - j;
    AfterHole(k, x, p, k', n);
    OccursByte(s, i, k, x, p + 4);
    StartBytes(k', x', n);
    if Occurs(s, j, k', x') {
      OccursByte(s, j, k', x', n);
    }
  }

  /** No occurrence starts inside another, whatever their kinds and sizes. */
  lemma NoOverlap(s: Image, i: nat, k: Kind, x: int, j: nat, k': Kind, x': int)
    requires Occurs(s, i, k, x) && Occurs(s, j, k', x') && Unambiguous(x)
    requires i < j
    ensures i + Len(k) <= j
  {
    hide Unambiguous, EndsAsStart;
    if j < i + Len(k) {
      OverlapAtEnd(s, i, k, x, j, k', x');
      SharedBytes(s, i, x, j, k', x');
      EndIsAmbiguous(x, k', i + Len(Pro) - j);
    }
  }

  lemma EndIsAmbiguous(x: int, k: Kind, n: nat)
    requires 1 <= n <= 4 && EndsAsStart(x, k, n)
    ensures !Unambiguous(x)
  {
  }

  lemma SharedBytes(s: Image, i: nat, x: int, j: nat, k: Kind, x': int)
    requires Occurs(s, i, Pro, x) && Occurs(s, j, k, x') && i + Second(Pro) <= j < i + Len(Pro)
    ensures EndsAsStart(x, k, i + Len(Pro) - j)
  {
    hide Double;
    var n := i + Len(Pro) - j;
    assert |Base(k)| == Len(k);
    hide Occurs, Pat, LowBytes, Base;
    forall o | 0 <= o < n
      ensures LowBytes(-x, 4)[4 - n..][o] == Base(k)[..n][o]
    {
      OccursByte(s, i, Pro, x, j - i + o);
      OccursByte(s, j, k, x', o);
      StartBytes(k, x', o);
    }
  }

  /** Exactly so: for any other size two pieces of code for it can overlap. */
  lemma OverlapPossible(x: int)
    ensures (exists s, i: nat, k: Kind, j: nat, k': Kind :: Overlap(s, x, i, k, j, k')) <==> !Unambiguous(x)
  {
    hide Occurs, Pat;
    if !Unambiguous(x) {
      var k: Kind, n: nat :| 1 <= n <= 4 && EndsAsStart(x, k, n);
      var s := Pat(Pro, x)[..Len(Pro) - n] + Pat(k, x);
      TwoCopies(x, k, n, s);
      assert Overlap(s, x, 0, Pro, Len(Pro) - n, k);
    } else if exists s, i: nat, k: Kind, j: nat, k': Kind :: Overlap(s, x, i, k, j, k') {
      var s: Image, i: nat, k: Kind, j: nat, k': Kind :| Overlap(s, x, i, k, j, k');
      NoOverlap(s, i, k, x, j, k', x);
    }
  }

  predicate Overlap(s: Image, x: int, i: nat, k: Kind, j: nat, k': Kind) {
    Occurs(s, i, k, x) && Occurs(s, j, k', x) && i < j < i + Len(k)
  }

  lemma TwoCopies(x: int, k: Kind, n: nat, s: Image)
    requires 1 <= n <= 4 && EndsAsStart(x, k, n) && s == Pat(Pro, x)[..Len(Pro) - n] + Pat(k, x)
    ensures Occurs(s, 0, Pro, x) && Occurs(s, Len(Pro) - n, k, x)
  {
    hide Pat, EndsAsStart, Base, PatByte;
    SharedSuffix(x, k, n);
    Seam(Pat(Pro, x), Pat(k, x), Len(Pro) - n);
  }

  lemma Seam(a: Image, b: Image, m: nat)
    requires m <= |a| <= m + |b| && a[m..] == b[..|a| - m]
    ensures (a[..m] + b)[..|a|] == a && (a[..m] + b)[m..] == b
  {
  }

  lemma SharedSuffix(x: int, k: Kind, n: nat)
    requires 1 <= n <= 4 && EndsAsStart(x, k, n)
    ensures Pat(Pro, x)[Len(Pro) - n..] == Pat(k, x)[..n]
  {
    hide LowBytes;
    var m := Len(Pro) - n;
    forall o | 0 <= o < n
      ensures Pat(Pro, x)[m + o] == Pat(k, x)[o]
    {
      StartBytes(k, x, o);
      assert LowBytes(-x, 4)[4 - n..][o] == Base(k)[..n][o];
    }
  }

  /** A position holds at most one kind. */
  lemma OneKind(s: Image, i: nat, k: Kind, x: int, k': Kind, x': int)
    requires Occurs(s, i, k, x) && Occurs(s, i, k', x')
    ensures k == k'
  {
    OccursByte(s, i, k, x, 2);
    OccursByte(s, i, k', x', 2);
  }

  // ------------------------------------------------------- What a rewrite must do

  /** Byte `q` belongs to an occurrence for size `x`. */
  ghost predicate Covered(s: Image, x: int, q: nat) {
    exists i: nat, k: Kind :: i <= q < i + Len(k) && Occurs(s, i, k, x)
  }

  /** Every occurrence for `orig` has become one for `new`, and no other byte has changed. */
  ghost predicate Rewritten(s: Image, t: Image, orig: int, size: int) {
    && |t| == |s|
    && (forall i: nat, k: Kind :: Occurs(s, i, k, orig) ==> Occurs(t, i, k, size))
    && (forall q: nat :: q < |s| && !Covered(s, orig, q) ==> t[q] == s[q])
  }

  ghost predicate NoneOf(s: Image, x: int) {
    forall i: nat, k: Kind :: !Occurs(s, i, k, x)
  }

  /** Both sizes have the same immediates. */
  predicate SameCode(x: int, y: int) {
    LowBytes(-x, 4) == LowBytes(-y, 4) && LowBytes(-2 * x, 4) == LowBytes(-2 * y, 4)
  }

  lemma SameCodeSamePat(k: Kind, x: int, y: int)
    requires SameCode(x, y)
    ensures Pat(k, x) == Pat(k, y)
  {
  }

  lemma SamePlaceSameCode(s: Image, i: nat, k: Kind, x: int, y: int)
    requires Occurs(s, i, k, x) && Occurs(s, i, k, y)
    ensures SameCode(x, y)
  {
    hide Occurs, LowBytes;
    var a, b, c, d := LowBytes(-x, 4), LowBytes(-y, 4), LowBytes(-2 * x, 4), LowBytes(-2 * y, 4);
    forall o | 0 <= o < 4
      ensures a[o] == b[o] && c[o] == d[o]
    {
      SameImmediates(s, i, k, x, y, o);
    }
    assert a == b && c == d;
  }

  lemma SameImmediates(s: Image, i: nat, k: Kind, x: int, y: int, o: nat)
    requires Occurs(s, i, k, x) && Occurs(s, i, k, y) && o < 4
    ensures LowBytes(-x, 4)[o] == LowBytes(-y, 4)[o] && LowBytes(-2 * x, 4)[o] == LowBytes(-2 * y, 4)[o]
  {
    hide Occurs, LowBytes;
    OccursByte(s, i, k, x, First(k) + o);
    OccursByte(s, i, k, y, First(k) + o);
    OccursByte(s, i, k, x, Double(k) + o);
    OccursByte(s, i, k, y, Double(k) + o);
  }

  /** A stretch of bytes that no occurrence for `orig` touches is as it was. */
  lemma UntouchedOccurs(s: Image, t: Image, orig: int, size: int, j: nat, k: Kind, x: int)
    requires Rewritten(s, t, orig, size)
    requires forall q: nat :: j <= q < j + Len(k) ==> !Covered(s, orig, q)
    ensures Occurs(t, j, k, x) <==> Occurs(s, j, k, x)
  {
    if j + Len(k) <= |s| {
      assert s[j..j + Len(k)] == t[j..j + Len(k)];
    }
  }

  /** The two occurrences touch. */
  predicate Touch(i: nat, k: Kind, j: nat, k': Kind) {
    i < j + Len(k') && j < i + Len(k)
  }

  lemma TouchingIsSame(s: Image, i: nat, k: Kind, x: int, j: nat, k': Kind, x': int)
    requires Occurs(s, i, k, x) && Occurs(s, j, k', x') && Unambiguous(x) && Unambiguous(x') && Touch(i, k, j, k')
    ensures i == j && k == k'
  {
    if i < j {
      NoOverlap(s, i, k, x, j, k', x');
    } else if j < i {
      NoOverlap(s, j, k', x', i, k, x);
    } else {
      OneKind(s, i, k, x, k', x');
    }
  }

  /** Patching creates no new occurrence: in an image without code for the new size, the
      occurrences for it after the rewrite are exactly those for the old size before. */
  lemma RewriteCreatesNone(s: Image, t: Image, orig: int, size: int, j: nat, k: Kind)
    requires Rewritten(s, t, orig, size) && Unambiguous(orig) && Unambiguous(size) && NoneOf(s, size)
    ensures Occurs(t, j, k, size) <==> Occurs(s, j, k, orig)
  {
    if Occurs(t, j, k, size) && !Occurs(s, j, k, orig) {
      forall q: nat | j <= q < j + Len(k)
        ensures !Covered(s, orig, q)
      {
        if Covered(s, orig, q) {
          var i: nat, k': Kind :| i <= q < i + Len(k') && Occurs(s, i, k', orig);
          TouchingIsSame(t, i, k', size, j, k, size);
        }
      }
      UntouchedOccurs(s, t, orig, size, j, k, size);
    }
  }

  /** Rewriting back restores the image when it held no code for the new size ... */
  lemma RoundTripRestores(s: Image, t: Image, u: Image, orig: int, size: int)
    requires Rewritten(s, t, orig, size) && Rewritten(t, u, size, orig)
    requires Unambiguous(orig) && Unambiguous(size) && NoneOf(s, size)
    ensures u == s
  {
    hide Occurs, Unambiguous, Pat, PatByte;
    forall q: nat | q < |s|
      ensures u[q] == s[q]
    {
      if Covered(s, orig, q) {
        var i: nat, k: Kind :| i <= q < i + Len(k) && Occurs(s, i, k, orig);
        assert Occurs(u, i, k, orig);
        OccursByte(s, i, k, orig, q - i);
        OccursByte(u, i, k, orig, q - i);
      } else if Covered(t, size, q) {
        var i: nat, k: Kind :| i <= q < i + Len(k) && Occurs(t, i, k, size);
        RewriteCreatesNone(s, t, orig, size, i, k);
        assert false;
      }
    }
  }

  /** ... and code for the new size survives the first rewrite but not the second. */
  lemma RoundTripLoses(s: Image, t: Image, u: Image, orig: int, size: int, j: nat, k: Kind)
    requires Rewritten(s, t, orig, size) && Rewritten(t, u, size, orig)
    requires Unambiguous(orig) && Unambiguous(size) && Occurs(s, j, k, size) && !SameCode(orig, size)
    ensures u != s
  {
    forall q: nat | j <= q < j + Len(k)
      ensures !Covered(s, orig, q)
    {
      if Covered(s, orig, q) {
        var i: nat, k': Kind :| i <= q < i + Len(k') && Occurs(s, i, k', orig);
        TouchingIsSame(s, i, k', orig, j, k, size);
        SamePlaceSameCode(s, i, k, orig, size);
      }
    }
    UntouchedOccurs(s, t, orig, size, j, k, size);
    if u == s {
      SamePlaceSameCode(s, j, k, orig, size);
    }
  }

  /** Sizes with the same immediates: nothing changes at all. */
  lemma SameCodeUnchanged(s: Image, t: Image, orig: int, size: int)
    requires Rewritten(s, t, orig, size) && SameCode(orig, size)
    ensures t == s
  {
    forall q: nat | q < |s|
      ensures t[q] == s[q]
    {
      if Covered(s, orig, q) {
        var i: nat, k: Kind :| i <= q < i + Len(k) && Occurs(s, i, k, orig);
        SameCodeSameByte(s, t, orig, size, i, k, q);
      }
    }
  }

  lemma SameCodeSameByte(s: Image, t: Image, x: int, y: int, i: nat, k: Kind, q: nat)
    requires SameCode(x, y) && Occurs(s, i, k, x) && Occurs(t, i, k, y) && i <= q < i + Len(k)
    ensures q < |s| && q < |t| && t[q] == s[q]
  {
    SameCodeSamePat(k, x, y);
    OccursByte(s, i, k, x, q - i);
    OccursByte(t, i, k, y, q - i);
  }

  /** Round trip: rewriting to another size and back restores the image byte for byte if
      and only if it held no code for that size, or the two sizes have the same code. */
  lemma RoundTrip(s: Image, t: Image, u: Image, orig: int, size: int)
    requires Rewritten(s, t, orig, size) && Rewritten(t, u, size, orig)
    requires Unambiguous(orig) && Unambiguous(size)
    ensures u == s <==> NoneOf(s, size) || SameCode(orig, size)
  {
    if SameCode(orig, size) {
      SameCodeUnchanged(s, t, orig, size);
      SameCodeUnchanged(t, u, size, orig);
    } else if NoneOf(s, size) {
      RoundTripRestores(s, t, u, orig, size);
    } else {
      var j: nat, k: Kind :| Occurs(s, j, k, size);
      RoundTripLoses(s, t, u, orig, size, j, k);
    }
  }

  // ------------------------------------------------------------------ Powers of two

  lemma {:induction false} MinusOneBytes(m: nat)
    ensures forall b :: b in LowBytes(-1, m) ==> b == 0xff
    decreases m
  {
    if m > 0 {
      MinusOneBytes(m - 1);
    }
  }

  /** No byte of -2^n is 0x49. */
  lemma {:induction false} NoMarker(n: nat, m: nat)
    ensures 0x49 !in LowBytes(-Pow2(n), m)
    decreases m
  {
    if m > 0 {
      if n >= 8 {
        ShiftEight(n);
        NoMarker(n - 8, m - 1);
      } else {
        SmallPow2(n);
        MinusOneBytes(m - 1);
      }
    }
  }

  lemma ShiftEight(n: nat)
    requires n >= 8
    ensures -Pow2(n) % 256 == 0 && -Pow2(n) / 256 == -Pow2(n - 8)
  {
    EightBits();
    hide Pow2;
    Pow2Sum(8, n - 8);
    Times256(Pow2(n), Pow2(n - 8));
  }

  lemma EightBits()
    ensures Pow2(8) == 256
  {
    assert Pow2(4) == 16;
  }

  lemma Times256(p: int, q: int)
    requires p == 256 * q
    ensures -p % 256 == 0 && -p / 256 == -q
  {
  }

  lemma SmallPow2(n: nat)
    requires n < 8
    ensures -Pow2(n) % 256 != 0x49 && -Pow2(n) / 256 == -1
  {
    assert Pow2(7) == 128;
    Pow2Splits(n, 7);
    if n == 0 {
      assert Pow2(n) == 1;
    } else {
      assert Pow2(n) % 2 == 0;
    }
  }

  /** Stack sizes that are powers of two are unambiguous. */
  lemma Pow2Unambiguous(n: nat)
    ensures Unambiguous(Pow2(n))
  {
    NoMarker(n, 4);
    forall k: Kind, m: nat | 1 <= m <= 4
      ensures !EndsAsStart(Pow2(n), k, m)
    {
      if EndsAsStart(Pow2(n), k, m) {
        StartOfSuffix(Pow2(n), k, m);
      }
    }
  }

  lemma StartOfSuffix(x: int, k: Kind, m: nat)
    requires 1 <= m <= 4 && EndsAsStart(x, k, m)
    ensures LowBytes(-x, 4)[4 - m] == 0x49 && (m >= 2 ==> LowBytes(-x, 4)[5 - m] == 0x89)
  {
    var imm := LowBytes(-x, 4);
    hide LowBytes;
    assert imm[4 - m] == imm[4 - m..][0] == Base(k)[..m][0];
    assert m >= 2 ==> imm[5 - m] == imm[4 - m..][1] == Base(k)[..m][1];
  }

  /** So are all sizes in KB up to 2^30. */
  lemma KbUnambiguous(kb: int)
    requires 0 <= kb <= 0x10_0000
    ensures Unambiguous(kb * 1024)
  {
    hide LowBytes, Base, EndsAsStart;
    KbBytes(kb);
    forall k: Kind, m: nat | 1 <= m <= 4
      ensures !EndsAsStart(kb * 1024, k, m)
    {
      KbSuffix(LowBytes(-(kb * 1024), 4), m);
      if EndsAsStart(kb * 1024, k, m) {
        StartOfSuffix(kb * 1024, k, m);
      }
    }
  }

  lemma KbSuffix(imm: Image, m: nat)
    requires |imm| == 4 && 1 <= m <= 4
    requires imm[0] == 0 && imm[1] % 4 == 0 && (imm[3] == 0 || imm[3] >= 0xc0)
    ensures imm[4 - m] != 0x49 || (m >= 2 && imm[5 - m] != 0x89)
  {
  }

  /** The low byte of the immediate is zero, the next a multiple of four, and the highest
      is zero or at least 0xc0. */
  lemma KbBytes(kb: int)
    requires 0 <= kb <= 0x10_0000
    ensures var imm := LowBytes(-(kb * 1024), 4);
            imm[0] == 0 && imm[1] % 4 == 0 && (imm[3] == 0 || imm[3] >= 0xc0)
  {
    var y := -(kb * 1024);
    assert y % 256 == 0 && y / 256 == -(kb * 4);
    FourBytes(y);
    assert -(kb * 4) % 256 % 4 == 0;
  }

  lemma FourBytes(y: int)
    ensures LowBytes(y, 4) == [y % 256, y / 256 % 256, y / 256 / 256 % 256, y / 256 / 256 / 256 % 256]
  {
  }
}
