/** Machine words: 64-bit wrap-around, powers of two, and the bitwise AND that
    the runtime uses to align addresses. */
module Words {
  const WORD_BITS: nat := 64
  const WORD_SPAN: int := 0x1_0000_0000_0000_0000

  /** The value a 64-bit register holds after computing `x`. */
  function Wrap(x: int): (r: int)
    ensures 0 <= r < WORD_SPAN
    ensures 0 <= x < WORD_SPAN ==> r == x
  {
    x % WORD_SPAN
  }

  predicate IsWord(x: int) {
    0 <= x < WORD_SPAN
  }

  /** Wrapping an operand early does not change a wrapped sum. */
  lemma WrapSum(x: int, y: int)
    ensures Wrap(Wrap(x) + y) == Wrap(x + y)
  {
    var q := x / WORD_SPAN;
    assert x == q * WORD_SPAN + Wrap(x);
    WrapPeriod(Wrap(x) + y, q);
  }

  lemma {:induction false} WrapPeriod(x: int, q: int)
    ensures Wrap(x + q * WORD_SPAN) == Wrap(x)
    decreases if q < 0 then -q else q
  {
    if q > 0 {
      WrapPeriod(x, q - 1);
    } else if q < 0 {
      WrapPeriod(x, q + 1);
    }
  }

  function Pow2(k: nat): (p: int)
    ensures p > 0
  {
    if k == 0 then 1 else 2 * Pow2(k - 1)
  }

  lemma {:induction false} Pow2Splits(k: nat, n: nat)
    requires k <= n
    ensures Pow2(n) % Pow2(k) == 0
    ensures Pow2(k) <= Pow2(n)
  {
    if k == 0 {
    } else {
      Pow2Splits(k - 1, n - 1);
      ScaleMod(Pow2(n - 1), Pow2(k - 1), 0);
    }
  }

  /** Bitwise AND of two naturals, one bit at a time. */
  function BitAnd(x: nat, y: nat): nat {
    if x == 0 || y == 0 then 0
    else 2 * BitAnd(x / 2, y / 2) + (if x % 2 == 1 && y % 2 == 1 then 1 else 0)
  }

  lemma {:induction false} AndCommutes(x: nat, y: nat)
    ensures BitAnd(x, y) == BitAnd(y, x)
  {
    if x > 0 && y > 0 {
      AndCommutes(x / 2, y / 2);
    }
  }

  lemma ScaleMod(h: nat, p: nat, b: nat)
    requires p > 0 && b < 2
    ensures (2 * h + b) % (2 * p) == 2 * (h % p) + b
  {
    var q, r := h / p, h % p;
    assert h == p * q + r;
    assert 2 * h + b == (2 * p) * q + (2 * r + b);
    DivUnique(2 * h + b, 2 * p, q, 2 * r + b);
  }

  lemma DivUnique(x: int, d: int, q: int, r: int)
    requires d > 0 && 0 <= r < d && x == d * q + r
    ensures x % d == r && x / d == q
  {
    var k := x / d - q;
    assert d * k == r - x % d by {
      assert d * (x / d) + x % d == x;
      assert d * k == d * (x / d) - d * q;
    }
    if k >= 1 {
      MulGrows(d, k);
    } else if k <= -1 {
      MulGrows(d, -k);
    }
  }

  lemma MulGrows(d: int, k: int)
    requires d > 0 && k >= 1
    ensures d * k >= d
  {
    assert d * k == d * (k - 1) + d;
  }

  /** The mask -2^k, cut to n bits, rounds an n-bit value down to a multiple of 2^k. */
  lemma {:induction false} HighMaskAligns(x: nat, k: nat, n: nat)
    requires k <= n && x < Pow2(n)
    ensures Pow2(k) <= Pow2(n)
    ensures BitAnd(x, Pow2(n) - Pow2(k)) == x - x % Pow2(k)
  {
    Pow2Splits(k, n);
    if k == 0 {
      AllOnesKeeps(x, n);
    } else {
      var m, p := Pow2(n - 1), Pow2(k - 1);
      HighMaskAligns(x / 2, k - 1, n - 1);
      ScaleMod(x / 2, p, x % 2);
      AndEven(x, m - p);
    }
  }

  lemma AndEven(x: nat, y: nat)
    ensures BitAnd(x, 2 * y) == 2 * BitAnd(x / 2, y)
  {
    assert 2 * y % 2 == 0 && 2 * y / 2 == y;
  }

  lemma {:induction false} AllOnesKeeps(x: nat, n: nat)
    requires x < Pow2(n)
    ensures BitAnd(x, Pow2(n) - 1) == x
  {
    if x > 0 && n > 0 {
      AllOnesKeeps(x / 2, n - 1);
      assert (Pow2(n) - 1) / 2 == Pow2(n - 1) - 1;
    }
  }

  lemma AndUnfolds(x: nat, y: nat)
    requires x > 0 && y > 0
    ensures BitAnd(x, y) == 2 * BitAnd(x / 2, y / 2) + (if x % 2 == 1 && y % 2 == 1 then 1 else 0)
  {
  }

  /** The mask 2^k - 1 keeps the remainder modulo p == 2^k. */
  lemma {:induction false} LowMaskRemainder(x: nat, k: nat, p: int)
    requires p == Pow2(k) && p > 0
    ensures BitAnd(x, p - 1) == x % p
  {
    if k > 0 && x > 0 {
      var q := Pow2(k - 1);
      assert p == 2 * q;
      hide BitAnd, Pow2;
      LowMaskRemainder(x / 2, k - 1, q);
      AndUnfolds(x, 2 * q - 1);
      HalfMask(q);
      ScaleMod(x / 2, q, x % 2);
    }
  }

  lemma HalfMask(q: int)
    requires q > 0
    ensures (2 * q - 1) / 2 == q - 1 && (2 * q - 1) % 2 == 1
  {
  }

  lemma {:induction false} Pow2Sum(a: nat, b: nat)
    ensures Pow2(a + b) == Pow2(a) * Pow2(b)
  {
    if a > 0 {
      Pow2Sum(a - 1, b);
      Regroup(2, Pow2(a - 1), Pow2(b));
    }
  }

  lemma Regroup(x: int, y: int, z: int)
    ensures x * (y * z) == (x * y) * z
  {
  }

  lemma WordSpanIsPow2()
    ensures Pow2(WORD_BITS) == WORD_SPAN
  {
    var byte := WORD_BITS / 8;
    assert Pow2(8) == 256 && byte == 8;
    Pow2Sum(byte, byte);
    Pow2Sum(2 * byte, 2 * byte);
    Pow2Sum(4 * byte, 4 * byte);
  }

  /** A power of two below 2^64 is a word, and so is its negation. */
  lemma Pow2IsWord(k: nat)
    requires k < WORD_BITS
    ensures 0 < 2 * Pow2(k) <= WORD_SPAN
    ensures Wrap(-Pow2(k)) == WORD_SPAN - Pow2(k)
  {
    WordSpanIsPow2();
    Pow2Splits(k + 1, WORD_BITS);
  }

  /** `x & -2^k` on 64-bit words: what is left is `x` less its remainder. */
  function AlignDown(x: int, k: nat): (r: int)
    requires IsWord(x) && k <= WORD_BITS
    ensures r == x - x % Pow2(k)
  {
    AlignWord(x, k);
    BitAnd(x, WORD_SPAN - Pow2(k))
  }

  lemma AlignWord(x: int, k: nat)
    requires IsWord(x) && k <= WORD_BITS
    ensures 0 < Pow2(k) <= WORD_SPAN
    ensures BitAnd(x, WORD_SPAN - Pow2(k)) == x - x % Pow2(k)
  {
    WordSpanIsPow2();
    HighMaskAligns(x, k, WORD_BITS);
  }
}
