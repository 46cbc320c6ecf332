/** What both rewriters do to a byte image: little-endian encoding, patching in place and
    matching at a position. */
module Bytes {
  import opened Words

  type byte = x: int | 0 <= x < 256

  type Image = seq<byte>

  /** The low `n` bytes of `x`, least significant first; `x` may be negative. */
  function LowBytes(x: int, n: nat): (bs: Image)
    ensures |bs| == n
    decreases n
  {
    if n == 0 then [] else [x % 256] + LowBytes(x / 256, n - 1)
  }

  /** The number that bytes encode, least significant first. */
  function Value(bs: Image): nat {
    if bs == [] then 0 else bs[0] + 256 * Value(bs[1..])
  }

  lemma ValueOfFour(bs: Image)
    requires |bs| == 4
    ensures Value(bs) == bs[0] as int + 0x100 * bs[1] as int + 0x1_0000 * bs[2] as int + 0x100_0000 * bs[3] as int
  {
    assert bs[1..][1..] == bs[2..] && bs[2..][1..] == bs[3..] && bs[3..][1..] == [];
    assert Value(bs[3..]) == bs[3] as int;
    assert Value(bs[2..]) == bs[2] as int + 256 * Value(bs[3..]);
    assert Value(bs[1..]) == bs[1] as int + 256 * Value(bs[2..]);
  }

  lemma ValueOfEight(bs: Image)
    requires |bs| == 8
    ensures Value(bs) == Value(bs[..4]) + 0x1_0000_0000 * Value(bs[4..])
  {
    ValueSplits(bs, 4);
    assert Power256(2) == 0x1_0000;
    assert Power256(4) == 0x1_0000_0000;
  }

  lemma {:induction false} ValueSplits(bs: Image, n: nat)
    requires n <= |bs|
    ensures Value(bs) == Value(bs[..n]) + Power256(n) * Value(bs[n..])
  {
    if n == 0 {
      assert bs[0..] == bs;
    } else {
      ValueSplits(bs[1..], n - 1);
      assert bs[1..][..n - 1] == bs[..n][1..] && bs[1..][n - 1..] == bs[n..];
      Regroup(256, Power256(n - 1), Value(bs[n..]));
    }
  }

  /** Different bytes encode different numbers. */
  lemma {:induction false} ValueDecides(a: Image, b: Image)
    requires |a| == |b|
    ensures Value(a) == Value(b) <==> a == b
  {
    if a != [] {
      ValueDecides(a[1..], b[1..]);
      assert a == [a[0]] + a[1..] && b == [b[0]] + b[1..];
    }
  }

  function Power256(n: nat): (p: nat)
    ensures p > 0
  {
    if n == 0 then 1 else 256 * Power256(n - 1)
  }

  /** Encoding keeps the residue. */
  lemma {:induction false} ValueOfLowBytes(x: int, n: nat)
    ensures Value(LowBytes(x, n)) == x % Power256(n)
    decreases n
  {
    if n > 0 {
      ValueOfLowBytes(x / 256, n - 1);
      assert LowBytes(x, n)[1..] == LowBytes(x / 256, n - 1);
      Digit(x, Power256(n - 1));
    }
  }

  lemma Digit(x: int, p: int)
    requires p > 0
    ensures x % (256 * p) == x % 256 + 256 * (x / 256 % p)
  {
    var y := x / 256;
    var q := y / p;
    assert y == p * q + y % p;
    assert (256 * p) * q == 256 * (p * q);
    DivUnique(x, 256 * p, q, x % 256 + 256 * (y % p));
  }

  /** `s` with `bs` written at position `i`. */
  function Patched(s: Image, i: nat, bs: Image): (t: Image)
    requires i + |bs| <= |s|
    ensures |t| == |s|
  {
    s[..i] + bs + s[i + |bs|..]
  }

  predicate MatchesAt(s: Image, i: nat, pattern: Image) {
    i + |pattern| <= |s| && s[i..i + |pattern|] == pattern
  }

  lemma Mismatch(s: Image, i: nat, pattern: Image, k: nat)
    requires k < |pattern| && i + k < |s| && s[i + k] != pattern[k]
    ensures !MatchesAt(s, i, pattern)
  {
    if i + |pattern| <= |s| {
      assert s[i..i + |pattern|][k] == s[i + k];
    }
  }

  /** get_n_bytes, and get_four_bytes for n == 4. */
  method GetBytes(x: int, n: nat) returns (bs: Image)
    ensures bs == LowBytes(x, n)
  {
    bs := [];
    var i, rest := 0, x;
    while i < n
      invariant 0 <= i <= n && |bs| == i
      invariant LowBytes(x, n) == bs + LowBytes(rest, n - i)
    {
      var b := rest % 256;
      bs := bs + [b];
      rest := rest / 256;
      i := i + 1;
    }
  }

  /** modify_bytes and modify_four_bytes. */
  method ModifyBytes(a: array<byte>, i: nat, bs: Image)
    requires i + |bs| <= a.Length
    modifies a
    ensures a[..] == Patched(old(a[..]), i, bs)
  {
    var k := 0;
    while k < |bs|
      invariant 0 <= k <= |bs|
      invariant forall j :: 0 <= j < k ==> a[i + j] == bs[j]
      invariant forall j :: 0 <= j < a.Length && !(i <= j < i + k) ==> a[j] == old(a[j])
    {
      a[i + k] := bs[k];
      k := k + 1;
    }
    assert forall j :: i <= j < i + |bs| ==> a[j] == bs[j - i] by {
      forall j | i <= j < i + |bs| ensures a[j] == bs[j - i] {
        assert a[i + (j - i)] == bs[j - i];
      }
    }
    assert a[..] == Patched(old(a[..]), i, bs);
  }

  /** is_matching. */
  method IsMatching(a: array<byte>, i: nat, pattern: Image) returns (b: bool)
    ensures b <==> pattern == [] || MatchesAt(a[..], i, pattern)
  {
    var k := 0;
    while k < |pattern| && k + i < a.Length
      invariant 0 <= k <= |pattern| && (k > 0 ==> i + k <= a.Length)
      invariant forall j :: 0 <= j < k ==> a[i + j] == pattern[j]
    {
      if a[k + i] != pattern[k] {
        Mismatch(a[..], i, pattern, k);
        return false;
      }
      k := k + 1;
    }
    b := k == |pattern|;
    if b && i <= a.Length {
      assert a[..][i..i + |pattern|] == pattern;
    }
  }
}
