/** data_rewriter.py: the page that holds the global stack size is found by its pattern and
    its first eight bytes are replaced. */
module DataRewriter {
  import opened Words
  import opened Bytes

  const PAGE: nat := 4096
  const MASK_BYTES: nat := 8
  const TEXT_BYTES: nat := 24

  /** "CSE@UNSW", three times over. */
  function TextByte(o: nat): byte
    requires o < TEXT_BYTES
  {
    [0x43, 0x53, 0x45, 0x40, 0x55, 0x4e, 0x53, 0x57][o % 8]
  }

  function PatByte(x: int, o: nat): byte
    requires o < PAGE
  {
    if o < MASK_BYTES then LowBytes(-x, 8)[o]
    else if o < MASK_BYTES + TEXT_BYTES then TextByte(o - MASK_BYTES)
    else 0
  }

  /** global_stack_size_pattern for size `x`. */
  function Pat(x: int): (p: Image)
    ensures |p| == PAGE
  {
    seq(PAGE, o requires 0 <= o < PAGE => PatByte(x, o))
  }

  predicate Occurs(s: Image, i: nat, x: int) {
    MatchesAt(s, i, Pat(x))
  }

  /** What the page stores is the mask -x as a 64-bit word. */
  lemma StoresMask(x: int)
    ensures Value(LowBytes(-x, 8)) == Wrap(-x)
  {
    ValueOfLowBytes(-x, 8);
    assert Power256(4) == 0x1_0000_0000 by {
      assert Power256(2) == 0x1_0000;
    }
    assert Power256(6) == 0x1_0000_0000_0000;
  }

  lemma OccursByte(s: Image, i: nat, x: int, o: nat)
    requires Occurs(s, i, x) && o < PAGE
    ensures i + o < |s| && s[i + o] == PatByte(x, o)
  {
    assert s[i..i + PAGE][o] == Pat(x)[o];
  }

  lemma BytesOccur(s: Image, i: nat, x: int)
    requires i + PAGE <= |s| && forall o: nat :: o < PAGE ==> s[i + o] == PatByte(x, o)
    ensures Occurs(s, i, x)
  {
    var w := s[i..i + PAGE];
    assert forall o :: 0 <= o < PAGE ==> w[o] == Pat(x)[o];
    assert w == Pat(x);
  }

  /** Overlapping occurrences share at most eight bytes: the tail of one and the mask of
      the next. */
  lemma OverlapIsShort(s: Image, i: nat, x: int, j: nat, x': int)
    requires Occurs(s, i, x) && Occurs(s, j, x') && i < j < i + PAGE
    ensures i + PAGE <= j + MASK_BYTES
  {
    var d := j - i;
    if d + MASK_BYTES < PAGE {
      OccursByte(s, i, x, d + MASK_BYTES);
      OccursByte(s, j, x', MASK_BYTES);
      MarkOffsets(x, d + MASK_BYTES);
      assert PatByte(x', 32 - d) == 0x43 && PatByte(x, 32) == 0;
      OccursByte(s, i, x, 32);
      OccursByte(s, j, x', 32 - d);
    }
  }

  /** After the mask, 'C' is found at 8, 16 and 24 only. */
  lemma MarkOffsets(x: int, o: nat)
    requires MASK_BYTES <= o < PAGE && PatByte(x, o) == 0x43
    ensures o == 8 || o == 16 || o == 24
  {
  }

  /** Occurrences overlap in no image exactly when the mask's low byte is not zero; for
      sizes in KB it always is, so images with overlapping copies exist. */
  lemma OverlapPossible(x: int)
    ensures (exists s, i: nat, j: nat :: Overlap(s, x, i, j)) <==> x % 256 == 0
  {
    LowByte(x);
    if x % 256 == 0 {
      var s := Pat(x)[..PAGE - 1] + Pat(x);
      TwoCopies(x, s);
      assert Overlap(s, x, 0, PAGE - 1);
    } else if exists s, i: nat, j: nat :: Overlap(s, x, i, j) {
      var s: Image, i: nat, j: nat :| Overlap(s, x, i, j);
      OverlapIsShort(s, i, x, j, x);
      OccursByte(s, i, x, j - i);
      OccursByte(s, j, x, 0);
    }
  }

  predicate Overlap(s: Image, x: int, i: nat, j: nat) {
    Occurs(s, i, x) && Occurs(s, j, x) && i < j < i + PAGE
  }

  lemma LowByte(x: int)
    ensures PatByte(x, 0) == 0 <==> x % 256 == 0
  {
    assert LowBytes(-x, 8)[0] == (-x) % 256;
    hide PatByte, LowBytes;
    NegatedMultiple(x);
  }

  lemma NegatedMultiple(x: int)
    ensures (-x) % 256 == 0 <==> x % 256 == 0
  {
  }

  lemma TwoCopies(x: int, s: Image)
    requires x % 256 == 0 && s == Pat(x)[..PAGE - 1] + Pat(x)
    ensures Occurs(s, 0, x) && Occurs(s, PAGE - 1, x)
  {
    LowByte(x);
    assert s[PAGE - 1] == Pat(x)[0];
    BytesOccur(s, 0, x);
    assert s[PAGE - 1..PAGE - 1 + PAGE] == Pat(x);
  }

  // --------------------------------------------------------------------- The scan

  /** Sites come in order, do not overlap, and each is an occurrence. */
  predicate InOrder(s: Image, sites: seq<nat>, x: int) {
    && (forall m :: 0 <= m < |sites| ==> Occurs(s, sites[m], x))
    && (forall m, n :: 0 <= m < n < |sites| ==> sites[m] + PAGE <= sites[n])
  }

  predicate Inside(sites: seq<nat>, q: nat, width: nat) {
    exists m :: 0 <= m < |sites| && sites[m] <= q < sites[m] + width
  }

  /** What the scan finds: every occurrence is a site or starts inside one. An image has one
      such sequence only. */
  ghost predicate Found(s: Image, sites: seq<nat>, x: int) {
    InOrder(s, sites, x) && forall j: nat :: Occurs(s, j, x) ==> Inside(sites, j, PAGE)
  }

  /** The mask at each site is replaced and no other byte has changed. */
  predicate MasksSet(s: Image, t: Image, sites: seq<nat>, x: int) {
    && |t| == |s|
    && (forall m :: 0 <= m < |sites| ==> MatchesAt(t, sites[m], LowBytes(-x, 8)))
    && (forall q :: 0 <= q < |s| && !Inside(sites, q, MASK_BYTES) ==> t[q] == s[q])
  }

  /** modify_global_stack_size: the sites found are apart, every other occurrence starts
      inside one of them, and exactly their masks are replaced. */
  method ModifyGlobalStackSize(a: array<byte>, pattern: Image, x: int, ghost orig: int)
      returns (cnt: nat, ghost sites: seq<nat>)
    requires pattern == Pat(orig)
    modifies a
    ensures cnt == |sites| && Found(old(a[..]), sites, orig)
    ensures MasksSet(old(a[..]), a[..], sites, x)
  {
    hide Scanned;
    ghost var s := a[..];
    var bs := GetBytes(-x, 8);
    var i := 0;
    cnt, sites := 0, [];
    ScanStarts(s, x, orig);
    while i <= a.Length - |pattern|
      invariant a.Length == |s| && cnt == |sites| && Scanned(s, a[..], sites, x, i, orig)
    {
      AheadUnchanged(s, a[..], sites, x, i, orig);
      var found := IsMatching(a, i, pattern);
      if found {
        OneMoreSite(s, a[..], sites, x, i, orig);
        ModifyBytes(a, i, bs);
        cnt, sites := cnt + 1, sites + [i];
        i := i + |pattern|;
      } else {
        NoSiteHere(s, a[..], sites, x, i, orig);
        i := i + 1;
      }
    }
    ScanEnds(s, a[..], sites, x, i, orig);
  }

  /** The loop's state at position `i`. */
  ghost predicate Scanned(s: Image, t: Image, sites: seq<nat>, x: int, i: nat, orig: int) {
    && InOrder(s, sites, orig) && MasksSet(s, t, sites, x)
    && (forall m :: 0 <= m < |sites| ==> sites[m] + PAGE <= i)
    && (forall j: nat :: j < i && Occurs(s, j, orig) ==> Inside(sites, j, PAGE))
  }

  lemma ScanStarts(s: Image, x: int, orig: int)
    ensures Scanned(s, s, [], x, 0, orig)
  {
  }

  lemma NoSiteHere(s: Image, t: Image, sites: seq<nat>, x: int, i: nat, orig: int)
    requires Scanned(s, t, sites, x, i, orig) && !Occurs(s, i, orig)
    ensures Scanned(s, t, sites, x, i + 1, orig)
  {
  }

  lemma ScanEnds(s: Image, t: Image, sites: seq<nat>, x: int, i: nat, orig: int)
    requires Scanned(s, t, sites, x, i, orig) && i + PAGE > |s|
    ensures Found(s, sites, orig) && MasksSet(s, t, sites, x)
  {
  }

  lemma AheadUnchanged(s: Image, t: Image, sites: seq<nat>, x: int, i: nat, orig: int)
    requires Scanned(s, t, sites, x, i, orig)
    ensures Occurs(t, i, orig) <==> Occurs(s, i, orig)
  {
    if i + PAGE <= |s| {
      assert forall q :: i <= q < |s| ==> !Inside(sites, q, MASK_BYTES);
      assert t[i..i + PAGE] == s[i..i + PAGE];
    }
  }

  lemma OneMoreSite(s: Image, t: Image, sites: seq<nat>, x: int, i: nat, orig: int)
    requires Scanned(s, t, sites, x, i, orig) && Occurs(s, i, orig)
    ensures i + MASK_BYTES <= |t|
    ensures Scanned(s, Patched(t, i, LowBytes(-x, 8)), sites + [i], x, i + PAGE, orig)
  {
    InsideGrows(sites, i);
    MaskReplaced(s, t, sites, x, i, orig);
  }

  lemma MaskReplaced(s: Image, t: Image, sites: seq<nat>, x: int, i: nat, orig: int)
    requires MasksSet(s, t, sites, x) && Occurs(s, i, orig)
    requires forall m :: 0 <= m < |sites| ==> sites[m] + PAGE <= i
    ensures i + MASK_BYTES <= |t|
    ensures MasksSet(s, Patched(t, i, LowBytes(-x, 8)), sites + [i], x)
  {
    var all := sites + [i];
    var u := Patched(t, i, LowBytes(-x, 8));
    assert all[|sites|] == i && forall m :: 0 <= m < |sites| ==> all[m] == sites[m];
    InsideGrows(sites, i);
    forall m | 0 <= m < |all|
      ensures MatchesAt(u, all[m], LowBytes(-x, 8))
    {
      if m < |sites| {
        PatchElsewhere(t, i, LowBytes(-x, 8), sites[m]);
      } else {
        assert u[i..i + 8] == LowBytes(-x, 8);
      }
    }
    forall q | 0 <= q < |s| && !Inside(all, q, MASK_BYTES)
      ensures u[q] == s[q]
    {
      assert !Inside(sites, q, MASK_BYTES);
    }
  }

  lemma PatchElsewhere(t: Image, i: nat, bs: Image, j: nat)
    requires i + |bs| <= |t| && j + 8 <= i
    ensures Patched(t, i, bs)[j..j + 8] == t[j..j + 8]
  {
  }

  lemma InsideGrows(sites: seq<nat>, i: nat)
    ensures forall q: nat, w: nat :: Inside(sites, q, w) ==> Inside(sites + [i], q, w)
    ensures forall q: nat :: i <= q < i + PAGE ==> Inside(sites + [i], q, PAGE)
  {
    var all := sites + [i];
    forall q: nat, w: nat | Inside(sites, q, w)
      ensures Inside(all, q, w)
    {
      var m :| 0 <= m < |sites| && sites[m] <= q < sites[m] + w;
      assert all[m] == sites[m];
    }
    forall q: nat | i <= q < i + PAGE
      ensures Inside(all, q, PAGE)
    {
      assert all[|sites|] == i;
    }
  }

  // -------------------------------------------------------------------- Exactness

  /** Every occurrence for `orig` has its mask replaced, and no other byte has changed. */
  ghost predicate Rewritten(s: Image, t: Image, orig: int, x: int) {
    && |t| == |s|
    && (forall i: nat :: Occurs(s, i, orig) ==> MatchesAt(t, i, LowBytes(-x, 8)))
    && (forall q: nat :: q < |s| && !InMask(s, orig, q) ==> t[q] == s[q])
  }

  ghost predicate InMask(s: Image, x: int, q: nat) {
    exists i: nat :: i <= q < i + MASK_BYTES && Occurs(s, i, x)
  }

  ghost predicate Apart(s: Image, x: int) {
    forall i: nat, j: nat :: !Overlap(s, x, i, j)
  }

  /** The scan is exact precisely on images without overlapping occurrences. */
  lemma ExactWithoutOverlaps(s: Image, t: Image, sites: seq<nat>, orig: int, x: int)
    requires Found(s, sites, orig) && MasksSet(s, t, sites, x)
    requires LowBytes(-orig, 8) != LowBytes(-x, 8)
    ensures Rewritten(s, t, orig, x) <==> Apart(s, orig)
  {
    if Apart(s, orig) {
      ApartIsExact(s, t, sites, orig, x);
    } else {
      var i: nat, j: nat :| Overlap(s, orig, i, j);
      if Rewritten(s, t, orig, x) {
        RewrittenIsSite(s, t, sites, orig, x, i);
        RewrittenIsSite(s, t, sites, orig, x, j);
        SitesApart(s, sites, orig, i, j);
      }
    }
  }

  lemma SitesApart(s: Image, sites: seq<nat>, x: int, i: nat, j: nat)
    requires InOrder(s, sites, x) && i in sites && j in sites && i < j
    ensures i + PAGE <= j
  {
    var m :| 0 <= m < |sites| && sites[m] == i;
    var n :| 0 <= n < |sites| && sites[n] == j;
  }

  lemma ApartIsExact(s: Image, t: Image, sites: seq<nat>, orig: int, x: int)
    requires Found(s, sites, orig) && MasksSet(s, t, sites, x) && Apart(s, orig)
    ensures Rewritten(s, t, orig, x)
  {
    forall i: nat | Occurs(s, i, orig)
      ensures MatchesAt(t, i, LowBytes(-x, 8))
    {
      var m :| 0 <= m < |sites| && sites[m] <= i < sites[m] + PAGE;
      assert !Overlap(s, orig, sites[m], i);
    }
    forall q: nat | q < |s| && !InMask(s, orig, q)
      ensures t[q] == s[q]
    {
      if Inside(sites, q, MASK_BYTES) {
        InsideIsMask(s, sites, orig, q);
      }
    }
  }

  lemma InsideIsMask(s: Image, sites: seq<nat>, x: int, q: nat)
    requires InOrder(s, sites, x) && Inside(sites, q, MASK_BYTES)
    ensures InMask(s, x, q)
  {
    var m :| 0 <= m < |sites| && sites[m] <= q < sites[m] + MASK_BYTES;
    assert Occurs(s, sites[m], x);
  }

  /** An occurrence whose mask was replaced is one of the sites. */
  lemma RewrittenIsSite(s: Image, t: Image, sites: seq<nat>, orig: int, x: int, i: nat)
    requires InOrder(s, sites, orig) && MasksSet(s, t, sites, x)
    requires Rewritten(s, t, orig, x) && Occurs(s, i, orig) && LowBytes(-orig, 8) != LowBytes(-x, 8)
    ensures i in sites
  {
    if i !in sites {
      UntouchedMask(s, t, sites, orig, x, i);
    }
  }

  lemma UntouchedMask(s: Image, t: Image, sites: seq<nat>, orig: int, x: int, i: nat)
    requires InOrder(s, sites, orig) && MasksSet(s, t, sites, x) && Occurs(s, i, orig) && i !in sites
    ensures MatchesAt(t, i, LowBytes(-orig, 8))
  {
    forall q | i <= q < i + MASK_BYTES
      ensures t[q] == s[q]
    {
      if Inside(sites, q, MASK_BYTES) {
        NearIsSame(s, sites, orig, i, q);
      }
    }
    MaskOf(s, i, orig);
    assert t[i..i + 8] == s[i..i + 8];
  }

  /** Two occurrences less than eight bytes apart are one. */
  lemma NearIsSame(s: Image, sites: seq<nat>, x: int, i: nat, q: nat)
    requires InOrder(s, sites, x) && Occurs(s, i, x) && i <= q < i + MASK_BYTES && Inside(sites, q, MASK_BYTES)
    ensures i in sites
  {
    var m :| 0 <= m < |sites| && sites[m] <= q < sites[m] + MASK_BYTES;
    if sites[m] < i {
      OverlapIsShort(s, sites[m], x, i, x);
    } else if i < sites[m] {
      OverlapIsShort(s, i, x, sites[m], x);
    }
  }

  lemma MaskOf(s: Image, i: nat, x: int)
    requires Occurs(s, i, x)
    ensures i + 8 <= |s| && s[i..i + 8] == LowBytes(-x, 8)
  {
    var mask := LowBytes(-x, 8);
    OccursByte(s, i, x, 7);
    forall o | 0 <= o < 8
      ensures s[i..i + 8][o] == mask[o]
    {
      OccursByte(s, i, x, o);
    }
  }

  /** modify_one_bin_file on an image in memory; sizes are in KB, as for ulimit -s. */
  method ModifyImage(a: array<byte>, origKb: int, newKb: int) returns (cnt: nat)
    modifies a
    ensures ExactIffApart(old(a[..]), a[..], origKb * 1024, newKb * 1024)
    ensures Apart(old(a[..]), origKb * 1024) ==> cnt == |Occurrences(old(a[..]), origKb * 1024)|
  {
    cnt := ModifyFor(a, origKb * 1024, newKb * 1024);
  }

  /** For different masks: the rewrite is exact if and only if no occurrences overlap. */
  ghost predicate ExactIffApart(s: Image, t: Image, orig: int, x: int) {
    LowBytes(-orig, 8) != LowBytes(-x, 8) ==> (Rewritten(s, t, orig, x) <==> Apart(s, orig))
  }

  method ModifyFor(a: array<byte>, orig: int, x: int) returns (cnt: nat)
    modifies a
    ensures ExactIffApart(old(a[..]), a[..], orig, x)
    ensures Apart(old(a[..]), orig) ==> cnt == |Occurrences(old(a[..]), orig)|
  {
    ghost var s := a[..];
    var pattern := MakePattern(orig);
    ghost var sites;
    cnt, sites := ModifyGlobalStackSize(a, pattern, x, orig);
    ScanIsExact(s, a[..], sites, orig, x);
    if Apart(s, orig) {
      CountIsTrue(s, sites, orig);
    }
  }

  ghost function Occurrences(s: Image, x: int): set<nat> {
    set i: nat | i < |s| && Occurs(s, i, x)
  }

  /** With no overlaps, the count is the true number of occurrences. */
  lemma CountIsTrue(s: Image, sites: seq<nat>, x: int)
    requires Found(s, sites, x) && Apart(s, x)
    ensures |sites| == |Occurrences(s, x)|
  {
    SitesDistinct(s, sites, x);
    forall i: nat | Occurs(s, i, x)
      ensures i in sites
    {
      var m :| 0 <= m < |sites| && sites[m] <= i < sites[m] + PAGE;
      assert !Overlap(s, x, sites[m], i);
    }
    assert AsSet(sites) == Occurrences(s, x);
  }

  function AsSet(sites: seq<nat>): set<nat> {
    set i | i in sites
  }

  lemma {:induction false} SitesDistinct(s: Image, sites: seq<nat>, x: int)
    requires InOrder(s, sites, x)
    ensures |AsSet(sites)| == |sites|
  {
    if sites != [] {
      var n := |sites| - 1;
      SitesDistinct(s, sites[..n], x);
      LastIsNew(s, sites, x);
    }
  }

  lemma LastIsNew(s: Image, sites: seq<nat>, x: int)
    requires InOrder(s, sites, x) && sites != []
    ensures var n := |sites| - 1;
            AsSet(sites) == AsSet(sites[..n]) + {sites[n]} && sites[n] !in AsSet(sites[..n])
  {
    hide Occurs;
    var n := |sites| - 1;
    assert sites == sites[..n] + [sites[n]];
    forall i | i in sites[..n]
      ensures i != sites[n]
    {
      var m :| 0 <= m < n && sites[..n][m] == i;
      assert sites[m] == i;
    }
  }

  lemma ScanIsExact(s: Image, t: Image, sites: seq<nat>, orig: int, x: int)
    requires Found(s, sites, orig) && MasksSet(s, t, sites, x)
    ensures ExactIffApart(s, t, orig, x)
  {
    if LowBytes(-orig, 8) != LowBytes(-x, 8) {
      ExactWithoutOverlaps(s, t, sites, orig, x);
    }
  }

  /** The pattern for a size is the literal one for 8MB with its mask replaced. */
  method MakePattern(x: int) returns (p: Image)
    ensures p == Pat(x)
  {
    var base := Pat(0x80_0000);
    var a := new byte[|base|](i requires 0 <= i < |base| => base[i]);
    assert a[..] == base;
    var bs := GetBytes(-x, 8);
    ModifyBytes(a, 0, bs);
    p := a[..];
    assert forall o :: 0 <= o < PAGE ==> p[o] == Pat(x)[o];
  }

  // ------------------------------------------------------------------- Round trip

  /** A page for `x`, outside the pages at `sites`, of which the first `n` bytes are in `s`;
      the rest will be zeros of the mask at the next site. */
  ghost predicate Arises(s: Image, sites: seq<nat>, j: nat, n: nat, x: int) {
    && !Inside(sites, j, PAGE) && NextSite(sites, j, n)
    && j + PAGE <= |s| && s[j..j + n] == Pat(x)[..n]
    && PAGE <= n + MASK_BYTES && forall o :: 0 <= o < PAGE - n ==> PatByte(x, o) == 0
  }

  /** The first site after `j` is `n` further on, or not within its page. */
  ghost predicate NextSite(sites: seq<nat>, j: nat, n: nat) {
    && n <= PAGE && (n < PAGE ==> j + n in sites)
    && forall m :: 0 <= m < |sites| && j < sites[m] < j + PAGE ==> sites[m] == j + n
  }

  /** Rewriting to another size and back restores the image if and only if no page for the
      new size stood, or arises, outside the pages found. */
  lemma RoundTrip(s: Image, t: Image, u: Image, there: seq<nat>, back: seq<nat>, orig: int, x: int)
    requires Found(s, there, orig) && MasksSet(s, t, there, x)
    requires Found(t, back, x) && MasksSet(t, u, back, orig)
    requires LowBytes(-orig, 8) != LowBytes(-x, 8)
    ensures u == s <==> forall j: nat, n: nat :: !Arises(s, there, j, n, x)
  {
    hide MasksSet, Arises, Pat, LowBytes;
    if forall j: nat, n: nat :: !Arises(s, there, j, n, x) {
      forall j: nat | Occurs(t, j, x)
        ensures Inside(there, j, PAGE)
      {
        if !Inside(there, j, PAGE) {
          StraysArise(s, t, there, orig, x, j);
        }
      }
      BackRestores(s, t, u, there, back, orig, x);
    } else {
      var j: nat, n: nat :| Arises(s, there, j, n, x);
      ArisenOccurs(s, t, there, orig, x, j, n);
      if u == s {
        RestoredSites(s, t, u, there, back, orig, x, j);
      }
    }
  }

  /** The sites keep their pages: after the rewrite they are occurrences for the new size. */
  lemma SiteOccurs(s: Image, t: Image, sites: seq<nat>, orig: int, x: int, m: nat)
    requires InOrder(s, sites, orig) && MasksSet(s, t, sites, x) && m < |sites|
    ensures Occurs(t, sites[m], x)
  {
    var i := sites[m];
    assert Occurs(s, i, orig);
    forall o: nat | o < PAGE
      ensures t[i + o] == PatByte(x, o)
    {
      if o < MASK_BYTES {
        assert t[i..i + 8][o] == LowBytes(-x, 8)[o];
      } else {
        OccursByte(s, i, orig, o);
        assert !Inside(sites, i + o, MASK_BYTES);
      }
    }
    BytesOccur(t, i, x);
  }

  /** An occurrence for the new size outside the pages found was there or has arisen. */
  lemma StraysArise(s: Image, t: Image, sites: seq<nat>, orig: int, x: int, j: nat)
    requires InOrder(s, sites, orig) && MasksSet(s, t, sites, x)
    requires Occurs(t, j, x) && !Inside(sites, j, PAGE)
    ensures exists n: nat :: Arises(s, sites, j, n, x)
  {
    hide MasksSet, InOrder, Pat, PatByte, LowBytes, Occurs;
    if m: nat :| m < |sites| && j < sites[m] < j + PAGE {
      var n := sites[m] - j;
      SiteOccurs(s, t, sites, orig, x, m);
      OverlapIsShort(t, j, x, sites[m], x);
      ZerosShared(t, j, x, n);
      OnlyNext(s, sites, orig, j, m);
      StrayStart(s, t, sites, orig, x, j, n);
      assert Arises(s, sites, j, n, x);
    } else {
      StrayStart(s, t, sites, orig, x, j, PAGE);
      assert Arises(s, sites, j, PAGE, x);
    }
  }

  lemma ZerosShared(t: Image, j: nat, x: int, n: nat)
    requires Occurs(t, j, x) && Occurs(t, j + n, x) && 32 <= n <= PAGE
    ensures forall o :: 0 <= o < PAGE - n ==> PatByte(x, o) == 0
  {
    forall o | 0 <= o < PAGE - n
      ensures PatByte(x, o) == 0
    {
      OccursByte(t, j, x, n + o);
      OccursByte(t, j + n, x, o);
    }
  }

  lemma OnlyNext(s: Image, sites: seq<nat>, orig: int, j: nat, m: nat)
    requires InOrder(s, sites, orig) && m < |sites| && j < sites[m] < j + PAGE
    ensures NextSite(sites, j, sites[m] - j)
  {
    assert sites[m] in sites;
  }

  /** Before the next site nothing was changed. */
  lemma BeforeNext(s: Image, t: Image, sites: seq<nat>, x: int, j: nat, n: nat)
    requires MasksSet(s, t, sites, x) && NextSite(sites, j, n) && !Inside(sites, j, PAGE)
    requires j + PAGE <= |s|
    ensures forall q :: j <= q < j + n ==> t[q] == s[q]
  {
    forall q | j <= q < j + n
      ensures t[q] == s[q]
    {
      assert !Inside(sites, q, MASK_BYTES);
    }
  }

  lemma StrayStart(s: Image, t: Image, sites: seq<nat>, orig: int, x: int, j: nat, n: nat)
    requires MasksSet(s, t, sites, x) && NextSite(sites, j, n) && !Inside(sites, j, PAGE)
    requires Occurs(t, j, x)
    ensures j + PAGE <= |s| && s[j..j + n] == Pat(x)[..n]
  {
    BeforeNext(s, t, sites, x, j, n);
    forall o | 0 <= o < n
      ensures s[j..j + n][o] == Pat(x)[o]
    {
      OccursByte(t, j, x, o);
    }
  }

  lemma ArisenOccurs(s: Image, t: Image, sites: seq<nat>, orig: int, x: int, j: nat, n: nat)
    requires InOrder(s, sites, orig) && MasksSet(s, t, sites, x) && Arises(s, sites, j, n, x)
    ensures Occurs(t, j, x) && !Inside(sites, j, PAGE)
  {
    hide TextByte, LowBytes;
    BeforeNext(s, t, sites, x, j, n);
    hide MasksSet, InOrder, PatByte, LowBytes;
    if n < PAGE {
      var m :| 0 <= m < |sites| && sites[m] == j + n;
      SiteOccurs(s, t, sites, orig, x, m);
    }
    forall o: nat | o < PAGE
      ensures t[j + o] == PatByte(x, o)
    {
      if o < n {
        assert s[j..j + n][o] == Pat(x)[..n][o];
      } else {
        OccursByte(t, j + n, x, o - n);
      }
    }
    BytesOccur(t, j, x);
  }

  /** If no occurrence strays, the way back finds the sites of the way there. */
  lemma {:induction false} SameSites(
      s: Image, t: Image, there: seq<nat>, back: seq<nat>, orig: int, x: int, k: nat)
    requires InOrder(s, there, orig) && MasksSet(s, t, there, x) && Found(t, back, x)
    requires forall j: nat :: Occurs(t, j, x) ==> Inside(there, j, PAGE)
    ensures k <= |there| <==> k <= |back|
    ensures k <= |there| ==> there[..k] == back[..k]
  {
    hide MasksSet, Pat, MatchesAt, LowBytes;
    if k > 0 {
      var l := k - 1;
      SameSites(s, t, there, back, orig, x, l);
      if l < |there| {
        SiteOccurs(s, t, there, orig, x, l);
        NextFound(there, back, l);
      }
      if l < |back| {
        assert Occurs(t, back[l], x);
        NextFound(back, there, l);
      }
    }
  }

  /** Up to `k` the sequences agree, so what covers the next page of one comes at `k`. */
  lemma NextFound(a: seq<nat>, b: seq<nat>, k: nat)
    requires k < |a| && k <= |b| && a[..k] == b[..k] && Inside(b, a[k], PAGE)
    requires forall m, n :: 0 <= m < n < |a| ==> a[m] + PAGE <= a[n]
    requires forall m, n :: 0 <= m < n < |b| ==> b[m] + PAGE <= b[n]
    ensures k < |b| && b[k] <= a[k]
  {
    forall n | 0 <= n < k
      ensures a[n] == b[n]
    {
      assert a[..k][n] == b[..k][n];
    }
    var m :| 0 <= m < |b| && b[m] <= a[k] < b[m] + PAGE;
  }

  lemma BackRestores(
      s: Image, t: Image, u: Image, there: seq<nat>, back: seq<nat>, orig: int, x: int)
    requires InOrder(s, there, orig) && MasksSet(s, t, there, x)
    requires Found(t, back, x) && MasksSet(t, u, back, orig)
    requires forall j: nat :: Occurs(t, j, x) ==> Inside(there, j, PAGE)
    ensures u == s
  {
    hide MasksSet, InOrder, Pat, LowBytes;
    SameSites(s, t, there, back, orig, x, |there|);
    SameSites(s, t, there, back, orig, x, |back|);
    assert there == back;
    MasksBack(s, t, u, there, orig, x);
  }

  lemma MasksBack(s: Image, t: Image, u: Image, sites: seq<nat>, orig: int, x: int)
    requires InOrder(s, sites, orig) && MasksSet(s, t, sites, x) && MasksSet(t, u, sites, orig)
    ensures u == s
  {
    hide Pat, LowBytes, Occurs;
    forall q | 0 <= q < |s|
      ensures u[q] == s[q]
    {
      if Inside(sites, q, MASK_BYTES) {
        var m :| 0 <= m < |sites| && sites[m] <= q < sites[m] + MASK_BYTES;
        var i := sites[m];
        MaskOf(s, i, orig);
        assert u[i..i + 8][q - i] == s[i..i + 8][q - i];
      }
    }
  }

  /** If the way back restores the image, each of its sites was one on the way there. */
  lemma RestoredSites(
      s: Image, t: Image, u: Image, there: seq<nat>, back: seq<nat>, orig: int, x: int, j: nat)
    requires InOrder(s, there, orig) && MasksSet(s, t, there, x)
    requires Found(t, back, x) && MasksSet(t, u, back, orig) && u == s
    requires LowBytes(-orig, 8) != LowBytes(-x, 8) && Occurs(t, j, x)
    ensures Inside(there, j, PAGE)
  {
    var m: nat :| m < |back| && back[m] <= j < back[m] + PAGE;
    SiteOccurs(t, u, back, x, orig, m);
    if back[m] !in there {
      UntouchedMask(s, t, there, orig, x, back[m]);
      MaskOf(t, back[m], x);
    }
  }

  /** With the same mask nothing changes. */
  lemma SameMaskUnchanged(s: Image, t: Image, sites: seq<nat>, orig: int, x: int)
    requires InOrder(s, sites, orig) && MasksSet(s, t, sites, x) && LowBytes(-orig, 8) == LowBytes(-x, 8)
    ensures t == s
  {
    hide LowBytes, Pat;
    forall q | 0 <= q < |s|
      ensures t[q] == s[q]
    {
      if Inside(sites, q, MASK_BYTES) {
        var m :| 0 <= m < |sites| && sites[m] <= q < sites[m] + MASK_BYTES;
        var i := sites[m];
        MaskOf(s, i, orig);
        assert t[i..i + 8][q - i] == s[i..i + 8][q - i];
      }
    }
  }

  lemma BothRuns(s: Image, t: Image, u: Image, there: seq<nat>, back: seq<nat>, orig: int, x: int)
    requires Found(s, there, orig) && MasksSet(s, t, there, x)
    requires Found(t, back, x) && MasksSet(t, u, back, orig)
    ensures u == s <==> LowBytes(-orig, 8) == LowBytes(-x, 8) || forall j: nat, n: nat :: !Arises(s, there, j, n, x)
  {
    hide MasksSet, InOrder, Arises;
    if LowBytes(-orig, 8) == LowBytes(-x, 8) {
      SameMaskUnchanged(s, t, there, orig, x);
      SameMaskUnchanged(t, u, back, x, orig);
    } else {
      RoundTrip(s, t, u, there, back, orig, x);
    }
  }

  /** The tool run twice, from one size to another and back, sizes in KB. */
  method ThereAndBack(a: array<byte>, origKb: int, newKb: int) returns (ghost there: seq<nat>)
    modifies a
    ensures var orig, x := origKb * 1024, newKb * 1024;
            && Found(old(a[..]), there, orig)
            && (a[..] == old(a[..])
                <==> LowBytes(-orig, 8) == LowBytes(-x, 8)
                     || forall j: nat, n: nat :: !Arises(old(a[..]), there, j, n, x))
  {
    hide Found, MasksSet, Arises, LowBytes;
    var orig, x := origKb * 1024, newKb * 1024;
    ghost var s := a[..];
    var cnt;
    var pattern := MakePattern(orig);
    cnt, there := ModifyGlobalStackSize(a, pattern, x, orig);
    ghost var t := a[..];
    ghost var back;
    pattern := MakePattern(x);
    cnt, back := ModifyGlobalStackSize(a, pattern, orig, x);
    BothRuns(s, t, a[..], there, back, orig, x);
  }

  /** From 64KB to 16MB and back an image without any page for 16MB may be lost. */
  lemma RoundTripLoses(
      s: Image, t: Image, u: Image, there: seq<nat>, back: seq<nat>, orig: int, x: int)
    requires orig == 0x1_0000 && x == 0x100_0000
    requires s == Pat(x)[..PAGE - 3] + Pat(orig)
    requires Found(s, there, orig) && MasksSet(s, t, there, x)
    requires Found(t, back, x) && MasksSet(t, u, back, orig)
    ensures u != s && forall i: nat :: !Occurs(s, i, x)
  {
    Masks64KTo16M(orig, x);
    assert s[PAGE - 3..PAGE - 3 + PAGE] == Pat(orig);
    assert Occurs(s, PAGE - 3, orig);
    forall i: nat
      ensures !Occurs(s, i, x) && (Occurs(s, i, orig) ==> i == PAGE - 3)
    {
      OnlyOnePage(s, orig, x, i);
    }
    OneSite(s, there, orig, PAGE - 3);
    assert Arises(s, there, 0, PAGE - 3, x);
    RoundTrip(s, t, u, there, back, orig, x);
  }

  lemma OneSite(s: Image, sites: seq<nat>, x: int, i: nat)
    requires Found(s, sites, x) && Occurs(s, i, x) && forall j: nat :: Occurs(s, j, x) ==> j == i
    ensures sites == [i]
  {
    assert Inside(sites, i, PAGE);
    forall m | 0 <= m < |sites|
      ensures sites[m] == i
    {
      assert Occurs(s, sites[m], x);
    }
    var first, last := sites[0], sites[|sites| - 1];
  }

  lemma Masks64KTo16M(orig: int, x: int)
    requires orig == 0x1_0000 && x == 0x100_0000
    ensures PatByte(orig, 2) == 0xff && PatByte(orig, 3) == 0xff && PatByte(x, 3) == 0xff
    ensures forall o :: 0 <= o < 8 ==> PatByte(orig, o) != 0x43
    ensures forall o :: 0 <= o < 3 ==> PatByte(x, o) == 0
    ensures LowBytes(-orig, 8) != LowBytes(-x, 8)
  {
    hide TextByte;
    assert LowBytes(-orig, 8) == [0, 0, 0xff, 0xff, 0xff, 0xff, 0xff, 0xff];
    assert LowBytes(-x, 8) == [0, 0, 0, 0xff, 0xff, 0xff, 0xff, 0xff];
    hide LowBytes;
  }

  lemma OnlyOnePage(s: Image, orig: int, x: int, i: nat)
    requires s == Pat(x)[..PAGE - 3] + Pat(orig)
    requires forall o :: 0 <= o < 3 ==> PatByte(x, o) == 0
    requires forall o :: 0 <= o < 8 ==> PatByte(orig, o) != 0x43
    requires PatByte(orig, 2) == 0xff && PatByte(orig, 3) == 0xff && PatByte(x, 3) == 0xff
    ensures !Occurs(s, i, x) && (Occurs(s, i, orig) ==> i == PAGE - 3)
  {
    hide Pat, LowBytes;
    SeamBytes(s, orig, x);
    if Occurs(s, i, orig) {
      OccursByte(s, i, orig, 2);
      OccursByte(s, i, orig, MASK_BYTES);
      TextFrom(s, orig, x, i);
    }
    if Occurs(s, i, x) {
      OccursByte(s, i, x, 2);
      OccursByte(s, i, x, 3);
      OccursByte(s, i, x, MASK_BYTES);
      OccursByte(s, i, x, PAGE - 1);
      TextFrom(s, orig, x, i);
    }
  }

  lemma SeamBytes(s: Image, orig: int, x: int)
    requires s == Pat(x)[..PAGE - 3] + Pat(orig)
    ensures forall q :: 0 <= q < PAGE - 3 ==> s[q] == PatByte(x, q)
    ensures forall q :: PAGE - 3 <= q < |s| ==> s[q] == PatByte(orig, q - (PAGE - 3))
  {
  }

  lemma TextFrom(s: Image, orig: int, x: int, i: nat)
    requires s == Pat(x)[..PAGE - 3] + Pat(orig)
    requires i + PAGE <= |s| && s[i + MASK_BYTES] == 0x43
    requires forall o :: 0 <= o < 8 ==> PatByte(orig, o) != 0x43
    ensures i == 0 || i == 8 || i == 16 || i == PAGE - 3
  {
    hide Pat, LowBytes;
    SeamBytes(s, orig, x);
    if i + MASK_BYTES < PAGE - 3 {
      MarkOffsets(x, i + MASK_BYTES);
    }
  }
}
