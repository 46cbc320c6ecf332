/** The greedy scan of code_rewriter.py, in place, and why it is exact. */
module CodeScan {
  import opened Bytes
  import opened CodeRewriter

  // -------------------------------------------------------------- One patched site

  datatype Site = Site(at: nat, kind: Kind)

  /** modify_prolog_bytes and modify_epilog_bytes: the three immediates of one site. */
  function WithImmediates(s: Image, i: nat, k: Kind, x: int): (t: Image)
    requires i + Len(k) <= |s|
    ensures |t| == |s|
  {
    Patched(Patched(Patched(s, i + First(k), LowBytes(-x, 4)), i + Second(k), LowBytes(-x, 4)),
            i + Double(k), LowBytes(-2 * x, 4))
  }

  lemma PatchedByte(s: Image, i: nat, bs: Image, q: nat)
    requires i + |bs| <= |s| && q < |s|
    ensures Patched(s, i, bs)[q] == if i <= q < i + |bs| then bs[q - i] else s[q]
  {
  }

  lemma WithImmediatesByte(s: Image, i: nat, k: Kind, x: int, q: nat)
    requires i + Len(k) <= |s| && q < |s|
    ensures WithImmediates(s, i, k, x)[q]
         == if i + First(k) <= q < i + First(k) + 4 then LowBytes(-x, 4)[q - i - First(k)]
            else if i + Second(k) <= q < i + Second(k) + 4 then LowBytes(-x, 4)[q - i - Second(k)]
            else if i + Double(k) <= q < i + Double(k) + 4 then LowBytes(-2 * x, 4)[q - i - Double(k)]
            else s[q]
  {
    hide LowBytes, Base;
    var s1 := Patched(s, i + First(k), LowBytes(-x, 4));
    var s2 := Patched(s1, i + Second(k), LowBytes(-x, 4));
    PatchedByte(s, i + First(k), LowBytes(-x, 4), q);
    PatchedByte(s1, i + Second(k), LowBytes(-x, 4), q);
    PatchedByte(s2, i + Double(k), LowBytes(-2 * x, 4), q);
  }

  /** Patching an occurrence makes it one for the new size and touches nothing else. */
  lemma PatchTurnsSite(s: Image, i: nat, k: Kind, orig: int, x: int)
    requires Occurs(s, i, k, orig)
    ensures Occurs(WithImmediates(s, i, k, x), i, k, x)
    ensures forall q: nat :: q < |s| && !(i <= q < i + Len(k)) ==> WithImmediates(s, i, k, x)[q] == s[q]
  {
    hide Base;
    var t := WithImmediates(s, i, k, x);
    forall o: nat | o < Len(k)
      ensures t[i + o] == PatByte(k, x, o)
    {
      OccursByte(s, i, k, orig, o);
      WithImmediatesByte(s, i, k, x, i + o);
    }
    BytesOccur(t, i, k, x);
    forall q: nat | q < |s| && !(i <= q < i + Len(k))
      ensures t[q] == s[q]
    {
      WithImmediatesByte(s, i, k, x, q);
    }
  }

  lemma BytesOccur(t: Image, i: nat, k: Kind, x: int)
    requires i + Len(k) <= |t| && forall o: nat :: o < Len(k) ==> t[i + o] == PatByte(k, x, o)
    ensures Occurs(t, i, k, x)
  {
    var w := t[i..i + Len(k)];
    forall o | 0 <= o < Len(k)
      ensures w[o] == Pat(k, x)[o]
    {
      assert w[o] == t[i + o];
    }
    assert w == Pat(k, x);
  }

  // ------------------------------------------------------------------- The scan

  /** The sites that the skip-ahead scan patches, from position `i` on. */
  function Greedy(s: Image, x: int, i: nat): seq<Site>
    decreases |s| - i
  {
    if i + Len(Pro) > |s| then []
    else if Occurs(s, i, Pro, x) then [Site(i, Pro)] + Greedy(s, x, i + Len(Pro))
    else if Occurs(s, i, Epi, x) then [Site(i, Epi)] + Greedy(s, x, i + Len(Epi))
    else Greedy(s, x, i + 1)
  }

  /** The image with the sites patched, in order. */
  function Applied(s: Image, sites: seq<Site>, x: int): (t: Image)
    ensures |t| == |s|
  {
    if sites == [] then s
    else
      var site, t := sites[|sites| - 1], Applied(s, sites[..|sites| - 1], x);
      if site.at + Len(site.kind) <= |s| then WithImmediates(t, site.at, site.kind, x) else t
  }

  function Count(sites: seq<Site>, k: Kind): nat {
    if sites == [] then 0
    else Count(sites[..|sites| - 1], k) + if sites[|sites| - 1].kind == k then 1 else 0
  }

  /** Sites come in order and do not overlap, and each is an occurrence. */
  predicate InOrder(s: Image, sites: seq<Site>, x: int, from: nat) {
    && (forall m :: 0 <= m < |sites| ==> from <= sites[m].at && Occurs(s, sites[m].at, sites[m].kind, x))
    && (forall m, n :: 0 <= m < n < |sites| ==> sites[m].at + Len(sites[m].kind) <= sites[n].at)
  }

  lemma {:induction false} GreedyInOrder(s: Image, x: int, i: nat)
    ensures InOrder(s, Greedy(s, x, i), x, i)
    decreases |s| - i
  {
    if i + Len(Pro) > |s| {
    } else if Occurs(s, i, Pro, x) {
      GreedyInOrder(s, x, i + Len(Pro));
      OrderExtends(s, Site(i, Pro), Greedy(s, x, i + Len(Pro)), x);
    } else if Occurs(s, i, Epi, x) {
      GreedyInOrder(s, x, i + Len(Epi));
      OrderExtends(s, Site(i, Epi), Greedy(s, x, i + Len(Epi)), x);
    } else {
      GreedyInOrder(s, x, i + 1);
    }
  }

  lemma OrderExtends(s: Image, site: Site, rest: seq<Site>, x: int)
    requires Occurs(s, site.at, site.kind, x) && InOrder(s, rest, x, site.at + Len(site.kind))
    ensures InOrder(s, [site] + rest, x, site.at)
  {
    var sites := [site] + rest;
    forall m | 0 <= m < |sites|
      ensures site.at <= sites[m].at && Occurs(s, sites[m].at, sites[m].kind, x)
    {
      assert m > 0 ==> sites[m] == rest[m - 1];
    }
    forall m, n | 0 <= m < n < |sites|
      ensures sites[m].at + Len(sites[m].kind) <= sites[n].at
    {
      assert sites[n] == rest[n - 1] && (m > 0 ==> sites[m] == rest[m - 1]);
    }
  }

  /** The image holds no overlapping code for this size. */
  ghost predicate Apart(s: Image, x: int) {
    forall i: nat, k: Kind, j: nat, k': Kind :: !Overlap(s, x, i, k, j, k')
  }

  /** The scan misses no occurrence. */
  ghost predicate Complete(s: Image, x: int) {
    forall j: nat, k: Kind :: Occurs(s, j, k, x) ==> Site(j, k) in Greedy(s, x, 0)
  }

  lemma UnambiguousApart(s: Image, x: int)
    requires Unambiguous(x)
    ensures Apart(s, x)
  {
    hide Unambiguous, Occurs;
    forall i: nat, k: Kind, j: nat, k': Kind
      ensures !Overlap(s, x, i, k, j, k')
    {
      if Overlap(s, x, i, k, j, k') {
        NoOverlap(s, i, k, x, j, k', x);
      }
    }
  }

  lemma {:induction false} GreedyComplete(s: Image, x: int, i: nat, j: nat, k: Kind)
    requires Apart(s, x) && Occurs(s, j, k, x) && i <= j
    ensures Site(j, k) in Greedy(s, x, i)
    decreases |s| - i
  {
    hide Base, Apart;
    if Occurs(s, i, Pro, x) {
      GreedySkips(s, x, i, Pro, j, k);
    } else if Occurs(s, i, Epi, x) {
      GreedySkips(s, x, i, Epi, j, k);
    } else {
      GreedyComplete(s, x, i + 1, j, k);
    }
  }

  lemma {:induction false} GreedySkips(s: Image, x: int, i: nat, here: Kind, j: nat, k: Kind)
    requires Apart(s, x) && Occurs(s, j, k, x) && i <= j && Occurs(s, i, here, x)
    requires Greedy(s, x, i) == [Site(i, here)] + Greedy(s, x, i + Len(here))
    ensures Site(j, k) in Greedy(s, x, i)
    decreases |s| - i, 0
  {
    if i == j {
      OneKind(s, i, here, x, k, x);
      assert Greedy(s, x, i)[0] == Site(j, k);
    } else {
      assert !Overlap(s, x, i, here, j, k);
      GreedyComplete(s, x, i + Len(here), j, k);
    }
  }

  /** Exactly when no two occurrences overlap. */
  lemma CompleteExactly(s: Image, x: int)
    ensures Complete(s, x) <==> Apart(s, x)
  {
    if Apart(s, x) {
      forall j: nat, k: Kind | Occurs(s, j, k, x)
        ensures Site(j, k) in Greedy(s, x, 0)
      {
        GreedyComplete(s, x, 0, j, k);
      }
    }
    if Complete(s, x) {
      CompleteIsApart(s, x);
    }
  }

  lemma CompleteIsApart(s: Image, x: int)
    requires Complete(s, x)
    ensures Apart(s, x)
  {
    hide Greedy, Occurs;
    var sites := Greedy(s, x, 0);
    GreedyInOrder(s, x, 0);
    forall i: nat, k: Kind, j: nat, k': Kind
      ensures !Overlap(s, x, i, k, j, k')
    {
      if Occurs(s, i, k, x) && Occurs(s, j, k', x) {
        var m :| 0 <= m < |sites| && sites[m] == Site(i, k);
        var n :| 0 <= n < |sites| && sites[n] == Site(j, k');
        SitesApart(s, sites, x, m, n);
      }
    }
  }

  lemma SitesApart(s: Image, sites: seq<Site>, x: int, m: nat, n: nat)
    requires InOrder(s, sites, x, 0) && m < |sites| && n < |sites|
    ensures !Overlap(s, x, sites[m].at, sites[m].kind, sites[n].at, sites[n].kind)
  {
    hide Occurs;
    assert m < n || m == n || n < m;
  }

  // ------------------------------------------------------------- What it leaves behind

  predicate InSites(sites: seq<Site>, q: nat) {
    exists m :: 0 <= m < |sites| && sites[m].at <= q < sites[m].at + Len(sites[m].kind)
  }

  predicate AllOccur(t: Image, sites: seq<Site>, x: int) {
    forall m :: 0 <= m < |sites| ==> Occurs(t, sites[m].at, sites[m].kind, x)
  }

  /** All sites patched, and every byte outside them as before. */
  lemma {:induction false} AppliedDoes(s: Image, sites: seq<Site>, orig: int, x: int)
    requires InOrder(s, sites, orig, 0)
    ensures AllOccur(Applied(s, sites, x), sites, x)
    ensures forall q: nat :: q < |s| && !InSites(sites, q) ==> Applied(s, sites, x)[q] == s[q]
  {
    hide Occurs, WithImmediates;
    if sites != [] {
      var n := |sites| - 1;
      var init, site := sites[..n], sites[n];
      var t := Applied(s, init, x);
      AppliedDoes(s, init, orig, x);
      SiteStillThere(s, t, sites, orig, n);
      OccursFits(t, site.at, site.kind, orig);
      PatchTurnsSite(t, site.at, site.kind, orig, x);
      EarlierSitesStay(s, t, WithImmediates(t, site.at, site.kind, x), sites, orig, x);
      LastSiteToo(WithImmediates(t, site.at, site.kind, x), sites, x);
      OutsideStays(s, t, WithImmediates(t, site.at, site.kind, x), sites);
    }
  }

  lemma OccursFits(s: Image, i: nat, k: Kind, x: int)
    requires Occurs(s, i, k, x)
    ensures i + Len(k) <= |s|
  {
  }

  lemma LastSiteToo(u: Image, sites: seq<Site>, x: int)
    requires sites != [] && AllOccur(u, sites[..|sites| - 1], x)
    requires Occurs(u, sites[|sites| - 1].at, sites[|sites| - 1].kind, x)
    ensures AllOccur(u, sites, x)
  {
    hide Occurs;
    forall m | 0 <= m < |sites| - 1
      ensures Occurs(u, sites[m].at, sites[m].kind, x)
    {
      assert sites[..|sites| - 1][m] == sites[m];
    }
  }

  lemma EarlierSitesStay(s: Image, t: Image, u: Image, sites: seq<Site>, orig: int, x: int)
    requires InOrder(s, sites, orig, 0) && sites != [] && |u| == |t|
    requires AllOccur(t, sites[..|sites| - 1], x)
    requires forall q: nat :: q < |t| && q < sites[|sites| - 1].at ==> u[q] == t[q]
    ensures AllOccur(u, sites[..|sites| - 1], x)
  {
    var init := sites[..|sites| - 1];
    forall m | 0 <= m < |init|
      ensures Occurs(u, init[m].at, init[m].kind, x)
    {
      assert init[m] == sites[m];
      KeptOccurs(t, u, init[m].at, init[m].kind, x);
    }
  }

  lemma OutsideStays(s: Image, t: Image, u: Image, sites: seq<Site>)
    requires sites != [] && |t| == |s| && |u| == |s|
    requires forall q: nat :: q < |s| && !InSites(sites[..|sites| - 1], q) ==> t[q] == s[q]
    requires var site := sites[|sites| - 1];
             forall q: nat :: q < |t| && !(site.at <= q < site.at + Len(site.kind)) ==> u[q] == t[q]
    ensures forall q: nat :: q < |s| && !InSites(sites, q) ==> u[q] == s[q]
  {
    forall q: nat | q < |s| && !InSites(sites, q)
      ensures u[q] == s[q]
    {
      if InSites(sites[..|sites| - 1], q) {
        InitSites(sites, q);
      }
    }
  }

  lemma InitSites(sites: seq<Site>, q: nat)
    requires sites != [] && InSites(sites[..|sites| - 1], q)
    ensures InSites(sites, q)
  {
    var init := sites[..|sites| - 1];
    var m :| 0 <= m < |init| && init[m].at <= q < init[m].at + Len(init[m].kind);
    assert sites[m] == init[m];
  }

  lemma KeptOccurs(t: Image, u: Image, i: nat, k: Kind, x: int)
    requires |u| == |t| && Occurs(t, i, k, x)
    requires forall q: nat :: i <= q < i + Len(k) ==> u[q] == t[q]
    ensures Occurs(u, i, k, x)
  {
    assert u[i..i + Len(k)] == t[i..i + Len(k)];
  }

  /** The earlier sites leave the next one untouched. */
  lemma SiteStillThere(s: Image, t: Image, sites: seq<Site>, orig: int, n: nat)
    requires InOrder(s, sites, orig, 0) && n < |sites| && |t| == |s|
    requires forall q: nat :: q < |s| && !InSites(sites[..n], q) ==> t[q] == s[q]
    ensures Occurs(t, sites[n].at, sites[n].kind, orig)
  {
    var site := sites[n];
    forall q: nat | site.at <= q < site.at + Len(site.kind)
      ensures t[q] == s[q]
    {
      if InSites(sites[..n], q) {
        EarlierSitesEnd(s, sites, orig, n, q);
      }
    }
    KeptOccurs(s, t, site.at, site.kind, orig);
  }

  lemma EarlierSitesEnd(s: Image, sites: seq<Site>, orig: int, n: nat, q: nat)
    requires InOrder(s, sites, orig, 0) && n < |sites| && InSites(sites[..n], q)
    ensures q < sites[n].at
  {
    var m :| 0 <= m < n && sites[..n][m].at <= q < sites[..n][m].at + Len(sites[..n][m].kind);
    assert sites[m] == sites[..n][m];
  }

  /** Exactness: every occurrence is replaced by one for the new size and nothing else changes,
      if and only if no occurrences overlap, or the two sizes have the same code. */
  lemma ScanIsExact(s: Image, orig: int, x: int)
    ensures Rewritten(s, Applied(s, Greedy(s, orig, 0), x), orig, x) <==> Apart(s, orig) || SameCode(orig, x)
  {
    hide Rewritten, SameCode, Apart, Complete, Applied, Greedy;
    var t := Applied(s, Greedy(s, orig, 0), x);
    CompleteExactly(s, orig);
    if Complete(s, orig) {
      CompleteIsExact(s, orig, x);
    } else if SameCode(orig, x) {
      SameCodeIsExact(s, orig, x);
    } else if Rewritten(s, t, orig, x) {
      ExactIsComplete(s, orig, x);
    }
  }

  lemma CompleteIsExact(s: Image, orig: int, x: int)
    requires Complete(s, orig)
    ensures Rewritten(s, Applied(s, Greedy(s, orig, 0), x), orig, x)
  {
    hide Greedy, Applied;
    var sites := Greedy(s, orig, 0);
    var t := Applied(s, sites, x);
    GreedyInOrder(s, orig, 0);
    AppliedDoes(s, sites, orig, x);
    forall i: nat, k: Kind | Occurs(s, i, k, orig)
      ensures Occurs(t, i, k, x)
    {
      var m :| 0 <= m < |sites| && sites[m] == Site(i, k);
    }
    forall q: nat | q < |s| && !Covered(s, orig, q)
      ensures t[q] == s[q]
    {
      if InSites(sites, q) {
        InSitesCovered(s, sites, orig, q);
      }
    }
  }

  /** With the same code the scan writes what was there. */
  lemma SameCodeIsExact(s: Image, orig: int, x: int)
    requires SameCode(orig, x)
    ensures Rewritten(s, Applied(s, Greedy(s, orig, 0), x), orig, x)
  {
    hide Greedy, Applied, Occurs, SameCode;
    var sites := Greedy(s, orig, 0);
    var t := Applied(s, sites, x);
    GreedyInOrder(s, orig, 0);
    AppliedDoes(s, sites, orig, x);
    forall q: nat | q < |s|
      ensures t[q] == s[q]
    {
      if InSites(sites, q) {
        var m :| 0 <= m < |sites| && sites[m].at <= q < sites[m].at + Len(sites[m].kind);
        SameCodeSameByte(s, t, orig, x, sites[m].at, sites[m].kind, q);
      }
    }
    SameCodeOccurs(s, t, orig, x);
  }

  lemma SameCodeOccurs(s: Image, t: Image, orig: int, x: int)
    requires SameCode(orig, x) && |t| == |s| && forall q: nat :: q < |s| ==> t[q] == s[q]
    ensures Rewritten(s, t, orig, x)
  {
    hide SameCode, Pat;
    assert t == s;
    SameCodeSamePat(Pro, orig, x);
    SameCodeSamePat(Epi, orig, x);
  }

  lemma ExactIsComplete(s: Image, orig: int, x: int)
    requires Rewritten(s, Applied(s, Greedy(s, orig, 0), x), orig, x) && !SameCode(orig, x)
    ensures Complete(s, orig)
  {
    hide Greedy, Applied, Occurs, SameCode;
    var sites := Greedy(s, orig, 0);
    GreedyInOrder(s, orig, 0);
    AppliedDoes(s, sites, orig, x);
    forall j: nat, k: Kind | Occurs(s, j, k, orig)
      ensures Site(j, k) in sites
    {
      if Site(j, k) !in sites {
        MissedMeansSame(s, Applied(s, sites, x), sites, orig, x, j, k);
      }
    }
  }

  /** The first immediate of an occurrence and the doubled one lie in no other. */
  predicate InCore(k: Kind, o: nat) {
    First(k) <= o < First(k) + 4 || Double(k) <= o < Double(k) + 4
  }

  lemma CoreOfOne(s: Image, j: nat, k: Kind, x: int, o: nat, l: nat, k': Kind)
    requires Occurs(s, j, k, x) && Occurs(s, l, k', x) && InCore(k, o) && l <= j + o < l + Len(k')
    ensures l == j && k' == k
  {
    hide Occurs, Base;
    if l < j {
      OverlapAtEnd(s, l, k', x, j, k, x);
    } else if j < l {
      OverlapAtEnd(s, j, k, x, l, k', x);
    } else {
      OneKind(s, j, k, x, k', x);
    }
  }

  /** An occurrence that the scan missed keeps these immediates. */
  lemma MissedMeansSame(s: Image, t: Image, sites: seq<Site>, orig: int, x: int, j: nat, k: Kind)
    requires InOrder(s, sites, orig, 0) && |t| == |s| && Site(j, k) !in sites
    requires forall q: nat :: q < |s| && !InSites(sites, q) ==> t[q] == s[q]
    requires Occurs(s, j, k, orig) && Occurs(t, j, k, x)
    ensures SameCode(orig, x)
  {
    hide Occurs, PatByte, Base;
    forall o: nat | o < Len(k) && InCore(k, o)
      ensures PatByte(k, x, o) == PatByte(k, orig, o)
    {
      OccursByte(s, j, k, orig, o);
      OccursByte(t, j, k, x, o);
      if InSites(sites, j + o) {
        var m :| 0 <= m < |sites| && sites[m].at <= j + o < sites[m].at + Len(sites[m].kind);
        CoreOfOne(s, j, k, orig, o, sites[m].at, sites[m].kind);
        assert false;
      }
    }
    CoreDecides(k, orig, x);
  }

  lemma CoreDecides(k: Kind, x: int, y: int)
    requires forall o: nat :: o < Len(k) && InCore(k, o) ==> PatByte(k, y, o) == PatByte(k, x, o)
    ensures SameCode(x, y)
  {
    hide LowBytes, Base;
    var a, b, c, d := LowBytes(-x, 4), LowBytes(-y, 4), LowBytes(-2 * x, 4), LowBytes(-2 * y, 4);
    forall o | 0 <= o < 4
      ensures a[o] == b[o] && c[o] == d[o]
    {
      assert InCore(k, First(k) + o) && InCore(k, Double(k) + o);
    }
    assert a == b && c == d;
  }

  lemma InSitesCovered(s: Image, sites: seq<Site>, x: int, q: nat)
    requires InOrder(s, sites, x, 0) && InSites(sites, q)
    ensures Covered(s, x, q)
  {
    var m :| 0 <= m < |sites| && sites[m].at <= q < sites[m].at + Len(sites[m].kind);
    assert Occurs(s, sites[m].at, sites[m].kind, x);
  }

  // ------------------------------------------------------------------ The counts

  function Places(sites: seq<Site>, k: Kind): set<nat> {
    set m | 0 <= m < |sites| && sites[m].kind == k :: sites[m].at
  }

  /** Where code of one kind for size `x` occurs. */
  ghost function Occurrences(s: Image, k: Kind, x: int): set<nat> {
    set i: nat | i < |s| && Occurs(s, i, k, x)
  }

  lemma {:induction false} CountIsSize(s: Image, sites: seq<Site>, x: int, k: Kind)
    requires InOrder(s, sites, x, 0)
    ensures Count(sites, k) == |Places(sites, k)|
  {
    if sites != [] {
      var n := |sites| - 1;
      CountIsSize(s, sites[..n], x, k);
      PlacesGrow(s, sites, x, k);
    }
  }

  lemma PlacesGrow(s: Image, sites: seq<Site>, x: int, k: Kind)
    requires InOrder(s, sites, x, 0) && sites != []
    ensures var n := |sites| - 1;
            && Places(sites, k) == Places(sites[..n], k) + (if sites[n].kind == k then {sites[n].at} else {})
            && sites[n].at !in Places(sites[..n], k)
  {
    hide Base;
    var n := |sites| - 1;
    forall a | a in Places(sites, k)
      ensures a in Places(sites[..n], k) + (if sites[n].kind == k then {sites[n].at} else {})
    {
      var m :| 0 <= m < |sites| && sites[m].kind == k && sites[m].at == a;
      if m < n {
        assert sites[..n][m] == sites[m];
      }
    }
    forall a | a in Places(sites[..n], k)
      ensures a in Places(sites, k) && a != sites[n].at
    {
      var m :| 0 <= m < n && sites[..n][m].kind == k && sites[..n][m].at == a;
      assert sites[m] == sites[..n][m];
    }
  }

  /** What the scan counts are occurrences; it counts all of a kind or fewer. */
  lemma CountIsPlaces(s: Image, x: int, k: Kind)
    ensures Places(Greedy(s, x, 0), k) <= Occurrences(s, k, x)
    ensures Count(Greedy(s, x, 0), k) == |Places(Greedy(s, x, 0), k)|
    ensures Count(Greedy(s, x, 0), k) == |Occurrences(s, k, x)|
       <==> forall j: nat :: Occurs(s, j, k, x) ==> Site(j, k) in Greedy(s, x, 0)
  {
    hide Greedy;
    var sites := Greedy(s, x, 0);
    GreedyInOrder(s, x, 0);
    CountIsSize(s, sites, x, k);
    var a, b := Places(sites, k), Occurrences(s, k, x);
    assert a <= b;
    SameSize(a, b);
    if a == b {
      forall j: nat | Occurs(s, j, k, x)
        ensures Site(j, k) in sites
      {
        assert j in Occurrences(s, k, x);
        var m :| 0 <= m < |sites| && sites[m].kind == k && sites[m].at == j;
      }
    } else {
      var j :| j in b && j !in a;
      assert Site(j, k) !in sites;
    }
  }

  lemma SameSize(a: set<nat>, b: set<nat>)
    requires a <= b
    ensures |a| == |b| <==> a == b
  {
    assert b == a + (b - a);
    assert |b| == |a| + |b - a|;
  }

  /** The scan returns the true numbers of prologues and epilogues if and only if no
      occurrences overlap. */
  lemma CountsAreTrue(s: Image, x: int)
    ensures (forall k: Kind :: Count(Greedy(s, x, 0), k) == |Occurrences(s, k, x)|) <==> Apart(s, x)
  {
    hide Occurs, Occurrences, Greedy, Count, Apart;
    CompleteExactly(s, x);
    if Complete(s, x) {
      forall k: Kind
        ensures Count(Greedy(s, x, 0), k) == |Occurrences(s, k, x)|
      {
        CountIsPlaces(s, x, k);
      }
    } else {
      var j: nat, k: Kind :| Occurs(s, j, k, x) && Site(j, k) !in Greedy(s, x, 0);
      CountIsPlaces(s, x, k);
    }
  }

  lemma CountsOfBoth(s: Image, x: int)
    ensures (forall k: Kind :: Count(Greedy(s, x, 0), k) == |Occurrences(s, k, x)|)
       <==> Count(Greedy(s, x, 0), Pro) == |Occurrences(s, Pro, x)|
            && Count(Greedy(s, x, 0), Epi) == |Occurrences(s, Epi, x)|
  {
    hide Occurrences, Greedy, Count;
    var sites := Greedy(s, x, 0);
    if Count(sites, Pro) == |Occurrences(s, Pro, x)| && Count(sites, Epi) == |Occurrences(s, Epi, x)| {
      forall k: Kind
        ensures Count(Greedy(s, x, 0), k) == |Occurrences(s, k, x)|
      {
        if k == Pro {
        } else {
          assert k == Epi;
        }
      }
    }
  }

  // ------------------------------------------------------------------- The methods

  /** modify_prolog_bytes and modify_epilog_bytes. */
  method ModifySite(a: array<byte>, i: nat, k: Kind, x: int)
    requires i + Len(k) <= a.Length
    modifies a
    ensures a[..] == WithImmediates(old(a[..]), i, k, x)
  {
    hide Patched, LowBytes;
    var bs := GetBytes(-x, 4);
    ModifyBytes(a, i + First(k), bs);
    ModifyBytes(a, i + Second(k), bs);
    bs := GetBytes(-2 * x, 4);
    ModifyBytes(a, i + Double(k), bs);
  }

  /** modify_all_prologs_and_epilogs. */
  method ModifyAll(a: array<byte>, prolog: Image, epilog: Image, x: int, ghost orig: int)
      returns (proCnt: nat, epiCnt: nat)
    requires prolog == Pat(Pro, orig) && epilog == Pat(Epi, orig)
    modifies a
    ensures a[..] == Applied(old(a[..]), Greedy(old(a[..]), orig, 0), x)
    ensures proCnt == Count(Greedy(old(a[..]), orig, 0), Pro) && epiCnt == Count(Greedy(old(a[..]), orig, 0), Epi)
    ensures Rewritten(old(a[..]), a[..], orig, x) <==> Apart(old(a[..]), orig) || SameCode(orig, x)
    ensures proCnt == |Occurrences(old(a[..]), Pro, orig)| && epiCnt == |Occurrences(old(a[..]), Epi, orig)|
       <==> Apart(old(a[..]), orig)
  {
    hide Scanned, Greedy, Applied, WithImmediates, Occurs, MatchesAt, Base, PatByte;
    hide Rewritten, Occurrences, Apart, SameCode;
    ghost var s := a[..];
    ghost var sites: seq<Site> := [];
    var i := 0;
    proCnt, epiCnt := 0, 0;
    ScanStarts(s, orig, x);
    while i <= a.Length - |prolog|
      invariant a.Length == |s| && Scanned(s, a[..], sites, i, orig, x)
      invariant proCnt == Count(sites, Pro) && epiCnt == Count(sites, Epi)
    {
      Ahead(s, a[..], sites, i, Pro, orig, x);
      Ahead(s, a[..], sites, i, Epi, orig, x);
      var pro := IsMatching(a, i, prolog);
      if pro {
        Advance(s, a[..], sites, i, Pro, orig, x);
        CountOneMore(sites, Site(i, Pro));
        ModifySite(a, i, Pro, x);
        sites := sites + [Site(i, Pro)];
        proCnt := proCnt + 1;
        i := i + |prolog|;
      } else {
        var epi := IsMatching(a, i, epilog);
        if epi {
          Advance(s, a[..], sites, i, Epi, orig, x);
          CountOneMore(sites, Site(i, Epi));
          ModifySite(a, i, Epi, x);
          sites := sites + [Site(i, Epi)];
          epiCnt := epiCnt + 1;
          i := i + |epilog|;
        } else {
          NoSiteHere(s, a[..], sites, i, orig, x);
          i := i + 1;
        }
      }
    }
    ScanEnds(s, a[..], sites, i, orig, x);
    ScanIsExact(s, orig, x);
    CountsAreTrue(s, orig);
    CountsOfBoth(s, orig);
  }

  /** The loop's state at position `i`: `sites` are patched, the rest is still to be scanned. */
  ghost predicate Scanned(s: Image, t: Image, sites: seq<Site>, i: nat, orig: int, x: int) {
    && t == Applied(s, sites, x) && SameFrom(s, t, i)
    && Greedy(s, orig, 0) == sites + Greedy(s, orig, i)
  }

  lemma ScanStarts(s: Image, orig: int, x: int)
    ensures Scanned(s, s, [], 0, orig, x)
  {
  }

  lemma NoSiteHere(s: Image, t: Image, sites: seq<Site>, i: nat, orig: int, x: int)
    requires Scanned(s, t, sites, i, orig, x) && i + Len(Pro) <= |s|
    requires !Occurs(s, i, Pro, orig) && !Occurs(s, i, Epi, orig)
    ensures Scanned(s, t, sites, i + 1, orig, x)
  {
  }

  /** What matches in the image being patched is what occurred in the original. */
  lemma Ahead(s: Image, t: Image, sites: seq<Site>, i: nat, k: Kind, orig: int, x: int)
    requires Scanned(s, t, sites, i, orig, x)
    ensures MatchesAt(t, i, Pat(k, orig)) <==> Occurs(s, i, k, orig)
    ensures Occurs(s, i, k, orig) ==> i + Len(k) <= |t|
  {
    AheadUnchanged(s, t, i, k, orig);
  }

  lemma ScanEnds(s: Image, t: Image, sites: seq<Site>, i: nat, orig: int, x: int)
    requires Scanned(s, t, sites, i, orig, x) && i + Len(Pro) > |s|
    ensures sites == Greedy(s, orig, 0) && t == Applied(s, Greedy(s, orig, 0), x)
  {
  }

  /** The images agree from `i` on. */
  predicate SameFrom(s: Image, t: Image, i: nat) {
    |t| == |s| && forall q :: i <= q < |s| ==> t[q] == s[q]
  }

  lemma AheadUnchanged(s: Image, t: Image, i: nat, k: Kind, x: int)
    requires SameFrom(s, t, i)
    ensures Occurs(t, i, k, x) <==> Occurs(s, i, k, x)
  {
    if i + Len(k) <= |s| {
      assert t[i..i + Len(k)] == s[i..i + Len(k)];
    }
  }

  lemma PatchedAhead(s: Image, t: Image, i: nat, k: Kind, x: int)
    requires i + Len(k) <= |t| && SameFrom(s, t, i)
    ensures SameFrom(s, WithImmediates(t, i, k, x), i + Len(k))
  {
    forall q | i + Len(k) <= q < |t|
      ensures WithImmediates(t, i, k, x)[q] == t[q]
    {
      WithImmediatesByte(t, i, k, x, q);
    }
  }

  /** One more site found at the cursor. */
  lemma Advance(s: Image, t: Image, sites: seq<Site>, i: nat, k: Kind, orig: int, x: int)
    requires Occurs(s, i, k, orig) && (k == Epi ==> !Occurs(s, i, Pro, orig)) && |t| == |s|
    requires Scanned(s, t, sites, i, orig, x)
    ensures Scanned(s, WithImmediates(t, i, k, x), sites + [Site(i, k)], i + Len(k), orig, x)
  {
    hide Base;
    PatchedAhead(s, t, i, k, x);
    GreedyAt(s, orig, i, k);
    assert Greedy(s, orig, 0) == (sites + [Site(i, k)]) + Greedy(s, orig, i + Len(k));
    AppliedOneMore(s, sites, Site(i, k), x);
  }

  lemma AppliedOneMore(s: Image, sites: seq<Site>, site: Site, x: int)
    requires site.at + Len(site.kind) <= |s|
    ensures Applied(s, sites + [site], x) == WithImmediates(Applied(s, sites, x), site.at, site.kind, x)
  {
    assert (sites + [site])[..|sites|] == sites;
  }

  lemma CountOneMore(sites: seq<Site>, site: Site)
    ensures Count(sites + [site], Pro) == Count(sites, Pro) + if site.kind == Pro then 1 else 0
    ensures Count(sites + [site], Epi) == Count(sites, Epi) + if site.kind == Epi then 1 else 0
  {
    assert (sites + [site])[..|sites|] == sites;
  }

  lemma GreedyAt(s: Image, x: int, i: nat, k: Kind)
    requires Occurs(s, i, k, x) && (k == Epi ==> !Occurs(s, i, Pro, x))
    ensures Greedy(s, x, i) == [Site(i, k)] + Greedy(s, x, i + Len(k))
  {
  }

  // --------------------------------------------------------------- One image file

  /** The literal patterns are those for 8MB. */
  lemma BaseIsFor8MB(k: Kind)
    ensures Pat(k, 0x80_0000) == Base(k)
  {
    EightMegabytes();
    HoleBytes(k);
    HolesFilled(k, 0x80_0000);
  }

  lemma HolesFilled(k: Kind, x: int)
    requires Base(k)[First(k)..First(k) + 4] == LowBytes(-x, 4) == Base(k)[Second(k)..Second(k) + 4]
    requires Base(k)[Double(k)..Double(k) + 4] == LowBytes(-2 * x, 4)
    ensures Pat(k, x) == Base(k)
  {
    hide Base, LowBytes;
  }

  /** The literal immediates are those of -8MB and -16MB. */
  lemma HoleBytes(k: Kind)
    ensures Base(k)[First(k)..First(k) + 4] == [0x00, 0x00, 0x80, 0xff] == Base(k)[Second(k)..Second(k) + 4]
    ensures Base(k)[Double(k)..Double(k) + 4] == [0x00, 0x00, 0x00, 0xff]
  {
    if k == Pro {
      var b := Base(Pro);
      FourOf(b, 6);
      FourOf(b, 13);
      FourOf(b, 25);
    } else {
      var b := Base(Epi);
      FourOf(b, 6);
      FourOf(b, 14);
      FourOf(b, 21);
    }
  }

  lemma FourOf(b: Image, p: nat)
    requires p + 4 <= |b|
    ensures b[p..p + 4] == [b[p], b[p + 1], b[p + 2], b[p + 3]]
  {
  }

  lemma EightMegabytes()
    ensures LowBytes(-0x80_0000, 4) == [0x00, 0x00, 0x80, 0xff]
    ensures LowBytes(-0x100_0000, 4) == [0x00, 0x00, 0x00, 0xff]
  {
    hide LowBytes;
    FourBytes(-0x80_0000);
    FourBytes(-0x100_0000);
  }

  /** The pattern for a size is the literal one, patched at 0. */
  method MakePattern(k: Kind, x: int) returns (p: Image)
    ensures p == Pat(k, x)
  {
    var base := Base(k);
    var a := new byte[|base|](i requires 0 <= i < |base| => base[i]);
    assert a[..] == base;
    BaseIsFor8MB(k);
    assert base[0..Len(k)] == base;
    PatchTurnsSite(base, 0, k, 0x80_0000, x);
    ModifySite(a, 0, k, x);
    p := a[..];
    assert p[0..Len(k)] == p;
  }

  /** modify_one_bin_file on an image in memory; sizes are in KB, as for ulimit -s. It is
      exact for every size up to 2^30. */
  method ModifyImage(a: array<byte>, origKb: int, newKb: int) returns (proCnt: nat, epiCnt: nat)
    modifies a
    ensures a[..] == Applied(old(a[..]), Greedy(old(a[..]), origKb * 1024, 0), newKb * 1024)
    ensures 0 <= origKb <= 0x10_0000 || Unambiguous(origKb * 1024) ==>
              && Rewritten(old(a[..]), a[..], origKb * 1024, newKb * 1024)
              && proCnt == |Occurrences(old(a[..]), Pro, origKb * 1024)|
              && epiCnt == |Occurrences(old(a[..]), Epi, origKb * 1024)|
    ensures Rewritten(old(a[..]), a[..], origKb * 1024, newKb * 1024)
       <==> Apart(old(a[..]), origKb * 1024) || SameCode(origKb * 1024, newKb * 1024)
  {
    hide Rewritten, Occurrences, Apart, SameCode, Unambiguous, Greedy, Applied;
    if 0 <= origKb <= 0x10_0000 {
      KbUnambiguous(origKb);
    }
    if Unambiguous(origKb * 1024) {
      UnambiguousApart(a[..], origKb * 1024);
    }
    var orig, x := origKb * 1024, newKb * 1024;
    var prolog := MakePattern(Pro, orig);
    var epilog := MakePattern(Epi, orig);
    proCnt, epiCnt := ModifyAll(a, prolog, epilog, x, orig);
  }

  /** The tool run twice, there and back. */
  lemma ThereAndBack(s: Image, orig: int, x: int)
    requires Unambiguous(orig) && Unambiguous(x)
    ensures var t := Applied(s, Greedy(s, orig, 0), x);
            Applied(t, Greedy(t, x, 0), orig) == s <==> NoneOf(s, x) || SameCode(orig, x)
  {
    var t := Applied(s, Greedy(s, orig, 0), x);
    UnambiguousApart(s, orig);
    ScanIsExact(s, orig, x);
    UnambiguousApart(t, x);
    ScanIsExact(t, x, orig);
    RoundTrip(s, t, Applied(t, Greedy(t, x, 0), orig), orig, x);
  }
}
