/** What the kernel's page loops do to the page tables, stated at once instead of
    page by page, and that each keeps the reference counts right. */
module CowLoops {
  import opened CowMachine
  import opened CowAccounting

  /** Everything but the page tables, the counts and the page-table pages. */
  ghost predicate SameRest(m: Machine, m': Machine) {
    m'.mem == m.mem && m'.kern == m.kern && m'.free == m.free && m'.owned == m.owned && m'.procs == m.procs
  }

  ghost predicate NoPages(m: Machine, pid: int) {
    forall k :: k in m.pts ==> k.pid != pid
  }

  /** The keys of pages lo..hi-1 of a process. */
  ghost predicate InSpan(k: Va, pid: int, lo: int, hi: int) {
    k.pid == pid && lo <= k.page < hi
  }

  // copyuvm

  /** Parent and child share the first n pages, read-only where they were writable. */
  ghost predicate Copied(pts: map<Va, Pte>, pts': map<Va, Pte>, parent: int, child: int, n: int) {
    && (forall k {:trigger k in pts'} :: k in pts' <==> k in pts || InSpan(k, child, 0, n))
    && (forall v {:trigger Va(parent, v)} :: 0 <= v < n ==>
          && Va(parent, v) in pts
          && pts'[Va(parent, v)] == Shared(pts[Va(parent, v)]) == pts'[Va(child, v)])
    && (forall k {:trigger pts'[k]} :: k in pts && !InSpan(k, parent, 0, n) ==> pts'[k] == pts[k])
  }

  /** One page more. */
  lemma CopiedMore(p0: map<Va, Pte>, p1: map<Va, Pte>, parent: int, child: int, n: nat)
    requires parent != child && Copied(p0, p1, parent, child, n)
    requires Va(parent, n) in p0 && forall k :: k in p0 ==> k.pid != child
    ensures p1[Va(parent, n)] == p0[Va(parent, n)]
    ensures var pte := Shared(p0[Va(parent, n)]);
            Copied(p0, p1[Va(parent, n) := pte][Va(child, n) := pte], parent, child, n + 1)
  {
    assert p1[Va(parent, n)] == p0[Va(parent, n)];
    assert forall v {:trigger Va(parent, v)} :: 0 <= v < n ==> Va(parent, v) != Va(parent, n) && Va(child, v) != Va(child, n);
    assert forall k :: InSpan(k, parent, 0, n) ==> InSpan(k, parent, 0, n + 1);
  }

  lemma {:induction false} CopyPagesCopies(m: Machine, parent: int, child: int, n: nat)
    requires parent != child && NoPages(m, child) && AllPresent(m, parent, n)
    ensures Copied(m.pts, CopyPages(m, parent, child, n).pts, parent, child, n)
    ensures SameRest(m, CopyPages(m, parent, child, n))
  {
    hide Copied;
    if n > 0 {
      CopyPagesCopies(m, parent, child, n - 1);
      CopiedMore(m.pts, CopyPages(m, parent, child, n - 1).pts, parent, child, n - 1);
    } else {
      CopiedNone(m.pts, parent, child);
    }
  }

  lemma CopiedNone(pts: map<Va, Pte>, parent: int, child: int)
    ensures Copied(pts, pts, parent, child, 0)
  {
  }

  lemma AccountedAfterCopyPage(m: Machine, parent: int, child: int, v: int)
    requires Accounted(m) && Va(parent, v) in m.pts && Va(child, v) !in m.pts
    ensures Accounted(CopyPage(m, parent, child, v))
  {
    var pte := Shared(m.pts[Va(parent, v)]);
    AccountedAfterSet(m, Va(parent, v), pte);
    AccountedAfterMap(SetPte(m, Va(parent, v), pte), Va(child, v), pte);
  }

  lemma {:induction false} AccountedAfterCopyPages(m: Machine, parent: int, child: int, n: nat)
    requires parent != child && NoPages(m, child) && AllPresent(m, parent, n) && Accounted(m)
    ensures Accounted(CopyPages(m, parent, child, n))
  {
    hide Accounted;
    if n > 0 {
      AccountedAfterCopyPages(m, parent, child, n - 1);
      CopyPagesCopies(m, parent, child, n - 1);
      AccountedAfterCopyPage(CopyPages(m, parent, child, n - 1), parent, child, n - 1);
    }
  }

  // copywmap

  /** The child has the parent's entries for all pages of the regions. */
  ghost predicate SharedInto(pts: map<Va, Pte>, pts': map<Va, Pte>, parent: int, child: int, rs: seq<Region>) {
    && (forall k {:trigger k in pts'} ::
          k in pts' <==> k in pts || (k.pid == child && InRegions(rs, k.page) && Va(parent, k.page) in pts))
    && (forall v {:trigger Va(parent, v)} :: InRegions(rs, v) && Va(parent, v) in pts ==> pts'[Va(child, v)] == pts[Va(parent, v)])
    && (forall k {:trigger pts'[k]} :: k in pts ==> pts'[k] == pts[k])
  }

  ghost predicate AllApart(rs: seq<Region>) {
    forall i, j {:trigger rs[i], rs[j]} :: 0 <= i < j < |rs| ==> Apart(rs[j], rs[i])
  }

  lemma InRegionsOne(r: Region, v: int)
    ensures InRegions([r], v) <==> Covers(r, v)
  {
    if Covers(r, v) {
      assert Covers([r][0], v);
    }
  }

  /** A page of a list of regions is in the last of them or in an earlier one. */
  lemma InRegionsSplit(rs: seq<Region>, v: int)
    requires rs != []
    ensures InRegions(rs, v) <==> InRegions(rs[..|rs| - 1], v) || Covers(rs[|rs| - 1], v)
  {
    var n := |rs| - 1;
    if InRegions(rs[..n], v) {
      var i :| 0 <= i < n && Covers(rs[..n][i], v);
      assert Covers(rs[i], v);
    }
    if InRegions(rs, v) {
      var i :| 0 <= i < |rs| && Covers(rs[i], v);
      assert i < n ==> Covers(rs[..n][i], v);
    }
  }

  lemma NotInEarlier(rs: seq<Region>, v: int)
    requires rs != [] && AllApart(rs) && Covers(rs[|rs| - 1], v)
    ensures !InRegions(rs[..|rs| - 1], v)
  {
    var n := |rs| - 1;
    forall i | 0 <= i < n
      ensures !Covers(rs[..n][i], v)
    {
      assert Apart(rs[n], rs[i]) && rs[..n][i] == rs[i];
    }
  }

  /** Adding a region the child has nothing of yet. */
  lemma SharedIntoMore(p0: map<Va, Pte>, p1: map<Va, Pte>, p2: map<Va, Pte>, parent: int, child: int, rs: seq<Region>)
    requires parent != child && rs != []
    requires SharedInto(p0, p1, parent, child, rs[..|rs| - 1]) && SharedInto(p1, p2, parent, child, [rs[|rs| - 1]])
    requires forall v {:trigger Va(child, v)} :: Covers(rs[|rs| - 1], v) ==> Va(child, v) !in p1
    ensures SharedInto(p0, p2, parent, child, rs)
  {
    forall v
      ensures InRegions(rs, v) <==> InRegions(rs[..|rs| - 1], v) || InRegions([rs[|rs| - 1]], v)
    {
      InRegionsSplit(rs, v);
      InRegionsOne(rs[|rs| - 1], v);
    }
  }

  /** One page more of a region. */
  lemma SharedIntoNext(p0: map<Va, Pte>, p1: map<Va, Pte>, parent: int, child: int, first: int, n: nat)
    requires parent != child && SharedInto(p0, p1, parent, child, [Region(first, n)])
    requires Va(child, first + n) !in p0
    ensures Va(parent, first + n) in p1 <==> Va(parent, first + n) in p0
    ensures var k := Va(parent, first + n);
            SharedInto(p0, if k in p1 then p1[Va(child, first + n) := p1[k]] else p1, parent, child, [Region(first, n + 1)])
  {
    forall v
      ensures InRegions([Region(first, n + 1)], v) <==> InRegions([Region(first, n)], v) || v == first + n
      ensures v == first + n ==> !InRegions([Region(first, n)], v)
    {
      InRegionsOne(Region(first, n), v);
      InRegionsOne(Region(first, n + 1), v);
    }
  }

  lemma SharedIntoNone(pts: map<Va, Pte>, parent: int, child: int, rs: seq<Region>)
    requires forall i :: 0 <= i < |rs| ==> rs[i].pages == 0
    ensures SharedInto(pts, pts, parent, child, rs)
  {
  }

  lemma {:induction false} ShareRegionShares(m: Machine, parent: int, child: int, first: int, n: nat)
    requires parent != child && forall v {:trigger Va(child, v)} :: first <= v < first + n ==> Va(child, v) !in m.pts
    ensures var m' := ShareRegion(m, parent, child, first, n);
            SharedInto(m.pts, m'.pts, parent, child, [Region(first, n)]) && SameRest(m, m')
  {
    hide SharedInto;
    if n > 0 {
      ShareRegionShares(m, parent, child, first, n - 1);
      SharedIntoNext(m.pts, ShareRegion(m, parent, child, first, n - 1).pts, parent, child, first, n - 1);
    } else {
      SharedIntoNone(m.pts, parent, child, [Region(first, 0)]);
    }
  }

  lemma {:induction false} AccountedAfterShareRegion(m: Machine, parent: int, child: int, first: int, n: nat)
    requires parent != child && forall v {:trigger Va(child, v)} :: first <= v < first + n ==> Va(child, v) !in m.pts
    requires Accounted(m)
    ensures Accounted(ShareRegion(m, parent, child, first, n))
  {
    hide Accounted;
    if n > 0 {
      AccountedAfterShareRegion(m, parent, child, first, n - 1);
      ShareRegionShares(m, parent, child, first, n - 1);
      var m1 := ShareRegion(m, parent, child, first, n - 1);
      var v := first + n - 1;
      InRegionsOne(Region(first, n - 1), v);
      if Va(parent, v) in m1.pts {
        EntryFrameCounted(m1, Va(parent, v));
        AccountedAfterMap(m1, Va(child, v), m1.pts[Va(parent, v)]);
      }
    }
  }

  lemma EntryFrameCounted(m: Machine, k: Va)
    requires Accounted(m) && k in m.pts
    ensures m.pts[k].frame in m.cnt
  {
  }

  ghost predicate NoneIn(pts: map<Va, Pte>, child: int, rs: seq<Region>) {
    forall v {:trigger Va(child, v)} :: InRegions(rs, v) ==> Va(child, v) !in pts
  }

  /** The last region is still untouched when the others have been shared. */
  lemma LastUntouched(p0: map<Va, Pte>, p1: map<Va, Pte>, parent: int, child: int, rs: seq<Region>)
    requires rs != [] && AllApart(rs) && NoneIn(p0, child, rs) && SharedInto(p0, p1, parent, child, rs[..|rs| - 1])
    ensures forall v {:trigger Va(child, v)} :: Covers(rs[|rs| - 1], v) ==> Va(child, v) !in p1
  {
    forall v {:trigger Va(child, v)} | Covers(rs[|rs| - 1], v)
      ensures Va(child, v) !in p1
    {
      InRegionsSplit(rs, v);
      NotInEarlier(rs, v);
    }
  }

  lemma PrefixNone(p0: map<Va, Pte>, child: int, rs: seq<Region>)
    requires rs != [] && AllApart(rs) && NoneIn(p0, child, rs)
    ensures AllApart(rs[..|rs| - 1]) && NoneIn(p0, child, rs[..|rs| - 1])
  {
    forall v {:trigger Va(child, v)} | InRegions(rs[..|rs| - 1], v)
      ensures Va(child, v) !in p0
    {
      InRegionsSplit(rs, v);
    }
  }

  lemma {:induction false} ShareRegionsShares(m: Machine, parent: int, child: int, rs: seq<Region>)
    requires parent != child && AllApart(rs) && NoneIn(m.pts, child, rs)
    ensures var m' := ShareRegions(m, parent, child, rs);
            SharedInto(m.pts, m'.pts, parent, child, rs) && SameRest(m, m')
    ensures Accounted(m) ==> Accounted(ShareRegions(m, parent, child, rs))
  {
    hide Accounted, SharedInto, NoneIn, AllApart;
    if rs != [] {
      var n := |rs| - 1;
      var r := rs[n];
      PrefixNone(m.pts, child, rs);
      ShareRegionsShares(m, parent, child, rs[..n]);
      var m1 := ShareRegions(m, parent, child, rs[..n]);
      LastUntouched(m.pts, m1.pts, parent, child, rs);
      ShareRegionShares(m1, parent, child, r.first, r.pages);
      if Accounted(m) {
        AccountedAfterShareRegion(m1, parent, child, r.first, r.pages);
      }
      assert [Region(r.first, r.pages)] == [r];
      SharedIntoMore(m.pts, m1.pts, ShareRegions(m, parent, child, rs).pts, parent, child, rs);
    } else {
      SharedIntoNone(m.pts, parent, child, rs);
    }
  }
}
