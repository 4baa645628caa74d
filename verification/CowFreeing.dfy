/** Unmapping and freeing: while no count passes 255, a frame is freed only when no
    user entry names it, and no free frame is ever mapped. */
module CowFreeing {
  import opened CowMachine
  import opened CowAccounting
  import opened CowLoops

  /** No 8-bit count has passed 255. */
  ghost predicate NoWrap(m: Machine) {
    forall f :: f in m.cnt && f in m.kern ==> |Users(m.pts, f)| + m.kern[f] <= 255
  }

  /** The free list has no repeats, and no frame on it, or kept by the kernel for
      itself, is named by a user entry. */
  ghost predicate FreeSafe(m: Machine) {
    && (forall i, j {:trigger m.free[i], m.free[j]} :: 0 <= i < j < |m.free| ==> m.free[i] != m.free[j])
    && (forall k :: k in m.pts ==> m.pts[k].frame !in m.free && m.pts[k].frame !in m.owned)
    && (forall f :: f in m.owned ==> f !in m.free)
  }

  ghost predicate Sound(m: Machine) {
    Accounted(m) && NoWrap(m) && FreeSafe(m)
  }

  /** What is still mapped has kept its contents; nothing else but the free list has
      changed. */
  ghost predicate Kept(m: Machine, m': Machine) {
    && m'.kern == m.kern && m'.owned == m.owned && m'.procs == m.procs && m'.mem.Keys == m.mem.Keys
    && forall k :: k in m'.pts ==>
         && k in m.pts && m'.pts[k] == m.pts[k]
         && m.pts[k].frame in m.mem && m.pts[k].frame in m'.mem
         && m'.mem[m.pts[k].frame] == m.mem[m.pts[k].frame]
  }

  /** The count says how many users there are. */
  lemma CountExact(m: Machine, f: int)
    requires Accounted(m) && NoWrap(m) && f in m.cnt
    ensures m.cnt[f] == |Users(m.pts, f)| + m.kern[f] && m.kern[f] >= 0
  {
    assert Counted(m, f);
  }

  lemma NoUserNoEntry(pts: map<Va, Pte>, f: int)
    requires |Users(pts, f)| == 0
    ensures forall k :: k in pts ==> pts[k].frame != f
  {
    forall k | k in pts
      ensures pts[k].frame != f
    {
      assert k !in Users(pts, f);
    }
  }

  lemma NoWrapAfterRemove(m: Machine, m': Machine, k: Va)
    requires NoWrap(m) && m'.pts == m.pts - {k} && m'.kern == m.kern && m'.cnt.Keys == m.cnt.Keys
    ensures NoWrap(m')
  {
    forall f | f in m'.cnt && f in m'.kern
      ensures |Users(m'.pts, f)| + m'.kern[f] <= 255
    {
      UsersAfterRemove(m.pts, k, f);
    }
  }

  lemma UnmapKeeps(m: Machine, k: Va)
    requires Sound(m) && k in m.pts
    ensures Sound(Unmap(m, k)) && Kept(m, Unmap(m, k)) && Unmap(m, k).pts == m.pts - {k}
  {
    var f := m.pts[k].frame;
    var m1 := m.(cnt := Drop(m.cnt, f), pts := m.pts - {k});
    AccountedAfterUnmap(m, k);
    AccountedAfterForget(m, k);
    NoWrapAfterRemove(m, m1, k);
    NoWrapAfterRemove(m, Unmap(m, k), k);
    if m1.cnt[f] == 0 {
      CountExact(m1, f);
      NoUserNoEntry(m1.pts, f);
    }
  }

  /** Exactly pages lo..hi-1 of the process are gone. */
  ghost predicate Cleared(pts: map<Va, Pte>, pts': map<Va, Pte>, pid: int, lo: int, hi: int) {
    && (forall k {:trigger k in pts'} :: k in pts' <==> k in pts && !InSpan(k, pid, lo, hi))
    && (forall k {:trigger pts'[k]} :: k in pts' ==> pts'[k] == pts[k])
  }

  lemma KeptTwice(m: Machine, m1: Machine, m2: Machine)
    requires Kept(m, m1) && Kept(m1, m2)
    ensures Kept(m, m2)
  {
  }

  lemma ClearedMore(p0: map<Va, Pte>, p1: map<Va, Pte>, pid: int, lo: int, hi: int)
    requires lo <= hi && Cleared(p0, p1, pid, lo, hi)
    ensures Cleared(p0, if Va(pid, hi) in p1 then p1 - {Va(pid, hi)} else p1, pid, lo, hi + 1)
  {
    var p2 := if Va(pid, hi) in p1 then p1 - {Va(pid, hi)} else p1;
    forall k
      ensures k in p2 <==> k in p0 && !InSpan(k, pid, lo, hi + 1)
    {
      assert InSpan(k, pid, lo, hi + 1) <==> InSpan(k, pid, lo, hi) || k == Va(pid, hi);
    }
  }

  lemma {:induction false} AccountedAfterUnmapRange(m: Machine, pid: int, lo: int, hi: int)
    requires Accounted(m)
    ensures Accounted(UnmapRange(m, pid, lo, hi))
    ensures UnmapRange(m, pid, lo, hi).procs == m.procs && UnmapRange(m, pid, lo, hi).kern == m.kern
    ensures lo <= hi ==> Cleared(m.pts, UnmapRange(m, pid, lo, hi).pts, pid, lo, hi)
    decreases hi - lo
  {
    hide Accounted;
    if lo < hi {
      AccountedAfterUnmapRange(m, pid, lo, hi - 1);
      var m1 := UnmapRange(m, pid, lo, hi - 1);
      ClearedMore(m.pts, m1.pts, pid, lo, hi - 1);
      if Va(pid, hi - 1) in m1.pts {
        AccountedAfterUnmap(m1, Va(pid, hi - 1));
      }
    }
  }

  lemma {:induction false} UnmapRangeKeeps(m: Machine, pid: int, lo: int, hi: int)
    requires Sound(m)
    ensures Sound(UnmapRange(m, pid, lo, hi)) && Kept(m, UnmapRange(m, pid, lo, hi))
    ensures lo <= hi ==> Cleared(m.pts, UnmapRange(m, pid, lo, hi).pts, pid, lo, hi)
    decreases hi - lo
  {
    hide Cleared, NoWrap, FreeSafe, Kept;
    AccountedAfterUnmapRange(m, pid, lo, hi);
    if lo < hi {
      UnmapRangeKeeps(m, pid, lo, hi - 1);
      var m1 := UnmapRange(m, pid, lo, hi - 1);
      if Va(pid, hi - 1) in m1.pts {
        UnmapKeeps(m1, Va(pid, hi - 1));
        KeptTwice(m, m1, Unmap(m1, Va(pid, hi - 1)));
      }
    } else {
      KeptSelf(m);
    }
  }

  lemma KeptSelf(m: Machine)
    requires Accounted(m)
    ensures Kept(m, m)
  {
  }

  /** Some region pages of the process are gone, nothing else. */
  ghost predicate Trimmed(pts: map<Va, Pte>, pts': map<Va, Pte>, pid: int) {
    && (forall k {:trigger k in pts'} :: k in pts' ==> k in pts && pts'[k] == pts[k])
    && (forall k {:trigger k in pts'} :: k in pts && (k.pid != pid || k.page < VA_START_PAGE) ==> k in pts')
  }

  lemma {:induction false} UnmapRegionTrims(m: Machine, pid: int, v: int, n: nat)
    requires Accounted(m) && VA_START_PAGE <= v
    ensures Accounted(UnmapRegion(m, pid, v, n)) && Trimmed(m.pts, UnmapRegion(m, pid, v, n).pts, pid)
    ensures UnmapRegion(m, pid, v, n).procs == m.procs && UnmapRegion(m, pid, v, n).kern == m.kern
    ensures Sound(m) ==> Sound(UnmapRegion(m, pid, v, n)) && Kept(m, UnmapRegion(m, pid, v, n))
    decreases n
  {
    hide Accounted, NoWrap, FreeSafe, Kept;
    if n == 0 || v / 1024 !in TablesOf(m, pid) {
      KeptSelf(m);
    } else if Va(pid, v) in m.pts {
      var m1 := Unmap(m, Va(pid, v));
      AccountedAfterUnmap(m, Va(pid, v));
      UnmapRegionTrims(m1, pid, v + 1, n - 1);
      if Sound(m) {
        UnmapKeeps(m, Va(pid, v));
        KeptTwice(m, m1, UnmapRegion(m1, pid, v + 1, n - 1));
      }
    } else {
      UnmapRegionTrims(m, pid, v + 1, n - 1);
    }
  }

  lemma {:induction false} UnmapRegionsTrims(m: Machine, pid: int, rs: seq<Region>)
    requires Accounted(m) && forall i :: 0 <= i < |rs| ==> VA_START_PAGE <= rs[i].first
    ensures Accounted(UnmapRegions(m, pid, rs)) && Trimmed(m.pts, UnmapRegions(m, pid, rs).pts, pid)
    ensures UnmapRegions(m, pid, rs).procs == m.procs && UnmapRegions(m, pid, rs).kern == m.kern
    ensures Sound(m) ==> Sound(UnmapRegions(m, pid, rs)) && Kept(m, UnmapRegions(m, pid, rs))
  {
    hide Accounted, NoWrap, FreeSafe, Kept;
    if rs == [] {
      KeptSelf(m);
    } else {
      var n := |rs| - 1;
      UnmapRegionsTrims(m, pid, rs[..n]);
      var m1 := UnmapRegions(m, pid, rs[..n]);
      UnmapRegionTrims(m1, pid, rs[n].first, rs[n].pages);
      if Sound(m) {
        KeptTwice(m, m1, UnmapRegion(m1, pid, rs[n].first, rs[n].pages));
      }
    }
  }

  /** wunmap_handler gets from page `first` to this page without meeting a missing
      page table. */
  ghost predicate Reached(m: Machine, pid: int, first: int, page: int) {
    forall u :: first <= u <= page ==> HasTable(m, pid, u)
  }

  predicate HasTable(m: Machine, pid: int, page: int) {
    page / 1024 in TablesOf(m, pid)
  }

  lemma ReachedNext(m: Machine, pid: int, first: int, page: int)
    requires first <= page
    ensures Reached(m, pid, first, page) <==> HasTable(m, pid, first) && Reached(m, pid, first + 1, page)
    ensures first == page ==> Reached(m, pid, first + 1, page)
  {
  }

  lemma {:induction false} UnmapRegionExact(m: Machine, pid: int, v: int, n: nat, k: Va)
    ensures k in UnmapRegion(m, pid, v, n).pts <==>
            k in m.pts && !(InSpan(k, pid, v, v + n) && Reached(m, pid, v, k.page))
    ensures UnmapRegion(m, pid, v, n).tables == m.tables
    decreases n
  {
    hide Reached;
    if v <= k.page {
      ReachedNext(m, pid, v, k.page);
    }
    if n > 0 && v / 1024 in TablesOf(m, pid) {
      var m1 := if Va(pid, v) in m.pts then Unmap(m, Va(pid, v)) else m;
      UnmapRegionExact(m1, pid, v + 1, n - 1, k);
      assert k.pid == pid && k.page == v ==> k == Va(pid, v);
      ReachedSame(m, m1, pid, v + 1, k.page);
    }
  }

  lemma ReachedSame(m: Machine, m': Machine, pid: int, first: int, page: int)
    requires m'.tables == m.tables
    ensures Reached(m', pid, first, page) <==> Reached(m, pid, first, page)
  {
    assert forall u :: HasTable(m', pid, u) <==> HasTable(m, pid, u);
  }

  /** Exit unmaps exactly the region pages that its loops reach: a page stays if it is
      another process's, outside the regions, or behind a missing page table. */
  lemma {:induction false} UnmapRegionsExact(m: Machine, pid: int, rs: seq<Region>, k: Va)
    ensures k in UnmapRegions(m, pid, rs).pts <==>
            && k in m.pts
            && !(k.pid == pid && exists i :: 0 <= i < |rs| && Covers(rs[i], k.page) && Reached(m, pid, rs[i].first, k.page))
    ensures UnmapRegions(m, pid, rs).tables == m.tables
  {
    hide Reached, UnmapRegion;
    if rs != [] {
      var n := |rs| - 1;
      var m1 := UnmapRegions(m, pid, rs[..n]);
      UnmapRegionsExact(m, pid, rs[..n], k);
      UnmapRegionExact(m1, pid, rs[n].first, rs[n].pages, k);
      ReachedSame(m, m1, pid, rs[n].first, k.page);
    }
  }

  // A growth that mappages stops.

  /** b is a, except that b has taken the frame f off the free list: `freed` have come to
      the list since, before those that are `left`. */
  ghost predicate Held(a: Machine, b: Machine, f: int, freed: seq<int>, left: seq<int>) {
    && b == a.(free := b.free, mem := b.mem)
    && a.free == freed + [f] + left && b.free == freed + left
    && b.mem.Keys == a.mem.Keys && (forall x :: x in a.mem && x != f ==> b.mem[x] == a.mem[x])
  }

  lemma UnmapHeld(a: Machine, b: Machine, f: int, freed: seq<int>, left: seq<int>, k: Va) returns (freed': seq<int>)
    requires Held(a, b, f, freed, left) && k in a.pts
    ensures Held(Unmap(a, k), Unmap(b, k), f, freed', left)
  {
    var x := a.pts[k].frame;
    var cnt := Drop(a.cnt, x);
    freed' := if x in cnt && cnt[x] == 0 then [x] + freed else freed;
    assert [x] + (freed + [f] + left) == [x] + freed + [f] + left;
    assert [x] + (freed + left) == [x] + freed + left;
  }

  lemma {:induction false} UnmapRangeHeld(a: Machine, b: Machine, f: int, left: seq<int>, pid: int, lo: int, hi: int)
    returns (freed: seq<int>)
    requires Held(a, b, f, [], left)
    ensures Held(UnmapRange(a, pid, lo, hi), UnmapRange(b, pid, lo, hi), f, freed, left)
    decreases hi - lo
  {
    hide Unmap;
    freed := [];
    if lo < hi {
      freed := UnmapRangeHeld(a, b, f, left, pid, lo, hi - 1);
      var a1, b1 := UnmapRange(a, pid, lo, hi - 1), UnmapRange(b, pid, lo, hi - 1);
      if Va(pid, hi - 1) in a1.pts {
        freed := UnmapHeld(a1, b1, f, freed, left, Va(pid, hi - 1));
      }
    }
  }

  /** Free frame f has come to the head of the list, and has been filled with ones. */
  ghost predicate Shuffled(m: Machine, m': Machine, f: int, freed: seq<int>, left: seq<int>) {
    && m.free == freed + [f] + left && f in m.mem
    && m' == m.(free := [f] + freed + left, mem := m.mem[f := Filled(1)])
  }

  /** Where mappages fails, the growth ends as one that kalloc fails, but for the frame
      that was taken last. */
  lemma StuckIs(m: Machine, pid: int, lo: int, hi: int, got: nat) returns (f: int, freed: seq<int>, left: seq<int>)
    requires got < |m.free| && MapRange(m, pid, lo, got).free[0] in MapRange(m, pid, lo, got).mem
    ensures Shuffled(UnmapRange(MapRange(m, pid, lo, got), pid, lo, hi), GrowStuck(m, pid, lo, hi, got), f, freed, left)
    ensures MapRange(m, pid, lo, got).free == [f] + left
  {
    hide MapRange, UnmapRange;
    var m1 := MapRange(m, pid, lo, got);
    f, left := m1.free[0], m1.free[1..];
    var m2 := m1.(free := left, mem := m1.mem[f := Filled(0)]);
    assert m1.free == [] + [f] + left && m2.free == [] + left;
    freed := UnmapRangeHeld(m1, m2, f, left, pid, lo, hi);
    var a, b := UnmapRange(m1, pid, lo, hi), UnmapRange(m2, pid, lo, hi);
    UnmapRangeMem(m1, pid, lo, hi);
    SameButOne(a.mem, b.mem, f, Filled(1));
    assert [f] + (freed + left) == [f] + freed + left;
  }

  lemma SameButOne(a: map<int, Page>, b: map<int, Page>, f: int, p: Page)
    requires b.Keys == a.Keys && forall x :: x in a && x != f ==> b[x] == a[x]
    ensures b[f := p] == a[f := p]
  {
    assert forall x :: x in b[f := p] <==> x in a.Keys || x == f;
  }

  lemma {:induction false} UnmapRangeMem(m: Machine, pid: int, lo: int, hi: int)
    ensures m.mem.Keys <= UnmapRange(m, pid, lo, hi).mem.Keys
    decreases hi - lo
  {
    if lo < hi {
      UnmapRangeMem(m, pid, lo, hi - 1);
    }
  }

  lemma ShuffledAccounted(m: Machine, m': Machine, f: int, freed: seq<int>, left: seq<int>)
    requires Accounted(m) && Shuffled(m, m', f, freed, left)
    ensures Accounted(m')
  {
    forall i | 0 <= i < |m'.free|
      ensures m'.free[i] in m'.cnt
    {
      SameMembers(f, freed, left, m'.free[i]);
    }
    AccountedSame(m, m');
  }

  lemma SameMembers(f: int, freed: seq<int>, left: seq<int>, x: int)
    ensures x in [f] + freed + left <==> x in freed + [f] + left
  {
  }

  lemma ShuffledSafe(m: Machine, m': Machine, f: int, freed: seq<int>, left: seq<int>)
    requires FreeSafe(m) && Shuffled(m, m', f, freed, left)
    ensures FreeSafe(m')
  {
    forall x
      ensures x in m'.free <==> x in m.free
    {
      SameMembers(f, freed, left, x);
    }
    forall i, j {:trigger m'.free[i], m'.free[j]} | 0 <= i < j < |m'.free|
      ensures m'.free[i] != m'.free[j]
    {
      var a := if i == 0 then |freed| else if i <= |freed| then i - 1 else i;
      var b := if j <= |freed| then j - 1 else j;
      assert m'.free[i] == m.free[a] && m'.free[j] == m.free[b] && a != b;
    }
  }

  // Fresh pages.

  /** Pages lo..lo+n-1 of the process map the first n free frames. */
  ghost predicate GrownPts(pts: map<Va, Pte>, pts': map<Va, Pte>, free: seq<int>, pid: int, lo: int, n: nat) {
    && n <= |free|
    && (forall k {:trigger k in pts'} :: k in pts' <==> k in pts || InSpan(k, pid, lo, lo + n))
    && (forall k {:trigger pts'[k]} :: k in pts ==> pts'[k] == pts[k])
    && (forall v {:trigger Va(pid, v)} :: lo <= v < lo + n ==> pts'[Va(pid, v)] == Pte(free[v - lo], true, true, false))
  }

  /** Those frames have been zeroed, the others left alone. */
  ghost predicate GrownMem(mem: map<int, Page>, mem': map<int, Page>, taken: seq<int>) {
    && mem'.Keys == mem.Keys
    && (forall i {:trigger taken[i]} :: 0 <= i < |taken| ==> taken[i] in mem' && mem'[taken[i]] == Filled(0))
    && (forall f {:trigger mem'[f]} :: f in mem && f !in taken ==> mem'[f] == mem[f])
  }

  ghost predicate Grown(m: Machine, m': Machine, pid: int, lo: int, n: nat) {
    && GrownPts(m.pts, m'.pts, m.free, pid, lo, n)
    && m'.free == m.free[n..] && GrownMem(m.mem, m'.mem, m.free[..n])
    && m'.kern == m.kern && m'.owned == m.owned && m'.procs == m.procs
  }

  lemma GrownPtsMore(p0: map<Va, Pte>, p1: map<Va, Pte>, free: seq<int>, pid: int, lo: int, n: nat)
    requires GrownPts(p0, p1, free, pid, lo, n) && n < |free| && Va(pid, lo + n) !in p0
    ensures GrownPts(p0, p1[Va(pid, lo + n) := Pte(free[n], true, true, false)], free, pid, lo, n + 1)
  {
    var p2 := p1[Va(pid, lo + n) := Pte(free[n], true, true, false)];
    forall k
      ensures k in p2 <==> k in p0 || InSpan(k, pid, lo, lo + n + 1)
    {
      assert InSpan(k, pid, lo, lo + n + 1) <==> InSpan(k, pid, lo, lo + n) || k == Va(pid, lo + n);
    }
  }

  lemma GrownMemMore(mem: map<int, Page>, mem1: map<int, Page>, taken: seq<int>, f: int)
    requires GrownMem(mem, mem1, taken) && f in mem
    ensures GrownMem(mem, mem1[f := Filled(0)], taken + [f])
  {
  }

  lemma GrownMore(m: Machine, m1: Machine, pid: int, lo: int, n: nat)
    requires Grown(m, m1, pid, lo, n) && n < |m.free| && m.free[n] in m.mem && Va(pid, lo + n) !in m.pts
    ensures m1.free != [] && Grown(m, MapZero(m1, Va(pid, lo + n)), pid, lo, n + 1)
    ensures Va(pid, lo + n) !in m1.pts
  {
    hide GrownMem;
    assert m.free[..n + 1] == m.free[..n] + [m.free[n]];
    assert m1.free[0] == m.free[n] && m1.free[1..] == m.free[n + 1..];
    GrownPtsMore(m.pts, m1.pts, m.free, pid, lo, n);
    GrownMemMore(m.mem, m1.mem, m.free[..n], m.free[n]);
  }

  lemma FreeIsMemory(m: Machine, i: nat)
    requires Accounted(m) && i < |m.free|
    ensures m.free[i] in m.mem
  {
  }

  lemma GrownNone(m: Machine, pid: int, lo: int)
    ensures Grown(m, m, pid, lo, 0)
  {
  }

  lemma {:induction false} MapRangeGrows(m: Machine, pid: int, lo: int, n: nat)
    requires Accounted(m) && n <= |m.free|
    requires forall v {:trigger Va(pid, v)} :: lo <= v < lo + n ==> Va(pid, v) !in m.pts
    ensures Grown(m, MapRange(m, pid, lo, n), pid, lo, n) && Accounted(MapRange(m, pid, lo, n))
  {
    hide Accounted, Grown, MapZero;
    if n == 0 {
      GrownNone(m, pid, lo);
    } else {
      MapRangeGrows(m, pid, lo, n - 1);
      var m1 := MapRange(m, pid, lo, n - 1);
      FreeIsMemory(m, n - 1);
      GrownMore(m, m1, pid, lo, n - 1);
      AccountedAfterZero(m1, Va(pid, lo + n - 1));
    }
  }
}
