/** Every reachable state is accounted for, wrap or no wrap, and the exact point at
    which an 8-bit count stops protecting a shared page. */
module CowReachable {
  import opened CowMachine
  import opened CowAccounting
  import opened CowLoops
  import opened CowFreeing

  ghost predicate PlacedAt(procs: map<int, Proc>, k: Va) {
    && k.pid in procs && 0 <= k.page < KERNBASE / PGSIZE
    && (k.page < VA_START_PAGE ==> k.page < Pages(procs[k.pid].size))
    && (k.page >= VA_START_PAGE ==> InRegions(procs[k.pid].wmaps, k.page))
  }

  /** Pages lie below the size of their process or in one of its regions. */
  ghost predicate Placed(m: Machine) {
    forall k {:trigger k in m.pts} :: k in m.pts ==> PlacedAt(m.procs, k)
  }

  ghost predicate ProcOk(p: Proc) {
    && Pages(p.size) <= VA_START_PAGE && AllApart(p.wmaps)
    && forall i :: 0 <= i < |p.wmaps| ==>
         VA_START_PAGE <= p.wmaps[i].first && p.wmaps[i].first + p.wmaps[i].pages <= KERNBASE / PGSIZE
  }

  ghost predicate ProcsOk(m: Machine) {
    forall p {:trigger m.procs[p]} :: p in m.procs ==> ProcOk(m.procs[p])
  }

  /** A page below VA_START is not both writable and copy-on-write; a wmap page is
      writable by the user. */
  ghost predicate FlagsAt(k: Va, pte: Pte) {
    if k.page < VA_START_PAGE then !(pte.w && pte.cow) else pte.w && pte.u && !pte.cow
  }

  ghost predicate FlagsOk(m: Machine) {
    forall k {:trigger m.pts[k]} :: k in m.pts ==> FlagsAt(k, m.pts[k])
  }

  ghost predicate Inv(m: Machine) {
    Accounted(m) && Placed(m) && ProcsOk(m) && FlagsOk(m)
  }

  lemma RegionsAbove(p: Proc, v: int)
    requires ProcOk(p) && InRegions(p.wmaps, v)
    ensures VA_START_PAGE <= v < KERNBASE / PGSIZE
  {
    var i :| 0 <= i < |p.wmaps| && Covers(p.wmaps[i], v);
  }

  lemma NoPagesOf(m: Machine, pid: int)
    requires Placed(m) && pid !in m.procs
    ensures NoPages(m, pid)
  {
    forall k | k in m.pts
      ensures k.pid != pid
    {
      assert PlacedAt(m.procs, k);
    }
  }

  // fork

  /** fork as a whole: the child has an entry for exactly the pages the parent has,
      naming the same frames; entries below VA_START are now read-only for both,
      copy-on-write where they were writable, and wmap entries are as before. */
  ghost predicate Forked(pts: map<Va, Pte>, pts': map<Va, Pte>, parent: int, child: int) {
    && (forall k {:trigger k in pts'} :: k in pts' <==> k in pts || (k.pid == child && Va(parent, k.page) in pts))
    && (forall v {:trigger Va(parent, v)} :: Va(parent, v) in pts ==>
          && Va(child, v) in pts' && Va(parent, v) in pts'
          && pts'[Va(child, v)] == pts'[Va(parent, v)]
          && pts'[Va(parent, v)] == if v < VA_START_PAGE then Shared(pts[Va(parent, v)]) else pts[Va(parent, v)])
    && (forall k {:trigger pts'[k]} :: k in pts && k.pid != parent ==> pts'[k] == pts[k])
  }

  lemma CopiedThenShared(m: Machine, p1: map<Va, Pte>, p2: map<Va, Pte>, parent: int, child: int)
    requires parent in m.procs && parent != child && Placed(m) && ProcOk(m.procs[parent]) && NoPages(m, child)
    requires Copied(m.pts, p1, parent, child, Pages(m.procs[parent].size))
    requires SharedInto(p1, p2, parent, child, m.procs[parent].wmaps)
    ensures Forked(m.pts, p2, parent, child)
  {
    var n, rs := Pages(m.procs[parent].size), m.procs[parent].wmaps;
    forall v {:trigger Va(parent, v)} | Va(parent, v) in m.pts
      ensures (v < VA_START_PAGE <==> 0 <= v < n) && (v >= VA_START_PAGE <==> InRegions(rs, v))
    {
      assert PlacedAt(m.procs, Va(parent, v));
      if InRegions(rs, v) {
        RegionsAbove(m.procs[parent], v);
      }
    }
    forall v {:trigger InRegions(rs, v)} | InRegions(rs, v)
      ensures v >= VA_START_PAGE >= n
    {
      RegionsAbove(m.procs[parent], v);
    }
    forall k
      ensures k in p2 <==> k in m.pts || (k.pid == child && Va(parent, k.page) in m.pts)
    {
      assert k in p1 <==> k in m.pts || InSpan(k, child, 0, n);
      assert k.pid == child && 0 <= k.page < n ==> Va(parent, k.page) in m.pts;
    }
  }

  lemma ChildEmptyInRegions(m: Machine, p1: map<Va, Pte>, parent: int, child: int)
    requires parent in m.procs && ProcOk(m.procs[parent]) && NoPages(m, child)
    requires Copied(m.pts, p1, parent, child, Pages(m.procs[parent].size))
    ensures NoneIn(p1, child, m.procs[parent].wmaps)
  {
    forall v {:trigger Va(child, v)} | InRegions(m.procs[parent].wmaps, v)
      ensures Va(child, v) !in p1
    {
      RegionsAbove(m.procs[parent], v);
    }
  }

  lemma ForkForks(m: Machine, parent: int, child: int)
    requires Inv(m) && parent in m.procs && child !in m.procs && !ForkPanics(m, parent)
    ensures var m' := DoFork(m, parent, child);
            && Forked(m.pts, m'.pts, parent, child)
            && m'.procs == m.procs[child := Proc(m.procs[parent].size, m.procs[parent].wmaps, false)]
            && m'.mem == m.mem && m'.free == m.free && m'.owned == m.owned
            && m'.kern == AddAll(m.kern, m.cnt.Keys)
            && Accounted(m')
  {
    var p := m.procs[parent];
    var m1 := SetupKvm(m, m.cnt.Keys);
    AccountedAfterKvm(m, m.cnt.Keys);
    NoPagesOf(m, child);
    CopyPagesCopies(m1, parent, child, Pages(p.size));
    AccountedAfterCopyPages(m1, parent, child, Pages(p.size));
    var m2 := CopyPages(m1, parent, child, Pages(p.size));
    ChildEmptyInRegions(m, m2.pts, parent, child);
    ShareRegionsShares(m2, parent, child, p.wmaps);
    var m3 := ShareRegions(m2, parent, child, p.wmaps);
    CopiedThenShared(m, m2.pts, m3.pts, parent, child);
    AccountedSame(m3, DoFork(m, parent, child));
  }

  lemma PlacedAfterFork(m: Machine, m': Machine, parent: int, child: int)
    requires Placed(m) && ProcsOk(m) && parent in m.procs && child !in m.procs
    requires Forked(m.pts, m'.pts, parent, child)
    requires m'.procs == m.procs[child := Proc(m.procs[parent].size, m.procs[parent].wmaps, false)]
    ensures Placed(m') && ProcsOk(m')
  {
    forall k {:trigger k in m'.pts} | k in m'.pts
      ensures PlacedAt(m'.procs, k)
    {
      if k in m.pts {
        assert PlacedAt(m.procs, k);
      } else {
        assert PlacedAt(m.procs, Va(parent, k.page));
      }
    }
    assert ProcOk(m.procs[parent]);
  }

  lemma FlagsAfterFork(m: Machine, m': Machine, parent: int, child: int)
    requires FlagsOk(m) && Forked(m.pts, m'.pts, parent, child)
    ensures FlagsOk(m')
  {
    forall k {:trigger m'.pts[k]} | k in m'.pts
      ensures FlagsAt(k, m'.pts[k])
    {
      if k.pid == parent || k !in m.pts {
        assert FlagsAt(Va(parent, k.page), m.pts[Va(parent, k.page)]);
        assert k == Va(parent, k.page) || k == Va(child, k.page);
      }
    }
  }

  lemma ForkKeepsInv(m: Machine, parent: int, child: int)
    requires Inv(m) && parent in m.procs && child !in m.procs && !ForkPanics(m, parent)
    ensures Inv(DoFork(m, parent, child))
  {
    hide Accounted, Placed, ProcsOk, FlagsOk, Forked;
    ForkForks(m, parent, child);
    PlacedAfterFork(m, DoFork(m, parent, child), parent, child);
    FlagsAfterFork(m, DoFork(m, parent, child), parent, child);
  }

  /** Pages may have been marked copy-on-write; nothing else has changed. */
  ghost predicate Marked(pts: map<Va, Pte>, pts': map<Va, Pte>) {
    && pts'.Keys == pts.Keys
    && forall k {:trigger pts'[k]} :: k in pts ==>
         pts'[k] == pts[k] || (k.page < VA_START_PAGE && pts'[k] == Shared(pts[k]))
  }

  lemma CopiedMarkedCleared(m: Machine, p1: map<Va, Pte>, p2: map<Va, Pte>, p3: map<Va, Pte>, parent: int, child: int, n: nat)
    requires parent in m.procs && parent != child && Placed(m) && ProcOk(m.procs[parent]) && NoPages(m, child)
    requires n < Pages(m.procs[parent].size) && Copied(m.pts, p1, parent, child, n)
    requires Va(parent, n) in m.pts && p2 == p1[Va(parent, n) := Shared(m.pts[Va(parent, n)])]
    requires Cleared(p2, p3, child, 0, KERNBASE / PGSIZE)
    ensures Marked(m.pts, p3)
  {
    forall k
      ensures k in p3 <==> k in m.pts
    {
      assert k in p1 <==> k in m.pts || InSpan(k, child, 0, n);
    }
    forall k {:trigger p3[k]} | k in m.pts
      ensures p3[k] == m.pts[k] || (k.page < VA_START_PAGE && p3[k] == Shared(m.pts[k]))
    {
      if InSpan(k, parent, 0, n) {
        assert k == Va(parent, k.page);
      }
    }
  }

  lemma ForkFailsMarks(m: Machine, parent: int, child: int, n: nat)
    requires Inv(m) && parent in m.procs && child !in m.procs && !ForkPanics(m, parent)
    requires n < Pages(m.procs[parent].size)
    ensures var m' := DoForkFails(m, parent, child, n);
            && Marked(m.pts, m'.pts) && m'.procs == m.procs && Accounted(m')
            && m'.kern == AddAll(m.kern, m.cnt.Keys)
  {
    hide Accounted, UnmapRange, CopyPages, Cleared, Marked;
    var m1 := SetupKvm(m, m.cnt.Keys);
    AccountedAfterKvm(m, m.cnt.Keys);
    NoPagesOf(m, child);
    CopyPagesCopies(m1, parent, child, n);
    AccountedAfterCopyPages(m1, parent, child, n);
    var m2 := CopyPages(m1, parent, child, n);
    var k := Va(parent, n);
    assert m2.pts[k] == m.pts[k];
    AccountedAfterSet(m2, k, Shared(m2.pts[k]));
    var m3 := SetPte(m2, k, Shared(m2.pts[k]));
    AccountedAfterUnmapRange(m3, child, 0, KERNBASE / PGSIZE);
    CopiedMarkedCleared(m, m2.pts, m3.pts, DoForkFails(m, parent, child, n).pts, parent, child, n);
  }

  lemma MarkedKeeps(m: Machine, m': Machine)
    requires Placed(m) && ProcsOk(m) && FlagsOk(m) && Marked(m.pts, m'.pts) && m'.procs == m.procs
    ensures Placed(m') && ProcsOk(m') && FlagsOk(m')
  {
    forall k {:trigger k in m'.pts} | k in m'.pts
      ensures PlacedAt(m'.procs, k) && FlagsAt(k, m'.pts[k])
    {
      assert k in m.pts && FlagsAt(k, m.pts[k]);
    }
  }

  // Entries that go, and entries that come.

  lemma FewerKeeps(m: Machine, m': Machine)
    requires Placed(m) && ProcsOk(m) && FlagsOk(m) && m'.procs == m.procs
    requires forall k {:trigger k in m'.pts} :: k in m'.pts ==> k in m.pts && m'.pts[k] == m.pts[k]
    ensures Placed(m') && ProcsOk(m') && FlagsOk(m')
  {
    forall k {:trigger k in m'.pts} | k in m'.pts
      ensures PlacedAt(m'.procs, k) && FlagsAt(k, m'.pts[k])
    {
      assert FlagsAt(k, m.pts[k]);
    }
  }

  lemma ProcsChange(m: Machine, m': Machine, pid: int, p: Proc)
    requires ProcsOk(m) && FlagsOk(m) && ProcOk(p) && m'.procs == m.procs[pid := p] && m'.pts == m.pts
    requires forall k {:trigger k in m.pts} :: k in m.pts ==> PlacedAt(m'.procs, k)
    ensures Placed(m') && ProcsOk(m') && FlagsOk(m')
  {
  }

  /** Shrinking drops exactly the pages past the new size. */
  lemma ShrinkShape(m: Machine, pid: int, size: nat)
    requires Inv(m) && pid in m.procs && size < m.procs[pid].size
    ensures var m' := UnmapRange(m, pid, Pages(size), Pages(m.procs[pid].size));
            Cleared(m.pts, m'.pts, pid, Pages(size), Pages(m.procs[pid].size)) && Inv(m') && m'.procs == m.procs
  {
    AccountedAfterUnmapRange(m, pid, Pages(size), Pages(m.procs[pid].size));
    FewerKeeps(m, UnmapRange(m, pid, Pages(size), Pages(m.procs[pid].size)));
  }

  lemma ShrinkKeepsInv(m: Machine, pid: int, size: nat)
    requires Inv(m) && pid in m.procs && size < m.procs[pid].size
    ensures Inv(DoSbrk(m, pid, size, 0).0)
  {
    ShrinkShape(m, pid, size);
    var m1 := UnmapRange(m, pid, Pages(size), Pages(m.procs[pid].size));
    var m' := DoSbrk(m, pid, size, 0).0;
    if size > 0 {
      var p := m.procs[pid].(size := size);
      assert ProcOk(m.procs[pid]);
      forall k {:trigger k in m1.pts} | k in m1.pts
        ensures PlacedAt(m'.procs, k)
      {
        assert PlacedAt(m1.procs, k) && !InSpan(k, pid, Pages(size), Pages(m.procs[pid].size));
      }
      ProcsChange(m1, m', pid, p);
      AccountedSame(m1, m');
    }
  }

  lemma RoomToGrow(m: Machine, pid: int, size: nat)
    requires Placed(m) && ProcsOk(m) && pid in m.procs && Pages(size) <= VA_START_PAGE
    ensures forall v {:trigger Va(pid, v)} :: Pages(m.procs[pid].size) <= v < Pages(size) ==> Va(pid, v) !in m.pts
  {
    forall v {:trigger Va(pid, v)} | Pages(m.procs[pid].size) <= v < Pages(size)
      ensures Va(pid, v) !in m.pts
    {
    }
  }

  lemma PlacedAfterGrow(m: Machine, m': Machine, pid: int, size: nat)
    requires Placed(m) && ProcsOk(m) && FlagsOk(m) && pid in m.procs && m.procs[pid].size <= size
    requires Pages(size) <= VA_START_PAGE && m'.procs == m.procs[pid := m.procs[pid].(size := size)]
    requires GrownPts(m.pts, m'.pts, m.free, pid, Pages(m.procs[pid].size), Pages(size) - Pages(m.procs[pid].size))
    ensures Placed(m') && ProcsOk(m') && FlagsOk(m')
  {
    assert ProcOk(m.procs[pid]) && ProcOk(m'.procs[pid]);
    forall k {:trigger k in m'.pts} | k in m'.pts
      ensures PlacedAt(m'.procs, k) && FlagsAt(k, m'.pts[k])
    {
      if k in m.pts {
        assert PlacedAt(m.procs, k) && FlagsAt(k, m.pts[k]);
      } else {
        assert k == Va(pid, k.page);
      }
    }
  }

  lemma GrowKeepsInv(m: Machine, pid: int, size: nat, got: nat)
    requires Inv(m) && pid in m.procs && m.procs[pid].size <= size <= VA_START_PAGE * PGSIZE
    requires got <= |m.free| && Pages(size) - Pages(m.procs[pid].size) <= got
    ensures Inv(DoSbrk(m, pid, size, got).0)
  {
    hide Accounted, Placed, ProcsOk, FlagsOk, GrownPts, GrownMem, MapRange;
    var lo, hi := Pages(m.procs[pid].size), Pages(size);
    RoomToGrow(m, pid, size);
    MapRangeGrows(m, pid, lo, hi - lo);
    var m1 := MapRange(m, pid, lo, hi - lo);
    var m' := DoSbrk(m, pid, size, got).0;
    PlacedAfterGrow(m, m', pid, size);
    AccountedProcs(m1, m');
  }

  lemma AccountedProcs(m: Machine, m': Machine)
    requires Accounted(m) && m'.pts == m.pts && m'.cnt == m.cnt && m'.kern == m.kern
    requires m'.mem == m.mem && m'.free == m.free && m'.owned == m.owned
    ensures Accounted(m')
  {
    AccountedSame(m, m');
  }

  /** Growing and then clearing the same span is as if nothing had happened. */
  lemma GrownThenCleared(p0: map<Va, Pte>, p1: map<Va, Pte>, p2: map<Va, Pte>, free: seq<int>, pid: int, lo: int, n: nat, hi: int)
    requires GrownPts(p0, p1, free, pid, lo, n) && Cleared(p1, p2, pid, lo, hi) && lo + n <= hi
    requires forall v {:trigger Va(pid, v)} :: lo <= v < hi ==> Va(pid, v) !in p0
    ensures p2 == p0
  {
    forall k
      ensures k in p2 <==> k in p0
    {
      assert InSpan(k, pid, lo, lo + n) ==> InSpan(k, pid, lo, hi);
      assert InSpan(k, pid, lo, hi) ==> k == Va(pid, k.page);
    }
  }

  lemma GrowFailsKeepsInv(m: Machine, pid: int, size: nat, got: nat)
    requires Inv(m) && pid in m.procs && m.procs[pid].size <= size <= VA_START_PAGE * PGSIZE
    requires got <= |m.free| && got < Pages(size) - Pages(m.procs[pid].size)
    ensures Inv(DoSbrk(m, pid, size, got).0) && DoSbrk(m, pid, size, got).0.pts == m.pts
    ensures DoSbrk(m, pid, size, got).0.procs == m.procs
  {
    hide Accounted, Placed, ProcsOk, FlagsOk, GrownPts, GrownMem, Cleared;
    var lo, hi := Pages(m.procs[pid].size), Pages(size);
    RoomToGrow(m, pid, size);
    MapRangeGrows(m, pid, lo, got);
    var m1 := MapRange(m, pid, lo, got);
    AccountedAfterUnmapRange(m1, pid, lo, hi);
    var m' := DoSbrk(m, pid, size, got).0;
    GrownThenCleared(m.pts, m1.pts, m'.pts, m.free, pid, lo, got, hi);
    FewerKeeps(m, m');
  }

  lemma StuckKeepsInv(m: Machine, pid: int, size: nat, got: nat)
    requires Inv(m) && Enabled(m, SbrkStuck(pid, size, got))
    ensures Inv(Apply(m, SbrkStuck(pid, size, got)).0)
  {
    hide Accounted, Placed, ProcsOk, FlagsOk, MapRange, UnmapRange, GrowStuck;
    var lo, hi := Pages(m.procs[pid].size), Pages(size);
    GrowFailsKeepsInv(m, pid, size, got);
    var m1 := DoSbrk(m, pid, size, got).0;
    NextIsMemory(m, pid, size, got);
    var f, freed, left := StuckIs(m, pid, lo, hi, got);
    var m' := GrowStuck(m, pid, lo, hi, got);
    ShuffledAccounted(m1, m', f, freed, left);
    SamePlaces(m1, m');
  }

  lemma SamePlaces(m: Machine, m': Machine)
    requires Placed(m) && ProcsOk(m) && FlagsOk(m) && m'.procs == m.procs && m'.pts == m.pts
    ensures Placed(m') && ProcsOk(m') && FlagsOk(m')
  {
    FewerKeeps(m, m');
  }

  /** The frame that is taken last is memory. */
  lemma NextIsMemory(m: Machine, pid: int, size: nat, got: nat)
    requires Inv(m) && Enabled(m, SbrkStuck(pid, size, got))
    ensures var m1 := MapRange(m, pid, Pages(m.procs[pid].size), got); m1.free[0] in m1.mem
  {
    hide Accounted, Placed, ProcsOk, FlagsOk, GrownPts, GrownMem, MapRange;
    var lo := Pages(m.procs[pid].size);
    RoomToGrow(m, pid, size);
    MapRangeGrows(m, pid, lo, got);
    FreeIsMemory(MapRange(m, pid, lo, got), 0);
  }

  lemma ExitKeepsInv(m: Machine, pid: int)
    requires Inv(m) && pid in m.procs
    ensures Inv(DoExit(m, pid))
  {
    assert ProcOk(m.procs[pid]);
    UnmapRegionsTrims(m, pid, m.procs[pid].wmaps);
    var m1 := UnmapRegions(m, pid, m.procs[pid].wmaps);
    FewerKeeps(m, m1);
    var m' := DoExit(m, pid);
    forall k {:trigger k in m1.pts} | k in m1.pts
      ensures PlacedAt(m'.procs, k)
    {
      assert PlacedAt(m1.procs, k);
    }
    ProcsChange(m1, m', pid, m.procs[pid].(zombie := true));
    AccountedSame(m1, m');
  }

  lemma ReapKeepsInv(m: Machine, pid: int)
    requires Inv(m) && pid in m.procs
    ensures Inv(DoReap(m, pid)) && NoPages(DoReap(m, pid), pid)
  {
    AccountedAfterUnmapRange(m, pid, 0, KERNBASE / PGSIZE);
    var m1 := UnmapRange(m, pid, 0, KERNBASE / PGSIZE);
    var m' := DoReap(m, pid);
    FewerKeeps(m, m1);
    forall k {:trigger k in m'.pts} | k in m'.pts
      ensures PlacedAt(m'.procs, k) && k.pid != pid
    {
      assert PlacedAt(m1.procs, k);
    }
    AccountedSame(m1, m');
  }

  // Faults and accesses.

  lemma PutKeeps(m: Machine, m': Machine, k: Va, pte: Pte)
    requires Placed(m) && ProcsOk(m) && FlagsOk(m) && m'.procs == m.procs && m'.pts == m.pts[k := pte]
    requires PlacedAt(m.procs, k) && FlagsAt(k, pte)
    ensures Placed(m') && ProcsOk(m') && FlagsOk(m')
  {
    forall j {:trigger j in m'.pts} | j in m'.pts
      ensures PlacedAt(m'.procs, j) && FlagsAt(j, m'.pts[j])
    {
      if j != k {
        assert j in m.pts && FlagsAt(j, m.pts[j]);
      }
    }
  }

  /** do_copy_on_write leaves a writable entry that is not copy-on-write, with the
      user bit it had, and touches no other entry. */
  lemma CowShape(m: Machine, k: Va)
    requires DoCow(m, k).1 == Done
    ensures var m' := DoCow(m, k).0;
            && k in m.pts && m'.procs == m.procs && m'.kern == m.kern && m'.owned == m.owned
            && m'.pts.Keys == m.pts.Keys
            && m'.pts == m.pts[k := Pte(m'.pts[k].frame, true, m.pts[k].u, false)]
  {
    var pte := m.pts[k];
    if pte.frame in m.cnt && m.cnt[pte.frame] == 1 {
      assert DoCow(m, k).0.pts == m.pts[k := Pte(pte.frame, true, pte.u, false)];
    } else {
      assert DoCow(m, k).0.pts == m.pts[k := Pte(m.free[0], true, pte.u, false)];
    }
  }

  lemma FaultKeepsInv(m: Machine, k: Va)
    requires Inv(m) && Fault(m, k).1 == Done && 0 <= k.page < KERNBASE / PGSIZE
    requires !(k in m.pts && Permits(m.pts[k], true))
    ensures Inv(Fault(m, k).0) && k in Fault(m, k).0.pts && Fault(m, k).0.procs == m.procs
    ensures Fault(m, k).0.pts[k].w && !Fault(m, k).0.pts[k].cow
  {
    var m' := Fault(m, k).0;
    if k.page < VA_START_PAGE {
      AccountedAfterCow(m, k);
      CowShape(m, k);
      assert PlacedAt(m.procs, k);
      PutKeeps(m, m', k, m'.pts[k]);
    } else {
      AccountedAfterZero(m, k);
      PutKeeps(m, m', k, m'.pts[k]);
    }
  }

  lemma {:induction false} SettleKeepsInv(m: Machine, k: Va, write: bool, tries: nat)
    requires Inv(m) && 0 <= k.page < KERNBASE / PGSIZE
    ensures Inv(Settle(m, k, write, tries).0)
    ensures Settle(m, k, write, tries).1 == Done ==>
              k in Settle(m, k, write, tries).0.pts && Permits(Settle(m, k, write, tries).0.pts[k], write)
    decreases tries
  {
    hide Inv;
    if !(k in m.pts && Permits(m.pts[k], write)) && tries > 0 && Fault(m, k).1 == Done {
      FaultNeeded(m, k, write);
      FaultKeepsInv(m, k);
      SettleKeepsInv(Fault(m, k).0, k, write, tries - 1);
    } else if !(k in m.pts && Permits(m.pts[k], write)) && tries > 0 {
      RefusalChangesNothing(m, k);
    }
  }

  lemma RefusalChangesNothing(m: Machine, k: Va)
    requires Fault(m, k).1 != Done
    ensures Fault(m, k).0 == m
  {
  }

  lemma FaultNeeded(m: Machine, k: Va, write: bool)
    requires Inv(m) && !(k in m.pts && Permits(m.pts[k], write)) && Fault(m, k).1 == Done
    ensures !(k in m.pts && Permits(m.pts[k], true))
  {
    if k in m.pts && k.page < VA_START_PAGE {
      assert FlagsAt(k, m.pts[k]);
    }
  }

  /** Two faults are always enough, so the retry bound is never reached. */
  lemma SettleEnds(m: Machine, k: Va, write: bool, tries: nat)
    requires Inv(m) && 0 <= k.page < KERNBASE / PGSIZE && tries >= 2
    ensures Settle(m, k, write, tries) == Settle(m, k, write, 2)
  {
    if !(k in m.pts && Permits(m.pts[k], write)) && Fault(m, k).1 == Done {
      FaultNeeded(m, k, write);
      FaultKeepsInv(m, k);
      var m1 := Fault(m, k).0;
      assert FlagsAt(k, m1.pts[k]);
      assert !Permits(m1.pts[k], write) ==> Fault(m1, k).1 == Killed;
    }
  }

  lemma AccessKeepsInv(m: Machine, t: Step)
    requires Inv(m) && Enabled(m, t) && (t.Load? || t.Store?)
    ensures Inv(Apply(m, t).0)
  {
    hide Inv, Settle;
    SettleKeepsInv(m, t.k, t.Store?, 2);
    var m1 := Settle(m, t.k, t.Store?, 2).0;
    if t.Store? && Settle(m, t.k, true, 2).1 == Done {
      WriteKeepsInv(m1, t.k, PutByte(PageAt(m1, t.k), t.off, t.x));
    }
  }

  lemma WriteKeepsInv(m: Machine, k: Va, page: Page)
    requires Inv(m) && k in m.pts
    ensures Inv(m.(mem := m.mem[m.pts[k].frame := page]))
  {
    var m' := m.(mem := m.mem[m.pts[k].frame := page]);
    AccountedSame(m, m');
    FewerKeeps(m, m');
  }

  lemma OtherKeepsInv(m: Machine, t: Step)
    requires Inv(m) && Enabled(m, t)
    requires t.ForkNoKvm? || t.Wmap? || t.KernelTake? || t.KernelGive?
    ensures Inv(Apply(m, t).0)
  {
    var m' := Apply(m, t).0;
    match t
    case ForkNoKvm(_, counted) => AccountedAfterKvm(m, counted); FewerKeeps(m, m');
    case Wmap(pid, r) => WmapKeepsInv(m, pid, r);
    case KernelTake => AccountedSame(m, m'); FewerKeeps(m, m');
    case KernelGive(f) => AccountedSame(m, m'); FewerKeeps(m, m');
  }

  lemma WmapKeepsInv(m: Machine, pid: int, r: Region)
    requires Inv(m) && Enabled(m, Wmap(pid, r))
    ensures Inv(Apply(m, Wmap(pid, r)).0)
  {
    var m' := Apply(m, Wmap(pid, r)).0;
    var p := m'.procs[pid];
    assert ProcOk(m.procs[pid]);
    assert ProcOk(p);
    forall k {:trigger k in m.pts} | k in m.pts
      ensures PlacedAt(m'.procs, k)
    {
      assert PlacedAt(m.procs, k);
      assert p.wmaps[..|p.wmaps| - 1] == m.procs[pid].wmaps;
      InRegionsSplit(p.wmaps, k.page);
    }
    ProcsChange(m, m', pid, p);
    AccountedSame(m, m');
  }

  lemma StepKeepsInv(m: Machine, t: Step)
    requires Inv(m) && Enabled(m, t)
    ensures Inv(Apply(m, t).0)
  {
    hide Inv;
    match t
    case Fork(p, c) => if !ForkPanics(m, p) { ForkKeepsInv(m, p, c); }
    case ForkFails(p, c, n) => if !ForkPanics(m, p) { ForkFailsKeepsInv(m, p, c, n); }
    case Load(_) => AccessKeepsInv(m, t);
    case Store(_, _, _) => AccessKeepsInv(m, t);
    case Sbrk(p, size, got) => SbrkKeepsInv(m, p, size, got);
    case SbrkStuck(p, size, got) => StuckKeepsInv(m, p, size, got);
    case Exit(p) => ExitKeepsInv(m, p);
    case Reap(p) => ReapKeepsInv(m, p);
    case _ => OtherKeepsInv(m, t);
  }

  lemma ForkFailsKeepsInv(m: Machine, parent: int, child: int, n: nat)
    requires Inv(m) && parent in m.procs && child !in m.procs && !ForkPanics(m, parent)
    requires n < Pages(m.procs[parent].size)
    ensures Inv(DoForkFails(m, parent, child, n))
  {
    ForkFailsMarks(m, parent, child, n);
    MarkedKeeps(m, DoForkFails(m, parent, child, n));
  }

  lemma SbrkKeepsInv(m: Machine, pid: int, size: nat, got: nat)
    requires Inv(m) && Enabled(m, Sbrk(pid, size, got))
    ensures Inv(DoSbrk(m, pid, size, got).0)
  {
    hide Inv;
    if size < m.procs[pid].size {
      ShrinkKeepsInv(m, pid, size);
    } else if got < Pages(size) - Pages(m.procs[pid].size) {
      GrowFailsKeepsInv(m, pid, size, got);
    } else {
      GrowKeepsInv(m, pid, size, got);
    }
  }

  /** Accounting: in every reachable state every count is, modulo 256, the number of
      user entries that name the frame plus the kernel mappings made of it. */
  lemma {:induction false} AccountingHolds(m: Machine, steps: seq<Step>, m': Machine)
    requires Inv(m) && Run(m, steps, m')
    ensures Inv(m')
    ensures forall f :: f in m'.cnt ==> f in m'.kern && m'.cnt[f] == (|Users(m'.pts, f)| + m'.kern[f]) % 256
    decreases |steps|
  {
    if steps == [] {
      assert forall f :: f in m'.cnt ==> Counted(m', f);
    } else {
      StepKeepsInv(m, steps[0]);
      AccountingHolds(Apply(m, steps[0]).0, steps[1..], m');
    }
  }

  // What the counts are for.

  /** A copy-on-write fault leaves the faulting process as the only user of the
      page's frame, unless the frame had other users and its count had wrapped to
      one. The condition is the code's own test, read before the call. */
  lemma CowIsolatesIff(m: Machine, k: Va)
    requires Inv(m) && FreeSafe(m) && DoCow(m, k).1 == Done
    ensures var m' := DoCow(m, k).0;
            var f := m.pts[k].frame;
            Users(m'.pts, m'.pts[k].frame) == {k} <==>
              !(|Users(m.pts, f)| >= 2 && (|Users(m.pts, f)| + m.kern[f]) % 256 == 1)
  {
    var f := m.pts[k].frame;
    var m' := DoCow(m, k).0;
    assert Counted(m, f) && k in Users(m.pts, f);
    if m.cnt[f] == 1 {
      assert Users(m'.pts, f) == Users(m.pts, f);
      SingletonIff(Users(m.pts, f), k);
    } else {
      var n := m.free[0];
      assert n in m.free;
      assert Users(m'.pts, n) == {k};
    }
  }

  lemma SingletonIff(s: set<Va>, k: Va)
    requires k in s
    ensures |s| >= 1 && (s == {k} <==> |s| < 2)
  {
    assert |s - {k}| == |s| - 1;
    if |s| < 2 {
      assert s - {k} == {};
    }
  }

  /** A frame is freed by an unmapping exactly when the remaining users and the
      kernel mappings add up to a multiple of 256: if no user remains that is
      right only without kernel mappings, and with users remaining it is the wrap
      that hands a mapped page to the free list. */
  lemma FreedIff(m: Machine, k: Va)
    requires Inv(m) && k in m.pts
    ensures var f := m.pts[k].frame;
            Unmap(m, k).free == (if (|Users(m.pts, f)| - 1 + m.kern[f]) % 256 == 0 then [f] + m.free else m.free)
  {
    var f := m.pts[k].frame;
    assert Counted(m, f);
    OneMore(m.cnt[f], |Users(m.pts, f)| + m.kern[f]);
  }
}
