/** What setupkvm's counting does to memory: since every frame is counted for the kernel
    from boot on and nothing takes that back, no frame that a process has used is ever
    free again while no count passes 255. */
module CowPinned {
  import opened CowMachine
  import opened CowAccounting
  import opened CowLoops
  import opened CowFreeing
  import opened CowReachable
  import opened CowEager
  import opened CowRefinement
  import opened CowWrap

  // The kernel's mappings are only ever added to.

  /** The kernel's counts and pages are as they were. */
  predicate SameKernel(m: Machine, m': Machine) {
    m'.kern == m.kern && m'.owned == m.owned && m'.cnt.Keys == m.cnt.Keys
  }

  lemma {:induction false} UnmapRangeKernel(m: Machine, pid: int, lo: int, hi: int)
    ensures SameKernel(m, UnmapRange(m, pid, lo, hi))
    decreases hi - lo
  {
    if lo < hi {
      UnmapRangeKernel(m, pid, lo, hi - 1);
    }
  }

  lemma {:induction false} MapRangeKernel(m: Machine, pid: int, lo: int, n: nat)
    requires n <= |m.free|
    ensures SameKernel(m, MapRange(m, pid, lo, n)) && MapRange(m, pid, lo, n).free == m.free[n..]
  {
    if n > 0 {
      MapRangeKernel(m, pid, lo, n - 1);
    }
  }

  lemma CopyPageKernel(m: Machine, parent: int, child: int, v: int)
    requires Va(parent, v) in m.pts
    ensures SameKernel(m, CopyPage(m, parent, child, v)) && CopyPage(m, parent, child, v).free == m.free
  {
  }

  lemma {:induction false} CopyPagesKernel(m: Machine, parent: int, child: int, n: nat)
    requires AllPresent(m, parent, n)
    ensures SameKernel(m, CopyPages(m, parent, child, n)) && CopyPages(m, parent, child, n).free == m.free
  {
    hide CopyPage;
    if n > 0 {
      CopyPagesKernel(m, parent, child, n - 1);
      CopyPageKernel(CopyPages(m, parent, child, n - 1), parent, child, n - 1);
    }
  }

  lemma {:induction false} ShareRegionKernel(m: Machine, parent: int, child: int, first: int, n: nat)
    ensures SameKernel(m, ShareRegion(m, parent, child, first, n))
    ensures ShareRegion(m, parent, child, first, n).free == m.free
  {
    if n > 0 {
      ShareRegionKernel(m, parent, child, first, n - 1);
    }
  }

  lemma {:induction false} ShareRegionsKernel(m: Machine, parent: int, child: int, rs: seq<Region>)
    ensures SameKernel(m, ShareRegions(m, parent, child, rs)) && ShareRegions(m, parent, child, rs).free == m.free
  {
    if rs != [] {
      var n := |rs| - 1;
      ShareRegionsKernel(m, parent, child, rs[..n]);
      ShareRegionKernel(ShareRegions(m, parent, child, rs[..n]), parent, child, rs[n].first, rs[n].pages);
    }
  }

  lemma {:induction false} UnmapRegionKernel(m: Machine, pid: int, v: int, n: nat)
    ensures SameKernel(m, UnmapRegion(m, pid, v, n))
    decreases n
  {
    if n > 0 && v / 1024 in TablesOf(m, pid) {
      UnmapRegionKernel(if Va(pid, v) in m.pts then Unmap(m, Va(pid, v)) else m, pid, v + 1, n - 1);
    }
  }

  lemma {:induction false} UnmapRegionsKernel(m: Machine, pid: int, rs: seq<Region>)
    ensures SameKernel(m, UnmapRegions(m, pid, rs))
  {
    if rs != [] {
      var n := |rs| - 1;
      UnmapRegionsKernel(m, pid, rs[..n]);
      UnmapRegionKernel(UnmapRegions(m, pid, rs[..n]), pid, rs[n].first, rs[n].pages);
    }
  }

  ghost predicate Suffix(free: seq<int>, free': seq<int>) {
    |free'| <= |free| && free' == free[|free| - |free'|..]
  }

  lemma CowKernel(m: Machine, k: Va)
    ensures SameKernel(m, DoCow(m, k).0) && Suffix(m.free, DoCow(m, k).0.free)
  {
    var m' := DoCow(m, k).0;
    assert m'.free == m.free || (m.free != [] && m'.free == m.free[1..]);
  }

  lemma ZeroKernel(m: Machine, k: Va)
    requires m.free != []
    ensures SameKernel(m, MapZero(m, k)) && Suffix(m.free, MapZero(m, k).free)
  {
  }

  lemma FaultKernel(m: Machine, k: Va)
    ensures SameKernel(m, Fault(m, k).0) && Suffix(m.free, Fault(m, k).0.free)
  {
    hide DoCow, MapZero;
    CowKernel(m, k);
    if m.free != [] {
      ZeroKernel(m, k);
    }
  }

  lemma {:induction false} SettleKernel(m: Machine, k: Va, write: bool, tries: nat)
    ensures SameKernel(m, Settle(m, k, write, tries).0) && Suffix(m.free, Settle(m, k, write, tries).0.free)
    decreases tries
  {
    hide Fault;
    if tries > 0 {
      FaultKernel(m, k);
      SettleKernel(Fault(m, k).0, k, write, tries - 1);
    }
  }

  /** Kernel mappings are counted, never taken back. */
  ghost predicate KernelGrew(m: Machine, m': Machine) {
    m'.kern.Keys == m.kern.Keys && m'.cnt.Keys == m.cnt.Keys && forall f :: f in m.kern ==> m'.kern[f] >= m.kern[f]
  }

  lemma ForkKernel(m: Machine, p: int, c: int)
    requires p in m.procs && !ForkPanics(m, p)
    ensures KernelGrew(m, DoFork(m, p, c)) && DoFork(m, p, c).free == m.free && DoFork(m, p, c).owned == m.owned
  {
    hide CopyPages, ShareRegions;
    var m1 := SetupKvm(m, m.cnt.Keys);
    CopyPagesKernel(m1, p, c, Pages(m.procs[p].size));
    ShareRegionsKernel(CopyPages(m1, p, c, Pages(m.procs[p].size)), p, c, m.procs[p].wmaps);
  }

  lemma PeakKernel(m: Machine, p: int, c: int, n: nat)
    requires p in m.procs && n < Pages(m.procs[p].size) && !ForkPanics(m, p)
    ensures var m3 := ForkPeak(m, p, c, n); KernelGrew(m, m3) && m3.free == m.free && m3.owned == m.owned
  {
    hide CopyPages;
    assert AllPresent(m, p, n);
    CopyPagesKernel(SetupKvm(m, m.cnt.Keys), p, c, n);
  }

  lemma SbrkKernel(m: Machine, p: int, size: nat, got: nat)
    requires p in m.procs && got <= |m.free|
    ensures SameKernel(m, DoSbrk(m, p, size, got).0)
  {
    hide UnmapRange, MapRange, Pages;
    var lo, hi := Pages(m.procs[p].size), Pages(size);
    UnmapRangeKernel(m, p, hi, lo);
    MapRangeKernel(m, p, lo, got);
    UnmapRangeKernel(MapRange(m, p, lo, got), p, lo, hi);
    if lo <= hi <= lo + got {
      MapRangeKernel(m, p, lo, hi - lo);
    }
    PagesOrder(m.procs[p].size, size);
  }

  lemma StuckKernel(m: Machine, p: int, lo: int, hi: int, got: nat)
    requires got < |m.free|
    ensures SameKernel(m, GrowStuck(m, p, lo, hi, got))
  {
    hide UnmapRange, MapRange;
    MapRangeKernel(m, p, lo, got);
    var m1 := MapRange(m, p, lo, got);
    UnmapRangeKernel(m1.(free := m1.free[1..], mem := m1.mem[m1.free[0] := Filled(0)]), p, lo, hi);
  }

  lemma PagesOrder(a: nat, b: nat)
    ensures a <= b ==> Pages(a) <= Pages(b)
  {
  }

  lemma StepKernel(m: Machine, t: Step)
    requires Enabled(m, t)
    ensures KernelGrew(m, Apply(m, t).0)
  {
    hide UnmapRange, UnmapRegions, Settle, ForkPanics, DoFork, DoSbrk, ForkPeak, GrowStuck;
    match t
    case Fork(p, c) =>
      if !ForkPanics(m, p) {
        ForkKernel(m, p, c);
      }
    case ForkFails(p, c, n) =>
      if !ForkPanics(m, p) {
        PeakKernel(m, p, c, n);
        UnmapRangeKernel(ForkPeak(m, p, c, n), c, 0, KERNBASE / PGSIZE);
        FailsIs(m, p, c, n);
      }
    case Load(k) => SettleKernel(m, k, false, 2);
    case Store(k, _, _) => SettleKernel(m, k, true, 2);
    case Sbrk(p, size, got) => SbrkKernel(m, p, size, got);
    case SbrkStuck(p, size, got) => StuckKernel(m, p, Pages(m.procs[p].size), Pages(size), got);
    case Exit(p) => UnmapRegionsKernel(m, p, m.procs[p].wmaps);
    case Reap(p) => UnmapRangeKernel(m, p, 0, KERNBASE / PGSIZE);
    case _ =>
  }

  lemma FailsIs(m: Machine, p: int, c: int, n: nat)
    requires p in m.procs && n < Pages(m.procs[p].size) && !ForkPanics(m, p)
    ensures DoForkFails(m, p, c, n) == UnmapRange(ForkPeak(m, p, c, n), c, 0, KERNBASE / PGSIZE)
  {
  }

  /** Every frame has a kernel mapping. */
  ghost predicate Pinned(m: Machine) {
    forall f :: f in m.cnt ==> f in m.kern && m.kern[f] >= 1
  }

  lemma {:induction false} RunPinned(m: Machine, steps: seq<Step>, m': Machine)
    requires Pinned(m) && Run(m, steps, m')
    ensures Pinned(m')
    decreases |steps|
  {
    hide Enabled, Apply;
    if steps != [] {
      StepKernel(m, steps[0]);
      RunPinned(Apply(m, steps[0]).0, steps[1..], m');
    }
  }

  lemma BootPinned(n: nat)
    ensures Pinned(Boot(n))
  {
  }

  /** From boot on, in every state in which no count has passed 255: a frame in use has
      a count of two at least, so a copy-on-write fault never upgrades in place, and
      removing an entry never frees the frame. */
  lemma KernelTermPins(n: nat, steps: seq<Step>, m: Machine, k: Va)
    requires Run(Boot(n), steps, m) && NoWrap(m) && k in m.pts
    ensures m.pts[k].frame in m.cnt && m.cnt[m.pts[k].frame] >= 2
    ensures DoCow(m, k).1 == Done ==> m.free != [] && DoCow(m, k).0.pts[k].frame == m.free[0]
    ensures Unmap(m, k).free == m.free
  {
    hide Run, Boot, Inv;
    BootIsolated(n);
    IsolatedIs(Boot(n));
    AccountingHolds(Boot(n), steps, m);
    BootPinned(n);
    RunPinned(Boot(n), steps, m);
    InvAccounted(m);
    PinnedCounts(m, k);
  }

  lemma IsolatedIs(m: Machine)
    requires Isolated(m)
    ensures Inv(m) && Accounted(m) && NoWrap(m) && FreeSafe(m) && Sound(m)
  {
  }

  lemma PinnedCounts(m: Machine, k: Va)
    requires Accounted(m) && NoWrap(m) && Pinned(m) && k in m.pts
    ensures m.pts[k].frame in m.cnt && m.cnt[m.pts[k].frame] >= 2
    ensures DoCow(m, k).1 == Done ==> m.free != [] && DoCow(m, k).0.pts[k].frame == m.free[0]
    ensures Unmap(m, k).free == m.free
  {
    var f := m.pts[k].frame;
    EntryFrameCounted(m, k);
    CountExact(m, f);
    assert k in Users(m.pts, f);
    SingletonIff(Users(m.pts, f), k);
  }

  // So user frames are never freed.

  lemma PinnedAfter(m: Machine, m': Machine)
    requires Pinned(m) && KernelGrew(m, m')
    ensures Pinned(m')
  {
  }

  lemma SameIsPinned(m: Machine, m': Machine)
    requires Pinned(m) && SameKernel(m, m')
    ensures Pinned(m')
  {
  }

  lemma {:induction false} UnmapRangeFrees(m: Machine, pid: int, lo: int, hi: int)
    requires Sound(m) && Pinned(m)
    ensures UnmapRange(m, pid, lo, hi).free == m.free
    decreases hi - lo
  {
    hide Accounted, NoWrap, FreeSafe, Pinned, Kept, Unmap;
    if lo < hi {
      var m1, k := UnmapRange(m, pid, lo, hi - 1), Va(pid, hi - 1);
      UnmapRangeFrees(m, pid, lo, hi - 1);
      UnmapRangeKeeps(m, pid, lo, hi - 1);
      UnmapRangeKernel(m, pid, lo, hi - 1);
      SameIsPinned(m, m1);
      if k in m1.pts {
        PinnedCounts(m1, k);
      }
    }
  }

  lemma {:induction false} UnmapRegionFrees(m: Machine, pid: int, v: int, n: nat)
    requires Sound(m) && Pinned(m)
    ensures UnmapRegion(m, pid, v, n).free == m.free && Sound(UnmapRegion(m, pid, v, n))
    decreases n
  {
    hide Accounted, NoWrap, FreeSafe, Pinned, Kept;
    if n > 0 && v / 1024 in TablesOf(m, pid) {
      var k := Va(pid, v);
      if k in m.pts {
        PinnedCounts(m, k);
        UnmapKeeps(m, k);
        SameIsPinned(m, Unmap(m, k));
        UnmapRegionFrees(Unmap(m, k), pid, v + 1, n - 1);
      } else {
        UnmapRegionFrees(m, pid, v + 1, n - 1);
      }
    }
  }

  lemma {:induction false} UnmapRegionsFrees(m: Machine, pid: int, rs: seq<Region>)
    requires Sound(m) && Pinned(m)
    ensures UnmapRegions(m, pid, rs).free == m.free && Sound(UnmapRegions(m, pid, rs))
  {
    hide Accounted, NoWrap, FreeSafe, Pinned;
    if rs != [] {
      var n := |rs| - 1;
      UnmapRegionsFrees(m, pid, rs[..n]);
      UnmapRegionsKernel(m, pid, rs[..n]);
      SameIsPinned(m, UnmapRegions(m, pid, rs[..n]));
      UnmapRegionFrees(UnmapRegions(m, pid, rs[..n]), pid, rs[n].first, rs[n].pages);
    }
  }

  lemma SbrkFrees(m: Machine, p: int, size: nat, got: nat)
    requires Isolated(m) && Pinned(m) && Enabled(m, Sbrk(p, size, got)) && StepNoWrap(m, Sbrk(p, size, got))
    ensures Suffix(m.free, DoSbrk(m, p, size, got).0.free)
  {
    hide Accounted, NoWrap, FreeSafe, Pinned, Exclusive, Inv, UnmapRange, MapRange, Pages;
    IsolatedIs(m);
    var lo, hi := Pages(m.procs[p].size), Pages(size);
    PagesOrder(m.procs[p].size, size);
    if size < m.procs[p].size {
      UnmapRangeFrees(m, p, hi, lo);
    } else if got < hi - lo {
      GrowFailsSound(m, p, size, got);
      MapRangeKernel(m, p, lo, got);
      SameIsPinned(m, MapRange(m, p, lo, got));
      UnmapRangeFrees(MapRange(m, p, lo, got), p, lo, hi);
    } else {
      MapRangeKernel(m, p, lo, hi - lo);
    }
  }

  lemma StuckFrees(m: Machine, p: int, size: nat, got: nat)
    requires Isolated(m) && Pinned(m) && Enabled(m, SbrkStuck(p, size, got)) && StepNoWrap(m, SbrkStuck(p, size, got))
    ensures Suffix(m.free, Apply(m, SbrkStuck(p, size, got)).0.free)
  {
    hide Accounted, NoWrap, FreeSafe, Pinned, Exclusive, Inv, UnmapRange, MapRange, Pages, GrowStuck;
    IsolatedIs(m);
    var lo, hi := Pages(m.procs[p].size), Pages(size);
    GrowFailsSound(m, p, size, got);
    MapRangeKernel(m, p, lo, got);
    SameIsPinned(m, MapRange(m, p, lo, got));
    UnmapRangeFrees(MapRange(m, p, lo, got), p, lo, hi);
    NextIsMemory(m, p, size, got);
    var f, freed, left := StuckIs(m, p, lo, hi, got);
    assert freed == [];
  }

  lemma GrowFailsSound(m: Machine, pid: int, size: nat, got: nat)
    requires Isolated(m) && pid in m.procs && m.procs[pid].size <= size <= VA_START_PAGE * PGSIZE
    requires got <= |m.free| && got < Pages(size) - Pages(m.procs[pid].size)
    requires NoWrap(MapRange(m, pid, Pages(m.procs[pid].size), got))
    ensures Sound(MapRange(m, pid, Pages(m.procs[pid].size), got))
  {
    hide Inv, Accounted, Placed, ProcsOk, FlagsOk, NoWrap, Exclusive, FreeSafe, GrownPts, GrownMem, Pages;
    var lo := Pages(m.procs[pid].size);
    PagesMono(size, VA_START_PAGE * PGSIZE);
    assert Pages(VA_START_PAGE * PGSIZE) == VA_START_PAGE by { PagesExact(VA_START_PAGE); }
    InvAccounted(m);
    RoomToGrow(m, pid, size);
    MapRangeGrows(m, pid, lo, got);
    GrownFreeSafe(m, MapRange(m, pid, lo, got), pid, lo, got);
  }

  /** While no count passes 255 the free list only loses frames, at its head, except to
      the kernel's own pages that come back. */
  lemma StepFrees(m: Machine, t: Step)
    requires Isolated(m) && Pinned(m) && Enabled(m, t) && StepNoWrap(m, t) && !t.KernelGive?
    ensures Suffix(m.free, Apply(m, t).0.free)
  {
    hide Accounted, NoWrap, FreeSafe, Pinned, Exclusive, Inv;
    hide UnmapRange, UnmapRegions, Settle, ForkPanics, DoFork, DoSbrk, ForkPeak, GrowStuck;
    IsolatedIs(m);
    match t
    case Fork(p, c) =>
      if !ForkPanics(m, p) {
        ForkKernel(m, p, c);
      }
    case ForkFails(p, c, n) =>
      if !ForkPanics(m, p) {
        PeakKernel(m, p, c, n);
        PinnedAfter(m, ForkPeak(m, p, c, n));
        ForkPeakSound(m, p, c, n);
        UnmapRangeFrees(ForkPeak(m, p, c, n), c, 0, KERNBASE / PGSIZE);
        FailsIs(m, p, c, n);
      }
    case Load(k) => SettleKernel(m, k, false, 2);
    case Store(k, _, _) => SettleKernel(m, k, true, 2);
    case Sbrk(p, size, got) => SbrkFrees(m, p, size, got);
    case SbrkStuck(p, size, got) => StuckFrees(m, p, size, got);
    case Exit(p) => UnmapRegionsFrees(m, p, m.procs[p].wmaps);
    case Reap(p) => UnmapRangeFrees(m, p, 0, KERNBASE / PGSIZE);
    case _ =>
  }

  /** Neither free nor kept by the kernel. */
  predicate Lost(m: Machine, f: int) {
    f !in m.free && f !in m.owned
  }

  lemma StepLoses(m: Machine, t: Step, f: int)
    requires Isolated(m) && Pinned(m) && Enabled(m, t) && StepNoWrap(m, t) && Lost(m, f)
    ensures Lost(Apply(m, t).0, f)
  {
    hide Isolated, Pinned, StepNoWrap;
    if t.KernelGive? || t.KernelTake? {
      KernelLoses(m, t, f);
    } else {
      StepFrees(m, t);
      StepOwned(m, t);
    }
  }

  lemma KernelLoses(m: Machine, t: Step, f: int)
    requires Enabled(m, t) && (t.KernelGive? || t.KernelTake?) && Lost(m, f)
    ensures Lost(Apply(m, t).0, f)
  {
  }

  lemma StepOwned(m: Machine, t: Step)
    requires Enabled(m, t) && !t.KernelGive? && !t.KernelTake?
    ensures Apply(m, t).0.owned == m.owned
  {
    hide UnmapRange, UnmapRegions, Settle, ForkPanics, DoFork, DoSbrk, ForkPeak, GrowStuck;
    match t
    case Fork(p, c) =>
      if !ForkPanics(m, p) {
        ForkKernel(m, p, c);
      }
    case ForkFails(p, c, n) =>
      if !ForkPanics(m, p) {
        PeakKernel(m, p, c, n);
        UnmapRangeKernel(ForkPeak(m, p, c, n), c, 0, KERNBASE / PGSIZE);
        FailsIs(m, p, c, n);
      }
    case Load(k) => SettleKernel(m, k, false, 2);
    case Store(k, _, _) => SettleKernel(m, k, true, 2);
    case Sbrk(p, size, got) => SbrkKernel(m, p, size, got);
    case SbrkStuck(p, size, got) => StuckKernel(m, p, Pages(m.procs[p].size), Pages(size), got);
    case Exit(p) => UnmapRegionsKernel(m, p, m.procs[p].wmaps);
    case Reap(p) => UnmapRangeKernel(m, p, 0, KERNBASE / PGSIZE);
    case _ =>
  }

  lemma {:induction false} RunLoses(m: Machine, e: Eager, steps: seq<Step>, m': Machine, f: int)
    requires Isolated(m) && Rel(m, e) && Pinned(m) && RunNoWrap(m, steps, m') && Lost(m, f)
    ensures Lost(m', f)
    decreases |steps|
  {
    hide Isolated, RelAt, Pinned, StepNoWrap, Lost, KernelGrew;
    if steps != [] {
      var id := if m.free == [] then 0 else m.free[0];
      StepRefines(m, e, steps[0], id);
      StepKernel(m, steps[0]);
      PinnedAfter(m, Apply(m, steps[0]).0);
      StepLoses(m, steps[0], f);
      RunLoses(Apply(m, steps[0]).0, EApply(e, steps[0], id).0, steps[1..], m', f);
    }
  }

  /** From boot on, while no count passes 255, a frame that some process has had mapped
      never returns to the free list, whoever exits or unmaps. */
  lemma UserFramesNeverFreed(n: nat, first: seq<Step>, m: Machine, k: Va, rest: seq<Step>, m': Machine)
    requires RunNoWrap(Boot(n), first, m) && k in m.pts && RunNoWrap(m, rest, m')
    ensures m.pts[k].frame !in m'.free
  {
    hide Isolated, Rel, RunNoWrap, Boot, Follow, Run;
    BootIsolated(n);
    SharingRefinesEager(Boot(n), EBoot(n), first, m);
    BootPinned(n);
    NoWrapIsRun(Boot(n), first, m);
    RunPinned(Boot(n), first, m);
    IsolatedIs(m);
    RunLoses(m, Follow(Boot(n), EBoot(n), first).0, rest, m', m.pts[k].frame);
  }

  lemma {:induction false} NoWrapIsRun(m: Machine, steps: seq<Step>, m': Machine)
    requires RunNoWrap(m, steps, m')
    ensures Run(m, steps, m')
    decreases |steps|
  {
    hide Enabled, Apply, StepNoWrap;
    if steps != [] {
      NoWrapIsRun(Apply(m, steps[0]).0, steps[1..], m');
    }
  }
}
