/** The kernel from boot on: where the refinement starts, and the run of fork calls
    after which an 8-bit count wraps and a child sees its parent's store. */
module CowWrap {
  import opened CowMachine
  import opened CowAccounting
  import opened CowLoops
  import opened CowFreeing
  import opened CowReachable
  import opened CowEager
  import opened CowRefinement

  function Upto(n: nat): (s: seq<int>)
    ensures |s| == n && forall i :: 0 <= i < n ==> s[i] == i + 1
  {
    seq(n, i => i + 1)
  }

  function Frame0(n: nat): (r: set<int>)
    ensures forall f {:trigger f in r} :: f in r <==> 0 <= f <= n
  {
    if n == 0 then {0} else Frame0(n - 1) + {n}
  }

  /** The machine after userinit: setupkvm has been called once, frame 0 is the one
      page of process 1, frames 1..n are free. */
  function Boot(n: nat): Machine {
    Machine(
      map f | f in Frame0(n) :: Filled(0),
      map f | f in Frame0(n) :: if f == 0 then 2 else 1,
      map f | f in Frame0(n) :: 1,
      Upto(n), {},
      map[Va(1, 0) := Pte(0, true, true, false)],
      map[1 := {0}],
      map[1 := Proc(PGSIZE, [], false)])
  }

  function EBoot(n: nat): Eager {
    Eager(map[Va(1, 0) := EPage(Filled(0), true, true)], map[], map[], map[1 := Proc(PGSIZE, [], false)])
  }

  lemma BootUsers(n: nat, f: int)
    ensures |Users(Boot(n).pts, f)| == if f == 0 then 1 else 0
  {
    assert Users(Boot(n).pts, f) == if f == 0 then {Va(1, 0)} else {};
  }

  /** The refinement applies from boot on. */
  lemma BootIsolated(n: nat)
    ensures Isolated(Boot(n)) && Rel(Boot(n), EBoot(n))
  {
    var m := Boot(n);
    forall f | f in m.cnt
      ensures Counted(m, f) && |Users(m.pts, f)| + m.kern[f] <= 255
    {
      BootUsers(n, f);
    }
    assert Accounted(m);
    assert PlacedAt(m.procs, Va(1, 0)) && ProcOk(m.procs[1]) && FlagsAt(Va(1, 0), m.pts[Va(1, 0)]);
    forall k
      ensures RelAt(m, EBoot(n), k)
    {
    }
  }

  // Fork, exit, wait, over and over.

  lemma {:induction false} UnmapRangeNone(m: Machine, pid: int, lo: int, hi: int)
    requires forall v {:trigger Va(pid, v)} :: lo <= v < hi ==> Va(pid, v) !in m.pts
    ensures UnmapRange(m, pid, lo, hi) == m
    decreases hi - lo
  {
    if lo < hi {
      UnmapRangeNone(m, pid, lo, hi - 1);
    }
  }

  /** Unmapping a range in which the process has one page. */
  lemma {:induction false} UnmapRangeOne(m: Machine, pid: int, lo: int, hi: int, v: int)
    requires lo <= v < hi && Va(pid, v) in m.pts
    requires forall w {:trigger Va(pid, w)} :: lo <= w < hi && w != v ==> Va(pid, w) !in m.pts
    ensures UnmapRange(m, pid, lo, hi) == Unmap(m, Va(pid, v))
    decreases hi - lo
  {
    if v == hi - 1 {
      UnmapRangeNone(m, pid, lo, hi - 1);
    } else {
      UnmapRangeOne(m, pid, lo, hi - 1, v);
    }
  }

  /** Only process 1 is there, with its one page, and setupkvm has been called n
      times. */
  ghost predicate Alone(m: Machine, n: nat) {
    && Inv(m) && FreeSafe(m) && m.procs == map[1 := Proc(PGSIZE, [], false)]
    && m.pts.Keys == {Va(1, 0)} && m.pts[Va(1, 0)].u && (m.pts[Va(1, 0)].w || m.pts[Va(1, 0)].cow)
    && m.pts[Va(1, 0)].frame == 0 && 0 in m.mem && m.mem[0] == Filled(0)
    && forall f {:trigger m.kern[f]} :: f in m.kern ==> m.kern[f] == n
  }

  /** Process 2 has just been forked. */
  ghost predicate Pair(m: Machine, n: nat) {
    && Inv(m) && FreeSafe(m) && m.procs == map[1 := Proc(PGSIZE, [], false), 2 := Proc(PGSIZE, [], false)]
    && m.pts.Keys == {Va(1, 0), Va(2, 0)}
    && m.pts[Va(1, 0)] == m.pts[Va(2, 0)] == Pte(0, false, true, true)
    && 0 in m.mem && m.mem[0] == Filled(0)
    && forall f {:trigger m.kern[f]} :: f in m.kern ==> m.kern[f] == n
  }

  lemma AloneForks(m: Machine, n: nat)
    requires Alone(m, n)
    ensures !ForkPanics(m, 1)
  {
    assert AllPresent(m, 1, Pages(PGSIZE));
  }

  lemma PairFromFork(m: Machine, m': Machine, n: nat)
    requires Alone(m, n) && Inv(m') && FreeSafe(m') && Forked(m.pts, m'.pts, 1, 2) && m'.mem == m.mem
    requires m'.procs == m.procs[2 := Proc(PGSIZE, [], false)] && m'.kern == AddAll(m.kern, m.cnt.Keys)
    requires m.cnt.Keys == m.kern.Keys && FlagsAt(Va(1, 0), m.pts[Va(1, 0)])
    ensures Pair(m', n + 1)
  {
    hide Inv, FreeSafe;
    forall k
      ensures k in m'.pts <==> k == Va(1, 0) || k == Va(2, 0)
    {
      assert k in m'.pts <==> k in m.pts || (k.pid == 2 && Va(1, k.page) in m.pts);
    }
  }

  lemma ForkAlone(m: Machine, n: nat)
    requires Alone(m, n)
    ensures Enabled(m, Fork(1, 2)) && Apply(m, Fork(1, 2)).1 == Done && Pair(Apply(m, Fork(1, 2)).0, n + 1)
  {
    hide Inv, FreeSafe, Forked, ForkPanics, DoFork, Pair, SameFrames;
    AloneForks(m, n);
    ForkForks(m, 1, 2);
    ForkKeepsInv(m, 1, 2);
    var m' := DoFork(m, 1, 2);
    ForkNoChild(m, 2);
    ForkedFrames(m.pts, m'.pts, 1, 2);
    FreeSafeSameFrames(m, m');
    AloneFlags(m, n);
    PairFromFork(m, m', n);
  }

  lemma AloneFlags(m: Machine, n: nat)
    requires Alone(m, n)
    ensures m.cnt.Keys == m.kern.Keys && FlagsAt(Va(1, 0), m.pts[Va(1, 0)])
  {
  }

  lemma PairCounts(m: Machine, n: nat, f: int)
    requires Pair(m, n)
    ensures |Users(m.pts, f)| == if f == 0 then 2 else 0
  {
    if f == 0 {
      assert Users(m.pts, f) == {Va(1, 0), Va(2, 0)};
    } else {
      assert Users(m.pts, f) == {};
    }
  }

  lemma ReapPair(m: Machine, n: nat)
    requires Pair(m, n) && 1 <= n <= 254
    ensures Enabled(m, Exit(2)) && Apply(m, Exit(2)).1 == Done
    ensures Enabled(Apply(m, Exit(2)).0, Reap(2)) && Alone(Apply(Apply(m, Exit(2)).0, Reap(2)).0, n)
  {
    hide Inv, FreeSafe;
    var m1 := m.(procs := m.procs[2 := Proc(PGSIZE, [], true)]);
    assert DoExit(m, 2) == m1;
    ExitKeepsInv(m, 2);
    ReapKeepsInv(m1, 2);
    UnmapRangeOne(m1, 2, 0, KERNBASE / PGSIZE, 0);
    NotFreed(m1, n);
    var m2 := DoReap(m1, 2);
    assert m2.pts.Keys == {Va(1, 0)};
    assert m2.procs == map[1 := Proc(PGSIZE, [], false)];
    FreeSafeFewer(m, m2);
  }

  lemma FreeSafeFewer(m: Machine, m': Machine)
    requires FreeSafe(m) && m'.free == m.free && m'.owned == m.owned
    requires forall k :: k in m'.pts ==> k in m.pts && m'.pts[k] == m.pts[k]
    ensures FreeSafe(m')
  {
  }

  /** 1 + n is not a multiple of 256, so the child's page is not freed. */
  lemma NotFreed(m: Machine, n: nat)
    requires Inv(m) && 1 <= n <= 254 && m.pts.Keys == {Va(1, 0), Va(2, 0)}
    requires m.pts[Va(1, 0)].frame == m.pts[Va(2, 0)].frame == 0
    requires forall f {:trigger m.kern[f]} :: f in m.kern ==> m.kern[f] == n
    ensures Unmap(m, Va(2, 0)) == m.(cnt := Drop(m.cnt, 0), pts := m.pts - {Va(2, 0)})
  {
    FreedIff(m, Va(2, 0));
    EntryFrameCounted(m, Va(2, 0));
    assert Users(m.pts, 0) == {Va(1, 0), Va(2, 0)};
    var m' := Unmap(m, Va(2, 0));
    assert Counted(m, 0);
    OneMore(m.cnt[0], 2 + n);
  }

  lemma {:induction false} RunAppend(m: Machine, a: seq<Step>, m1: Machine, b: seq<Step>, m2: Machine)
    requires Run(m, a, m1) && Run(m1, b, m2)
    ensures Run(m, a + b, m2)
    decreases |a|
  {
    hide Enabled, Apply;
    if a == [] {
      assert a + b == b;
    } else {
      RunAppend(Apply(m, a[0]).0, a[1..], m1, b, m2);
      assert (a + b)[1..] == a[1..] + b;
    }
  }

  lemma RunOne(m: Machine, t: Step)
    requires Enabled(m, t) && Apply(m, t).1 != Panic
    ensures Run(m, [t], Apply(m, t).0)
  {
    assert [t][1..] == [];
  }

  /** One round of fork, exit and wait. */
  lemma Round(m: Machine, n: nat) returns (steps: seq<Step>, m': Machine)
    requires Alone(m, n) && n + 1 <= 254
    ensures Run(m, steps, m') && Alone(m', n + 1)
  {
    hide Alone, Pair, Run, Enabled, Apply;
    ForkAlone(m, n);
    var m1 := Apply(m, Fork(1, 2)).0;
    ReapPair(m1, n + 1);
    var m2 := Apply(m1, Exit(2)).0;
    m' := Apply(m2, Reap(2)).0;
    RunOne(m, Fork(1, 2));
    RunOne(m1, Exit(2));
    ReapDone(m2);
    RunOne(m2, Reap(2));
    RunAppend(m, [Fork(1, 2)], m1, [Exit(2)], m2);
    RunAppend(m, [Fork(1, 2)] + [Exit(2)], m2, [Reap(2)], m');
    steps := [Fork(1, 2)] + [Exit(2)] + [Reap(2)];
  }

  lemma ReapDone(m: Machine)
    requires Enabled(m, Reap(2))
    ensures Apply(m, Reap(2)).1 == Done
  {
  }

  lemma {:induction false} Rounds(m: Machine, n: nat, k: nat) returns (steps: seq<Step>, m': Machine)
    requires Alone(m, n) && n + k <= 254
    ensures Run(m, steps, m') && Alone(m', n + k)
    decreases k
  {
    hide Alone;
    if k == 0 {
      steps, m' := [], m;
    } else {
      var a, m1 := Round(m, n);
      var b, m2 := Rounds(m1, n + 1, k - 1);
      RunAppend(m, a, m1, b, m2);
      steps, m' := a + b, m2;
    }
  }

  /** The count of a page that the 254th child shares with its parent has wrapped to
      one, so the parent's next store goes to the shared frame. */
  lemma WrappedStore(m: Machine, x: int)
    requires Pair(m, 255)
    ensures Enabled(m, Load(Va(2, 0))) && Apply(m, Load(Va(2, 0))).1 == Value(Filled(0))
    ensures Enabled(m, Store(Va(1, 0), 0, x)) && Apply(m, Store(Va(1, 0), 0, x)).1 == Done
    ensures var m' := Apply(m, Store(Va(1, 0), 0, x)).0;
            Enabled(m', Load(Va(2, 0))) && Apply(m', Load(Va(2, 0))).1 == Value(PutByte(Filled(0), 0, x))
  {
    PairCounts(m, 255, 0);
    EntryFrameCounted(m, Va(1, 0));
    assert Counted(m, 0);
    assert m.cnt[0] == 1;
  }

  /** Isolation fails from boot: there is a run after which a store by the parent is
      read back by the child, in a page that was private to each. */
  lemma WrapBreaksIsolation(n: nat, x: int) returns (steps: seq<Step>, m: Machine)
    requires x != 0
    ensures Run(Boot(n), steps, m)
    ensures Enabled(m, Load(Va(2, 0))) && Apply(m, Load(Va(2, 0))).1 == Value(Filled(0))
    ensures Enabled(m, Store(Va(1, 0), 0, x)) && Apply(m, Store(Va(1, 0), 0, x)).1 == Done
    ensures var m' := Apply(m, Store(Va(1, 0), 0, x)).0;
            Enabled(m', Load(Va(2, 0))) && Apply(m', Load(Va(2, 0))).1 != Value(Filled(0))
  {
    hide Alone, Pair, Run, Enabled, Apply;
    BootAlone(n);
    var a, m1 := Rounds(Boot(n), 1, 253);
    ForkAlone(m1, 254);
    m := Apply(m1, Fork(1, 2)).0;
    RunOne(m1, Fork(1, 2));
    RunAppend(Boot(n), a, m1, [Fork(1, 2)], m);
    steps := a + [Fork(1, 2)];
    WrappedStore(m, x);
    assert PutByte(Filled(0), 0, x).bytes[0] == x;
  }

  lemma BootAlone(n: nat)
    ensures Alone(Boot(n), 1)
  {
    BootIsolated(n);
  }

  // Region pages that exit misses.

  const REGION := Region(VA_START_PAGE, 2048)  // two page tables' worth
  const FAR := VA_START_PAGE + 1024  // the first page of the second

  /** Process 2 has the region, and so far one page table. */
  ghost predicate Mapping(m: Machine) {
    && m.procs == map[1 := Proc(PGSIZE, [], false), 2 := Proc(PGSIZE, [REGION], false)]
    && TablesOf(m, 2) == {0} && m.free != [] && Va(2, FAR) !in m.pts
  }

  lemma ForkTables(m: Machine)
    requires 1 in m.procs && m.procs[1] == Proc(PGSIZE, [], false) && !ForkPanics(m, 1) && 2 !in m.tables
    ensures TablesOf(DoFork(m, 1, 2), 2) == {0} && DoFork(m, 1, 2).free == m.free
  {
    var m1 := SetupKvm(m, m.cnt.Keys);
    assert CopyPages(m1, 1, 2, 1) == CopyPage(CopyPages(m1, 1, 2, 0), 1, 2, 0);
  }

  lemma ForkFirst(n: nat)
    requires n > 0
    ensures Enabled(Boot(n), Fork(1, 2)) && Apply(Boot(n), Fork(1, 2)).1 == Done
    ensures var m := Apply(Boot(n), Fork(1, 2)).0;
            Pair(m, 2) && TablesOf(m, 2) == {0} && m.free != []
  {
    hide Pair, Alone, DoFork, ForkPanics;
    BootAlone(n);
    ForkAlone(Boot(n), 1);
    AloneForks(Boot(n), 1);
    ForkTables(Boot(n));
  }

  lemma WmapNext(m: Machine)
    requires Pair(m, 2) && TablesOf(m, 2) == {0} && m.free != []
    ensures Enabled(m, Wmap(2, REGION)) && Apply(m, Wmap(2, REGION)).1 == Done && Mapping(Apply(m, Wmap(2, REGION)).0)
  {
    hide Inv, FreeSafe;
    var m' := Apply(m, Wmap(2, REGION)).0;
    assert m.procs[2].wmaps + [REGION] == [REGION];
    assert m'.procs == map[1 := Proc(PGSIZE, [], false), 2 := Proc(PGSIZE, [REGION], false)];
    assert Va(2, FAR) !in m.pts.Keys;
  }

  lemma LoadFar(m: Machine)
    requires Mapping(m)
    ensures Enabled(m, Load(Va(2, FAR))) && Apply(m, Load(Va(2, FAR))).1.Value?
    ensures var m' := Apply(m, Load(Va(2, FAR))).0;
            m'.procs == m.procs && TablesOf(m', 2) == {0, FAR / 1024} && Va(2, FAR) in m'.pts
  {
    assert Covers(m.procs[2].wmaps[0], FAR);
    var m1 := MapZero(m, Va(2, FAR));
    assert TablesOf(m, 2) + {FAR / 1024} == {0, FAR / 1024};
    assert Settle(m1, Va(2, FAR), false, 1) == (m1, Done);
    assert Settle(m, Va(2, FAR), false, 2) == (m1, Done);
  }

  lemma ExitFar(m: Machine)
    requires m.procs == map[1 := Proc(PGSIZE, [], false), 2 := Proc(PGSIZE, [REGION], false)]
    requires TablesOf(m, 2) == {0, FAR / 1024} && Va(2, FAR) in m.pts
    ensures Enabled(m, Exit(2)) && Apply(m, Exit(2)).1 == Done
    ensures var m' := Apply(m, Exit(2)).0;
            2 in m'.procs && m'.procs[2] == Proc(PGSIZE, [REGION], true) && Va(2, FAR) in m'.pts
  {
    hide UnmapRegions;
    assert !HasTable(m, 2, VA_START_PAGE);
    assert !Reached(m, 2, VA_START_PAGE, FAR);
    UnmapRegionsExact(m, 2, [REGION], Va(2, FAR));
  }

  /** A child that has touched only the second page table of its region still has that
      page mapped when it has exited. */
  lemma ExitLeavesMapped(n: nat) returns (steps: seq<Step>, m: Machine)
    requires n > 0
    ensures Run(Boot(n), steps, m) && 2 in m.procs && m.procs[2].zombie
    ensures Covers(REGION, FAR) && m.procs[2].wmaps == [REGION] && Va(2, FAR) in m.pts
  {
    hide Run, Enabled, Apply, Boot, Pair, Mapping;
    ForkFirst(n);
    var m1 := Apply(Boot(n), Fork(1, 2)).0;
    WmapNext(m1);
    var m2 := Apply(m1, Wmap(2, REGION)).0;
    assert m2.procs == map[1 := Proc(PGSIZE, [], false), 2 := Proc(PGSIZE, [REGION], false)] by {
      MappingProcs(m2);
    }
    LoadFar(m2);
    var m3 := Apply(m2, Load(Va(2, FAR))).0;
    ExitFar(m3);
    m := Apply(m3, Exit(2)).0;
    RunOne(Boot(n), Fork(1, 2));
    RunOne(m1, Wmap(2, REGION));
    RunOne(m2, Load(Va(2, FAR)));
    RunOne(m3, Exit(2));
    RunAppend(Boot(n), [Fork(1, 2)], m1, [Wmap(2, REGION)], m2);
    RunAppend(Boot(n), [Fork(1, 2)] + [Wmap(2, REGION)], m2, [Load(Va(2, FAR))], m3);
    RunAppend(Boot(n), [Fork(1, 2)] + [Wmap(2, REGION)] + [Load(Va(2, FAR))], m3, [Exit(2)], m);
    steps := [Fork(1, 2)] + [Wmap(2, REGION)] + [Load(Va(2, FAR))] + [Exit(2)];
  }

  lemma MappingProcs(m: Machine)
    requires Mapping(m)
    ensures m.procs == map[1 := Proc(PGSIZE, [], false), 2 := Proc(PGSIZE, [REGION], false)]
  {
  }
}
