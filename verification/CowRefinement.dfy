/** The sharing machine refines the eager one: as long as no count passes 255, every
    process sees what it would see if fork had copied everything. */
module CowRefinement {
  import opened CowMachine
  import opened CowAccounting
  import opened CowLoops
  import opened CowFreeing
  import opened CowReachable
  import opened CowEager

  /** Entries that name the same frame are on the same side of VA_START, and below
      it none of them is writable. */
  ghost predicate Exclusive(pts: map<Va, Pte>) {
    forall j, k {:trigger pts[j], pts[k]} :: j in pts && k in pts && j != k && pts[j].frame == pts[k].frame ==>
      && (j.page < VA_START_PAGE <==> k.page < VA_START_PAGE)
      && (k.page < VA_START_PAGE ==> !pts[k].w && !pts[j].w)
  }

  ghost predicate Isolated(m: Machine) {
    Inv(m) && NoWrap(m) && FreeSafe(m) && Exclusive(m.pts)
  }

  ghost predicate Visible(m: Machine, k: Va) {
    k in m.pts && Live(m, k.pid)
  }

  /** Page k looks the same in both machines. */
  ghost predicate RelAt(m: Machine, e: Eager, k: Va) {
    && (k in e.pages <==> Visible(m, k) && k.page < VA_START_PAGE)
    && (k in e.links <==> Visible(m, k) && k.page >= VA_START_PAGE)
    && (Visible(m, k) ==> m.pts[k].frame in m.mem)
    && (k in e.pages ==>
          e.pages[k] == EPage(m.mem[m.pts[k].frame], m.pts[k].w || m.pts[k].cow, m.pts[k].u))
    && (k in e.links ==>
          && e.links[k] == m.pts[k].frame && e.links[k] in e.objs
          && e.objs[e.links[k]] == m.mem[m.pts[k].frame])
  }

  ghost predicate Rel(m: Machine, e: Eager) {
    e.procs == m.procs && forall k {:trigger RelAt(m, e, k)} :: RelAt(m, e, k)
  }

  // fork

  lemma ExclusiveAfterFork(pts: map<Va, Pte>, pts': map<Va, Pte>, parent: int, child: int)
    requires Exclusive(pts) && Forked(pts, pts', parent, child) && parent != child
    requires forall k :: k in pts ==> k.pid != child
    ensures Exclusive(pts')
  {
    forall j, k {:trigger pts'[j], pts'[k]} | j in pts' && k in pts' && j != k && pts'[j].frame == pts'[k].frame
      ensures (j.page < VA_START_PAGE <==> k.page < VA_START_PAGE) && (k.page < VA_START_PAGE ==> !pts'[k].w && !pts'[j].w)
    {
      var j0, k0 := Origin(pts, j, parent, child), Origin(pts, k, parent, child);
      OriginShares(pts, pts', j, parent, child);
      OriginShares(pts, pts', k, parent, child);
      if j0 == k0 {
        assert j.pid == child || k.pid == child;
      }
    }
  }

  /** The entry that an entry after fork comes from. */
  ghost function Origin(pts: map<Va, Pte>, k: Va, parent: int, child: int): Va {
    if k.pid == child then Va(parent, k.page) else k
  }

  lemma OriginShares(pts: map<Va, Pte>, pts': map<Va, Pte>, k: Va, parent: int, child: int)
    requires Forked(pts, pts', parent, child) && parent != child && k in pts'
    requires forall k :: k in pts ==> k.pid != child
    ensures var o := Origin(pts, k, parent, child);
            && o in pts && o.page == k.page && pts'[k].frame == pts[o].frame && pts'[k].u == pts[o].u
            && ((pts'[k].w || pts'[k].cow) <==> (pts[o].w || pts[o].cow))
            && (k.pid != child && k.pid != parent ==> pts'[k] == pts[k])
            && (o.page < VA_START_PAGE && (k.pid == child || k.pid == parent) ==> !pts'[k].w)
  {
    if k.pid == parent || k.pid == child {
      var v := k.page;
      assert k == Va(parent, v) || k == Va(child, v);
      assert Va(parent, v) in pts;
    }
  }

  lemma CloneKeys<T>(entries: map<Va, T>, parent: int, child: int, k: Va)
    ensures k in CloneOf(entries, parent, child) <==> k.pid == child && Va(parent, k.page) in entries
    ensures k in CloneOf(entries, parent, child) ==> CloneOf(entries, parent, child)[k] == entries[Va(parent, k.page)]
  {
    if k.pid == child && Va(parent, k.page) in entries {
      assert k == Va(child, Va(parent, k.page).page);
    }
  }

  lemma RelAtAfterFork(m: Machine, m': Machine, e: Eager, parent: int, child: int, k: Va)
    requires Live(m, parent) && child !in m.procs && e.procs == m.procs && Forked(m.pts, m'.pts, parent, child)
    requires m'.procs == m.procs[child := Proc(m.procs[parent].size, m.procs[parent].wmaps, false)] && m'.mem == m.mem
    requires forall k :: k in m.pts ==> k.pid != child
    requires RelAt(m, e, k) && RelAt(m, e, Va(parent, k.page))
    ensures RelAt(m', EFork(e, parent, child), k)
  {
    hide Forked, CloneOf;
    CloneKeys(e.pages, parent, child, k);
    CloneKeys(e.links, parent, child, k);
    ForkKeys(m, m', k, parent, child);
    if k in m'.pts {
      OriginShares(m.pts, m'.pts, k, parent, child);
    }
  }

  lemma RelAfterFork(m: Machine, e: Eager, parent: int, child: int)
    requires Isolated(m) && Rel(m, e) && Live(m, parent) && child !in m.procs && !ForkPanics(m, parent)
    ensures Rel(DoFork(m, parent, child), EFork(e, parent, child))
  {
    hide Inv, NoWrap, FreeSafe, Exclusive, DoFork, Forked, RelAt, ForkPanics;
    ForkForks(m, parent, child);
    ForkNoChild(m, child);
    forall k
      ensures RelAt(DoFork(m, parent, child), EFork(e, parent, child), k)
    {
      assert RelAt(m, e, k) && RelAt(m, e, Va(parent, k.page));
      RelAtAfterFork(m, DoFork(m, parent, child), e, parent, child, k);
    }
  }

  lemma ForkNoChild(m: Machine, child: int)
    requires Inv(m) && child !in m.procs
    ensures forall k :: k in m.pts ==> k.pid != child
  {
    NoPagesOf(m, child);
  }

  lemma ForkKeys(m: Machine, m': Machine, k: Va, parent: int, child: int)
    requires Forked(m.pts, m'.pts, parent, child)
    ensures k in m'.pts <==> k in m.pts || (k.pid == child && Va(parent, k.page) in m.pts)
  {
  }

  // Steps that no process can see.

  /** Page k looks the same before and after. */
  ghost predicate Looks(m: Machine, m': Machine, k: Va) {
    && (Visible(m', k) <==> Visible(m, k))
    && (Visible(m, k) ==>
          && m'.pts[k].u == m.pts[k].u
          && ((m'.pts[k].w || m'.pts[k].cow) <==> (m.pts[k].w || m.pts[k].cow))
          && (k.page >= VA_START_PAGE ==> m'.pts[k].frame == m.pts[k].frame)
          && m.pts[k].frame in m.mem && m'.pts[k].frame in m'.mem
          && m'.mem[m'.pts[k].frame] == m.mem[m.pts[k].frame])
  }

  lemma RelFromLooks(m: Machine, m': Machine, e: Eager)
    requires Rel(m, e) && m'.procs == m.procs && forall k {:trigger Looks(m, m', k)} :: Looks(m, m', k)
    ensures Rel(m', e)
  {
    forall k
      ensures RelAt(m', e, k)
    {
      assert RelAt(m, e, k) && Looks(m, m', k);
    }
  }

  lemma LooksAfterMark(m: Machine, m': Machine)
    requires Accounted(m) && Marked(m.pts, m'.pts) && m'.procs == m.procs && m'.mem.Keys == m.mem.Keys
    requires forall k :: k in m.pts ==> m.pts[k].frame in m'.mem && m'.mem[m.pts[k].frame] == m.mem[m.pts[k].frame]
    ensures forall k {:trigger Looks(m, m', k)} :: Looks(m, m', k)
  {
    forall k
      ensures Looks(m, m', k)
    {
      assert k in m'.pts <==> k in m.pts;
    }
  }

  lemma ExclusiveAfterMark(pts: map<Va, Pte>, pts': map<Va, Pte>)
    requires Exclusive(pts) && Marked(pts, pts')
    ensures Exclusive(pts')
  {
    forall j, k {:trigger pts'[j], pts'[k]} | j in pts' && k in pts' && j != k && pts'[j].frame == pts'[k].frame
      ensures (j.page < VA_START_PAGE <==> k.page < VA_START_PAGE) && (k.page < VA_START_PAGE ==> !pts'[k].w && !pts'[j].w)
    {
      assert pts[j].frame == pts[k].frame;
    }
  }

  /** The highest point of a fork that fails: the child still has its entries. */
  ghost function ForkPeak(m: Machine, parent: int, child: int, n: nat): Machine
    requires parent in m.procs && n < Pages(m.procs[parent].size) && !ForkPanics(m, parent)
  {
    var m2 := CopyPages(SetupKvm(m, m.cnt.Keys), parent, child, n);
    SetPte(m2, Va(parent, n), Shared(m2.pts[Va(parent, n)]))
  }

  lemma ForkPeakSound(m: Machine, parent: int, child: int, n: nat)
    requires Isolated(m) && parent in m.procs && child !in m.procs && !ForkPanics(m, parent)
    requires n < Pages(m.procs[parent].size) && NoWrap(ForkPeak(m, parent, child, n))
    ensures Sound(ForkPeak(m, parent, child, n)) && ForkPeak(m, parent, child, n).mem == m.mem
    ensures SameFrames(m.pts, ForkPeak(m, parent, child, n).pts)
  {
    hide NoWrap, FreeSafe, Exclusive, Copied, Accounted, ProcsOk, FlagsOk, SameFrames, ForkPanics;
    var m1 := SetupKvm(m, m.cnt.Keys);
    AccountedAfterKvm(m, m.cnt.Keys);
    NoPagesOf(m, child);
    PageThere(m, parent, n);
    CopyPagesCopies(m1, parent, child, n);
    AccountedAfterCopyPages(m1, parent, child, n);
    var m2 := CopyPages(m1, parent, child, n);
    AccountedAfterSet(m2, Va(parent, n), Shared(m2.pts[Va(parent, n)]));
    CopiedFrames(m.pts, m2.pts, parent, child, n);
    var m3 := ForkPeak(m, parent, child, n);
    SameFramesAfterSet(m.pts, m2.pts, Va(parent, n), m3.pts[Va(parent, n)]);
    FreeSafeSameFrames(m, m3);
  }

  lemma PageThere(m: Machine, parent: int, n: nat)
    requires parent in m.procs && n < Pages(m.procs[parent].size) && !ForkPanics(m, parent)
    ensures Va(parent, n) in m.pts && AllPresent(m, parent, n)
  {
  }

  ghost function Frames(pts: map<Va, Pte>): set<int> {
    set k | k in pts :: pts[k].frame
  }

  /** Old entries keep their frames, and no new frame is named. */
  ghost predicate SameFrames(pts: map<Va, Pte>, pts': map<Va, Pte>) {
    && (forall k :: k in pts ==> k in pts' && pts'[k].frame == pts[k].frame)
    && (forall k :: k in pts' ==> pts'[k].frame in Frames(pts))
  }

  lemma SameFramesAfterSet(pts: map<Va, Pte>, pts': map<Va, Pte>, k: Va, pte: Pte)
    requires SameFrames(pts, pts') && k in pts' && pte.frame == pts'[k].frame
    ensures SameFrames(pts, pts'[k := pte])
  {
    hide Frames;
  }

  lemma FreeSafeSameFrames(m: Machine, m': Machine)
    requires FreeSafe(m) && SameFrames(m.pts, m'.pts) && m'.free == m.free && m'.owned == m.owned
    ensures FreeSafe(m')
  {
  }

  lemma CopiedFrames(pts: map<Va, Pte>, pts': map<Va, Pte>, parent: int, child: int, n: nat)
    requires Copied(pts, pts', parent, child, n) && forall k :: k in pts ==> k.pid != child
    ensures SameFrames(pts, pts')
  {
    forall k | k in pts
      ensures k in pts' && pts'[k].frame == pts[k].frame
    {
      if InSpan(k, parent, 0, n) {
        assert k == Va(parent, k.page);
      }
    }
    forall k | k in pts'
      ensures pts'[k].frame in Frames(pts)
    {
      if k !in pts {
        assert k == Va(child, k.page);
        assert pts[Va(parent, k.page)].frame == pts'[k].frame;
      }
    }
  }

  lemma KeptFromPeak(m: Machine, m3: Machine, m': Machine)
    requires SameFrames(m.pts, m3.pts) && m3.mem == m.mem && Kept(m3, m') && Marked(m.pts, m'.pts)
    ensures m'.mem.Keys == m.mem.Keys
    ensures forall k :: k in m.pts ==> m.pts[k].frame in m'.mem && m'.mem[m.pts[k].frame] == m.mem[m.pts[k].frame]
  {
    hide Frames;
    forall k | k in m.pts
      ensures m.pts[k].frame in m'.mem && m'.mem[m.pts[k].frame] == m.mem[m.pts[k].frame]
    {
      assert k in m'.pts;
    }
  }

  lemma ForkFailsUnseen(m: Machine, e: Eager, parent: int, child: int, n: nat)
    requires Isolated(m) && Rel(m, e) && parent in m.procs && child !in m.procs && !ForkPanics(m, parent)
    requires n < Pages(m.procs[parent].size) && NoWrap(ForkPeak(m, parent, child, n))
    ensures Isolated(DoForkFails(m, parent, child, n)) && Rel(DoForkFails(m, parent, child, n), e)
  {
    hide Inv, NoWrap, FreeSafe, Exclusive, Accounted, Kept, SameFrames, Marked, Rel, ForkPanics, Looks;
    var m' := DoForkFails(m, parent, child, n);
    var m3 := ForkPeak(m, parent, child, n);
    ForkPeakSound(m, parent, child, n);
    UnmapRangeKeeps(m3, child, 0, KERNBASE / PGSIZE);
    ForkFailsMarks(m, parent, child, n);
    ForkFailsKeepsInv(m, parent, child, n);
    ExclusiveAfterMark(m.pts, m'.pts);
    KeptFromPeak(m, m3, m');
    InvAccounted(m);
    LooksAfterMark(m, m');
    RelFromLooks(m, m', e);
  }

  lemma InvAccounted(m: Machine)
    requires Inv(m)
    ensures Accounted(m) && Placed(m) && ProcsOk(m) && FlagsOk(m)
  {
  }

  lemma ForkIsolated(m: Machine, parent: int, child: int)
    requires Isolated(m) && parent in m.procs && child !in m.procs && !ForkPanics(m, parent)
    requires NoWrap(DoFork(m, parent, child))
    ensures Isolated(DoFork(m, parent, child))
  {
    hide Inv, NoWrap, FreeSafe, Exclusive, Forked, DoFork, SameFrames, ForkPanics;
    var m' := DoFork(m, parent, child);
    ForkForks(m, parent, child);
    ForkNoChild(m, child);
    ForkKeepsInv(m, parent, child);
    ExclusiveAfterFork(m.pts, m'.pts, parent, child);
    ForkedFrames(m.pts, m'.pts, parent, child);
    FreeSafeSameFrames(m, m');
  }

  lemma ForkedFrames(pts: map<Va, Pte>, pts': map<Va, Pte>, parent: int, child: int)
    requires Forked(pts, pts', parent, child) && parent != child && forall k :: k in pts ==> k.pid != child
    ensures SameFrames(pts, pts')
  {
    forall k | k in pts'
      ensures pts'[k].frame in Frames(pts)
    {
      OriginShares(pts, pts', k, parent, child);
    }
    forall k | k in pts
      ensures k in pts' && pts'[k].frame == pts[k].frame
    {
      OriginShares(pts, pts', k, parent, child);
    }
  }

  // The kernel's own frames.

  lemma KernelUnseen(m: Machine, e: Eager, t: Step)
    requires Isolated(m) && Rel(m, e) && Enabled(m, t) && (t.ForkNoKvm? || t.KernelTake? || t.KernelGive?)
    requires NoWrap(Apply(m, t).0)
    ensures Isolated(Apply(m, t).0) && Rel(Apply(m, t).0, e)
  {
    hide Inv, NoWrap, FreeSafe, Exclusive, Rel, Looks;
    var m' := Apply(m, t).0;
    StepKeepsInv(m, t);
    InvAccounted(m);
    KernelFreeSafe(m, t);
    KernelLooks(m, t);
    RelFromLooks(m, m', e);
  }

  lemma KernelFreeSafe(m: Machine, t: Step)
    requires FreeSafe(m) && Enabled(m, t) && (t.ForkNoKvm? || t.KernelTake? || t.KernelGive?)
    ensures FreeSafe(Apply(m, t).0)
  {
    if t.KernelTake? {
      FreeFrame(m, 0);
      TailSafe(m.free);
    }
  }

  /** Without its head, a list without repeats has none and does not have the head. */
  lemma TailSafe(free: seq<int>)
    requires free != [] && forall i, j {:trigger free[i], free[j]} :: 0 <= i < j < |free| ==> free[i] != free[j]
    ensures forall i, j {:trigger free[1..][i], free[1..][j]} :: 0 <= i < j < |free[1..]| ==> free[1..][i] != free[1..][j]
    ensures free[0] !in free[1..] && forall f :: f in free[1..] ==> f in free
  {
  }

  lemma KernelLooks(m: Machine, t: Step)
    requires FreeSafe(m) && Accounted(m) && Enabled(m, t) && (t.ForkNoKvm? || t.KernelTake? || t.KernelGive?)
    ensures forall k {:trigger Looks(m, Apply(m, t).0, k)} :: Looks(m, Apply(m, t).0, k)
  {
    forall k
      ensures Looks(m, Apply(m, t).0, k)
    {
      if k in m.pts {
        EntryFrameCounted(m, k);
      }
    }
  }

  // Copy-on-write faults.

  /** A frame on the free list is nobody's. */
  lemma FreeFrame(m: Machine, i: nat)
    requires FreeSafe(m) && i < |m.free|
    ensures forall k :: k in m.pts ==> m.pts[k].frame != m.free[i]
  {
    assert m.free[i] in m.free;
  }

  lemma CowUpgradeSole(m: Machine, k: Va)
    requires Isolated(m) && DoCow(m, k).1 == Done && m.cnt[m.pts[k].frame] == 1
    ensures forall j :: j in m.pts && m.pts[j].frame == m.pts[k].frame ==> j == k
  {
    var f := m.pts[k].frame;
    CountExact(m, f);
    assert k in Users(m.pts, f);
    SingletonIff(Users(m.pts, f), k);
    forall j | j in m.pts && m.pts[j].frame == f
      ensures j == k
    {
      assert j in Users(m.pts, f);
    }
  }

  lemma ExclusiveAfterSole(pts: map<Va, Pte>, k: Va, pte: Pte)
    requires Exclusive(pts) && forall j :: j in pts && j != k ==> pts[j].frame != pte.frame
    ensures Exclusive(pts[k := pte])
  {
  }

  lemma CowIsolated(m: Machine, k: Va)
    requires Isolated(m) && DoCow(m, k).1 == Done && k.page < VA_START_PAGE && NoWrap(DoCow(m, k).0)
    ensures Isolated(DoCow(m, k).0)
  {
    hide NoWrap, Accounted, Users, ProcsOk, FlagsOk;
    var m' := DoCow(m, k).0;
    assert !(k in m.pts && Permits(m.pts[k], true)) by { FaultWouldHelp(m, k); }
    FaultKeepsInv(m, k) by { PlacedRange(m, k); }
    CowShape(m, k);
    EntryFrameCounted(m, k);
    if m.cnt[m.pts[k].frame] == 1 {
      CowUpgradeSole(m, k);
    } else {
      FreeFrame(m, 0);
    }
    ExclusiveAfterSole(m.pts, k, m'.pts[k]);
    FreeSafeAfterCow(m, k);
  }

  lemma PlacedRange(m: Machine, k: Va)
    requires Placed(m) && k in m.pts
    ensures 0 <= k.page < KERNBASE / PGSIZE
  {
    assert PlacedAt(m.procs, k);
  }

  lemma FaultWouldHelp(m: Machine, k: Va)
    requires FlagsOk(m) && k in m.pts && m.pts[k].cow
    ensures !Permits(m.pts[k], true)
  {
    assert FlagsAt(k, m.pts[k]);
  }

  lemma FreeSafeAfterCow(m: Machine, k: Va)
    requires FreeSafe(m) && DoCow(m, k).1 == Done
    ensures FreeSafe(DoCow(m, k).0)
  {
    var m' := DoCow(m, k).0;
    CowShape(m, k);
    if !(m.pts[k].frame in m.cnt && m.cnt[m.pts[k].frame] == 1) {
      FreeFrame(m, 0);
      TailSafe(m.free);
      assert m'.free == m.free[1..] && m'.pts[k].frame == m.free[0];
    }
  }

  /** A copy-on-write fault changes no page's contents for anyone. */
  lemma CowUnseen(m: Machine, e: Eager, k: Va)
    requires Isolated(m) && Rel(m, e) && DoCow(m, k).1 == Done && k.page < VA_START_PAGE
    ensures Rel(DoCow(m, k).0, e)
  {
    hide NoWrap, Users, Placed, ProcsOk, FlagsOk, Exclusive, Rel;
    var m' := DoCow(m, k).0;
    CowShape(m, k);
    if m.cnt[m.pts[k].frame] != 1 {
      FreeFrame(m, 0);
    }
    forall j
      ensures Looks(m, m', j)
    {
    }
    RelFromLooks(m, m', e);
  }

  // Loads and stores below VA_START.

  /** What an access to a page below VA_START comes to: nothing changes, or one
      copy-on-write fault was served. It succeeds if the page is the user's and,
      for a store, was writable before any fork. */
  lemma SettlePrivate(m: Machine, k: Va, write: bool)
    requires FlagsOk(m) && k.page < VA_START_PAGE && Settle(m, k, write, 2).1 != Panic
    ensures k in m.pts
    ensures var (m', out) := Settle(m, k, write, 2);
            && (m' == m || (DoCow(m, k).1 == Done && m' == DoCow(m, k).0))
            && out == (if m.pts[k].u && (write ==> m.pts[k].w || m.pts[k].cow) then Done else Killed)
            && (out == Done ==> k in m'.pts && Permits(m'.pts[k], write))
  {
    if k in m.pts {
      assert FlagsAt(k, m.pts[k]);
      if !Permits(m.pts[k], write) && Fault(m, k).1 == Done {
        CowShape(m, k);
        var m1 := DoCow(m, k).0;
        assert !Permits(m1.pts[k], write) ==> Fault(m1, k).1 == Killed && Fault(m1, k).0 == m1;
      }
    }
  }

  lemma LoadPrivate(m: Machine, e: Eager, k: Va, id: int)
    requires Isolated(m) && Rel(m, e) && Live(m, k.pid) && k.page < VA_START_PAGE
    requires DoLoad(m, k).1 != Panic && NoWrap(DoLoad(m, k).0)
    ensures Isolated(DoLoad(m, k).0) && Rel(DoLoad(m, k).0, ELoad(e, k, id).0)
    ensures DoLoad(m, k).1 == ELoad(e, k, id).1
  {
    hide Exclusive, NoWrap, FreeSafe, Accounted, Placed, ProcsOk, FlagsOk, Settle;
    SettlePrivate(m, k, false);
    var m' := Settle(m, k, false, 2).0;
    if m' != m {
      CowIsolated(m, k);
      CowUnseen(m, e, k);
    }
    assert RelAt(m, e, k) && RelAt(m', e, k);
  }

  /** A store to a page that only its process can write is seen by no other page. */
  lemma StoreSeenOnce(m: Machine, e: Eager, k: Va, off: int, x: int)
    requires Isolated(m) && Rel(m, e) && Live(m, k.pid) && k.page < VA_START_PAGE && k in m.pts && m.pts[k].w && k in e.pages
    ensures var page := PutByte(PageAt(m, k), off, x);
            Rel(m.(mem := m.mem[m.pts[k].frame := page]), e.(pages := e.pages[k := e.pages[k].(page := page)]))
  {
    var page := PutByte(PageAt(m, k), off, x);
    var m' := m.(mem := m.mem[m.pts[k].frame := page]);
    var e' := e.(pages := e.pages[k := e.pages[k].(page := page)]);
    hide NoWrap, FreeSafe, Inv;
    forall j
      ensures RelAt(m', e', j)
    {
      assert RelAt(m, e, j) && RelAt(m, e, k);
      if j != k && j in m.pts {
        assert m.pts[j].frame != m.pts[k].frame;
      }
    }
  }

  lemma WriteIsolated(m: Machine, k: Va, page: Page)
    requires Isolated(m) && k in m.pts
    ensures Isolated(m.(mem := m.mem[m.pts[k].frame := page]))
  {
    WriteKeepsInv(m, k, page);
  }

  lemma SameCounts(m: Machine, m': Machine)
    requires NoWrap(m') && m'.pts == m.pts && m'.kern == m.kern && m'.cnt == m.cnt
    ensures NoWrap(m)
  {
  }

  lemma StorePrivate(m: Machine, e: Eager, k: Va, off: int, x: int, id: int)
    requires Isolated(m) && Rel(m, e) && Live(m, k.pid) && k.page < VA_START_PAGE
    requires DoStore(m, k, off, x).1 != Panic && NoWrap(DoStore(m, k, off, x).0)
    ensures Isolated(DoStore(m, k, off, x).0) && Rel(DoStore(m, k, off, x).0, EStore(e, k, off, x, id).0)
    ensures DoStore(m, k, off, x).1 == EStore(e, k, off, x, id).1
  {
    hide Exclusive, NoWrap, FreeSafe, Accounted, Placed, ProcsOk, FlagsOk, Settle;
    SettlePrivate(m, k, true);
    var (m', out) := Settle(m, k, true, 2);
    SameCounts(m', DoStore(m, k, off, x).0);
    if m' != m {
      CowIsolated(m, k);
      CowUnseen(m, e, k);
    }
    assert RelAt(m, e, k) && RelAt(m', e, k);
    if out == Done {
      WriteIsolated(m', k, PutByte(PageAt(m', k), off, x));
      StoreSeenOnce(m', e, k, off, x);
      assert PageAt(m', k) == e.pages[k].page;
    }
  }

  // Loads and stores in wmap regions.

  /** An access to a wmap page: it is there, or it is mapped to a fresh zero frame,
      or the process is killed. */
  lemma SettleShared(m: Machine, k: Va, write: bool)
    requires FlagsOk(m) && Placed(m) && k.page >= VA_START_PAGE && k.pid in m.procs
    requires Settle(m, k, write, 2).1 != Panic
    ensures var (m', out) := Settle(m, k, write, 2);
            if k in m.pts then m' == m && out == Done
            else if InRegions(m.procs[k.pid].wmaps, k.page) then m.free != [] && m' == MapZero(m, k) && out == Done
            else m' == m && out == Killed
  {
    if k in m.pts {
      assert FlagsAt(k, m.pts[k]);
    }
  }

  lemma ZeroIsolated(m: Machine, k: Va)
    requires Isolated(m) && m.free != [] && k !in m.pts && PlacedAt(m.procs, k) && k.page >= VA_START_PAGE
    requires NoWrap(MapZero(m, k))
    ensures Isolated(MapZero(m, k))
  {
    hide Accounted, NoWrap;
    var m' := MapZero(m, k);
    AccountedAfterZero(m, k);
    PutKeeps(m, m', k, Pte(m.free[0], true, true, false));
    FreeFrame(m, 0);
    ExclusiveAfterSole(m.pts, k, Pte(m.free[0], true, true, false));
    assert m'.free == m.free[1..];
    assert forall f :: f in m'.free ==> f in m.free && f != m.free[0];
  }

  lemma ZeroSeen(m: Machine, e: Eager, k: Va)
    requires Isolated(m) && Rel(m, e) && m.free != [] && k !in m.pts && Live(m, k.pid) && k.page >= VA_START_PAGE
    ensures Rel(MapZero(m, k), ETouch(e, k, m.free[0]))
  {
    hide NoWrap, Exclusive, Placed, ProcsOk, FlagsOk;
    var m', e' := MapZero(m, k), ETouch(e, k, m.free[0]);
    FreeFrame(m, 0);
    FreeIsMemory(m, 0);
    assert RelAt(m, e, k);
    forall j
      ensures RelAt(m', e', j)
    {
      assert RelAt(m, e, j);
    }
  }

  /** A store to a wmap page is seen through every entry that names its frame. */
  lemma StoreSeenByAll(m: Machine, e: Eager, k: Va, page: Page)
    requires Isolated(m) && Rel(m, e) && k in e.links && k.page >= VA_START_PAGE
    ensures k in m.pts
    ensures Rel(m.(mem := m.mem[m.pts[k].frame := page]), e.(objs := e.objs[e.links[k] := page]))
  {
    hide NoWrap, FreeSafe, Inv;
    assert RelAt(m, e, k);
    var m' := m.(mem := m.mem[m.pts[k].frame := page]);
    var e' := e.(objs := e.objs[e.links[k] := page]);
    forall j
      ensures RelAt(m', e', j)
    {
      assert RelAt(m, e, j);
      if j in m.pts && j != k && m.pts[j].frame == m.pts[k].frame {
        assert j.page >= VA_START_PAGE;
      }
    }
  }

  /** The settled access, in both machines. */
  lemma SharedSettled(m: Machine, e: Eager, k: Va, write: bool, id: int)
    requires Isolated(m) && Rel(m, e) && Live(m, k.pid) && VA_START_PAGE <= k.page < KERNBASE / PGSIZE
    requires Settle(m, k, write, 2).1 != Panic && NoWrap(Settle(m, k, write, 2).0)
    requires m.free != [] ==> id == m.free[0]
    ensures var (m', out) := Settle(m, k, write, 2);
            && Isolated(m') && (out == Done <==> EMayTouch(e, k)) && (out == Done || out == Killed)
            && (if out == Done then Rel(m', ETouch(e, k, id)) && k in ETouch(e, k, id).links else m' == m)
  {
    hide Exclusive, NoWrap, FreeSafe, Accounted, Settle;
    SettleShared(m, k, write);
    assert RelAt(m, e, k);
    if k !in m.pts && InRegions(m.procs[k.pid].wmaps, k.page) {
      ZeroIsolated(m, k);
      ZeroSeen(m, e, k);
    }
  }

  lemma LoadShared(m: Machine, e: Eager, k: Va, id: int)
    requires Isolated(m) && Rel(m, e) && Live(m, k.pid) && VA_START_PAGE <= k.page < KERNBASE / PGSIZE
    requires DoLoad(m, k).1 != Panic && NoWrap(DoLoad(m, k).0) && (m.free != [] ==> id == m.free[0])
    ensures Isolated(DoLoad(m, k).0) && Rel(DoLoad(m, k).0, ELoad(e, k, id).0)
    ensures DoLoad(m, k).1 == ELoad(e, k, id).1
  {
    hide Isolated, NoWrap, Settle;
    SharedSettled(m, e, k, false, id);
    var m' := Settle(m, k, false, 2).0;
    if EMayTouch(e, k) {
      assert RelAt(m', ETouch(e, k, id), k);
    }
  }

  lemma StoreShared(m: Machine, e: Eager, k: Va, off: int, x: int, id: int)
    requires Isolated(m) && Rel(m, e) && Live(m, k.pid) && VA_START_PAGE <= k.page < KERNBASE / PGSIZE
    requires DoStore(m, k, off, x).1 != Panic && NoWrap(DoStore(m, k, off, x).0) && (m.free != [] ==> id == m.free[0])
    ensures Isolated(DoStore(m, k, off, x).0) && Rel(DoStore(m, k, off, x).0, EStore(e, k, off, x, id).0)
    ensures DoStore(m, k, off, x).1 == EStore(e, k, off, x, id).1
  {
    hide Isolated, NoWrap, Settle;
    var (m', out) := Settle(m, k, true, 2);
    SameCounts(m', DoStore(m, k, off, x).0);
    SharedSettled(m, e, k, true, id);
    if EMayTouch(e, k) {
      var e' := ETouch(e, k, id);
      assert RelAt(m', e', k);
      WriteIsolated(m', k, PutByte(PageAt(m', k), off, x));
      StoreSeenByAll(m', e', k, PutByte(PageAt(m', k), off, x));
    }
  }

  // sbrk

  lemma GrowIsolated(m: Machine, pid: int, size: nat, got: nat)
    requires Isolated(m) && pid in m.procs && m.procs[pid].size <= size <= VA_START_PAGE * PGSIZE
    requires got <= |m.free| && Pages(size) - Pages(m.procs[pid].size) <= got
    requires NoWrap(DoSbrk(m, pid, size, got).0)
    ensures Isolated(DoSbrk(m, pid, size, got).0)
  {
    hide Inv, NoWrap, GrownMem, GrownPts, FreeSafe, Exclusive, DoSbrk;
    var lo, n := Pages(m.procs[pid].size), Pages(size) - Pages(m.procs[pid].size);
    GrowKeepsInv(m, pid, size, got);
    GrowShape(m, pid, size, got);
    GrownExclusive(m, DoSbrk(m, pid, size, got).0.pts, pid, lo, n);
    GrownFreeSafe(m, DoSbrk(m, pid, size, got).0, pid, lo, n);
  }

  lemma PagesMono(a: nat, b: nat)
    requires a <= b
    ensures Pages(a) <= Pages(b)
  {
  }

  lemma PagesExact(n: nat)
    ensures Pages(n * PGSIZE) == n
  {
  }

  lemma GrowShape(m: Machine, pid: int, size: nat, got: nat)
    requires Inv(m) && pid in m.procs && m.procs[pid].size <= size <= VA_START_PAGE * PGSIZE
    requires got <= |m.free| && Pages(size) - Pages(m.procs[pid].size) <= got
    ensures var lo, n, m' := Pages(m.procs[pid].size), Pages(size) - Pages(m.procs[pid].size), DoSbrk(m, pid, size, got).0;
            && GrownPts(m.pts, m'.pts, m.free, pid, lo, n) && GrownMem(m.mem, m'.mem, m.free[..n])
            && m'.free == m.free[n..] && m'.owned == m.owned
            && m'.procs == m.procs[pid := m.procs[pid].(size := size)]
  {
    hide Inv, Accounted, Placed, ProcsOk, FlagsOk, GrownPts, GrownMem, Pages;
    PagesMono(m.procs[pid].size, size);
    PagesMono(size, VA_START_PAGE * PGSIZE);
    assert Pages(VA_START_PAGE * PGSIZE) == VA_START_PAGE by { PagesExact(VA_START_PAGE); }
    InvAccounted(m);
    RoomToGrow(m, pid, size);
    MapRangeGrows(m, pid, Pages(m.procs[pid].size), Pages(size) - Pages(m.procs[pid].size));
  }

  /** Fresh frames are distinct from each other and from all frames in use. */
  lemma FreshFrame(m: Machine, pts': map<Va, Pte>, pid: int, lo: int, n: nat, j: Va, k: Va)
    requires FreeSafe(m) && GrownPts(m.pts, pts', m.free, pid, lo, n) && j in pts' && k in pts' && j !in m.pts && j != k
    ensures pts'[j].frame != pts'[k].frame
  {
    assert j == Va(pid, j.page) && pts'[j].frame == m.free[j.page - lo];
    if k !in m.pts {
      assert k == Va(pid, k.page) && pts'[k].frame == m.free[k.page - lo];
    }
  }

  lemma GrownExclusive(m: Machine, pts': map<Va, Pte>, pid: int, lo: int, n: nat)
    requires FreeSafe(m) && Exclusive(m.pts) && GrownPts(m.pts, pts', m.free, pid, lo, n)
    ensures Exclusive(pts')
  {
    forall j, k {:trigger pts'[j], pts'[k]} | j in pts' && k in pts' && j != k && pts'[j].frame == pts'[k].frame
      ensures (j.page < VA_START_PAGE <==> k.page < VA_START_PAGE) && (k.page < VA_START_PAGE ==> !pts'[k].w && !pts'[j].w)
    {
      if j !in m.pts {
        FreshFrame(m, pts', pid, lo, n, j, k);
        assert false;
      }
      if k !in m.pts {
        FreshFrame(m, pts', pid, lo, n, k, j);
        assert false;
      }
    }
  }

  lemma GrownFreeSafe(m: Machine, m': Machine, pid: int, lo: int, n: nat)
    requires FreeSafe(m) && GrownPts(m.pts, m'.pts, m.free, pid, lo, n) && m'.free == m.free[n..] && m'.owned == m.owned
    ensures FreeSafe(m')
  {
    assert forall i {:trigger m'.free[i]} :: 0 <= i < |m'.free| ==> m'.free[i] == m.free[n + i];
    forall k | k in m'.pts
      ensures m'.pts[k].frame !in m'.free && m'.pts[k].frame !in m'.owned
    {
      if k !in m.pts {
        assert k == Va(pid, k.page) && m'.pts[k].frame == m.free[k.page - lo];
      }
    }
  }

  lemma SpanKeysAre(pid: int, lo: int, hi: int, k: Va)
    ensures k in SpanKeys(pid, lo, hi) <==> k.pid == pid && lo <= k.page < hi
  {
    if k.pid == pid && lo <= k.page < hi {
      assert k == Va(pid, k.page);
    }
  }

  lemma GrowSeen(m: Machine, e: Eager, pid: int, size: nat, got: nat)
    requires Isolated(m) && Rel(m, e) && Live(m, pid) && m.procs[pid].size <= size <= VA_START_PAGE * PGSIZE
    requires got <= |m.free| && Pages(size) - Pages(m.procs[pid].size) <= got
    ensures Rel(DoSbrk(m, pid, size, got).0, ESbrk(e, pid, size, got).0)
  {
    hide Inv, Accounted, Placed, ProcsOk, FlagsOk, NoWrap, Exclusive, FreeSafe, SpanKeys, GrownPts, GrownMem, DoSbrk, RelAt;
    var lo, n := Pages(m.procs[pid].size), Pages(size) - Pages(m.procs[pid].size);
    GrowShape(m, pid, size, got);
    InvAccounted(m);
    RoomToGrow(m, pid, size);
    var m', e' := DoSbrk(m, pid, size, got).0, ESbrk(e, pid, size, got).0;
    forall k
      ensures RelAt(m', e', k)
    {
      assert RelAt(m, e, k);
      SpanKeysAre(pid, lo, lo + n, k);
      RelAtAfterGrow(m, m', e, e', pid, lo, n, k);
    }
  }

  lemma RelAtAfterGrow(m: Machine, m': Machine, e: Eager, e': Eager, pid: int, lo: int, n: nat, k: Va)
    requires FreeSafe(m) && RelAt(m, e, k) && Live(m, pid) && lo + n <= VA_START_PAGE
    requires forall p :: Live(m', p) <==> Live(m, p)
    requires GrownPts(m.pts, m'.pts, m.free, pid, lo, n) && GrownMem(m.mem, m'.mem, m.free[..n])
    requires forall v {:trigger Va(pid, v)} :: lo <= v < lo + n ==> Va(pid, v) !in m.pts
    requires e'.links == e.links && e'.objs == e.objs && e'.pages == e.pages + ZeroPages(pid, lo, lo + n)
    requires k in SpanKeys(pid, lo, lo + n) <==> k.pid == pid && lo <= k.page < lo + n
    ensures RelAt(m', e', k)
  {
    hide SpanKeys;
    if InSpan(k, pid, lo, lo + n) {
      assert k == Va(pid, k.page);
      assert m.free[..n][k.page - lo] == m.free[k.page - lo];
    } else if k in m.pts {
      assert m.pts[k].frame !in m.free[..n];
    }
  }

  lemma ExclusiveFewer(pts: map<Va, Pte>, pts': map<Va, Pte>)
    requires Exclusive(pts) && forall k {:trigger k in pts'} :: k in pts' ==> k in pts && pts'[k] == pts[k]
    ensures Exclusive(pts')
  {
  }

  lemma KeptFewer(m: Machine, m': Machine)
    requires Kept(m, m')
    ensures forall k {:trigger k in m'.pts} :: k in m'.pts ==> k in m.pts && m'.pts[k] == m.pts[k]
  {
  }

  /** The highest point of a growth that fails. */
  lemma GrowFailsUnseen(m: Machine, e: Eager, pid: int, size: nat, got: nat)
    requires Isolated(m) && Rel(m, e) && pid in m.procs && m.procs[pid].size <= size <= VA_START_PAGE * PGSIZE
    requires got <= |m.free| && got < Pages(size) - Pages(m.procs[pid].size)
    requires NoWrap(MapRange(m, pid, Pages(m.procs[pid].size), got))
    ensures Isolated(DoSbrk(m, pid, size, got).0) && Rel(DoSbrk(m, pid, size, got).0, e)
  {
    hide Inv, Accounted, Placed, ProcsOk, FlagsOk, NoWrap, Exclusive, FreeSafe, GrownPts, GrownMem, Pages, Rel, Looks, Kept;
    var lo, hi := Pages(m.procs[pid].size), Pages(size);
    PagesMono(size, VA_START_PAGE * PGSIZE);
    assert Pages(VA_START_PAGE * PGSIZE) == VA_START_PAGE by { PagesExact(VA_START_PAGE); }
    InvAccounted(m);
    RoomToGrow(m, pid, size);
    MapRangeGrows(m, pid, lo, got);
    var m1 := MapRange(m, pid, lo, got);
    GrownFreeSafe(m, m1, pid, lo, got);
    UnmapRangeKeeps(m1, pid, lo, hi);
    GrowFailsKeepsInv(m, pid, size, got);
    var m' := DoSbrk(m, pid, size, got).0;
    LooksAfterGrowFails(m, m1, m', pid, lo, got);
    RelFromLooks(m, m', e);
  }

  lemma LooksAfterGrowFails(m: Machine, m1: Machine, m': Machine, pid: int, lo: int, n: nat)
    requires FreeSafe(m) && Accounted(m) && Grown(m, m1, pid, lo, n) && Kept(m1, m') && m'.pts == m.pts && m'.procs == m.procs
    ensures forall k {:trigger Looks(m, m', k)} :: Looks(m, m', k)
  {
    forall k
      ensures Looks(m, m', k)
    {
      if k in m.pts {
        assert m.pts[k].frame !in m.free[..n];
        EntryFrameCounted(m, k);
      }
    }
  }

  lemma StuckUnseen(m: Machine, e: Eager, pid: int, size: nat, got: nat)
    requires Isolated(m) && Rel(m, e) && Enabled(m, SbrkStuck(pid, size, got))
    requires NoWrap(MapRange(m, pid, Pages(m.procs[pid].size), got))
    ensures Isolated(Apply(m, SbrkStuck(pid, size, got)).0) && Rel(Apply(m, SbrkStuck(pid, size, got)).0, e)
  {
    hide Inv, NoWrap, Exclusive, FreeSafe, MapRange, UnmapRange, GrowStuck, Pages, Rel;
    var lo, hi := Pages(m.procs[pid].size), Pages(size);
    GrowFailsUnseen(m, e, pid, size, got);
    var m1 := DoSbrk(m, pid, size, got).0;
    NextIsMemory(m, pid, size, got);
    var f, freed, left := StuckIs(m, pid, lo, hi, got);
    var m' := GrowStuck(m, pid, lo, hi, got);
    StuckKeepsInv(m, pid, size, got);
    InvAccounted(m1);
    ShuffledSafe(m1, m', f, freed, left);
    ShuffledUnseen(m1, m', e, f, freed, left);
  }

  lemma ShuffledUnseen(m: Machine, m': Machine, e: Eager, f: int, freed: seq<int>, left: seq<int>)
    requires NoWrap(m) && FreeSafe(m) && Accounted(m) && Rel(m, e) && Shuffled(m, m', f, freed, left)
    ensures NoWrap(m') && Rel(m', e)
  {
    assert m.free[|freed|] == f;
    forall k
      ensures Looks(m, m', k)
    {
      if k in m.pts {
        assert m.pts[k].frame != f;
        EntryFrameCounted(m, k);
      }
    }
    RelFromLooks(m, m', e);
  }

  lemma ShrinkIsolated(m: Machine, pid: int, size: nat)
    requires Isolated(m) && pid in m.procs && size < m.procs[pid].size
    ensures Isolated(DoSbrk(m, pid, size, 0).0)
  {
    hide Inv, Accounted, NoWrap, FreeSafe, Exclusive, Kept;
    var m1 := UnmapRange(m, pid, Pages(size), Pages(m.procs[pid].size));
    InvAccounted(m);
    UnmapRangeKeeps(m, pid, Pages(size), Pages(m.procs[pid].size));
    ShrinkKeepsInv(m, pid, size);
    KeptFewer(m, m1);
    ExclusiveFewer(m.pts, m1.pts);
    SoundProcs(m1, DoSbrk(m, pid, size, 0).0);
  }

  lemma SoundProcs(m: Machine, m': Machine)
    requires NoWrap(m) && FreeSafe(m) && m' == m.(procs := m'.procs, tables := m'.tables)
    ensures NoWrap(m') && FreeSafe(m')
  {
  }

  lemma RelAtAfterClear(m: Machine, m': Machine, e: Eager, e': Eager, pid: int, lo: int, hi: int, k: Va)
    requires RelAt(m, e, k) && hi <= VA_START_PAGE && (forall p :: Live(m', p) <==> Live(m, p))
    requires Cleared(m.pts, m'.pts, pid, lo, hi)
    requires k in m'.pts ==> m.pts[k].frame in m'.mem && m.pts[k].frame in m.mem && m'.mem[m.pts[k].frame] == m.mem[m.pts[k].frame]
    requires e'.links == e.links && e'.objs == e.objs && e'.pages == Without(e.pages, pid, lo, hi)
    ensures RelAt(m', e', k)
  {
  }

  lemma ShrinkSeen(m: Machine, e: Eager, pid: int, size: nat)
    requires Isolated(m) && Rel(m, e) && Live(m, pid) && size < m.procs[pid].size
    ensures Rel(DoSbrk(m, pid, size, 0).0, ESbrk(e, pid, size, 0).0)
  {
    hide Inv, Accounted, NoWrap, FreeSafe, Exclusive, Pages, RelAt, Cleared, Without;
    var lo, hi := Pages(size), Pages(m.procs[pid].size);
    InvAccounted(m);
    UnmapRangeKeeps(m, pid, lo, hi);
    PagesMono(size, m.procs[pid].size);
    ShrinkShape(m, pid, size);
    ProcBound(m, pid);
    var m', e' := DoSbrk(m, pid, size, 0).0, ESbrk(e, pid, size, 0).0;
    forall k
      ensures RelAt(m', e', k)
    {
      assert RelAt(m, e, k);
      RelAtAfterClear(m, m', e, e', pid, lo, hi, k);
    }
  }

  lemma ProcBound(m: Machine, pid: int)
    requires ProcsOk(m) && pid in m.procs
    ensures Pages(m.procs[pid].size) <= VA_START_PAGE
  {
    assert ProcOk(m.procs[pid]);
  }

  // wmap, exit and wait

  lemma WmapSeen(m: Machine, e: Eager, pid: int, r: Region)
    requires Isolated(m) && Rel(m, e) && Enabled(m, Wmap(pid, r))
    ensures Isolated(Apply(m, Wmap(pid, r)).0) && Rel(Apply(m, Wmap(pid, r)).0, EApply(e, Wmap(pid, r), 0).0)
  {
    hide Inv, NoWrap, FreeSafe, Exclusive;
    WmapKeepsInv(m, pid, r);
    var m' := Apply(m, Wmap(pid, r)).0;
    SoundProcs(m, m');
    forall k
      ensures RelAt(m', EApply(e, Wmap(pid, r), 0).0, k)
    {
      assert RelAt(m, e, k);
    }
  }

  lemma ExitSeen(m: Machine, e: Eager, pid: int)
    requires Isolated(m) && Rel(m, e) && Live(m, pid)
    ensures Isolated(DoExit(m, pid)) && Rel(DoExit(m, pid), EExit(e, pid))
  {
    hide Inv, Accounted, NoWrap, FreeSafe, Exclusive, RelAt, Kept, Trimmed;
    InvAccounted(m);
    ExitKeepsInv(m, pid);
    ProcRegions(m, pid);
    UnmapRegionsTrims(m, pid, m.procs[pid].wmaps);
    var m1 := UnmapRegions(m, pid, m.procs[pid].wmaps);
    KeptFewer(m, m1);
    ExclusiveFewer(m.pts, m1.pts);
    SoundProcs(m1, DoExit(m, pid));
    forall k
      ensures RelAt(DoExit(m, pid), EExit(e, pid), k)
    {
      assert RelAt(m, e, k);
      RelAtAfterExit(m, m1, e, pid, k);
    }
  }

  lemma ProcRegions(m: Machine, pid: int)
    requires ProcsOk(m) && pid in m.procs
    ensures forall i :: 0 <= i < |m.procs[pid].wmaps| ==> VA_START_PAGE <= m.procs[pid].wmaps[i].first
  {
    assert ProcOk(m.procs[pid]);
  }

  lemma RelAtAfterExit(m: Machine, m1: Machine, e: Eager, pid: int, k: Va)
    requires RelAt(m, e, k) && Live(m, pid) && e.procs == m.procs && m1.procs == m.procs
    requires Trimmed(m.pts, m1.pts, pid) && Kept(m, m1)
    ensures RelAt(m1.(procs := m1.procs[pid := m.procs[pid].(zombie := true)]), EExit(e, pid), k)
  {
  }

  lemma ReapSeen(m: Machine, e: Eager, pid: int)
    requires Isolated(m) && Rel(m, e) && pid in m.procs && m.procs[pid].zombie
    ensures Isolated(DoReap(m, pid)) && Rel(DoReap(m, pid), e.(procs := e.procs - {pid}))
  {
    hide Inv, Accounted, NoWrap, FreeSafe, Exclusive, RelAt, Kept, Cleared;
    InvAccounted(m);
    ReapKeepsInv(m, pid);
    UnmapRangeKeeps(m, pid, 0, KERNBASE / PGSIZE);
    AccountedAfterUnmapRange(m, pid, 0, KERNBASE / PGSIZE);
    var m1 := UnmapRange(m, pid, 0, KERNBASE / PGSIZE);
    KeptFewer(m, m1);
    ExclusiveFewer(m.pts, m1.pts);
    SoundProcs(m1, DoReap(m, pid));
    forall k
      ensures RelAt(DoReap(m, pid), e.(procs := e.procs - {pid}), k)
    {
      assert RelAt(m, e, k);
      RelAtAfterReap(m, m1, e, pid, k);
    }
  }

  lemma RelAtAfterReap(m: Machine, m1: Machine, e: Eager, pid: int, k: Va)
    requires RelAt(m, e, k) && pid in m.procs && m.procs[pid].zombie && m1.procs == m.procs
    requires Cleared(m.pts, m1.pts, pid, 0, KERNBASE / PGSIZE) && Kept(m, m1)
    ensures RelAt(m1.(procs := m1.procs - {pid}, tables := m1.tables - {pid}), e.(procs := e.procs - {pid}), k)
  {
    assert InSpan(k, pid, 0, KERNBASE / PGSIZE) ==> k.pid == pid;
  }

  // Whole runs.

  /** No count passes 255 during the step, at its highest point included. */
  ghost predicate StepNoWrap(m: Machine, t: Step)
    requires Enabled(m, t)
  {
    && NoWrap(Apply(m, t).0)
    && (t.ForkFails? && !ForkPanics(m, t.parent) ==> NoWrap(ForkPeak(m, t.parent, t.child, t.copied)))
    && (t.Sbrk? || t.SbrkStuck? ==> NoWrap(MapRange(m, t.pid, Pages(m.procs[t.pid].size), t.got)))
  }

  /** One step: the eager machine takes the same step with the same outcome. */
  lemma StepRefines(m: Machine, e: Eager, t: Step, id: int)
    requires Isolated(m) && Rel(m, e) && Enabled(m, t) && Apply(m, t).1 != Panic && StepNoWrap(m, t)
    requires m.free != [] ==> id == m.free[0]
    ensures Isolated(Apply(m, t).0) && Rel(Apply(m, t).0, EApply(e, t, id).0)
    ensures Apply(m, t).1 == EApply(e, t, id).1
  {
    hide Isolated, RelAt, NoWrap;
    match t
    case Fork(p, c) => RelAfterFork(m, e, p, c); ForkIsolated(m, p, c);
    case ForkNoKvm(_, _) => KernelUnseen(m, e, t);
    case ForkFails(p, c, n) => ForkFailsUnseen(m, e, p, c, n);
    case Load(k) => if k.page < VA_START_PAGE { LoadPrivate(m, e, k, id); } else { LoadShared(m, e, k, id); }
    case Store(k, off, x) =>
      if k.page < VA_START_PAGE { StorePrivate(m, e, k, off, x, id); } else { StoreShared(m, e, k, off, x, id); }
    case Sbrk(p, size, got) => SbrkRefines(m, e, p, size, got);
    case SbrkStuck(p, size, got) => StuckUnseen(m, e, p, size, got);
    case Wmap(p, r) => WmapSeen(m, e, p, r);
    case Exit(p) => ExitSeen(m, e, p);
    case Reap(p) => ReapSeen(m, e, p);
    case KernelTake => KernelUnseen(m, e, t);
    case KernelGive(_) => KernelUnseen(m, e, t);
  }

  lemma SbrkRefines(m: Machine, e: Eager, pid: int, size: nat, got: nat)
    requires Isolated(m) && Rel(m, e) && Enabled(m, Sbrk(pid, size, got)) && StepNoWrap(m, Sbrk(pid, size, got))
    ensures Isolated(DoSbrk(m, pid, size, got).0) && Rel(DoSbrk(m, pid, size, got).0, ESbrk(e, pid, size, got).0)
    ensures DoSbrk(m, pid, size, got).1 == ESbrk(e, pid, size, got).1
  {
    hide Isolated, RelAt, NoWrap;
    if size < m.procs[pid].size {
      ShrinkIsolated(m, pid, size);
      ShrinkSeen(m, e, pid, size);
    } else if got < Pages(size) - Pages(m.procs[pid].size) {
      GrowFailsUnseen(m, e, pid, size, got);
    } else {
      GrowIsolated(m, pid, size, got);
      GrowSeen(m, e, pid, size, got);
    }
  }

  /** A run in which the kernel does not panic and no count passes 255. */
  ghost predicate RunNoWrap(m: Machine, steps: seq<Step>, m': Machine)
    decreases |steps|
  {
    if steps == [] then m == m'
    else
      && Enabled(m, steps[0]) && Apply(m, steps[0]).1 != Panic && StepNoWrap(m, steps[0])
      && RunNoWrap(Apply(m, steps[0]).0, steps[1..], m')
  }

  /** The outcomes that the callers see along a run. */
  ghost function Outcomes(m: Machine, steps: seq<Step>): seq<Outcome>
    decreases |steps|
  {
    if steps == [] || !Enabled(m, steps[0]) then []
    else [Apply(m, steps[0]).1] + Outcomes(Apply(m, steps[0]).0, steps[1..])
  }

  /** The eager machine on the same calls and accesses: its last state and the
      outcomes. The sharing machine m only says which object a first touch of a
      wmap page creates: the one named like the frame it would get. */
  ghost function Follow(m: Machine, e: Eager, steps: seq<Step>): (Eager, seq<Outcome>)
    decreases |steps|
  {
    if steps == [] || !Enabled(m, steps[0]) || e.procs != m.procs then (e, [])
    else
      var (e', out) := EApply(e, steps[0], if m.free == [] then 0 else m.free[0]);
      var (last, outs) := Follow(Apply(m, steps[0]).0, e', steps[1..]);
      (last, [out] + outs)
  }

  /** Refinement: along every run of the sharing machine in which no count passes 255
      and the kernel does not panic, the eager machine on the same calls and
      accesses gives every caller the same outcome (the same page read, the same
      kill, the same failure), and the states stay related. */
  lemma {:induction false} SharingRefinesEager(m: Machine, e: Eager, steps: seq<Step>, m': Machine)
    requires Isolated(m) && Rel(m, e) && RunNoWrap(m, steps, m')
    ensures Isolated(m') && Rel(m', Follow(m, e, steps).0)
    ensures Follow(m, e, steps).1 == Outcomes(m, steps)
    decreases |steps|
  {
    hide Isolated, RelAt, StepNoWrap;
    if steps != [] {
      var id := if m.free == [] then 0 else m.free[0];
      StepRefines(m, e, steps[0], id);
      SharingRefinesEager(Apply(m, steps[0]).0, EApply(e, steps[0], id).0, steps[1..], m');
    }
  }

  /** The object that a first touch creates is a new one. */
  lemma TouchIsFresh(m: Machine, e: Eager)
    requires Isolated(m) && Rel(m, e) && m.free != []
    ensures forall k :: k in e.links ==> e.links[k] != m.free[0]
  {
    FreeFrame(m, 0);
    forall k | k in e.links
      ensures e.links[k] != m.free[0]
    {
      assert RelAt(m, e, k);
    }
  }

  /** Entries p and c of m' name the frame that p named in m: both read what p read,
      with the same rights, and below VA_START neither may write before it has a
      copy. */
  ghost predicate Twins(m: Machine, m': Machine, p: Va, c: Va) {
    && p in m.pts && p in m'.pts && c in m'.pts
    && m'.pts[c] == m'.pts[p] && m'.pts[p].frame == m.pts[p].frame && m'.pts[p].u == m.pts[p].u
    && PageAt(m', c) == PageAt(m', p) == PageAt(m, p)
    && (m'.pts[p].w || m'.pts[p].cow <==> m.pts[p].w || m.pts[p].cow)
    && if p.page < VA_START_PAGE then !m'.pts[p].w else m'.pts[p].w == m.pts[p].w
  }

  /** Right after fork, every page of the parent is the child's too: the same frame,
      contents and rights, read-only below VA_START. In the eager machine they have
      equal private pages and one object for every wmap page. */
  lemma ForkGivesTheSame(m: Machine, e: Eager, parent: int, child: int, v: int)
    requires Isolated(m) && Rel(m, e) && Live(m, parent) && child !in m.procs && Va(parent, v) in m.pts
    requires !ForkPanics(m, parent)
    ensures Twins(m, DoFork(m, parent, child), Va(parent, v), Va(child, v))
    ensures var e', p, c := EFork(e, parent, child), Va(parent, v), Va(child, v);
            if v < VA_START_PAGE
            then p in e.pages && c in e'.pages && e'.pages[c] == e'.pages[p] == e.pages[p]
            else p in e.links && c in e'.links && e'.links[c] == e'.links[p] == e.links[p]
  {
    hide *;
    ForkTwins(m, parent, child, v);
    EagerForkClones(m, e, parent, child, v);
  }

  lemma ForkTwins(m: Machine, parent: int, child: int, v: int)
    requires Isolated(m) && Live(m, parent) && child !in m.procs && Va(parent, v) in m.pts && !ForkPanics(m, parent)
    ensures Twins(m, DoFork(m, parent, child), Va(parent, v), Va(child, v))
  {
    hide Inv, NoWrap, FreeSafe, Exclusive, DoFork, ForkPanics;
    ForkForks(m, parent, child);
  }

  lemma EagerForkClones(m: Machine, e: Eager, parent: int, child: int, v: int)
    requires Isolated(m) && Rel(m, e) && Live(m, parent) && child !in m.procs && Va(parent, v) in m.pts
    ensures var e', p, c := EFork(e, parent, child), Va(parent, v), Va(child, v);
            if v < VA_START_PAGE
            then p in e.pages && c in e'.pages && e'.pages[c] == e'.pages[p] == e.pages[p]
            else p in e.links && c in e'.links && e'.links[c] == e'.links[p] == e.links[p]
  {
    assert RelAt(m, e, Va(parent, v)) && RelAt(m, e, Va(child, v));
    NoPagesOf(m, child);
    CloneKeys(e.pages, parent, child, Va(child, v));
    CloneKeys(e.links, parent, child, Va(child, v));
    CloneKeys(e.pages, parent, child, Va(parent, v));
    CloneKeys(e.links, parent, child, Va(parent, v));
  }
}
