/** The paging code as it is written: fields updated entry by entry in loops. Each
    method is proved to do what the machine's function for it says. */
module CowCode {
  import opened CowMachine
  import opened CowFreeing

  /** A present entry lies in a page table that is there. */
  ghost predicate Tabled(m: Machine) {
    forall k {:trigger k in m.pts} :: k in m.pts ==> k.page / 1024 in TablesOf(m, k.pid)
  }

  /** Everyone else's pages: same entries, same contents. */
  ghost predicate OthersSame(m: Machine, m': Machine, k: Va) {
    forall j {:trigger j in m'.pts} :: j != k ==>
      && (j in m'.pts <==> j in m.pts) && (j in m.pts ==> m'.pts[j] == m.pts[j])
      && PageAt(m', j) == PageAt(m, j)
  }

  class Kernel {
    var mem: map<int, Page>
    var refcounts: map<int, int>
    var freelist: seq<int>
    var pts: map<Va, Pte>
    var tables: map<int, set<int>>
    var procs: map<int, Proc>
    ghost var kern: map<int, int>
    ghost var owned: set<int>

    ghost function S(): Machine
      reads this
    {
      Machine(mem, refcounts, kern, freelist, owned, pts, tables, procs)
    }

    method IncrementRefcount(f: int)
      modifies this`refcounts
      ensures refcounts == Bump(old(refcounts), f)
    {
      if f in refcounts {
        refcounts := refcounts[f := (refcounts[f] + 1) % 256];
      }
    }

    method DecrementRefcount(f: int)
      modifies this`refcounts
      ensures refcounts == Drop(old(refcounts), f)
    {
      if f in refcounts {
        refcounts := refcounts[f := (refcounts[f] + 255) % 256];
      }
    }

    /** kalloc: take the head of the free list, if there is one. */
    method Kalloc() returns (found: bool, f: int)
      modifies this`freelist
      ensures found <==> old(freelist) != []
      ensures found ==> f == old(freelist)[0] && freelist == old(freelist)[1..]
      ensures !found ==> freelist == old(freelist)
    {
      if freelist == [] {
        found, f := false, 0;
      } else {
        found, f := true, freelist[0];
        freelist := freelist[1..];
      }
    }

    /** kfree: fill the page with junk and put it on the free list. */
    method Kfree(f: int)
      modifies this`mem, this`freelist
      ensures S() == CowMachine.Kfree(old(S()), f)
    {
      mem := mem[f := Filled(1)];
      freelist := [f] + freelist;
    }

    /** map_single_page, and mappages of one page. */
    method MapPage(k: Va, pte: Pte)
      requires Tabled(S())
      modifies this`pts, this`tables, this`refcounts
      ensures S() == MapPte(old(S()), k, pte) && Tabled(S())
    {
      tables := tables[k.pid := (if k.pid in tables then tables[k.pid] else {}) + {k.page / 1024}];
      pts := pts[k := pte];
      IncrementRefcount(pte.frame);
    }

    /** One page of deallocuvm: forget the entry and free the frame at count zero. */
    method UnmapPage(k: Va)
      requires k in pts && Tabled(S())
      modifies this`pts, this`refcounts, this`mem, this`freelist
      ensures S() == Unmap(old(S()), k) && Tabled(S())
    {
      var pa := pts[k].frame;
      DecrementRefcount(pa);
      pts := pts - {k};
      if pa in refcounts && refcounts[pa] == 0 {
        Kfree(pa);
      }
    }

    /** deallocuvm: page by page, but over a missing page table in one jump. */
    method DeallocUvm(pid: int, lo: int, hi: int)
      requires 0 <= lo <= hi && Tabled(S())
      modifies this`pts, this`refcounts, this`mem, this`freelist
      ensures S() == UnmapRange(old(S()), pid, lo, hi) && Tabled(S())
    {
      hide Unmap, Tabled;
      var a := lo;
      ghost var m0 := S();
      while a < hi
        invariant lo <= a && tables == m0.tables && Tabled(S())
        invariant S() == UnmapRange(m0, pid, lo, if a < hi then a else hi)
      {
        if pid !in tables || a / 1024 !in tables[pid] {
          var b := (a / 1024 + 1) * 1024;
          NothingThere(m0, S(), pid, lo, a, if b < hi then b else hi);
          a := b;
        } else {
          if Va(pid, a) in pts {
            UnmapPage(Va(pid, a));
          }
          a := a + 1;
        }
      }
    }

    /** kalloc, memset and mappages of one page. */
    method AllocPage(k: Va) returns (ok: bool)
      requires Tabled(S())
      modifies this`pts, this`tables, this`refcounts, this`mem, this`freelist
      ensures ok <==> old(freelist) != []
      ensures S() == (if ok then MapZero(old(S()), k) else old(S())) && Tabled(S())
    {
      var found, f := Kalloc();
      if !found {
        return false;
      }
      mem := mem[f := Filled(0)];
      MapPage(k, Pte(f, true, true, false));
      ok := true;
    }

    /** The branch where mappages fails: the frame just taken is freed last. */
    method GiveUp(pid: int, lo: int, hi: int)
      requires 0 <= lo <= hi && Tabled(S()) && freelist != []
      modifies this`pts, this`refcounts, this`mem, this`freelist
      ensures Tabled(S())
      ensures var f := old(freelist[0]);
              var m := old(S()).(free := old(freelist)[1..], mem := old(mem)[f := Filled(0)]);
              S() == CowMachine.Kfree(UnmapRange(m, pid, lo, hi), f)
    {
      hide Tabled, UnmapRange;
      var found, f := Kalloc();
      mem := mem[f := Filled(0)];
      TabledSame(old(S()), S());
      DeallocUvm(pid, lo, hi);
      ghost var m := S();
      Kfree(f);
      TabledSame(m, S());
    }

    /** allocuvm from page lo to page hi, with page-table memory for `room` pages. It
        fails when the free list is empty, or when mappages does, and then takes back
        what it has mapped. */
    method AllocUvm(pid: int, lo: int, hi: int, room: nat) returns (ok: bool)
      requires 0 <= lo <= hi && Tabled(S())
      modifies this`pts, this`tables, this`refcounts, this`mem, this`freelist
      ensures ok <==> hi - lo <= |old(freelist)| && hi - lo <= room
      ensures Tabled(S())
      ensures ok ==> S() == MapRange(old(S()), pid, lo, hi - lo)
      ensures !ok && |old(freelist)| <= room ==>
                S() == UnmapRange(MapRange(old(S()), pid, lo, |old(freelist)|), pid, lo, hi)
      ensures !ok && room < |old(freelist)| ==> S() == GrowStuck(old(S()), pid, lo, hi, room)
    {
      hide MapZero, UnmapRange, Tabled;
      var a := lo;
      while a < hi
        invariant lo <= a <= hi && a - lo <= |old(freelist)| && a - lo <= room && Tabled(S())
        invariant S() == MapRange(old(S()), pid, lo, a - lo)
      {
        if a - lo == room && freelist != [] {
          GiveUp(pid, lo, hi);
          return false;
        }
        var mapped := AllocPage(Va(pid, a));
        if !mapped {
          DeallocUvm(pid, lo, hi);
          return false;
        }
        a := a + 1;
      }
      ok := true;
    }

    /** The body of copyuvm's loop: mark the parent's page if it is writable, and
        give the child the same entry. */
    method CopyPage(parent: int, child: int, v: int)
      requires Va(parent, v) in pts && Tabled(S())
      modifies this`pts, this`tables, this`refcounts
      ensures S() == CowMachine.CopyPage(old(S()), parent, child, v) && Tabled(S())
    {
      var pte := pts[Va(parent, v)];
      if pte.w {
        pte := Pte(pte.frame, false, pte.u, true);
      }
      pts := pts[Va(parent, v) := pte];
      MapPage(Va(child, v), pte);
    }

    /** copyuvm's loop over the parent's n pages, with page-table memory for `room` of
        the child's. It panics at a missing page; out of memory it frees the child's
        pages again. */
    method CopyUvm(parent: int, child: int, n: nat, room: nat) returns (out: Outcome)
      requires Tabled(S()) && parent != child
      modifies this`pts, this`tables, this`refcounts, this`mem, this`freelist
      ensures Tabled(S())
      ensures out == Done <==> AllPresent(old(S()), parent, n) && n <= room
      ensures out == Failed <==> room < n && AllPresent(old(S()), parent, room + 1)
      ensures out == Done || out == Failed || out == Panic
      ensures out == Done ==> S() == CopyPages(old(S()), parent, child, n)
      ensures out == Failed ==>
                var m := CopyPages(old(S()), parent, child, room);
                var k := Va(parent, room);
                k in m.pts && S() == UnmapRange(SetPte(m, k, Shared(m.pts[k])), child, 0, KERNBASE / PGSIZE)
    {
      hide CowMachine.CopyPage, Tabled, UnmapRange;
      ghost var m0 := S();
      var i := 0;
      while i < n
        invariant 0 <= i <= n && i <= room && Tabled(S())
        invariant AllPresent(m0, parent, i) && S() == CopyPages(m0, parent, child, i)
      {
        PresentStill(m0, parent, child, i);
        if Va(parent, i) !in pts {
          return Panic;
        }
        if i == room {
          var pte := pts[Va(parent, i)];
          SetPage(Va(parent, i), if pte.w then Pte(pte.frame, false, pte.u, true) else pte);
          DeallocUvm(child, 0, KERNBASE / PGSIZE);
          return Failed;
        }
        CopyPage(parent, child, i);
        i := i + 1;
      }
      out := Done;
    }

    method SetPage(k: Va, pte: Pte)
      requires k in pts && Tabled(S())
      modifies this`pts
      ensures S() == SetPte(old(S()), k, pte) && Tabled(S())
    {
      pts := pts[k := pte];
    }

    /** copywmap's loop over one region: it panics at a page that is missing from a page
        table that is there. */
    method CopyRegion(parent: int, child: int, r: Region) returns (ok: bool)
      requires Tabled(S()) && parent != child
      modifies this`pts, this`tables, this`refcounts
      ensures Tabled(S())
      ensures ok <==> !HalfMapped(old(S()), parent, r)
      ensures ok ==> S() == ShareRegion(old(S()), parent, child, r.first, r.pages)
    {
      hide MapPte, Tabled;
      ghost var m0 := S();
      var i := 0;
      while i < r.pages
        invariant 0 <= i <= r.pages && Tabled(S()) && SameFor(m0, S(), parent)
        invariant S() == ShareRegion(m0, parent, child, r.first, i)
        invariant forall v {:trigger Va(parent, v)} ::
          r.first <= v < r.first + i && v / 1024 in TablesOf(m0, parent) ==> Va(parent, v) in m0.pts
      {
        var k := Va(parent, r.first + i);
        TableThere(S(), k);
        if parent in tables && k.page / 1024 in tables[parent] {
          if k !in pts {
            return false;
          }
          MapPage(Va(child, r.first + i), pts[k]);
          SameForStill(m0, ShareRegion(m0, parent, child, r.first, i), Va(child, r.first + i), m0.pts[k], parent);
        }
        i := i + 1;
      }
      ok := true;
    }

    /** wunmap_handler's loop over one region. At a missing page table it counts a
        page without moving on. */
    method UnmapRegion(pid: int, r: Region)
      requires Tabled(S())
      modifies this`pts, this`refcounts, this`mem, this`freelist
      ensures S() == CowMachine.UnmapRegion(old(S()), pid, r.first, r.pages) && Tabled(S())
    {
      hide Unmap, Tabled;
      var a, n := r.first, r.pages;
      while n > 0
        invariant 0 <= n <= r.pages && Tabled(S())
        invariant CowMachine.UnmapRegion(S(), pid, a, n)
               == CowMachine.UnmapRegion(old(S()), pid, r.first, r.pages)
      {
        n := n - 1;
        if pid !in tables || a / 1024 !in tables[pid] {
          continue;
        }
        if Va(pid, a) in pts {
          UnmapPage(Va(pid, a));
        }
        a := a + 1;
      }
    }

    /** The second half of do_copy_on_write: a shared page gets a frame of its own. */
    method CopyFrame(k: Va) returns (ok: bool)
      requires Tabled(S()) && k in pts && pts[k].cow
      requires !(pts[k].frame in refcounts && refcounts[pts[k].frame] == 1)
      modifies this`pts, this`tables, this`refcounts, this`mem, this`freelist
      ensures Tabled(S()) && (S(), if ok then Done else Panic) == DoCow(old(S()), k)
    {
      hide Tabled;
      var pte := pts[k];
      var found, f := Kalloc();
      if !found {
        return false;
      }
      mem := mem[f := if pte.frame in mem then mem[pte.frame] else Filled(0)];
      TabledSame(old(S()), S());
      MapPage(k, Pte(f, true, pte.u, false));
      ghost var m1 := S();
      DecrementRefcount(pte.frame);
      TabledSame(m1, S());
      ok := true;
    }

    /** do_copy_on_write. It panics for a missing page, or when a copy is needed and no
        frame is free; it refuses a page that is not copy-on-write. Otherwise the page
        is writable afterwards, with the contents and the user bit it had, and no other
        page of any process is touched. */
    method DoCopyOnWrite(k: Va) returns (out: Outcome)
      requires Tabled(S())
      modifies this`pts, this`tables, this`refcounts, this`mem, this`freelist
      ensures Tabled(S()) && (S(), out) == DoCow(old(S()), k)
      ensures out == Killed <==> old(k in pts && !pts[k].cow)
      ensures out == Panic <==> old(k !in pts) || old(pts[k].cow && freelist == [] &&
                !(pts[k].frame in refcounts && refcounts[pts[k].frame] == 1))
      ensures out != Done ==> S() == old(S())
      ensures out == Killed || out == Panic || out == Done
      ensures out == Done ==>
                && k in pts && pts[k].w && !pts[k].cow && pts[k].u == old(pts[k].u)
                && PageAt(S(), k) == old(PageAt(S(), k))
                && (old(FreeSafe(S())) ==> OthersSame(old(S()), S(), k))
    {
      hide Tabled, FreeSafe, OthersSame, PageAt;
      if DoCow(S(), k).1 == Done {
        CowMeans(S(), k);
      }
      if k !in pts {
        return Panic;
      }
      var pte := pts[k];
      if !pte.cow {
        return Killed;
      }
      if pte.frame in refcounts && refcounts[pte.frame] == 1 {
        SetPage(k, Pte(pte.frame, true, pte.u, false));
        return Done;
      }
      var copied := CopyFrame(k);
      out := if copied then Done else Panic;
    }

    /** The page-fault branch of trap: below VA_START a copy-on-write fault; above it a
        fresh zeroed page if the process has a region there, and a kill if not. */
    method PageFault(k: Va) returns (out: Outcome)
      requires Tabled(S())
      modifies this`pts, this`tables, this`refcounts, this`mem, this`freelist
      ensures Tabled(S()) && (S(), out) == Fault(old(S()), k)
      ensures out == Killed <==>
                if k.page < VA_START_PAGE then old(k in pts && !pts[k].cow)
                else !(k.pid in procs && InRegions(procs[k.pid].wmaps, k.page))
      ensures out == Panic <==>
                if k.page < VA_START_PAGE then
                  old(k !in pts) || old(pts[k].cow && freelist == [] &&
                  !(pts[k].frame in refcounts && refcounts[pts[k].frame] == 1))
                else k.pid in procs && InRegions(procs[k.pid].wmaps, k.page) && old(freelist) == []
      ensures out == Killed || out == Panic || out == Done
      ensures out != Done ==> S() == old(S())
      ensures out == Done ==>
                && k in pts && pts[k].w && !pts[k].cow
                && PageAt(S(), k) == (if k.page < VA_START_PAGE then old(PageAt(S(), k)) else Filled(0))
                && (old(FreeSafe(S())) ==> OthersSame(old(S()), S(), k))
    {
      hide DoCow, OthersSame, FreeSafe;
      if k.page < VA_START_PAGE {
        out := DoCopyOnWrite(k);
      } else if k.pid !in procs || !InRegions(procs[k.pid].wmaps, k.page) {
        out := Killed;
      } else {
        if freelist != [] {
          ZeroMeans(S(), k);
        }
        var mapped := AllocPage(k);
        out := if mapped then Done else Panic;
      }
    }
  }

  /** Pages without a table are absent, so a jump over them leaves nothing out. */
  lemma {:induction false} NothingThere(m0: Machine, m: Machine, pid: int, lo: int, a: int, b: int)
    requires lo <= a <= b && m == UnmapRange(m0, pid, lo, a) && Tabled(m)
    requires b <= (a / 1024 + 1) * 1024 && a / 1024 !in TablesOf(m, pid) && 0 <= a
    ensures UnmapRange(m0, pid, lo, b) == m
    decreases b - a
  {
    hide Unmap;
    if a < b {
      NothingThere(m0, m, pid, lo, a, b - 1);
      assert (b - 1) / 1024 == a / 1024;
      assert Va(pid, b - 1) !in m.pts;
    }
  }

  lemma TabledSame(m: Machine, m': Machine)
    requires Tabled(m) && m'.pts == m.pts && m'.tables == m.tables
    ensures Tabled(m')
  {
  }

  lemma TableThere(m: Machine, k: Va)
    requires Tabled(m)
    ensures k in m.pts ==> k.page / 1024 in TablesOf(m, k.pid)
  {
  }

  /** copyuvm does not add or remove pages of the parent. */
  lemma {:induction false} PresentStill(m: Machine, parent: int, child: int, n: nat)
    requires AllPresent(m, parent, n) && parent != child
    ensures forall v {:trigger Va(parent, v)} :: Va(parent, v) in CopyPages(m, parent, child, n).pts <==> Va(parent, v) in m.pts
  {
    if n > 0 {
      PresentStill(m, parent, child, n - 1);
    }
  }

  /** The process has the same pages and page tables in both. */
  ghost predicate SameFor(m: Machine, m': Machine, pid: int) {
    && TablesOf(m', pid) == TablesOf(m, pid)
    && forall v {:trigger Va(pid, v)} ::
         (Va(pid, v) in m'.pts <==> Va(pid, v) in m.pts) && (Va(pid, v) in m.pts ==> m'.pts[Va(pid, v)] == m.pts[Va(pid, v)])
  }

  lemma SameForStill(m0: Machine, m: Machine, k: Va, pte: Pte, pid: int)
    requires SameFor(m0, m, pid) && k.pid != pid
    ensures SameFor(m0, MapPte(m, k, pte), pid)
  {
  }

  /** One entry is replaced, and one frame that no entry named is written. */
  lemma OthersKept(m: Machine, m': Machine, k: Va, f: int)
    requires FreeSafe(m) && f in m.free
    requires k in m'.pts && m'.pts == m.pts[k := m'.pts[k]]
    requires f in m'.mem && m'.mem == m.mem[f := m'.mem[f]]
    ensures OthersSame(m, m', k)
  {
    forall j {:trigger j in m'.pts} | j != k
      ensures (j in m'.pts <==> j in m.pts) && PageAt(m', j) == PageAt(m, j)
    {
      if j in m.pts {
        assert m.pts[j].frame != f;
      }
    }
  }

  lemma CowMeans(m: Machine, k: Va)
    requires DoCow(m, k).1 == Done
    ensures var m' := DoCow(m, k).0;
            && k in m.pts && k in m'.pts && m'.pts[k] == Pte(m'.pts[k].frame, true, m.pts[k].u, false)
            && PageAt(m', k) == PageAt(m, k) && (FreeSafe(m) ==> OthersSame(m, m', k))
  {
    hide FreeSafe, OthersSame;
    var m' := DoCow(m, k).0;
    var f := m.pts[k].frame;
    if f in m.cnt && m.cnt[f] == 1 {
      SameMemory(m, m', k);
    } else if FreeSafe(m) {
      OthersKept(m, m', k, m.free[0]);
    }
  }

  /** One entry is replaced, and nothing is written. */
  lemma SameMemory(m: Machine, m': Machine, k: Va)
    requires k in m'.pts && m'.pts == m.pts[k := m'.pts[k]] && m'.mem == m.mem
    ensures OthersSame(m, m', k)
  {
    forall j {:trigger j in m'.pts} | j != k
      ensures && (j in m'.pts <==> j in m.pts) && (j in m.pts ==> m'.pts[j] == m.pts[j])
              && PageAt(m', j) == PageAt(m, j)
    {
      assert j in m'.pts <==> j in m.pts[k := m'.pts[k]];
    }
  }

  lemma ZeroMeans(m: Machine, k: Va)
    requires m.free != []
    ensures var m' := MapZero(m, k);
            && k in m'.pts && m'.pts[k] == Pte(m.free[0], true, true, false) && PageAt(m', k) == Filled(0)
            && (FreeSafe(m) ==> OthersSame(m, m', k))
  {
    hide FreeSafe, OthersSame;
    if FreeSafe(m) {
      OthersKept(m, MapZero(m, k), k, m.free[0]);
    }
  }
}
