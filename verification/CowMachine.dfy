/** Memory of user processes as the kernel keeps it: shared frames, reference
    counts, a free list and copy-on-write page-table entries (vm.c, kalloc.c, the
    paging half of proc.c and the page-fault branch of trap.c). */
module CowMachine {

  const PGSIZE := 4096
  const VA_START_PAGE := 0x60000  // VA_START / PGSIZE: wmap regions begin here
  const KERNBASE := 0x8000_0000
  const INIT := 1  // initproc's pid

  /** A page of a process. */
  datatype Va = Va(pid: int, page: int)

  /** A present page-table entry. */
  datatype Pte = Pte(frame: int, w: bool, u: bool, cow: bool)

  datatype Page = Page(bytes: seq<int>)

  function Filled(x: int): Page {
    Page(seq(PGSIZE, i => x))
  }

  function PutByte(p: Page, off: int, x: int): Page {
    if 0 <= off < |p.bytes| then Page(p.bytes[off := x]) else p
  }

  /** A wmap region, in pages. */
  datatype Region = Region(first: int, pages: nat)

  datatype Proc = Proc(size: nat, wmaps: seq<Region>, zombie: bool)

  /** `cnt` are the 8-bit reference counts. `kern` counts the kernel mappings that
      setupkvm has made of each frame since refcountinit; the code has no such
      field. `owned` are the frames that the kernel holds for itself. `tables` are
      the page-table pages that each process has. */
  datatype Machine = Machine(
    mem: map<int, Page>,
    cnt: map<int, int>,
    kern: map<int, int>,
    free: seq<int>,
    owned: set<int>,
    pts: map<Va, Pte>,
    tables: map<int, set<int>>,
    procs: map<int, Proc>)

  /** PGROUNDUP(bytes) / PGSIZE */
  function Pages(bytes: nat): nat {
    (bytes + PGSIZE - 1) / PGSIZE
  }

  function Bump(cnt: map<int, int>, f: int): (r: map<int, int>)
    ensures r.Keys == cnt.Keys
  {
    if f in cnt then cnt[f := (cnt[f] + 1) % 256] else cnt
  }

  function Drop(cnt: map<int, int>, f: int): (r: map<int, int>)
    ensures r.Keys == cnt.Keys
  {
    if f in cnt then cnt[f := (cnt[f] + 255) % 256] else cnt
  }

  function TablesOf(m: Machine, pid: int): set<int> {
    if pid in m.tables then m.tables[pid] else {}
  }

  // Single entries.

  /** mappages of one page, and map_single_page. */
  function MapPte(m: Machine, k: Va, pte: Pte): Machine {
    m.(pts := m.pts[k := pte],
       cnt := Bump(m.cnt, pte.frame),
       tables := m.tables[k.pid := TablesOf(m, k.pid) + {k.page / 1024}])
  }

  function SetPte(m: Machine, k: Va, pte: Pte): Machine {
    m.(pts := m.pts[k := pte])
  }

  function Kfree(m: Machine, f: int): Machine {
    m.(free := [f] + m.free, mem := m.mem[f := Filled(1)])
  }

  /** The body of deallocuvm's loop: forget the entry, and free the frame if its
      count has become zero. */
  function Unmap(m: Machine, k: Va): Machine
    requires k in m.pts
  {
    var f := m.pts[k].frame;
    var m' := m.(cnt := Drop(m.cnt, f), pts := m.pts - {k});
    if f in m'.cnt && m'.cnt[f] == 0 then Kfree(m', f) else m'
  }

  /** kalloc and memset of a page that is then mapped: allocuvm, do_real_mapping. */
  function MapZero(m: Machine, k: Va): Machine
    requires m.free != []
  {
    var f := m.free[0];
    MapPte(m.(free := m.free[1..], mem := m.mem[f := Filled(0)]), k, Pte(f, true, true, false))
  }

  // Ranges.

  /** deallocuvm, from page lo up to page hi. */
  function UnmapRange(m: Machine, pid: int, lo: int, hi: int): Machine
    decreases hi - lo
  {
    if hi <= lo then m
    else
      var m' := UnmapRange(m, pid, lo, hi - 1);
      if Va(pid, hi - 1) in m'.pts then Unmap(m', Va(pid, hi - 1)) else m'
  }

  /** allocuvm's loop, n pages from page lo. */
  function MapRange(m: Machine, pid: int, lo: int, n: nat): (r: Machine)
    requires n <= |m.free|
    ensures |r.free| == |m.free| - n
  {
    if n == 0 then m else MapZero(MapRange(m, pid, lo, n - 1), Va(pid, lo + n - 1))
  }

  /** What copyuvm makes of a parent's entry: a writable page becomes read-only and
      copy-on-write. */
  function Shared(pte: Pte): Pte {
    if pte.w then Pte(pte.frame, false, pte.u, true) else pte
  }

  function CopyPage(m: Machine, parent: int, child: int, v: int): Machine
    requires Va(parent, v) in m.pts
  {
    var pte := Shared(m.pts[Va(parent, v)]);
    MapPte(SetPte(m, Va(parent, v), pte), Va(child, v), pte)
  }

  predicate AllPresent(m: Machine, pid: int, n: nat) {
    forall v {:trigger Va(pid, v)} :: 0 <= v < n ==> Va(pid, v) in m.pts
  }

  /** copyuvm's loop, the first n pages. */
  function CopyPages(m: Machine, parent: int, child: int, n: nat): (r: Machine)
    requires AllPresent(m, parent, n)
    ensures m.pts.Keys <= r.pts.Keys
  {
    if n == 0 then m else CopyPage(CopyPages(m, parent, child, n - 1), parent, child, n - 1)
  }

  /** copywmap's inner loop, n pages of a region: the child gets the same frame
      with the same flags. */
  function ShareRegion(m: Machine, parent: int, child: int, first: int, n: nat): Machine {
    if n == 0 then m
    else
      var m' := ShareRegion(m, parent, child, first, n - 1);
      var k := Va(parent, first + n - 1);
      if k in m'.pts then MapPte(m', Va(child, first + n - 1), m'.pts[k]) else m'
  }

  function ShareRegions(m: Machine, parent: int, child: int, rs: seq<Region>): Machine {
    if rs == [] then m
    else
      var r := rs[|rs| - 1];
      ShareRegion(ShareRegions(m, parent, child, rs[..|rs| - 1]), parent, child, r.first, r.pages)
  }

  /** wunmap_handler's loop, n pages from page v. It does not advance past a
      missing page table, so it never gets beyond one. */
  function UnmapRegion(m: Machine, pid: int, v: int, n: nat): Machine
    decreases n
  {
    if n == 0 || v / 1024 !in TablesOf(m, pid) then m
    else UnmapRegion(if Va(pid, v) in m.pts then Unmap(m, Va(pid, v)) else m, pid, v + 1, n - 1)
  }

  function UnmapRegions(m: Machine, pid: int, rs: seq<Region>): Machine {
    if rs == [] then m
    else
      var r := rs[|rs| - 1];
      UnmapRegion(UnmapRegions(m, pid, rs[..|rs| - 1]), pid, r.first, r.pages)
  }

  // Calls and faults.

  datatype Step =
    | Fork(parent: int, child: int)
    | ForkNoKvm(parent: int, counted: set<int>)
    | ForkFails(parent: int, child: int, copied: nat)
    | Load(k: Va)
    | Store(k: Va, off: int, x: int)
    | Sbrk(pid: int, size: nat, got: nat)
    | SbrkStuck(pid: int, size: nat, got: nat)
    | Wmap(pid: int, region: Region)
    | Exit(pid: int)
    | Reap(pid: int)
    | KernelTake
    | KernelGive(frame: int)

  /** What the caller sees. Panic is the kernel's own; the machine stops there. */
  datatype Outcome = Done | Value(page: Page) | Killed | Failed | Panic

  predicate Live(m: Machine, pid: int) {
    pid in m.procs && !m.procs[pid].zombie
  }

  predicate Covers(r: Region, v: int) {
    r.first <= v < r.first + r.pages
  }

  predicate InRegions(rs: seq<Region>, v: int) {
    exists i :: 0 <= i < |rs| && Covers(rs[i], v)
  }

  function BumpAll(cnt: map<int, int>, counted: set<int>): map<int, int> {
    map f | f in cnt :: if f in counted then (cnt[f] + 1) % 256 else cnt[f]
  }

  function AddAll(kern: map<int, int>, counted: set<int>): map<int, int> {
    map f | f in kern :: if f in counted then kern[f] + 1 else kern[f]
  }

  /** setupkvm maps every frame once for the kernel; mappages counts those too. */
  function SetupKvm(m: Machine, counted: set<int>): Machine {
    m.(cnt := BumpAll(m.cnt, counted), kern := AddAll(m.kern, counted))
  }

  predicate HalfMapped(m: Machine, pid: int, r: Region) {
    exists v {:trigger Va(pid, v)} ::
      r.first <= v < r.first + r.pages && v / 1024 in TablesOf(m, pid) && Va(pid, v) !in m.pts
  }

  /** copyuvm wants every page below the size; copywmap wants every region page
      whose page table exists. */
  predicate ForkPanics(m: Machine, parent: int)
    requires parent in m.procs
  {
    || !AllPresent(m, parent, Pages(m.procs[parent].size))
    || exists i :: 0 <= i < |m.procs[parent].wmaps| && HalfMapped(m, parent, m.procs[parent].wmaps[i])
  }

  function DoFork(m: Machine, parent: int, child: int): Machine
    requires parent in m.procs && !ForkPanics(m, parent)
  {
    var p := m.procs[parent];
    var m1 := SetupKvm(m, m.cnt.Keys);
    var m2 := CopyPages(m1, parent, child, Pages(p.size));
    var m3 := ShareRegions(m2, parent, child, p.wmaps);
    m3.(procs := m3.procs[child := Proc(p.size, p.wmaps, false)])
  }

  /** copyuvm runs out of page-table pages after `copied` pages: page `copied` of
      the parent is already marked, the child's pages are freed again. */
  function DoForkFails(m: Machine, parent: int, child: int, copied: nat): Machine
    requires parent in m.procs && copied < Pages(m.procs[parent].size) && !ForkPanics(m, parent)
  {
    var m1 := SetupKvm(m, m.cnt.Keys);
    var m2 := CopyPages(m1, parent, child, copied);
    var k := Va(parent, copied);
    var m3 := SetPte(m2, k, Shared(m2.pts[k]));
    UnmapRange(m3, child, 0, KERNBASE / PGSIZE)
  }

  predicate Permits(pte: Pte, write: bool) {
    pte.u && (write ==> pte.w)
  }

  /** do_copy_on_write: upgrade in place if the count is one, else copy. */
  function DoCow(m: Machine, k: Va): (Machine, Outcome) {
    if k !in m.pts then (m, Panic)
    else
      var pte := m.pts[k];
      if !pte.cow then (m, Killed)
      else if pte.frame in m.cnt && m.cnt[pte.frame] == 1 then
        (SetPte(m, k, Pte(pte.frame, true, pte.u, false)), Done)
      else if m.free == [] then (m, Panic)
      else
        var f := m.free[0];
        var old' := if pte.frame in m.mem then m.mem[pte.frame] else Filled(0);
        var m1 := m.(free := m.free[1..], mem := m.mem[f := old']);
        var m2 := MapPte(m1, k, Pte(f, true, pte.u, false));
        (m2.(cnt := Drop(m2.cnt, pte.frame)), Done)
  }

  /** trap's page-fault branch. */
  function Fault(m: Machine, k: Va): (Machine, Outcome) {
    if k.page < VA_START_PAGE then DoCow(m, k)
    else if k.pid !in m.procs || !InRegions(m.procs[k.pid].wmaps, k.page) then (m, Killed)
    else if m.free == [] then (m, Panic)
    else (MapZero(m, k), Done)
  }

  /** A user access: fault until the entry permits it or a fault is refused. After
      a fault that succeeds the entry is not copy-on-write, so at most `tries`
      = 2 faults happen. */
  function Settle(m: Machine, k: Va, write: bool, tries: nat): (Machine, Outcome)
    decreases tries
  {
    if k in m.pts && Permits(m.pts[k], write) then (m, Done)
    else if tries == 0 then (m, Killed)
    else
      var (m', out) := Fault(m, k);
      if out == Done then Settle(m', k, write, tries - 1) else (m', out)
  }

  function PageAt(m: Machine, k: Va): Page {
    if k in m.pts && m.pts[k].frame in m.mem then m.mem[m.pts[k].frame] else Filled(0)
  }

  function DoLoad(m: Machine, k: Va): (Machine, Outcome) {
    var (m', out) := Settle(m, k, false, 2);
    if out == Done then (m', Value(PageAt(m', k))) else (m', out)
  }

  function DoStore(m: Machine, k: Va, off: int, x: int): (Machine, Outcome) {
    var (m', out) := Settle(m, k, true, 2);
    if out == Done && k in m'.pts
    then (m'.(mem := m'.mem[m'.pts[k].frame := PutByte(PageAt(m', k), off, x)]), Done)
    else (m', out)
  }

  /** growproc to a given size; allocuvm gets `got` pages before it fails. */
  function DoSbrk(m: Machine, pid: int, size: nat, got: nat): (Machine, Outcome)
    requires pid in m.procs && got <= |m.free|
  {
    var p := m.procs[pid];
    var lo, hi := Pages(p.size), Pages(size);
    if size >= p.size then
      if got < hi - lo then
        // deallocuvm takes back what was mapped.
        (UnmapRange(MapRange(m, pid, lo, got), pid, lo, hi), Failed)
      else
        var m' := MapRange(m, pid, lo, hi - lo);
        (m'.(procs := m'.procs[pid := p.(size := size)]), Done)
    else
      var m' := UnmapRange(m, pid, hi, lo);
      // deallocuvm returns the new size, and growproc takes 0 for an error.
      if size == 0 then (m', Failed)
      else (m'.(procs := m'.procs[pid := p.(size := size)]), Done)
  }

  /** allocuvm when mappages fails after kalloc: `got` pages are mapped, and one frame
      more is taken; deallocuvm takes back the pages, and then the frame is freed. */
  function GrowStuck(m: Machine, pid: int, lo: int, hi: int, got: nat): Machine
    requires got < |m.free|
  {
    var m1 := MapRange(m, pid, lo, got);
    var f := m1.free[0];
    Kfree(UnmapRange(m1.(free := m1.free[1..], mem := m1.mem[f := Filled(0)]), pid, lo, hi), f)
  }

  function DoExit(m: Machine, pid: int): Machine
    requires pid in m.procs
  {
    var p := m.procs[pid];
    var m' := UnmapRegions(m, pid, p.wmaps);
    m'.(procs := m'.procs[pid := p.(zombie := true)])
  }

  /** wait's freevm of a zombie. */
  function DoReap(m: Machine, pid: int): Machine {
    var m' := UnmapRange(m, pid, 0, KERNBASE / PGSIZE);
    m'.(procs := m'.procs - {pid}, tables := m'.tables - {pid})
  }

  /** Regions do not overlap; the code checks only the new region's first page. */
  predicate Apart(r: Region, q: Region) {
    r.first + r.pages <= q.first || q.first + q.pages <= r.first
  }

  ghost predicate Enabled(m: Machine, t: Step) {
    match t
    case Fork(p, c) => Live(m, p) && c !in m.procs
    case ForkNoKvm(p, _) => Live(m, p)
    case ForkFails(p, c, copied) => Live(m, p) && c !in m.procs && copied < Pages(m.procs[p].size)
    case Load(k) => Live(m, k.pid) && 0 <= k.page < KERNBASE / PGSIZE
    case Store(k, _, _) => Live(m, k.pid) && 0 <= k.page < KERNBASE / PGSIZE
    case Sbrk(p, size, got) =>
      && Live(m, p) && size <= VA_START_PAGE * PGSIZE
      && got <= |m.free| && got <= Pages(size)
    case SbrkStuck(p, size, got) =>
      && Live(m, p) && m.procs[p].size <= size <= VA_START_PAGE * PGSIZE
      && got < |m.free| && got < Pages(size) - Pages(m.procs[p].size)
    case Wmap(p, r) =>
      && Live(m, p) && VA_START_PAGE <= r.first && r.first + r.pages <= KERNBASE / PGSIZE
      && forall i :: 0 <= i < |m.procs[p].wmaps| ==> Apart(r, m.procs[p].wmaps[i])
    case Exit(p) => Live(m, p)
    case Reap(p) => p in m.procs && m.procs[p].zombie
    case KernelTake => m.free != []
    case KernelGive(f) => f in m.owned
  }

  function Apply(m: Machine, t: Step): (Machine, Outcome)
    requires Enabled(m, t)
  {
    match t
    case Fork(p, c) => if ForkPanics(m, p) then (m, Panic) else (DoFork(m, p, c), Done)
    case ForkNoKvm(p, counted) => (SetupKvm(m, counted), Failed)
    case ForkFails(p, c, copied) => if ForkPanics(m, p) then (m, Panic) else (DoForkFails(m, p, c, copied), Failed)
    case Load(k) => DoLoad(m, k)
    case Store(k, off, x) => DoStore(m, k, off, x)
    case Sbrk(p, size, got) => DoSbrk(m, p, size, got)
    case SbrkStuck(p, size, got) => (GrowStuck(m, p, Pages(m.procs[p].size), Pages(size), got), Failed)
    case Wmap(p, r) => (m.(procs := m.procs[p := m.procs[p].(wmaps := m.procs[p].wmaps + [r])]), Done)
    // "init exiting"
    case Exit(p) => if p == INIT then (m, Panic) else (DoExit(m, p), Done)
    case Reap(p) => (DoReap(m, p), Done)
    case KernelTake => (m.(free := m.free[1..], owned := m.owned + {m.free[0]}), Done)
    case KernelGive(f) => (Kfree(m, f).(owned := m.owned - {f}), Done)
  }

  /** A run that the kernel survives. */
  ghost predicate Run(m: Machine, steps: seq<Step>, m': Machine)
    decreases |steps|
  {
    if steps == [] then m == m'
    else
      && Enabled(m, steps[0]) && Apply(m, steps[0]).1 != Panic
      && Run(Apply(m, steps[0]).0, steps[1..], m')
  }
}
