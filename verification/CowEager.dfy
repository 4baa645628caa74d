/** The machine the programmer has in mind: fork copies every page at once, wmap
    pages are links to objects that parent and child share, and there are no
    frames, counts or copy-on-write entries. */
module CowEager {
  import opened CowMachine

  datatype EPage = EPage(page: Page, w: bool, u: bool)

  datatype Eager = Eager(
    pages: map<Va, EPage>,
    links: map<Va, int>,
    objs: map<int, Page>,
    procs: map<int, Proc>)

  /** Every entry of the parent, once more for the child. */
  function CloneOf<T>(entries: map<Va, T>, parent: int, child: int): map<Va, T> {
    map k | k in (set j | j in entries && j.pid == parent :: Va(child, j.page)) :: entries[Va(parent, k.page)]
  }

  function Without<T>(entries: map<Va, T>, pid: int, lo: int, hi: int): map<Va, T> {
    map k | k in entries && !(k.pid == pid && lo <= k.page < hi) :: entries[k]
  }

  function ZeroPages(pid: int, lo: int, hi: int): map<Va, EPage> {
    map k | k in SpanKeys(pid, lo, hi) :: EPage(Filled(0), true, true)
  }

  function SpanKeys(pid: int, lo: int, hi: int): set<Va> {
    set v {:trigger Va(pid, v)} | lo <= v < hi :: Va(pid, v)
  }

  function EFork(e: Eager, parent: int, child: int): Eager
    requires parent in e.procs
  {
    var p := e.procs[parent];
    Eager(e.pages + CloneOf(e.pages, parent, child), e.links + CloneOf(e.links, parent, child), e.objs,
          e.procs[child := Proc(p.size, p.wmaps, false)])
  }

  /** The object behind wmap page k; a page of a region gets the new object `id`,
      all zero, at its first use. */
  function ETouch(e: Eager, k: Va, id: int): Eager {
    if k in e.links then e else e.(links := e.links[k := id], objs := e.objs[id := Filled(0)])
  }

  predicate EMayTouch(e: Eager, k: Va) {
    k in e.links || (k.pid in e.procs && InRegions(e.procs[k.pid].wmaps, k.page))
  }

  function EObject(e: Eager, k: Va): Page {
    if k in e.links && e.links[k] in e.objs then e.objs[e.links[k]] else Filled(0)
  }

  function ELoad(e: Eager, k: Va, id: int): (Eager, Outcome) {
    if k.page < VA_START_PAGE then
      if k in e.pages && e.pages[k].u then (e, Value(e.pages[k].page)) else (e, Killed)
    else if EMayTouch(e, k) then
      var e' := ETouch(e, k, id);
      (e', Value(EObject(e', k)))
    else (e, Killed)
  }

  function EStore(e: Eager, k: Va, off: int, x: int, id: int): (Eager, Outcome) {
    if k.page < VA_START_PAGE then
      if k in e.pages && e.pages[k].u && e.pages[k].w then
        (e.(pages := e.pages[k := e.pages[k].(page := PutByte(e.pages[k].page, off, x))]), Done)
      else (e, Killed)
    else if EMayTouch(e, k) then
      var e' := ETouch(e, k, id);
      (e'.(objs := e'.objs[e'.links[k] := PutByte(EObject(e', k), off, x)]), Done)
    else (e, Killed)
  }

  function ESbrk(e: Eager, pid: int, size: nat, got: nat): (Eager, Outcome)
    requires pid in e.procs
  {
    var p := e.procs[pid];
    var lo, hi := Pages(p.size), Pages(size);
    if size >= p.size then
      if got < hi - lo then (e, Failed)
      else (e.(pages := e.pages + ZeroPages(pid, lo, hi), procs := e.procs[pid := p.(size := size)]), Done)
    else
      var e' := e.(pages := Without(e.pages, pid, hi, lo));
      if size == 0 then (e', Failed) else (e'.(procs := e'.procs[pid := p.(size := size)]), Done)
  }

  function EExit(e: Eager, pid: int): Eager
    requires pid in e.procs
  {
    Eager(map k | k in e.pages && k.pid != pid :: e.pages[k], Unlinked(e.links, pid), e.objs,
          e.procs[pid := e.procs[pid].(zombie := true)])
  }

  function Unlinked(links: map<Va, int>, pid: int): map<Va, int> {
    map k | k in links && k.pid != pid :: links[k]
  }

  /** The same calls and accesses. `id` is the object that a first touch creates. */
  function EApply(e: Eager, t: Step, id: int): (Eager, Outcome)
    requires match t
             case Fork(p, _) => p in e.procs
             case Sbrk(p, _, _) => p in e.procs
             case Wmap(p, _) => p in e.procs
             case Exit(p) => p in e.procs
             case _ => true
  {
    match t
    case Fork(p, c) => (EFork(e, p, c), Done)
    case ForkNoKvm(_, _) => (e, Failed)
    case ForkFails(_, _, _) => (e, Failed)
    case Load(k) => ELoad(e, k, id)
    case Store(k, off, x) => EStore(e, k, off, x, id)
    case Sbrk(p, size, got) => ESbrk(e, p, size, got)
    case SbrkStuck(_, _, _) => (e, Failed)
    case Wmap(p, r) => (e.(procs := e.procs[p := e.procs[p].(wmaps := e.procs[p].wmaps + [r])]), Done)
    case Exit(p) => (EExit(e, p), Done)
    case Reap(p) => (e.(procs := e.procs - {p}), Done)
    case KernelTake => (e, Done)
    case KernelGive(_) => (e, Done)
  }
}
