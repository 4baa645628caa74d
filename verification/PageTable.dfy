/** Two-level page tables (walkpgdir, mappages, deallocuvm, freevm) refine a flat map
    from pages to entries. Addresses are 32-bit and wrap. */
module PageTable {

  const PGSIZE := 4096
  const ENTRIES := 1024
  const PAGES := ENTRIES * ENTRIES
  const TOP := PAGES * PGSIZE  // 2^32
  const SPAN := ENTRIES * PGSIZE  // what one page-table page covers
  const KERNBASE := 0x8000_0000

  datatype Pte = Absent | Present(frame: int, perm: int)

  /** A page directory: 0 for an absent page table, else the page that holds it. */
  datatype Tree = Tree(dir: seq<int>, tables: map<int, seq<Pte>>)

  ghost predicate Sound(t: Tree) {
    && |t.dir| == ENTRIES
    && (forall d :: 0 <= d < ENTRIES && t.dir[d] != 0 ==> t.dir[d] in t.tables && |t.tables[t.dir[d]]| == ENTRIES)
    && (forall d, e :: 0 <= d < e < ENTRIES && t.dir[d] != 0 ==> t.dir[d] != t.dir[e])
  }

  /** The entry that the hardware finds for a page. */
  function Entry(t: Tree, page: int): Pte
    requires Sound(t) && 0 <= page < PAGES
  {
    if t.dir[page / ENTRIES] == 0 then Absent else t.tables[t.dir[page / ENTRIES]][page % ENTRIES]
  }

  /** t' is t except that page holds e. */
  ghost predicate Put(t: Tree, t': Tree, page: int, e: Pte)
    requires Sound(t)
  {
    Sound(t') && forall v :: 0 <= v < PAGES ==> Entry(t', v) == if v == page then e else Entry(t, v)
  }

  ghost predicate SameMap(t: Tree, t': Tree)
    requires Sound(t)
  {
    Sound(t') && forall v :: 0 <= v < PAGES ==> Entry(t', v) == Entry(t, v)
  }

  /** How many pages v lies after first, round the top of memory if need be. */
  function Off(first: int, v: int): int {
    if first <= v then v - first else v - first + PAGES
  }

  function After(first: int, n: int): int {
    if first + n < PAGES then first + n else first + n - PAGES
  }

  /** What mappages should do: n pages from first on, to frames from frame on, both
      32-bit. */
  ghost predicate Mapped(t: Tree, t': Tree, first: int, n: int, frame: int, perm: int)
    requires Sound(t)
  {
    && Sound(t')
    && forall v :: 0 <= v < PAGES ==>
         Entry(t', v) == if Off(first, v) < n then Present(After(frame, Off(first, v)), perm) else Entry(t, v)
  }

  ghost predicate Cleared(t: Tree, t': Tree, lo: int, hi: int)
    requires Sound(t)
  {
    Sound(t') && forall v :: 0 <= v < PAGES ==> Entry(t', v) == if lo <= v < hi then Absent else Entry(t, v)
  }

  /** The frames that a scan of pages [lo, hi), one page at a time, comes across. */
  ghost function Scan(t: Tree, lo: int, hi: int): seq<int>
    requires Sound(t) && 0 <= lo && hi <= PAGES
    decreases hi - lo
  {
    if hi <= lo then []
    else Scan(t, lo, hi - 1) + (if Entry(t, hi - 1).Present? then [Entry(t, hi - 1).frame] else [])
  }

  lemma {:induction false} ScanSplit(t: Tree, lo: int, mid: int, hi: int)
    requires Sound(t) && 0 <= lo <= mid <= hi <= PAGES
    ensures Scan(t, lo, hi) == Scan(t, lo, mid) + Scan(t, mid, hi)
    decreases hi
  {
    if mid < hi {
      ScanSplit(t, lo, mid, hi - 1);
    }
  }

  lemma {:induction false} ScanNothing(t: Tree, lo: int, hi: int)
    requires Sound(t) && 0 <= lo && hi <= PAGES
    requires forall v :: lo <= v < hi ==> Entry(t, v) == Absent
    ensures Scan(t, lo, hi) == []
    decreases hi - lo
  {
    if lo < hi {
      ScanNothing(t, lo, hi - 1);
    }
  }

  lemma SetEntry(t: Tree, page: int, e: Pte)
    requires Sound(t) && 0 <= page < PAGES && t.dir[page / ENTRIES] != 0
    ensures var k := t.dir[page / ENTRIES];
            Put(t, t.(tables := t.tables[k := t.tables[k][page % ENTRIES := e]]), page, e)
  {
    var k := t.dir[page / ENTRIES];
    var t' := t.(tables := t.tables[k := t.tables[k][page % ENTRIES := e]]);
    forall v | 0 <= v < PAGES
      ensures Entry(t', v) == if v == page then e else Entry(t, v)
    {
      if v / ENTRIES == page / ENTRIES {
        assert v == page <==> v % ENTRIES == page % ENTRIES;
      }
    }
  }

  /** A new page table with nothing in it changes nothing. */
  lemma AddTable(t: Tree, d: int, k: int)
    requires Sound(t) && 0 <= d < ENTRIES && t.dir[d] == 0 && k != 0 && k !in t.tables
    ensures SameMap(t, Tree(t.dir[d := k], t.tables[k := seq(ENTRIES, i => Absent)]))
  {
  }

  // The loop variable of deallocuvm.

  /** PGROUNDUP, in 32 bits. */
  function RoundUp(a: int): int {
    (a + PGSIZE - 1) / PGSIZE * PGSIZE % TOP
  }

  /** The next value of the loop variable after a missing page table, and after one
      that is there: PGADDR(PDX(a) + 1, 0, 0) - PGSIZE and then the loop's own step. */
  function Skip(a: int): int {
    ((a / SPAN + 1) * SPAN % TOP + TOP - PGSIZE + PGSIZE) % TOP
  }

  function Advance(a: int): int {
    (a + PGSIZE) % TOP
  }

  /** Skipping moves forward exactly when the table is not the last one. */
  lemma SkipForwardIff(a: int)
    requires 0 <= a < TOP
    ensures Skip(a) > a <==> a < TOP - SPAN
    ensures a < TOP - SPAN ==> Skip(a) == (a / SPAN + 1) * SPAN && Skip(a) / PGSIZE == (a / SPAN + 1) * ENTRIES
    ensures a >= TOP - SPAN ==> Skip(a) == 0
  {
    if a < TOP - SPAN {
      assert (a / SPAN + 1) * SPAN < TOP;
      assert (a / SPAN + 1) * SPAN == (a / SPAN + 1) * ENTRIES * PGSIZE;
    } else {
      assert a / SPAN == ENTRIES - 1;
    }
  }

  datatype Outcome = Done | NoMemory | Remap

  class PageDir {
    var t: Tree
    const root: int  // the page that holds the directory
    var pool: seq<int>  // pages that kalloc can hand out

    /** An empty page directory on a page of its own, and pages for page tables. */
    constructor (page: int, pages: seq<int>)
      requires page != 0 && page !in pages
      requires forall i :: 0 <= i < |pages| ==> pages[i] != 0
      requires forall i, j :: 0 <= i < j < |pages| ==> pages[i] != pages[j]
      ensures Valid() && forall v :: 0 <= v < PAGES ==> Entry(t, v) == Absent
    {
      t := Tree(seq(ENTRIES, i => 0), map[]);
      root, pool := page, pages;
    }

    ghost predicate Valid()
      reads this
    {
      && Sound(t) && root != 0 && root !in t.tables && root !in pool
      && (forall i :: 0 <= i < |pool| ==> pool[i] != 0 && pool[i] !in t.tables)
      && (forall i, j :: 0 <= i < j < |pool| ==> pool[i] != pool[j])
    }

    /** walkpgdir: the page-table page for va, or 0. */
    method Walk(va: int, alloc: bool) returns (k: int)
      requires Valid() && 0 <= va < TOP
      modifies this
      ensures Valid() && SameMap(old(t), t)
      ensures k == t.dir[va / SPAN]
      ensures k == 0 <==> old(t.dir[va / SPAN]) == 0 && (!alloc || old(pool) == [])
      ensures !alloc || old(t.dir[va / SPAN]) != 0 || old(pool) == [] ==> t == old(t) && pool == old(pool)
    {
      k := t.dir[va / SPAN];
      if k == 0 && alloc && pool != [] {
        k := pool[0];
        AddTable(t, va / SPAN, k);
        pool := pool[1..];
        t := Tree(t.dir[va / SPAN := k], t.tables[k := seq(ENTRIES, i => Absent)]);
      }
    }

    /** One round of mappages, on page number n of the range. */
    method MapPage(a: int, p: int, perm: int, ghost t0: Tree, ghost first: int, ghost n: int, ghost frame: int)
      returns (out: Outcome)
      requires Valid() && Sound(t0) && 0 <= first < PAGES && 0 <= n < PAGES && a == After(first, n) * PGSIZE
      requires p == After(frame, n) && Mapped(t0, t, first, n, frame, perm)
      modifies this
      ensures Valid() && Mapped(t0, t, first, if out == Done then n + 1 else n, frame, perm)
      ensures out == Remap <==> Entry(t0, After(first, n)) != Absent
      ensures out == NoMemory ==> pool == []
    {
      hide Mapped, SameMap, Put, Sound;
      ghost var page, t1 := After(first, n), t;
      PageOf(a, page);
      var k := Walk(a, true);
      SameStill(t0, t1, t, first, n, frame, perm);
      SameEntry(t0, t, first, n, frame, perm);
      if k == 0 {
        NoTable(t, page);
        return NoMemory;
      }
      TableHas(t, page);
      if t.tables[k][a / PGSIZE % ENTRIES].Present? {
        return Remap;
      }
      SetEntry(t, page, Present(p, perm));
      t1 := t;
      t := t.(tables := t.tables[k := t.tables[k][a / PGSIZE % ENTRIES := Present(p, perm)]]);
      MappedMore(t0, t1, t, first, n, frame, perm);
      StillApart(t1, t, pool, k);
      out := Done;
    }

    /** mappages of the pages from va's to (va + size - 1)'s, which is the page before
        va's if size is 0 and va a page boundary. Everything is 32-bit and wraps. */
    method MapPages(va: int, size: int, pa: int, perm: int) returns (out: Outcome, ghost n: int)
      requires Valid() && 0 <= va < TOP && 0 <= size < TOP && 0 <= pa < TOP
      modifies this
      ensures Valid()
      ensures var first := va / PGSIZE;
              var all := Off(first, (va + size - 1) % TOP / PGSIZE) + 1;
              && 0 <= n <= all && Mapped(old(t), t, first, n, pa / PGSIZE, perm)
              && (forall v :: 0 <= v < PAGES && Off(first, v) < n ==> Entry(old(t), v) == Absent)
              && (out == Done <==> n == all)
              && (out == Remap <==> n < all && Entry(old(t), After(first, n)) != Absent)
      ensures out == NoMemory ==> pool == []
    {
      hide Mapped, Valid, Sound, Entry, Off, After;
      var a, last, p := va / PGSIZE * PGSIZE, (va + size - 1) % TOP / PGSIZE * PGSIZE, pa / PGSIZE;
      ghost var first, frame, end := va / PGSIZE, pa / PGSIZE, (va + size - 1) % TOP / PGSIZE;
      n := 0;
      ValidSound();
      MappedNone(t, first, frame, perm);
      Onward(first, 0, end);
      Onward(frame, 0, frame);
      while true
        invariant Valid() && 0 <= n <= Off(first, end) && a == After(first, n) * PGSIZE && last == end * PGSIZE
        invariant p == After(frame, n) && Mapped(old(t), t, first, n, frame, perm)
        invariant forall v :: 0 <= v < PAGES && Off(first, v) < n ==> Entry(old(t), v) == Absent
        decreases Off(first, end) - n
      {
        Onward(first, n, end);
        Onward(frame, n, frame);
        PageOf(a, After(first, n));
        out := MapPage(a, p, perm, old(t), first, n, frame);
        if out != Done {
          return;
        }
        n := n + 1;
        if a == last {
          return;
        }
        a := Advance(a);
        p := (p + 1) % PAGES;
      }
    }

    lemma ValidSound()
      requires Valid()
      ensures Sound(t)
    {
    }

    /** One round of deallocuvm: clear the entry of page a, or skip a missing table.
        Returns the next value of the loop variable. */
    method ClearPage(a: int, ghost t0: Tree, ghost lo: int, ghost page: int) returns (b: int, ghost next: int, ghost freed: seq<int>)
      requires Valid() && Sound(t0) && 0 <= lo <= page && a == page * PGSIZE && a < TOP - SPAN
      requires t.dir == t0.dir && Cleared(t0, t, lo, page)
      modifies this
      ensures Valid() && t.dir == t0.dir && t.tables.Keys == old(t.tables.Keys) && pool == old(pool)
      ensures page < next < PAGES && b == next * PGSIZE && b <= TOP - SPAN
      ensures Cleared(t0, t, lo, next) && Scan(t0, lo, next) == Scan(t0, lo, page) + freed
      ensures next == page + 1 || forall v :: page <= v < next ==> Entry(t0, v) == Absent
    {
      hide Cleared, Put, Sound, SameMap, Scan;
      ghost var t1 := t;
      PageOf(a, page);
      var k := Walk(a, false);
      if k == 0 {
        SkipForwardIff(a);
        ClearedSkip(t0, t, lo, page);
        b := Skip(a);
        next := (page / ENTRIES + 1) * ENTRIES;
        freed := [];
      } else {
        TableHas(t, page);
        var e := t.tables[k][a / PGSIZE % ENTRIES];
        if e.Present? {
          freed := [e.frame];
          SetEntry(t, page, Absent);
          t := t.(tables := t.tables[k := t.tables[k][a / PGSIZE % ENTRIES := Absent]]);
          StillApart(t1, t, pool, k);
        } else {
          freed := [];
          PutSame(t, page);
        }
        ClearedMore(t0, t1, t, lo, page);
        b := Advance(a);
        next := page + 1;
      }
    }

    /** deallocuvm. `freed` are the frames whose entries it removes, in order. */
    method DeallocUvm(oldsz: int, newsz: int) returns (r: int, ghost freed: seq<int>)
      requires Valid() && 0 <= oldsz <= TOP - SPAN && 0 <= newsz <= TOP - SPAN
      modifies this
      ensures Valid() && t.dir == old(t.dir) && t.tables.Keys == old(t.tables.Keys) && pool == old(pool)
      ensures r == if newsz >= oldsz then oldsz else newsz
      ensures var lo, hi := (newsz + PGSIZE - 1) / PGSIZE, (oldsz + PGSIZE - 1) / PGSIZE;
              Cleared(old(t), t, lo, hi) && freed == Scan(old(t), lo, hi)
    {
      hide Cleared, Sound, Scan;
      ghost var t0 := t;
      ghost var lo, hi := (newsz + PGSIZE - 1) / PGSIZE, (oldsz + PGSIZE - 1) / PGSIZE;
      ClearedNone(t0, lo, hi);
      freed := [];
      if newsz >= oldsz {
        return oldsz, [];
      }
      var a := RoundUp(newsz);
      ghost var page := lo;
      while a < oldsz
        invariant Valid() && lo <= page < PAGES && a == page * PGSIZE <= TOP - SPAN
        invariant t.dir == t0.dir && t.tables.Keys == t0.tables.Keys && pool == old(pool)
        invariant Cleared(t0, t, lo, page) && freed == Scan(t0, lo, page)
        invariant forall v :: hi <= v < page ==> Entry(t0, v) == Absent
        decreases TOP - a
      {
        ghost var next, more;
        a, next, more := ClearPage(a, t0, lo, page);
        freed := freed + more;
        page := next;
      }
      r := newsz;
      ClearedDone(t0, t, lo, page, hi);
    }

    /** freevm: the user pages, then every page-table page, each once, and last the
        directory's own page. */
    method FreeVm() returns (ghost freed: seq<int>)
      requires Valid()
      modifies this
      ensures freed == Scan(old(t), 0, KERNBASE / PGSIZE)
      ensures forall i, j :: 0 <= i < j < |pool| ==> pool[i] != pool[j]
      ensures forall k :: k in pool <==> k in old(pool) || k == root || (k != 0 && k in old(t.dir))
    {
      hide Cleared, Sound, Scan;
      ghost var pool0 := pool;
      var r;
      r, freed := DeallocUvm(KERNBASE, 0);
      DirSize(t);
      assert pool == pool0 && root !in pool0 && root !in t.tables;
      var i := 0;
      while i < ENTRIES
        invariant 0 <= i <= ENTRIES && Sound(t) && t.dir == old(t.dir) && |t.dir| == ENTRIES
        invariant root !in t.tables && root !in pool && forall k :: k in pool0 ==> k !in t.tables
        invariant forall a, b :: 0 <= a < b < |pool| ==> pool[a] != pool[b]
        invariant forall k :: k in pool <==> k in pool0 || (k != 0 && k in t.dir[..i])
      {
        if t.dir[i] != 0 {
          DirDistinct(t, i);
          pool := [t.dir[i]] + pool;
        }
        assert t.dir[..i + 1] == t.dir[..i] + [t.dir[i]];
        i := i + 1;
      }
      assert t.dir[..ENTRIES] == t.dir;
      pool := [root] + pool;
    }
  }

  lemma DirSize(t: Tree)
    requires Sound(t)
    ensures |t.dir| == ENTRIES
  {
  }

  lemma DirDistinct(t: Tree, i: int)
    requires Sound(t) && 0 <= i < ENTRIES && t.dir[i] != 0
    ensures t.dir[i] in t.tables && t.dir[i] !in t.dir[..i]
  {
  }

  lemma PageOf(a: int, page: int)
    requires a == page * PGSIZE && 0 <= a < TOP
    ensures a / PGSIZE == page && a / SPAN == page / ENTRIES && 0 <= page < PAGES && 0 <= page / ENTRIES < ENTRIES
    ensures Advance(a) == After(page, 1) * PGSIZE
  {
  }

  lemma Onward(first: int, n: int, end: int)
    requires 0 <= first < PAGES && 0 <= n < PAGES && 0 <= end < PAGES
    ensures 0 <= Off(first, end) < PAGES && After(first, 0) == first && 0 <= After(first, n) < PAGES
    ensures After(first, n) == end <==> n == Off(first, end)
    ensures n + 1 < PAGES ==> After(After(first, n), 1) == (After(first, n) + 1) % PAGES == After(first, n + 1)
    ensures forall v :: 0 <= v < PAGES ==> 0 <= Off(first, v) && (Off(first, v) == n <==> v == After(first, n))
  {
  }

  lemma MappedNone(t: Tree, first: int, frame: int, perm: int)
    requires Sound(t) && 0 <= first < PAGES
    ensures Mapped(t, t, first, 0, frame, perm)
  {
  }

  lemma SameStill(t0: Tree, t1: Tree, t2: Tree, first: int, n: int, frame: int, perm: int)
    requires Sound(t0) && Mapped(t0, t1, first, n, frame, perm) && Sound(t1) && SameMap(t1, t2)
    ensures Mapped(t0, t2, first, n, frame, perm)
  {
  }

  lemma SameEntry(t0: Tree, t1: Tree, first: int, n: int, frame: int, perm: int)
    requires Sound(t0) && Mapped(t0, t1, first, n, frame, perm) && 0 <= first < PAGES && 0 <= n < PAGES
    ensures Sound(t1) && Entry(t1, After(first, n)) == Entry(t0, After(first, n))
  {
    assert Off(first, After(first, n)) == n;
  }

  lemma NoTable(t: Tree, page: int)
    requires Sound(t) && 0 <= page < PAGES && t.dir[page / ENTRIES] == 0
    ensures Entry(t, page) == Absent
  {
  }

  lemma TableHas(t: Tree, page: int)
    requires Sound(t) && 0 <= page < PAGES && t.dir[page / ENTRIES] != 0
    ensures var k := t.dir[page / ENTRIES];
            k in t.tables && |t.tables[k]| == ENTRIES && Entry(t, page) == t.tables[k][page % ENTRIES]
  {
  }

  lemma MappedMore(t0: Tree, t1: Tree, t2: Tree, first: int, n: int, frame: int, perm: int)
    requires Sound(t0) && Mapped(t0, t1, first, n, frame, perm) && Sound(t1) && 0 <= first < PAGES && 0 <= n < PAGES
    requires Put(t1, t2, After(first, n), Present(After(frame, n), perm))
    ensures Mapped(t0, t2, first, n + 1, frame, perm)
  {
    forall v | 0 <= v < PAGES
      ensures Entry(t2, v) == if Off(first, v) < n + 1 then Present(After(frame, Off(first, v)), perm) else Entry(t0, v)
    {
      assert v == After(first, n) <==> Off(first, v) == n;
    }
  }

  lemma StillApart(t1: Tree, t2: Tree, pool: seq<int>, k: int)
    requires Sound(t1) && (forall i :: 0 <= i < |pool| ==> pool[i] != 0 && pool[i] !in t1.tables)
    requires k in t1.tables && t2.tables.Keys == t1.tables.Keys + {k}
    ensures t2.tables.Keys == t1.tables.Keys
    ensures forall i :: 0 <= i < |pool| ==> pool[i] != 0 && pool[i] !in t2.tables
  {
  }

  lemma ClearedNone(t: Tree, lo: int, hi: int)
    requires Sound(t) && 0 <= lo <= PAGES && hi <= PAGES
    ensures Cleared(t, t, lo, lo) && Scan(t, lo, lo) == []
    ensures hi <= lo ==> Cleared(t, t, lo, hi) && Scan(t, lo, hi) == []
  {
  }

  lemma PutSame(t: Tree, page: int)
    requires Sound(t) && 0 <= page < PAGES && Entry(t, page) == Absent
    ensures Put(t, t, page, Absent)
  {
  }

  lemma ClearedMore(t0: Tree, t1: Tree, t2: Tree, lo: int, page: int)
    requires Sound(t0) && 0 <= lo <= page < PAGES && Cleared(t0, t1, lo, page) && Sound(t1)
    requires Put(t1, t2, page, Absent)
    ensures Cleared(t0, t2, lo, page + 1)
    ensures Entry(t1, page) == Entry(t0, page)
    ensures Scan(t0, lo, page + 1)
         == Scan(t0, lo, page) + if Entry(t1, page).Present? then [Entry(t1, page).frame] else []
  {
  }

  /** A missing table has nothing to clear. */
  lemma ClearedSkip(t0: Tree, t1: Tree, lo: int, page: int)
    requires Sound(t0) && 0 <= lo <= page && page / ENTRIES < ENTRIES - 1 && Cleared(t0, t1, lo, page) && Sound(t1)
    requires t1.dir == t0.dir && t0.dir[page / ENTRIES] == 0
    ensures var next := (page / ENTRIES + 1) * ENTRIES;
            page < next < PAGES && Cleared(t0, t1, lo, next) && Scan(t0, lo, next) == Scan(t0, lo, page)
    ensures forall v :: page <= v < (page / ENTRIES + 1) * ENTRIES ==> Entry(t0, v) == Absent
  {
    var next := (page / ENTRIES + 1) * ENTRIES;
    forall v | page <= v < next
      ensures Entry(t0, v) == Absent
    {
      assert v / ENTRIES == page / ENTRIES;
    }
    ScanSplit(t0, lo, page, next);
    ScanNothing(t0, page, next);
  }

  /** The loop may stop beyond the last page asked for, but only by skipping pages
      that are absent. */
  lemma ClearedDone(t0: Tree, t: Tree, lo: int, page: int, hi: int)
    requires Sound(t0) && 0 <= lo <= hi <= page <= PAGES && Cleared(t0, t, lo, page)
    requires forall v :: hi <= v < page ==> Entry(t0, v) == Absent
    ensures Cleared(t0, t, lo, hi) && Scan(t0, lo, page) == Scan(t0, lo, hi)
  {
    ScanSplit(t0, lo, hi, page);
    ScanNothing(t0, hi, page);
  }
}
