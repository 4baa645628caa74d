/** malloc, free and morecore as they are written, over header fields in memory.
    Addresses are in units of a header (8 bytes). */
module UmallocCode {
  import opened FreeList

  const HEADER := 8
  const WORD := 0x1_0000_0000
  const LEAST := 4096  // morecore asks for no fewer units
  const NONE := -1  // the null pointer, and sbrk's failure

  /** nunits, in 32-bit arithmetic. */
  function Units(nbytes: int): int {
    (nbytes + HEADER - 1) % WORD / HEADER + 1
  }

  /** A block has room for what was asked exactly when the rounding does not wrap. */
  lemma UnitsEnoughIff(nbytes: int)
    requires 0 <= nbytes < WORD
    ensures (Units(nbytes) - 1) * HEADER >= nbytes <==> nbytes <= WORD - HEADER
  {
  }

  /** Without wrapping there is less than a unit to spare. */
  lemma UnitsTight(nbytes: int)
    requires 0 <= nbytes < WORD
    ensures 1 <= Units(nbytes)
    ensures nbytes <= WORD - HEADER ==> (Units(nbytes) - 1) * HEADER < nbytes + HEADER
  {
  }

  /** A 32-bit word as sbrk's int. */
  function AsInt(w: int): int {
    if w < WORD / 2 then w else w - WORD
  }

  /** What morecore passes to sbrk for nu units. */
  function Asked(nu: int): int {
    AsInt(nu * HEADER % WORD)
  }

  /** sbrk is asked for the units that morecore then puts in the header, exactly for
      requests up to 2^31 - 16 bytes and for those whose rounding wraps. For the ones
      between, sbrk's argument is zero or negative. */
  lemma AskedIff(nbytes: int)
    requires 0 <= nbytes < WORD
    ensures var nu := if Units(nbytes) < LEAST then LEAST else Units(nbytes);
            && (Asked(nu) == nu * HEADER <==> nbytes <= WORD / 2 - 2 * HEADER || nbytes > WORD - HEADER)
            && (Asked(nu) != nu * HEADER ==> Asked(nu) <= 0)
  {
    var nu := if Units(nbytes) < LEAST then LEAST else Units(nbytes);
    assert 0 < nu * HEADER <= WORD;
  }

  ghost function Span(a: int, b: int): (r: set<int>)
    ensures forall u :: u in r <==> a <= u < b
    decreases b - a
  {
    if b <= a then {} else Span(a, b - 1) + {b - 1}
  }

  /** Where bp belongs: the last position before it. */
  ghost function PlaceOf(ring: seq<int>, bp: int, k: nat): (t: nat)
    requires k < |ring| && ring[0] < bp
    ensures t <= k && ring[t] < bp && forall i :: t < i <= k ==> bp <= ring[i]
  {
    if ring[k] < bp then k else PlaceOf(ring, bp, k - 1)
  }

  lemma PlaceBelongs(ring: seq<int>, bp: int)
    requires |ring| > 0 && ring[0] < bp && bp !in ring
    ensures Belongs(ring, PlaceOf(ring, bp, |ring| - 1), bp)
  {
  }

  ghost predicate LiveOk(size: map<int, int>, ring: seq<int>, live: map<int, int>)
    requires Has(size, ring)
  {
    forall a :: a in live ==> a in size && live[a] > 0 && size[a] == live[a] && ClearOf(size, ring, a, live[a])
  }

  ghost predicate LiveApart(live: map<int, int>) {
    forall a, b :: a in live && b in live && a < b ==> a + live[a] <= b
  }

  /** Every unit obtained from sbrk is in a free block or in a live one. */
  ghost predicate Conserved(size: map<int, int>, ring: seq<int>, live: map<int, int>, granted: set<int>)
    requires Has(size, ring)
  {
    forall u :: u in granted <==> InFree(size, ring, u) || InLive(live, u)
  }

  class Heap {
    const base: int
    var ptr: map<int, int>
    var size: map<int, int>
    var freep: int
    ghost var ring: seq<int>
    ghost var live: map<int, int>
    ghost var granted: set<int>
    ghost var brk: int

    constructor (at: int, start: int)
      requires 0 <= at < start
      ensures Valid() && live == map[] && granted == {} && brk == start && freep == NONE && fresh(this)
    {
      base, freep, ptr, size := at, NONE, map[], map[];
      ring, live, granted, brk := [], map[], {}, start;
    }

    ghost predicate Listed()
      reads this
    {
      FreeOk(ptr, size, ring) && ring[0] == base && freep in ring
    }

    ghost predicate Below()
      reads this
    {
      0 <= base < brk && forall u :: u in granted ==> base < u < brk
    }

    ghost predicate Valid()
      reads this
    {
      && Below()
      && if freep == NONE then ring == [] && live == map[] && granted == {}
         else && Listed() && LiveOk(size, ring, live) && LiveApart(live)
              && Conserved(size, ring, live, granted)
    }

    /** The scan at the start of free. It ends at the one place where bp belongs. */
    method Place(bp: int) returns (p: int, ghost t: nat)
      requires Listed() && base < bp && bp !in ring
      ensures Belongs(ring, t, bp) && p == ring[t]
    {
      hide FreeOk, Belongs, PlaceOf;
      var next := ptr;
      ghost var r, f := ring, freep;
      SoundHas(next, size, r);
      t := PlaceOf(r, bp, |r| - 1);
      PlaceBelongs(r, bp);
      p := freep;
      ghost var i :| 0 <= i < |r| && r[i] == f;
      PlaceStep(next, size, r, i, t, bp);
      while !(bp > p && bp < next[p])
        invariant 0 <= i < |r| && p == r[i] && p in next && next[p] == r[Around(r, i, 1)]
        invariant (bp > p && bp < next[p]) || (p >= next[p] && (bp > p || bp < next[p])) <==> i == t
        decreases if i <= t then t - i else t - i + |r|
      {
        if p >= next[p] && (bp > p || bp < next[p]) {
          break;
        }
        p := next[p];
        i := Around(r, i, 1);
        PlaceStep(next, size, r, i, t, bp);
      }
    }

    /** free, given the header of the block. */
    method Insert(bp: int)
      requires Listed() && bp in size && ClearOf(size, ring, bp, size[bp])
      modifies this`ptr, this`size, this`freep, this`ring
      ensures Listed() && Gained(old(size), old(ring), size, ring, bp, old(size[bp]))
      ensures forall a :: a in old(size) && a !in old(ring) && a != bp ==> a in size && size[a] == old(size[a])
      ensures exists i :: 1 <= i < |ring| && size[ring[i]] >= old(size[bp])
    {
      hide Linked, Sized, Gaps, ClearOf, Belongs, InFree, Inserted, Removed;
      ghost var n, ring0, size0 := size[bp], ring, size;
      StartInsert(ptr, size, ring, bp);
      var p;
      ghost var t;
      p, t := Place(bp);
      PlaceHas(ptr, size, ring, t, bp);
      var q := ptr[p];
      if bp + size[bp] == q {
        TouchIsNext(ptr, size, ring, t, bp);
        HalfAbsorb(ptr, size, ring, t, bp);
        size := size[bp := size[bp] + size[q]];
        ptr := ptr[bp := ptr[q]];
        ring := Removed(ring, t + 1);
      } else {
        HalfPlain(ptr, size, ring, t, bp);
        ptr := ptr[bp := q];
      }
      assert Ready(ptr, size, ring, t, bp) && Gained(size0, ring0, size, Inserted(ring, t, bp), bp, n);
      ReadyHas(ptr, size, ring, t, bp);
      if p + size[p] == bp {
        SecondJoin(ptr, size, ring, t, bp);
        size := size[p := size[p] + size[bp]];
        ptr := ptr[p := ptr[bp]];
        assert size[ring[t]] >= n;
      } else {
        SecondPlain(ptr, size, ring, t, bp);
        ptr := ptr[p := bp];
        ring := Inserted(ring, t, bp);
        assert size[ring[t + 1]] >= n;
      }
      freep := p;
    }

    /** free. */
    method Free(ap: int)
      requires Valid() && ap - 1 in live
      modifies this`ptr, this`size, this`freep, this`ring, this`live
      ensures Valid() && live == old(live) - {ap - 1} && granted == old(granted)
    {
      hide FreeOk, LiveOk, LiveApart, Conserved, Gained;
      ghost var bp := ap - 1;
      SoundHas(ptr, size, ring);
      LiveBlock(size, ring, live, bp);
      Insert(ap - 1);
      SoundHas(ptr, size, ring);
      LiveAfterFree(old(size), old(ring), size, ring, live, granted, bp);
      live := live - {bp};
    }

    /** morecore, with sbrk's answer. It strays if sbrk was asked for something other
        than the units: then the header goes to an address that sbrk has not granted,
        and what free does there is not followed. */
    method Morecore(nu: int, grant: int) returns (p: int, stray: bool)
      requires Valid() && freep != NONE && 0 < nu && (grant == NONE || grant >= brk)
      modifies this`ptr, this`size, this`freep, this`ring, this`granted, this`brk
      ensures stray <==> grant != NONE && Asked(Max(nu, LEAST)) != Max(nu, LEAST) * HEADER
      ensures stray ==>
        && p == NONE && grant !in granted && grant in size && size[grant] == Max(nu, LEAST)
        && unchanged(this`ptr, this`freep, this`ring, this`granted, this`brk)
      ensures !stray ==> Valid() && freep != NONE
      ensures grant == NONE ==> p == NONE && unchanged(this)
      ensures grant != NONE && !stray ==>
        && p == freep && brk == grant + Max(nu, LEAST)
        && granted == old(granted) + Span(grant, grant + Max(nu, LEAST))
        && exists i :: 1 <= i < |ring| && size[ring[i]] >= nu
    {
      hide FreeOk, LiveOk, LiveApart, Conserved, Gained, Asked;
      var n := if nu < LEAST then LEAST else nu;
      if grant == NONE {
        return NONE, false;
      }
      if Asked(n) != n * HEADER {
        size := size[grant := n];
        return NONE, true;
      }
      SoundHas(ptr, size, ring);
      FreshBlock(ptr, size, ring, live, granted, grant, n, brk);
      ghost var size0, ring0 := size, ring;
      size := size[grant := n];
      FreshHeader(ptr, size0, ring0, live, granted, grant, n);
      Insert(grant);
      SoundHas(ptr, size, ring);
      LiveAfterGrant(size0, size0[grant := n], ring0, size, ring, live, granted, grant, n);
      granted := granted + Span(grant, grant + n);
      brk := grant + n;
      p, stray := freep, false;
    }

    /** Take block i, or its tail. */
    method Take(prevp: int, p: int, n: int, ghost i: int) returns (a: int)
      requires Valid() && freep != NONE && 1 <= i < |ring| && p == ring[i] && prevp == ring[i - 1]
      requires 0 < n <= size[p]
      modifies this`ptr, this`size, this`freep, this`ring, this`live
      ensures Valid() && a !in old(live) && live == old(live)[a := n] && a >= 0 && freep != NONE
    {
      hide FreeOk, LiveOk, LiveApart, Conserved, Lost;
      SoundHas(ptr, size, ring);
      ghost var size0, ring0 := size, ring;
      if size[p] == n {
        TakeWhole(ptr, size, ring, i);
        ptr := ptr[prevp := ptr[p]];
        ring := Removed(ring, i);
        RemovedAt(ring0, i, i - 1);
        RemovedAt(ring0, i, 0);
        a := p;
      } else {
        TakeTail(ptr, size, ring, i, n);
        size := size[p := size[p] - n];
        a := p + size[p];
        size := size[a := n];
      }
      freep := prevp;
      SoundHas(ptr, size, ring);
      LiveAfterTake(ptr, size0, ring0, size, ring, live, granted, a, n);
      live := live[a := n];
      assert Listed();
      assert LiveOk(size, ring, live) && LiveApart(live);
      assert Conserved(size, ring, live, granted);
      assert Below();
      assert freep != NONE;
    }

    /** malloc's loop from freep until it is back at freep: the first block, going
        around from freep, that is large enough. */
    method Search(nunits: int) returns (found: bool, prevp: int, p: int, ghost i: int)
      requires Listed() && 0 < nunits
      ensures found ==> 1 <= i < |ring| && p == ring[i] && prevp == ring[i - 1] && size[p] >= nunits
      ensures found <==> exists j :: 1 <= j < |ring| && size[ring[j]] >= nunits
    {
      hide FreeOk;
      SoundHas(ptr, size, ring);
      prevp := freep;
      ghost var f :| 0 <= f < |ring| && ring[f] == freep;
      ghost var k := 0;
      LinkAt(ptr, size, ring, f);
      p := ptr[prevp];
      i := Around(ring, f, 1);
      while size[p] < nunits
        invariant 0 <= k < |ring| && i == Around(ring, f, k + 1)
        invariant prevp == ring[Around(ring, f, k)] && p == ring[i]
        invariant forall m :: 1 <= m <= k ==> size[ring[Around(ring, f, m)]] < nunits
        decreases |ring| - k
      {
        if p == freep {
          OnceAround(ptr, size, ring, f, k, nunits);
          return false, prevp, p, i;
        }
        BeforeEnd(ptr, size, ring, f, k);
        k := k + 1;
        LinkAt(ptr, size, ring, i);
        prevp := p;
        p := ptr[p];
        i := Around(ring, f, k + 1);
      }
      found := true;
      BaseIsEmpty(ptr, size, ring);
    }

    /** malloc. `grant` is what sbrk would answer; `asked` says whether it is called,
        which happens once at most: after it the loop, started again, finds a block. */
    method Malloc(nbytes: int, grant: int) returns (r: int, stray: bool, ghost asked: bool)
      requires Valid() && 0 <= nbytes < WORD && (grant == NONE || grant >= brk)
      modifies this
      ensures asked <==> forall i :: 1 <= i < |old(ring)| ==> old(size[ring[i]]) < Units(nbytes)
      ensures stray <==> asked && grant != NONE && WORD / 2 - 2 * HEADER < nbytes <= WORD - HEADER
      ensures stray ==> grant !in granted && grant in size && size[grant] == Max(Units(nbytes), LEAST)
      ensures !stray ==> Valid()
      ensures r == NONE <==> asked && (grant == NONE || stray)
      ensures r == NONE ==> live == old(live)
      ensures r != NONE ==> r - 1 !in old(live) && live == old(live)[r - 1 := Units(nbytes)]
      ensures r != NONE ==> ((live[r - 1] - 1) * HEADER >= nbytes <==> nbytes <= WORD - HEADER)
      ensures r != NONE && nbytes <= WORD - HEADER ==> (live[r - 1] - 1) * HEADER < nbytes + HEADER
      ensures var more := asked && grant != NONE && !stray;
              && granted == old(granted) + (if more then Span(grant, grant + Max(Units(nbytes), LEAST)) else {})
              && brk == if more then grant + Max(Units(nbytes), LEAST) else old(brk)
    {
      hide FreeOk, LiveOk, LiveApart, Conserved, Span, Max, Units, Asked;
      var nunits := Units(nbytes);
      UnitsEnoughIff(nbytes);
      UnitsTight(nbytes);
      MaxIs(nunits, LEAST);
      AskedIff(nbytes);
      if freep == NONE {
        freep := base;
        ptr := ptr[base := base];
        size := size[base := 0];
        ring := [base];
        EmptyList(ptr, size, base);
      }
      asked, stray := false, false;
      SoundHas(ptr, size, ring);
      var found, prevp, p;
      ghost var i;
      found, prevp, p, i := Search(nunits);
      if !found {
        asked := true;
        p, stray := Morecore(nunits, grant);
        if p == NONE {
          return NONE, stray, true;
        }
        SoundHas(ptr, size, ring);
        found, prevp, p, i := Search(nunits);
      }
      var a := Take(prevp, p, nunits, i);
      r := a + 1;
    }
  }

  lemma MaxIs(a: int, b: int)
    ensures Max(a, b) == if a < b then b else a
  {
  }

  /** It happens: asked for the largest number of bytes, malloc hands out a header with
      no room behind it. */
  method MallocOfTooMuch(h: Heap, grant: int) returns (r: int)
    requires h.Valid() && (grant == NONE || grant >= h.brk)
    modifies h
    ensures h.Valid()
    ensures r == NONE ==> grant == NONE
    ensures r != NONE ==> r - 1 in h.live && h.live[r - 1] == 1
  {
    ghost var asked;
    var stray;
    r, stray, asked := h.Malloc(WORD - 1, grant);
  }

  /** And it strays: for 2^32 - 8 bytes on a new heap sbrk is asked for nothing, and the
      header is put where nothing was granted. */
  method MallocStrays(h: Heap, grant: int) returns (stray: bool)
    requires h.Valid() && h.freep == NONE && grant >= h.brk
    modifies h
    ensures Asked(Units(WORD - HEADER)) == 0
    ensures stray && grant !in h.granted && grant in h.size && h.size[grant] == WORD / HEADER
  {
    ghost var asked;
    var r;
    r, stray, asked := h.Malloc(WORD - HEADER, grant);
  }

  lemma PlaceStep(ptr: map<int, int>, size: map<int, int>, ring: seq<int>, i: int, t: nat, bp: int)
    requires FreeOk(ptr, size, ring) && 0 <= i < |ring| && Belongs(ring, t, bp)
    ensures ring[i] in ptr && ptr[ring[i]] == ring[Around(ring, i, 1)]
    ensures var p, q := ring[i], ring[Around(ring, i, 1)];
            (bp > p && bp < q) || (p >= q && (bp > p || bp < q)) <==> i == t
    ensures t < |ring|
  {
    LinkAt(ptr, size, ring, i);
    RingAscends(ptr, size, ring);
    ScanStops(ring, i, t, bp);
  }

  lemma BeforeEnd(ptr: map<int, int>, size: map<int, int>, ring: seq<int>, f: int, k: int)
    requires FreeOk(ptr, size, ring) && 0 <= f < |ring| && 0 <= k < |ring|
    requires ring[Around(ring, f, k + 1)] != ring[f]
    ensures k + 1 < |ring| && Around(ring, f, k + 2) == Around(ring, Around(ring, f, k + 1), 1)
  {
  }

  function Max(a: int, b: int): int {
    if a < b then b else a
  }

  /** m steps on from position f. */
  function Around(ring: seq<int>, f: int, m: int): int {
    if f + m < |ring| then f + m else f + m - |ring|
  }

  lemma SoundHas(ptr: map<int, int>, size: map<int, int>, ring: seq<int>)
    requires FreeOk(ptr, size, ring)
    ensures Sized(size, ring) && Has(size, ring) && Has(ptr, ring) && |ring| > 0
    ensures forall x :: x in ring ==> x >= ring[0]
  {
  }

  lemma RingAscends(ptr: map<int, int>, size: map<int, int>, ring: seq<int>)
    requires FreeOk(ptr, size, ring)
    ensures forall i, j :: 0 <= i < j < |ring| ==> ring[i] < ring[j]
  {
    Ascending(size, ring, -1);
  }

  lemma LinkAt(ptr: map<int, int>, size: map<int, int>, ring: seq<int>, i: int)
    requires FreeOk(ptr, size, ring) && 0 <= i < |ring|
    ensures ring[i] in ptr && ptr[ring[i]] == ring[Around(ring, i, 1)] == Next(ring, i)
  {
  }

  lemma BaseIsEmpty(ptr: map<int, int>, size: map<int, int>, ring: seq<int>)
    requires FreeOk(ptr, size, ring)
    ensures size[ring[0]] == 0
  {
  }

  lemma EmptyList(ptr: map<int, int>, size: map<int, int>, base: int)
    requires base in ptr && ptr[base] == base && base in size && size[base] == 0
    ensures FreeOk(ptr, size, [base]) && Has(size, [base])
    ensures LiveOk(size, [base], map[]) && LiveApart(map[]) && Conserved(size, [base], map[], {})
  {
  }

  /** Back at freep, every block has been looked at. */
  lemma OnceAround(ptr: map<int, int>, size: map<int, int>, ring: seq<int>, f: int, k: int, n: int)
    requires FreeOk(ptr, size, ring) && 0 <= f < |ring| && 0 <= k < |ring|
    requires ring[Around(ring, f, k + 1)] == ring[f] && size[ring[f]] < n
    requires forall m :: 1 <= m <= k ==> size[ring[Around(ring, f, m)]] < n
    ensures forall i :: 0 <= i < |ring| ==> size[ring[i]] < n
  {
    Ascending(size, ring, -1);
    assert Around(ring, f, k + 1) == f;
    assert k == |ring| - 1;
    forall i | 0 <= i < |ring|
      ensures size[ring[i]] < n
    {
      var m := if i >= f then i - f else i - f + |ring|;
      assert Around(ring, f, m) == i;
    }
  }

  lemma LiveBlock(size: map<int, int>, ring: seq<int>, live: map<int, int>, bp: int)
    requires Has(size, ring) && LiveOk(size, ring, live) && bp in live
    ensures bp in size && size[bp] == live[bp] > 0 && ClearOf(size, ring, bp, size[bp])
  {
  }

  /** Unit by unit: the live blocks after a change of the free list. */
  lemma LiveStays(size: map<int, int>, ring: seq<int>, size': map<int, int>, ring': seq<int>, a: int, n: int)
    requires Sized(size, ring) && Sized(size', ring') && ring'[0] == ring[0]
    requires n > 0 && ClearOf(size, ring, a, n)
    requires forall u :: a <= u < a + n && InFree(size', ring', u) ==> InFree(size, ring, u)
    ensures ClearOf(size', ring', a, n)
  {
    hide ClearOf, InFree;
    ClearIff(size, ring, a, n);
    ClearIff(size', ring', a, n);
  }

  lemma LiveOut(size: map<int, int>, ring: seq<int>, a: int, n: int)
    requires Has(size, ring) && ClearOf(size, ring, a, n)
    ensures a !in ring
  {
    ClearNotIn(size, ring, a, n);
  }

  lemma LiveAfterFree(size: map<int, int>, ring: seq<int>, size': map<int, int>, ring': seq<int>,
                      live: map<int, int>, granted: set<int>, bp: int)
    requires Sized(size, ring) && Sized(size', ring') && ring'[0] == ring[0]
    requires LiveOk(size, ring, live) && LiveApart(live) && Conserved(size, ring, live, granted) && bp in live
    requires Gained(size, ring, size', ring', bp, live[bp])
    requires forall a :: a in size && a !in ring && a != bp ==> a in size' && size'[a] == size[a]
    ensures LiveOk(size', ring', live - {bp}) && LiveApart(live - {bp})
    ensures Conserved(size', ring', live - {bp}, granted)
  {
    hide ClearOf, InFree, Sized;
    SizedHas(size, ring);
    var live' := live - {bp};
    forall a | a in live'
      ensures a in size' && live'[a] > 0 && size'[a] == live'[a] && ClearOf(size', ring', a, live'[a])
    {
      assert a in live && live[a] == live'[a];
      LiveOut(size, ring, a, live[a]);
      assert a < bp ==> a + live[a] <= bp;
      assert bp < a ==> bp + live[bp] <= a;
      LiveStays(size, ring, size', ring', a, live[a]);
    }
    forall u
      ensures u in granted <==> InFree(size', ring', u) || InLive(live', u)
    {
      FreedUnit(live, bp, u);
    }
  }

  lemma FreedUnit(live: map<int, int>, bp: int, u: int)
    requires bp in live
    ensures InLive(live, u) <==> InLive(live - {bp}, u) || bp <= u < bp + live[bp]
  {
    if InLive(live, u) {
      var a :| a in live && a <= u < a + live[a];
      assert a == bp || a in live - {bp};
    }
    if InLive(live - {bp}, u) {
      var a :| a in live - {bp} && a <= u < a + (live - {bp})[a];
      assert a in live;
    }
  }

  lemma FreshBlock(ptr: map<int, int>, size: map<int, int>, ring: seq<int>, live: map<int, int>, granted: set<int>,
                   p: int, n: int, brk: int)
    requires FreeOk(ptr, size, ring) && Has(size, ring) && Conserved(size, ring, live, granted) && p >= brk && n > 0
    requires LiveOk(size, ring, live)
    requires ring[0] < brk && forall u :: u in granted ==> ring[0] < u < brk
    ensures p !in ring && p !in live && ClearOf(size, ring, p, n)
    ensures forall u :: p <= u ==> !InFree(size, ring, u) && !InLive(live, u)
  {
    forall u | p <= u
      ensures !InFree(size, ring, u) && !InLive(live, u)
    {
      assert u !in granted;
    }
    ClearIff(size, ring, p, n);
    LiveOut(size, ring, p, n);
    assert p !in live || InLive(live, p);
  }

  lemma FreshHeader(ptr: map<int, int>, size: map<int, int>, ring: seq<int>, live: map<int, int>, granted: set<int>, p: int, n: int)
    requires FreeOk(ptr, size, ring) && p !in ring && Has(size, ring) && ClearOf(size, ring, p, n)
    ensures FreeOk(ptr, size[p := n], ring) && ClearOf(size[p := n], ring, p, n)
  {
  }

  lemma LiveAfterGrant(size: map<int, int>, size1: map<int, int>, ring: seq<int>, size': map<int, int>, ring': seq<int>,
                       live: map<int, int>, granted: set<int>, p: int, n: int)
    requires Sized(size, ring) && Sized(size', ring') && ring'[0] == ring[0] && size1 == size[p := n] && p !in ring && p !in live
    requires Has(size1, ring) && LiveOk(size, ring, live) && Conserved(size, ring, live, granted) && n > 0
    requires Gained(size1, ring, size', ring', p, n)
    requires forall a :: a in size1 && a !in ring && a != p ==> a in size' && size'[a] == size1[a]
    requires forall u :: p <= u ==> !InFree(size, ring, u) && !InLive(live, u)
    ensures LiveOk(size', ring', live) && Conserved(size', ring', live, granted + Span(p, p + n))
  {
    hide ClearOf, InFree, Sized;
    forall u
      ensures InFree(size', ring', u) <==> InFree(size, ring, u) || p <= u < p + n
    {
      SizedHas(size, ring);
      SameUnits(size, size1, ring, u);
    }
    forall a | a in live
      ensures a in size' && size'[a] == live[a] && ClearOf(size', ring', a, live[a])
    {
      LiveOut(size, ring, a, live[a]);
      assert InLive(live, a + live[a] - 1);
      LiveStays(size, ring, size', ring', a, live[a]);
    }
  }

  lemma LiveAfterTake(ptr: map<int, int>, size: map<int, int>, ring: seq<int>, size': map<int, int>, ring': seq<int>,
                      live: map<int, int>, granted: set<int>, a: int, n: int)
    requires FreeOk(ptr, size', ring') && Sized(size, ring) && Sized(size', ring') && ring'[0] == ring[0] && n > 0
    requires LiveOk(size, ring, live) && LiveApart(live) && Conserved(size, ring, live, granted)
    requires Lost(size, ring, size', ring', a, n) && a in size' && size'[a] == n && a !in ring'
    requires forall x :: x in size && x !in ring && x != a ==> x in size' && size'[x] == size[x]
    requires ring[0] < a
    ensures a !in live && LiveOk(size', ring', live[a := n]) && LiveApart(live[a := n])
    ensures Conserved(size', ring', live[a := n], granted)
  {
    hide InFree, Sized, ClearOf;
    var live' := live[a := n];
    SizedHas(size, ring);
    assert InFree(size, ring, a);
    ClearIff(size', ring', a, n);
    forall x | x in live
      ensures x != a && x in size' && size'[x] == live[x] && ClearOf(size', ring', x, live[x])
      ensures x + live[x] <= a || a + n <= x
    {
      ClearIff(size, ring, x, live[x]);
      LiveOut(size, ring, x, live[x]);
      LiveStays(size, ring, size', ring', x, live[x]);
      assert !(x <= a < x + live[x]);
      assert !InFree(size, ring, x);
      assert !(a <= x < a + n);
    }
    forall u
      ensures InLive(live', u) <==> InLive(live, u) || a <= u < a + n
    {
      assert live' - {a} == live;
      FreedUnit(live', a, u);
    }
  }

  lemma StartInsert(ptr: map<int, int>, size: map<int, int>, ring: seq<int>, bp: int)
    requires FreeOk(ptr, size, ring) && bp in size && ClearOf(size, ring, bp, size[bp])
    ensures bp !in ring && |ring| > 0 && ring[0] < bp
  {
    ClearNotIn(size, ring, bp, size[bp]);
  }

  lemma PlaceHas(ptr: map<int, int>, size: map<int, int>, ring: seq<int>, t: nat, bp: int)
    requires FreeOk(ptr, size, ring) && Belongs(ring, t, bp)
    ensures t < |ring| && ring[t] in ptr && ring[t] in size && Has(size, ring)
  {
  }

  lemma ReadyHas(ptr: map<int, int>, size: map<int, int>, ring: seq<int>, t: nat, bp: int)
    requires Ready(ptr, size, ring, t, bp)
    ensures t < |ring| && ring[t] in size && bp in ptr && bp in size && ring[t] != bp
    ensures |Inserted(ring, t, bp)| == |ring| + 1 && Inserted(ring, t, bp)[0] == ring[0]
    ensures ring[t] in Inserted(ring, t, bp) && Inserted(ring, t, bp)[t + 1] == bp
  {
    InsertedAt(ring, t, bp, t + 1);
    InsertedAt(ring, t, bp, t);
    InsertedAt(ring, t, bp, 0);
  }
}
