/** The K&R free list as a value: addresses of free blocks in a ring, in units of a
    header. ring[0] is the static header `base`, which has size 0. */
module FreeList {

  /** The element after position i, around the ring. */
  function Next(ring: seq<int>, i: int): int
    requires 0 <= i < |ring|
  {
    if i + 1 < |ring| then ring[i + 1] else ring[0]
  }

  ghost predicate Has(m: map<int, int>, ring: seq<int>) {
    forall i :: 0 <= i < |ring| ==> ring[i] in m
  }

  ghost predicate Linked(ptr: map<int, int>, ring: seq<int>) {
    Has(ptr, ring) && forall i {:trigger ptr[ring[i]]} :: 0 <= i < |ring| ==> ptr[ring[i]] == Next(ring, i)
  }

  ghost predicate Sized(size: map<int, int>, ring: seq<int>) {
    && Has(size, ring) && |ring| > 0 && size[ring[0]] == 0
    && forall i {:trigger size[ring[i]]} :: 1 <= i < |ring| ==> size[ring[i]] > 0
  }

  /** Ascending addresses, and a gap after every block: free blocks neither overlap
      nor touch. At position `loose` touching is allowed. */
  ghost predicate Gaps(size: map<int, int>, ring: seq<int>, loose: int)
    requires Has(size, ring)
  {
    forall i, j :: 0 <= i < j < |ring| ==>
      ring[i] + size[ring[i]] <= ring[j] && (i == loose || ring[i] + size[ring[i]] < ring[j])
  }

  ghost predicate FreeOk(ptr: map<int, int>, size: map<int, int>, ring: seq<int>) {
    Linked(ptr, ring) && Sized(size, ring) && Gaps(size, ring, -1)
  }

  ghost predicate InFree(size: map<int, int>, ring: seq<int>, u: int)
    requires Has(size, ring)
  {
    exists i :: 1 <= i < |ring| && ring[i] <= u < ring[i] + size[ring[i]]
  }

  ghost predicate InLive(live: map<int, int>, u: int) {
    exists a :: a in live && a <= u < a + live[a]
  }

  /** The block [a, a + n) meets no free block, and lies above base. */
  ghost predicate ClearOf(size: map<int, int>, ring: seq<int>, a: int, n: int)
    requires Has(size, ring)
  {
    n > 0 && forall i {:trigger size[ring[i]]} :: 0 <= i < |ring| ==>
      a != ring[i] && (a + n <= ring[i] || ring[i] + size[ring[i]] <= a) && (i == 0 ==> ring[i] < a)
  }

  // Inserting a block after position t.

  function Inserted(ring: seq<int>, t: nat, bp: int): seq<int>
    requires t < |ring|
  {
    ring[..t + 1] + [bp] + ring[t + 1..]
  }

  function Removed(ring: seq<int>, t: nat): seq<int>
    requires t < |ring|
  {
    ring[..t] + ring[t + 1..]
  }

  lemma InsertedAt(ring: seq<int>, t: nat, bp: int, i: nat)
    requires t < |ring| && i <= |ring|
    ensures |Inserted(ring, t, bp)| == |ring| + 1
    ensures Inserted(ring, t, bp)[i] == if i <= t then ring[i] else if i == t + 1 then bp else ring[i - 1]
  {
  }

  lemma RemovedAt(ring: seq<int>, t: nat, i: nat)
    requires t < |ring| && i < |ring| - 1
    ensures |Removed(ring, t)| == |ring| - 1
    ensures Removed(ring, t)[i] == if i < t then ring[i] else ring[i + 1]
  {
  }

  /** Position t is where bp belongs. */
  ghost predicate Belongs(ring: seq<int>, t: int, bp: int) {
    0 <= t < |ring| && ring[t] < bp && (t + 1 < |ring| ==> bp < ring[t + 1])
  }

  lemma InsertLinks(ptr: map<int, int>, ring: seq<int>, t: nat, bp: int)
    requires Linked(ptr, ring) && t < |ring| && bp !in ring
    requires forall i, j :: 0 <= i < j < |ring| ==> ring[i] < ring[j]
    ensures Linked(ptr[bp := ptr[ring[t]]][ring[t] := bp], Inserted(ring, t, bp))
  {
    var ptr' := ptr[bp := ptr[ring[t]]][ring[t] := bp];
    var ring' := Inserted(ring, t, bp);
    forall i {:trigger ring'[i]} | 0 <= i < |ring'|
      ensures ring'[i] in ptr' && ptr'[ring'[i]] == Next(ring', i)
    {
      InsertedAt(ring, t, bp, i);
      InsertedAt(ring, t, bp, 0);
      if i < |ring| {
        InsertedAt(ring, t, bp, i + 1);
      }
      assert ptr[ring[t]] == Next(ring, t);
      if i > t + 1 {
        assert ptr[ring[i - 1]] == Next(ring, i - 1);
      } else if i < t {
        assert ptr[ring[i]] == Next(ring, i);
      }
    }
  }

  lemma RemoveLinks(ptr: map<int, int>, ring: seq<int>, t: nat)
    requires Linked(ptr, ring) && 1 <= t < |ring|
    requires forall i, j :: 0 <= i < j < |ring| ==> ring[i] < ring[j]
    ensures Linked(ptr[ring[t - 1] := ptr[ring[t]]], Removed(ring, t))
  {
    var ptr' := ptr[ring[t - 1] := ptr[ring[t]]];
    var ring' := Removed(ring, t);
    forall i {:trigger ring'[i]} | 0 <= i < |ring'|
      ensures ring'[i] in ptr' && ptr'[ring'[i]] == Next(ring', i)
    {
      RemovedAt(ring, t, i);
      RemovedAt(ring, t, 0);
      if i + 1 < |ring'| {
        RemovedAt(ring, t, i + 1);
      }
      assert ptr[ring[t]] == Next(ring, t);
      if i >= t {
        assert ptr[ring[i + 1]] == Next(ring, i + 1);
      } else if i < t - 1 {
        assert ptr[ring[i]] == Next(ring, i);
      }
    }
  }

  lemma Ascending(size: map<int, int>, ring: seq<int>, loose: int)
    requires Sized(size, ring) && Gaps(size, ring, loose) && loose != 0
    ensures forall i, j :: 0 <= i < j < |ring| ==> ring[i] < ring[j]
  {
    forall i, j | 0 <= i < j < |ring|
      ensures ring[i] < ring[j]
    {
      assert size[ring[i]] >= 0;
    }
  }

  /** bp in its place: it may touch the block before it, and the block after it
      must be further off. */
  lemma InsertGaps(size: map<int, int>, ring: seq<int>, t: nat, bp: int)
    requires Sized(size, ring) && Gaps(size, ring, -1) && bp in size && Belongs(ring, t, bp)
    requires ClearOf(size, ring, bp, size[bp])
    requires t + 1 < |ring| ==> bp + size[bp] != ring[t + 1]
    ensures Sized(size, Inserted(ring, t, bp)) && Gaps(size, Inserted(ring, t, bp), if t == 0 then -1 else t)
  {
    var ring' := Inserted(ring, t, bp);
    forall i {:trigger ring'[i]} | 0 <= i < |ring'|
      ensures ring'[i] in size && (i >= 1 ==> size[ring'[i]] > 0)
    {
      InsertedAt(ring, t, bp, i);
    }
    InsertedAt(ring, t, bp, 0);
    forall i, j | 0 <= i < j < |ring'|
      ensures ring'[i] + size[ring'[i]] <= ring'[j]
      ensures (i == t && t != 0) || ring'[i] + size[ring'[i]] < ring'[j]
    {
      InsertedAt(ring, t, bp, i);
      InsertedAt(ring, t, bp, j);
      BelongsBelow(size, ring, t, bp, i, j);
    }
  }

  lemma BelongsBelow(size: map<int, int>, ring: seq<int>, t: nat, bp: int, i: nat, j: nat)
    requires Sized(size, ring) && Gaps(size, ring, -1) && bp in size && Belongs(ring, t, bp)
    requires ClearOf(size, ring, bp, size[bp])
    requires t + 1 < |ring| ==> bp + size[bp] != ring[t + 1]
    ensures i <= t ==> ring[i] + size[ring[i]] <= bp && (i != t || t == 0 ==> ring[i] + size[ring[i]] < bp)
    ensures t < j < |ring| ==> bp + size[bp] < ring[j]
  {
    assert i < t ==> ring[i] + size[ring[i]] < ring[t];
    if i <= t {
      assert size[ring[i]] >= 0;
      if i == t {
        assert !(bp + size[bp] <= ring[i]);
      }
    }
    if t < j < |ring| {
      assert t + 1 < j ==> ring[t + 1] + size[ring[t + 1]] < ring[j];
      assert size[ring[t + 1]] > 0;
      assert ring[t] + size[ring[t]] < ring[t + 1];
    }
  }

  /** Joining the block at t + 1 to the one at t, which it touches. */
  lemma JoinGaps(size: map<int, int>, ring: seq<int>, t: nat)
    requires Sized(size, ring) && Gaps(size, ring, t) && 1 <= t && t + 1 < |ring|
    requires ring[t] + size[ring[t]] == ring[t + 1]
    ensures var size' := size[ring[t] := size[ring[t]] + size[ring[t + 1]]];
            Sized(size', Removed(ring, t + 1)) && Gaps(size', Removed(ring, t + 1), -1)
  {
    var size', ring' := size[ring[t] := size[ring[t]] + size[ring[t + 1]]], Removed(ring, t + 1);
    Ascending(size, ring, t);
    forall i {:trigger ring'[i]} | 0 <= i < |ring'|
      ensures ring'[i] in size' && (i >= 1 ==> size'[ring'[i]] > 0)
    {
      RemovedAt(ring, t + 1, i);
    }
    RemovedAt(ring, t + 1, 0);
    forall i, j | 0 <= i < j < |ring'|
      ensures ring'[i] + size'[ring'[i]] < ring'[j]
    {
      RemovedAt(ring, t + 1, i);
      RemovedAt(ring, t + 1, j);
      if i == t {
        assert ring[t + 1] + size[ring[t + 1]] < ring[j + 1];
      }
    }
  }

  lemma TightGaps(size: map<int, int>, ring: seq<int>, t: nat)
    requires Sized(size, ring) && Gaps(size, ring, t)
    requires t + 1 < |ring| ==> ring[t] + size[ring[t]] != ring[t + 1]
    ensures Gaps(size, ring, -1)
  {
    forall i, j | 0 <= i < j < |ring|
      ensures ring[i] + size[ring[i]] < ring[j]
    {
      if i == t && j > t + 1 {
        assert ring[t] + size[ring[t]] <= ring[t + 1] && ring[t + 1] + size[ring[t + 1]] <= ring[j];
        assert size[ring[t + 1]] > 0;
      }
    }
  }

  // The units that are free.

  lemma InsertFree(size: map<int, int>, ring: seq<int>, t: nat, bp: int, u: int)
    requires Has(size, ring) && t < |ring| && bp in size && Has(size, Inserted(ring, t, bp))
    ensures InFree(size, Inserted(ring, t, bp), u) <==> InFree(size, ring, u) || bp <= u < bp + size[bp]
  {
    var ring' := Inserted(ring, t, bp);
    InsertedAt(ring, t, bp, t + 1);
    if InFree(size, ring, u) {
      var i :| 1 <= i < |ring| && ring[i] <= u < ring[i] + size[ring[i]];
      InsertedAt(ring, t, bp, if i <= t then i else i + 1);
      assert ring'[if i <= t then i else i + 1] == ring[i];
    }
    if InFree(size, ring', u) {
      var i :| 1 <= i < |ring'| && ring'[i] <= u < ring'[i] + size[ring'[i]];
      InsertedAt(ring, t, bp, i);
    }
  }

  lemma RemoveFree(size: map<int, int>, ring: seq<int>, t: nat, u: int)
    requires Has(size, ring) && 1 <= t < |ring| && Has(size, Removed(ring, t))
    ensures InFree(size, ring, u) <==> InFree(size, Removed(ring, t), u) || ring[t] <= u < ring[t] + size[ring[t]]
  {
    var ring' := Removed(ring, t);
    if InFree(size, ring, u) {
      var i :| 1 <= i < |ring| && ring[i] <= u < ring[i] + size[ring[i]];
      if i != t {
        RemovedAt(ring, t, if i < t then i else i - 1);
        assert ring'[if i < t then i else i - 1] == ring[i];
      }
    }
    if InFree(size, ring', u) {
      var i :| 1 <= i < |ring'| && ring'[i] <= u < ring'[i] + size[ring'[i]];
      RemovedAt(ring, t, i);
    }
  }

  ghost predicate InOther(size: map<int, int>, ring: seq<int>, t: int, u: int)
    requires Has(size, ring)
  {
    exists i :: 1 <= i < |ring| && i != t && ring[i] <= u < ring[i] + size[ring[i]]
  }

  /** A change of one size changes the units of that block only. */
  lemma ResizeFree(size: map<int, int>, ring: seq<int>, t: nat, n: int, u: int)
    requires Has(size, ring) && 1 <= t < |ring|
    requires forall i, j :: 0 <= i < j < |ring| ==> ring[i] < ring[j]
    ensures Has(size[ring[t] := n], ring)
    ensures InFree(size[ring[t] := n], ring, u) <==> ring[t] <= u < ring[t] + n || InOther(size, ring, t, u)
  {
    var size' := size[ring[t] := n];
    if InFree(size', ring, u) {
      var i :| 1 <= i < |ring| && ring[i] <= u < ring[i] + size'[ring[i]];
    }
    if InOther(size, ring, t, u) {
      var i :| 1 <= i < |ring| && i != t && ring[i] <= u < ring[i] + size[ring[i]];
      assert size'[ring[i]] == size[ring[i]];
    }
  }

  lemma RemovedAscends(ring: seq<int>, t: nat)
    requires t < |ring| && forall i, j :: 0 <= i < j < |ring| ==> ring[i] < ring[j]
    ensures forall i, j :: 0 <= i < j < |Removed(ring, t)| ==> Removed(ring, t)[i] < Removed(ring, t)[j]
  {
  }

  lemma JoinFree(size: map<int, int>, ring: seq<int>, t: nat, u: int)
    requires Sized(size, ring) && Gaps(size, ring, t) && 1 <= t && t + 1 < |ring|
    requires ring[t] + size[ring[t]] == ring[t + 1] && Has(size, Removed(ring, t + 1))
    ensures var size' := size[ring[t] := size[ring[t]] + size[ring[t + 1]]];
            && Has(size', Removed(ring, t + 1))
            && (InFree(size', Removed(ring, t + 1), u) <==> InFree(size, ring, u))
  {
    hide InFree, InOther;
    Ascending(size, ring, t);
    RemovedAscends(ring, t + 1);
    RemovedAt(ring, t + 1, t);
    assert size[ring[t]] > 0 && size[ring[t + 1]] > 0;
    RemoveFree(size, ring, t + 1, u);
    ResizeFree(size, Removed(ring, t + 1), t, size[ring[t]] + size[ring[t + 1]], u);
    ResizeFree(size, Removed(ring, t + 1), t, size[ring[t]], u);
    assert size[ring[t] := size[ring[t]]] == size;
  }

  /** A block clear of the free list is one with no free unit. */
  lemma ClearIff(size: map<int, int>, ring: seq<int>, a: int, n: int)
    requires Sized(size, ring) && n > 0
    ensures ClearOf(size, ring, a, n) <==> ring[0] < a && forall u :: a <= u < a + n ==> !InFree(size, ring, u)
  {
    if ClearOf(size, ring, a, n) {
      assert size[ring[0]] == 0;
    }
    if ring[0] < a && forall u :: a <= u < a + n ==> !InFree(size, ring, u) {
      forall i {:trigger size[ring[i]]} | 0 <= i < |ring|
        ensures a != ring[i] && (a + n <= ring[i] || ring[i] + size[ring[i]] <= a)
      {
        if i >= 1 {
          var u := if a < ring[i] then ring[i] else a;
          assert size[ring[i]] > 0;
          if u < a + n && u < ring[i] + size[ring[i]] {
            assert InFree(size, ring, u);
          }
        }
      }
    }
  }

  /** What inserting does to the free units, all cases together. */
  ghost predicate Gained(size: map<int, int>, ring: seq<int>, size': map<int, int>, ring': seq<int>, bp: int, n: int)
    requires Has(size, ring)
  {
    Has(size', ring') && forall u :: InFree(size', ring', u) <==> InFree(size, ring, u) || bp <= u < bp + n
  }

  lemma RemovedSame(size: map<int, int>, ring: seq<int>, t: nat, bp: int, n: int)
    requires Has(size, ring) && t < |ring| && bp !in ring
    ensures forall i {:trigger Removed(ring, t)[i]} :: 0 <= i < |ring| - 1 ==>
              var a := Removed(ring, t)[i];
              a == ring[if i < t then i else i + 1] && a in size && a != bp && size[bp := n][a] == size[a]
  {
    forall i {:trigger Removed(ring, t)[i]} | 0 <= i < |ring| - 1
      ensures Removed(ring, t)[i] == ring[if i < t then i else i + 1]
    {
      RemovedAt(ring, t, i);
    }
  }

  lemma RemovedGaps(size: map<int, int>, ring: seq<int>, t: nat, bp: int, n: int)
    requires Sized(size, ring) && Gaps(size, ring, -1) && 1 <= t < |ring| && bp !in ring
    ensures Sized(size[bp := n], Removed(ring, t)) && Gaps(size[bp := n], Removed(ring, t), -1)
  {
    var ring', size' := Removed(ring, t), size[bp := n];
    RemovedSame(size, ring, t, bp, n);
    forall i {:trigger size'[ring'[i]]} | 1 <= i < |ring'|
      ensures size'[ring'[i]] > 0
    {
      assert size[ring[if i < t then i else i + 1]] > 0;
    }
    assert ring'[0] == ring[0];
    forall i, j | 0 <= i < j < |ring'|
      ensures ring'[i] + size'[ring'[i]] < ring'[j]
    {
      var i0, j0 := if i < t then i else i + 1, if j < t then j else j + 1;
      assert ring[i0] + size[ring[i0]] < ring[j0];
    }
  }

  /** free's first half when bp touches the next block: the next block leaves the
      ring and bp takes it over. */
  lemma AbsorbNext(size: map<int, int>, ring: seq<int>, t: nat, bp: int)
    requires Sized(size, ring) && Gaps(size, ring, -1) && bp in size && Belongs(ring, t, bp) && t + 1 < |ring|
    requires ClearOf(size, ring, bp, size[bp]) && bp + size[bp] == ring[t + 1] && bp !in ring
    ensures var size', ring' := size[bp := size[bp] + size[ring[t + 1]]], Removed(ring, t + 1);
            && Sized(size', ring') && Gaps(size', ring', -1)
            && Belongs(ring', t, bp) && ClearOf(size', ring', bp, size'[bp])
            && (t + 1 < |ring'| ==> bp + size'[bp] != ring'[t + 1])
            && bp !in ring'
  {
    hide Gaps;
    var q, n := ring[t + 1], size[bp] + size[ring[t + 1]];
    var size', ring' := size[bp := n], Removed(ring, t + 1);
    RemovedGaps(size, ring, t + 1, bp, n);
    RemovedSame(size, ring, t + 1, bp, n);
    SizesAndGaps(size, ring, t + 1, t + 1);
    if t + 1 < |ring'| {
      SizesAndGaps(size, ring, t + 1, t + 2);
    }
    forall i {:trigger size'[ring'[i]]} | 0 <= i < |ring'|
      ensures bp != ring'[i] && (bp + n <= ring'[i] || ring'[i] + size'[ring'[i]] <= bp)
      ensures i == 0 ==> ring'[i] < bp
    {
      if i <= t {
        SizesAndGaps(size, ring, i, t);
        assert size[ring[i]] >= 0 && ring'[i] == ring[i];
      } else {
        SizesAndGaps(size, ring, t + 1, i + 1);
        assert ring'[i] == ring[i + 1];
      }
    }
  }

  lemma SizesAndGaps(size: map<int, int>, ring: seq<int>, i: int, j: int)
    requires Sized(size, ring) && Gaps(size, ring, -1) && 0 <= i <= j < |ring|
    ensures ring[i] in size && size[ring[i]] >= 0 && (i > 0 ==> size[ring[i]] > 0) && ring[i] <= ring[j]
    ensures i < j ==> ring[i] + size[ring[i]] < ring[j]
  {
  }

  lemma AbsorbFree(size: map<int, int>, ring: seq<int>, t: nat, bp: int)
    requires Sized(size, ring) && Gaps(size, ring, -1) && bp in size && Belongs(ring, t, bp) && t + 1 < |ring|
    requires bp + size[bp] == ring[t + 1] && bp !in ring && size[bp] > 0
    ensures var q := ring[t + 1];
            var size', ring' := size[bp := size[bp] + size[q]], Removed(ring, t + 1);
            && Has(size', ring')
            && forall u :: InFree(size', ring', u) || bp <= u < bp + size'[bp] <==>
                           InFree(size, ring, u) || bp <= u < bp + size[bp]
  {
    var q := ring[t + 1];
    var size', ring' := size[bp := size[bp] + size[q]], Removed(ring, t + 1);
    forall i {:trigger ring'[i]} | 0 <= i < |ring'|
      ensures ring'[i] == ring[if i < t + 1 then i else i + 1] && ring'[i] in size' && ring'[i] in size
      ensures size'[ring'[i]] == size[ring'[i]]
    {
      RemovedAt(ring, t + 1, i);
    }
    assert size[q] > 0;
    forall u
      ensures InFree(size', ring', u) || bp <= u < bp + size'[bp] <==>
              InFree(size, ring, u) || bp <= u < bp + size[bp]
    {
      RemoveFree(size, ring, t + 1, u);
      SameUnits(size, size', ring', u);
    }
  }

  lemma SameUnits(size: map<int, int>, size': map<int, int>, ring: seq<int>, u: int)
    requires Has(size, ring) && Has(size', ring)
    requires forall i {:trigger ring[i]} :: 0 <= i < |ring| ==> size'[ring[i]] == size[ring[i]]
    ensures InFree(size', ring, u) <==> InFree(size, ring, u)
  {
    if InFree(size, ring, u) {
      var i :| 1 <= i < |ring| && ring[i] <= u < ring[i] + size[ring[i]];
      assert ring[i] <= u < ring[i] + size'[ring[i]];
    }
  }

  // The two halves of free.

  /** After the first half: bp points onward and would stand in the ring after p. */
  ghost predicate Ready(ptr: map<int, int>, size: map<int, int>, ring: seq<int>, t: nat, bp: int) {
    && t < |ring| && bp in ptr && bp in size && bp !in ring
    && Linked(ptr[ring[t] := bp], Inserted(ring, t, bp)) && Sized(size, Inserted(ring, t, bp))
    && Gaps(size, Inserted(ring, t, bp), if t == 0 then -1 else t)
  }

  lemma ClearNotIn(size: map<int, int>, ring: seq<int>, bp: int, n: int)
    requires Has(size, ring) && ClearOf(size, ring, bp, n)
    ensures bp !in ring && n > 0 && (|ring| > 0 ==> ring[0] < bp)
  {
    forall i | 0 <= i < |ring|
      ensures ring[i] != bp && (i == 0 ==> ring[i] < bp)
    {
      assert size[ring[i]] == size[ring[i]];
    }
  }

  lemma HalfPlain(ptr: map<int, int>, size: map<int, int>, ring: seq<int>, t: nat, bp: int)
    requires FreeOk(ptr, size, ring) && bp in size && Belongs(ring, t, bp) && ClearOf(size, ring, bp, size[bp])
    requires bp + size[bp] != ptr[ring[t]]
    ensures Ready(ptr[bp := ptr[ring[t]]], size, ring, t, bp)
    ensures Gained(size, ring, size, Inserted(ring, t, bp), bp, size[bp])
  {
    hide InFree;
    ClearNotIn(size, ring, bp, size[bp]);
    Ascending(size, ring, -1);
    assert ptr[ring[t]] == Next(ring, t);
    InsertLinks(ptr, ring, t, bp);
    InsertGaps(size, ring, t, bp);
    forall u
      ensures InFree(size, Inserted(ring, t, bp), u) <==> InFree(size, ring, u) || bp <= u < bp + size[bp]
    {
      InsertFree(size, ring, t, bp, u);
    }
  }

  /** Only a block below the wrap point can touch what follows it. */
  lemma TouchIsNext(ptr: map<int, int>, size: map<int, int>, ring: seq<int>, t: nat, bp: int)
    requires FreeOk(ptr, size, ring) && bp in size && Belongs(ring, t, bp) && ClearOf(size, ring, bp, size[bp])
    requires bp + size[bp] == ptr[ring[t]]
    ensures t + 1 < |ring| && ptr[ring[t]] == ring[t + 1] && ring[t + 1] in ptr && ring[t + 1] in size
  {
    ClearNotIn(size, ring, bp, size[bp]);
    assert ptr[ring[t]] == Next(ring, t);
  }

  lemma SizedHas(size: map<int, int>, ring: seq<int>)
    requires Sized(size, ring)
    ensures Has(size, ring) && |ring| > 0
  {
  }

  lemma SizedAt(size: map<int, int>, ring: seq<int>, i: int)
    requires Sized(size, ring) && 1 <= i < |ring|
    ensures ring[i] in size && size[ring[i]] > 0
  {
  }

  lemma AbsorbLinks(ptr: map<int, int>, size: map<int, int>, ring: seq<int>, t: nat, bp: int)
    requires Linked(ptr, ring) && Sized(size, ring) && Gaps(size, ring, -1) && bp !in ring && t + 1 < |ring|
    ensures ring[t + 1] in ptr && t < |Removed(ring, t + 1)| && Removed(ring, t + 1)[t] == ring[t]
    ensures Linked(ptr[bp := ptr[ring[t + 1]]][ring[t] := bp], Inserted(Removed(ring, t + 1), t, bp))
  {
    hide Gaps, Sized, Linked, Removed, Inserted;
    LinkedHas(ptr, ring);
    var q, ring' := ring[t + 1], Removed(ring, t + 1);
    Ascending(size, ring, -1);
    RemoveLinks(ptr, ring, t + 1);
    RemovedAscends(ring, t + 1);
    RemovedAt(ring, t + 1, t);
    NotInRemoved(ring, t + 1, bp);
    var ptr' := ptr[ring[t] := ptr[q]];
    InsertLinks(ptr', ring', t, bp);
    assert ptr'[bp := ptr'[ring'[t]]][ring'[t] := bp] == ptr[bp := ptr[q]][ring'[t] := bp];
  }

  lemma NotInRemoved(ring: seq<int>, t: nat, bp: int)
    requires t < |ring| && bp !in ring
    ensures bp !in Removed(ring, t)
  {
  }

  lemma HalfAbsorb(ptr: map<int, int>, size: map<int, int>, ring: seq<int>, t: nat, bp: int)
    requires FreeOk(ptr, size, ring) && bp in size && Belongs(ring, t, bp) && ClearOf(size, ring, bp, size[bp])
    requires t + 1 < |ring| && bp + size[bp] == ring[t + 1]
    ensures ring[t + 1] in size && ring[t + 1] in ptr && size[ring[t + 1]] > 0
    ensures t < |Removed(ring, t + 1)| && Removed(ring, t + 1)[t] == ring[t] && Removed(ring, t + 1)[0] == ring[0]
    ensures var q := ring[t + 1];
            var size' := size[bp := size[bp] + size[q]];
            && Ready(ptr[bp := ptr[q]], size', Removed(ring, t + 1), t, bp)
            && Gained(size, ring, size', Inserted(Removed(ring, t + 1), t, bp), bp, size[bp])
  {
    hide InFree, Gaps, Linked, Sized, ClearOf, Belongs, Inserted, Removed;
    SizedHas(size, ring);
    var q := ring[t + 1];
    var size', ring' := size[bp := size[bp] + size[q]], Removed(ring, t + 1);
    ClearNotIn(size, ring, bp, size[bp]);
    AbsorbLinks(ptr, size, ring, t, bp);
    AbsorbNext(size, ring, t, bp);
    AbsorbFree(size, ring, t, bp);
    SizesAndGaps(size, ring, t + 1, t + 1);
    RemovedAt(ring, t + 1, 0);
    InsertGaps(size', ring', t, bp);
    SizedHas(size', Inserted(ring', t, bp));
    forall u
      ensures InFree(size', Inserted(ring', t, bp), u) <==> InFree(size, ring, u) || bp <= u < bp + size[bp]
    {
      InsertFree(size', ring', t, bp, u);
    }
  }

  lemma SecondPlain(ptr: map<int, int>, size: map<int, int>, ring: seq<int>, t: nat, bp: int)
    requires Ready(ptr, size, ring, t, bp) && ring[t] in size && ring[t] + size[ring[t]] != bp
    ensures FreeOk(ptr[ring[t] := bp], size, Inserted(ring, t, bp))
  {
    InsertedAt(ring, t, bp, t);
    InsertedAt(ring, t, bp, t + 1);
    if t > 0 {
      TightGaps(size, Inserted(ring, t, bp), t);
    }
  }

  lemma JoinLinks(ptr: map<int, int>, size: map<int, int>, ring: seq<int>, t: nat, bp: int)
    requires Ready(ptr, size, ring, t, bp) && t > 0
    ensures Linked(ptr[ring[t] := ptr[bp]], ring) && Removed(Inserted(ring, t, bp), t + 1) == ring
  {
    hide Sized, Gaps;
    var all := Inserted(ring, t, bp);
    InsertedAt(ring, t, bp, t);
    InsertedAt(ring, t, bp, t + 1);
    Ascending(size, all, t);
    RemoveLinks(ptr[ring[t] := bp], all, t + 1);
    assert Removed(all, t + 1) == ring;
    assert ptr[ring[t] := bp][ring[t] := ptr[ring[t] := bp][bp]] == ptr[ring[t] := ptr[bp]];
  }

  lemma SecondJoin(ptr: map<int, int>, size: map<int, int>, ring: seq<int>, t: nat, bp: int)
    requires Ready(ptr, size, ring, t, bp) && ring[t] in size && ring[t] + size[ring[t]] == bp
    ensures var size' := size[ring[t] := size[ring[t]] + size[bp]];
            && t >= 1 && size[ring[t]] > 0
            && FreeOk(ptr[ring[t] := ptr[bp]], size', ring) && Has(size', ring) && Has(size, Inserted(ring, t, bp))
            && forall u :: InFree(size', ring, u) <==> InFree(size, Inserted(ring, t, bp), u)
  {
    hide InFree, Linked, Sized, Removed, Inserted;
    var all := Inserted(ring, t, bp);
    InsertedAt(ring, t, bp, t);
    InsertedAt(ring, t, bp, t + 1);
    SizedHas(size, all);
    assert t != 0;
    SizedAt(size, all, t);
    var size' := size[ring[t] := size[ring[t]] + size[bp]];
    JoinLinks(ptr, size, ring, t, bp);
    JoinGaps(size, all, t);
    SizedHas(size', ring);
    forall u
      ensures InFree(size', ring, u) <==> InFree(size, all, u)
    {
      JoinFree(size, all, t, u);
    }
  }

  /** Where free's scan stops: exactly at the place where bp belongs. */
  lemma ScanStops(ring: seq<int>, i: nat, t: nat, bp: int)
    requires forall a, b :: 0 <= a < b < |ring| ==> ring[a] < ring[b]
    requires Belongs(ring, t, bp) && i < |ring|
    ensures var p, q := ring[i], Next(ring, i);
            (bp > p && bp < q) || (p >= q && (bp > p || bp < q)) <==> i == t
  {
  }

  // Taking a block, or the end of one.

  ghost predicate Lost(size: map<int, int>, ring: seq<int>, size': map<int, int>, ring': seq<int>, a: int, n: int)
    requires Has(size, ring)
  {
    && Has(size', ring')
    && (forall u :: a <= u < a + n ==> InFree(size, ring, u))
    && forall u :: InFree(size', ring', u) <==> InFree(size, ring, u) && !(a <= u < a + n)
  }

  /** Two blocks of the ring have no unit in common. */
  lemma OneBlock(size: map<int, int>, ring: seq<int>, i: int, j: int, u: int)
    requires Sized(size, ring) && Gaps(size, ring, -1) && 0 <= i < |ring| && 0 <= j < |ring|
    requires ring[i] <= u < ring[i] + size[ring[i]] && ring[j] <= u < ring[j] + size[ring[j]]
    ensures i == j
  {
  }

  lemma TakeWhole(ptr: map<int, int>, size: map<int, int>, ring: seq<int>, i: int)
    requires FreeOk(ptr, size, ring) && 1 <= i < |ring|
    ensures ring[i] in ptr && ring[i] in size && ring[0] < ring[i] && ring[i] !in Removed(ring, i)
    ensures FreeOk(ptr[ring[i - 1] := ptr[ring[i]]], size, Removed(ring, i))
    ensures Lost(size, ring, size, Removed(ring, i), ring[i], size[ring[i]])
  {
    hide Gaps, Linked, InFree, Sized;
    SizedHas(size, ring);
    Ascending(size, ring, -1);
    RemoveLinks(ptr, ring, i);
    LinkedHas(ptr, ring);
    RemovedGapsOnly(size, ring, i);
    SizedHas(size, Removed(ring, i));
    forall u
      ensures InFree(size, Removed(ring, i), u) <==> InFree(size, ring, u) && !(ring[i] <= u < ring[i] + size[ring[i]])
      ensures ring[i] <= u < ring[i] + size[ring[i]] ==> InFree(size, ring, u)
    {
      WholeFree(size, ring, i, u);
    }
  }

  lemma LinkedHas(ptr: map<int, int>, ring: seq<int>)
    requires Linked(ptr, ring)
    ensures Has(ptr, ring)
  {
  }

  lemma WholeFree(size: map<int, int>, ring: seq<int>, i: int, u: int)
    requires Sized(size, ring) && Gaps(size, ring, -1) && 1 <= i < |ring| && Has(size, Removed(ring, i))
    ensures InFree(size, Removed(ring, i), u) <==> InFree(size, ring, u) && !(ring[i] <= u < ring[i] + size[ring[i]])
    ensures ring[i] <= u < ring[i] + size[ring[i]] ==> InFree(size, ring, u)
  {
    hide Gaps;
    var ring' := Removed(ring, i);
    RemoveFree(size, ring, i, u);
    if InFree(size, ring', u) {
      var j :| 1 <= j < |ring'| && ring'[j] <= u < ring'[j] + size[ring'[j]];
      RemovedAt(ring, i, j);
      if ring[i] <= u < ring[i] + size[ring[i]] {
        OneBlock(size, ring, i, if j < i then j else j + 1, u);
      }
    }
  }

  lemma RemovedGapsOnly(size: map<int, int>, ring: seq<int>, t: nat)
    requires Sized(size, ring) && Gaps(size, ring, -1) && 1 <= t < |ring|
    ensures Sized(size, Removed(ring, t)) && Gaps(size, Removed(ring, t), -1)
  {
    var ring' := Removed(ring, t);
    forall i {:trigger ring'[i]} | 0 <= i < |ring'|
      ensures ring'[i] == ring[if i < t then i else i + 1]
      ensures ring'[i] in size && (i > 0 ==> size[ring'[i]] > 0)
    {
      RemovedAt(ring, t, i);
      assert size[ring[if i < t then i else i + 1]] >= 0;
    }
    assert ring'[0] == ring[0];
  }

  /** The tail of block i becomes a block of its own. */
  lemma TakeTail(ptr: map<int, int>, size: map<int, int>, ring: seq<int>, i: int, n: int)
    requires FreeOk(ptr, size, ring) && 1 <= i < |ring| && 0 < n < size[ring[i]]
    ensures var a := ring[i] + size[ring[i]] - n;
            var size' := size[ring[i] := size[ring[i]] - n][a := n];
            && a !in ring && ring[0] < a && FreeOk(ptr, size', ring) && Lost(size, ring, size', ring, a, n)
  {
    hide Linked, Lost, Gaps, Sized;
    TailOutside(size, ring, i, n);
    TailGaps(size, ring, i, n);
    TailFree(size, ring, i, n);
  }

  lemma TailOutside(size: map<int, int>, ring: seq<int>, i: int, n: int)
    requires Sized(size, ring) && Gaps(size, ring, -1) && 1 <= i < |ring| && 0 < n < size[ring[i]]
    ensures ring[i] + size[ring[i]] - n !in ring && ring[0] < ring[i]
  {
    Ascending(size, ring, -1);
    forall j | 0 <= j < |ring|
      ensures ring[j] != ring[i] + size[ring[i]] - n
    {
      if j < i {
        assert ring[j] < ring[i];
      } else if j > i {
        assert ring[i] + size[ring[i]] < ring[j];
      }
    }
  }

  lemma TailGaps(size: map<int, int>, ring: seq<int>, i: int, n: int)
    requires Sized(size, ring) && Gaps(size, ring, -1) && 1 <= i < |ring| && 0 < n < size[ring[i]]
    requires ring[i] + size[ring[i]] - n !in ring
    ensures var size' := size[ring[i] := size[ring[i]] - n][ring[i] + size[ring[i]] - n := n];
            Sized(size', ring) && Gaps(size', ring, -1)
  {
    var size' := size[ring[i] := size[ring[i]] - n][ring[i] + size[ring[i]] - n := n];
    Ascending(size, ring, -1);
    forall j {:trigger ring[j]} | 0 <= j < |ring|
      ensures ring[j] in size' && size'[ring[j]] <= size[ring[j]] && (j > 0 ==> size'[ring[j]] > 0)
    {
      assert size[ring[j]] >= 0;
    }
  }

  lemma TailFree(size: map<int, int>, ring: seq<int>, i: int, n: int)
    requires Sized(size, ring) && Gaps(size, ring, -1) && 1 <= i < |ring| && 0 < n < size[ring[i]]
    requires ring[i] + size[ring[i]] - n !in ring
    ensures var a := ring[i] + size[ring[i]] - n;
            var size' := size[ring[i] := size[ring[i]] - n][a := n];
            Lost(size, ring, size', ring, a, n)
  {
    var p := ring[i];
    var a := p + size[p] - n;
    var size1 := size[p := size[p] - n];
    var size' := size1[a := n];
    Ascending(size, ring, -1);
    forall u
      ensures InFree(size', ring, u) <==> InFree(size, ring, u) && !(a <= u < a + n)
      ensures a <= u < a + n ==> InFree(size, ring, u)
    {
      ResizeFree(size, ring, i, size[p] - n, u);
      ResizeFree(size, ring, i, size[p], u);
      assert size[p := size[p]] == size;
      SameUnits(size1, size', ring, u);
      if InOther(size, ring, i, u) {
        var j :| 1 <= j < |ring| && j != i && ring[j] <= u < ring[j] + size[ring[j]];
        if p <= u < p + size[p] {
          OneBlock(size, ring, i, j, u);
        }
      }
    }
  }
}
