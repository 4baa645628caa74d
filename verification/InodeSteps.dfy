/** What the parts of bmap, readi, writei and itrunc do to names and bytes. */
module InodeSteps {
  import opened InodeLayout
  import opened InodeState

  const IPB := 8  // inodes per block

  /** A file with src laid over it from off on. */
  function Overwrite(c: seq<int>, off: nat, src: seq<int>): seq<int>
    requires off <= |c|
  {
    c[..off] + src + (if off + |src| < |c| then c[off + |src|..] else [])
  }

  /** What was written reads back, the rest is as it was, and the length is the larger
      of the old one and the end. */
  lemma OverwriteIs(c: seq<int>, off: nat, src: seq<int>)
    requires off <= |c|
    ensures var r := Overwrite(c, off, src);
            && |r| == (if off + |src| > |c| then off + |src| else |c|)
            && r[off..off + |src|] == src && r[..off] == c[..off]
            && (off + |src| <= |c| ==> r[off + |src|..] == c[off + |src|..])
  {
    var r := Overwrite(c, off, src);
    assert r[..off] == c[..off];
    assert r[off..off + |src|] == src;
  }

  function Min(a: int, b: int): int {
    if a < b then a else b
  }

  ghost function Interval(lo: int, hi: int): (r: set<int>)
    ensures forall m :: m in r <==> lo <= m < hi
    ensures |r| == if lo < hi then hi - lo else 0
    decreases hi - lo
  {
    if hi <= lo then {} else Interval(lo, hi - 1) + {hi - 1}
  }

  /** The blocks of the free map. */
  ghost function MapBlocks(g: Super): set<int> {
    Interval(g.bmapstart, g.bmapstart + (g.size - 1) / BPB + 1)
  }

  ghost function Indirect(st: State, ino: int): (r: set<int>)
    ensures |r| <= 1
  {
    if Ref(st, Place(ino, NDIRECT)) == 0 then {} else {Ref(st, Place(ino, NDIRECT))}
  }

  /** st' has every file's bytes, and every name, that st has; it may have more names. */
  ghost predicate Extends(st: State, st': State) {
    && |st'.inodes| == |st.inodes|
    && (forall i :: 0 <= i < |st.inodes| ==> st'.inodes[i].size == st.inodes[i].size)
    && (forall p :: Ref(st, p) != 0 ==> Ref(st', p) == Ref(st, p))
    && SameBytes(st, st')
  }

  /** st' names all that st names. */
  ghost predicate Grew(st: State, st': State) {
    && |st'.inodes| == |st.inodes|
    && (forall i :: 0 <= i < |st.inodes| ==> st'.inodes[i].size == st.inodes[i].size)
    && (forall p :: Ref(st, p) != 0 ==> Ref(st', p) == Ref(st, p))
  }

  /** The bytes of st' are those of st with data laid over file ino from off on. */
  ghost predicate Patched(st: State, st': State, ino: int, off: int, data: seq<int>) {
    forall i, k :: 0 <= k < MAXFILE * BSIZE ==>
      ByteAt(st', i, k) == if i == ino && off <= k < off + |data| then data[k - off] else ByteAt(st, i, k)
  }

  /** Every block of the file that meets [off, end) is there. */
  ghost predicate Backed(st: State, ino: int, off: int, end: int) {
    forall bn {:trigger Slot(bn)} ::
      off < end && off / BSIZE <= bn && bn * BSIZE < end ==> Ref(st, Place(ino, Slot(bn))) != 0
  }

  /** How many blocks [off, end) meets. */
  function Span(off: int, end: int): int {
    if end <= off then 0 else (end - 1) / BSIZE - off / BSIZE + 1
  }

  /** The blocks that the places [lo, hi) of an inode name. */
  ghost function RefSet(st: State, ino: int, lo: int, hi: int): (r: set<int>)
    ensures 0 !in r
    ensures forall q :: lo <= q < hi && Ref(st, Place(ino, q)) != 0 ==> Ref(st, Place(ino, q)) in r
    ensures forall c :: c in r ==> exists q :: lo <= q < hi && Ref(st, Place(ino, q)) == c
    decreases hi - lo
  {
    if hi <= lo then {}
    else RefSet(st, ino, lo, hi - 1) + (if Ref(st, Place(ino, hi - 1)) != 0 then {Ref(st, Place(ino, hi - 1))} else {})
  }

  /** st' is st with the places [lo, hi) of an inode emptied, their blocks freed, and
      the other files untouched. */
  ghost predicate Cut(g: Super, st: State, st': State, ino: int, lo: int, hi: int) {
    && |st'.inodes| == |st.inodes| && WellFormed(g, st')
    && (forall i :: 0 <= i < |st.inodes| ==> st'.inodes[i].size == st.inodes[i].size)
    && (forall p :: Ref(st', p) == if p.ino == ino && lo <= p.q < hi then 0 else Ref(st, p))
    && (forall c :: InUse(g, st'.disk, c) <==> InUse(g, st.disk, c) && c !in RefSet(st, ino, lo, hi))
    && (forall i, k :: i != ino && 0 <= k < MAXFILE * BSIZE ==> ByteAt(st', i, k) == ByteAt(st, i, k))
  }

  /** Part of the way through freeing what an indirect block names: the disk differs
      in the free map only. */
  ghost predicate Freed(g: Super, st: State, st': State, ino: int, j: int) {
    && st'.inodes == st.inodes && WellFormed(g, st') && |st'.disk| == |st.disk|
    && (forall b :: g.data <= b < |st.disk| ==> st'.disk[b] == st.disk[b])
    && (forall c :: InUse(g, st'.disk, c) <==> InUse(g, st.disk, c) && c !in RefSet(st, ino, NDIRECT + 1, NDIRECT + 1 + j))
  }

  // Allocating.

  lemma AttachedRef(st: State, st': State, p: Place, b: int)
    requires Attached(st, st', p, b)
    ensures Ref(st', p) == b && forall r :: r != p ==> Ref(st', r) == Ref(st, r)
  {
  }

  lemma ExtendsSelf(st: State)
    ensures Extends(st, st)
  {
  }

  lemma OrphanNotNamed(g: Super, st: State, b: int, p: Place)
    requires Inv(g, st, {b})
    ensures Ref(st, p) != b
  {
    assert !Named(st, b);
  }

  lemma AllocThenAttach(st0: State, st1: State, st2: State, p: Place, b: int)
    requires forall r :: Ref(st1, r) == Ref(st0, r)
    requires SameBytes(st0, st1) && SameBytes(st1, st2) && Attached(st1, st2, p, b)
    requires |st2.inodes| == |st0.inodes|
    requires forall i :: 0 <= i < |st0.inodes| ==> st2.inodes[i].size == st0.inodes[i].size
    ensures Extends(st0, st2) && Attached(st0, st2, p, b)
  {
    hide Ref, ByteAt;
  }

  lemma ExtendsTwice(st0: State, st1: State, st2: State)
    requires Extends(st0, st1) && Extends(st1, st2)
    ensures Extends(st0, st2)
  {
    hide Ref, ByteAt;
  }

  lemma ChunkPatches(g: Super, st0: State, st1: State, st2: State, ino: int, off: int, data: seq<int>, orphans: set<int>)
    requires Inv(g, st1, orphans) && Extends(st0, st1) && 0 <= ino < |st1.inodes|
    requires 0 <= off && off % BSIZE + |data| <= BSIZE && off + |data| <= MAXFILE * BSIZE && 0 < |data|
    requires Ref(st1, Place(ino, Slot(off / BSIZE))) != 0
    requires var a := Ref(st1, Place(ino, Slot(off / BSIZE)));
             0 < a < |st1.disk| && Full(st1.disk[a]) && st2 == DataPut(st1, a, off % BSIZE, data)
    requires forall p :: Ref(st2, p) == Ref(st1, p)
    ensures Grew(st0, st2) && Patched(st0, st2, ino, off, data)
  {
    hide Inv, Ref, ByteAt;
    forall i, k | 0 <= k < MAXFILE * BSIZE
      ensures ByteAt(st2, i, k) == if i == ino && off <= k < off + |data| then data[k - off] else ByteAt(st0, i, k)
    {
      DataPutBytes(g, st1, ino, off / BSIZE, off % BSIZE, data, orphans, i, k);
      assert off / BSIZE * BSIZE + off % BSIZE == off;
    }
  }

  lemma WrapIsTooLong(off: int, n: int)
    requires 0 <= off < WORD && 0 <= n < WORD
    ensures (off + n) % WORD < off <==> off + n >= WORD
  {
  }

  lemma PatchedNone(st: State, ino: int, off: int)
    ensures Patched(st, st, ino, off, []) && Grew(st, st) && Backed(st, ino, off, off) && Span(off, off) == 0
  {
  }

  lemma PatchedTwice(st0: State, st1: State, st2: State, ino: int, off: int, a: seq<int>, b: seq<int>)
    requires Patched(st0, st1, ino, off, a) && Patched(st1, st2, ino, off + |a|, b)
    ensures Patched(st0, st2, ino, off, a + b)
  {
    hide ByteAt;
  }

  lemma GrewTwice(st0: State, st1: State, st2: State, ino: int)
    requires Grew(st0, st1) && Grew(st1, st2) && 0 <= ino < |st0.inodes|
    ensures Grew(st0, st2) && st2.inodes[ino].size == st0.inodes[ino].size && |st2.inodes| == |st0.inodes|
  {
    hide Ref;
  }

  lemma BackedMore(st1: State, st2: State, ino: int, off: int, o: int, m: int)
    requires Backed(st1, ino, off, o) && Grew(st1, st2) && 0 <= off <= o && 0 < m <= BSIZE - o % BSIZE
    requires Ref(st2, Place(ino, Slot(o / BSIZE))) != 0
    ensures Backed(st2, ino, off, o + m)
  {
    hide Ref;
    forall bn {:trigger Slot(bn)} | off / BSIZE <= bn && bn * BSIZE < o + m
      ensures Ref(st2, Place(ino, Slot(bn))) != 0
    {
      if bn * BSIZE >= o || o == off {
        assert bn == o / BSIZE;
      }
    }
  }

  /** Within the size of a file without holes no block is missing. */
  lemma StaysWhole(st0: State, st1: State, ino: int, o: int, n: int)
    requires Grew(st0, st1) && 0 <= ino < |st0.inodes| && 0 <= o && 0 < n
    ensures NoHoles(st0, ino) && o + n <= st0.inodes[ino].size ==> Ref(st1, Place(ino, Slot(o / BSIZE))) != 0
  {
    hide Ref;
    assert o / BSIZE * BSIZE <= o;
  }

  lemma IndirectGrew(st1: State, st2: State, ino: int)
    requires Grew(st1, st2)
    ensures Indirect(st1, ino) <= Indirect(st2, ino)
  {
    hide Ref;
  }

  /** writei after tot bytes. */
  ghost predicate Progress(st0: State, st: State, ino: int, off: int, src: seq<int>, tot: int)
    requires 0 <= tot <= |src|
  {
    Grew(st0, st) && Patched(st0, st, ino, off, src[..tot]) && Backed(st, ino, off, off + tot)
  }

  /** Logged so far: what was logged before, some blocks of the map and the file, and
      at most n data blocks d. */
  ghost predicate Logs(logged0: set<int>, logged: set<int>, fixed: set<int>, d: set<int>, n: int) {
    logged <= logged0 + fixed + d && |d| <= n
  }

  /** Every block that changed has been passed to log_write, and of the inodes in
      memory only one has changed. */
  ghost predicate Covered(st: State, st': State, ino: int, logged: set<int>) {
    && |st'.disk| == |st.disk| && |st'.inodes| == |st.inodes|
    && (forall b :: 0 <= b < |st.disk| && st'.disk[b] != st.disk[b] ==> b in logged)
    && (forall i :: 0 <= i < |st.inodes| && i != ino ==> st'.inodes[i] == st.inodes[i])
  }

  lemma CoveredNone(st: State, ino: int, logged: set<int>)
    ensures Covered(st, st, ino, logged)
  {
  }

  lemma CoveredTwice(st0: State, st1: State, st2: State, ino: int, l1: set<int>, l2: set<int>)
    requires Covered(st0, st1, ino, l1) && Covered(st1, st2, ino, l2) && l1 <= l2
    ensures Covered(st0, st2, ino, l2)
  {
  }

  lemma CoveredPut(st: State, st': State, a: int, ino: int, logged: set<int>)
    requires 0 <= a < |st.disk| == |st'.disk| && a in logged && st' == State(st.disk[a := st'.disk[a]], st.inodes)
    ensures Covered(st, st', ino, logged)
  {
  }

  lemma CoveredAlloc(g: Super, st: State, b: int, logged: set<int>)
    requires WellFormed(g, st) && g.data <= b < g.size && {g.bmapstart + b / BPB, b} <= logged
    ensures forall i :: Covered(st, Allocated(g, st, b), i, logged)
  {
  }

  lemma CoveredInode(st: State, st': State, ino: int, logged: set<int>)
    requires 0 <= ino < |st.inodes| == |st'.inodes| && st' == State(st.disk, st.inodes[ino := st'.inodes[ino]])
    ensures Covered(st, st', ino, logged)
  {
  }

  lemma LogsNone(logged: set<int>, fixed: set<int>)
    ensures Logs(logged, logged, fixed, {}, 0)
  {
  }

  lemma LogsMore(logged0: set<int>, logged1: set<int>, logged: set<int>, maps: set<int>, ind1: set<int>, ind: set<int>,
                 d: set<int>, addr: int, n: int)
    requires Logs(logged0, logged1, maps + ind1, d, n) && ind1 <= ind && logged <= logged1 + maps + {addr} + ind
    ensures Logs(logged0, logged, maps + ind, d + {addr}, n + 1)
  {
  }

  lemma LogsDone(logged0: set<int>, logged: set<int>, maps: set<int>, ind: set<int>, d: set<int>, n: int)
    requires Logs(logged0, logged, maps + ind, d, n)
    ensures logged <= logged0 + maps + ind + d && |d| <= n
  {
  }

  lemma ProgressNone(st: State, ino: int, off: int, src: seq<int>)
    ensures Progress(st, st, ino, off, src, 0) && Span(off, off) == 0
  {
    hide Grew, Patched, Backed;
    PatchedNone(st, ino, off);
  }

  lemma ProgressWhole(st0: State, st1: State, ino: int, off: int, src: seq<int>, tot: int)
    requires 0 <= tot < |src| && Progress(st0, st1, ino, off, src, tot) && 0 <= ino < |st0.inodes| && 0 <= off
    ensures NoHoles(st0, ino) && off + |src| <= st0.inodes[ino].size ==>
              Ref(st1, Place(ino, Slot((off + tot) / BSIZE))) != 0
  {
    hide Grew, Patched, Backed, NoHoles;
    StaysWhole(st0, st1, ino, off + tot, |src| - tot);
  }

  lemma ProgressMore(st0: State, st1: State, st2: State, ino: int, off: int, src: seq<int>, tot: int, m: int)
    requires 0 <= tot && 0 < m && tot + m <= |src| && Progress(st0, st1, ino, off, src, tot)
    requires 0 <= off && m <= BSIZE - (off + tot) % BSIZE && 0 <= ino < |st1.inodes|
    requires Grew(st1, st2) && Patched(st1, st2, ino, off + tot, src[tot..tot + m])
    requires Ref(st2, Place(ino, Slot((off + tot) / BSIZE))) != 0
    ensures Progress(st0, st2, ino, off, src, tot + m) && |st2.inodes| == |st1.inodes|
    ensures Indirect(st1, ino) <= Indirect(st2, ino)
  {
    hide Patched, Backed, Ref;
    assert src[..tot + m] == src[..tot] + src[tot..tot + m];
    PatchedTwice(st0, st1, st2, ino, off, src[..tot], src[tot..tot + m]);
    GrewTwice(st0, st1, st2, ino);
    BackedMore(st1, st2, ino, off, off + tot, m);
    IndirectGrew(st1, st2, ino);
  }

  lemma ProgressDone(st0: State, st: State, ino: int, off: int, src: seq<int>)
    requires Progress(st0, st, ino, off, src, |src|)
    ensures Grew(st0, st) && Patched(st0, st, ino, off, src) && Backed(st, ino, off, off + |src|)
  {
    hide Grew, Patched, Backed;
    assert src[..|src|] == src;
  }

  lemma ChunkEnds(left: int, o: int)
    requires 0 < left && 0 <= o
    ensures var m := Min(left, BSIZE - o % BSIZE);
            0 < m <= left && o % BSIZE + m <= BSIZE && (m < left ==> (o + m) % BSIZE == 0)
  {
  }

  lemma SpanMore(off: int, o: int, m: int)
    requires 0 <= off <= o && 0 < m <= BSIZE - o % BSIZE && (o > off ==> o % BSIZE == 0)
    ensures Span(off, o + m) == Span(off, o) + 1
  {
  }

  /** The size is not part of the names or the bytes. */
  lemma SizePut(g: Super, st: State, ino: int, size: int, orphans: set<int>)
    requires Inv(g, st, orphans) && 0 <= ino < |st.inodes| && 0 <= size <= MAXFILE * BSIZE
    ensures var st' := st.(inodes := st.inodes[ino := st.inodes[ino].(size := size)]);
            && Inv(g, st', orphans) && (forall p :: Ref(st', p) == Ref(st, p)) && SameBytes(st, st')
            && Indirect(st', ino) == Indirect(st, ino)
  {
    hide WordAt, InUse;
    var st' := st.(inodes := st.inodes[ino := st.inodes[ino].(size := size)]);
    DataPutInv(g, st, st', orphans);
  }

  lemma WrittenContents(st0: State, st2: State, st3: State, ino: int, off: int, src: seq<int>)
    requires Grew(st0, st2) && Patched(st0, st2, ino, off, src) && SameBytes(st2, st3)
    requires 0 <= ino < |st0.inodes| && 0 <= off <= st0.inodes[ino].size && off + |src| <= MAXFILE * BSIZE
    requires forall i :: 0 <= i < |st0.inodes| ==> 0 <= st0.inodes[i].size <= MAXFILE * BSIZE
    requires |st3.inodes| == |st2.inodes|
    requires forall i :: 0 <= i < |st2.inodes| && i != ino ==> st3.inodes[i].size == st2.inodes[i].size
    requires st3.inodes[ino].size == if |src| > 0 && off + |src| > st2.inodes[ino].size then off + |src| else st2.inodes[ino].size
    ensures Content(st3, ino) == Overwrite(Content(st0, ino), off, src)
    ensures forall i :: 0 <= i < |st0.inodes| && i != ino ==> Content(st3, i) == Content(st0, i)
  {
    hide ByteAt;
    forall i | 0 <= i < |st0.inodes| && i != ino
      ensures Content(st3, i) == Content(st0, i)
    {
    }
  }

  lemma WrittenHoles(st0: State, st2: State, st3: State, ino: int, off: int, src: seq<int>)
    requires Grew(st0, st2) && Backed(st2, ino, off, off + |src|) && (forall p :: Ref(st3, p) == Ref(st2, p))
    requires 0 <= ino < |st0.inodes| && 0 <= off <= st0.inodes[ino].size && |st3.inodes| == |st2.inodes|
    requires st3.inodes[ino].size <= off + |src| || st3.inodes[ino].size == st0.inodes[ino].size
    ensures NoHoles(st0, ino) ==> NoHoles(st3, ino)
  {
    hide Ref;
    if NoHoles(st0, ino) {
      forall bn {:trigger Slot(bn)} | 0 <= bn && bn * BSIZE < st3.inodes[ino].size
        ensures Ref(st3, Place(ino, Slot(bn))) != 0
      {
        if bn * BSIZE >= st0.inodes[ino].size {
          assert off / BSIZE <= bn;
        }
      }
    }
  }

  lemma LogCount(g: Super, logged0: set<int>, logged: set<int>, d: set<int>, ind: set<int>, iblock: int, span: int)
    requires logged <= logged0 + MapBlocks(g) + ind + d + {iblock} && |d| <= span && |ind| <= 1
    ensures g.size <= BPB && 0 < g.size ==> |logged - logged0| <= span + 3
  {
    if g.size <= BPB && 0 < g.size {
      var all := MapBlocks(g) + ind + d + {iblock};
      assert |MapBlocks(g)| == 1;
      SubsetSize(logged - logged0, all);
    }
  }

  lemma {:induction false} SubsetSize(a: set<int>, b: set<int>)
    requires a <= b
    ensures |a| <= |b|
  {
    assert b == a + (b - a);
  }

  // Reading.

  lemma BlockThere(st: State, ino: int, o: int)
    requires 0 <= ino < |st.inodes| && 0 <= o < st.inodes[ino].size
    ensures NoHoles(st, ino) ==> Ref(st, Place(ino, Slot(o / BSIZE))) != 0
  {
    hide Ref;
    assert o / BSIZE * BSIZE <= o;
  }

  lemma ExtendsShape(st: State, st': State)
    requires Extends(st, st')
    ensures |st'.inodes| == |st.inodes| && forall i :: 0 <= i < |st.inodes| ==> st'.inodes[i].size == st.inodes[i].size
  {
    hide Ref, ByteAt;
  }

  lemma NamedIsBlock(g: Super, st: State, ino: int, bn: int)
    requires Inv(g, st, {}) && Ref(st, Place(ino, Slot(bn))) != 0
    ensures var a := Ref(st, Place(ino, Slot(bn))); 0 < a < |st.disk| && Full(st.disk[a])
  {
    hide InUse;
  }

  function Bytes(st: State, ino: int, off: int, n: nat): seq<int> {
    seq(n, k => ByteAt(st, ino, off + k))
  }

  lemma ChunkBytes(st0: State, st: State, ino: int, o: int, m: int)
    requires Extends(st0, st) && 0 <= o && 0 < m && o % BSIZE + m <= BSIZE && o + m <= MAXFILE * BSIZE
    requires var a := Ref(st, Place(ino, Slot(o / BSIZE))); 0 < a < |st.disk| && Full(st.disk[a])
    ensures st.disk[Ref(st, Place(ino, Slot(o / BSIZE)))].bytes[o % BSIZE..o % BSIZE + m] == Bytes(st0, ino, o, m)
  {
    hide Ref;
    var b := st.disk[Ref(st, Place(ino, Slot(o / BSIZE)))];
    forall k | 0 <= k < m
      ensures b.bytes[o % BSIZE..o % BSIZE + m][k] == Bytes(st0, ino, o, m)[k]
    {
      assert (o + k) / BSIZE == o / BSIZE && (o + k) % BSIZE == o % BSIZE + k;
      assert ByteAt(st, ino, o + k) == ByteAt(st0, ino, o + k);
    }
  }

  lemma BytesNone(st: State, ino: int, off: int)
    ensures Bytes(st, ino, off, 0) == []
  {
  }

  lemma BytesMore(st: State, ino: int, off: int, tot: nat, m: nat)
    ensures Bytes(st, ino, off, tot) + Bytes(st, ino, off + tot, m) == Bytes(st, ino, off, tot + m)
  {
    hide ByteAt;
  }

  lemma BytesAreContent(st: State, ino: int, off: nat, n: nat)
    requires 0 <= ino < |st.inodes| && off + n <= st.inodes[ino].size
    ensures Bytes(st, ino, off, n) == Content(st, ino)[off..off + n]
  {
    hide ByteAt;
  }

  lemma ExtendsContents(st: State, st': State)
    requires Extends(st, st')
    requires forall i :: 0 <= i < |st.inodes| ==> 0 <= st.inodes[i].size <= MAXFILE * BSIZE
    ensures forall i :: 0 <= i < |st.inodes| ==> 0 <= st'.inodes[i].size && Content(st', i) == Content(st, i)
  {
    hide Ref, ByteAt;
  }

  // Truncating.

  lemma DirectRef(g: Super, st: State, ino: int, q: int)
    requires Inv(g, st, {}) && 0 <= ino < |st.inodes| && 0 <= q <= NDIRECT
    ensures Ref(st, Place(ino, q)) == st.inodes[ino].addrs[q]
    ensures st.inodes[ino].addrs[q] != 0 ==>
              InUse(g, st.disk, st.inodes[ino].addrs[q]) && g.data <= st.inodes[ino].addrs[q] < g.size
  {
    hide InUse;
    assert Ref(st, Place(ino, q)) == st.inodes[ino].addrs[q];
  }

  lemma CutNone(g: Super, st: State, ino: int, q: int)
    requires WellFormed(g, st)
    ensures Cut(g, st, st, ino, q, q)
  {
    hide Ref, InUse, ByteAt;
  }

  lemma CutEmpty(g: Super, st: State, ino: int, q: int)
    requires WellFormed(g, st) && Ref(st, Place(ino, q)) == 0
    ensures Cut(g, st, st, ino, q, q + 1)
  {
    hide Ref, InUse, ByteAt;
    forall p: Place | p.ino == ino && q <= p.q < q + 1
      ensures Ref(st, p) == 0
    {
      assert p == Place(ino, q);
    }
  }

  lemma FreeUse(g: Super, st: State, b: int)
    requires WellFormed(g, st) && 0 <= b < g.size
    ensures forall c :: InUse(g, SetUse(g, st.disk, b, false), c) <==> InUse(g, st.disk, c) && c != b
    ensures forall c :: g.data <= c < g.size ==> SetUse(g, st.disk, b, false)[c] == st.disk[c]
  {
    forall c
      ensures InUse(g, SetUse(g, st.disk, b, false), c) <==> InUse(g, st.disk, c) && c != b
    {
      if 0 <= c < g.size {
        InUseSet(g, st.disk, b, false, c);
      }
    }
  }

  /** Where two disks agree above the free map, names and bytes agree. */
  lemma SameAbove(g: Super, st: State, st': State, p: Place)
    requires Inv(g, st, {}) && WellFormed(g, st')
    requires |st'.inodes| == |st.inodes| && 0 <= p.ino < |st.inodes| ==> st'.inodes[p.ino].addrs == st.inodes[p.ino].addrs
    requires |st'.inodes| == |st.inodes|
    requires forall b :: g.data <= b < |st.disk| ==> st'.disk[b] == st.disk[b]
    ensures Ref(st', p) == Ref(st, p)
  {
    hide InUse;
    if IsPlace(st, p) {
      assert Ref(st, Place(p.ino, NDIRECT)) == st.inodes[p.ino].addrs[NDIRECT];
    }
  }

  lemma DirectCut(g: Super, st: State, ino: int, q: int)
    requires Inv(g, st, {}) && 0 <= ino < |st.inodes| && 0 <= q < NDIRECT && st.inodes[ino].addrs[q] != 0
    requires 0 <= st.inodes[ino].addrs[q] < g.size
    ensures var b := st.inodes[ino].addrs[q];
            Cut(g, st, AddrPut(st.(disk := SetUse(g, st.disk, b, false)), ino, q, 0), ino, q, q + 1)
  {
    hide InUse, ByteAt, SetUse, NoLeak, OrphansOk;
    var b := st.inodes[ino].addrs[q];
    var st1 := st.(disk := SetUse(g, st.disk, b, false));
    var st' := AddrPut(st1, ino, q, 0);
    FreeUse(g, st, b);
    SetUseFull(g, st, b);
    assert Ref(st, Place(ino, q)) == b;
    assert RefSet(st, ino, q, q + 1) == {b};
    forall p
      ensures Ref(st', p) == if p.ino == ino && q <= p.q < q + 1 then 0 else Ref(st, p)
    {
      SameAbove(g, st, st1, p);
    }
    forall i, k | i != ino && 0 <= k < MAXFILE * BSIZE
      ensures ByteAt(st', i, k) == ByteAt(st, i, k)
    {
      OtherByte(g, st, st', i, k);
    }
  }

  lemma SetUseFull(g: Super, st: State, b: int)
    requires WellFormed(g, st) && 0 <= b < g.size
    ensures WellFormed(g, st.(disk := SetUse(g, st.disk, b, false)))
  {
  }

  lemma OtherByte(g: Super, st: State, st': State, i: int, k: int)
    requires Inv(g, st, {}) && WellFormed(g, st')
    requires Ref(st', Place(i, Slot(k / BSIZE))) == Ref(st, Place(i, Slot(k / BSIZE)))
    requires forall b :: g.data <= b < |st.disk| ==> st'.disk[b] == st.disk[b]
    ensures ByteAt(st', i, k) == ByteAt(st, i, k)
  {
    hide Ref, InUse;
  }

  lemma CutKeepsInv(g: Super, st: State, st': State, ino: int, lo: int, hi: int)
    requires Inv(g, st, {}) && Cut(g, st, st', ino, lo, hi)
    ensures Inv(g, st', {})
  {
    hide Ref, InUse, ByteAt, RefSet;
    forall p | Ref(st', p) != 0
      ensures g.data <= Ref(st', p) < g.size && InUse(g, st'.disk, Ref(st', p))
    {
      CutKeepsOthers(st, ino, lo, hi, p);
    }
    forall b | 0 <= b < g.data
      ensures InUse(g, st'.disk, b)
    {
      if b in RefSet(st, ino, lo, hi) {
        RefSetHas(st, ino, lo, hi, b);
      }
    }
    forall b | g.data <= b < g.size && InUse(g, st'.disk, b)
      ensures Named(st', b)
    {
      var p :| Ref(st, p) == b;
      CutNames(g, st, ino, lo, hi, p, b);
      assert Ref(st', p) == b;
    }
  }

  lemma RefSetHas(st: State, ino: int, lo: int, hi: int, b: int)
    requires b in RefSet(st, ino, lo, hi)
    ensures b != 0 && exists q :: lo <= q < hi && Ref(st, Place(ino, q)) == b
  {
    hide Ref;
  }

  lemma CutKeepsOthers(st: State, ino: int, lo: int, hi: int, p: Place)
    requires OneOwner(st) && Ref(st, p) != 0 && !(p.ino == ino && lo <= p.q < hi)
    ensures Ref(st, p) !in RefSet(st, ino, lo, hi)
  {
    hide Ref;
  }

  lemma CutNames(g: Super, st: State, ino: int, lo: int, hi: int, p: Place, b: int)
    requires b !in RefSet(st, ino, lo, hi) && Ref(st, p) == b && b >= g.data && Sane(g)
    ensures !(p.ino == ino && lo <= p.q < hi)
  {
    hide Ref;
    assert p == Place(p.ino, p.q);
  }

  lemma CutTwice(g: Super, st0: State, st1: State, st2: State, ino: int, lo: int, mid: int, hi: int)
    requires Cut(g, st0, st1, ino, lo, mid) && Cut(g, st1, st2, ino, mid, hi) && lo <= mid <= hi
    ensures Cut(g, st0, st2, ino, lo, hi)
  {
    hide Ref, InUse, ByteAt, WellFormed;
    RefSetSplit(st0, st1, ino, lo, mid, hi);
  }

  lemma RefSetSplit(st0: State, st1: State, ino: int, lo: int, mid: int, hi: int)
    requires lo <= mid <= hi
    requires forall q :: mid <= q < hi ==> Ref(st1, Place(ino, q)) == Ref(st0, Place(ino, q))
    ensures RefSet(st0, ino, lo, hi) == RefSet(st0, ino, lo, mid) + RefSet(st1, ino, mid, hi)
  {
    hide Ref;
  }

  /** With every place empty and the size 0, the file is empty and its blocks free. */
  lemma CutAll(g: Super, st0: State, st2: State, st3: State, ino: int)
    requires Cut(g, st0, st2, ino, 0, PLACES) && 0 <= ino < |st0.inodes|
    requires forall i :: 0 <= i < |st0.inodes| ==> 0 <= st0.inodes[i].size <= MAXFILE * BSIZE
    requires forall p :: Ref(st3, p) == Ref(st2, p)
    requires SameBytes(st2, st3) && st3.inodes == st2.inodes[ino := st2.inodes[ino].(size := 0)] && st3.disk == st2.disk
    ensures forall q :: Ref(st3, Place(ino, q)) == 0
    ensures forall p: Place :: p.ino != ino ==> Ref(st3, p) == Ref(st0, p)
    ensures forall c :: InUse(g, st3.disk, c) <==> InUse(g, st0.disk, c) && c !in RefSet(st0, ino, 0, PLACES)
    ensures forall i :: 0 <= i < |st0.inodes| && i != ino ==> Content(st3, i) == Content(st0, i)
  {
    hide InUse, ByteAt, RefSet, WordAt;
    forall q
      ensures Ref(st3, Place(ino, q)) == 0
    {
      assert Ref(st2, Place(ino, q)) == Ref(st3, Place(ino, q));
    }
  }

  lemma NoIndirect(g: Super, st: State, ino: int)
    requires WellFormed(g, st) && 0 <= ino < |st.inodes| && st.inodes[ino].addrs[NDIRECT] == 0
    ensures Cut(g, st, st, ino, NDIRECT, PLACES)
  {
    hide InUse, ByteAt;
    forall p: Place | p.ino == ino && NDIRECT <= p.q < PLACES
      ensures Ref(st, p) == 0
    {
    }
    assert RefSet(st, ino, NDIRECT, PLACES) == {};
  }

  lemma FreedNone(g: Super, st: State, ino: int)
    requires WellFormed(g, st)
    ensures Freed(g, st, st, ino, 0)
  {
    hide InUse, Ref;
  }

  /** The next word of the indirect block is what it was, and its block is still
      marked in use. */
  lemma FreedWord(g: Super, st: State, st': State, ino: int, j: int)
    requires Inv(g, st, {}) && Freed(g, st, st', ino, j) && 0 <= ino < |st.inodes| && 0 <= j < NINDIRECT
    ensures var w := WordAt(st'.disk, st.inodes[ino].addrs[NDIRECT], j);
            w == Ref(st, Place(ino, NDIRECT + 1 + j)) && (w != 0 ==> InUse(g, st'.disk, w) && 0 <= w < g.size)
    ensures WellFormed(g, st')
  {
    hide InUse, RefSet;
    DirectRef(g, st, ino, NDIRECT);
    var p := Place(ino, NDIRECT + 1 + j);
    SameAbove(g, st, st', p);
    assert Ref(st', p) == WordAt(st'.disk, st.inodes[ino].addrs[NDIRECT], j);
    if Ref(st, p) != 0 {
      CutKeepsOthers(st, ino, NDIRECT + 1, NDIRECT + 1 + j, p);
    }
  }

  lemma FreedMore(g: Super, st: State, st1: State, st2: State, ino: int, j: int)
    requires Freed(g, st, st1, ino, j) && WellFormed(g, st) && st2.inodes == st1.inodes && 0 <= j
    requires var w := Ref(st, Place(ino, NDIRECT + 1 + j));
             if w == 0 then st2.disk == st1.disk else 0 <= w < g.size && st2.disk == SetUse(g, st1.disk, w, false)
    ensures Freed(g, st, st2, ino, j + 1)
  {
    hide InUse, Ref, SetUse;
    var w := Ref(st, Place(ino, NDIRECT + 1 + j));
    if w != 0 {
      FreeUse(g, st1, w);
      SetUseFull(g, st1, w);
      assert st2 == st1.(disk := SetUse(g, st1.disk, w, false));
    }
  }

  lemma FreedSlot(g: Super, st: State, st': State, ino: int)
    requires Inv(g, st, {}) && Freed(g, st, st', ino, NINDIRECT) && 0 <= ino < |st.inodes|
    requires st.inodes[ino].addrs[NDIRECT] != 0
    ensures InUse(g, st'.disk, st.inodes[ino].addrs[NDIRECT]) && WellFormed(g, st')
  {
    hide InUse, RefSet;
    DirectRef(g, st, ino, NDIRECT);
    CutKeepsOthers(st, ino, NDIRECT + 1, PLACES, Place(ino, NDIRECT));
  }

  lemma FreedAll(g: Super, st: State, st2: State, ino: int)
    requires Inv(g, st, {}) && Freed(g, st, st2, ino, NINDIRECT) && 0 <= ino < |st.inodes|
    requires 0 < st.inodes[ino].addrs[NDIRECT] < g.size
    ensures var a := st.inodes[ino].addrs[NDIRECT];
            Cut(g, st, AddrPut(st2.(disk := SetUse(g, st2.disk, a, false)), ino, NDIRECT, 0), ino, NDIRECT, PLACES)
  {
    hide InUse, ByteAt, SetUse, NoLeak, OrphansOk, Owned, OneOwner, MetaInUse, RefSet;
    var a := st.inodes[ino].addrs[NDIRECT];
    var st3 := st2.(disk := SetUse(g, st2.disk, a, false));
    var st' := AddrPut(st3, ino, NDIRECT, 0);
    FreeUse(g, st2, a);
    SetUseFull(g, st2, a);
    RefSetFirst(st, ino, NDIRECT, PLACES);
    forall p
      ensures Ref(st', p) == if p.ino == ino && NDIRECT <= p.q < PLACES then 0 else Ref(st, p)
    {
      SameAbove(g, st, st3, p);
    }
    forall i, k | i != ino && 0 <= k < MAXFILE * BSIZE
      ensures ByteAt(st', i, k) == ByteAt(st, i, k)
    {
      OtherByte(g, st, st', i, k);
    }
  }

  lemma RefSetFirst(st: State, ino: int, lo: int, hi: int)
    requires lo < hi
    ensures RefSet(st, ino, lo, hi)
         == RefSet(st, ino, lo + 1, hi) + (if Ref(st, Place(ino, lo)) != 0 then {Ref(st, Place(ino, lo))} else {})
  {
    hide Ref;
  }
}
