/** Who owns which block. The state is the disk and the inodes; the inodes are
    records here, not encoded in blocks. */
module InodeState {
  import opened InodeLayout

  /** What the code knows of the layout: blocks below `data` hold the boot block, the
      super block, the log, the inodes and the free map. */
  datatype Super = Super(size: int, inodestart: int, bmapstart: int, data: int)

  predicate Sane(g: Super) {
    && 0 < g.inodestart <= g.bmapstart && g.data <= g.size < WORD
    && g.bmapstart + (g.size - 1) / BPB < g.data
  }

  /** addrs has the direct blocks and, last, the indirect block. */
  datatype Inode = Inode(size: int, addrs: seq<int>)

  datatype State = State(disk: seq<Block>, inodes: seq<Inode>)

  ghost predicate WellFormed(g: Super, st: State) {
    && Sane(g) && |st.disk| == g.size
    && (forall b :: 0 <= b < |st.disk| ==> Full(st.disk[b]))
    && (forall i :: 0 <= i < |st.inodes| ==> |st.inodes[i].addrs| == NDIRECT + 1 && 0 <= st.inodes[i].size <= MAXFILE * BSIZE)
  }

  /** A place where an inode can name a block: its direct slots, then the indirect
      slot, then the words of the indirect block. */
  datatype Place = Place(ino: int, q: int)

  const PLACES := NDIRECT + 1 + NINDIRECT

  predicate IsPlace(st: State, p: Place) {
    0 <= p.ino < |st.inodes| && |st.inodes[p.ino].addrs| == NDIRECT + 1 && 0 <= p.q < PLACES
  }

  function WordAt(disk: seq<Block>, a: int, j: int): int
    requires 0 <= j < NINDIRECT
  {
    if 0 < a < |disk| && Full(disk[a]) then Word(disk[a], j) else 0
  }

  /** The block number at a place; 0 for none. */
  function Ref(st: State, p: Place): int {
    if !IsPlace(st, p) then 0
    else if p.q <= NDIRECT then st.inodes[p.ino].addrs[p.q]
    else WordAt(st.disk, st.inodes[p.ino].addrs[NDIRECT], p.q - NDIRECT - 1)
  }

  /** The free-map bit of block b. */
  predicate InUse(g: Super, disk: seq<Block>, b: int) {
    && 0 <= b < g.size && 0 <= g.bmapstart + b / BPB < |disk| && Full(disk[g.bmapstart + b / BPB])
    && MapBit(disk[g.bmapstart + b / BPB], b % BPB)
  }

  // The invariant. `orphans` are blocks just allocated that no place names yet.

  ghost predicate Owned(g: Super, st: State) {
    forall p :: Ref(st, p) != 0 ==> g.data <= Ref(st, p) < g.size && InUse(g, st.disk, Ref(st, p))
  }

  ghost predicate OneOwner(st: State) {
    forall p, r :: Ref(st, p) != 0 && Ref(st, p) == Ref(st, r) ==> p == r
  }

  ghost predicate MetaInUse(g: Super, disk: seq<Block>) {
    forall b :: 0 <= b < g.data ==> InUse(g, disk, b)
  }

  ghost predicate Named(st: State, b: int) {
    exists p :: Ref(st, p) == b
  }

  ghost predicate NoLeak(g: Super, st: State, orphans: set<int>) {
    forall b :: g.data <= b < g.size && InUse(g, st.disk, b) ==> b in orphans || Named(st, b)
  }

  ghost predicate OrphansOk(g: Super, st: State, orphans: set<int>) {
    forall b :: b in orphans ==> g.data <= b < g.size && InUse(g, st.disk, b) && !Named(st, b)
  }

  ghost predicate Inv(g: Super, st: State, orphans: set<int>) {
    && WellFormed(g, st) && Owned(g, st) && OneOwner(st) && MetaInUse(g, st.disk)
    && NoLeak(g, st, orphans) && OrphansOk(g, st, orphans)
  }

  // Contents.

  function Slot(bn: int): int {
    if bn < NDIRECT then bn else bn + 1
  }

  /** Byte k of a file, beyond its size too; 0 in a hole. */
  function ByteAt(st: State, ino: int, k: int): int
  {
    var a := Ref(st, Place(ino, Slot(k / BSIZE)));
    if 0 < a < |st.disk| && Full(st.disk[a]) then st.disk[a].bytes[k % BSIZE] else 0
  }

  ghost predicate SameBytes(st: State, st': State) {
    forall i, k :: 0 <= k < MAXFILE * BSIZE ==> ByteAt(st', i, k) == ByteAt(st, i, k)
  }

  function Content(st: State, ino: int): seq<int>
    requires 0 <= ino < |st.inodes| && 0 <= st.inodes[ino].size
  {
    seq(st.inodes[ino].size, k => ByteAt(st, ino, k))
  }

  /** Every block below the size is there. */
  ghost predicate NoHoles(st: State, ino: int)
    requires 0 <= ino < |st.inodes|
  {
    forall bn {:trigger Slot(bn)} :: 0 <= bn && bn * BSIZE < st.inodes[ino].size ==> Ref(st, Place(ino, Slot(bn))) != 0
  }

  // Changing the free map and fresh blocks.

  function SetUse(g: Super, disk: seq<Block>, b: int, on: bool): seq<Block>
    requires Sane(g) && 0 <= b < g.size == |disk| && Full(disk[g.bmapstart + b / BPB])
  {
    var m := g.bmapstart + b / BPB;
    disk[m := PutBit(disk[m], b % BPB, on)]
  }

  lemma InUseSet(g: Super, disk: seq<Block>, b: int, on: bool, c: int)
    requires Sane(g) && 0 <= b < g.size == |disk| && 0 <= c < g.size
    requires forall i :: 0 <= i < |disk| ==> Full(disk[i])
    ensures InUse(g, SetUse(g, disk, b, on), c) == if c == b then on else InUse(g, disk, c)
  {
    if c / BPB == b / BPB {
      MapBitPut(disk[g.bmapstart + b / BPB], b % BPB, on, c % BPB);
      assert c == b <==> c % BPB == b % BPB;
    }
  }

  /** Two disks that agree on every block that a place names have the same names and
      the same bytes. */
  lemma SameNamed(g: Super, st: State, st': State)
    requires Owned(g, st) && |st'.disk| == |st.disk| && st'.inodes == st.inodes
    requires forall p {:trigger Ref(st, p)} :: 0 < Ref(st, p) < |st.disk| ==> st'.disk[Ref(st, p)] == st.disk[Ref(st, p)]
    ensures forall p :: Ref(st', p) == Ref(st, p)
    ensures SameBytes(st, st')
  {
    forall p
      ensures Ref(st', p) == Ref(st, p)
    {
      if IsPlace(st, p) {
        assert Ref(st, Place(p.ino, NDIRECT)) == st.inodes[p.ino].addrs[NDIRECT];
      }
    }
  }

  function Allocated(g: Super, st: State, b: int): State
    requires Sane(g) && 0 <= b < g.size == |st.disk| && Full(st.disk[g.bmapstart + b / BPB])
  {
    st.(disk := SetUse(g, st.disk, b, true)[b := Zeroed()])
  }

  lemma AllocatedUse(g: Super, st: State, b: int, c: int)
    requires WellFormed(g, st) && g.data <= b < g.size && 0 <= c < g.size
    ensures InUse(g, Allocated(g, st, b).disk, c) == (c == b || InUse(g, st.disk, c))
  {
    InUseSet(g, st.disk, b, true, c);
    assert g.bmapstart + c / BPB < g.data;
  }

  lemma AllocatedSame(g: Super, st: State, b: int, orphans: set<int>)
    requires Inv(g, st, orphans) && g.data <= b < g.size && !InUse(g, st.disk, b)
    ensures WellFormed(g, Allocated(g, st, b))
    ensures forall p :: Ref(Allocated(g, st, b), p) == Ref(st, p)
    ensures SameBytes(st, Allocated(g, st, b))
  {
    SameNamed(g, st, Allocated(g, st, b));
  }

  /** Marking a free block and zeroing it changes no file. */
  lemma AllocateKeepsInv(g: Super, st: State, b: int, orphans: set<int>)
    requires Inv(g, st, orphans) && g.data <= b < g.size && !InUse(g, st.disk, b)
    ensures Inv(g, Allocated(g, st, b), orphans + {b})
  {
    hide InUse, Allocated, SameBytes;
    AllocatedSame(g, st, b, orphans);
    var st' := Allocated(g, st, b);
    forall c | 0 <= c < g.size
      ensures InUse(g, st'.disk, c) == (c == b || InUse(g, st.disk, c))
    {
      AllocatedUse(g, st, b, c);
    }
    forall c
      ensures Named(st', c) == Named(st, c)
    {
      NamedSame(st, st', c);
    }
  }

  lemma NamedSame(st: State, st': State, c: int)
    requires forall p :: Ref(st', p) == Ref(st, p)
    ensures Named(st', c) == Named(st, c)
  {
    if Named(st, c) {
      var p :| Ref(st, p) == c;
      assert Ref(st', p) == c;
    }
    if Named(st', c) {
      var p :| Ref(st', p) == c;
      assert Ref(st, p) == c;
    }
  }

  // Giving an orphan a place.

  /** The place p, empty before, names b; the rest is as it was. */
  ghost predicate Attached(st: State, st': State, p: Place, b: int) {
    Ref(st, p) == 0 && Ref(st', p) == b && forall r :: r != p ==> Ref(st', r) == Ref(st, r)
  }

  lemma AttachedKeepsInv(g: Super, st: State, st': State, p: Place, b: int, orphans: set<int>)
    requires Inv(g, st, orphans) && b in orphans && Attached(st, st', p, b) && WellFormed(g, st')
    requires forall c :: InUse(g, st'.disk, c) == InUse(g, st.disk, c)
    ensures Inv(g, st', orphans - {b})
  {
    hide InUse, Ref;
    forall r, s | Ref(st', r) != 0 && Ref(st', r) == Ref(st', s)
      ensures r == s
    {
      assert !Named(st, b);
      assert r == p || Ref(st, r) != b;
      assert s == p || Ref(st, s) != b;
    }
    forall c | g.data <= c < g.size && InUse(g, st'.disk, c) && c !in orphans - {b}
      ensures Named(st', c)
    {
      if c == b {
        assert Ref(st', p) == c;
      } else {
        var r :| Ref(st, r) == c;
        assert Ref(st', r) == c;
      }
    }
  }

  function AddrPut(st: State, ino: int, q: int, b: int): State
    requires 0 <= ino < |st.inodes| && 0 <= q < |st.inodes[ino].addrs|
  {
    st.(inodes := st.inodes[ino := st.inodes[ino].(addrs := st.inodes[ino].addrs[q := b])])
  }

  lemma ZeroWord(j: int)
    requires 0 <= j < NINDIRECT
    ensures Word(Zeroed(), j) == 0
  {
  }

  lemma AddrPutAttaches(g: Super, st: State, ino: int, q: int, b: int)
    requires WellFormed(g, st) && 0 <= ino < |st.inodes| && 0 <= q <= NDIRECT
    requires st.inodes[ino].addrs[q] == 0 && 0 < b < g.size && st.disk[b] == Zeroed()
    ensures Attached(st, AddrPut(st, ino, q, b), Place(ino, q), b)
    ensures SameBytes(st, AddrPut(st, ino, q, b))
    ensures WellFormed(g, AddrPut(st, ino, q, b))
  {
    var st' := AddrPut(st, ino, q, b);
    forall r | r != Place(ino, q)
      ensures Ref(st', r) == Ref(st, r)
    {
      if r.ino == ino && NDIRECT < r.q < PLACES && q == NDIRECT {
        ZeroWord(r.q - NDIRECT - 1);
      }
    }
    AttachedZero(st, st', Place(ino, q), b);
  }

  /** A zeroed block reads like the hole it fills. */
  lemma AttachedZero(st: State, st': State, p: Place, b: int)
    requires Attached(st, st', p, b) && st'.disk == st.disk && 0 < b < |st.disk| && st.disk[b] == Zeroed()
    ensures SameBytes(st, st')
  {
    hide Ref;
    forall i, k | 0 <= k < MAXFILE * BSIZE
      ensures ByteAt(st', i, k) == ByteAt(st, i, k)
    {
      assert Ref(st', Place(i, Slot(k / BSIZE))) == if Place(i, Slot(k / BSIZE)) == p then b else Ref(st, Place(i, Slot(k / BSIZE)));
    }
  }

  function WordPutAt(st: State, a: int, j: int, b: int): State
    requires 0 <= a < |st.disk| && Full(st.disk[a]) && 0 <= j < NINDIRECT
  {
    st.(disk := st.disk[a := PutWord(st.disk[a], j, b)])
  }

  /** An indirect block is no other inode's indirect block. */
  lemma IndirectSole(st: State, ino: int, i: int)
    requires OneOwner(st) && 0 <= ino < |st.inodes| && 0 <= i < |st.inodes| && i != ino
    requires |st.inodes[ino].addrs| == |st.inodes[i].addrs| == NDIRECT + 1 && st.inodes[ino].addrs[NDIRECT] != 0
    ensures st.inodes[i].addrs[NDIRECT] != st.inodes[ino].addrs[NDIRECT]
  {
    assert Ref(st, Place(ino, NDIRECT)) == st.inodes[ino].addrs[NDIRECT];
    assert Ref(st, Place(i, NDIRECT)) == st.inodes[i].addrs[NDIRECT];
  }

  lemma WordPutRef(g: Super, st: State, ino: int, j: int, b: int, r: Place)
    requires WellFormed(g, st) && OneOwner(st) && Owned(g, st) && 0 <= ino < |st.inodes| && 0 <= j < NINDIRECT
    requires 0 < st.inodes[ino].addrs[NDIRECT] < g.size && 0 < b < g.size
    ensures Ref(WordPutAt(st, st.inodes[ino].addrs[NDIRECT], j, b), r)
         == if r == Place(ino, NDIRECT + 1 + j) then b else Ref(st, r)
  {
    var a := st.inodes[ino].addrs[NDIRECT];
    if IsPlace(st, r) && r.q > NDIRECT {
      if r.ino == ino {
        WordPut(st.disk[a], j, b, r.q - NDIRECT - 1);
      } else {
        IndirectSole(st, ino, r.ino);
      }
    }
  }

  lemma WordPutAttaches(g: Super, st: State, ino: int, j: int, b: int)
    requires WellFormed(g, st) && OneOwner(st) && Owned(g, st) && 0 <= ino < |st.inodes| && 0 <= j < NINDIRECT
    requires 0 < st.inodes[ino].addrs[NDIRECT] < g.size && 0 < b < g.size && st.disk[b] == Zeroed()
    requires Ref(st, Place(ino, NDIRECT + 1 + j)) == 0 && st.inodes[ino].addrs[NDIRECT] != b
    ensures var st' := WordPutAt(st, st.inodes[ino].addrs[NDIRECT], j, b);
            && Attached(st, st', Place(ino, NDIRECT + 1 + j), b) && WellFormed(g, st')
            && (forall c :: InUse(g, st'.disk, c) == InUse(g, st.disk, c))
            && SameBytes(st, st')
  {
    hide PutWord, ByteAt;
    var a := st.inodes[ino].addrs[NDIRECT];
    var st' := WordPutAt(st, a, j, b);
    forall r
      ensures Ref(st', r) == if r == Place(ino, NDIRECT + 1 + j) then b else Ref(st, r)
    {
      WordPutRef(g, st, ino, j, b, r);
    }
    assert Ref(st, Place(ino, NDIRECT)) == a;
    WordPutBytes(g, st, ino, j, b);
  }

  lemma WordPutBytes(g: Super, st: State, ino: int, j: int, b: int)
    requires WellFormed(g, st) && OneOwner(st) && Owned(g, st) && 0 <= ino < |st.inodes| && 0 <= j < NINDIRECT
    requires 0 < st.inodes[ino].addrs[NDIRECT] < g.size && 0 < b < g.size && st.disk[b] == Zeroed()
    requires Ref(st, Place(ino, NDIRECT + 1 + j)) == 0 && st.inodes[ino].addrs[NDIRECT] != b
    ensures SameBytes(st, WordPutAt(st, st.inodes[ino].addrs[NDIRECT], j, b))
  {
    hide PutWord, WordAt;
    var a := st.inodes[ino].addrs[NDIRECT];
    var st' := WordPutAt(st, a, j, b);
    assert Ref(st, Place(ino, NDIRECT)) == a;
    forall i, k | 0 <= k < MAXFILE * BSIZE
      ensures ByteAt(st', i, k) == ByteAt(st, i, k)
    {
      WordPutRef(g, st, ino, j, b, Place(i, Slot(k / BSIZE)));
    }
  }

  // Writing data.

  function DataPut(st: State, a: int, at: nat, data: seq<int>): State
    requires 0 <= a < |st.disk| && Full(st.disk[a]) && at + |data| <= BSIZE
  {
    st.(disk := st.disk[a := PutBytes(st.disk[a], at, data)])
  }

  /** Bytes put into block bn of a file are bytes of that file and of no other, and
      no block changes owner. */
  lemma DataPutWrites(g: Super, st: State, ino: int, bn: int, at: nat, data: seq<int>, orphans: set<int>)
    requires Inv(g, st, orphans) && 0 <= ino < |st.inodes| && 0 <= bn < MAXFILE && at + |data| <= BSIZE
    requires Ref(st, Place(ino, Slot(bn))) != 0
    ensures var a := Ref(st, Place(ino, Slot(bn)));
            && 0 < a < |st.disk| && Full(st.disk[a])
            && Inv(g, DataPut(st, a, at, data), orphans)
            && (forall p :: Ref(DataPut(st, a, at, data), p) == Ref(st, p))
  {
    var a := Ref(st, Place(ino, Slot(bn)));
    DataPutRefs(g, st, ino, bn, at, data, orphans);
    DataPutInv(g, st, DataPut(st, a, at, data), orphans);
  }

  lemma DataPutInv(g: Super, st: State, st': State, orphans: set<int>)
    requires Inv(g, st, orphans) && WellFormed(g, st')
    requires forall p :: Ref(st', p) == Ref(st, p)
    requires forall c :: InUse(g, st'.disk, c) == InUse(g, st.disk, c)
    ensures Inv(g, st', orphans)
  {
    hide InUse, Ref, WellFormed;
    forall c
      ensures Named(st', c) == Named(st, c)
    {
      NamedSame(st, st', c);
    }
  }

  lemma DataPutRefs(g: Super, st: State, ino: int, bn: int, at: nat, data: seq<int>, orphans: set<int>)
    requires Inv(g, st, orphans) && 0 <= ino < |st.inodes| && 0 <= bn < MAXFILE && at + |data| <= BSIZE
    requires Ref(st, Place(ino, Slot(bn))) != 0
    ensures var a := Ref(st, Place(ino, Slot(bn)));
            && 0 < a < |st.disk| && Full(st.disk[a])
            && var st' := DataPut(st, a, at, data);
               && WellFormed(g, st')
               && (forall p :: Ref(st', p) == Ref(st, p))
               && (forall c :: InUse(g, st'.disk, c) == InUse(g, st.disk, c))
  {
    var p := Place(ino, Slot(bn));
    var a := Ref(st, p);
    var st' := DataPut(st, a, at, data);
    forall r
      ensures Ref(st', r) == Ref(st, r)
    {
      if IsPlace(st, r) {
        assert Ref(st, Place(r.ino, NDIRECT)) == st.inodes[r.ino].addrs[NDIRECT];
      }
    }
  }

  lemma DataPutBytes(g: Super, st: State, ino: int, bn: int, at: nat, data: seq<int>, orphans: set<int>, i: int, k: int)
    requires Inv(g, st, orphans) && 0 <= ino < |st.inodes| && 0 <= bn < MAXFILE && at + |data| <= BSIZE
    requires Ref(st, Place(ino, Slot(bn))) != 0 && 0 <= k < MAXFILE * BSIZE
    ensures var a := Ref(st, Place(ino, Slot(bn)));
            && 0 < a < |st.disk| && Full(st.disk[a])
            && ByteAt(DataPut(st, a, at, data), i, k)
               == if i == ino && bn * BSIZE + at <= k < bn * BSIZE + at + |data| then data[k - bn * BSIZE - at]
                  else ByteAt(st, i, k)
  {
    hide Ref;
    DataPutRefs(g, st, ino, bn, at, data, orphans);
    var a := Ref(st, Place(ino, Slot(bn)));
    var st' := DataPut(st, a, at, data);
    var r := Place(i, Slot(k / BSIZE));
    assert Ref(st', r) == Ref(st, r);
    if Ref(st, r) == a {
      assert r == Place(ino, Slot(bn));
      assert k / BSIZE == bn;
    }
  }

  // A fresh file system.

  function Marked(g: Super, disk: seq<Block>, k: nat): (r: seq<Block>)
    requires Sane(g) && |disk| == g.size && k <= g.size && forall b :: 0 <= b < |disk| ==> Full(disk[b])
    ensures |r| == |disk| && forall b :: 0 <= b < |r| ==> Full(r[b])
  {
    if k == 0 then disk else SetUse(g, Marked(g, disk, k - 1), k - 1, true)
  }

  /** A formatted disk with n empty files: the blocks below the data area are in use,
      the rest is free. */
  function Formatted(g: Super, n: nat): State
    requires Sane(g)
  {
    State(Marked(g, seq(g.size, b => Zeroed()), g.data),
          seq(n, i => Inode(0, seq(NDIRECT + 1, q => 0))))
  }

  lemma {:induction false} ZeroBit(k: nat)
    ensures BitOf(0, k) == 0
  {
    if k > 0 {
      ZeroBit(k - 1);
    }
  }

  lemma ZeroUse(g: Super, disk: seq<Block>, c: int)
    requires forall b :: 0 <= b < |disk| ==> disk[b] == Zeroed()
    ensures !InUse(g, disk, c)
  {
    ZeroBit(c % BPB % 8);
  }

  lemma {:induction false} MarkedUse(g: Super, disk: seq<Block>, k: nat, c: int)
    requires Sane(g) && |disk| == g.size && k <= g.size && 0 <= c < g.size
    requires forall b :: 0 <= b < |disk| ==> disk[b] == Zeroed() && Full(disk[b])
    ensures InUse(g, Marked(g, disk, k), c) <==> c < k
  {
    hide SetUse, InUse;
    if k == 0 {
      ZeroUse(g, disk, c);
    } else {
      MarkedUse(g, disk, k - 1, c);
      InUseSet(g, Marked(g, disk, k - 1), k - 1, true, c);
    }
  }

  lemma FormattedInv(g: Super, n: nat)
    requires Sane(g)
    ensures Inv(g, Formatted(g, n), {})
    ensures forall i :: 0 <= i < n ==> Content(Formatted(g, n), i) == [] && NoHoles(Formatted(g, n), i)
  {
    hide InUse, Marked;
    var st := Formatted(g, n);
    forall c
      ensures InUse(g, st.disk, c) <==> 0 <= c < g.data
    {
      if 0 <= c < g.size {
        MarkedUse(g, seq(g.size, b => Zeroed()), g.data, c);
      } else {
        UseIsInRange(g, st.disk, c);
      }
    }
    forall p
      ensures Ref(st, p) == 0
    {
    }
  }

  lemma UseIsInRange(g: Super, disk: seq<Block>, c: int)
    ensures InUse(g, disk, c) ==> 0 <= c < g.size
  {
  }
}
