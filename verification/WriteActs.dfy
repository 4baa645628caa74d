/** What writei does, broken into actions that change one block or one inode each. A
    buffer's sleep-lock makes each of them atomic, so writers of different files may
    interleave between any two. */
module WriteActs {
  import opened InodeLayout
  import opened InodeState
  import opened InodeSteps

  /** balloc marks a block and bzero clears it; bmap names it in a slot of the inode or
      in a word of the indirect block; writei puts data from offset o on, raises the
      size, and has iupdate copy the inode to its block. */
  datatype Act =
    | Mark(b: int)
    | Zero(b: int)
    | Fill(q: int, b: int)
    | FillWord(j: int, b: int)
    | Data(o: int, data: seq<int>)
    | Grow(size: int)
    | Update

  /** The disk and the inodes in memory, and the inodes as the disk has them. */
  datatype Files = Files(st: State, dinodes: seq<Inode>)

  predicate InoOk(x: Files, ino: int) {
    0 <= ino < |x.st.inodes| == |x.dinodes|
  }

  /** A writer of file ino may do this; `mine` are the blocks that it has marked and not
      yet named. */
  predicate ActOk(g: Super, x: Files, ino: int, mine: set<int>, a: Act) {
    && InoOk(x, ino)
    && match a
       case Mark(b) => g.data <= b < g.size && !InUse(g, x.st.disk, b)
       case Zero(b) => b in mine
       case Fill(q, b) =>
         && b in mine && 0 <= b < |x.st.disk| && x.st.disk[b] == Zeroed()
         && 0 <= q <= NDIRECT && |x.st.inodes[ino].addrs| == NDIRECT + 1 && x.st.inodes[ino].addrs[q] == 0
       case FillWord(j, b) =>
         && b in mine && 0 <= b < |x.st.disk| && x.st.disk[b] == Zeroed()
         && 0 <= j < NINDIRECT && Ref(x.st, Place(ino, NDIRECT)) != 0 && Ref(x.st, Place(ino, NDIRECT + 1 + j)) == 0
       case Data(o, data) =>
         && 0 <= o && 0 < |data| && o % BSIZE + |data| <= BSIZE && o + |data| <= MAXFILE * BSIZE
         && Ref(x.st, Place(ino, Slot(o / BSIZE))) != 0
       case Grow(size) => x.st.inodes[ino].size <= size <= MAXFILE * BSIZE
       case Update => true
  }

  /** The block that an action edits; 0 for the two that change the inode in memory. */
  function BlockOf(g: Super, x: Files, ino: int, a: Act): int {
    match a
    case Mark(b) => g.bmapstart + b / BPB
    case Zero(b) => b
    case Fill(_, _) => 0
    case FillWord(_, _) => Ref(x.st, Place(ino, NDIRECT))
    case Data(o, _) => Ref(x.st, Place(ino, Slot(o / BSIZE)))
    case Grow(_) => 0
    case Update => g.inodestart + ino / IPB
  }

  ghost predicate Ready(g: Super, x: Files, ino: int, mine: set<int>, a: Act) {
    ActOk(g, x, ino, mine, a) && Owned(g, x.st) && WellFormed(g, x.st) && forall b :: b in mine ==> g.data <= b < g.size
  }

  /** The file system after an action. */
  ghost function Do(g: Super, x: Files, ino: int, mine: set<int>, a: Act): Files
    requires Ready(g, x, ino, mine, a)
  {
    var st := x.st;
    match a
    case Mark(b) => x.(st := st.(disk := SetUse(g, st.disk, b, true)))
    case Zero(b) => x.(st := st.(disk := st.disk[b := Zeroed()]))
    case Fill(q, b) => x.(st := AddrPut(st, ino, q, b))
    case FillWord(j, b) => x.(st := WordPutAt(st, Ref(st, Place(ino, NDIRECT)), j, b))
    case Data(o, data) => x.(st := DataPut(st, Ref(st, Place(ino, Slot(o / BSIZE))), o % BSIZE, data))
    case Grow(size) => x.(st := st.(inodes := st.inodes[ino := st.inodes[ino].(size := size)]))
    case Update => x.(dinodes := x.dinodes[ino := st.inodes[ino]])
  }

  function Took(mine: set<int>, a: Act): set<int> {
    match a
    case Mark(b) => mine + {b}
    case Fill(_, b) => mine - {b}
    case FillWord(_, b) => mine - {b}
    case _ => mine
  }

  // Blocks that nobody names yet.

  /** What is in a block that no place names is nobody's bytes. */
  lemma OrphanWrite(g: Super, st: State, b: int, data: Block, orphans: set<int>)
    requires Inv(g, st, orphans) && b in orphans && Full(data)
    ensures b < |st.disk| && Inv(g, st.(disk := st.disk[b := data]), orphans)
    ensures SameBytes(st, st.(disk := st.disk[b := data]))
  {
    hide InUse, ByteAt, NoLeak;
    var st' := st.(disk := st.disk[b := data]);
    OrphanUnnamed(g, st, b, orphans);
    SameNamed(g, st, st');
    forall c
      ensures InUse(g, st'.disk, c) == InUse(g, st.disk, c)
    {
      UseElsewhere(g, st, b, data, c);
    }
    assert NoLeak(g, st, orphans);
    DataPutInv(g, st, st', orphans);
  }

  lemma OrphanUnnamed(g: Super, st: State, b: int, orphans: set<int>)
    requires Inv(g, st, orphans) && b in orphans
    ensures g.data <= b < g.size == |st.disk| && forall p :: Ref(st, p) != b
  {
    assert !Named(st, b);
  }

  lemma UseElsewhere(g: Super, st: State, b: int, data: Block, c: int)
    requires WellFormed(g, st) && g.data <= b < g.size
    ensures InUse(g, st.disk[b := data], c) == InUse(g, st.disk, c)
  {
    if 0 <= c < g.size {
      assert g.bmapstart + c / BPB < g.data;
    }
  }

  lemma MarkKeeps(g: Super, st: State, b: int, orphans: set<int>)
    requires Inv(g, st, orphans) && g.data <= b < g.size && !InUse(g, st.disk, b)
    ensures var st' := st.(disk := SetUse(g, st.disk, b, true));
            Inv(g, st', orphans + {b}) && SameBytes(st, st')
  {
    hide InUse, ByteAt;
    AllocateKeepsInv(g, st, b, orphans);
    AllocatedSame(g, st, b, orphans);
    var st1 := Allocated(g, st, b);
    OrphanWrite(g, st1, b, st.disk[b], orphans + {b});
    var disk := SetUse(g, st.disk, b, true);
    assert disk[b] == st.disk[b];
    assert st1.disk[b := st.disk[b]] == disk;
    BytesTwice(st, st1, st.(disk := disk));
  }

  lemma BytesTwice(st0: State, st1: State, st2: State)
    requires SameBytes(st0, st1) && SameBytes(st1, st2)
    ensures SameBytes(st0, st2)
  {
    hide ByteAt;
  }

  lemma FillKeeps(g: Super, st: State, ino: int, q: int, b: int, orphans: set<int>)
    requires Inv(g, st, orphans) && b in orphans && 0 <= ino < |st.inodes| && 0 <= q <= NDIRECT
    requires 0 <= b < |st.disk| && st.disk[b] == Zeroed() && st.inodes[ino].addrs[q] == 0
    ensures Inv(g, AddrPut(st, ino, q, b), orphans - {b}) && SameBytes(st, AddrPut(st, ino, q, b))
  {
    hide InUse, ByteAt, Attached;
    OrphanUnnamed(g, st, b, orphans);
    AddrPutAttaches(g, st, ino, q, b);
    AttachedKeepsInv(g, st, AddrPut(st, ino, q, b), Place(ino, q), b, orphans);
  }

  lemma FillWordKeeps(g: Super, st: State, ino: int, j: int, b: int, orphans: set<int>)
    requires Inv(g, st, orphans) && b in orphans && 0 <= ino < |st.inodes| && 0 <= j < NINDIRECT
    requires 0 <= b < |st.disk| && st.disk[b] == Zeroed()
    requires Ref(st, Place(ino, NDIRECT)) != 0 && Ref(st, Place(ino, NDIRECT + 1 + j)) == 0
    ensures var a := Ref(st, Place(ino, NDIRECT));
            && 0 <= a < |st.disk| && Full(st.disk[a])
            && Inv(g, WordPutAt(st, a, j, b), orphans - {b}) && SameBytes(st, WordPutAt(st, a, j, b))
  {
    hide InUse, ByteAt, Attached, PutWord;
    OrphanUnnamed(g, st, b, orphans);
    var a := Ref(st, Place(ino, NDIRECT));
    assert a == st.inodes[ino].addrs[NDIRECT];
    WordPutAttaches(g, st, ino, j, b);
    AttachedKeepsInv(g, st, WordPutAt(st, a, j, b), Place(ino, NDIRECT + 1 + j), b, orphans);
  }

  // Every action.

  /** Bytes change only where data is put. */
  ghost predicate Puts(st: State, st': State, ino: int, a: Act) {
    if a.Data? then Patched(st, st', ino, a.o, a.data) else SameBytes(st, st')
  }

  lemma ReadyFrom(g: Super, x: Files, ino: int, mine: set<int>, a: Act, orphans: set<int>)
    requires Inv(g, x.st, orphans) && mine <= orphans && ActOk(g, x, ino, mine, a)
    ensures Ready(g, x, ino, mine, a)
  {
    hide ActOk, WellFormed, Owned;
    forall b | b in mine
      ensures g.data <= b < g.size
    {
      OrphanUnnamed(g, x.st, b, orphans);
    }
  }

  /** Every action of a writer keeps the ownership invariant, and changes no byte of any
      file but those it puts. */
  lemma ActKeeps(g: Super, x: Files, ino: int, mine: set<int>, a: Act, orphans: set<int>)
    requires Inv(g, x.st, orphans) && mine <= orphans && ActOk(g, x, ino, mine, a) && Ready(g, x, ino, mine, a)
    ensures Inv(g, Do(g, x, ino, mine, a).st, Took(orphans, a)) && Puts(x.st, Do(g, x, ino, mine, a).st, ino, a)
  {
    hide Inv, InUse, SameBytes, Patched, Ref, WellFormed, Owned;
    match a
    case Mark(b) => MarkKeeps(g, x.st, b, orphans);
    case Zero(b) => OrphanWrite(g, x.st, b, Zeroed(), orphans);
    case Fill(q, b) => FillKeeps(g, x.st, ino, q, b, orphans);
    case FillWord(j, b) => FillWordKeeps(g, x.st, ino, j, b, orphans);
    case Data(o, data) =>
      DataPutWrites(g, x.st, ino, o / BSIZE, o % BSIZE, data, orphans);
      ExtendsSelf(x.st);
      ChunkPatches(g, x.st, x.st, Do(g, x, ino, mine, a).st, ino, o, data, orphans);
    case Grow(size) => GrowKeeps(g, x.st, ino, size, orphans);
    case Update => SameAsItself(x.st);
  }

  lemma SameAsItself(st: State)
    ensures SameBytes(st, st)
  {
  }

  lemma GrowKeeps(g: Super, st: State, ino: int, size: int, orphans: set<int>)
    requires Inv(g, st, orphans) && 0 <= ino < |st.inodes| && st.inodes[ino].size <= size <= MAXFILE * BSIZE
    ensures var st' := st.(inodes := st.inodes[ino := st.inodes[ino].(size := size)]);
            Inv(g, st', orphans) && SameBytes(st, st')
  {
    hide InUse, Ref, ByteAt;
    SizePut(g, st, ino, size, orphans);
  }

  /** What an action leaves alone: other inodes, sizes unless it grows the file, the
      inodes on disk unless it updates one, and all blocks but one. */
  lemma ActFrame(g: Super, x: Files, ino: int, mine: set<int>, a: Act)
    requires Ready(g, x, ino, mine, a)
    ensures var x' := Do(g, x, ino, mine, a);
            && |x'.st.disk| == |x.st.disk| && |x'.st.inodes| == |x.st.inodes| == |x'.dinodes| == |x.dinodes|
            && (forall i :: 0 <= i < |x.st.inodes| && i != ino ==>
                  x'.st.inodes[i] == x.st.inodes[i] && x'.dinodes[i] == x.dinodes[i])
            && x'.st.inodes[ino].size == (if a.Grow? then a.size else x.st.inodes[ino].size)
            && x'.dinodes[ino] == (if a.Update? then x.st.inodes[ino] else x.dinodes[ino])
            && (forall b :: 0 <= b < |x.st.disk| && b != BlockOf(g, x, ino, a) ==> x'.st.disk[b] == x.st.disk[b])
  {
    hide Ref, PutBit, PutWord, PutBytes, InUse;
  }

  // A whole writei, with nobody else acting.

  /** A call: data from off on. */
  datatype Call = Call(ino: int, off: int, data: seq<int>)

  /** How far it is: tot bytes are put. */
  datatype Point = Point(x: Files, mine: set<int>, tot: int)

  /** writei puts the bytes in order, and raises the size after the last. */
  predicate InOrder(c: Call, tot: int, a: Act) {
    match a
    case Data(o, data) =>
      o == c.off + tot && 0 <= tot && tot + |data| <= |c.data| && data == c.data[tot..tot + |data|]
    case Grow(size) => tot == |c.data| && size == c.off + tot
    case _ => true
  }

  ghost predicate Allowed(g: Super, c: Call, p: Point, a: Act) {
    Ready(g, p.x, c.ino, p.mine, a) && InOrder(c, p.tot, a)
  }

  ghost function Next(g: Super, c: Call, p: Point, a: Act): Point
    requires Allowed(g, c, p, a)
  {
    Point(Do(g, p.x, c.ino, p.mine, a), Took(p.mine, a), if a.Data? then p.tot + |a.data| else p.tot)
  }

  ghost predicate Walk(g: Super, c: Call, p: Point, acts: seq<Act>, p': Point)
    decreases |acts|
  {
    if acts == [] then p == p'
    else Allowed(g, c, p, acts[0]) && Walk(g, c, Next(g, c, p, acts[0]), acts[1..], p')
  }

  /** Some actions lead from p to p'. */
  ghost predicate Walks(g: Super, c: Call, p: Point, p': Point) {
    exists acts :: Walk(g, c, p, acts, p')
  }

  lemma WalksNone(g: Super, c: Call, p: Point)
    ensures Walks(g, c, p, p)
  {
    assert Walk(g, c, p, [], p);
  }

  lemma WalksOne(g: Super, c: Call, p: Point, a: Act)
    requires Allowed(g, c, p, a)
    ensures Walks(g, c, p, Next(g, c, p, a))
  {
    hide Allowed, Next;
    assert [a][1..] == [];
    assert Walk(g, c, Next(g, c, p, a), [], Next(g, c, p, a));
    assert Walk(g, c, p, [a], Next(g, c, p, a));
  }

  lemma {:induction false} WalkConcat(g: Super, c: Call, p: Point, a: seq<Act>, q: Point, b: seq<Act>, r: Point)
    requires Walk(g, c, p, a, q) && Walk(g, c, q, b, r)
    ensures Walk(g, c, p, a + b, r)
    decreases |a|
  {
    hide Allowed, Next;
    if a == [] {
      assert a + b == b;
    } else {
      WalkConcat(g, c, Next(g, c, p, a[0]), a[1..], q, b, r);
      assert (a + b)[1..] == a[1..] + b;
    }
  }

  lemma WalksTwice(g: Super, c: Call, p: Point, q: Point, r: Point)
    requires Walks(g, c, p, q) && Walks(g, c, q, r)
    ensures Walks(g, c, p, r)
  {
    hide Walk;
    var a :| Walk(g, c, p, a, q);
    var b :| Walk(g, c, q, b, r);
    WalkConcat(g, c, p, a, q, b, r);
  }

  /** x' has more blocks named than x, by actions that any call on the file may take at
      any point. */
  ghost predicate Allots(g: Super, x: Files, x': Files, ino: int) {
    InoOk(x, ino) ==> InoOk(x', ino) && forall c: Call, tot {:trigger Point(x, {}, tot), c.ino} :: c.ino == ino ==>
      Walks(g, c, Point(x, {}, tot), Point(x', {}, tot))
  }

  lemma AllotsNone(g: Super, x: Files, ino: int)
    ensures Allots(g, x, x, ino)
  {
    hide Walks;
    forall c: Call, tot {:trigger Point(x, {}, tot), c.ino} | c.ino == ino
      ensures Walks(g, c, Point(x, {}, tot), Point(x, {}, tot))
    {
      WalksNone(g, c, Point(x, {}, tot));
    }
  }

  lemma AllotsTwice(g: Super, x: Files, y: Files, z: Files, ino: int)
    requires Allots(g, x, y, ino) && Allots(g, y, z, ino)
    ensures Allots(g, x, z, ino)
  {
    hide Walks;
    if InoOk(x, ino) {
      forall c: Call, tot {:trigger Point(x, {}, tot), c.ino} | c.ino == ino
        ensures Walks(g, c, Point(x, {}, tot), Point(z, {}, tot))
      {
        assert Point(y, {}, tot).tot == tot;
        WalksTwice(g, c, Point(x, {}, tot), Point(y, {}, tot), Point(z, {}, tot));
      }
    }
  }

  /** balloc: a block is marked and cleared. */
  lemma WalksTake(g: Super, c: Call, x: Files, b: int, tot: int)
    requires Inv(g, x.st, {}) && InoOk(x, c.ino) && g.data <= b < g.size && !InUse(g, x.st.disk, b)
    ensures Inv(g, Allocated(g, x.st, b), {b})
    ensures Walks(g, c, Point(x, {}, tot), Point(x.(st := Allocated(g, x.st, b)), {b}, tot))
  {
    hide Inv, InUse, Walks, SetUse, SameBytes;
    var p := Point(x, {}, tot);
    ReadyFrom(g, x, c.ino, {}, Mark(b), {});
    ActKeeps(g, x, c.ino, {}, Mark(b), {});
    WalksOne(g, c, p, Mark(b));
    var q := Next(g, c, p, Mark(b));
    assert {} + {b} == {b};
    ReadyFrom(g, q.x, c.ino, {b}, Zero(b), {b});
    WalksOne(g, c, q, Zero(b));
    WalksTwice(g, c, p, q, Next(g, c, q, Zero(b)));
    AllocateKeepsInv(g, x.st, b, {});
  }

  lemma AllocatedBlock(g: Super, st: State, b: int)
    requires WellFormed(g, st) && g.data <= b < g.size
    ensures var st' := Allocated(g, st, b);
            |st'.disk| == |st.disk| && st'.disk[b] == Zeroed() && st'.inodes == st.inodes
  {
  }

  lemma AllotsFill(g: Super, x: Files, x': Files, ino: int, q: int, b: int)
    requires Inv(g, x.st, {}) && 0 <= ino < |x.st.inodes| && g.data <= b < g.size && !InUse(g, x.st.disk, b)
    requires 0 <= q <= NDIRECT && x.st.inodes[ino].addrs[q] == 0
    requires x' == x.(st := AddrPut(Allocated(g, x.st, b), ino, q, b))
    ensures Allots(g, x, x', ino)
  {
    hide Owned, OneOwner, MetaInUse, NoLeak, OrphansOk, InUse, Walks, SetUse, Ready;
    AllocatedBlock(g, x.st, b);
    if InoOk(x, ino) {
      forall c: Call, tot {:trigger Point(x, {}, tot), c.ino} | c.ino == ino
        ensures Walks(g, c, Point(x, {}, tot), Point(x', {}, tot))
      {
        WalksTake(g, c, x, b, tot);
        var p := Point(x.(st := Allocated(g, x.st, b)), {b}, tot);
        ReadyFrom(g, p.x, ino, {b}, Fill(q, b), {b});
        WalksOne(g, c, p, Fill(q, b));
        assert {b} - {b} == {};
        WalksTwice(g, c, Point(x, {}, tot), p, Next(g, c, p, Fill(q, b)));
      }
    }
  }

  lemma AllotsWord(g: Super, x: Files, x': Files, ino: int, j: int, b: int)
    requires Inv(g, x.st, {}) && 0 <= ino < |x.st.inodes| && g.data <= b < g.size && !InUse(g, x.st.disk, b)
    requires 0 <= j < NINDIRECT && Ref(x.st, Place(ino, NDIRECT)) != 0 && Ref(x.st, Place(ino, NDIRECT + 1 + j)) == 0
    requires var st1, a := Allocated(g, x.st, b), Ref(x.st, Place(ino, NDIRECT));
             0 <= a < |st1.disk| && Full(st1.disk[a]) && x' == x.(st := WordPutAt(st1, a, j, b))
    ensures Allots(g, x, x', ino)
  {
    hide Owned, OneOwner, MetaInUse, NoLeak, OrphansOk, InUse, Walks, SetUse, Ready, PutWord, Ref;
    AllocatedSame(g, x.st, b, {});
    AllocatedBlock(g, x.st, b);
    if InoOk(x, ino) {
      forall c: Call, tot {:trigger Point(x, {}, tot), c.ino} | c.ino == ino
        ensures Walks(g, c, Point(x, {}, tot), Point(x', {}, tot))
      {
        WalksTake(g, c, x, b, tot);
        var p := Point(x.(st := Allocated(g, x.st, b)), {b}, tot);
        ReadyFrom(g, p.x, ino, {b}, FillWord(j, b), {b});
        WalksOne(g, c, p, FillWord(j, b));
        assert {b} - {b} == {};
        WalksTwice(g, c, Point(x, {}, tot), p, Next(g, c, p, FillWord(j, b)));
      }
    }
  }

  /** One block's worth: it is named if need be, and then data is put. */
  ghost predicate PutsBlock(g: Super, x: Files, x': Files, ino: int, off: int, data: seq<int>) {
    InoOk(x, ino) ==> InoOk(x', ino) && forall c: Call, tot {:trigger Point(x, {}, tot), c.ino} ::
      c.ino == ino && InOrder(c, tot, Data(off, data)) ==> Walks(g, c, Point(x, {}, tot), Point(x', {}, tot + |data|))
  }

  lemma PutsNamed(g: Super, x: Files, y: Files, x': Files, ino: int, off: int, data: seq<int>)
    requires Allots(g, x, y, ino) && Inv(g, y.st, {}) && ActOk(g, y, ino, {}, Data(off, data)) && Ready(g, y, ino, {}, Data(off, data))
    requires x' == Do(g, y, ino, {}, Data(off, data))
    ensures PutsBlock(g, x, x', ino, off, data)
  {
    hide Inv, Walks, ActOk, Ready, Do;
    ActFrame(g, y, ino, {}, Data(off, data));
    if InoOk(x, ino) {
      forall c: Call, tot {:trigger Point(x, {}, tot), c.ino} | c.ino == ino && InOrder(c, tot, Data(off, data))
        ensures Walks(g, c, Point(x, {}, tot), Point(x', {}, tot + |data|))
      {
        var p := Point(y, {}, tot);
        WalksOne(g, c, p, Data(off, data));
        WalksTwice(g, c, Point(x, {}, tot), p, Next(g, c, p, Data(off, data)));
      }
    }
  }

  /** The call has led from x to x', tot bytes into its data. */
  ghost predicate Wrote(g: Super, c: Call, x: Files, x': Files, tot: int) {
    InoOk(x, c.ino) ==> InoOk(x', c.ino) && Walks(g, c, Point(x, {}, 0), Point(x', {}, tot))
  }

  lemma WroteNone(g: Super, c: Call, x: Files)
    ensures Wrote(g, c, x, x, 0)
  {
    WalksNone(g, c, Point(x, {}, 0));
  }

  lemma WroteMore(g: Super, c: Call, x: Files, y: Files, z: Files, tot: int, data: seq<int>)
    requires Wrote(g, c, x, y, tot) && PutsBlock(g, y, z, c.ino, c.off + tot, data)
    requires 0 <= tot && tot + |data| <= |c.data| && data == c.data[tot..tot + |data|]
    ensures Wrote(g, c, x, z, tot + |data|)
  {
    hide Walks;
    if InoOk(x, c.ino) {
      assert InOrder(c, tot, Data(c.off + tot, data));
      assert Point(y, {}, tot).tot == tot;
      WalksTwice(g, c, Point(x, {}, 0), Point(y, {}, tot), Point(z, {}, tot + |data|));
    }
  }

  /** The size is raised, and iupdate called. */
  lemma WroteGrown(g: Super, c: Call, x: Files, y: Files, z: Files)
    requires Wrote(g, c, x, y, |c.data|) && Inv(g, y.st, {}) && 0 <= c.ino < |y.st.inodes| == |y.dinodes|
    requires y.st.inodes[c.ino].size <= c.off + |c.data| <= MAXFILE * BSIZE
    requires var node := y.st.inodes[c.ino].(size := c.off + |c.data|);
             z == Files(y.st.(inodes := y.st.inodes[c.ino := node]), y.dinodes[c.ino := node])
    ensures Wrote(g, c, x, z, |c.data|)
  {
    hide Inv, Walks, Ready;
    if InoOk(x, c.ino) {
      var p, a := Point(y, {}, |c.data|), Grow(c.off + |c.data|);
      ReadyFrom(g, y, c.ino, {}, a, {});
      ActKeeps(g, y, c.ino, {}, a, {});
      WalksOne(g, c, p, a);
      var q := Next(g, c, p, a);
      ReadyFrom(g, q.x, c.ino, {}, Update, {});
      WalksOne(g, c, q, Update);
      WalksTwice(g, c, p, q, Next(g, c, q, Update));
      WalksTwice(g, c, Point(x, {}, 0), p, Next(g, c, q, Update));
    }
  }
}
