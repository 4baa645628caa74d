/** The file system that a disk image holds: blocks of words read as bytes, and the
    inodes decoded from their blocks (struct dinode). */
module ImageMount {
  import opened InodeLayout
  import opened InodeState
  import opened InodeSteps
  import L = LogLayout

  const DWORDS := 16  // words of a struct dinode; the size is word 2, the addresses follow

  function ByteOf(w: int, i: int): int {
    match i case 0 => w % 256 case 1 => w / 256 % 256 case 2 => w / 0x1_0000 % 256 case _ => w / 0x100_0000 % 256
  }

  /** A block of the log's machine, as bytes. */
  function Unpack(b: L.Block): (r: Block)
    ensures Full(r)
  {
    Block(seq(BSIZE, k => if 0 <= k / 4 < |b.words| then ByteOf(b.words[k / 4], k % 4) else 0))
  }

  /** The inode in a slot of an inode block. */
  function Dinode(b: Block, slot: int): Inode
    requires Full(b) && 0 <= slot < IPB
  {
    Inode(Word(b, DWORDS * slot + 2), seq(NDIRECT + 1, q requires 0 <= q < NDIRECT + 1 => Word(b, DWORDS * slot + 3 + q)))
  }

  function DinodeAt(g: Super, d: L.Disk, i: int): Inode {
    if 0 <= g.inodestart + i / IPB < |d| then Dinode(Unpack(d[g.inodestart + i / IPB]), i % IPB) else Inode(0, [])
  }

  /** The file system on image d, with n inodes. */
  function Mounted(g: Super, d: L.Disk, n: nat): State {
    State(seq(|d|, b requires 0 <= b < |d| => Unpack(d[b])), seq(n, i => DinodeAt(g, d, i)))
  }

  /** Log, inodes, free map and data follow each other on the disk. */
  ghost predicate Layout(lg: L.Geometry, g: Super, n: nat) {
    && L.ValidGeometry(lg) && lg.blocks == g.size && Sane(g)
    && lg.start + lg.size <= g.inodestart && g.inodestart + n / IPB < g.bmapstart
  }

  predicate InodeBlock(g: Super, n: nat, b: int) {
    g.inodestart <= b <= g.inodestart + n / IPB
  }

  /** Block w is what st has at block number b. */
  ghost predicate ShowsAt(g: Super, w: L.Block, st: State, b: int) {
    if InodeBlock(g, |st.inodes|, b) then
      forall i {:trigger st.inodes[i]} :: 0 <= i < |st.inodes| && g.inodestart + i / IPB == b ==>
        Dinode(Unpack(w), i % IPB) == st.inodes[i]
    else 0 <= b < |st.disk| && Unpack(w) == st.disk[b]
  }

  /** Image d holds the file system st. */
  ghost predicate Shows(lg: L.Geometry, g: Super, d: L.Disk, st: State) {
    && |d| == |st.disk| == lg.blocks
    && forall b {:trigger d[b]} :: g.inodestart <= b < lg.blocks && 0 <= b ==> ShowsAt(g, d[b], st, b)
  }

  lemma MountedInodes(lg: L.Geometry, g: Super, d: L.Disk, st: State)
    requires Layout(lg, g, |st.inodes|) && Shows(lg, g, d, st)
    ensures Mounted(g, d, |st.inodes|).inodes == st.inodes
  {
    hide Dinode, Unpack;
    forall i | 0 <= i < |st.inodes|
      ensures DinodeAt(g, d, i) == st.inodes[i]
    {
      assert ShowsAt(g, d[g.inodestart + i / IPB], st, g.inodestart + i / IPB);
    }
  }

  lemma MountedBlock(lg: L.Geometry, g: Super, d: L.Disk, st: State, b: int)
    requires Layout(lg, g, |st.inodes|) && Shows(lg, g, d, st) && g.bmapstart <= b < g.size
    ensures Mounted(g, d, |st.inodes|).disk[b] == st.disk[b]
  {
    hide Unpack;
    assert ShowsAt(g, d[b], st, b);
  }

  lemma MountedRef(lg: L.Geometry, g: Super, d: L.Disk, st: State, p: Place)
    requires Layout(lg, g, |st.inodes|) && Shows(lg, g, d, st) && WellFormed(g, st) && Owned(g, st)
    ensures Ref(Mounted(g, d, |st.inodes|), p) == Ref(st, p)
  {
    hide Shows, Mounted, Word;
    var m := Mounted(g, d, |st.inodes|);
    MountedInodes(lg, g, d, st);
    MountedShape(lg, g, d, st);
    if IsPlace(st, p) && p.q > NDIRECT {
      var a := st.inodes[p.ino].addrs[NDIRECT];
      assert a == Ref(st, Place(p.ino, NDIRECT));
      if a != 0 {
        MountedBlock(lg, g, d, st, a);
      }
    }
  }

  lemma MountedShape(lg: L.Geometry, g: Super, d: L.Disk, st: State)
    requires Layout(lg, g, |st.inodes|) && Shows(lg, g, d, st)
    ensures var m := Mounted(g, d, |st.inodes|);
            |m.disk| == |st.disk| == g.size && |m.inodes| == |st.inodes| && forall b :: 0 <= b < g.size ==> Full(m.disk[b])
  {
  }

  lemma MountedUse(lg: L.Geometry, g: Super, d: L.Disk, st: State, c: int)
    requires Layout(lg, g, |st.inodes|) && Shows(lg, g, d, st) && WellFormed(g, st)
    ensures InUse(g, Mounted(g, d, |st.inodes|).disk, c) == InUse(g, st.disk, c)
  {
    hide Shows, Mounted, MapBit;
    MountedShape(lg, g, d, st);
    if 0 <= c < g.size {
      MountedBlock(lg, g, d, st, g.bmapstart + c / BPB);
    }
  }

  lemma MountedByte(lg: L.Geometry, g: Super, d: L.Disk, st: State, i: int, k: int)
    requires Layout(lg, g, |st.inodes|) && Shows(lg, g, d, st) && WellFormed(g, st) && Owned(g, st)
    ensures ByteAt(Mounted(g, d, |st.inodes|), i, k) == ByteAt(st, i, k)
  {
    hide Shows, Mounted, Ref;
    var p := Place(i, Slot(k / BSIZE));
    MountedShape(lg, g, d, st);
    MountedRef(lg, g, d, st, p);
    if Ref(st, p) != 0 {
      MountedBlock(lg, g, d, st, Ref(st, p));
    }
  }

  /** What is mounted from an image of st is st: as consistent, and with the same
      files. */
  lemma MountedIs(lg: L.Geometry, g: Super, d: L.Disk, st: State)
    requires Layout(lg, g, |st.inodes|) && Shows(lg, g, d, st) && Inv(g, st, {})
    ensures var m := Mounted(g, d, |st.inodes|);
            && Inv(g, m, {}) && m.inodes == st.inodes
            && forall i :: 0 <= i < |st.inodes| ==> st.inodes[i].size >= 0 && Content(m, i) == Content(st, i)
  {
    hide Shows, Mounted, Ref, ByteAt, InUse;
    var m := Mounted(g, d, |st.inodes|);
    MountedInodes(lg, g, d, st);
    MountedShape(lg, g, d, st);
    forall p
      ensures Ref(m, p) == Ref(st, p)
    {
      MountedRef(lg, g, d, st, p);
    }
    forall c
      ensures InUse(g, m.disk, c) == InUse(g, st.disk, c)
    {
      MountedUse(lg, g, d, st, c);
    }
    DataPutInv(g, st, m, {});
    forall i, k
      ensures ByteAt(m, i, k) == ByteAt(st, i, k)
    {
      MountedByte(lg, g, d, st, i, k);
    }
  }
}
