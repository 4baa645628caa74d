/** filewrite: a long write as a series of small transactions. */
module FileCode {
  import opened InodeLayout
  import opened InodeState
  import opened InodeSteps
  import opened InodeCode
  import opened WriteActs
  import LogLayout

  const CHUNK := (LogLayout.MAXOPBLOCKS - 1 - 1 - 2) / 2 * 512

  lemma OverwriteTwice(c: seq<int>, off: nat, a: seq<int>, b: seq<int>)
    requires off <= |c|
    ensures Overwrite(Overwrite(c, off, a), off + |a|, b) == Overwrite(c, off, a + b)
  {
  }

  /** A chunk meets at most four blocks. */
  lemma ChunkSpan(off: int, n: int)
    requires 0 <= off && n <= CHUNK
    ensures Span(off, off + n) <= 4
  {
  }

  // What each transaction leaves behind.

  /** The file system after a transaction, the blocks it logged, and how much of the
      source has been written by then. */
  datatype Part = Part(st: State, logged: set<int>, upto: int)

  function Written(c: seq<int>, off: int, data: seq<int>): seq<int> {
    if 0 <= off <= |c| then Overwrite(c, off, data) else c
  }

  /** Between st and st' everything that changed was logged: blocks, and the one inode
      by the block it lies in. A transaction fits its reservation. */
  ghost predicate Logged(g: Super, st: State, st': State, ino: int, logged: set<int>) {
    && Covered(st, st', ino, logged) && 0 <= ino < |st.inodes|
    && (st'.inodes[ino] != st.inodes[ino] ==> g.inodestart + ino / IPB in logged)
    && (g.size <= BPB ==> |logged| <= LogLayout.MAXOPBLOCKS - 3)
  }

  ghost predicate SameFile(st: State, st': State, i: int) {
    && 0 <= i < |st.inodes| && i < |st'.inodes| && st.inodes[i].size >= 0 && st'.inodes[i].size >= 0
    && Content(st', i) == Content(st, i)
  }

  ghost predicate SameOthers(st: State, st': State, ino: int) {
    |st'.inodes| == |st.inodes| && forall i :: 0 <= i < |st.inodes| && i != ino ==> SameFile(st, st', i)
  }

  /** k chunks, or all of the source if it is shorter. */
  function Chunks(k: nat, src: seq<int>): (n: int)
    ensures 0 <= n <= |src|
  {
    if k * CHUNK < |src| then k * CHUNK else |src|
  }

  /** After part j, which began at prev, the file is its old contents with j + 1 chunks
      written over it; or with j, if that part was refused and did nothing. */
  ghost predicate PartOk(g: Super, ino: int, st0: State, off: int, src: seq<int>, j: nat, prev: State, p: Part) {
    && Inv(g, p.st, {}) && SameOthers(st0, p.st, ino) && Logged(g, prev, p.st, ino, p.logged)
    && 0 <= p.upto <= |src| && (p.upto == Chunks(j + 1, src) || (p.upto == j * CHUNK && p.logged == {}))
    && 0 <= ino < |st0.inodes| && st0.inodes[ino].size >= 0 && p.st.inodes[ino].size >= 0
    && Content(p.st, ino) == Written(Content(st0, ino), off, src[..p.upto])
  }

  ghost function Before(st0: State, parts: seq<Part>, j: nat): State
    requires j <= |parts|
  {
    if j == 0 then st0 else parts[j - 1].st
  }

  ghost predicate PartsOk(g: Super, ino: int, st0: State, off: int, src: seq<int>, parts: seq<Part>) {
    forall j {:trigger parts[j]} :: 0 <= j < |parts| ==> PartOk(g, ino, st0, off, src, j, Before(st0, parts, j), parts[j])
  }

  lemma PartsMore(g: Super, ino: int, st0: State, off: int, src: seq<int>, parts: seq<Part>, p: Part)
    requires PartsOk(g, ino, st0, off, src, parts)
    requires PartOk(g, ino, st0, off, src, |parts|, Before(st0, parts, |parts|), p)
    ensures PartsOk(g, ino, st0, off, src, parts + [p])
  {
    hide PartOk;
    forall j {:trigger (parts + [p])[j]} | 0 <= j < |parts + [p]|
      ensures PartOk(g, ino, st0, off, src, j, Before(st0, parts + [p], j), (parts + [p])[j])
    {
      assert j < |parts| ==> (parts + [p])[j] == parts[j];
    }
  }

  lemma SameOthersTwice(st0: State, st1: State, st2: State, ino: int)
    requires SameOthers(st0, st1, ino) && SameOthers(st1, st2, ino)
    ensures SameOthers(st0, st2, ino)
  {
    forall i | 0 <= i < |st0.inodes| && i != ino
      ensures SameFile(st0, st2, i)
    {
      assert SameFile(st0, st1, i) && SameFile(st1, st2, i);
    }
  }

  lemma SameOthersSelf(g: Super, st: State, ino: int)
    requires WellFormed(g, st)
    ensures SameOthers(st, st, ino)
  {
  }

  class OpenFile {
    const fs: FileSystem
    const ino: int
    var off: int

    /** An open file at offset 0. */
    constructor (fs: FileSystem, ino: int)
      requires Inv(fs.g, fs.S(), {}) && 0 <= ino < |fs.inodes| == |fs.dinodes|
      ensures Valid() && this.fs == fs && this.ino == ino && off == 0
    {
      this.fs, this.ino, off := fs, ino, 0;
    }

    ghost predicate Valid()
      reads this, fs
    {
      && Inv(fs.g, fs.S(), {}) && 0 <= ino < |fs.inodes| == |fs.dinodes| && 0 <= off < WORD
      && fs.inodes[ino].size >= 0
    }

    /** The disk has the inodes that memory has, and the file has no hole. writei keeps
        both, since it refuses to start behind the end. */
    ghost predicate Whole()
      requires Valid()
      reads this, fs
    {
      fs.dinodes == fs.inodes && NoHoles(fs.S(), ino)
    }

    ghost function Data(): seq<int>
      requires Valid()
      reads this, fs
    {
      Content(fs.S(), ino)
    }

    /** One transaction of filewrite: begin_op, writei, end_op. `logs` is how many
        distinct blocks it logs. */
    method WritePart(src: seq<int>) returns (ok: bool, r: int, ghost logs: int)
      requires Valid() && 0 < |src| <= CHUNK
      modifies this`off, fs`disk, fs`inodes, fs`dinodes, fs`logged
      ensures r == -1 <==> old(off) > |old(Data())| || old(off) + |src| > MAXFILE * BSIZE
      ensures ok ==> Valid()
      ensures ok && r == -1 ==> off == old(off) && Data() == old(Data()) && fs.logged == {}
      ensures ok && r != -1 ==> r == |src| && off == old(off) + |src| && Data() == Overwrite(old(Data()), old(off), src)
      ensures ok ==> SameOthers(old(fs.S()), fs.S(), ino)
      ensures ok && old(Whole()) ==> Whole() && Logged(fs.g, old(fs.S()), fs.S(), ino, fs.logged)
      ensures ok && r != -1 ==> Wrote(fs.g, Call(ino, old(off), src), old(fs.X()), fs.X(), |src|)
      ensures ok && fs.g.size <= BPB ==> logs <= LogLayout.MAXOPBLOCKS - 3
    {
      hide Owned, OneOwner, MetaInUse, NoLeak, OrphansOk, Ref, ByteAt, NoHoles, Overwrite, Span, Wrote;
      fs.logged := {};
      ok, r := fs.Writei(ino, off, src);
      logs := |fs.logged|;
      assert fs.logged - {} == fs.logged;
      if ok && r > 0 {
        off := off + r;
        ChunkSpan(old(off), |src|);
      }
    }

    /** Bytes [0, i) of src have been written by the given parts. */
    ghost predicate SoFar(st0: State, off0: int, src: seq<int>, i: int, whole: bool, parts: seq<Part>)
      reads this, fs
    {
      && Valid() && 0 <= i <= |src| && off == off0 + i && 0 <= ino < |st0.inodes| && 0 <= off0 && st0.inodes[ino].size >= 0
      && SameOthers(st0, fs.S(), ino)
      && Data() == Written(Content(st0, ino), off0, src[..i])
      && (i > 0 ==> off0 <= |Content(st0, ino)| && off0 + i <= MAXFILE * BSIZE)
      && (whole ==> Whole() && PartsOk(fs.g, ino, st0, off0, src, parts) && fs.S() == Before(st0, parts, |parts|))
    }

    /** One round of filewrite's loop. */
    method WriteNext(src: seq<int>, i: int, n1: int, ghost st0: State, ghost off0: int, ghost whole: bool, ghost parts: seq<Part>)
      returns (ok: bool, r: int, ghost logs: int, ghost parts': seq<Part>)
      requires SoFar(st0, off0, src, i, whole, parts) && (whole ==> i == |parts| * CHUNK)
      requires 0 < n1 <= CHUNK && i + n1 <= |src| && (n1 == CHUNK || i + n1 == |src|)
      modifies this`off, fs`disk, fs`inodes, fs`dinodes, fs`logged
      ensures ok ==> (r == -1 || r == n1) && (whole ==> |parts'| == |parts| + 1)
      ensures ok ==> SoFar(st0, off0, src, if r == -1 then i else i + n1, whole, parts')
      ensures ok ==> (r == -1 <==> off0 > |Content(st0, ino)| || off0 + i + n1 > MAXFILE * BSIZE)
      ensures ok && fs.g.size <= BPB ==> logs <= LogLayout.MAXOPBLOCKS - 3
      ensures !ok ==> parts' == parts
    {
      hide Inv, Content, Overwrite, NoHoles, PartOk, SameOthers, PartsOk, Logged, Before, Written;
      ghost var st1 := fs.S();
      parts' := parts;
      WrittenTwice(Content(st0, ino), off0, src, i, n1);
      ok, r, logs := WritePart(src[i..i + n1]);
      if !ok {
        return;
      }
      SameOthersTwice(st0, st1, fs.S(), ino);
      parts' := AddPart(st1, st0, off0, src, if r < 0 then i else i + r, whole, parts);
    }

    /** The list of parts with the one that has just ended. */
    lemma AddPart(prev: State, st0: State, off0: int, src: seq<int>, upto: int, whole: bool, parts: seq<Part>)
      returns (parts': seq<Part>)
      requires Valid() && 0 <= upto <= |src|
      requires whole ==> upto == Chunks(|parts| + 1, src) || (upto == |parts| * CHUNK && fs.logged == {})
      requires 0 <= ino < |st0.inodes| && st0.inodes[ino].size >= 0 && SameOthers(st0, fs.S(), ino)
      requires Data() == Written(Content(st0, ino), off0, src[..upto])
      requires whole ==> Logged(fs.g, prev, fs.S(), ino, fs.logged) && prev == Before(st0, parts, |parts|)
      requires whole ==> PartsOk(fs.g, ino, st0, off0, src, parts)
      ensures whole ==> PartsOk(fs.g, ino, st0, off0, src, parts') && fs.S() == Before(st0, parts', |parts'|)
      ensures whole ==> |parts'| == |parts| + 1
    {
      hide Inv, Content, Overwrite, PartOk, SameOthers, PartsOk, Logged, Before;
      parts' := parts;
      if whole {
        var p := Part(fs.S(), fs.logged, upto);
        PartIs(fs.g, ino, st0, off0, src, |parts|, prev, p);
        PartsMore(fs.g, ino, st0, off0, src, parts, p);
        parts' := parts + [p];
        BeforeLast(st0, parts, p);
      }
    }

    /** filewrite on an inode. Where it fails it has written a whole number of
        chunks. `logs` is the most blocks that one transaction logged; `parts` is what
        each transaction left, up to the panic if there is one. */
    method Filewrite(src: seq<int>) returns (ok: bool, r: int, ghost done: int, ghost logs: int, ghost parts: seq<Part>)
      requires Valid() && |src| < 0x8000_0000
      modifies this`off, fs`disk, fs`inodes, fs`dinodes, fs`logged
      ensures ok ==> Valid() && 0 <= done <= |src| && off == old(off) + done
      ensures ok ==> (r == |src| && done == |src|) || (r == -1 && done < |src| && done % CHUNK == 0)
      ensures ok ==> (r == -1 <==> |src| > 0 && (old(off) > |old(Data())| || old(off) + |src| > MAXFILE * BSIZE))
      ensures ok && old(off) <= |old(Data())| ==> Data() == Overwrite(old(Data()), old(off), src[..done])
      ensures ok && old(off) > |old(Data())| ==> Data() == old(Data())
      ensures ok ==> SameOthers(old(fs.S()), fs.S(), ino)
      ensures ok && fs.g.size <= BPB ==> logs <= LogLayout.MAXOPBLOCKS - 3
      ensures old(Whole()) ==> PartsOk(fs.g, ino, old(fs.S()), old(off), src, parts)
      ensures ok && old(Whole()) ==> Whole() && fs.S() == Before(old(fs.S()), parts, |parts|)
    {
      hide Content, Overwrite, NoHoles, PartOk, SameOthers, PartsOk, Before, Inv;
      ghost var st0, off0, whole := fs.S(), off, Whole();
      logs, done, parts := 0, 0, [];
      Start(src);
      var i, n := 0, |src|;
      while i < n
        invariant 0 <= i <= n && done == i && (i < n ==> i % CHUNK == 0)
        invariant SoFar(st0, off0, src, i, whole, parts) && (whole && i < n ==> i == |parts| * CHUNK)
        invariant fs.g.size <= BPB ==> logs <= LogLayout.MAXOPBLOCKS - 3
      {
        var n1 := if n - i > CHUNK then CHUNK else n - i;
        ghost var l;
        ok, r, l, parts := WriteNext(src, i, n1, st0, off0, whole, parts);
        if !ok {
          return;
        }
        logs := if l > logs then l else logs;
        if r < 0 {
          break;
        }
        i := i + r;
        done := i;
      }
      ok := true;
      r := if i == n then n else -1;
    }

    /** Nothing has been written yet. */
    lemma Start(src: seq<int>)
      requires Valid()
      ensures SoFar(fs.S(), off, src, 0, Whole(), [])
    {
      hide Overwrite, NoHoles, Owned, OneOwner, MetaInUse, NoLeak, OrphansOk;
      SameOthersSelf(fs.g, fs.S(), ino);
      OverwriteNone(Data(), off);
    }
  }

  lemma BeforeLast(st0: State, parts: seq<Part>, p: Part)
    ensures Before(st0, parts + [p], |parts| + 1) == p.st
  {
  }

  lemma WrittenTwice(c: seq<int>, off: int, src: seq<int>, i: int, n: int)
    requires 0 <= off && 0 <= i && 0 <= n && i + n <= |src| && (i > 0 ==> off <= |c|)
    ensures src[..i + n] == src[..i] + src[i..i + n]
    ensures off <= |c| ==>
              && off + i <= |Written(c, off, src[..i])|
              && Overwrite(Written(c, off, src[..i]), off + i, src[i..i + n]) == Written(c, off, src[..i + n])
    ensures off > |c| ==> i == 0 && Written(c, off, src[..i]) == c
  {
    assert src[..i + n] == src[..i] + src[i..i + n];
    if off <= |c| {
      OverwriteLength(c, off, src[..i]);
      OverwriteTwice(c, off, src[..i], src[i..i + n]);
    }
  }

  lemma PartIs(g: Super, ino: int, st0: State, off: int, src: seq<int>, j: nat, prev: State, p: Part)
    requires Inv(g, p.st, {}) && SameOthers(st0, p.st, ino) && Logged(g, prev, p.st, ino, p.logged)
    requires 0 <= p.upto <= |src| && (p.upto == Chunks(j + 1, src) || (p.upto == j * CHUNK && p.logged == {}))
    requires 0 <= ino < |st0.inodes| && st0.inodes[ino].size >= 0 && p.st.inodes[ino].size >= 0
    requires Content(p.st, ino) == Written(Content(st0, ino), off, src[..p.upto])
    ensures PartOk(g, ino, st0, off, src, j, prev, p)
  {
  }

  lemma OverwriteNone(c: seq<int>, off: nat)
    ensures off <= |c| ==> Overwrite(c, off, []) == c
  {
  }

  lemma OverwriteLength(c: seq<int>, off: nat, a: seq<int>)
    requires off <= |c|
    ensures |Overwrite(c, off, a)| >= off + |a|
  {
  }
}
