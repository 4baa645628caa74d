/** balloc, bfree, bmap, itrunc, readi and writei as they are written. */
module InodeCode {
  import opened InodeLayout
  import opened InodeState
  import opened InodeSteps
  import opened WriteActs

  class FileSystem {
    const g: Super
    var disk: seq<Block>
    var inodes: seq<Inode>
    var dinodes: seq<Inode>  // the inodes as the disk has them
    ghost var logged: set<int>  // blocks that log_write was called for

    ghost function S(): State
      reads this
    {
      State(disk, inodes)
    }

    ghost function X(): Files
      reads this
    {
      Files(S(), dinodes)
    }

    /** Mark a block, and bzero. */
    method Take(b: int)
      requires WellFormed(g, S()) && g.data <= b < g.size
      modifies this`disk, this`logged
      ensures S() == Allocated(g, old(S()), b) && disk[b] == Zeroed()
      ensures logged == old(logged) + {g.bmapstart + b / BPB, b}
      ensures forall i :: Covered(old(S()), S(), i, logged)
    {
      hide Covered;
      disk := SetUse(g, disk, b, true);
      logged := logged + {g.bmapstart + b / BPB};
      disk := disk[b := Zeroed()];
      logged := logged + {b};
      CoveredAlloc(g, old(S()), b, logged);
    }

    /** The first free block, marked and zeroed. It panics when there is none. */
    method Balloc() returns (ok: bool, b: int)
      requires WellFormed(g, S()) && MetaInUse(g, disk)
      modifies this`disk, this`logged
      ensures !ok ==> disk == old(disk) && forall c :: 0 <= c < g.size ==> InUse(g, disk, c)
      ensures ok ==> g.data <= b < g.size && !InUse(g, old(disk), b) && S() == Allocated(g, old(S()), b)
      ensures ok ==> forall c :: 0 <= c < b ==> InUse(g, old(disk), c)
      ensures ok ==> b < |disk| && disk[b] == Zeroed() && logged == old(logged) + {g.bmapstart + b / BPB, b}
      ensures ok ==> forall i :: Covered(old(S()), S(), i, logged)
    {
      hide Covered;
      var base := 0;
      while base < g.size
        invariant 0 <= base && base % BPB == 0 && disk == old(disk) && logged == old(logged)
        invariant forall c :: 0 <= c < base && c < g.size ==> InUse(g, disk, c)
      {
        var bi := 0;
        while bi < BPB && base + bi < g.size
          invariant 0 <= bi <= BPB && disk == old(disk) && logged == old(logged)
          invariant forall c :: 0 <= c < base + bi && c < g.size ==> InUse(g, disk, c)
        {
          assert (base + bi) / BPB == base / BPB && (base + bi) % BPB == bi;
          if BitOf(disk[g.bmapstart + base / BPB].bytes[bi / 8], bi % 8) != 1 {
            b := base + bi;
            assert !InUse(g, disk, b);
            Take(b);
            return true, b;
          }
          bi := bi + 1;
        }
        base := base + BPB;
      }
      ok, b := false, 0;
    }

    /** Free block b: its bit is cleared, no other bit changes and no data block does.
        It panics, and changes nothing, if and only if b is free already. */
    method Bfree(b: int) returns (ok: bool)
      requires WellFormed(g, S()) && 0 <= b < g.size
      modifies this`disk, this`logged
      ensures ok <==> old(InUse(g, disk, b))
      ensures WellFormed(g, S()) && forall c :: g.data <= c < g.size ==> disk[c] == old(disk)[c]
      ensures forall c :: InUse(g, disk, c) <==> old(InUse(g, disk, c)) && c != b
      ensures if ok then disk == SetUse(g, old(disk), b, false) && logged == old(logged) + {g.bmapstart + b / BPB}
              else disk == old(disk) && logged == old(logged)
    {
      hide SetUse;
      FreeUse(g, S(), b);
      SetUseFull(g, S(), b);
      if !TestBit(b) {
        return false;
      }
      disk := SetUse(g, disk, b, false);
      logged := logged + {g.bmapstart + b / BPB};
      ok := true;
    }

    /** The test of a block's bit in its map block. */
    predicate TestBit(b: int)
      requires WellFormed(g, S()) && 0 <= b < g.size
      reads this
      ensures TestBit(b) <==> InUse(g, disk, b)
    {
      BitOf(disk[g.bmapstart + b / BPB].bytes[b % BPB / 8], b % BPB % 8) == 1
    }

    /** Allocate a block and name it in a slot of the inode. */
    method FillSlot(ino: int, q: int) returns (ok: bool, b: int)
      requires Inv(g, S(), {}) && 0 <= ino < |inodes| && 0 <= q <= NDIRECT && inodes[ino].addrs[q] == 0
      modifies this`disk, this`inodes, this`logged
      ensures ok ==> Inv(g, S(), {}) && Extends(old(S()), S()) && Attached(old(S()), S(), Place(ino, q), b) && b != 0
      ensures ok ==> old(logged) <= logged <= old(logged) + MapBlocks(g) + {b} && Covered(old(S()), S(), ino, logged)
      ensures ok ==> Allots(g, old(X()), X(), ino)
    {
      hide InUse, SameBytes, Attached, SetUse, Covered, Allots;
      ghost var st0, x0 := S(), X();
      ok, b := Balloc();
      if ok {
        AllocateKeepsInv(g, st0, b, {});
        AllocatedSame(g, st0, b, {});
        ghost var st1 := S();
        AddrPutAttaches(g, st1, ino, q, b);
        inodes := inodes[ino := inodes[ino].(addrs := inodes[ino].addrs[q := b])];
        CoveredInode(st1, S(), ino, logged);
        CoveredTwice(st0, st1, S(), ino, logged, logged);
        assert S() == AddrPut(st1, ino, q, b);
        AttachedKeepsInv(g, st1, S(), Place(ino, q), b, {b});
        assert {b} - {b} == {};
        AllocThenAttach(st0, st1, S(), Place(ino, q), b);
        AllotsFill(g, x0, X(), ino, q, b);
        assert g.bmapstart + b / BPB in MapBlocks(g);
      }
    }

    /** Allocate a block and name it in a word of the indirect block. */
    method FillWord(ino: int, j: int) returns (ok: bool, b: int)
      requires Inv(g, S(), {}) && 0 <= ino < |inodes| && 0 <= j < NINDIRECT
      requires Ref(S(), Place(ino, NDIRECT)) != 0 && Ref(S(), Place(ino, NDIRECT + 1 + j)) == 0
      modifies this`disk, this`logged
      ensures ok ==> Inv(g, S(), {}) && Extends(old(S()), S()) && b != 0
      ensures ok ==> Attached(old(S()), S(), Place(ino, NDIRECT + 1 + j), b)
      ensures ok ==> logged <= old(logged) + MapBlocks(g) + {b} + Indirect(S(), ino)
      ensures ok ==> old(logged) <= logged && Covered(old(S()), S(), ino, logged)
      ensures ok ==> Allots(g, old(X()), X(), ino)
    {
      hide InUse, SameBytes, Attached, SetUse, PutWord, Covered, Allots;
      ghost var st0, x0 := S(), X();
      var a := inodes[ino].addrs[NDIRECT];
      assert a == Ref(st0, Place(ino, NDIRECT));
      ok, b := Balloc();
      if ok {
        AllocateKeepsInv(g, st0, b, {});
        AllocatedSame(g, st0, b, {});
        ghost var st1 := S();
        assert b != a by {
          OrphanNotNamed(g, st1, b, Place(ino, NDIRECT));
        }
        WordPutAttaches(g, st1, ino, j, b);
        disk := disk[a := PutWord(disk[a], j, b)];
        ghost var logged1 := logged;
        logged := logged + {a};
        CoveredPut(st1, S(), a, ino, logged);
        CoveredTwice(st0, st1, S(), ino, logged1, logged);
        assert S() == WordPutAt(st1, a, j, b);
        AttachedKeepsInv(g, st1, S(), Place(ino, NDIRECT + 1 + j), b, {b});
        assert {b} - {b} == {};
        AllocThenAttach(st0, st1, S(), Place(ino, NDIRECT + 1 + j), b);
        AllotsWord(g, x0, X(), ino, j, b);
        assert g.bmapstart + b / BPB in MapBlocks(g);
        assert a == Ref(S(), Place(ino, NDIRECT));
      }
    }

    /** The disk block of block bn of a file, allocated if there is none. */
    method Bmap(ino: int, bn: int) returns (ok: bool, addr: int)
      requires Inv(g, S(), {}) && 0 <= ino < |inodes| && 0 <= bn < MAXFILE
      modifies this`disk, this`inodes, this`logged
      ensures ok ==> Inv(g, S(), {}) && Extends(old(S()), S())
      ensures ok ==> addr == Ref(S(), Place(ino, Slot(bn))) != 0
      ensures old(Ref(S(), Place(ino, Slot(bn)))) != 0 ==> ok && S() == old(S()) && logged == old(logged)
      ensures ok ==> logged <= old(logged) + MapBlocks(g) + {addr} + Indirect(S(), ino)
      ensures ok ==> old(logged) <= logged && Covered(old(S()), S(), ino, logged)
      ensures ok ==> Allots(g, old(X()), X(), ino)
    {
      hide Owned, OneOwner, MetaInUse, NoLeak, OrphansOk, Extends, Attached, Covered, Allots;
      ghost var st0, x0 := S(), X();
      ExtendsSelf(st0);
      AllotsNone(g, x0, ino);
      CoveredNone(S(), ino, logged);
      ok := true;
      if bn < NDIRECT {
        addr := inodes[ino].addrs[bn];
        assert addr == Ref(S(), Place(ino, Slot(bn)));
        if addr == 0 {
          ok, addr := FillSlot(ino, bn);
          if ok {
            AttachedRef(st0, S(), Place(ino, bn), addr);
          }
        }
      } else {
        ok, addr := BmapIndirect(ino, bn - NDIRECT);
      }
    }

    method BmapIndirect(ino: int, j: int) returns (ok: bool, addr: int)
      requires Inv(g, S(), {}) && 0 <= ino < |inodes| && 0 <= j < NINDIRECT
      modifies this`disk, this`inodes, this`logged
      ensures ok ==> Inv(g, S(), {}) && Extends(old(S()), S())
      ensures ok ==> addr == Ref(S(), Place(ino, NDIRECT + 1 + j)) != 0
      ensures old(Ref(S(), Place(ino, NDIRECT + 1 + j))) != 0 ==> ok && S() == old(S()) && logged == old(logged)
      ensures ok ==> logged <= old(logged) + MapBlocks(g) + {addr} + Indirect(S(), ino)
      ensures ok ==> old(logged) <= logged && Covered(old(S()), S(), ino, logged)
      ensures ok ==> Allots(g, old(X()), X(), ino)
    {
      hide Owned, OneOwner, MetaInUse, NoLeak, OrphansOk, Extends, Attached, Covered, Allots;
      ghost var st0, x0 := S(), X();
      ExtendsSelf(st0);
      AllotsNone(g, x0, ino);
      CoveredNone(S(), ino, logged);
      ok := true;
      addr := inodes[ino].addrs[NDIRECT];
      if addr == 0 {
        ok, addr := FillSlot(ino, NDIRECT);
        if !ok {
          return;
        }
        AttachedRef(st0, S(), Place(ino, NDIRECT), addr);
      }
      ghost var st1, x1, logged1, ind := S(), X(), logged, addr;
      assert ind == Ref(st1, Place(ino, NDIRECT));
      addr := WordAt(disk, addr, j);
      assert addr == Ref(st1, Place(ino, NDIRECT + 1 + j));
      if addr == 0 {
        ok, addr := FillWord(ino, j);
        if ok {
          AttachedRef(st1, S(), Place(ino, NDIRECT + 1 + j), addr);
          ExtendsTwice(st0, st1, S());
          CoveredTwice(st0, st1, S(), ino, logged1, logged);
          AllotsTwice(g, x0, x1, X(), ino);
        }
      }
    }

    /** One round of writei's loop. */
    method WriteChunk(ino: int, off: int, data: seq<int>) returns (ok: bool, ghost addr: int)
      requires Inv(g, S(), {}) && 0 <= ino < |inodes|
      requires 0 <= off && 0 < |data| && off % BSIZE + |data| <= BSIZE && off + |data| <= MAXFILE * BSIZE
      modifies this`disk, this`inodes, this`logged
      ensures ok ==> Inv(g, S(), {}) && Grew(old(S()), S()) && Patched(old(S()), S(), ino, off, data)
      ensures ok ==> Ref(S(), Place(ino, Slot(off / BSIZE))) != 0
      ensures ok ==> logged <= old(logged) + MapBlocks(g) + {addr} + Indirect(S(), ino)
      ensures ok ==> old(logged) <= logged && Covered(old(S()), S(), ino, logged)
      ensures old(Ref(S(), Place(ino, Slot(off / BSIZE)))) != 0 ==> ok && inodes == old(inodes)
      ensures ok && |old(dinodes)| == |old(inodes)| ==> PutsBlock(g, old(X()), X(), ino, off, data)
    {
      hide Owned, OneOwner, MetaInUse, NoLeak, OrphansOk, Ref, Patched, Grew, ByteAt, Covered, Allots, PutsBlock;
      ghost var st0, x0 := S(), X();
      var bn := off / BSIZE;
      var a: int;
      ok, a := Bmap(ino, bn);
      addr := a;
      if ok {
        ghost var st1, x1 := S(), X();
        DataPutWrites(g, st1, ino, bn, off % BSIZE, data, {});
        disk := disk[a := PutBytes(disk[a], off % BSIZE, data)];
        ghost var logged1 := logged;
        logged := logged + {a};
        CoveredPut(st1, S(), a, ino, logged);
        CoveredTwice(st0, st1, S(), ino, logged1, logged);
        assert S() == DataPut(st1, a, off % BSIZE, data);
        ChunkPatches(g, st0, st1, S(), ino, off, data, {});
        assert Indirect(S(), ino) == Indirect(st1, ino);
        if |dinodes| == |inodes| {
          ReadyFrom(g, x1, ino, {}, Data(off, data), {});
          PutsNamed(g, x0, x1, X(), ino, off, data);
        }
      }
    }

    /** writei's loop. */
    method WriteAll(ino: int, off: int, src: seq<int>) returns (ok: bool, ghost d: set<int>)
      requires Inv(g, S(), {}) && 0 <= ino < |inodes| && 0 <= off && off + |src| <= MAXFILE * BSIZE
      modifies this`disk, this`inodes, this`logged
      ensures ok ==> Inv(g, S(), {}) && Grew(old(S()), S()) && Patched(old(S()), S(), ino, off, src)
      ensures ok ==> Backed(S(), ino, off, off + |src|)
      ensures old(NoHoles(S(), ino)) && off + |src| <= old(inodes[ino].size) ==> ok && inodes == old(inodes)
      ensures ok ==> logged <= old(logged) + MapBlocks(g) + Indirect(S(), ino) + d
      ensures ok ==> |d| <= Span(off, off + |src|)
      ensures ok ==> old(logged) <= logged && Covered(old(S()), S(), ino, logged)
      ensures ok && |old(dinodes)| == |old(inodes)| ==> Wrote(g, Call(ino, off, src), old(X()), X(), |src|)
    {
      hide PutsBlock, Wrote, Progress, Inv, Ref, MapBlocks, Indirect, Span, Min, NoHoles, Grew, Patched, Logs, Covered;
      ghost var st0, x0, logged0 := S(), X(), logged;
      ghost var c := Call(ino, off, src);
      WroteNone(g, c, x0);
      ProgressNone(st0, ino, off, src);
      LogsNone(logged0, MapBlocks(g) + Indirect(st0, ino));
      CoveredNone(S(), ino, logged);
      var n := |src|;
      var tot, o := 0, off;
      d := {};
      while tot < n
        invariant 0 <= tot <= n && o == off + tot && 0 <= ino < |inodes|
        invariant tot < n && tot > 0 ==> o % BSIZE == 0
        invariant Inv(g, S(), {}) && Progress(st0, S(), ino, off, src, tot)
        invariant NoHoles(st0, ino) && off + n <= st0.inodes[ino].size ==> inodes == st0.inodes
        invariant Logs(logged0, logged, MapBlocks(g) + Indirect(S(), ino), d, Span(off, o))
        invariant logged0 <= logged && Covered(st0, S(), ino, logged)
        invariant |x0.dinodes| == |st0.inodes| ==> Wrote(g, c, x0, X(), tot) && |inodes| == |st0.inodes|
      {
        var m := Min(n - tot, BSIZE - o % BSIZE);
        ChunkEnds(n - tot, o);
        ghost var st1, x1, logged1 := S(), X(), logged;
        ProgressWhole(st0, st1, ino, off, src, tot);
        ghost var addr;
        ok, addr := WriteChunk(ino, o, src[tot..tot + m]);
        if !ok {
          return;
        }
        ProgressMore(st0, st1, S(), ino, off, src, tot, m);
        CoveredTwice(st0, st1, S(), ino, logged1, logged);
        SpanMore(off, o, m);
        LogsMore(logged0, logged1, logged, MapBlocks(g), Indirect(st1, ino), Indirect(S(), ino), d, addr, Span(off, o));
        if |x0.dinodes| == |st0.inodes| {
          WroteMore(g, c, x0, x1, X(), tot, src[tot..tot + m]);
        }
        d := d + {addr};
        tot := tot + m;
        o := o + m;
      }
      ProgressDone(st0, S(), ino, off, src);
      LogsDone(logged0, logged, MapBlocks(g), Indirect(S(), ino), d, Span(off, o));
      ok := true;
    }

    /** writei. ok is false where balloc panics. */
    method Writei(ino: int, off: int, src: seq<int>) returns (ok: bool, r: int)
      requires Inv(g, S(), {}) && 0 <= ino < |inodes| == |dinodes| && 0 <= off < WORD && |src| < WORD
      modifies this`disk, this`inodes, this`dinodes, this`logged
      ensures r == -1 <==> off > old(inodes[ino].size) || off + |src| > MAXFILE * BSIZE
      ensures r == -1 ==> ok && S() == old(S()) && dinodes == old(dinodes) && logged == old(logged)
      ensures ok ==> |dinodes| == |inodes| == old(|inodes|)
      ensures ok && r != -1 ==> r == |src|
      ensures ok && r != -1 ==>
        && Inv(g, S(), {})
        && Content(S(), ino) == Overwrite(old(Content(S(), ino)), off, src)
        && (forall i :: 0 <= i < |inodes| && i != ino ==> Content(S(), i) == old(Content(S(), i)))
      ensures ok && r != -1 && old(NoHoles(S(), ino)) ==> NoHoles(S(), ino)
      ensures ok && old(NoHoles(S(), ino)) && old(dinodes[ino] == inodes[ino]) ==>
                dinodes[ino] == inodes[ino]
      ensures ok && r != -1 && g.size <= BPB ==> |logged - old(logged)| <= Span(off, off + |src|) + 3
      ensures ok ==> old(logged) <= logged && Covered(old(S()), S(), ino, logged)
      ensures ok ==> forall i :: 0 <= i < |dinodes| && dinodes[i] != old(dinodes)[i] ==>
                                   i == ino && g.inodestart + i / IPB in logged
      ensures ok && r != -1 ==> Wrote(g, Call(ino, off, src), old(X()), X(), |src|)
    {
      hide Covered, Owned, OneOwner, MetaInUse, NoLeak, OrphansOk, Ref, ByteAt, Patched, NoHoles, Backed;
      hide MapBlocks, Indirect, Span, Overwrite, Wrote;
      ghost var st0, x0, logged0 := S(), X(), logged;
      var n := |src|;
      WrapIsTooLong(off, n);
      CoveredNone(S(), ino, logged);
      if off > inodes[ino].size || (off + n) % WORD < off {
        return true, -1;
      }
      if off + n > MAXFILE * BSIZE {
        return true, -1;
      }
      ghost var d;
      ok, d := WriteAll(ino, off, src);
      r := n;
      if !ok {
        return;
      }
      ghost var st2, x2 := S(), X();
      var size := inodes[ino].size;
      if n > 0 && off + n > size {
        size := off + n;
        inodes := inodes[ino := inodes[ino].(size := size)];
        dinodes := dinodes[ino := inodes[ino]];
        ghost var logged1 := logged;
        logged := logged + {g.inodestart + ino / IPB};
        WroteGrown(g, Call(ino, off, src), x0, x2, X());
        CoveredInode(st2, S(), ino, logged);
        CoveredTwice(st0, st2, S(), ino, logged1, logged);
      }
      assert st2.inodes[ino := st2.inodes[ino].(size := size)] == inodes;
      SizePut(g, st2, ino, size, {});
      WrittenContents(st0, st2, S(), ino, off, src);
      WrittenHoles(st0, st2, S(), ino, off, src);
      LogCount(g, logged0, logged, d, Indirect(st2, ino), g.inodestart + ino / IPB, Span(off, off + n));
    }

    /** readi. In a file without holes it changes nothing at all; in a hole bmap
        allocates a zeroed block. */
    method Readi(ino: int, off: int, len: int) returns (ok: bool, r: int, dst: seq<int>)
      requires Inv(g, S(), {}) && 0 <= ino < |inodes| && 0 <= off < WORD && 0 <= len < WORD
      modifies this`disk, this`inodes, this`logged
      ensures r == -1 <==> off > old(inodes[ino].size) || off + len >= WORD
      ensures ok && r != -1 ==>
        r == |dst| && dst == old(Content(S(), ino))[off..Min(off + len, old(inodes[ino].size))]
      ensures ok ==> Inv(g, S(), {}) && |inodes| == old(|inodes|)
      ensures ok ==> forall i :: 0 <= i < |inodes| ==> Content(S(), i) == old(Content(S(), i))
      ensures r == -1 || old(NoHoles(S(), ino)) ==> ok && S() == old(S())
    {
      hide Owned, OneOwner, MetaInUse, NoLeak, OrphansOk, Ref, NoHoles, Extends, ByteAt;
      hide Bytes, Content, Covered, MapBlocks, Indirect, Allots;
      ghost var st0 := S();
      ExtendsSelf(st0);
      BytesNone(st0, ino, off);
      WrapIsTooLong(off, len);
      dst := [];
      if off > inodes[ino].size || (off + len) % WORD < off {
        return true, -1, [];
      }
      var n := if off + len > inodes[ino].size then inodes[ino].size - off else len;
      r := n;
      var tot, o := 0, off;
      while tot < n
        invariant 0 <= tot <= n && o == off + tot && |dst| == tot && n == Min(off + len, st0.inodes[ino].size) - off
        invariant Inv(g, S(), {}) && Extends(st0, S()) && |inodes| == |st0.inodes|
        invariant NoHoles(st0, ino) ==> S() == st0
        invariant dst == Bytes(st0, ino, off, tot)
      {
        ghost var st1 := S();
        BlockThere(st0, ino, o);
        var a;
        ok, a := Bmap(ino, o / BSIZE);
        if !ok {
          return;
        }
        var m := Min(n - tot, BSIZE - o % BSIZE);
        ExtendsTwice(st0, st1, S());
        ExtendsShape(st0, S());
        NamedIsBlock(g, S(), ino, o / BSIZE);
        ChunkBytes(st0, S(), ino, o, m);
        BytesMore(st0, ino, off, tot, m);
        dst := dst + disk[a].bytes[o % BSIZE..o % BSIZE + m];
        tot := tot + m;
        o := o + m;
      }
      ok := true;
      ExtendsShape(st0, S());
      ExtendsContents(st0, S());
      BytesAreContent(st0, ino, off, n);
    }

    /** Free the block in a direct slot, if there is one. */
    method FreeSlot(ino: int, q: int)
      requires Inv(g, S(), {}) && 0 <= ino < |inodes| && 0 <= q < NDIRECT
      modifies this`disk, this`inodes, this`logged
      ensures Inv(g, S(), {}) && Cut(g, old(S()), S(), ino, q, q + 1) && |inodes| == old(|inodes|)
    {
      hide Owned, OneOwner, MetaInUse, NoLeak, OrphansOk, Ref, InUse, ByteAt, RefSet, SetUse, Cut;
      ghost var st := S();
      DirectRef(g, st, ino, q);
      if inodes[ino].addrs[q] != 0 {
        var ok := Bfree(inodes[ino].addrs[q]);
        assert ok;
        inodes := inodes[ino := inodes[ino].(addrs := inodes[ino].addrs[q := 0])];
        DirectCut(g, st, ino, q);
        assert S() == AddrPut(st.(disk := SetUse(g, st.disk, st.inodes[ino].addrs[q], false)), ino, q, 0);
      } else {
        CutEmpty(g, st, ino, q);
      }
      CutKeepsInv(g, st, S(), ino, q, q + 1);
    }

    /** itrunc. */
    method Itrunc(ino: int)
      requires Inv(g, S(), {}) && 0 <= ino < |inodes| == |dinodes|
      modifies this`disk, this`inodes, this`dinodes, this`logged
      ensures Inv(g, S(), {}) && |inodes| == |dinodes| == old(|inodes|) && dinodes[ino] == inodes[ino]
      ensures inodes[ino].size == 0 && forall q :: Ref(S(), Place(ino, q)) == 0
      ensures forall p: Place :: p.ino != ino ==> Ref(S(), p) == old(Ref(S(), p))
      ensures forall c :: InUse(g, disk, c) <==> old(InUse(g, disk, c)) && c !in old(RefSet(S(), ino, 0, PLACES))
      ensures forall i :: 0 <= i < |inodes| && i != ino ==> Content(S(), i) == old(Content(S(), i))
    {
      hide Owned, OneOwner, MetaInUse, NoLeak, OrphansOk, Ref, InUse, ByteAt, RefSet;
      ghost var st0 := S();
      CutNone(g, st0, ino, 0);
      var i := 0;
      while i < NDIRECT
        invariant 0 <= i <= NDIRECT && Inv(g, S(), {}) && Cut(g, st0, S(), ino, 0, i)
        invariant |inodes| == |dinodes| == |st0.inodes|
      {
        ghost var st1 := S();
        FreeSlot(ino, i);
        CutTwice(g, st0, st1, S(), ino, 0, i, i + 1);
        i := i + 1;
      }
      ghost var st1 := S();
      FreeIndirect(ino);
      CutTwice(g, st0, st1, S(), ino, 0, NDIRECT, PLACES);
      ghost var st2 := S();
      inodes := inodes[ino := inodes[ino].(size := 0)];
      dinodes := dinodes[ino := inodes[ino]];
      SizePut(g, st2, ino, 0, {});
      CutAll(g, st0, st2, S(), ino);
    }

    /** The indirect half of itrunc. */
    method FreeIndirect(ino: int)
      requires Inv(g, S(), {}) && 0 <= ino < |inodes|
      modifies this`disk, this`inodes, this`logged
      ensures Inv(g, S(), {}) && Cut(g, old(S()), S(), ino, NDIRECT, PLACES)
    {
      hide Owned, OneOwner, MetaInUse, NoLeak, OrphansOk, Ref, InUse, ByteAt, RefSet, SetUse, Cut;
      ghost var st0 := S();
      var a := inodes[ino].addrs[NDIRECT];
      DirectRef(g, st0, ino, NDIRECT);
      if a == 0 {
        NoIndirect(g, st0, ino);
        CutKeepsInv(g, st0, st0, ino, NDIRECT, PLACES);
        return;
      }
      FreedNone(g, st0, ino);
      var j := 0;
      while j < NINDIRECT
        invariant 0 <= j <= NINDIRECT && inodes == st0.inodes
        invariant Freed(g, st0, S(), ino, j)
      {
        ghost var st1 := S();
        FreedWord(g, st0, st1, ino, j);
        var w := WordAt(disk, a, j);
        if w != 0 {
          var ok := Bfree(w);
          assert ok;
        }
        FreedMore(g, st0, st1, S(), ino, j);
        j := j + 1;
      }
      ghost var st2 := S();
      FreedSlot(g, st0, st2, ino);
      var ok := Bfree(a);
      assert ok;
      inodes := inodes[ino := inodes[ino].(addrs := inodes[ino].addrs[NDIRECT := 0])];
      assert S() == AddrPut(st2.(disk := SetUse(g, st2.disk, a, false)), ino, NDIRECT, 0);
      FreedAll(g, st0, st2, ino);
      CutKeepsInv(g, st0, S(), ino, NDIRECT, PLACES);
    }
  }
}
