/** Several processes write different files at the same time, each chunk a transaction,
    their actions interleaved in any order. Whenever no transaction is running, the
    file system is consistent and every file has a whole number of its own chunks. */
module FileWriters {
  import opened InodeLayout
  import opened InodeState
  import opened InodeSteps
  import opened FileCode
  import opened WriteActs

  const NONE := -1

  /** A filewrite of src to file ino at offset off. */
  datatype Writer = Writer(ino: int, off: int, src: seq<int>)

  /** How far it is: k chunks are finished, tot bytes are written. `mine` are the blocks
      that it has marked and not yet named; op is its transaction, if one is running. */
  datatype Prog = Prog(k: nat, tot: int, mine: set<int>, op: int)

  datatype Job = Job(g: Super, st0: State, writers: seq<Writer>)

  /** `orphans` are all blocks that are marked and not yet named. */
  datatype Sys = Sys(x: Files, w: seq<Prog>, orphans: set<int>)

  ghost predicate JobOk(j: Job) {
    && Inv(j.g, j.st0, {})
    && (forall i :: 0 <= i < |j.writers| ==> 0 <= j.writers[i].ino < |j.st0.inodes| && 0 <= j.writers[i].off)
    && (forall i, k :: 0 <= i < k < |j.writers| ==> j.writers[i].ino != j.writers[k].ino)
  }

  function Start(j: Job): Sys {
    Sys(Files(j.st0, j.st0.inodes), seq(|j.writers|, i => Prog(0, 0, {}, NONE)), {})
  }

  /** The size of a file after n bytes have been written from off on. */
  function GrownTo(size: int, off: int, n: int): int {
    if n > 0 && off + n > size then off + n else size
  }

  // Steps.

  predicate Index(j: Job, s: Sys, i: int) {
    0 <= i < |j.writers| == |s.w|
  }

  /** writei puts the bytes of a chunk in order, and raises the size after the last. It
      refuses to start behind the end of the file. */
  ghost predicate MayAct(j: Job, s: Sys, i: int, a: Act) {
    && Index(j, s, i) && s.w[i].op != NONE && ActOk(j.g, s.x, j.writers[i].ino, s.w[i].mine, a)
    && var v, w := j.writers[i], s.w[i];
       match a
       case Data(o, data) =>
         && 0 <= v.ino < |j.st0.inodes| && v.off <= j.st0.inodes[v.ino].size && o == v.off + w.tot
         && 0 <= w.tot && w.tot + |data| <= Chunks(w.k + 1, v.src) && data == v.src[w.tot..w.tot + |data|]
       case Grow(size) => w.tot == Chunks(w.k + 1, v.src) && size == v.off + w.tot
       case _ => true
  }

  function Moved(w: Prog, a: Act): Prog {
    w.(tot := if a.Data? then w.tot + |a.data| else w.tot, mine := Took(w.mine, a))
  }

  ghost function Acted(j: Job, s: Sys, i: int, a: Act): Sys
    requires Index(j, s, i) && Ready(j.g, s.x, j.writers[i].ino, s.w[i].mine, a)
  {
    Sys(Do(j.g, s.x, j.writers[i].ino, s.w[i].mine, a), s.w[i := Moved(s.w[i], a)], Took(s.orphans, a))
  }

  predicate MayBegin(j: Job, s: Sys, i: int) {
    Index(j, s, i) && s.w[i].op == NONE && Chunks(s.w[i].k, j.writers[i].src) < |j.writers[i].src|
  }

  function Begun(s: Sys, i: int, o: int): Sys
    requires 0 <= i < |s.w|
  {
    s.(w := s.w[i := s.w[i].(op := o)])
  }

  /** writei has returned: the chunk is written, the size is right and the inode is on
      its block; or it was refused and nothing was done. */
  predicate MayEnd(j: Job, s: Sys, i: int) {
    && Index(j, s, i) && s.w[i].op != NONE && s.w[i].mine == {}
    && var v, w := j.writers[i], s.w[i];
       && InoOk(s.x, v.ino) && s.x.dinodes[v.ino] == s.x.st.inodes[v.ino]
       && (w.tot == Chunks(w.k, v.src) || (w.tot == Chunks(w.k + 1, v.src) && s.x.st.inodes[v.ino].size >= v.off + w.tot))
  }

  function Ended(j: Job, s: Sys, i: int): Sys
    requires Index(j, s, i)
  {
    var w := s.w[i];
    s.(w := s.w[i := w.(op := NONE, k := if w.tot == Chunks(w.k, j.writers[i].src) then w.k else w.k + 1)])
  }

  // The invariant.

  ghost predicate FileBytes(j: Job, s: Sys, i: int)
    requires Index(j, s, i)
  {
    var v, w := j.writers[i], s.w[i];
    forall k :: 0 <= k < MAXFILE * BSIZE ==>
      ByteAt(s.x.st, v.ino, k)
      == if v.off <= k < v.off + w.tot && k - v.off < |v.src| then v.src[k - v.off] else ByteAt(j.st0, v.ino, k)
  }

  ghost predicate WriterOk(j: Job, s: Sys, i: int)
    requires Index(j, s, i)
  {
    var v, w := j.writers[i], s.w[i];
    && InoOk(s.x, v.ino) && |s.x.st.inodes| == |j.st0.inodes| && 0 <= v.off
    && var size0, size := j.st0.inodes[v.ino].size, s.x.st.inodes[v.ino].size;
    && Chunks(w.k, v.src) <= w.tot <= Chunks(w.k + 1, v.src)
    && (w.tot > 0 ==> v.off <= size0 && v.off + w.tot <= MAXFILE * BSIZE)
    && (|| size == GrownTo(size0, v.off, Chunks(w.k, v.src))
        || (w.tot == Chunks(w.k + 1, v.src) && size == GrownTo(size0, v.off, w.tot)))
    && w.mine <= s.orphans && (w.op != NONE ==> Chunks(w.k, v.src) < |v.src|)
    && (w.op == NONE ==> w.mine == {} && w.tot == Chunks(w.k, v.src) && s.x.dinodes[v.ino] == s.x.st.inodes[v.ino])
  }

  predicate Unwritten(j: Job, ino: int) {
    forall i :: 0 <= i < |j.writers| ==> j.writers[i].ino != ino
  }

  /** A file that nobody writes is as it was. */
  ghost predicate Untouched(j: Job, s: Sys, ino: int) {
    && 0 <= ino < |j.st0.inodes| == |s.x.st.inodes| == |s.x.dinodes|
    && s.x.st.inodes[ino] == s.x.dinodes[ino] == j.st0.inodes[ino]
    && forall k :: 0 <= k < MAXFILE * BSIZE ==> ByteAt(s.x.st, ino, k) == ByteAt(j.st0, ino, k)
  }

  /** Each orphan is one writer's. */
  ghost predicate Shares(w: seq<Prog>, orphans: set<int>) {
    && (forall b :: b in orphans ==> exists i :: 0 <= i < |w| && b in w[i].mine)
    && (forall i, b :: 0 <= i < |w| && b in w[i].mine ==> b in orphans)
    && (forall i, k {:trigger w[i].mine, w[k].mine} :: 0 <= i < k < |w| ==> w[i].mine !! w[k].mine)
  }

  ghost predicate Good(j: Job, s: Sys) {
    && |s.w| == |j.writers| && Inv(j.g, s.x.st, s.orphans) && Shares(s.w, s.orphans)
    && |s.x.st.inodes| == |s.x.dinodes| == |j.st0.inodes| && |s.x.st.disk| == |j.st0.disk|
    && (forall i {:trigger WriterOk(j, s, i)} :: 0 <= i < |s.w| ==> WriterOk(j, s, i) && FileBytes(j, s, i))
    && (forall ino {:trigger Untouched(j, s, ino)} :: 0 <= ino < |j.st0.inodes| && Unwritten(j, ino) ==> Untouched(j, s, ino))
  }

  lemma StartGood(j: Job)
    requires JobOk(j)
    ensures Good(j, Start(j))
  {
    hide Owned, OneOwner, MetaInUse, NoLeak, OrphansOk, ByteAt;
    var s := Start(j);
    forall i | 0 <= i < |s.w|
      ensures WriterOk(j, s, i) && FileBytes(j, s, i)
    {
    }
  }

  // An action.

  lemma SharesAfter(w: seq<Prog>, orphans: set<int>, i: int, a: Act)
    requires Shares(w, orphans) && 0 <= i < |w| && (a.Mark? ==> a.b !in orphans)
    requires a.Fill? || a.FillWord? ==> a.b in w[i].mine
    ensures Shares(w[i := Moved(w[i], a)], Took(orphans, a))
  {
    var w' := w[i := Moved(w[i], a)];
    forall b | b in Took(orphans, a)
      ensures exists k :: 0 <= k < |w'| && b in w'[k].mine
    {
      if a.Mark? && b == a.b {
        assert b in w'[i].mine;
      } else {
        var k :| 0 <= k < |w| && b in w[k].mine;
        assert b in w'[k].mine;
      }
    }
    forall k, b | 0 <= k < |w'| && b in w'[k].mine
      ensures b in Took(orphans, a)
    {
      if k != i {
        assert b in w[k].mine;
        assert w[i].mine !! w[k].mine;
      }
    }
    forall k, l {:trigger w'[k].mine, w'[l].mine} | 0 <= k < l < |w'|
      ensures w'[k].mine !! w'[l].mine
    {
      assert w[k].mine !! w[l].mine;
      assert forall b :: b in w[k].mine ==> b in orphans;
      assert forall b :: b in w[l].mine ==> b in orphans;
    }
  }

  lemma MarkIsNew(g: Super, st: State, orphans: set<int>, b: int)
    requires Inv(g, st, orphans) && !InUse(g, st.disk, b)
    ensures b !in orphans
  {
    hide InUse;
  }

  /** The writer that acts. */
  lemma ActorBytes(j: Job, s: Sys, i: int, a: Act, s': Sys)
    requires MayAct(j, s, i, a) && Index(j, s', i) && s'.w[i] == Moved(s.w[i], a) && FileBytes(j, s, i)
    requires Puts(s.x.st, s'.x.st, j.writers[i].ino, a) && 0 <= s.w[i].tot
    ensures FileBytes(j, s', i)
  {
    hide ByteAt, ActOk, Chunks;
    var v, w := j.writers[i], s.w[i];
    if a.Data? {
      assert Chunks(w.k + 1, v.src) <= |v.src| by { ChunksWithin(w.k + 1, v.src); }
      forall k | 0 <= k < MAXFILE * BSIZE
        ensures ByteAt(s'.x.st, v.ino, k)
             == if v.off <= k < v.off + w.tot + |a.data| && k - v.off < |v.src| then v.src[k - v.off] else ByteAt(j.st0, v.ino, k)
      {
        if a.o <= k < a.o + |a.data| {
          assert a.data[k - a.o] == v.src[w.tot..w.tot + |a.data|][k - a.o] == v.src[k - v.off];
        }
      }
    }
  }

  lemma ChunksWithin(k: nat, src: seq<int>)
    ensures 0 <= Chunks(k, src) <= |src| && Chunks(k, src) <= Chunks(k + 1, src)
    ensures Chunks(k, src) < |src| ==> Chunks(k, src) < Chunks(k + 1, src)
  {
  }

  lemma ActorOk(j: Job, s: Sys, i: int, a: Act)
    requires MayAct(j, s, i, a) && Ready(j.g, s.x, j.writers[i].ino, s.w[i].mine, a) && WriterOk(j, s, i)
    requires Took(s.w[i].mine, a) <= Took(s.orphans, a)
    ensures WriterOk(j, Acted(j, s, i, a), i)
  {
    hide Ready, Do, Chunks, Owned, WellFormed;
    var v, w := j.writers[i], s.w[i];
    ActFrame(j.g, s.x, v.ino, w.mine, a);
    ChunksWithin(w.k, v.src);
    ChunksWithin(w.k + 1, v.src);
  }

  /** A writer that does not act. */
  lemma OtherWriterOk(j: Job, s: Sys, s': Sys, i: int, ino: int, a: Act)
    requires Index(j, s, i) && Index(j, s', i) && WriterOk(j, s, i) && FileBytes(j, s, i) && j.writers[i].ino != ino
    requires s'.w[i] == s.w[i] && s'.w[i].mine <= s'.orphans && Puts(s.x.st, s'.x.st, ino, a)
    requires |s'.x.st.inodes| == |s.x.st.inodes| == |s'.x.dinodes|
    requires s'.x.st.inodes[j.writers[i].ino] == s.x.st.inodes[j.writers[i].ino]
    requires s'.x.dinodes[j.writers[i].ino] == s.x.dinodes[j.writers[i].ino]
    ensures WriterOk(j, s', i) && FileBytes(j, s', i)
  {
    hide ByteAt, Chunks;
  }

  lemma StillUntouched(j: Job, s: Sys, s': Sys, file: int, ino: int, a: Act)
    requires Untouched(j, s, file) && file != ino && Puts(s.x.st, s'.x.st, ino, a)
    requires |s'.x.st.inodes| == |s.x.st.inodes| == |s'.x.dinodes|
    requires s'.x.st.inodes[file] == s.x.st.inodes[file] && s'.x.dinodes[file] == s.x.dinodes[file]
    ensures Untouched(j, s', file)
  {
    hide ByteAt;
  }

  /** Any action of any writer keeps the invariant of all. */
  lemma ActGood(j: Job, s: Sys, i: int, a: Act)
    requires JobOk(j) && Good(j, s) && MayAct(j, s, i, a)
    ensures Ready(j.g, s.x, j.writers[i].ino, s.w[i].mine, a) && Good(j, Acted(j, s, i, a))
  {
    hide Inv, Shares, Puts, WriterOk, FileBytes, Untouched, Unwritten, ActOk, Ready, Do;
    var v, w := j.writers[i], s.w[i];
    assert WriterOk(j, s, i);
    WriterFacts(j, s, i);
    ReadyFrom(j.g, s.x, v.ino, w.mine, a, s.orphans);
    ActKeeps(j.g, s.x, v.ino, w.mine, a, s.orphans);
    ActFrame(j.g, s.x, v.ino, w.mine, a);
    var s' := Acted(j, s, i, a);
    NewOrOwn(j.g, s.x, v.ino, w.mine, a, s.orphans);
    SharesAfter(s.w, s.orphans, i, a);
    forall k | 0 <= k < |s'.w|
      ensures WriterOk(j, s', k) && FileBytes(j, s', k)
    {
      assert WriterOk(j, s, k);
      SharesHas(s'.w, s'.orphans, k);
      if k == i {
        ActorOk(j, s, i, a);
        ActorBytes(j, s, i, a, s');
      } else {
        WriterFacts(j, s, k);
        Distinct(j, i, k);
        OtherWriterOk(j, s, s', k, v.ino, a);
      }
    }
    forall ino | 0 <= ino < |j.st0.inodes| && Unwritten(j, ino)
      ensures Untouched(j, s', ino)
    {
      assert Untouched(j, s, ino);
      NotTheWriter(j, ino, i);
      StillUntouched(j, s, s', ino, v.ino, a);
    }
  }

  lemma WriterFacts(j: Job, s: Sys, i: int)
    requires Index(j, s, i) && WriterOk(j, s, i)
    ensures s.w[i].mine <= s.orphans && 0 <= s.w[i].tot && InoOk(s.x, j.writers[i].ino)
  {
  }

  lemma NewOrOwn(g: Super, x: Files, ino: int, mine: set<int>, a: Act, orphans: set<int>)
    requires Inv(g, x.st, orphans) && ActOk(g, x, ino, mine, a)
    ensures (a.Mark? ==> a.b !in orphans) && (a.Fill? || a.FillWord? ==> a.b in mine)
  {
    hide Inv, InUse;
    if a.Mark? {
      MarkIsNew(g, x.st, orphans, a.b);
    }
  }

  lemma SharesHas(w: seq<Prog>, orphans: set<int>, i: int)
    requires Shares(w, orphans) && 0 <= i < |w|
    ensures w[i].mine <= orphans
  {
    assert forall b :: b in w[i].mine ==> b in orphans;
  }

  lemma Distinct(j: Job, i: int, k: int)
    requires JobOk(j) && 0 <= i < |j.writers| && 0 <= k < |j.writers| && i != k
    ensures j.writers[i].ino != j.writers[k].ino
  {
  }

  lemma NotTheWriter(j: Job, ino: int, i: int)
    requires Unwritten(j, ino) && 0 <= i < |j.writers|
    ensures ino != j.writers[i].ino
  {
  }

  // Beginning and ending.

  /** Only writer i has changed, and neither the files nor what is marked. */
  lemma ProgGood(j: Job, s: Sys, i: int, w: Prog)
    requires Good(j, s) && Index(j, s, i) && w.mine == s.w[i].mine && w.tot == s.w[i].tot
    requires WriterOk(j, s.(w := s.w[i := w]), i)
    ensures Good(j, s.(w := s.w[i := w]))
  {
    hide Inv, WriterOk, FileBytes, Untouched, Unwritten;
    var s' := s.(w := s.w[i := w]);
    SharesSame(s.w, s.orphans, i, w);
    forall k | 0 <= k < |s'.w|
      ensures WriterOk(j, s', k) && FileBytes(j, s', k)
    {
      assert WriterOk(j, s, k);
      if k != i {
        SameWriter(j, s, s', k);
      }
      SameFileBytes(j, s, s', k);
    }
    forall ino | 0 <= ino < |j.st0.inodes| && Unwritten(j, ino)
      ensures Untouched(j, s', ino)
    {
      assert Untouched(j, s, ino);
      SameUntouched(j, s, s', ino);
    }
  }

  lemma SharesSame(w: seq<Prog>, orphans: set<int>, i: int, p: Prog)
    requires Shares(w, orphans) && 0 <= i < |w| && p.mine == w[i].mine
    ensures Shares(w[i := p], orphans)
  {
    var w' := w[i := p];
    assert forall k :: 0 <= k < |w| ==> w'[k].mine == w[k].mine;
    forall b | b in orphans
      ensures exists k :: 0 <= k < |w'| && b in w'[k].mine
    {
      var k :| 0 <= k < |w| && b in w[k].mine;
      assert b in w'[k].mine;
    }
  }

  lemma SameWriter(j: Job, s: Sys, s': Sys, k: int)
    requires Index(j, s, k) && Index(j, s', k) && WriterOk(j, s, k) && s'.w[k] == s.w[k] && s'.x == s.x && s'.orphans == s.orphans
    ensures WriterOk(j, s', k)
  {
  }

  lemma SameFileBytes(j: Job, s: Sys, s': Sys, k: int)
    requires Index(j, s, k) && Index(j, s', k) && FileBytes(j, s, k) && s'.w[k].tot == s.w[k].tot && s'.x == s.x
    ensures FileBytes(j, s', k)
  {
  }

  lemma SameUntouched(j: Job, s: Sys, s': Sys, ino: int)
    requires Untouched(j, s, ino) && s'.x == s.x
    ensures Untouched(j, s', ino)
  {
  }

  lemma BeginGood(j: Job, s: Sys, i: int, o: int)
    requires Good(j, s) && MayBegin(j, s, i) && o != NONE
    ensures Good(j, Begun(s, i, o))
  {
    hide Inv, Shares, FileBytes, Untouched, Unwritten;
    assert WriterOk(j, s, i);
    ProgGood(j, s, i, s.w[i].(op := o));
  }

  lemma EndGood(j: Job, s: Sys, i: int)
    requires Good(j, s) && MayEnd(j, s, i)
    ensures Good(j, Ended(j, s, i))
  {
    hide Inv, Shares, FileBytes, Untouched, Unwritten, Chunks;
    assert WriterOk(j, s, i);
    var v, w := j.writers[i], s.w[i];
    ChunksWithin(w.k, v.src);
    ChunksWithin(w.k + 1, v.src);
    ProgGood(j, s, i, Ended(j, s, i).w[i]);
  }

  // When nobody writes.

  predicate Quiet(s: Sys) {
    forall i :: 0 <= i < |s.w| ==> s.w[i].op == NONE
  }

  /** st is consistent; each file that is written is the old one with its first chunks
      laid over it, the others are the old ones. */
  ghost predicate HasChunks(j: Job, w: seq<Prog>, st: State) {
    && Inv(j.g, st, {}) && |st.inodes| == |j.st0.inodes| && |w| == |j.writers|
    && (forall i {:trigger w[i]} :: 0 <= i < |w| ==> FileHas(j.st0, st, j.writers[i], w[i].k))
    && (forall ino :: 0 <= ino < |j.st0.inodes| && Unwritten(j, ino) ==> SameFile(j.st0, st, ino))
  }

  ghost predicate FileHas(st0: State, st: State, v: Writer, k: nat) {
    && 0 <= v.ino < |st0.inodes| == |st.inodes| && st0.inodes[v.ino].size >= 0 && st.inodes[v.ino].size >= 0
    && Content(st, v.ino) == Written(Content(st0, v.ino), v.off, v.src[..Chunks(k, v.src)])
  }

  lemma QuietFile(j: Job, s: Sys, i: int)
    requires Good(j, s) && JobOk(j) && Index(j, s, i) && s.w[i].op == NONE && WriterOk(j, s, i) && FileBytes(j, s, i)
    ensures FileHas(j.st0, s.x.st, j.writers[i], s.w[i].k)
  {
    hide Owned, OneOwner, MetaInUse, NoLeak, OrphansOk, ByteAt, Good;
    var v, w := j.writers[i], s.w[i];
    var n := Chunks(w.k, v.src);
    var c0, c := Content(j.st0, v.ino), Content(s.x.st, v.ino);
    if v.off <= |c0| {
      LaidOver(c0, v.off, v.src[..n], c);
    } else {
      assert n == 0;
      assert c == c0;
    }
  }

  lemma LaidOver(c0: seq<int>, off: nat, data: seq<int>, c: seq<int>)
    requires off <= |c0| && |c| == GrownTo(|c0|, off, |data|)
    requires forall k :: 0 <= k < |c| ==> c[k] == if off <= k < off + |data| then data[k - off] else if k < |c0| then c0[k] else 0
    ensures c == Overwrite(c0, off, data)
  {
  }

  lemma QuietOther(j: Job, s: Sys, ino: int)
    requires JobOk(j) && Untouched(j, s, ino)
    ensures SameFile(j.st0, s.x.st, ino)
  {
    hide Owned, OneOwner, MetaInUse, NoLeak, OrphansOk, ByteAt;
  }

  lemma QuietOrphans(w: seq<Prog>, orphans: set<int>)
    requires Shares(w, orphans) && forall i :: 0 <= i < |w| ==> w[i].mine == {}
    ensures orphans == {}
  {
    assert forall b :: b !in orphans;
  }

  /** With no transaction running, what is on the disk is what is in memory, it is
      consistent, and every file has a whole number of its chunks. */
  lemma QuietHas(j: Job, s: Sys)
    requires JobOk(j) && Good(j, s) && Quiet(s)
    ensures s.x.dinodes == s.x.st.inodes && HasChunks(j, s.w, s.x.st)
  {
    hide Inv, Shares, WriterOk, FileBytes, Untouched, Unwritten, FileHas, SameFile;
    forall i | 0 <= i < |s.w|
      ensures s.w[i].mine == {} && s.x.dinodes[j.writers[i].ino] == s.x.st.inodes[j.writers[i].ino]
      ensures FileHas(j.st0, s.x.st, j.writers[i], s.w[i].k)
    {
      assert WriterOk(j, s, i);
      QuietWriter(j, s, i);
      QuietFile(j, s, i);
    }
    QuietOrphans(s.w, s.orphans);
    forall ino | 0 <= ino < |j.st0.inodes|
      ensures s.x.dinodes[ino] == s.x.st.inodes[ino] && (Unwritten(j, ino) ==> SameFile(j.st0, s.x.st, ino))
    {
      if Unwritten(j, ino) {
        assert Untouched(j, s, ino);
        QuietOther(j, s, ino);
        UntouchedInode(j, s, ino);
      } else {
        var i := WriterOf(j, ino);
        assert s.x.dinodes[j.writers[i].ino] == s.x.st.inodes[j.writers[i].ino];
      }
    }
  }

  lemma QuietWriter(j: Job, s: Sys, i: int)
    requires Index(j, s, i) && WriterOk(j, s, i) && s.w[i].op == NONE
    ensures s.w[i].mine == {} && InoOk(s.x, j.writers[i].ino) && s.x.dinodes[j.writers[i].ino] == s.x.st.inodes[j.writers[i].ino]
  {
  }

  lemma UntouchedInode(j: Job, s: Sys, ino: int)
    requires Untouched(j, s, ino)
    ensures s.x.dinodes[ino] == s.x.st.inodes[ino]
  {
  }

  lemma WriterOf(j: Job, ino: int) returns (i: int)
    requires !Unwritten(j, ino)
    ensures 0 <= i < |j.writers| && j.writers[i].ino == ino
  {
    i :| 0 <= i < |j.writers| && j.writers[i].ino == ino;
  }

  // The code is such a writer.

  ghost predicate ActRun(j: Job, s: Sys, i: int, acts: seq<Act>, s': Sys)
    decreases |acts|
  {
    if acts == [] then s == s'
    else
      && MayAct(j, s, i, acts[0]) && Ready(j.g, s.x, j.writers[i].ino, s.w[i].mine, acts[0])
      && ActRun(j, Acted(j, s, i, acts[0]), i, acts[1..], s')
  }

  /** The call to writei for the chunk that writer i has begun. */
  function ChunkCall(v: Writer, k: nat): Call {
    ChunksWithin(k, v.src);
    Call(v.ino, v.off + Chunks(k, v.src), v.src[Chunks(k, v.src)..Chunks(k + 1, v.src)])
  }

  /** Writer i is at point p of that call. */
  predicate At(j: Job, s: Sys, i: int, p: Point) {
    && Index(j, s, i) && s.w[i].op != NONE && s.x == p.x && s.w[i].mine == p.mine && 0 <= p.tot
    && s.w[i].tot == Chunks(s.w[i].k, j.writers[i].src) + p.tot
  }

  lemma SliceOfSlice(s: seq<int>, lo: int, hi: int, a: int, b: int)
    requires 0 <= lo <= hi <= |s| && 0 <= a <= b <= hi - lo
    ensures s[lo..hi][a..b] == s[lo + a..lo + b]
  {
    var l, r := s[lo..hi][a..b], s[lo + a..lo + b];
    forall i | 0 <= i < b - a
      ensures l[i] == r[i]
    {
      assert l[i] == s[lo..hi][a + i] == s[lo + (a + i)];
      assert r[i] == s[lo + a + i];
    }
    assert |l| == |r|;
  }

  lemma AllowedMayAct(j: Job, s: Sys, i: int, p: Point, a: Act)
    requires At(j, s, i, p) && Allowed(j.g, ChunkCall(j.writers[i], s.w[i].k), p, a)
    requires 0 <= j.writers[i].ino < |j.st0.inodes| && j.writers[i].off <= j.st0.inodes[j.writers[i].ino].size
    ensures MayAct(j, s, i, a) && At(j, Acted(j, s, i, a), i, Next(j.g, ChunkCall(j.writers[i], s.w[i].k), p, a))
  {
    hide ActOk, Owned, WellFormed, Do, Chunks;
    var v, k := j.writers[i], s.w[i].k;
    ChunksWithin(k, v.src);
    ChunksWithin(k + 1, v.src);
    if a.Data? {
      var lo, hi := Chunks(k, v.src), Chunks(k + 1, v.src);
      SliceOfSlice(v.src, lo, hi, p.tot, p.tot + |a.data|);
    }
  }

  lemma {:induction false} WalkIsRun(j: Job, s: Sys, i: int, p: Point, acts: seq<Act>, p': Point) returns (s': Sys)
    requires At(j, s, i, p) && Walk(j.g, ChunkCall(j.writers[i], s.w[i].k), p, acts, p')
    requires 0 <= j.writers[i].ino < |j.st0.inodes| && j.writers[i].off <= j.st0.inodes[j.writers[i].ino].size
    ensures ActRun(j, s, i, acts, s') && At(j, s', i, p') && s'.w[i].k == s.w[i].k
    decreases |acts|
  {
    hide Allowed, Next, MayAct, Ready, ChunkCall, Chunks, Do;
    s' := s;
    if acts != [] {
      AllowedMayAct(j, s, i, p, acts[0]);
      AllowedReady(j.g, ChunkCall(j.writers[i], s.w[i].k), p, acts[0]);
      CallIno(j.writers[i], s.w[i].k);
      s' := WalkIsRun(j, Acted(j, s, i, acts[0]), i, Next(j.g, ChunkCall(j.writers[i], s.w[i].k), p, acts[0]), acts[1..], p');
    }
  }

  lemma CallIno(v: Writer, k: nat)
    ensures ChunkCall(v, k).ino == v.ino
  {
  }

  lemma AllowedReady(g: Super, c: Call, p: Point, a: Act)
    requires Allowed(g, c, p, a)
    ensures Ready(g, p.x, c.ino, p.mine, a)
  {
  }

  /** A transaction of filewrite as the code runs it, with nobody acting in between, is a
      run of such actions, and ends where the writer may end: what writei has proved of
      its effect is all that is used. */
  lemma CodeIsWriter(j: Job, s: Sys, i: int, x': Files) returns (acts: seq<Act>, s': Sys)
    requires JobOk(j) && Good(j, s) && Index(j, s, i) && s.w[i].op != NONE && s.w[i].mine == {}
    requires s.w[i].tot == Chunks(s.w[i].k, j.writers[i].src)
    requires j.writers[i].off <= j.st0.inodes[j.writers[i].ino].size
    requires var c := ChunkCall(j.writers[i], s.w[i].k);
             && Wrote(j.g, c, s.x, x', |c.data|) && InoOk(x', c.ino)
             && x'.dinodes[c.ino] == x'.st.inodes[c.ino] && x'.st.inodes[c.ino].size >= c.off + |c.data|
    ensures ActRun(j, s, i, acts, s') && s'.x == x' && MayEnd(j, s', i) && Ended(j, s', i).w[i].k == s.w[i].k + 1
  {
    hide Inv, Walk, Shares, FileBytes, Untouched, Unwritten;
    var v, k := j.writers[i], s.w[i].k;
    assert WriterOk(j, s, i);
    ChunksWithin(k, v.src);
    var c := ChunkCall(v, k);
    acts :| Walk(j.g, c, Point(s.x, {}, 0), acts, Point(x', {}, |c.data|));
    s' := WalkIsRun(j, s, i, Point(s.x, {}, 0), acts, Point(x', {}, |c.data|));
  }
}
