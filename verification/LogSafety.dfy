/** Crash safety of the log: in every reachable state, recovery would yield exactly
    the effect of the groups whose header write reached the disk. */
module LogSafety {
  import opened LogLayout
  import opened LogProtocol

  /** Recovering d now would yield the image t. */
  ghost predicate Holds(g: Geometry, d: Disk, t: Disk)
    requires ValidGeometry(g)
  {
    && |d| == |t| == g.blocks
    && var h := DecodeHeader(d[g.start]);
    && GoodHeader(g, h)
    && (forall i {:trigger h[i]} :: 0 <= i < |h| ==> d[g.start + 1 + i] == t[h[i]])
    && (forall k {:trigger Home(g, k)} :: Home(g, k) && k !in h ==> d[k] == t[k])
  }

  ghost predicate Unlogged(s: State, b: int) {
    b in s.holds && s.holds[b].unlogged
  }

  /** The buffer cache agrees with the latest contents, and a cached block that
      differs from the disk is pinned: dirty, or still held by its editor. */
  ghost predicate CacheOk(g: Geometry, l: Disk, s: State)
    requires |s.disk| == |l| == g.blocks
  {
    && (forall b :: b in s.cache ==> Home(g, b))
    && (forall b :: b in s.holds ==> b in s.cache)
    && (forall b {:trigger Home(g, b)} :: Home(g, b) ==> View(s, b) == l[b])
    && (forall b :: b in s.cache && s.cache[b] != s.disk[b] ==> b in s.dirty || Unlogged(s, b))
  }

  ghost predicate RunningOk(g: Geometry, l: Disk, s: State)
    requires ValidGeometry(g) && |s.disk| == |l| == g.blocks
  {
    && CacheOk(g, l, s)
    && DecodeHeader(s.disk[g.start]) == []
    && GoodHeader(g, s.lh)
    && (forall b :: b in s.dirty <==> b in s.lh)
    && (forall b :: Unlogged(s, b) ==> Find(s.ops, s.holds[b].holder) >= 0)
  }

  /** How many of n blocks are in the log, and how many are installed. */
  function Copied(p: Phase, n: nat): nat {
    match p case Idle => 0 case Copy(i) => i case _ => n
  }

  function Installed(p: Phase, n: nat): nat {
    match p case Install(i) => i case Erase => n case _ => 0
  }

  /** The transaction lh is being written out, up to the given phase. */
  ghost predicate Progress(g: Geometry, l: Disk, d: Disk, lh: seq<int>, p: Phase)
    requires ValidGeometry(g) && |d| == |l| == g.blocks
  {
    && GoodHeader(g, lh) && p != Idle
    && (p.Copy? || p.Install? ==> p.i < |lh|)
    && (forall k {:trigger lh[k]} :: 0 <= k < |lh| && k < Copied(p, |lh|) ==> d[g.start + 1 + k] == l[lh[k]])
    && (forall k {:trigger lh[k]} :: 0 <= k < |lh| && k < Installed(p, |lh|) ==> d[lh[k]] == l[lh[k]])
    && DecodeHeader(d[g.start]) == (if p.Copy? || p.Head? then [] else lh)
  }

  /** No call is outstanding, and exactly the blocks yet to be installed are dirty. */
  ghost predicate PinsOk(s: State) {
    && s.ops == []
    && (forall b :: !Unlogged(s, b))
    && (forall b :: b in s.dirty ==> b in s.lh)
    && (forall k {:trigger s.lh[k]} :: 0 <= k < |s.lh| ==> (s.lh[k] in s.dirty <==> Installed(s.phase, |s.lh|) <= k))
  }

  ghost predicate CommittingOk(g: Geometry, l: Disk, s: State)
    requires ValidGeometry(g) && |s.disk| == |l| == g.blocks
  {
    && CacheOk(g, l, s)
    && Progress(g, l, s.disk, s.lh, s.phase)
    && s.lh != [] && PinsOk(s)
  }

  ghost predicate Blank(s: State) {
    s.cache == map[] && s.dirty == {} && s.ops == [] && s.holds == map[]
  }

  ghost predicate RecoveringOk(g: Geometry, l: Disk, s: State)
    requires ValidGeometry(g) && |s.disk| == |l| == g.blocks
  {
    Blank(s) && (s.phase.Install? || s.phase.Erase?) && Progress(g, l, s.disk, s.lh, s.phase)
  }

  /** The invariant for a durable image t and a latest image l. */
  ghost predicate InvFor(g: Geometry, t: Disk, l: Disk, s: State)
    requires ValidGeometry(g)
  {
    && |s.disk| == |l| == g.blocks
    && Holds(g, s.disk, t)
    && match s.mode
       case Down => Blank(s) && s.current == [] && t == l
       case Recovering => RecoveringOk(g, l, s) && s.current == [] && t == l
       case Running => RunningOk(g, l, s)
       case Committing =>
         CommittingOk(g, l, s) && (s.phase.Install? || s.phase.Erase? ==> s.current == [] && t == l)
       case Panicked => true
  }

  // The cache, one step at a time.

  lemma CacheAfterBread(g: Geometry, l: Disk, s: State, o: OpId, b: int)
    requires |s.disk| == |l| == g.blocks && CacheOk(g, l, s) && Home(g, b) && b !in s.holds
    ensures CacheOk(g, l, DoBread(s, o, b))
  {
    var s' := DoBread(s, o, b);
    assert forall c :: 0 <= c < |s.disk| ==> View(s', c) == View(s, c);
    assert forall c :: Unlogged(s, c) ==> Unlogged(s', c);
  }

  lemma CacheAfterModify(g: Geometry, l: Disk, s: State, e: Edit)
    requires |s.disk| == |l| == g.blocks && CacheOk(g, l, s) && Home(g, e.blockno)
    ensures CacheOk(g, l[e.blockno := e.data], DoModify(s, e))
  {
    var s' := DoModify(s, e);
    assert forall c :: c != e.blockno && Unlogged(s, c) ==> Unlogged(s', c);
    assert Unlogged(s', e.blockno);
  }

  lemma CacheAfterLogWrite(g: Geometry, l: Disk, s: State, o: OpId, b: int)
    requires |s.disk| == |l| == g.blocks && CacheOk(g, l, s) && Find(s.ops, o) >= 0 && b in s.holds
    ensures CacheOk(g, l, DoLogWrite(s, o, b))
  {
    var s' := DoLogWrite(s, o, b);
    assert forall c :: c != b && Unlogged(s, c) ==> Unlogged(s', c);
    assert forall c :: 0 <= c < |s.disk| ==> View(s', c) == View(s, c);
  }

  lemma CacheAfterBrelse(g: Geometry, l: Disk, s: State, b: int)
    requires |s.disk| == |l| == g.blocks && CacheOk(g, l, s) && !Unlogged(s, b)
    ensures CacheOk(g, l, DoBrelse(s, b))
  {
    var s' := DoBrelse(s, b);
    assert forall c :: Unlogged(s, c) ==> Unlogged(s', c);
    assert forall c :: 0 <= c < |s.disk| ==> View(s', c) == View(s, c);
  }

  lemma CacheAfterEvict(g: Geometry, l: Disk, s: State, b: int)
    requires |s.disk| == |l| == g.blocks && CacheOk(g, l, s) && b !in s.holds && b !in s.dirty
    ensures CacheOk(g, l, DoEvict(s, b))
  {
    var s' := DoEvict(s, b);
    assert forall c :: Unlogged(s, c) ==> Unlogged(s', c);
    assert forall c :: 0 <= c < |s.disk| ==> View(s', c) == View(s, c);
  }

  lemma CacheAfterEnd(g: Geometry, l: Disk, s: State, o: OpId)
    requires |s.disk| == |l| == g.blocks && CacheOk(g, l, s) && Find(s.ops, o) >= 0
    ensures CacheOk(g, l, DoEnd(s, o))
  {
    var s' := DoEnd(s, o);
    assert forall c :: Unlogged(s, c) ==> Unlogged(s', c);
    assert forall c :: 0 <= c < |s.disk| ==> View(s', c) == View(s, c);
  }

  /** A bwrite of what the cache holds, or of a block it never holds. */
  lemma CacheAfterWrite(g: Geometry, l: Disk, s: State)
    requires ValidGeometry(g) && |l| == g.blocks && WriteReady(g, s) && CacheOk(g, l, s)
    requires PinsOk(s)
    requires var w := NextWrite(g, s); Home(g, w.0) ==> w.1 == l[w.0]
    ensures CacheOk(g, l, DoWrite(g, s))
  {
    var s' := DoWrite(g, s);
    var w := NextWrite(g, s);
    forall c | Home(g, c)
      ensures View(s', c) == l[c]
    {
      assert View(s, c) == l[c];
    }
  }

  // The invariant, one step at a time. Each lemma says which images are left.

  lemma StepBegin(g: Geometry, t: Disk, l: Disk, s: State, o: OpId)
    requires ValidGeometry(g) && InvFor(g, t, l, s) && Admits(s)
    ensures InvFor(g, t, l, DoBegin(s, o))
  {
    var s' := DoBegin(s, o);
    forall b | Unlogged(s', b)
      ensures Find(s'.ops, s'.holds[b].holder) >= 0
    {
      assert Unlogged(s, b);
      assert s'.ops[Find(s.ops, s.holds[b].holder)].id == s.holds[b].holder;
    }
  }

  lemma StepBread(g: Geometry, t: Disk, l: Disk, s: State, o: OpId, b: int)
    requires ValidGeometry(g) && InvFor(g, t, l, s) && Up(s) && Home(g, b) && b !in s.holds
    ensures InvFor(g, t, l, DoBread(s, o, b))
  {
    hide Holds, Progress, CacheOk;
    CacheAfterBread(g, l, s, o, b);
    assert forall c :: Unlogged(DoBread(s, o, b), c) ==> Unlogged(s, c);
  }

  lemma StepModify(g: Geometry, t: Disk, l: Disk, s: State, e: Edit)
    requires ValidGeometry(g) && InvFor(g, t, l, s) && HeldByOp(s, e.op, e.blockno)
    ensures Home(g, e.blockno) && InvFor(g, t, l[e.blockno := e.data], DoModify(s, e))
  {
    assert Home(g, e.blockno);
    hide Holds, CacheOk;
    CacheAfterModify(g, l, s, e);
    assert forall c :: Unlogged(DoModify(s, e), c) ==> c == e.blockno || Unlogged(s, c);
  }

  /** log_write keeps every outstanding call outstanding. */
  lemma StillOutstanding(s: State, o: OpId, b: int)
    requires Find(s.ops, o) >= 0
    requires forall c :: Unlogged(s, c) ==> Find(s.ops, s.holds[c].holder) >= 0
    ensures var s' := DoLogWrite(s, o, b);
            forall c :: Unlogged(s', c) ==> Find(s'.ops, s'.holds[c].holder) >= 0
  {
    var s' := DoLogWrite(s, o, b);
    forall c | Unlogged(s', c)
      ensures Find(s'.ops, s'.holds[c].holder) >= 0
    {
      assert Unlogged(s, c);
      assert s'.ops[Find(s.ops, s.holds[c].holder)].id == s.holds[c].holder;
    }
  }

  /** The block list stays well formed, and dirty means logged. */
  lemma ListAfterLogWrite(g: Geometry, s: State, o: OpId, b: int)
    requires ValidGeometry(g) && Find(s.ops, o) >= 0 && Home(g, b) && !LogWritePanics(g, s)
    requires GoodHeader(g, s.lh) && forall c :: c in s.dirty <==> c in s.lh
    ensures GoodHeader(g, DoLogWrite(s, o, b).lh)
    ensures forall c :: c in DoLogWrite(s, o, b).dirty <==> c in DoLogWrite(s, o, b).lh
  {
  }

  lemma StepLogWrite(g: Geometry, t: Disk, l: Disk, s: State, o: OpId, b: int)
    requires ValidGeometry(g) && InvFor(g, t, l, s) && HeldByOp(s, o, b) && !LogWritePanics(g, s)
    ensures InvFor(g, t, l, DoLogWrite(s, o, b))
  {
    assert Home(g, b);
    hide Holds, CacheOk, GoodHeader;
    StillOutstanding(s, o, b);
    ListAfterLogWrite(g, s, o, b);
    CacheAfterLogWrite(g, l, s, o, b);
  }

  lemma StepBrelse(g: Geometry, t: Disk, l: Disk, s: State, b: int)
    requires ValidGeometry(g) && InvFor(g, t, l, s) && Up(s) && !Unlogged(s, b)
    ensures InvFor(g, t, l, DoBrelse(s, b))
  {
    hide Holds, Progress, CacheOk;
    CacheAfterBrelse(g, l, s, b);
    assert forall c :: Unlogged(DoBrelse(s, b), c) ==> Unlogged(s, c);
  }

  lemma StepEvict(g: Geometry, t: Disk, l: Disk, s: State, b: int)
    requires ValidGeometry(g) && InvFor(g, t, l, s) && Up(s) && b !in s.holds && b !in s.dirty
    ensures InvFor(g, t, l, DoEvict(s, b))
  {
    hide Holds, Progress, CacheOk;
    CacheAfterEvict(g, l, s, b);
    assert forall c :: Unlogged(DoEvict(s, b), c) ==> Unlogged(s, c);
  }

  /** Whoever still holds an unlogged buffer stays outstanding when another ends. */
  lemma OthersStay(s: State, o: OpId)
    requires Find(s.ops, o) >= 0
    requires forall b :: b in s.holds ==> s.holds[b].holder != o
    requires forall b :: Unlogged(s, b) ==> Find(s.ops, s.holds[b].holder) >= 0
    ensures var s' := DoEnd(s, o);
            forall b :: Unlogged(s', b) ==> Find(s'.ops, s'.holds[b].holder) >= 0
  {
    var i := Find(s.ops, o);
    var s' := DoEnd(s, o);
    forall b | Unlogged(s', b)
      ensures Find(s'.ops, s.holds[b].holder) >= 0
    {
      assert Unlogged(s, b);
      var k := Find(s.ops, s.holds[b].holder);
      assert s'.ops[if k < i then k else k - 1] == s.ops[k];
    }
  }

  lemma StepEnd(g: Geometry, t: Disk, l: Disk, s: State, o: OpId)
    requires ValidGeometry(g) && InvFor(g, t, l, s) && s.mode == Running && Find(s.ops, o) >= 0
    requires forall b :: b in s.holds ==> s.holds[b].holder != o
    ensures InvFor(g, t, l, DoEnd(s, o))
  {
    hide Holds, CacheOk;
    OthersStay(s, o);
    CacheAfterEnd(g, l, s, o);
    if DoEnd(s, o).mode == Committing {
      assert Progress(g, l, s.disk, s.lh, Copy(0));
    }
  }

  // Block writes: the disk first.

  /** A log block: recovery does not look at it while the header is empty. */
  lemma CopyKeepsDisk(g: Geometry, t: Disk, l: Disk, d: Disk, lh: seq<int>, i: nat)
    requires ValidGeometry(g) && Holds(g, d, t) && |l| == |d| && i < |lh| && Progress(g, l, d, lh, Copy(i))
    ensures Home(g, lh[i]) && !Home(g, g.start + 1 + i) && g.start + 1 + i < |d| && GoodHeader(g, lh)
    ensures Holds(g, d[g.start + 1 + i := l[lh[i]]], t)
  {
  }

  lemma CopyProgress(g: Geometry, l: Disk, d: Disk, lh: seq<int>, i: nat)
    requires ValidGeometry(g) && |l| == |d| == g.blocks && i < |lh| && Progress(g, l, d, lh, Copy(i))
    ensures Home(g, lh[i]) && g.start + 1 + i < |d|
    ensures Progress(g, l, d[g.start + 1 + i := l[lh[i]]], lh, NextPhase(Copy(i), |lh|))
  {
  }

  /** The header: from here on recovery yields the new image. */
  lemma HeadCommits(g: Geometry, l: Disk, d: Disk, lh: seq<int>)
    requires ValidGeometry(g) && |d| == |l| == g.blocks && Progress(g, l, d, lh, Head) && lh != []
    requires forall k {:trigger Home(g, k)} :: Home(g, k) && k !in lh ==> d[k] == l[k]
    ensures Holds(g, d[g.start := EncodeHeader(d[g.start], lh)], l)
  {
    hide EncodeHeader, DecodeHeader;
    HeaderRoundTrip(d[g.start], lh);
  }

  lemma HeadProgress(g: Geometry, l: Disk, d: Disk, lh: seq<int>)
    requires ValidGeometry(g) && |d| == |l| == g.blocks && Progress(g, l, d, lh, Head) && lh != []
    ensures Progress(g, l, d[g.start := EncodeHeader(d[g.start], lh)], lh, Install(0)) && GoodHeader(g, lh)
  {
    hide EncodeHeader, DecodeHeader, GoodHeader;
    HeaderRoom(g, lh);
    HeaderRoundTrip(d[g.start], lh);
  }

  lemma HeaderRoom(g: Geometry, lh: seq<int>)
    requires ValidGeometry(g) && GoodHeader(g, lh)
    ensures |lh| <= LOGSIZE && 0 <= g.start && g.start + |lh| < g.blocks
  {
  }

  /** Installing a committed block at home, in commit() or in recovery. */
  lemma InstallKeepsDisk(g: Geometry, t: Disk, d: Disk, lh: seq<int>, i: nat)
    requires ValidGeometry(g) && Holds(g, d, t) && i < |lh| && Progress(g, t, d, lh, Install(i))
    ensures Home(g, lh[i]) && g.start + 1 + i < |d| && d[g.start + 1 + i] == t[lh[i]] && Distinct(lh)
    ensures Holds(g, d[lh[i] := d[g.start + 1 + i]], t)
  {
    assert Home(g, lh[i]);
  }

  lemma InstallProgress(g: Geometry, t: Disk, d: Disk, lh: seq<int>, i: nat)
    requires ValidGeometry(g) && |d| == |t| == g.blocks && i < |lh| && Progress(g, t, d, lh, Install(i))
    ensures Home(g, lh[i]) && g.start + 1 + i < |d|
    ensures Progress(g, t, d[lh[i] := d[g.start + 1 + i]], lh, NextPhase(Install(i), |lh|))
  {
    hide DecodeHeader;
    assert Home(g, lh[i]);
    forall k {:trigger lh[k]} | 0 <= k < |lh|
      ensures Home(g, lh[k]) && lh[i] != g.start + 1 + k
    {
    }
  }

  /** Erasing the header of a transaction that is wholly installed. */
  lemma EraseKeepsDisk(g: Geometry, t: Disk, d: Disk, lh: seq<int>)
    requires ValidGeometry(g) && Holds(g, d, t) && Progress(g, t, d, lh, Erase)
    ensures var d' := d[g.start := EncodeHeader(d[g.start], [])];
            && Holds(g, d', t)
            && DecodeHeader(d'[g.start]) == []
            && forall k {:trigger Home(g, k)} :: Home(g, k) ==> d'[k] == d[k] == t[k]
  {
    HeaderRoundTrip(d[g.start], []);
    var d' := d[g.start := EncodeHeader(d[g.start], [])];
    forall k | Home(g, k)
      ensures d'[k] == d[k] == t[k]
    {
      if k in lh {
        var i :| 0 <= i < |lh| && lh[i] == k;
      }
    }
  }

  /** Writing to the log area unpins nothing. */
  lemma PinsAfterCopy(g: Geometry, s: State)
    requires ValidGeometry(g) && WriteReady(g, s) && (s.phase.Copy? || s.phase.Head?)
    requires GoodHeader(g, s.lh) && PinsOk(s)
    ensures PinsOk(DoWrite(g, s))
  {
    hide EncodeHeader, Distinct;
    var s' := DoWrite(g, s);
    var b := NextWrite(g, s).0;
    assert b !in s.lh by { assert !Home(g, b); }
    assert s'.dirty == s.dirty;
    assert forall c :: Unlogged(s', c) ==> Unlogged(s, c);
  }

  /** Installing a block unpins it and no other. */
  lemma PinsAfterInstall(g: Geometry, s: State)
    requires ValidGeometry(g) && WriteReady(g, s) && s.phase.Install? && Distinct(s.lh) && PinsOk(s)
    ensures PinsOk(DoWrite(g, s))
  {
    var s' := DoWrite(g, s);
    assert forall c :: Unlogged(s', c) ==> Unlogged(s, c);
  }

  lemma StepCopy(g: Geometry, t: Disk, l: Disk, s: State)
    requires ValidGeometry(g) && InvFor(g, t, l, s) && s.mode == Committing && s.phase.Copy?
    requires WriteReady(g, s)
    ensures InvFor(g, t, l, DoWrite(g, s))
  {
    hide Holds, Progress, PinsOk;
    var i := s.phase.i;
    CopyKeepsDisk(g, t, l, s.disk, s.lh, i);
    CopyProgress(g, l, s.disk, s.lh, i);
    assert View(s, s.lh[i]) == l[s.lh[i]];
    hide CacheOk;
    CacheAfterWrite(g, l, s);
    PinsAfterCopy(g, s);
    assert DoWrite(g, s).disk == s.disk[g.start + 1 + i := l[s.lh[i]]];
  }

  /** While nobody is editing, a block that is not logged is the same on disk. */
  lemma UnloggedBlocksClean(g: Geometry, l: Disk, s: State)
    requires |s.disk| == |l| == g.blocks && CacheOk(g, l, s) && PinsOk(s)
    ensures forall k {:trigger Home(g, k)} :: Home(g, k) && k !in s.lh ==> s.disk[k] == l[k]
  {
    forall k | Home(g, k) && k !in s.lh
      ensures s.disk[k] == l[k]
    {
      assert View(s, k) == l[k];
      assert !Unlogged(s, k);
    }
  }

  lemma StepHead(g: Geometry, t: Disk, l: Disk, s: State)
    requires ValidGeometry(g) && InvFor(g, t, l, s) && s.mode == Committing && s.phase.Head?
    requires WriteReady(g, s)
    ensures InvFor(g, l, l, DoWrite(g, s))
  {
    hide Holds, Progress, PinsOk, CacheOk;
    UnloggedBlocksClean(g, l, s);
    HeadCommits(g, l, s.disk, s.lh);
    HeadProgress(g, l, s.disk, s.lh);
    CacheAfterWrite(g, l, s);
    PinsAfterCopy(g, s);
    assert DoWrite(g, s).disk == s.disk[g.start := EncodeHeader(s.disk[g.start], s.lh)];
  }

  lemma StepInstall(g: Geometry, t: Disk, l: Disk, s: State)
    requires ValidGeometry(g) && InvFor(g, t, l, s) && s.mode == Committing && s.phase.Install?
    requires WriteReady(g, s)
    ensures InvFor(g, t, l, DoWrite(g, s))
  {
    hide Holds, Progress, CacheOk, PinsOk;
    var i := s.phase.i;
    InstallKeepsDisk(g, t, s.disk, s.lh, i);
    InstallProgress(g, t, s.disk, s.lh, i);
    CacheAfterWrite(g, l, s);
    PinsAfterInstall(g, s);
    assert DoWrite(g, s).disk == s.disk[s.lh[i] := s.disk[g.start + 1 + i]];
  }

  /** Nothing is dirty once every block is installed. */
  lemma NothingDirty(s: State)
    requires PinsOk(s) && s.phase.Erase?
    ensures s.dirty == {}
    ensures forall c :: !Unlogged(s, c)
  {
    forall b | b in s.lh
      ensures b !in s.dirty
    {
      var k :| 0 <= k < |s.lh| && s.lh[k] == b;
    }
    assert forall b :: b !in s.dirty;
  }

  lemma StepErase(g: Geometry, t: Disk, l: Disk, s: State)
    requires ValidGeometry(g) && InvFor(g, t, l, s) && s.mode == Committing && s.phase.Erase?
    requires WriteReady(g, s)
    ensures InvFor(g, t, l, DoWrite(g, s))
  {
    hide Holds, Progress, CacheOk, PinsOk;
    EraseKeepsDisk(g, t, s.disk, s.lh);
    CacheAfterWrite(g, l, s);
    NothingDirty(s);
    assert forall c :: Unlogged(DoWrite(g, s), c) ==> Unlogged(s, c);
  }

  lemma StepReinstall(g: Geometry, t: Disk, l: Disk, s: State)
    requires ValidGeometry(g) && InvFor(g, t, l, s) && s.mode == Recovering && s.phase.Install?
    requires WriteReady(g, s)
    ensures InvFor(g, t, l, DoWrite(g, s))
  {
    hide Holds, Progress;
    var i := s.phase.i;
    InstallKeepsDisk(g, t, s.disk, s.lh, i);
    InstallProgress(g, t, s.disk, s.lh, i);
    assert DoWrite(g, s).disk == s.disk[s.lh[i] := s.disk[g.start + 1 + i]];
  }

  lemma StepRecovered(g: Geometry, t: Disk, l: Disk, s: State)
    requires ValidGeometry(g) && InvFor(g, t, l, s) && s.mode == Recovering && s.phase.Erase?
    requires WriteReady(g, s)
    ensures InvFor(g, t, l, DoWrite(g, s))
  {
    hide Holds, Progress;
    EraseKeepsDisk(g, t, s.disk, s.lh);
    assert CacheOk(g, l, DoWrite(g, s));
  }

  lemma StepBoot(g: Geometry, t: Disk, l: Disk, s: State)
    requires ValidGeometry(g) && InvFor(g, t, l, s) && s.mode == Down
    ensures GoodHeader(g, DecodeHeader(s.disk[g.start]))
    ensures InvFor(g, t, l, DoBoot(s, DecodeHeader(s.disk[g.start])))
  {
    hide Home, Distinct;
  }

  // Whole runs.

  function Durable(d0: Disk, s: State): (r: Disk)
    ensures |r| == |d0|
  {
    ApplyGroups(d0, s.committed)
  }

  /** What a system call that reads now must see. */
  function Latest(d0: Disk, s: State): (r: Disk)
    ensures |r| == |d0|
  {
    ApplyEdits(Durable(d0, s), s.current)
  }

  ghost predicate Inv(g: Geometry, d0: Disk, s: State)
    requires ValidGeometry(g)
  {
    |d0| == g.blocks && InvFor(g, Durable(d0, s), Latest(d0, s), s)
  }

  /** The images after a step, in terms of the images before it. */
  lemma ImagesAfter(g: Geometry, d0: Disk, s: State, t: Step)
    requires ValidGeometry(g) && |d0| == g.blocks && Enabled(g, s, t)
    requires t.Modify? ==> Home(g, t.blockno)
    ensures var s' := Apply(g, s, t);
            && Durable(d0, s') == (if t.WriteNext? && s.phase.Head? then Latest(d0, s) else Durable(d0, s))
            && Latest(d0, s') == (if t.Modify? then Latest(d0, s)[t.blockno := t.data]
                                  else if t.Crash? then Durable(d0, s) else Latest(d0, s))
  {
    var s' := Apply(g, s, t);
    if t.WriteNext? && s.phase.Head? {
      assert s'.committed[..|s.committed|] == s.committed;
    }
    if t.Modify? {
      assert s'.current[..|s.current|] == s.current;
    }
  }

  /** Every step keeps the invariant. */
  lemma StepKeepsInv(g: Geometry, d0: Disk, s: State, t: Step)
    requires ValidGeometry(g) && Inv(g, d0, s) && Enabled(g, s, t)
    ensures Inv(g, d0, Apply(g, s, t))
  {
    hide InvFor;
    var c, l := Durable(d0, s), Latest(d0, s);
    match t
    case Begin(o) => StepBegin(g, c, l, s, o);
    case Bread(o, b) => StepBread(g, c, l, s, o, b);
    case Modify(o, b, data) => StepModify(g, c, l, s, Edit(o, b, data));
    case LogWrite(o, b) =>
      if LogWritePanics(g, s) { StepPanic(g, c, l, s); } else { StepLogWrite(g, c, l, s, o, b); }
    case Brelse(_, b) => StepBrelse(g, c, l, s, b);
    case End(o) => StepEnd(g, c, l, s, o);
    case WriteNext => StepWrite(g, c, l, s);
    case Evict(b) => StepEvict(g, c, l, s, b);
    case Crash => StepCrash(g, c, l, s);
    case Boot => StepBoot(g, c, l, s);
    ImagesAfter(g, d0, s, t);
  }

  lemma StepPanic(g: Geometry, t: Disk, l: Disk, s: State)
    requires ValidGeometry(g) && InvFor(g, t, l, s)
    ensures InvFor(g, t, l, s.(mode := Panicked))
  {
  }

  lemma StepCrash(g: Geometry, t: Disk, l: Disk, s: State)
    requires ValidGeometry(g) && InvFor(g, t, l, s)
    ensures InvFor(g, t, t, DoCrash(s))
  {
  }

  lemma StepWrite(g: Geometry, t: Disk, l: Disk, s: State)
    requires ValidGeometry(g) && InvFor(g, t, l, s) && WriteReady(g, s)
    ensures InvFor(g, if s.phase.Head? then l else t, l, DoWrite(g, s))
  {
    hide Holds, Progress, CacheOk, PinsOk;
    if s.mode == Recovering {
      if s.phase.Install? { StepReinstall(g, t, l, s); } else { StepRecovered(g, t, l, s); }
    } else {
      match s.phase
      case Copy(_) => StepCopy(g, t, l, s);
      case Head => StepHead(g, t, l, s);
      case Install(_) => StepInstall(g, t, l, s);
      case Erase => StepErase(g, t, l, s);
    }
  }

  lemma InitInv(g: Geometry, d0: Disk, s: State)
    requires ValidGeometry(g) && Init(g, d0, s)
    ensures Inv(g, d0, s)
  {
  }

  /** The invariant holds in every reachable state. */
  lemma {:induction false} RunKeepsInv(g: Geometry, d0: Disk, s: State, steps: seq<Step>, s': State)
    requires ValidGeometry(g) && Inv(g, d0, s) && Run(g, s, steps, s')
    ensures Inv(g, d0, s')
    decreases |steps|
  {
    if steps != [] {
      StepKeepsInv(g, d0, s, steps[0]);
      RunKeepsInv(g, d0, Apply(g, s, steps[0]), steps[1..], s');
    }
  }

  // What the invariant means.

  lemma ProgressFits(g: Geometry, t: Disk, d: Disk, lh: seq<int>, p: Phase)
    requires ValidGeometry(g) && |d| == |t| == g.blocks && Progress(g, t, d, lh, p)
    ensures Fits(g, d, lh)
  {
    assert GoodHeader(g, lh);
  }

  lemma {:induction false} InstallFromYields(g: Geometry, t: Disk, d: Disk, lh: seq<int>, i: nat)
    requires ValidGeometry(g) && |d| == |t| == g.blocks && Holds(g, d, t) && i <= |lh|
    requires Progress(g, t, d, lh, if i < |lh| then Install(i) else Erase)
    ensures Fits(g, d, lh)
    ensures var r := InstallFrom(g, d, lh, i);
            Holds(g, r, t) && Progress(g, t, r, lh, Erase)
    decreases |lh| - i
  {
    hide Holds, Progress, Fits;
    ProgressFits(g, t, d, lh, if i < |lh| then Install(i) else Erase);
    if i < |lh| {
      InstallKeepsDisk(g, t, d, lh, i);
      InstallProgress(g, t, d, lh, i);
      InstallFromYields(g, t, d[lh[i] := d[g.start + 1 + i]], lh, i + 1);
    }
  }

  /** Recovering a disk that holds the image t yields t, with an empty log. */
  lemma RecoverYields(g: Geometry, d: Disk, t: Disk)
    requires ValidGeometry(g) && Holds(g, d, t)
    ensures Fits(g, d, DecodeHeader(d[g.start]))
    ensures forall k {:trigger Home(g, k)} :: Home(g, k) ==> Recover(g, d)[k] == t[k]
    ensures DecodeHeader(Recover(g, d)[g.start]) == []
  {
    hide Holds, Progress, Fits, InstallFrom, DecodeHeader, EncodeHeader;
    RecoveryStarts(g, d, t);
    var lh := DecodeHeader(d[g.start]);
    InstallFromYields(g, t, d, lh, 0);
    EraseKeepsDisk(g, t, InstallFrom(g, d, lh, 0), lh);
  }

  /** A disk that holds t is one on which installing could start over. */
  lemma RecoveryStarts(g: Geometry, d: Disk, t: Disk)
    requires ValidGeometry(g) && Holds(g, d, t)
    ensures |d| == |t| == g.blocks && 0 <= g.start < |d|
    ensures var lh := DecodeHeader(d[g.start]); Progress(g, t, d, lh, if 0 < |lh| then Install(0) else Erase)
  {
    hide GoodHeader, DecodeHeader;
  }

  /** Crash safety: whatever was run, and wherever it crashed, recovery yields the
      initial disk with the committed groups of edits applied in order, and the
      log is empty afterwards. Whoever reads through the cache meanwhile sees
      all edits made so far. */
  lemma CrashSafety(g: Geometry, d0: Disk, s: State, steps: seq<Step>, s': State)
    requires ValidGeometry(g) && Init(g, d0, s) && Run(g, s, steps, s')
    ensures |s'.disk| == |d0| == g.blocks && Fits(g, s'.disk, DecodeHeader(s'.disk[g.start]))
    ensures forall k {:trigger Home(g, k)} :: Home(g, k) ==>
              Recover(g, s'.disk)[k] == ApplyGroups(d0, s'.committed)[k]
    ensures DecodeHeader(Recover(g, s'.disk)[g.start]) == []
    ensures Up(s') ==> forall k {:trigger Home(g, k)} :: Home(g, k) ==>
              View(s', k) == ApplyEdits(ApplyGroups(d0, s'.committed), s'.current)[k]
  {
    InitInv(g, d0, s);
    RunKeepsInv(g, d0, s, steps, s');
    RecoverYields(g, s'.disk, Durable(d0, s'));
  }
}
