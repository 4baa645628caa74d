/** The cache cannot be told from the disk it speeds up: it refines a store in which
    every block is one cell with its own lock, without buffers, flags or recycling. */
module BufferTransparency {
  import opened BufferMachine
  import opened BufferSafety

  datatype CellHold = CellHold(key: Key, stage: Stage)

  datatype Cells = Cells(store: map<Key, Data>, holds: map<int, CellHold>)

  ghost predicate CellFree(r: Cells, k: Key) {
    forall g :: g in r.holds && r.holds[g].key == k ==> !InLock(r.holds[g].stage)
  }

  ghost predicate CellEnabled(r: Cells, t: Step) {
    match t
    case Get(h, key) => h !in r.holds
    case Lock(h) => h in r.holds && r.holds[h].stage == Waiting && CellFree(r, r.holds[h].key)
    case Fill(h) => h in r.holds && r.holds[h].stage == Locked
    case Read(h) => h in r.holds && Busy(r.holds[h].stage)
    case Edit(h, _) => h in r.holds && Busy(r.holds[h].stage)
    case LogWrite(h) => h in r.holds && Busy(r.holds[h].stage)
    case Bwrite(h) => h in r.holds && Busy(r.holds[h].stage)
    case Unlock(h) => h in r.holds && r.holds[h].stage == Filled
    case Put(h) => h in r.holds && r.holds[h].stage == Leaving
  }

  function To(r: Cells, h: int, s: Stage): Cells
    requires h in r.holds
  {
    r.(holds := r.holds[h := r.holds[h].(stage := s)])
  }

  /** Only an edit changes a cell. */
  function CellApply(r: Cells, t: Step): Cells
    requires CellEnabled(r, t)
  {
    match t
    case Get(h, key) => r.(holds := r.holds[h := CellHold(key, Waiting)])
    case Lock(h) => To(r, h, Locked)
    case Fill(h) => To(r, h, Filled)
    case Read(h) => r
    case Edit(h, x) => To(r, h, Edited).(store := r.store[r.holds[h].key := x])
    case LogWrite(h) => To(r, h, Filled)
    case Bwrite(h) => To(r, h, Filled)
    case Unlock(h) => To(r, h, Leaving)
    case Put(h) => r.(holds := r.holds - {h})
  }

  function CellResult(r: Cells, t: Step): Outcome
    requires CellEnabled(r, t)
  {
    match t
    case Read(h) => Contents(Block(r.store, r.holds[h].key))
    case _ => Quiet
  }

  // The relation.

  ghost predicate SameHolds(bufs: seq<Buf>, holds: map<int, Hold>, cells: map<int, CellHold>) {
    && holds.Keys == cells.Keys
    && forall h :: h in holds ==>
         0 <= holds[h].buf < |bufs| && cells[h] == CellHold(bufs[holds[h].buf].key, holds[h].stage)
  }

  ghost predicate SameData(bufs: seq<Buf>, store: map<Key, Data>) {
    forall i :: 0 <= i < |bufs| && bufs[i].valid ==> bufs[i].data == Block(store, bufs[i].key)
  }

  ghost predicate EditedOn(holds: map<int, Hold>, i: int) {
    exists h :: h in holds && holds[h] == Hold(i, Edited)
  }

  ghost predicate Ahead(bufs: seq<Buf>, holds: map<int, Hold>, k: Key, i: int) {
    0 <= i < |bufs| && bufs[i].key == k && bufs[i].valid && (bufs[i].dirty || EditedOn(holds, i))
  }

  /** The disk is behind at a block only while a buffer of the block is dirty or
      being edited. */
  ghost predicate DiskBehind(c: Cache, store: map<Key, Data>) {
    forall k :: Block(c.disk, k) == Block(store, k) || exists i :: Ahead(c.bufs, c.holds, k, i)
  }

  ghost predicate Rel(c: Cache, r: Cells) {
    SameHolds(c.bufs, c.holds, r.holds) && SameData(c.bufs, r.store) && DiskBehind(c, r.store)
  }

  /** Two handles on one block have one buffer. */
  lemma OneBuffer(c: Cache, h: int, g: int)
    requires Inv(c) && Holding(c, h) && Holding(c, g)
    requires c.bufs[c.holds[h].buf].key == c.bufs[c.holds[g].buf].key
    ensures c.holds[h].buf == c.holds[g].buf
  {
    UserCounts(c, h);
    UserCounts(c, g);
    assert c.holds[h].buf in c.ring && c.holds[g].buf in c.ring;
    var a, b := Index(c.ring, c.holds[h].buf), Index(c.ring, c.holds[g].buf);
  }

  /** No other valid buffer has the block of a buffer in use. */
  lemma SoleValid(c: Cache, h: int, j: int)
    requires Inv(c) && Holding(c, h) && 0 <= j < |c.bufs| && j != c.holds[h].buf
    requires c.bufs[j].key == c.bufs[c.holds[h].buf].key
    ensures !c.bufs[j].valid
  {
    UserCounts(c, h);
    assert c.holds[h].buf in c.ring && j in c.ring;
    var a, b := Index(c.ring, c.holds[h].buf), Index(c.ring, j);
  }

  /** A sleep-lock is free in the cache exactly when the cell's lock is. */
  lemma LockFreeIff(c: Cache, r: Cells, h: int)
    requires Inv(c) && Rel(c, r) && Holding(c, h)
    ensures CellFree(r, c.bufs[c.holds[h].buf].key) <==> !c.bufs[c.holds[h].buf].locked
  {
    var i := c.holds[h].buf;
    var k := c.bufs[i].key;
    if c.bufs[i].locked {
      assert LockedBy(c.holds, i);
      var g :| g in c.holds && c.holds[g].buf == i && InLock(c.holds[g].stage);
      assert r.holds[g].key == k && InLock(r.holds[g].stage);
    } else {
      forall g | g in r.holds && r.holds[g].key == k
        ensures !InLock(r.holds[g].stage)
      {
        assert g in c.holds;
        OneBuffer(c, h, g);
      }
    }
  }

  // Steps.

  lemma StaleAfterGet(c: Cache, h: int, key: Key, k: Key, i: int)
    requires Inv(c) && Enabled(c, Get(h, key)) && Ahead(c.bufs, c.holds, k, i)
    ensures var c' := Apply(c, Get(h, key)); Ahead(c'.bufs, c'.holds, k, i)
  {
    var c' := Apply(c, Get(h, key));
    if EditedOn(c.holds, i) {
      var g :| g in c.holds && c.holds[g] == Hold(i, Edited);
      UserCounts(c, g);
      assert c'.holds[g] == Hold(i, Edited);
    }
  }

  lemma GetFollows(c: Cache, r: Cells, h: int, key: Key)
    requires Inv(c) && Rel(c, r) && Enabled(c, Get(h, key))
    ensures CellEnabled(r, Get(h, key))
    ensures Rel(Apply(c, Get(h, key)), CellApply(r, Get(h, key)))
  {
    var c', r' := Apply(c, Get(h, key)), CellApply(r, Get(h, key));
    forall g | g in c'.holds
      ensures r'.holds[g] == CellHold(c'.bufs[c'.holds[g].buf].key, c'.holds[g].stage)
    {
      if g != h {
        UserCounts(c, g);
      }
    }
    forall k
      ensures Block(c'.disk, k) == Block(r'.store, k) || exists i :: Ahead(c'.bufs, c'.holds, k, i)
    {
      if Block(c.disk, k) != Block(r.store, k) {
        var i :| Ahead(c.bufs, c.holds, k, i);
        StaleAfterGet(c, h, key, k, i);
      }
    }
  }

  /** A holder's step that leaves the data alone, or fills it from the store. */
  lemma HolderFollows(c: Cache, r: Cells, h: int, b: Buf, s: Stage)
    requires Inv(c) && Rel(c, r) && Holding(c, h)
    requires var o := c.bufs[c.holds[h].buf];
             && b.key == o.key && (b.valid ==> b.data == Block(r.store, b.key)) && (o.valid ==> b.valid)
             && (o.dirty ==> b.dirty)
             && (c.holds[h].stage == Edited ==> s == Edited || (b.dirty && b.valid))
    ensures Rel(SetHold(SetBuf(c, c.holds[h].buf, b), h, c.holds[h].buf, s), To(r, h, s))
  {
    var i := c.holds[h].buf;
    var c' := SetHold(SetBuf(c, i, b), h, i, s);
    forall k
      ensures Block(c'.disk, k) == Block(r.store, k) || exists j :: Ahead(c'.bufs, c'.holds, k, j)
    {
      if Block(c.disk, k) != Block(r.store, k) {
        var j :| Ahead(c.bufs, c.holds, k, j);
        AheadStays(c, h, b, s, k, j);
        assert Ahead(c'.bufs, c'.holds, k, j);
      }
    }
  }

  lemma AheadStays(c: Cache, h: int, b: Buf, s: Stage, k: Key, j: int)
    requires Holding(c, h) && Ahead(c.bufs, c.holds, k, j)
    requires var o := c.bufs[c.holds[h].buf];
             b.key == o.key && (o.valid ==> b.valid) && (o.dirty ==> b.dirty)
             && (c.holds[h].stage == Edited ==> s == Edited || b.dirty)
    ensures Ahead(c.bufs[c.holds[h].buf := b], c.holds[h := Hold(c.holds[h].buf, s)], k, j)
  {
    var i := c.holds[h].buf;
    var holds' := c.holds[h := Hold(i, s)];
    if EditedOn(c.holds, j) && !c.bufs[i := b][j].dirty {
      var g :| g in c.holds && c.holds[g] == Hold(j, Edited);
      assert g in holds' && holds'[g] == Hold(j, Edited);
    }
  }

  /** A block that is read in is one at which the disk is not behind. */
  lemma DiskIsCurrent(c: Cache, r: Cells, h: int)
    requires Inv(c) && Rel(c, r) && Holding(c, h) && !c.bufs[c.holds[h].buf].valid
    ensures Block(c.disk, c.bufs[c.holds[h].buf].key) == Block(r.store, c.bufs[c.holds[h].buf].key)
  {
    var k := c.bufs[c.holds[h].buf].key;
    if Block(c.disk, k) != Block(r.store, k) {
      var j :| Ahead(c.bufs, c.holds, k, j);
      SoleValid(c, h, j);
    }
  }

  lemma EditFollows(c: Cache, r: Cells, h: int, x: Data)
    requires Inv(c) && Rel(c, r) && Enabled(c, Edit(h, x))
    ensures CellEnabled(r, Edit(h, x))
    ensures Rel(Apply(c, Edit(h, x)), CellApply(r, Edit(h, x)))
  {
    var c', r' := Apply(c, Edit(h, x)), CellApply(r, Edit(h, x));
    var i := c.holds[h].buf;
    forall j | 0 <= j < |c'.bufs| && c'.bufs[j].valid
      ensures c'.bufs[j].data == Block(r'.store, c'.bufs[j].key)
    {
      if j != i && c.bufs[j].key == c.bufs[i].key {
        SoleValid(c, h, j);
      }
    }
    LeavingIsValid(c, h);
    forall k
      ensures Block(c'.disk, k) == Block(r'.store, k) || exists j :: Ahead(c'.bufs, c'.holds, k, j)
    {
      if k == c.bufs[i].key {
        assert c'.holds[h] == Hold(i, Edited);
        assert Ahead(c'.bufs, c'.holds, k, i);
      } else if Block(c.disk, k) != Block(r.store, k) {
        var j :| Ahead(c.bufs, c.holds, k, j);
        AheadStays(c, h, c'.bufs[i], Edited, k, j);
      }
    }
  }

  lemma BwriteFollows(c: Cache, r: Cells, h: int)
    requires Inv(c) && Rel(c, r) && Enabled(c, Bwrite(h))
    ensures CellEnabled(r, Bwrite(h))
    ensures Rel(Apply(c, Bwrite(h)), CellApply(r, Bwrite(h)))
  {
    var c', r' := Apply(c, Bwrite(h)), CellApply(r, Bwrite(h));
    var i := c.holds[h].buf;
    LeavingIsValid(c, h);
    forall k
      ensures Block(c'.disk, k) == Block(r'.store, k) || exists j :: Ahead(c'.bufs, c'.holds, k, j)
    {
      if k != c.bufs[i].key && Block(c.disk, k) != Block(r.store, k) {
        var j :| Ahead(c.bufs, c.holds, k, j);
        if EditedOn(c.holds, j) {
          var g :| g in c.holds && c.holds[g] == Hold(j, Edited);
          assert c'.holds[g] == Hold(j, Edited);
        }
        assert Ahead(c'.bufs, c'.holds, k, j);
      }
    }
  }

  lemma PutShape(c: Cache, h: int)
    requires Inv(c) && Enabled(c, Put(h))
    ensures var c', i := Apply(c, Put(h)), c.holds[h].buf;
            && c'.bufs == c.bufs[i := c.bufs[i].(refcnt := c.bufs[i].refcnt - 1)]
            && c'.disk == c.disk && c'.holds == c.holds - {h}
  {
  }

  lemma PutFollows(c: Cache, r: Cells, h: int)
    requires Inv(c) && Rel(c, r) && Enabled(c, Put(h))
    ensures CellEnabled(r, Put(h))
    ensures Rel(Apply(c, Put(h)), CellApply(r, Put(h)))
  {
    hide Inv, Released, Apply;
    PutShape(c, h);
    var c', r' := Apply(c, Put(h)), CellApply(r, Put(h));
    forall k
      ensures Block(c'.disk, k) == Block(r'.store, k) || exists j :: Ahead(c'.bufs, c'.holds, k, j)
    {
      if Block(c.disk, k) != Block(r.store, k) {
        var j :| Ahead(c.bufs, c.holds, k, j);
        if EditedOn(c.holds, j) {
          var g :| g in c.holds && c.holds[g] == Hold(j, Edited);
          assert c'.holds[g] == Hold(j, Edited);
        }
        assert Ahead(c'.bufs, c'.holds, k, j);
      }
    }
  }

  /** Each step of the cache is the same step of the cells, with the same result. */
  lemma StepFollows(c: Cache, r: Cells, t: Step)
    requires Inv(c) && Rel(c, r) && Enabled(c, t)
    ensures CellEnabled(r, t) && Rel(Apply(c, t), CellApply(r, t))
    ensures Result(c, t) == CellResult(r, t)
  {
    hide Inv, DiskBehind, Choice, Released;
    match t
    case Get(h, key) => GetFollows(c, r, h, key);
    case Lock(h) =>
      LockFreeIff(c, r, h);
      HolderFollows(c, r, h, c.bufs[c.holds[h].buf].(locked := true), Locked);
    case Fill(h) =>
      if !c.bufs[c.holds[h].buf].valid {
        DiskIsCurrent(c, r, h);
      }
      HolderFollows(c, r, h, Loaded(c.bufs[c.holds[h].buf], c.disk), Filled);
    case Read(h) => ReadIsCurrent(c, r, h);
    case Edit(h, x) => EditFollows(c, r, h, x);
    case LogWrite(h) =>
      ReadIsCurrent(c, r, h);
      HolderFollows(c, r, h, c.bufs[c.holds[h].buf].(dirty := true), Filled);
    case Bwrite(h) => BwriteFollows(c, r, h);
    case Unlock(h) => HolderFollows(c, r, h, c.bufs[c.holds[h].buf].(locked := false), Leaving);
    case Put(h) => PutFollows(c, r, h);
  }

  lemma ReadIsCurrent(c: Cache, r: Cells, h: int)
    requires Inv(c) && Rel(c, r) && Holding(c, h) && Busy(c.holds[h].stage)
    ensures c.bufs[c.holds[h].buf].valid
    ensures c.bufs[c.holds[h].buf].data == Block(r.store, c.bufs[c.holds[h].buf].key)
  {
  }

  // Whole runs.

  ghost function Results(c: Cache, steps: seq<Step>, c': Cache): seq<Outcome>
    requires Run(c, steps, c')
    decreases |steps|
  {
    if steps == [] then [] else [Result(c, steps[0])] + Results(Apply(c, steps[0]), steps[1..], c')
  }

  ghost predicate CellRun(r: Cells, steps: seq<Step>, outs: seq<Outcome>, r': Cells)
    decreases |steps|
  {
    if steps == [] then r == r' && outs == []
    else
      && CellEnabled(r, steps[0]) && outs != [] && outs[0] == CellResult(r, steps[0])
      && CellRun(CellApply(r, steps[0]), steps[1..], outs[1..], r')
  }

  lemma {:induction false} RunFollows(c: Cache, r: Cells, steps: seq<Step>, c': Cache) returns (r': Cells)
    requires Inv(c) && Rel(c, r) && Run(c, steps, c')
    ensures Inv(c') && Rel(c', r') && CellRun(r, steps, Results(c, steps, c'), r')
    decreases |steps|
  {
    hide Inv, Rel, Enabled, Apply, Result, CellEnabled, CellApply, CellResult;
    if steps == [] {
      r' := r;
    } else {
      StepKeepsInv(c, steps[0]);
      StepFollows(c, r, steps[0]);
      r' := RunFollows(Apply(c, steps[0]), CellApply(r, steps[0]), steps[1..], c');
      assert Results(c, steps, c')[1..] == Results(Apply(c, steps[0]), steps[1..], c');
    }
  }

  /** Whatever the handles do and however they interleave, every read returns what the
      cell of the block holds: the latest edit, or the disk's first contents. */
  lemma CacheTransparent(disk: map<Key, Data>, steps: seq<Step>, c: Cache) returns (r: Cells)
    requires Run(Booted(disk), steps, c)
    ensures CellRun(Cells(disk, map[]), steps, Results(Booted(disk), steps, c), r)
    ensures Inv(c) && Rel(c, r)
  {
    BootInv(disk);
    assert Rel(Booted(disk), Cells(disk, map[]));
    r := RunFollows(Booted(disk), Cells(disk, map[]), steps, c);
  }

  /** In every reachable state a block of a nonzero device is in one buffer at most,
      the ring is a permutation of the buffers, and its order is that of the last
      release. */
  lemma OneBufferPerBlock(disk: map<Key, Data>, steps: seq<Step>, c: Cache)
    requires Run(Booted(disk), steps, c)
    ensures RingInRange(c)
    ensures forall i, j :: 0 <= i < j < NBUF && c.bufs[i].key == c.bufs[j].key ==> c.bufs[i].key == Key(0, 0)
    ensures forall i :: multiset(c.ring)[i] == if 0 <= i < NBUF then 1 else 0
    ensures forall a, b :: 0 <= a < b < |c.ring| ==> c.stamp[c.ring[a]] > c.stamp[c.ring[b]]
  {
    BootInv(disk);
    RunKeepsInv(Booted(disk), steps, c);
    forall i, j | 0 <= i < j < NBUF && c.bufs[i].key == c.bufs[j].key
      ensures c.bufs[i].key == Key(0, 0)
    {
      assert i in c.ring && j in c.ring;
      var a, b := Index(c.ring, i), Index(c.ring, j);
    }
    Distinct(c);
    DistinctOnce(c.ring);
    forall i
      ensures i in c.ring <==> 0 <= i < NBUF
    {
    }
  }

  lemma {:induction false} DistinctOnce(s: seq<int>)
    requires forall a, b :: 0 <= a < b < |s| ==> s[a] != s[b]
    ensures forall x :: multiset(s)[x] == if x in s then 1 else 0
  {
    if s != [] {
      var t := s[..|s| - 1];
      DistinctOnce(t);
      assert s == t + [s[|s| - 1]];
    }
  }

  /** No step takes away the block of a buffer that is referenced or dirty. What a
      dirty buffer holds changes only by an edit of it, and it stops being dirty only
      when its data has reached the disk. */
  lemma StepKeepsPinned(c: Cache, t: Step, i: int)
    requires Inv(c) && Enabled(c, t) && 0 <= i < NBUF
    requires c.bufs[i].refcnt > 0 || c.bufs[i].dirty
    ensures var c' := Apply(c, t);
            && |c'.bufs| == NBUF && c'.bufs[i].key == c.bufs[i].key
            && (c.bufs[i].valid && !(t.Edit? && c.holds[t.h].buf == i) ==>
                  c'.bufs[i].valid && c'.bufs[i].data == c.bufs[i].data)
            && (c.bufs[i].dirty && !c'.bufs[i].dirty ==>
                  t.Bwrite? && c.holds[t.h].buf == i && Block(c'.disk, c.bufs[i].key) == c.bufs[i].data)
  {
    hide Ordered, Total, Alone, Counted, Exclusive, LocksHeld, ToFront;
    match t
    case Put(h) => PutShape(c, h);
    case _ =>
  }

  /** No step of the run edits or writes buffer i. */
  ghost predicate LeftAlone(c: Cache, steps: seq<Step>, i: int)
    decreases |steps|
  {
    steps == [] ||
    (&& Enabled(c, steps[0])
     && !((steps[0].Edit? || steps[0].Bwrite?) && c.holds[steps[0].h].buf == i)
     && LeftAlone(Apply(c, steps[0]), steps[1..], i))
  }

  /** A buffer that log_write has pinned stays in the cache with its block and its
      data through any run until someone edits or writes that very buffer. */
  lemma {:induction false} PinnedStays(c: Cache, steps: seq<Step>, c': Cache, i: int)
    requires Inv(c) && Run(c, steps, c') && LeftAlone(c, steps, i)
    requires 0 <= i < NBUF && c.bufs[i].dirty
    ensures Inv(c') && c'.bufs[i].dirty && c'.bufs[i].valid
    ensures c'.bufs[i].key == c.bufs[i].key && c'.bufs[i].data == c.bufs[i].data
    decreases |steps|
  {
    hide Enabled, Apply, Ordered, Total, Alone, Counted, HoldsFit, Exclusive, LocksHeld;
    if steps != [] {
      StepKeepsInv(c, steps[0]);
      StepKeepsPinned(c, steps[0], i);
      PinnedStays(Apply(c, steps[0]), steps[1..], c', i);
    }
  }
}
