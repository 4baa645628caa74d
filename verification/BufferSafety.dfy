/** What holds of the block cache in every state it can reach. */
module BufferSafety {
  import opened BufferMachine

  /** Nothing of the buffer has been used since boot. */
  predicate Fresh(b: Buf) {
    b.refcnt == 0 && !b.valid && !b.dirty
  }

  /** Last put in front, first in the ring. */
  ghost predicate Ordered(ring: seq<int>, stamp: seq<int>, clock: int) {
    && (forall a :: 0 <= a < |ring| ==> 0 <= ring[a] < |stamp| && stamp[ring[a]] < clock)
    && (forall a, b :: 0 <= a < b < |ring| ==> stamp[ring[a]] > stamp[ring[b]])
  }

  ghost predicate Total(ring: seq<int>) {
    forall i :: 0 <= i < NBUF ==> i in ring
  }

  /** Two buffers with the same block: only block 0 of device 0, and the one behind
      was never used. */
  ghost predicate Alone(bufs: seq<Buf>, ring: seq<int>)
    requires RingIn(bufs, ring)
  {
    forall a, b :: 0 <= a < b < |ring| && bufs[ring[a]].key == bufs[ring[b]].key ==>
      bufs[ring[a]].key == Key(0, 0) && Fresh(bufs[ring[b]])
  }

  ghost function Users(holds: map<int, Hold>, i: int): set<int> {
    set h | h in holds && holds[h].buf == i
  }

  ghost predicate Counted(bufs: seq<Buf>, holds: map<int, Hold>) {
    forall i :: 0 <= i < |bufs| ==> bufs[i].refcnt == |Users(holds, i)|
  }

  predicate FitsStage(b: Buf, s: Stage) {
    && (InLock(s) ==> b.locked)
    && (Busy(s) || s == Leaving ==> b.valid)
  }

  ghost predicate HoldsFit(bufs: seq<Buf>, holds: map<int, Hold>) {
    forall h :: h in holds ==> 0 <= holds[h].buf < |bufs| && FitsStage(bufs[holds[h].buf], holds[h].stage)
  }

  /** One holder of a sleep-lock at a time. */
  ghost predicate Exclusive(holds: map<int, Hold>) {
    forall h, g :: (h in holds && g in holds && holds[h].buf == holds[g].buf
                    && InLock(holds[h].stage) && InLock(holds[g].stage)) ==> h == g
  }

  ghost predicate LockedBy(holds: map<int, Hold>, i: int) {
    exists h :: h in holds && holds[h].buf == i && InLock(holds[h].stage)
  }

  ghost predicate LocksHeld(bufs: seq<Buf>, holds: map<int, Hold>) {
    forall i :: 0 <= i < |bufs| && bufs[i].locked ==> LockedBy(holds, i)
  }

  ghost predicate DirtyIsValid(bufs: seq<Buf>) {
    forall i :: 0 <= i < |bufs| && bufs[i].dirty ==> bufs[i].valid
  }

  ghost predicate Inv(c: Cache) {
    && RingInRange(c) && Ordered(c.ring, c.stamp, c.clock) && Total(c.ring)
    && Alone(c.bufs, c.ring) && Counted(c.bufs, c.holds)
    && HoldsFit(c.bufs, c.holds) && Exclusive(c.holds) && LocksHeld(c.bufs, c.holds)
    && DirtyIsValid(c.bufs)
  }

  // Single facts.

  lemma UserCounts(c: Cache, h: int)
    requires Counted(c.bufs, c.holds) && Holding(c, h)
    ensures c.bufs[c.holds[h].buf].refcnt > 0
  {
    assert h in Users(c.holds, c.holds[h].buf);
  }

  lemma CountedSame(bufs: seq<Buf>, holds: map<int, Hold>, i: int, b: Buf, h: int, s: Stage)
    requires Counted(bufs, holds) && h in holds && holds[h].buf == i
    requires 0 <= i < |bufs| && b.refcnt == bufs[i].refcnt
    ensures Counted(bufs[i := b], holds[h := Hold(i, s)])
  {
    forall j
      ensures Users(holds[h := Hold(i, s)], j) == Users(holds, j)
    {
    }
  }

  lemma CountedMore(bufs: seq<Buf>, holds: map<int, Hold>, i: int, b: Buf, h: int, s: Stage)
    requires Counted(bufs, holds) && h !in holds
    requires 0 <= i < |bufs| && b.refcnt == bufs[i].refcnt + 1
    ensures Counted(bufs[i := b], holds[h := Hold(i, s)])
  {
    var holds' := holds[h := Hold(i, s)];
    assert Users(holds', i) == Users(holds, i) + {h};
    forall j | j != i
      ensures Users(holds', j) == Users(holds, j)
    {
    }
  }

  lemma CountedLess(bufs: seq<Buf>, holds: map<int, Hold>, i: int, b: Buf, h: int)
    requires Counted(bufs, holds) && h in holds && holds[h].buf == i
    requires 0 <= i < |bufs| && b.refcnt == bufs[i].refcnt - 1
    ensures Counted(bufs[i := b], holds - {h})
  {
    var holds' := holds - {h};
    assert Users(holds', i) == Users(holds, i) - {h};
    forall j | j != i
      ensures Users(holds', j) == Users(holds, j)
    {
    }
  }

  /** The reference of a buffer in use may change anything but its block. */
  lemma AloneInUse(bufs: seq<Buf>, ring: seq<int>, i: int, b: Buf)
    requires RingIn(bufs, ring) && Alone(bufs, ring)
    requires 0 <= i < |bufs| && b.key == bufs[i].key && !Fresh(bufs[i])
    ensures RingIn(bufs[i := b], ring) && Alone(bufs[i := b], ring)
  {
  }

  lemma AloneFirst(bufs: seq<Buf>, ring: seq<int>, p: nat, b: Buf)
    requires RingIn(bufs, ring) && Alone(bufs, ring)
    requires p < |ring| && b.key == bufs[ring[p]].key
    requires forall a, c :: 0 <= a < c < |ring| ==> ring[a] != ring[c]
    requires forall a :: 0 <= a < p ==> bufs[ring[a]].key != b.key
    ensures RingIn(bufs[ring[p] := b], ring) && Alone(bufs[ring[p] := b], ring)
  {
  }

  lemma AloneNew(bufs: seq<Buf>, ring: seq<int>, p: nat, b: Buf)
    requires RingIn(bufs, ring) && Alone(bufs, ring)
    requires p < |ring|
    requires forall a, c :: 0 <= a < c < |ring| ==> ring[a] != ring[c]
    requires forall a :: 0 <= a < |ring| ==> bufs[ring[a]].key != b.key
    ensures RingIn(bufs[ring[p] := b], ring) && Alone(bufs[ring[p] := b], ring)
  {
  }

  lemma FrontAt(ring: seq<int>, p: nat, a: nat)
    requires p < |ring| && a < |ring|
    ensures |ToFront(ring, p)| == |ring|
    ensures ToFront(ring, p)[a] == ring[if a == 0 then p else if a <= p then a - 1 else a]
  {
  }

  lemma AloneToFront(bufs: seq<Buf>, ring: seq<int>, p: nat)
    requires RingIn(bufs, ring) && Alone(bufs, ring)
    requires p < |ring| && !Fresh(bufs[ring[p]])
    ensures RingIn(bufs, ToFront(ring, p)) && Alone(bufs, ToFront(ring, p))
  {
    var ring' := ToFront(ring, p);
    forall a | 0 <= a < |ring'|
      ensures 0 <= ring'[a] < |bufs|
    {
      FrontAt(ring, p, a);
    }
    forall a, b | 0 <= a < b < |ring'| && bufs[ring'[a]].key == bufs[ring'[b]].key
      ensures bufs[ring'[a]].key == Key(0, 0) && Fresh(bufs[ring'[b]])
    {
      FrontAt(ring, p, a);
      FrontAt(ring, p, b);
    }
  }

  lemma OrderedToFront(ring: seq<int>, stamp: seq<int>, clock: int, p: nat)
    requires Ordered(ring, stamp, clock) && p < |ring|
    ensures Ordered(ToFront(ring, p), stamp[ring[p] := clock], clock + 1)
  {
    var ring', stamp' := ToFront(ring, p), stamp[ring[p] := clock];
    forall a | 0 <= a < |ring'|
      ensures 0 <= ring'[a] < |stamp'| && stamp'[ring'[a]] < clock + 1
    {
      FrontAt(ring, p, a);
    }
    forall a, b | 0 <= a < b < |ring'|
      ensures stamp'[ring'[a]] > stamp'[ring'[b]]
    {
      FrontAt(ring, p, a);
      FrontAt(ring, p, b);
    }
  }

  lemma TotalToFront(ring: seq<int>, p: nat)
    requires Total(ring) && p < |ring|
    ensures Total(ToFront(ring, p))
  {
    forall i | 0 <= i < NBUF
      ensures i in ToFront(ring, p)
    {
      assert i in ring;
      var a := Index(ring, i);
      FrontAt(ring, p, if a == p then 0 else if a < p then a + 1 else a);
    }
  }

  lemma Distinct(c: Cache)
    requires RingInRange(c) && Ordered(c.ring, c.stamp, c.clock)
    ensures forall a, b :: 0 <= a < b < |c.ring| ==> c.ring[a] != c.ring[b]
  {
  }

  // Steps of a handle that already has its buffer.

  /** The effect of such a step on locks: who holds them stays as the stages say. */
  lemma LocksAfter(bufs: seq<Buf>, holds: map<int, Hold>, h: int, b: Buf, s: Stage)
    requires HoldsFit(bufs, holds) && Exclusive(holds) && LocksHeld(bufs, holds) && h in holds
    requires InLock(s) ==> InLock(holds[h].stage) || !bufs[holds[h].buf].locked
    requires b.locked ==> InLock(s) || (bufs[holds[h].buf].locked && !InLock(holds[h].stage))
    ensures Exclusive(holds[h := Hold(holds[h].buf, s)])
    ensures LocksHeld(bufs[holds[h].buf := b], holds[h := Hold(holds[h].buf, s)])
  {
    var i := holds[h].buf;
    var holds' := holds[h := Hold(i, s)];
    forall j | 0 <= j < |bufs| && bufs[i := b][j].locked
      ensures LockedBy(holds', j)
    {
      if j == i && InLock(s) {
        assert h in holds' && holds'[h].buf == i;
      } else {
        assert LockedBy(holds, j);
        var g :| g in holds && holds[g].buf == j && InLock(holds[g].stage);
        assert g in holds' && holds'[g].buf == j;
      }
    }
  }

  lemma HoldsFitAfter(bufs: seq<Buf>, holds: map<int, Hold>, h: int, b: Buf, s: Stage)
    requires HoldsFit(bufs, holds) && Exclusive(holds) && h in holds && FitsStage(b, s)
    requires bufs[holds[h].buf].valid ==> b.valid
    requires !b.locked && bufs[holds[h].buf].locked ==> InLock(holds[h].stage)
    ensures HoldsFit(bufs[holds[h].buf := b], holds[h := Hold(holds[h].buf, s)])
  {
  }

  lemma HolderKeepsInv(c: Cache, h: int, b: Buf, s: Stage)
    requires Inv(c) && Holding(c, h)
    requires var o := c.bufs[c.holds[h].buf];
             && b.key == o.key && b.refcnt == o.refcnt && (o.valid ==> b.valid) && (b.dirty ==> b.valid)
             && FitsStage(b, s)
             && (InLock(s) ==> InLock(c.holds[h].stage) || !o.locked)
             && (b.locked ==> InLock(s) || (o.locked && !InLock(c.holds[h].stage)))
             && (!b.locked && o.locked ==> InLock(c.holds[h].stage))
    ensures Inv(SetHold(SetBuf(c, c.holds[h].buf, b), h, c.holds[h].buf, s))
  {
    hide Ordered, Total, Alone, Counted, HoldsFit, Exclusive, LocksHeld, FitsStage;
    var i := c.holds[h].buf;
    UserCounts(c, h);
    CountedSame(c.bufs, c.holds, i, b, h, s);
    AloneInUse(c.bufs, c.ring, i, b);
    LocksAfter(c.bufs, c.holds, h, b, s);
    HoldsFitAfter(c.bufs, c.holds, h, b, s);
  }

  // bget.

  lemma HoldsFitGet(bufs: seq<Buf>, holds: map<int, Hold>, i: int, b: Buf, h: int)
    requires HoldsFit(bufs, holds) && Counted(bufs, holds) && h !in holds && 0 <= i < |bufs|
    requires b.locked == bufs[i].locked
    requires b.valid == bufs[i].valid || bufs[i].refcnt == 0
    ensures HoldsFit(bufs[i := b], holds[h := Hold(i, Waiting)])
  {
    forall g | g in holds
      ensures FitsStage(bufs[i := b][holds[g].buf], holds[g].stage)
    {
      assert g in Users(holds, holds[g].buf);
    }
  }

  lemma LocksGet(bufs: seq<Buf>, holds: map<int, Hold>, i: int, b: Buf, h: int)
    requires Exclusive(holds) && LocksHeld(bufs, holds) && h !in holds && 0 <= i < |bufs|
    requires b.locked == bufs[i].locked
    ensures Exclusive(holds[h := Hold(i, Waiting)])
    ensures LocksHeld(bufs[i := b], holds[h := Hold(i, Waiting)])
  {
    var holds' := holds[h := Hold(i, Waiting)];
    forall j | 0 <= j < |bufs| && bufs[i := b][j].locked
      ensures LockedBy(holds', j)
    {
      assert LockedBy(holds, j);
      var g :| g in holds && holds[g].buf == j && InLock(holds[g].stage);
      assert g in holds' && holds'[g].buf == j;
    }
  }

  /** bget returns a buffer of the block that some earlier call found, if there is
      one. Otherwise it takes, of the buffers without a reference and not dirty,
      the one released longest ago. */
  lemma ChoiceIs(c: Cache, key: Key)
    requires Inv(c)
    ensures var i := Choice(c, key);
            if exists j :: 0 <= j < NBUF && c.bufs[j].key == key then
              && i >= 0 && c.bufs[i].key == key
              && forall j :: 0 <= j < NBUF && j != i && c.bufs[j].key == key ==> Fresh(c.bufs[j])
            else
              && (i == -1 <==> forall j :: 0 <= j < NBUF ==> !Idle(c.bufs[j]))
              && (i >= 0 ==> Idle(c.bufs[i]))
              && (i >= 0 ==> forall j :: 0 <= j < NBUF && Idle(c.bufs[j]) ==> c.stamp[i] <= c.stamp[j])
  {
    var p := Find(c.bufs, c.ring, key, 0);
    var q := Victim(c.bufs, c.ring, |c.ring|);
    forall j | 0 <= j < NBUF
      ensures c.bufs[j].key == key ==> p < |c.ring| && (j != c.ring[p] ==> Fresh(c.bufs[j]))
      ensures Idle(c.bufs[j]) ==> q >= 0 && c.stamp[c.ring[q]] <= c.stamp[j]
    {
      assert j in c.ring;
      var a := Index(c.ring, j);
    }
  }

  lemma GetAlone(c: Cache, key: Key)
    requires Inv(c) && Choice(c, key) >= 0
    ensures var i := Choice(c, key);
            var bufs' := c.bufs[i := Taken(c.bufs[i], key)];
            RingIn(bufs', c.ring) && Alone(bufs', c.ring)
  {
    Distinct(c);
    var p := Find(c.bufs, c.ring, key, 0);
    if p < |c.ring| {
      AloneFirst(c.bufs, c.ring, p, Taken(c.bufs[c.ring[p]], key));
    } else {
      var q := Victim(c.bufs, c.ring, |c.ring|);
      AloneNew(c.bufs, c.ring, q, Taken(c.bufs[c.ring[q]], key));
    }
  }

  lemma TakenIs(c: Cache, key: Key)
    requires RingInRange(c) && Choice(c, key) >= 0
    ensures var b := c.bufs[Choice(c, key)];
            && Taken(b, key).refcnt == b.refcnt + 1 && Taken(b, key).locked == b.locked
            && (Taken(b, key).valid == b.valid || b.refcnt == 0)
            && (Taken(b, key).dirty ==> b.dirty && Taken(b, key).valid == b.valid)
  {
  }

  lemma GetKeepsInv(c: Cache, h: int, key: Key)
    requires Inv(c) && Enabled(c, Get(h, key))
    ensures Inv(Apply(c, Get(h, key)))
  {
    hide Ordered, Total, Alone, Counted, HoldsFit, Exclusive, LocksHeld, Choice, Taken, RingIn;
    var i := Choice(c, key);
    var b := Taken(c.bufs[i], key);
    TakenIs(c, key);
    GetAlone(c, key);
    CountedMore(c.bufs, c.holds, i, b, h, Waiting);
    HoldsFitGet(c.bufs, c.holds, i, b, h);
    LocksGet(c.bufs, c.holds, i, b, h);
  }

  // brelse.

  lemma PutHolds(bufs: seq<Buf>, holds: map<int, Hold>, i: int, b: Buf, h: int)
    requires HoldsFit(bufs, holds) && Exclusive(holds) && LocksHeld(bufs, holds)
    requires h in holds && holds[h] == Hold(i, Leaving)
    requires b.locked == bufs[i].locked && b.valid == bufs[i].valid
    ensures HoldsFit(bufs[i := b], holds - {h}) && Exclusive(holds - {h})
    ensures LocksHeld(bufs[i := b], holds - {h})
  {
    forall j | 0 <= j < |bufs| && bufs[i := b][j].locked
      ensures LockedBy(holds - {h}, j)
    {
      assert LockedBy(holds, j);
      var g :| g in holds && holds[g].buf == j && InLock(holds[g].stage);
      assert g in holds - {h};
    }
  }

  lemma PutKeepsInv(c: Cache, h: int)
    requires Inv(c) && Enabled(c, Put(h))
    ensures Inv(Apply(c, Put(h)))
  {
    hide Ordered, Total, Alone, Counted, HoldsFit, Exclusive, LocksHeld, ToFront;
    var i := c.holds[h].buf;
    assert c.bufs[i].valid by {
      LeavingIsValid(c, h);
    }
    var b := c.bufs[i].(refcnt := c.bufs[i].refcnt - 1);
    UserCounts(c, h);
    CountedLess(c.bufs, c.holds, i, b, h);
    PutHolds(c.bufs, c.holds, i, b, h);
    AloneInUse(c.bufs, c.ring, i, b);
    if b.refcnt == 0 {
      var p := Index(c.ring, i);
      AloneToFront(c.bufs[i := b], c.ring, p);
      OrderedToFront(c.ring, c.stamp, c.clock, p);
      TotalToFront(c.ring, p);
      FrontAt(c.ring, p, 0);
    }
  }

  lemma LeavingIsValid(c: Cache, h: int)
    requires HoldsFit(c.bufs, c.holds) && h in c.holds
    ensures 0 <= c.holds[h].buf < |c.bufs|
    ensures Busy(c.holds[h].stage) || c.holds[h].stage == Leaving ==> c.bufs[c.holds[h].buf].valid
    ensures InLock(c.holds[h].stage) ==> c.bufs[c.holds[h].buf].locked
  {
  }

  lemma DiskKeepsInv(c: Cache, disk: map<Key, Data>)
    requires Inv(c)
    ensures Inv(c.(disk := disk))
  {
  }

  /** Every step keeps the invariant. */
  lemma StepKeepsInv(c: Cache, t: Step)
    requires Inv(c) && Enabled(c, t)
    ensures Inv(Apply(c, t))
  {
    hide Inv;
    match t
    case Get(h, key) => GetKeepsInv(c, h, key);
    case Put(h) => PutKeepsInv(c, h);
    case Read(h) =>
    case _ => MiddleKeepsInv(c, t);
  }

  lemma MiddleKeepsInv(c: Cache, t: Step)
    requires Inv(c) && Enabled(c, t) && !t.Get? && !t.Put? && !t.Read?
    ensures Inv(Apply(c, t))
  {
    hide Ordered, Total, Alone, Counted, HoldsFit, Exclusive, LocksHeld;
    LeavingIsValid(c, t.h);
    var b := c.bufs[c.holds[t.h].buf];
    match t
    case Lock(h) => HolderKeepsInv(c, h, b.(locked := true), Locked);
    case Fill(h) => HolderKeepsInv(c, h, Loaded(b, c.disk), Filled);
    case Edit(h, x) => HolderKeepsInv(c, h, b.(data := x), Edited);
    case LogWrite(h) => HolderKeepsInv(c, h, b.(dirty := true), Filled);
    case Bwrite(h) =>
      HolderKeepsInv(c, h, b.(dirty := false, valid := true), Filled);
      DiskKeepsInv(SetHold(SetBuf(c, c.holds[h].buf, b.(dirty := false, valid := true)), h, c.holds[h].buf, Filled),
                   c.disk[b.key := b.data]);
    case Unlock(h) => HolderKeepsInv(c, h, b.(locked := false), Leaving);
  }

  lemma BootInv(disk: map<Key, Data>)
    ensures Inv(Booted(disk))
  {
    var c := Booted(disk);
    forall i | 0 <= i < NBUF
      ensures i in c.ring && Users(c.holds, i) == {}
    {
      assert c.ring[NBUF - 1 - i] == i;
    }
  }

  lemma {:induction false} RunKeepsInv(c: Cache, steps: seq<Step>, c': Cache)
    requires Inv(c) && Run(c, steps, c')
    ensures Inv(c')
    decreases |steps|
  {
    hide Inv, Enabled, Apply;
    if steps != [] {
      StepKeepsInv(c, steps[0]);
      RunKeepsInv(Apply(c, steps[0]), steps[1..], c');
    }
  }
}
