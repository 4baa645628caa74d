/** The block cache under all interleavings (bio.c). A handle is one call of bread
    together with its brelse: it takes a reference, waits for the buffer's
    sleep-lock, reads the block if need be, perhaps edits it, and lets go. */
module BufferMachine {

  const NBUF := 30

  datatype Data = Data(bytes: seq<int>)

  datatype Key = Key(dev: int, blockno: int)

  datatype Buf = Buf(key: Key, refcnt: int, valid: bool, dirty: bool, locked: bool, data: Data)

  /** Where a handle stands. Edited means that the data was changed and neither
      log_write nor bwrite has been called since. */
  datatype Stage = Waiting | Locked | Filled | Edited | Leaving

  datatype Hold = Hold(buf: int, stage: Stage)

  /** `ring` lists the buffers from head.next on. `stamp` says when each buffer was
      last put at the front; `clock` is the next stamp. The code has neither: they
      state what the order of the ring means. */
  datatype Cache = Cache(
    bufs: seq<Buf>,
    ring: seq<int>,
    stamp: seq<int>,
    clock: int,
    holds: map<int, Hold>,
    disk: map<Key, Data>)

  datatype Step =
    | Get(h: int, key: Key)
    | Lock(h: int)
    | Fill(h: int)
    | Read(h: int)
    | Edit(h: int, data: Data)
    | LogWrite(h: int)
    | Bwrite(h: int)
    | Unlock(h: int)
    | Put(h: int)

  datatype Outcome = Quiet | Contents(data: Data)

  function Block(disk: map<Key, Data>, k: Key): Data {
    if k in disk then disk[k] else Data([])
  }

  predicate InLock(s: Stage) {
    s == Locked || s == Filled || s == Edited
  }

  predicate Busy(s: Stage) {
    s == Filled || s == Edited
  }

  predicate RingIn(bufs: seq<Buf>, ring: seq<int>) {
    forall a :: 0 <= a < |ring| ==> 0 <= ring[a] < |bufs|
  }

  /** The first buffer of the ring, from position p on, that holds the block. */
  function Find(bufs: seq<Buf>, ring: seq<int>, key: Key, p: nat): (q: nat)
    requires RingIn(bufs, ring) && p <= |ring|
    ensures p <= q <= |ring|
    ensures q < |ring| ==> bufs[ring[q]].key == key
    ensures forall a :: p <= a < q ==> bufs[ring[a]].key != key
    decreases |ring| - p
  {
    if p == |ring| || bufs[ring[p]].key == key then p else Find(bufs, ring, key, p + 1)
  }

  predicate Idle(b: Buf) {
    b.refcnt == 0 && !b.dirty
  }

  /** The last buffer of the ring, before position p, that may be recycled; -1 if
      there is none. */
  function Victim(bufs: seq<Buf>, ring: seq<int>, p: nat): (q: int)
    requires RingIn(bufs, ring) && p <= |ring|
    ensures -1 <= q < p
    ensures q >= 0 ==> Idle(bufs[ring[q]])
    ensures forall a :: q < a < p ==> !Idle(bufs[ring[a]])
  {
    if p == 0 then -1
    else if Idle(bufs[ring[p - 1]]) then p - 1
    else Victim(bufs, ring, p - 1)
  }

  predicate RingInRange(c: Cache) {
    |c.bufs| == |c.stamp| == |c.ring| == NBUF && RingIn(c.bufs, c.ring)
  }

  /** The buffer that bget settles on; -1 where it panics. */
  function Choice(c: Cache, key: Key): (i: int)
    requires RingInRange(c)
    ensures -1 <= i < |c.bufs|
  {
    var p := Find(c.bufs, c.ring, key, 0);
    if p < |c.ring| then c.ring[p]
    else
      var q := Victim(c.bufs, c.ring, |c.ring|);
      if q >= 0 then c.ring[q] else -1
  }

  /** What bget makes of the buffer: one more reference, or a fresh start. */
  function Taken(b: Buf, key: Key): Buf {
    if b.key == key then b.(refcnt := b.refcnt + 1)
    else Buf(key, 1, false, false, b.locked, b.data)
  }

  function SetBuf(c: Cache, i: int, b: Buf): Cache
    requires 0 <= i < |c.bufs|
  {
    c.(bufs := c.bufs[i := b])
  }

  function SetHold(c: Cache, h: int, i: int, s: Stage): Cache {
    c.(holds := c.holds[h := Hold(i, s)])
  }

  /** iderw on a buffer that is not dirty: read the block. */
  function Loaded(b: Buf, disk: map<Key, Data>): Buf {
    if b.valid then b else b.(valid := true, data := Block(disk, b.key))
  }

  function Index(ring: seq<int>, i: int): (p: nat)
    requires i in ring
    ensures p < |ring| && ring[p] == i
  {
    if ring[0] == i then 0 else 1 + Index(ring[1..], i)
  }

  function ToFront(ring: seq<int>, p: nat): seq<int>
    requires p < |ring|
  {
    [ring[p]] + ring[..p] + ring[p + 1..]
  }

  /** The second half of brelse: drop the reference; the last one moves the buffer
      to the front. */
  function Released(c: Cache, i: int): Cache
    requires RingInRange(c) && 0 <= i < |c.bufs| && i in c.ring
  {
    var b := c.bufs[i].(refcnt := c.bufs[i].refcnt - 1);
    if b.refcnt != 0 then SetBuf(c, i, b)
    else SetBuf(c, i, b).(ring := ToFront(c.ring, Index(c.ring, i)),
                          stamp := c.stamp[i := c.clock],
                          clock := c.clock + 1)
  }

  predicate Holding(c: Cache, h: int) {
    h in c.holds && 0 <= c.holds[h].buf < |c.bufs|
  }

  ghost predicate Enabled(c: Cache, t: Step) {
    match t
    case Get(h, key) => RingInRange(c) && h !in c.holds && Choice(c, key) >= 0
    case Lock(h) => Holding(c, h) && c.holds[h].stage == Waiting && !c.bufs[c.holds[h].buf].locked
    case Fill(h) => Holding(c, h) && c.holds[h].stage == Locked
    case Read(h) => Holding(c, h) && Busy(c.holds[h].stage)
    case Edit(h, _) => Holding(c, h) && Busy(c.holds[h].stage)
    case LogWrite(h) => Holding(c, h) && Busy(c.holds[h].stage)
    case Bwrite(h) => Holding(c, h) && Busy(c.holds[h].stage)
    case Unlock(h) => Holding(c, h) && c.holds[h].stage == Filled
    case Put(h) =>
      Holding(c, h) && c.holds[h].stage == Leaving && RingInRange(c) && c.holds[h].buf in c.ring
  }

  function Apply(c: Cache, t: Step): Cache
    requires Enabled(c, t)
  {
    match t
    case Get(h, key) =>
      var i := Choice(c, key);
      SetHold(SetBuf(c, i, Taken(c.bufs[i], key)), h, i, Waiting)
    case Lock(h) =>
      var i := c.holds[h].buf;
      SetHold(SetBuf(c, i, c.bufs[i].(locked := true)), h, i, Locked)
    case Fill(h) =>
      var i := c.holds[h].buf;
      SetHold(SetBuf(c, i, Loaded(c.bufs[i], c.disk)), h, i, Filled)
    case Read(h) => c
    case Edit(h, x) =>
      var i := c.holds[h].buf;
      SetHold(SetBuf(c, i, c.bufs[i].(data := x)), h, i, Edited)
    case LogWrite(h) =>
      var i := c.holds[h].buf;
      SetHold(SetBuf(c, i, c.bufs[i].(dirty := true)), h, i, Filled)
    case Bwrite(h) =>
      var i := c.holds[h].buf;
      var b := c.bufs[i];
      SetHold(SetBuf(c, i, b.(dirty := false, valid := true)), h, i, Filled)
        .(disk := c.disk[b.key := b.data])
    case Unlock(h) =>
      var i := c.holds[h].buf;
      SetHold(SetBuf(c, i, c.bufs[i].(locked := false)), h, i, Leaving)
    case Put(h) =>
      var i := c.holds[h].buf;
      Released(c, i).(holds := c.holds - {h})
  }

  function Result(c: Cache, t: Step): Outcome
    requires Enabled(c, t)
  {
    match t
    case Read(h) => Contents(c.bufs[c.holds[h].buf].data)
    case _ => Quiet
  }

  /** After binit: every buffer claims block 0 of device 0 and holds nothing. */
  function Booted(disk: map<Key, Data>): Cache {
    Cache(seq(NBUF, i => Buf(Key(0, 0), 0, false, false, false, Data([]))),
          seq(NBUF, i => NBUF - 1 - i), seq(NBUF, i => i), NBUF, map[], disk)
  }

  ghost predicate Run(c: Cache, steps: seq<Step>, c': Cache)
    decreases |steps|
  {
    if steps == [] then c == c'
    else Enabled(c, steps[0]) && Run(Apply(c, steps[0]), steps[1..], c')
  }
}
