/** Log space: begin_op's reservation keeps the log from overflowing exactly when
    each system call logs fewer than MAXOPBLOCKS distinct blocks. */
module LogReservation {
  import opened LogLayout
  import opened LogProtocol

  /** The log entries that the outstanding calls may still add, if each logs at
      most `limit` distinct blocks. */
  function Unspent(ops: seq<Op>, limit: nat): int {
    if ops == [] then 0 else limit - ops[0].added + Unspent(ops[1..], limit)
  }

  lemma UnspentConcat(a: seq<Op>, b: seq<Op>, limit: nat)
    ensures Unspent(a + b, limit) == Unspent(a, limit) + Unspent(b, limit)
  {
    if a == [] {
      assert a + b == b;
    } else {
      UnspentConcat(a[1..], b, limit);
      assert (a + b)[1..] == a[1..] + b;
    }
  }

  /** Replacing or removing one call. */
  lemma UnspentSplit(ops: seq<Op>, i: nat, limit: nat)
    requires i < |ops|
    ensures Unspent(ops, limit) == Unspent(ops[..i] + ops[i + 1..], limit) + limit - ops[i].added
    ensures forall op :: Unspent(ops[i := op], limit) == Unspent(ops, limit) + ops[i].added - op.added
  {
    UnspentConcat(ops[..i], ops[i + 1..], limit);
    forall op
      ensures Unspent(ops[i := op], limit) == Unspent(ops[..i], limit) + (limit - op.added) + Unspent(ops[i + 1..], limit)
    {
      assert ops[i := op] == ops[..i] + ([op] + ops[i + 1..]);
      UnspentConcat(ops[..i], [op] + ops[i + 1..], limit);
      assert ([op] + ops[i + 1..])[1..] == ops[i + 1..];
    }
    assert ops[i := ops[i]] == ops;
  }

  /** No outstanding call has logged more than `limit` distinct blocks. */
  ghost predicate Within(s: State, limit: nat) {
    forall i :: 0 <= i < |s.ops| ==> |s.ops[i].logged| <= limit
  }

  /** A run in which no call ever logs more than `limit` distinct blocks. */
  ghost predicate RunWithin(g: Geometry, s: State, steps: seq<Step>, s': State, limit: nat)
    requires ValidGeometry(g)
    decreases |steps|
  {
    && Within(s, limit)
    && if steps == [] then s == s'
       else Enabled(g, s, steps[0]) && RunWithin(g, Apply(g, s, steps[0]), steps[1..], s', limit)
  }

  /** Logged blocks plus unspent reservations. An operation is admitted with
      others outstanding only if 2 * MAXOPBLOCKS entries are free, and alone only
      if the log is empty. */
  ghost predicate Reserved(s: State, limit: nat) {
    && |s.lh| + Unspent(s.ops, limit) <= LOGSIZE - 2 * (MAXOPBLOCKS - limit)
    && forall i {:trigger s.ops[i]} :: 0 <= i < |s.ops| ==>
         s.ops[i].added <= |s.ops[i].logged| && forall b :: b in s.ops[i].logged ==> b in s.lh
  }

  ghost predicate SpaceOk(s: State, limit: nat) {
    match s.mode
    case Running => Reserved(s, limit) && (s.ops == [] ==> s.lh == [])
    case Panicked => true
    case _ => s.ops == []
  }

  lemma UnspentNonNegative(s: State, limit: nat, ops: seq<Op>)
    requires forall i :: 0 <= i < |ops| ==> ops[i].added <= limit
    ensures 0 <= Unspent(ops, limit)
  {
    if ops != [] {
      UnspentNonNegative(s, limit, ops[1..]);
    }
  }

  lemma UnspentAtMost(ops: seq<Op>, limit: nat)
    ensures Unspent(ops, limit) <= |ops| * limit
  {
    if ops != [] {
      UnspentAtMost(ops[1..], limit);
    }
  }

  lemma BeginKeepsSpace(s: State, o: OpId, limit: nat)
    requires SpaceOk(s, limit) && limit <= MAXOPBLOCKS && Admits(s)
    ensures SpaceOk(DoBegin(s, o), limit)
  {
    var s' := DoBegin(s, o);
    UnspentAtMost(s'.ops, limit);
    assert |s'.ops| == |s.ops| + 1;
    assert s.ops == [] ==> s'.ops == [Op(o, 0, {})];
  }

  lemma EndKeepsSpace(s: State, o: OpId, limit: nat)
    requires SpaceOk(s, limit) && Within(s, limit) && s.mode == Running && Find(s.ops, o) >= 0
    ensures SpaceOk(DoEnd(s, o), limit)
  {
    hide Find, Unspent;
    var i := Find(s.ops, o);
    var s' := DoEnd(s, o);
    UnspentSplit(s.ops, i, limit);
    forall k {:trigger s'.ops[k]} | 0 <= k < |s'.ops|
      ensures s'.ops[k].added <= |s'.ops[k].logged| && forall b :: b in s'.ops[k].logged ==> b in s'.lh
    {
      assert s'.ops[k] == s.ops[if k < i then k else k + 1];
    }
  }

  lemma LogWriteKeepsSpace(s: State, o: OpId, b: int, limit: nat)
    requires SpaceOk(s, limit) && s.mode == Running && Find(s.ops, o) >= 0
    ensures SpaceOk(DoLogWrite(s, o, b), limit)
  {
    var i := Find(s.ops, o);
    var s' := DoLogWrite(s, o, b);
    UnspentSplit(s.ops, i, limit);
    if b !in s.lh {
      assert b !in s.ops[i].logged;
    }
    assert forall c :: c in s.lh ==> c in s'.lh;
  }

  lemma StepKeepsSpace(g: Geometry, s: State, t: Step, limit: nat)
    requires ValidGeometry(g) && SpaceOk(s, limit) && Within(s, limit) && limit <= MAXOPBLOCKS && Enabled(g, s, t)
    ensures SpaceOk(Apply(g, s, t), limit)
  {
    match t
    case Begin(o) => BeginKeepsSpace(s, o, limit);
    case LogWrite(o, b) => if !LogWritePanics(g, s) { LogWriteKeepsSpace(s, o, b, limit); }
    case End(o) => EndKeepsSpace(s, o, limit);
    case _ =>
  }

  lemma {:induction false} RunKeepsSpace(g: Geometry, s: State, steps: seq<Step>, s': State, limit: nat)
    requires ValidGeometry(g) && SpaceOk(s, limit) && limit <= MAXOPBLOCKS && RunWithin(g, s, steps, s', limit)
    ensures SpaceOk(s', limit) && Within(s', limit)
    decreases |steps|
  {
    if steps != [] {
      StepKeepsSpace(g, s, steps[0], limit);
      RunKeepsSpace(g, Apply(g, s, steps[0]), steps[1..], s', limit);
    }
  }

  lemma Room(s: State, limit: nat)
    requires s.mode == Running && SpaceOk(s, limit) && Within(s, limit)
    ensures |s.lh| <= LOGSIZE - 2 * (MAXOPBLOCKS - limit)
  {
    assert forall i :: 0 <= i < |s.ops| ==> s.ops[i].added <= |s.ops[i].logged| <= limit;
    UnspentNonNegative(s, limit, s.ops);
  }

  /** Reservation: if each call logs at most MAXOPBLOCKS distinct blocks, logged
      blocks plus unspent reservations never exceed LOGSIZE. */
  lemma ReservationHolds(g: Geometry, d0: Disk, s: State, steps: seq<Step>, s': State)
    requires ValidGeometry(g) && Init(g, d0, s) && RunWithin(g, s, steps, s', MAXOPBLOCKS)
    ensures s'.mode == Running ==> |s'.lh| + Unspent(s'.ops, MAXOPBLOCKS) <= LOGSIZE
  {
    RunKeepsSpace(g, s, steps, s', MAXOPBLOCKS);
  }

  lemma {:induction false} NoPanicFrom(g: Geometry, s: State, steps: seq<Step>, s': State, limit: nat)
    requires ValidGeometry(g) && g.size >= LOGSIZE && limit < MAXOPBLOCKS
    requires SpaceOk(s, limit) && s.mode != Panicked && RunWithin(g, s, steps, s', limit)
    ensures s'.mode != Panicked
    decreases |steps|
  {
    if steps != [] {
      if s.mode == Running {
        Room(s, limit);
      }
      StepKeepsSpace(g, s, steps[0], limit);
      NoPanicFrom(g, Apply(g, s, steps[0]), steps[1..], s', limit);
    }
  }

  /** With the log that mkfs makes, or a larger one, log_write never panics if each
      call logs at most MAXOPBLOCKS - 1 distinct blocks, however often it logs
      each of them. */
  lemma NoPanic(g: Geometry, d0: Disk, s: State, steps: seq<Step>, s': State)
    requires ValidGeometry(g) && g.size >= LOGSIZE && Init(g, d0, s)
    requires RunWithin(g, s, steps, s', MAXOPBLOCKS - 1)
    ensures s'.mode != Panicked
  {
    hide RunWithin;
    NoPanicFrom(g, s, steps, s', MAXOPBLOCKS - 1);
  }

  // MAXOPBLOCKS distinct blocks per call are too many: a run that panics.

  lemma {:induction false} RunConcat(g: Geometry, s: State, a: seq<Step>, m: State, b: seq<Step>, s': State, limit: nat)
    requires ValidGeometry(g) && RunWithin(g, s, a, m, limit) && RunWithin(g, m, b, s', limit)
    ensures RunWithin(g, s, a + b, s', limit)
    decreases |a|
  {
    hide Enabled, Apply, Within;
    if a == [] {
      assert a + b == b;
    } else {
      RunConcat(g, Apply(g, s, a[0]), a[1..], m, b, s', limit);
      assert (a + b)[1..] == a[1..] + b;
    }
  }

  lemma RunOne(g: Geometry, s: State, t: Step, limit: nat)
    requires ValidGeometry(g) && Enabled(g, s, t) && Within(s, limit) && Within(Apply(g, s, t), limit)
    ensures RunWithin(g, s, [t], Apply(g, s, t), limit)
  {
    assert [t][1..] == [];
  }

  /** A running machine with no buffer held whose log and calls know only blocks
      below b. */
  ghost predicate Fresh(g: Geometry, s: State, b: int) {
    && |s.disk| == g.blocks && s.mode == Running && s.holds == map[]
    && (forall c :: c in s.lh ==> c < b)
    && (forall i, c {:trigger c in s.ops[i].logged} :: 0 <= i < |s.ops| && c in s.ops[i].logged ==> c < b)
    && Within(s, MAXOPBLOCKS)
  }

  /** The call at index i reads, logs and releases block b. */
  lemma LogOne(g: Geometry, s: State, i: nat, b: int) returns (steps: seq<Step>, s': State)
    requires ValidGeometry(g) && Fresh(g, s, b) && Home(g, b) && i < |s.ops| && Find(s.ops, s.ops[i].id) == i
    requires |s.lh| < Capacity(g) && |s.ops[i].logged| < MAXOPBLOCKS
    ensures RunWithin(g, s, steps, s', MAXOPBLOCKS) && Fresh(g, s', b + 1)
    ensures |s'.lh| == |s.lh| + 1 && s'.issued == s.issued
    ensures s'.ops == s.ops[i := Op(s.ops[i].id, s.ops[i].added + 1, s.ops[i].logged + {b})]
    ensures |s'.ops[i].logged| == |s.ops[i].logged| + 1
  {
    hide RunWithin;
    var o := s.ops[i].id;
    var s1 := DoBread(s, o, b);
    assert s1 == Apply(g, s, Bread(o, b));
    RunOne(g, s, Bread(o, b), MAXOPBLOCKS);
    var s2 := DoLogWrite(s1, o, b);
    assert s2 == Apply(g, s1, LogWrite(o, b));
    assert b !in s.ops[i].logged;
    RunOne(g, s1, LogWrite(o, b), MAXOPBLOCKS);
    s' := DoBrelse(s2, b);
    assert s' == Apply(g, s2, Brelse(o, b));
    RunOne(g, s2, Brelse(o, b), MAXOPBLOCKS);
    RunConcat(g, s, [Bread(o, b)], s1, [LogWrite(o, b)], s2, MAXOPBLOCKS);
    RunConcat(g, s, [Bread(o, b)] + [LogWrite(o, b)], s2, [Brelse(o, b)], s', MAXOPBLOCKS);
    steps := [Bread(o, b)] + [LogWrite(o, b)] + [Brelse(o, b)];
    assert s'.holds == map[];
  }

  lemma RunNone(g: Geometry, s: State, b: int)
    requires ValidGeometry(g) && Fresh(g, s, b)
    ensures RunWithin(g, s, [], s, MAXOPBLOCKS)
  {
  }

  /** The call at index i logs the k blocks from b on. */
  lemma {:induction false} LogMany(g: Geometry, s: State, i: nat, b: int, k: nat) returns (steps: seq<Step>, s': State)
    requires ValidGeometry(g) && Fresh(g, s, b) && i < |s.ops| && Find(s.ops, s.ops[i].id) == i
    requires forall c :: b <= c < b + k ==> Home(g, c)
    requires |s.lh| + k <= Capacity(g) && |s.ops[i].logged| + k <= MAXOPBLOCKS
    ensures RunWithin(g, s, steps, s', MAXOPBLOCKS) && Fresh(g, s', b + k)
    ensures |s'.lh| == |s.lh| + k && s'.issued == s.issued
    ensures |s'.ops| == |s.ops| && forall j :: 0 <= j < |s.ops| ==> s'.ops[j].id == s.ops[j].id
    ensures forall j :: 0 <= j < |s.ops| && j != i ==> s'.ops[j] == s.ops[j]
    ensures |s'.ops[i].logged| == |s.ops[i].logged| + k
    ensures s.ops[i].logged <= s'.ops[i].logged && forall c :: b <= c < b + k ==> c in s'.ops[i].logged
    decreases k
  {
    hide RunWithin, Fresh, Find;
    if k == 0 {
      RunNone(g, s, b);
      steps, s' := [], s;
    } else {
      var a, m := LogOne(g, s, i, b);
      FindSame(s.ops, m.ops, s.ops[i].id);
      var c, e := LogMany(g, m, i, b + 1, k - 1);
      RunConcat(g, s, a, m, c, e, MAXOPBLOCKS);
      steps, s' := a + c, e;
    }
  }

  lemma FindSame(a: seq<Op>, b: seq<Op>, o: OpId)
    requires |a| == |b| && forall j :: 0 <= j < |a| ==> a[j].id == b[j].id
    ensures Find(a, o) == Find(b, o)
  {
    if a != [] && a[|a| - 1].id != o {
      FindSame(a[..|a| - 1], b[..|b| - 1], o);
    }
  }

  /** The machine is up, over an empty log, with calls 0 and 1 begun. */
  lemma TwoBegun(g: Geometry, d0: Disk, s: State) returns (steps: seq<Step>, s': State)
    requires ValidGeometry(g) && Init(g, d0, s)
    ensures RunWithin(g, s, steps, s', MAXOPBLOCKS)
    ensures |s'.disk| == g.blocks && s'.mode == Running && s'.holds == map[] && s'.lh == []
    ensures s'.ops == [Op(0, 0, {}), Op(1, 0, {})] && s'.issued == map[0 := [], 1 := []]
  {
    hide RunWithin;
    var s1 := Apply(g, s, Boot);
    RunOne(g, s, Boot, MAXOPBLOCKS);
    assert Enabled(g, s1, WriteNext);
    var s2 := Apply(g, s1, WriteNext);
    RunOne(g, s1, WriteNext, MAXOPBLOCKS);
    RunConcat(g, s, [Boot], s1, [WriteNext], s2, MAXOPBLOCKS);
    var s3 := Apply(g, s2, Begin(0));
    RunOne(g, s2, Begin(0), MAXOPBLOCKS);
    RunConcat(g, s, [Boot] + [WriteNext], s2, [Begin(0)], s3, MAXOPBLOCKS);
    s' := Apply(g, s3, Begin(1));
    RunOne(g, s3, Begin(1), MAXOPBLOCKS);
    RunConcat(g, s, [Boot] + [WriteNext] + [Begin(0)], s3, [Begin(1)], s', MAXOPBLOCKS);
    steps := [Boot] + [WriteNext] + [Begin(0)] + [Begin(1)];
  }

  /** Call 1 has logged its MAXOPBLOCKS blocks and ended; call 2 has begun. */
  lemma SecondPair(g: Geometry, s: State, b: int) returns (steps: seq<Step>, s': State)
    requires ValidGeometry(g) && g.size >= LOGSIZE && (forall c :: b <= c < b + MAXOPBLOCKS ==> Home(g, c))
    requires |s.disk| == g.blocks && s.mode == Running && s.holds == map[] && s.lh == []
    requires s.ops == [Op(0, 0, {}), Op(1, 0, {})] && s.issued == map[0 := [], 1 := []]
    ensures RunWithin(g, s, steps, s', MAXOPBLOCKS) && Fresh(g, s', b + MAXOPBLOCKS)
    ensures |s'.lh| == MAXOPBLOCKS && s'.ops == [Op(0, 0, {}), Op(2, 0, {})]
  {
    hide RunWithin;
    var a, m := LogMany(g, s, 1, b, MAXOPBLOCKS);
    var e := Apply(g, m, End(1));
    assert Find(m.ops, 1) == 1 && e.ops == [Op(0, 0, {})];
    RunOne(g, m, End(1), MAXOPBLOCKS);
    RunConcat(g, s, a, m, [End(1)], e, MAXOPBLOCKS);
    s' := Apply(g, e, Begin(2));
    RunOne(g, e, Begin(2), MAXOPBLOCKS);
    RunConcat(g, s, a + [End(1)], e, [Begin(2)], s', MAXOPBLOCKS);
    steps := a + [End(1)] + [Begin(2)];
  }

  /** Calls that keep to MAXOPBLOCKS distinct blocks, the limit that param.h
      states, can panic the kernel, however large the log. The last straw is a block
      that the call has logged before: log_write tests the size first. */
  lemma PanicReachable(g: Geometry, d0: Disk, s: State) returns (steps: seq<Step>, s': State)
    requires ValidGeometry(g) && g.size >= LOGSIZE && g.start + g.size + 3 * MAXOPBLOCKS <= g.blocks
    requires Init(g, d0, s)
    ensures RunWithin(g, s, steps, s', MAXOPBLOCKS) && s'.mode == Panicked
  {
    hide RunWithin;
    var b := g.start + g.size;
    var t1, s1 := TwoBegun(g, d0, s);
    var t2, s2 := SecondPair(g, s1, b);
    RunConcat(g, s, t1, s1, t2, s2, MAXOPBLOCKS);
    var t3, s3 := LogMany(g, s2, 0, b + MAXOPBLOCKS, MAXOPBLOCKS);
    RunConcat(g, s, t1 + t2, s2, t3, s3, MAXOPBLOCKS);
    assert Find(s3.ops, 2) == 1;
    var t4, s4 := LogMany(g, s3, 1, b + 2 * MAXOPBLOCKS, Capacity(g) - 2 * MAXOPBLOCKS);
    RunConcat(g, s, t1 + t2 + t3, s3, t4, s4, MAXOPBLOCKS);
    var t5, s5 := LastStraw(g, s4, b + 2 * MAXOPBLOCKS);
    RunConcat(g, s, t1 + t2 + t3 + t4, s4, t5, s5, MAXOPBLOCKS);
    steps, s' := t1 + t2 + t3 + t4 + t5, s5;
  }

  /** The log is full, and call 2 logs one of its blocks again. */
  lemma LastStraw(g: Geometry, s: State, b: int) returns (steps: seq<Step>, s': State)
    requires ValidGeometry(g) && |s.disk| == g.blocks && s.mode == Running && s.holds == map[] && Within(s, MAXOPBLOCKS)
    requires Home(g, b) && |s.ops| == 2 && s.ops[1].id == 2 && b in s.ops[1].logged
    requires |s.lh| == Capacity(g)
    ensures RunWithin(g, s, steps, s', MAXOPBLOCKS) && s'.mode == Panicked
  {
    var s1 := Apply(g, s, Bread(2, b));
    RunOne(g, s, Bread(2, b), MAXOPBLOCKS);
    assert Find(s1.ops, 2) == 1;
    s' := Apply(g, s1, LogWrite(2, b));
    RunOne(g, s1, LogWrite(2, b), MAXOPBLOCKS);
    RunConcat(g, s, [Bread(2, b)], s1, [LogWrite(2, b)], s', MAXOPBLOCKS);
    steps := [Bread(2, b)] + [LogWrite(2, b)];
  }

  lemma {:induction false} MoreAllowed(g: Geometry, s: State, steps: seq<Step>, s': State, limit: nat, more: nat)
    requires ValidGeometry(g) && RunWithin(g, s, steps, s', limit) && limit <= more
    ensures RunWithin(g, s, steps, s', more)
    decreases |steps|
  {
    hide Enabled, Apply;
    if steps != [] {
      MoreAllowed(g, Apply(g, s, steps[0]), steps[1..], s', limit, more);
    }
  }

  lemma NoPanicWithin(g: Geometry, d0: Disk, s: State, steps: seq<Step>, s': State, limit: nat)
    requires ValidGeometry(g) && g.size >= LOGSIZE && Init(g, d0, s) && limit < MAXOPBLOCKS
    requires RunWithin(g, s, steps, s', limit)
    ensures s'.mode != Panicked
  {
    hide RunWithin, Init;
    MoreAllowed(g, s, steps, s', limit, MAXOPBLOCKS - 1);
    NoPanic(g, d0, s, steps, s');
  }

  /** The limit is exact: on a log of LOGSIZE blocks or more, no run in which every call
      logs at most `limit` distinct blocks panics, if and only if the limit is below
      MAXOPBLOCKS. */
  lemma NoPanicIff(g: Geometry, d0: Disk, s: State, limit: nat)
    requires ValidGeometry(g) && g.size >= LOGSIZE && g.start + g.size + 3 * MAXOPBLOCKS <= g.blocks
    requires Init(g, d0, s)
    ensures (forall steps, s' :: RunWithin(g, s, steps, s', limit) ==> s'.mode != Panicked) <==> limit < MAXOPBLOCKS
  {
    hide RunWithin, Init;
    if limit < MAXOPBLOCKS {
      forall steps, s' | RunWithin(g, s, steps, s', limit)
        ensures s'.mode != Panicked
      {
        NoPanicWithin(g, d0, s, steps, s', limit);
      }
    } else {
      var steps, s' := PanicReachable(g, d0, s);
      MoreAllowed(g, s, steps, s', MAXOPBLOCKS, limit);
    }
  }
}
