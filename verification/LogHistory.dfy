/** What crash safety means for system calls: each is wholly in one committed
    group or absent, a group is durable from the moment its header is written,
    and recovery can always be run to its end. */
module LogHistory {
  import opened LogLayout
  import opened LogProtocol
  import opened LogSafety

  ghost function Ids(ops: seq<Op>): set<OpId> {
    set i | 0 <= i < |ops| :: ops[i].id
  }

  /** Every edit of a system call is in the one group that the call belongs to. */
  ghost predicate Whole(s: State) {
    && (forall o :: o in s.group ==> o in s.issued && s.group[o] <= |s.committed|)
    && (forall o, k {:trigger By(o, GroupAt(s, k))} :: 0 <= k <= |s.committed| ==>
          By(o, GroupAt(s, k)) == if o in s.group && s.group[o] == k then s.issued[o] else [])
    && (forall o :: o in Ids(s.ops) ==> o in s.group && s.group[o] == |s.committed|)
  }

  lemma ByAppend(o: OpId, es: seq<Edit>, e: Edit)
    ensures By(o, es + [e]) == By(o, es) + if e.op == o then [e] else []
  {
    assert (es + [e])[..|es|] == es;
  }

  lemma ByNone(o: OpId)
    ensures By(o, []) == []
  {
  }

  lemma WholeAfterModify(s: State, e: Edit)
    requires Whole(s) && e.op in Ids(s.ops)
    ensures Whole(DoModify(s, e))
  {
    hide By, Ids;
    var s' := DoModify(s, e);
    forall o, k | 0 <= k <= |s.committed|
      ensures By(o, GroupAt(s', k)) == if o in s'.group && s'.group[o] == k then s'.issued[o] else []
    {
      ByAppend(o, s.current, e);
      assert By(o, GroupAt(s, k)) == if o in s.group && s.group[o] == k then s.issued[o] else [];
    }
  }

  lemma WholeAfterBegin(s: State, o: OpId)
    requires Whole(s) && o !in s.issued
    ensures Whole(DoBegin(s, o))
  {
    hide By;
    var s' := DoBegin(s, o);
    assert forall i :: 0 <= i < |s.ops| ==> s.ops[i].id in Ids(s.ops);
    forall p, k | 0 <= k <= |s.committed|
      ensures By(p, GroupAt(s', k)) == if p in s'.group && s'.group[p] == k then s'.issued[p] else []
    {
      assert GroupAt(s', k) == GroupAt(s, k);
      assert By(p, GroupAt(s, k)) == if p in s.group && s.group[p] == k then s.issued[p] else [];
    }
  }

  /** The header write closes the group; nobody is outstanding then. */
  lemma WholeAfterWrite(g: Geometry, s: State)
    requires Whole(s) && WriteReady(g, s) && s.ops == []
    ensures Whole(DoWrite(g, s))
  {
    hide By;
    var s' := DoWrite(g, s);
    forall o, k | 0 <= k <= |s'.committed|
      ensures By(o, GroupAt(s', k)) == if o in s'.group && s'.group[o] == k then s'.issued[o] else []
    {
      ByNone(o);
      if k <= |s.committed| {
        assert GroupAt(s', k) == GroupAt(s, k);
        assert By(o, GroupAt(s, k)) == if o in s.group && s.group[o] == k then s.issued[o] else [];
      }
    }
  }

  lemma WholeAfterCrash(s: State)
    requires Whole(s)
    ensures Whole(DoCrash(s))
  {
    hide By;
    var s' := DoCrash(s);
    forall o, k | 0 <= k <= |s'.committed|
      ensures By(o, GroupAt(s', k)) == if o in s'.group && s'.group[o] == k then s'.issued[o] else []
    {
      ByNone(o);
      if k < |s.committed| {
        assert By(o, GroupAt(s, k)) == if o in s.group && s.group[o] == k then s.issued[o] else [];
      }
    }
  }

  /** A step that leaves the history alone and adds no system call. */
  lemma WholeUnchanged(s: State, s': State)
    requires Whole(s)
    requires s'.committed == s.committed && s'.current == s.current
    requires s'.issued == s.issued && s'.group == s.group
    requires Ids(s'.ops) <= Ids(s.ops)
    ensures Whole(s')
  {
    hide By, Ids;
    forall o, k | 0 <= k <= |s'.committed|
      ensures By(o, GroupAt(s', k)) == if o in s'.group && s'.group[o] == k then s'.issued[o] else []
    {
      assert GroupAt(s', k) == GroupAt(s, k);
      assert By(o, GroupAt(s, k)) == if o in s.group && s.group[o] == k then s.issued[o] else [];
    }
  }

  /** Nobody is outstanding while blocks are written out. */
  lemma NobodyOutstanding(g: Geometry, t: Disk, l: Disk, s: State)
    requires ValidGeometry(g) && InvFor(g, t, l, s) && WriteReady(g, s)
    ensures s.ops == []
  {
    hide Holds, Progress, CacheOk;
  }

  lemma StepKeepsWhole(g: Geometry, d0: Disk, s: State, t: Step)
    requires ValidGeometry(g) && Inv(g, d0, s) && Whole(s) && Enabled(g, s, t)
    ensures Whole(Apply(g, s, t))
  {
    hide InvFor, Whole;
    match t
    case Begin(o) => WholeAfterBegin(s, o);
    case Modify(o, b, data) =>
      assert s.ops[Find(s.ops, o)].id in Ids(s.ops);
      WholeAfterModify(s, Edit(o, b, data));
    case WriteNext =>
      NobodyOutstanding(g, Durable(d0, s), Latest(d0, s), s);
      WholeAfterWrite(g, s);
    case Crash => WholeAfterCrash(s);
    case End(o) => OpsAfterEnd(s, o); WholeUnchanged(s, DoEnd(s, o));
    case LogWrite(o, b) =>
      if !LogWritePanics(g, s) { OpsAfterLogWrite(s, o, b); }
      WholeUnchanged(s, Apply(g, s, t));
    case _ => WholeUnchanged(s, Apply(g, s, t));
  }

  lemma OpsAfterEnd(s: State, o: OpId)
    requires Find(s.ops, o) >= 0
    ensures Ids(DoEnd(s, o).ops) <= Ids(s.ops)
  {
    var f := Find(s.ops, o);
    var ops := DoEnd(s, o).ops;
    forall i | 0 <= i < |ops|
      ensures ops[i].id in Ids(s.ops)
    {
      assert ops[i] == s.ops[if i < f then i else i + 1];
    }
  }

  lemma OpsAfterLogWrite(s: State, o: OpId, b: int)
    requires Find(s.ops, o) >= 0
    ensures Ids(DoLogWrite(s, o, b).ops) <= Ids(s.ops)
  {
    var ops := DoLogWrite(s, o, b).ops;
    forall i | 0 <= i < |ops|
      ensures ops[i].id in Ids(s.ops)
    {
      assert ops[i].id == s.ops[i].id;
    }
  }

  lemma {:induction false} RunKeepsWhole(g: Geometry, d0: Disk, s: State, steps: seq<Step>, s': State)
    requires ValidGeometry(g) && Inv(g, d0, s) && Whole(s) && Run(g, s, steps, s')
    ensures Whole(s')
    decreases |steps|
  {
    hide Inv, Whole;
    if steps != [] {
      StepKeepsInv(g, d0, s, steps[0]);
      StepKeepsWhole(g, d0, s, steps[0]);
      RunKeepsWhole(g, d0, Apply(g, s, steps[0]), steps[1..], s');
    }
  }

  /** No system call is half present: either all its edits, in the order it made
      them, are in one committed group and none in any other, or no committed
      group has any edit of it. The latter is so for every call that is still
      running, and for every call lost in a crash. */
  lemma AllOrNothing(g: Geometry, d0: Disk, s: State, steps: seq<Step>, s': State, o: OpId)
    requires ValidGeometry(g) && Init(g, d0, s) && Run(g, s, steps, s') && o in s'.issued
    ensures if o in s'.group && s'.group[o] < |s'.committed| then
              && By(o, s'.committed[s'.group[o]]) == s'.issued[o]
              && forall k {:trigger s'.committed[k]} :: 0 <= k < |s'.committed| && k != s'.group[o] ==> By(o, s'.committed[k]) == []
            else
              forall k {:trigger s'.committed[k]} :: 0 <= k < |s'.committed| ==> By(o, s'.committed[k]) == []
    ensures Find(s'.ops, o) >= 0 ==> o in s'.group && s'.group[o] == |s'.committed|
  {
    InitInv(g, d0, s);
    RunKeepsWhole(g, d0, s, steps, s');
    assert forall k :: 0 <= k < |s'.committed| ==> GroupAt(s', k) == s'.committed[k];
    if Find(s'.ops, o) >= 0 {
      assert s'.ops[Find(s'.ops, o)].id in Ids(s'.ops);
    }
  }

  /** The header on disk, by mode and phase. */
  lemma HeaderByPhase(g: Geometry, t: Disk, l: Disk, s: State)
    requires ValidGeometry(g) && InvFor(g, t, l, s)
    ensures s.phase.Head? && WriteReady(g, s) ==> DecodeHeader(s.disk[g.start]) == [] && 0 < |s.lh| <= LOGSIZE
    ensures WriteReady(g, s) && (s.phase.Copy? || s.phase.Install?) ==> NextWrite(g, s).0 != g.start
  {
    hide CacheOk, DecodeHeader, EncodeHeader;
  }

  /** A group becomes part of what recovery yields at the write that fills the
      empty header, and at no other step; and it is appended as a whole. */
  lemma CommitPoint(g: Geometry, d0: Disk, s: State, t: Step)
    requires ValidGeometry(g) && Inv(g, d0, s) && Enabled(g, s, t)
    ensures var s' := Apply(g, s, t);
            var filled := DecodeHeader(s.disk[g.start]) == [] && DecodeHeader(s'.disk[g.start]) != [];
            s'.committed == if filled then s.committed + [s.current] else s.committed
  {
    hide InvFor, EncodeHeader, DecodeHeader;
    HeaderByPhase(g, Durable(d0, s), Latest(d0, s), s);
    if t.WriteNext? {
      HeaderRoundTrip(s.disk[g.start], []);
      if s.phase.Head? {
        HeaderRoundTrip(s.disk[g.start], s.lh);
      }
    }
  }

  lemma {:induction false} CommittedGrows(g: Geometry, s: State, steps: seq<Step>, s': State)
    requires ValidGeometry(g) && Run(g, s, steps, s')
    ensures s.committed <= s'.committed
    decreases |steps|
  {
    if steps != [] {
      CommittedGrows(g, Apply(g, s, steps[0]), steps[1..], s');
      assert s.committed <= Apply(g, s, steps[0]).committed;
    }
  }

  /** What a crash lets survive is a prefix: recovery at an earlier point of a run
      yields the effect of a prefix of the groups that are committed later. */
  lemma PrefixDurable(g: Geometry, d0: Disk, s: State, first: seq<Step>, mid: State, rest: seq<Step>, s': State)
    requires ValidGeometry(g) && Init(g, d0, s) && Run(g, s, first, mid) && Run(g, mid, rest, s')
    ensures |mid.disk| == |d0| == g.blocks && Fits(g, mid.disk, DecodeHeader(mid.disk[g.start]))
    ensures |mid.committed| <= |s'.committed|
    ensures forall k {:trigger Home(g, k)} :: Home(g, k) ==>
              Recover(g, mid.disk)[k] == ApplyGroups(d0, s'.committed[..|mid.committed|])[k]
  {
    CrashSafety(g, d0, s, first, mid);
    CommittedGrows(g, mid, rest, s');
    assert s'.committed[..|mid.committed|] == mid.committed;
  }

  // Recovery runs to its end.

  /** The block writes that recovery still has to do. */
  function Left(s: State): int {
    if s.phase.Install? then |s.lh| - s.phase.i + 1 else 1
  }

  /** In recovery the next block write is always possible. */
  lemma RecoveryMoves(g: Geometry, d0: Disk, s: State)
    requires ValidGeometry(g) && Inv(g, d0, s) && s.mode == Recovering
    ensures Enabled(g, s, WriteNext) && Left(s) > 0
    ensures var s' := Apply(g, s, WriteNext);
            && s'.committed == s.committed && s'.current == s.current
            && if s.phase.Erase? then s'.mode == Running else s'.mode == Recovering && Left(s') == Left(s) - 1
  {
    assert RecoveringOk(g, Latest(d0, s), s);
    if s.phase.Install? {
      assert Home(g, s.lh[s.phase.i]);
    }
  }

  lemma {:induction false} RecoveryEnds(g: Geometry, d0: Disk, s: State) returns (steps: seq<Step>, s': State)
    requires ValidGeometry(g) && Inv(g, d0, s) && s.mode == Recovering
    ensures Run(g, s, steps, s') && Inv(g, d0, s') && s'.mode == Running
    ensures s'.committed == s.committed && s'.current == s.current
    ensures forall i :: 0 <= i < |steps| ==> steps[i] == WriteNext
    decreases Left(s)
  {
    hide Inv, Enabled, Apply;
    RecoveryMoves(g, d0, s);
    StepKeepsInv(g, d0, s, WriteNext);
    var next := Apply(g, s, WriteNext);
    if s.phase.Erase? {
      steps, s' := [WriteNext], next;
      assert Run(g, next, [], s');
    } else {
      var more;
      more, s' := RecoveryEnds(g, d0, next);
      steps := [WriteNext] + more;
      assert steps[1..] == more;
    }
  }

  /** Wherever a machine is down, it can be booted and its recovery run to the end: the
      header it finds is a good one, every write is possible, and when the machine runs
      again its disk has exactly the committed groups. */
  lemma RecoveryCompletes(g: Geometry, d0: Disk, s: State, steps: seq<Step>, s': State) returns (more: seq<Step>, up: State)
    requires ValidGeometry(g) && Init(g, d0, s) && Run(g, s, steps, s') && s'.mode == Down
    ensures Run(g, s', [Boot] + more, up) && up.mode == Running && up.committed == s'.committed
    ensures forall i :: 0 <= i < |more| ==> more[i] == WriteNext
    ensures |up.disk| == |d0| == g.blocks
    ensures forall k {:trigger Home(g, k)} :: Home(g, k) ==> View(up, k) == ApplyGroups(d0, s'.committed)[k]
  {
    hide Inv, Run;
    InitInv(g, d0, s);
    RunKeepsInv(g, d0, s, steps, s');
    BootEnabled(g, d0, s');
    StepKeepsInv(g, d0, s', Boot);
    more, up := RecoveryEnds(g, d0, Apply(g, s', Boot));
    RunCons(g, s', Boot, more, up);
    UpSees(g, d0, s', up);
  }

  lemma BootEnabled(g: Geometry, d0: Disk, s: State)
    requires ValidGeometry(g) && Inv(g, d0, s) && s.mode == Down
    ensures Enabled(g, s, Boot) && Apply(g, s, Boot).mode == Recovering && s.current == []
    ensures Apply(g, s, Boot).committed == s.committed && Apply(g, s, Boot).current == []
  {
    StepBoot(g, Durable(d0, s), Latest(d0, s), s);
  }

  lemma RunCons(g: Geometry, s: State, t: Step, more: seq<Step>, s': State)
    requires ValidGeometry(g) && Enabled(g, s, t) && Run(g, Apply(g, s, t), more, s')
    ensures Run(g, s, [t] + more, s')
  {
    assert ([t] + more)[1..] == more;
  }

  /** Right after recovery nothing is edited yet, so readers see the committed image. */
  lemma UpSees(g: Geometry, d0: Disk, s: State, up: State)
    requires ValidGeometry(g) && Inv(g, d0, up) && up.mode == Running && up.committed == s.committed && up.current == []
    ensures |up.disk| == |d0| == g.blocks
    ensures forall k {:trigger Home(g, k)} :: Home(g, k) ==> View(up, k) == ApplyGroups(d0, s.committed)[k]
  {
    assert RunningOk(g, Latest(d0, up), up);
  }
}
