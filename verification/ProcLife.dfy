/** The life of processes: allocproc, fork, exit, wait, sched and the scheduler, with
    the table lock passed between CPUs the way the code passes it. A stretch of code
    that takes the table lock and releases it again is one step. Where the lock is
    handed over by a context switch, the switch is a step of its own. */
module ProcLife {

  const INIT := 0  // initproc's slot
  const NOBODY := -1
  const SCHED := -1  // a CPU on its scheduler stack

  datatype Status = Unused | Embryo | Sleeping | Runnable | Running | Zombie

  /** A slot of the table. `chan` is the slot that wait sleeps on, or something else.
      `making` is the slot that the process is filling in fork. `stack` says whether
      the kernel stack and page table are allocated. */
  datatype Slot = Slot(status: Status, pid: int, parent: int, chan: int, killed: bool, making: int, stack: bool)

  /** `on[c]` is the slot whose kernel stack CPU c is on. `lock` is the CPU that has
      the table lock. `reaped` lists the pids that wait has returned. */
  datatype Table = Table(slots: seq<Slot>, on: seq<int>, lock: int, nextpid: int, reaped: seq<int>)

  datatype Step =
    | Alloc(c: int, np: int)
    | GetStack(c: int)
    | ForkFails(c: int)
    | SetParent(c: int)
    | ForkDone(c: int)
    | Yield(c: int)
    | Sleep(c: int, chan: int)
    | Exit(c: int)
    | Reap(c: int, z: int)
    | WaitSleep(c: int)
    | SwitchOut(c: int)
    | Acquire(c: int)
    | Pick(c: int, p: int)
    | Release(c: int)
    | Wakeup(chan: int)
    | Kill(p: int)

  predicate IsSlot(t: Table, p: int) {
    0 <= p < |t.slots|
  }

  /** CPU c runs a process, and the table lock is free. */
  predicate Runs(t: Table, c: int) {
    0 <= c < |t.on| && IsSlot(t, t.on[c]) && t.lock == NOBODY
  }

  /** CPU c runs a process that is filling a slot in fork, outside the table lock.
      Another CPU may have the lock. */
  predicate Making(t: Table, c: int) {
    0 <= c < |t.on| && IsSlot(t, t.on[c]) && t.lock != c && IsSlot(t, t.slots[t.on[c]].making)
  }

  function Set(t: Table, p: int, s: Slot): Table
    requires IsSlot(t, p)
  {
    t.(slots := t.slots[p := s])
  }

  /** wakeup1. */
  function Woken(slots: seq<Slot>, chan: int): (r: seq<Slot>)
    ensures |r| == |slots|
    ensures forall p :: 0 <= p < |r| ==>
              r[p] == if slots[p].status == Sleeping && slots[p].chan == chan then slots[p].(status := Runnable) else slots[p]
  {
    seq(|slots|, p requires 0 <= p < |slots| =>
      if slots[p].status == Sleeping && slots[p].chan == chan then slots[p].(status := Runnable) else slots[p])
  }

  /** exit's loop: hand the children of p to init. */
  function Reparented(slots: seq<Slot>, p: int): (r: seq<Slot>)
    ensures |r| == |slots|
    ensures forall q :: 0 <= q < |r| ==>
              r[q] == if slots[q].parent == p then slots[q].(parent := INIT) else slots[q]
  {
    seq(|slots|, q requires 0 <= q < |slots| =>
      if slots[q].parent == p then slots[q].(parent := INIT) else slots[q])
  }

  predicate HasZombie(slots: seq<Slot>, p: int) {
    exists q :: 0 <= q < |slots| && slots[q].parent == p && slots[q].status == Zombie
  }

  predicate HasChild(slots: seq<Slot>, p: int) {
    exists q :: 0 <= q < |slots| && slots[q].parent == p
  }

  /** exit under the lock: wake the parent, hand over the children, wake init if one
      of them is a zombie, become a zombie. */
  function Exited(slots: seq<Slot>, p: int): (r: seq<Slot>)
    requires 0 <= p < |slots|
    ensures |r| == |slots|
  {
    var s1 := Woken(slots, slots[p].parent);
    var s2 := Reparented(s1, p);
    var s3 := if HasZombie(s1, p) then Woken(s2, INIT) else s2;
    s3[p := s3[p].(status := Zombie)]
  }

  ghost predicate Enabled(t: Table, s: Step) {
    match s
    case Alloc(c, np) =>
      Runs(t, c) && t.slots[t.on[c]].making == NOBODY && IsSlot(t, np) && t.slots[np].status == Unused
    case GetStack(c) => Making(t, c) && !t.slots[t.slots[t.on[c]].making].stack
    case ForkFails(c) => Making(t, c) && t.slots[t.slots[t.on[c]].making].parent == NOBODY
    case SetParent(c) => Making(t, c) && t.slots[t.slots[t.on[c]].making].stack
    case ForkDone(c) => Making(t, c) && t.lock == NOBODY && t.slots[t.slots[t.on[c]].making].parent == t.on[c]
    case Yield(c) => Runs(t, c)
    case Sleep(c, chan) => Runs(t, c) && chan >= |t.slots|
    case Exit(c) => Runs(t, c) && t.slots[t.on[c]].making == NOBODY && t.on[c] != INIT
    case Reap(c, z) =>
      && Runs(t, c) && t.slots[t.on[c]].making == NOBODY && IsSlot(t, z)
      && t.slots[z].parent == t.on[c] && t.slots[z].status == Zombie
    case WaitSleep(c) =>
      && Runs(t, c) && t.slots[t.on[c]].making == NOBODY && !t.slots[t.on[c]].killed
      && HasChild(t.slots, t.on[c]) && !HasZombie(t.slots, t.on[c])
    case SwitchOut(c) => 0 <= c < |t.on| && t.lock == c && IsSlot(t, t.on[c]) && t.slots[t.on[c]].status != Running
    case Acquire(c) => 0 <= c < |t.on| && t.lock == NOBODY && t.on[c] == SCHED
    case Pick(c, p) => 0 <= c < |t.on| && t.lock == c && t.on[c] == SCHED && IsSlot(t, p) && t.slots[p].status == Runnable
    case Release(c) =>
      0 <= c < |t.on| && t.lock == c && (t.on[c] == SCHED || (IsSlot(t, t.on[c]) && t.slots[t.on[c]].status == Running))
    case Wakeup(chan) => t.lock == NOBODY
    case Kill(p) => t.lock == NOBODY && IsSlot(t, p)
  }

  function Apply(t: Table, s: Step): Table
    requires Enabled(t, s)
  {
    match s
    case Alloc(c, np) =>
      var t1 := Set(t, np, t.slots[np].(status := Embryo, pid := t.nextpid)).(nextpid := t.nextpid + 1);
      Set(t1, t.on[c], t1.slots[t.on[c]].(making := np))
    case GetStack(c) =>
      var np := t.slots[t.on[c]].making;
      Set(t, np, t.slots[np].(stack := true))
    case ForkFails(c) =>
      var np := t.slots[t.on[c]].making;
      var t1 := Set(t, np, t.slots[np].(status := Unused, stack := false));
      Set(t1, t.on[c], t1.slots[t.on[c]].(making := NOBODY))
    case SetParent(c) =>
      var np := t.slots[t.on[c]].making;
      Set(t, np, t.slots[np].(parent := t.on[c]))
    case ForkDone(c) =>
      var np := t.slots[t.on[c]].making;
      var t1 := Set(t, np, t.slots[np].(status := Runnable));
      Set(t1, t.on[c], t1.slots[t.on[c]].(making := NOBODY))
    case Yield(c) => Set(t, t.on[c], t.slots[t.on[c]].(status := Runnable)).(lock := c)
    case Sleep(c, chan) => Set(t, t.on[c], t.slots[t.on[c]].(status := Sleeping, chan := chan)).(lock := c)
    case Exit(c) => t.(slots := Exited(t.slots, t.on[c]), lock := c)
    case Reap(c, z) =>
      Set(t, z, Slot(Unused, 0, NOBODY, t.slots[z].chan, false, NOBODY, false)).(reaped := t.reaped + [t.slots[z].pid])
    case WaitSleep(c) => Set(t, t.on[c], t.slots[t.on[c]].(status := Sleeping, chan := t.on[c])).(lock := c)
    case SwitchOut(c) => t.(on := t.on[c := SCHED])
    case Acquire(c) => t.(lock := c)
    case Pick(c, p) => Set(t, p, t.slots[p].(status := Running)).(on := t.on[c := p])
    case Release(c) =>
      (if t.on[c] == SCHED then t else Set(t, t.on[c], t.slots[t.on[c]].(chan := NOBODY))).(lock := NOBODY)
    case Wakeup(chan) => t.(slots := Woken(t.slots, chan))
    case Kill(p) =>
      Set(t, p, t.slots[p].(killed := true,
                            status := if t.slots[p].status == Sleeping then Runnable else t.slots[p].status))
  }

  ghost predicate Run(t: Table, steps: seq<Step>, t': Table)
    decreases |steps|
  {
    if steps == [] then t == t'
    else Enabled(t, steps[0]) && Run(Apply(t, steps[0]), steps[1..], t')
  }

  /** init is runnable, the other n slots are free, all CPUs are in their schedulers. */
  function Boot(n: nat, cpus: nat): Table {
    Table(seq(n + 1, p => if p == INIT then Slot(Runnable, 1, NOBODY, NOBODY, false, NOBODY, true)
                          else Slot(Unused, 0, NOBODY, NOBODY, false, NOBODY, false)),
          seq(cpus, c => SCHED), NOBODY, 2, [])
  }

  // The invariant.

  predicate Alive(s: Status) {
    s == Sleeping || s == Runnable || s == Running
  }

  predicate Born(s: Status) {
    Alive(s) || s == Zombie
  }

  /** init lives; every other process past Embryo has a living parent; a slot that is
      free has none. */
  ghost predicate Parents(slots: seq<Slot>) {
    && |slots| > INIT && Alive(slots[INIT].status) && slots[INIT].parent == NOBODY
    && (forall p :: 0 <= p < |slots| && p != INIT && Born(slots[p].status) ==>
          0 <= slots[p].parent < |slots| && Alive(slots[slots[p].parent].status))
    && (forall p :: 0 <= p < |slots| && slots[p].status == Unused ==> slots[p].parent == NOBODY)
    && (forall p :: 0 <= p < |slots| ==>
          slots[p].parent == NOBODY || (0 <= slots[p].parent < |slots| && slots[p].parent != p))
  }

  /** A living process in fork, on a slot that is Embryo and no one else's child. */
  predicate MakerOk(slots: seq<Slot>, p: int)
    requires 0 <= p < |slots|
  {
    && Alive(slots[p].status) && 0 <= slots[p].making < |slots|
    && var e := slots[slots[p].making];
       e.status == Embryo && (e.parent == NOBODY || (e.parent == p && e.stack))
  }

  ghost predicate Makers(slots: seq<Slot>) {
    && (forall p :: 0 <= p < |slots| && slots[p].making != NOBODY ==> MakerOk(slots, p))
    && (forall p, q :: 0 <= p < q < |slots| && slots[p].making != NOBODY ==> slots[p].making != slots[q].making)
  }

  /** Nobody sleeps in wait beside a zombie child. */
  ghost predicate NoMissedExit(slots: seq<Slot>) {
    forall p, q :: 0 <= p < |slots| && 0 <= q < |slots| && slots[q].parent == p && slots[q].status == Zombie ==>
      !(slots[p].status == Sleeping && slots[p].chan == p)
  }

  /** Pids in use are distinct and new; a pid that was reaped is gone for good. */
  ghost predicate Pids(slots: seq<Slot>, nextpid: int, reaped: seq<int>) {
    && (forall p :: 0 <= p < |slots| && slots[p].status != Unused ==> slots[p].pid < nextpid && slots[p].pid !in reaped)
    && (forall p, q :: 0 <= p < q < |slots| && slots[p].status != Unused && slots[q].status != Unused ==>
          slots[p].pid != slots[q].pid)
    && (forall i :: 0 <= i < |reaped| ==> reaped[i] < nextpid)
    && (forall i, j :: 0 <= i < j < |reaped| ==> reaped[i] != reaped[j])
  }

  /** A CPU is on the stack of a process that runs, or of one that it is switching
      away from with the table lock held; that stack is allocated and no other CPU is
      on it; and every running process has its CPU. */
  ghost predicate Stacks(t: Table) {
    && (t.lock == NOBODY || 0 <= t.lock < |t.on|)
    && (forall c :: 0 <= c < |t.on| ==> t.on[c] == SCHED || IsSlot(t, t.on[c]))
    && (forall c :: 0 <= c < |t.on| && t.on[c] != SCHED ==>
          t.slots[t.on[c]].status == Running || (t.lock == c && Born(t.slots[t.on[c]].status)))
    && (forall c, d :: 0 <= c < d < |t.on| && t.on[c] != SCHED ==> t.on[c] != t.on[d])
    && (forall p :: 0 <= p < |t.slots| && t.slots[p].status == Running ==> exists c :: 0 <= c < |t.on| && t.on[c] == p)
    && (forall p :: 0 <= p < |t.slots| && Born(t.slots[p].status) ==> t.slots[p].stack)
  }

  ghost predicate Inv(t: Table) {
    && Parents(t.slots) && Makers(t.slots) && NoMissedExit(t.slots)
    && Pids(t.slots, t.nextpid, t.reaped) && Stacks(t)
  }

  // Steps that only move processes between sleeping, runnable and running.

  ghost predicate Mild(a: seq<Slot>, b: seq<Slot>) {
    && |b| == |a|
    && forall p {:trigger b[p]} :: 0 <= p < |b| ==>
         && b[p].pid == a[p].pid && b[p].parent == a[p].parent && b[p].making == a[p].making && b[p].stack == a[p].stack
         && (b[p].status == a[p].status || (Alive(a[p].status) && Alive(b[p].status)))
         && (b[p].status == Sleeping && b[p].chan == p ==>
               (a[p].status == Sleeping && a[p].chan == p) || !HasZombie(a, p))
  }

  lemma MildKeeps(a: seq<Slot>, b: seq<Slot>, nextpid: int, reaped: seq<int>)
    requires Mild(a, b) && Parents(a) && Makers(a) && Pids(a, nextpid, reaped)
    ensures Parents(b) && Makers(b) && Pids(b, nextpid, reaped)
  {
    hide HasZombie;
  }

  lemma MildSees(a: seq<Slot>, b: seq<Slot>)
    requires Mild(a, b) && NoMissedExit(a)
    ensures NoMissedExit(b)
  {
  }

  /** Status changes that leave the running processes and the CPUs as they are. */
  lemma MildStacks(t: Table, t': Table)
    requires Stacks(t) && Mild(t.slots, t'.slots) && t'.on == t.on && t'.lock == t.lock
    requires forall p :: 0 <= p < |t.slots| ==> (t'.slots[p].status == Running <==> t.slots[p].status == Running)
    ensures Stacks(t')
  {
    hide HasZombie;
    forall p | 0 <= p < |t'.slots| && t'.slots[p].status == Running
      ensures exists c :: 0 <= c < |t'.on| && t'.on[c] == p
    {
      assert t.slots[p].status == Running;
    }
  }

  /** The running process of CPU c stops; c has the table lock now. */
  lemma StopStacks(t: Table, c: int, s: Slot)
    requires Stacks(t) && Runs(t, c) && Born(s.status) && s.status != Running && s.stack
    requires t.slots[t.on[c]].status == Running
    ensures Stacks(Set(t, t.on[c], s).(lock := c))
  {
    var t' := Set(t, t.on[c], s).(lock := c);
    forall p | 0 <= p < |t'.slots| && t'.slots[p].status == Running
      ensures exists d :: 0 <= d < |t'.on| && t'.on[d] == p
    {
      assert t.slots[p].status == Running;
    }
  }

  lemma RunningNow(t: Table, c: int)
    requires Stacks(t) && Runs(t, c)
    ensures t.slots[t.on[c]].status == Running && t.slots[t.on[c]].stack
  {
  }

  lemma StopKeepsInv(t: Table, s: Step)
    requires Inv(t) && Enabled(t, s) && (s.Yield? || s.Sleep? || s.WaitSleep?)
    ensures Inv(Apply(t, s))
  {
    hide Parents, Makers, NoMissedExit, Pids, Stacks, HasZombie, HasChild;
    var t' := Apply(t, s);
    RunningNow(t, s.c);
    assert Mild(t.slots, t'.slots);
    MildKeeps(t.slots, t'.slots, t.nextpid, t.reaped);
    MildSees(t.slots, t'.slots);
    StopStacks(t, s.c, t'.slots[t.on[s.c]]);
  }

  lemma SwitchStacks(t: Table, s: Step)
    requires Stacks(t) && Enabled(t, s) && (s.SwitchOut? || s.Acquire? || s.Release?)
    ensures Stacks(Apply(t, s))
  {
    var t' := Apply(t, s);
    forall p | 0 <= p < |t'.slots| && t'.slots[p].status == Running
      ensures exists d :: 0 <= d < |t'.on| && t'.on[d] == p
    {
      assert t.slots[p].status == Running;
      var d :| 0 <= d < |t.on| && t.on[d] == p;
      assert t'.on[d] == p;
    }
  }

  lemma PickStacks(t: Table, c: int, p: int)
    requires Stacks(t) && Enabled(t, Pick(c, p))
    ensures Stacks(Apply(t, Pick(c, p)))
  {
    var t' := Apply(t, Pick(c, p));
    forall d | 0 <= d < |t.on| && t.on[d] != SCHED
      ensures t.on[d] != p
    {
    }
    forall q | 0 <= q < |t'.slots| && t'.slots[q].status == Running
      ensures exists d :: 0 <= d < |t'.on| && t'.on[d] == q
    {
      if q == p {
        assert t'.on[c] == q;
      } else {
        assert t.slots[q].status == Running;
        var d :| 0 <= d < |t.on| && t.on[d] == q;
        assert t'.on[d] == q;
      }
    }
  }

  lemma SwitchKeepsInv(t: Table, s: Step)
    requires Inv(t) && Enabled(t, s) && (s.SwitchOut? || s.Acquire? || s.Release? || s.Pick?)
    ensures Inv(Apply(t, s))
  {
    hide Parents, Makers, NoMissedExit, Pids, Stacks, HasZombie;
    var t' := Apply(t, s);
    assert Mild(t.slots, t'.slots);
    MildKeeps(t.slots, t'.slots, t.nextpid, t.reaped);
    MildSees(t.slots, t'.slots);
    if s.Pick? {
      PickStacks(t, s.c, s.p);
    } else {
      SwitchStacks(t, s);
    }
  }

  lemma WakeKeepsInv(t: Table, s: Step)
    requires Inv(t) && Enabled(t, s) && (s.Wakeup? || s.Kill?)
    ensures Inv(Apply(t, s))
  {
    hide Parents, Makers, NoMissedExit, Pids, Stacks, HasZombie;
    var t' := Apply(t, s);
    assert Mild(t.slots, t'.slots);
    MildKeeps(t.slots, t'.slots, t.nextpid, t.reaped);
    MildSees(t.slots, t'.slots);
    MildStacks(t, t');
  }

  // fork.

  predicate InFork(s: Step) {
    s.Alloc? || s.GetStack? || s.ForkFails? || s.SetParent? || s.ForkDone?
  }

  /** The slot that a step of fork works on. */
  function Target(t: Table, s: Step): int
    requires InFork(s) && Enabled(t, s)
  {
    if s.Alloc? then s.np else t.slots[t.on[s.c]].making
  }

  /** Two slots change: the maker's `making`, and the slot being made. */
  ghost predicate ForkShape(a: seq<Slot>, b: seq<Slot>, me: int, np: int) {
    && |b| == |a| && 0 <= me < |a| && 0 <= np < |a| && me != np
    && b == a[np := b[np]][me := b[me]] && b[me] == a[me].(making := b[me].making)
    && Alive(a[me].status) && (a[np].status == Unused || a[np].status == Embryo) && b[np].status != Zombie
    && (b[me].making == NOBODY || b[me].making == np) && (a[me].making == NOBODY || a[me].making == np)
    && b[np].making == a[np].making
  }

  lemma ForkIsShaped(t: Table, s: Step)
    requires Inv(t) && InFork(s) && Enabled(t, s)
    ensures ForkShape(t.slots, Apply(t, s).slots, t.on[s.c], Target(t, s))
    ensures t.slots[t.on[s.c]].status == Running
  {
    hide Pids, NoMissedExit, Parents;
    var t', me, np := Apply(t, s), t.on[s.c], Target(t, s);
    assert t'.slots == t.slots[np := t'.slots[np]][me := t'.slots[me]];
  }

  lemma ForkParents(a: seq<Slot>, b: seq<Slot>, me: int, np: int)
    requires ForkShape(a, b, me, np) && Parents(a)
    requires b[np].status == Unused ==> b[np].parent == NOBODY
    requires b[np].parent == a[np].parent || b[np].parent == me
    requires Alive(b[np].status) ==> b[np].parent == me
    ensures Parents(b)
  {
    forall p | 0 <= p < |b| && p != INIT && Born(b[p].status)
      ensures 0 <= b[p].parent < |b| && Alive(b[b[p].parent].status)
    {
      assert p != np ==> Alive(a[a[p].parent].status);
    }
  }

  lemma ForkSees(a: seq<Slot>, b: seq<Slot>, me: int, np: int)
    requires ForkShape(a, b, me, np) && NoMissedExit(a) && b[np].status != Sleeping
    ensures NoMissedExit(b)
  {
  }

  lemma ForkMakers(a: seq<Slot>, b: seq<Slot>, me: int, np: int)
    requires ForkShape(a, b, me, np) && Makers(a)
    requires b[me].making == np ==>
               && b[np].status == Embryo && (a[me].making == np || a[np].status == Unused)
               && (b[np].parent == NOBODY || (b[np].parent == me && b[np].stack))
    requires b[me].making == NOBODY ==> a[me].making == np
    ensures Makers(b)
  {
    forall p | 0 <= p < |b| && p != me && b[p].making != NOBODY
      ensures b[p].making != np && MakerOk(b, p)
    {
      assert MakerOk(a, p);
    }
  }

  lemma ForkStacks(t: Table, t': Table, me: int, np: int)
    requires Stacks(t) && ForkShape(t.slots, t'.slots, me, np) && t'.on == t.on && t'.lock == t.lock
    requires t'.slots[np].status != Running && (Born(t'.slots[np].status) ==> t'.slots[np].stack)
    ensures Stacks(t')
  {
    forall p | 0 <= p < |t'.slots| && t'.slots[p].status == Running
      ensures exists c :: 0 <= c < |t'.on| && t'.on[c] == p
    {
      assert t.slots[p].status == Running;
    }
  }

  lemma ForkPids(t: Table, s: Step)
    requires Inv(t) && InFork(s) && Enabled(t, s)
    requires ForkShape(t.slots, Apply(t, s).slots, t.on[s.c], Target(t, s))
    ensures var t' := Apply(t, s); Pids(t'.slots, t'.nextpid, t'.reaped)
  {
    hide Parents, NoMissedExit, Stacks, Makers;
    var t', np := Apply(t, s), Target(t, s);
    assert !s.Alloc? ==> t'.slots[np].pid == t.slots[np].pid;
    if !s.Alloc? {
      MakerHas(t, s);
    }
  }

  lemma MakerHas(t: Table, s: Step)
    requires Inv(t) && InFork(s) && Enabled(t, s) && !s.Alloc?
    ensures var np := Target(t, s);
            && t.slots[np].status == Embryo && np != t.on[s.c]
            && (t.slots[np].parent == NOBODY || (t.slots[np].parent == t.on[s.c] && t.slots[np].stack))
  {
    hide Parents, NoMissedExit, Pids;
  }

  lemma ForkKeepsInv(t: Table, s: Step)
    requires Inv(t) && InFork(s) && Enabled(t, s)
    ensures Inv(Apply(t, s))
  {
    hide Parents, Makers, NoMissedExit, Pids, Stacks, ForkShape;
    ForkIsShaped(t, s);
    var t', me, np := Apply(t, s), t.on[s.c], Target(t, s);
    ForkPids(t, s);
    if s.Alloc? {
      FreeHasNoParent(t, np);
    } else {
      MakerHas(t, s);
    }
    MeNotTarget(t.slots, t'.slots, me, np);
    ForkParents(t.slots, t'.slots, me, np);
    ForkSees(t.slots, t'.slots, me, np);
    ForkMakers(t.slots, t'.slots, me, np);
    ForkStacks(t, t', me, np);
  }

  lemma MeNotTarget(a: seq<Slot>, b: seq<Slot>, me: int, np: int)
    requires ForkShape(a, b, me, np)
    ensures |b| == |a| && 0 <= me < |a| && 0 <= np < |a| && me != np
  {
  }

  lemma FreeHasNoParent(t: Table, p: int)
    requires Inv(t) && IsSlot(t, p) && t.slots[p].status == Unused
    ensures t.slots[p].parent == NOBODY
  {
  }

  // wait.

  /** A zombie has no CPU on its stack when the table lock is free, so wait may free
      the stack and the page table. */
  lemma ZombieIsOff(t: Table, z: int)
    requires Stacks(t) && t.lock == NOBODY && IsSlot(t, z) && t.slots[z].status == Zombie
    ensures forall c :: 0 <= c < |t.on| ==> t.on[c] != z
  {
  }

  lemma ReapKeepsInv(t: Table, c: int, z: int)
    requires Inv(t) && Enabled(t, Reap(c, z))
    ensures Inv(Apply(t, Reap(c, z)))
  {
    hide Parents, Makers, NoMissedExit, Pids, Stacks;
    ReapParents(t.slots, z);
    ReapMakers(t.slots, z);
    ReapSees(t.slots, z);
    ReapPids(t.slots, t.nextpid, t.reaped, z);
    ReapStacks(t, c, z);
  }

  function Emptied(s: Slot): Slot {
    Slot(Unused, 0, NOBODY, s.chan, false, NOBODY, false)
  }

  lemma ReapParents(a: seq<Slot>, z: int)
    requires Parents(a) && 0 <= z < |a| && a[z].status == Zombie
    ensures Parents(a[z := Emptied(a[z])])
  {
  }

  lemma ReapMakers(a: seq<Slot>, z: int)
    requires Makers(a) && 0 <= z < |a| && a[z].status == Zombie
    ensures Makers(a[z := Emptied(a[z])])
  {
    var b := a[z := Emptied(a[z])];
    forall p | 0 <= p < |a| && b[p].making != NOBODY
      ensures p != z && b[p] == a[p] && a[p].making != z
    {
    }
  }

  lemma ReapSees(a: seq<Slot>, z: int)
    requires NoMissedExit(a) && 0 <= z < |a| && a[z].status == Zombie
    ensures NoMissedExit(a[z := Emptied(a[z])])
  {
  }

  lemma ReapPids(a: seq<Slot>, nextpid: int, reaped: seq<int>, z: int)
    requires Pids(a, nextpid, reaped) && 0 <= z < |a| && a[z].status == Zombie
    ensures Pids(a[z := Emptied(a[z])], nextpid, reaped + [a[z].pid])
  {
  }

  lemma ReapStacks(t: Table, c: int, z: int)
    requires Stacks(t) && Enabled(t, Reap(c, z))
    ensures Stacks(Apply(t, Reap(c, z)))
  {
    var t' := Apply(t, Reap(c, z));
    ZombieIsOff(t, z);
    forall p | 0 <= p < |t'.slots| && t'.slots[p].status == Running
      ensures exists d :: 0 <= d < |t'.on| && t'.on[d] == p
    {
      assert t.slots[p].status == Running;
    }
  }

  // exit.

  /** What exit does to each slot. */
  lemma ExitedAt(a: seq<Slot>, p: int, q: int)
    requires 0 <= p < |a| && 0 <= q < |a| && a[p].status == Running
    ensures |Exited(a, p)| == |a|
    ensures var s := Exited(a, p)[q];
            && s.pid == a[q].pid && s.making == a[q].making && s.stack == a[q].stack && s.chan == a[q].chan
            && s.parent == (if a[q].parent == p then INIT else a[q].parent)
            && (q == p ==> s.status == Zombie)
            && (q != p ==> s.status == a[q].status || (a[q].status == Sleeping && s.status == Runnable))
            && (q != p && a[q].status == Sleeping && a[q].chan == a[p].parent ==> s.status == Runnable)
            && (q != p && a[q].status == Sleeping && a[q].chan == INIT && HasZombie(Woken(a, a[p].parent), p) ==> s.status == Runnable)
  {
  }

  lemma ExitParents(a: seq<Slot>, p: int)
    requires Parents(a) && 0 <= p < |a| && a[p].status == Running && p != INIT
    ensures Parents(Exited(a, p))
  {
    hide Exited;
    var b := Exited(a, p);
    forall q | 0 <= q < |a|
      ensures b[q].parent == (if a[q].parent == p then INIT else a[q].parent)
      ensures q != p ==> b[q].status == a[q].status || (a[q].status == Sleeping && b[q].status == Runnable)
      ensures q == p ==> b[q].status == Zombie
    {
      ExitedAt(a, p, q);
    }
    forall q | 0 <= q < |b| && q != INIT && Born(b[q].status)
      ensures 0 <= b[q].parent < |b| && Alive(b[b[q].parent].status)
    {
      assert Alive(a[a[q].parent].status);
    }
  }

  lemma ExitMakers(a: seq<Slot>, p: int)
    requires Makers(a) && 0 <= p < |a| && a[p].status == Running && p != INIT && a[p].making == NOBODY
    ensures Makers(Exited(a, p))
  {
    hide Exited, Woken, Reparented;
    var b := Exited(a, p);
    forall q {:trigger b[q]} | 0 <= q < |a|
      ensures b[q].parent == (if a[q].parent == p then INIT else a[q].parent)
      ensures b[q].making == a[q].making && b[q].stack == a[q].stack
      ensures q != p ==> b[q].status == a[q].status || (a[q].status == Sleeping && b[q].status == Runnable)
      ensures q == p ==> b[q].status == Zombie
    {
      ExitedAt(a, p, q);
    }
    forall q | 0 <= q < |a| && a[q].making != NOBODY
      ensures a[a[q].making].parent != p
    {
      assert q != p;
    }
  }

  /** The parent was woken; so was init, if it inherits a zombie. */
  lemma ExitSees(a: seq<Slot>, p: int)
    requires Parents(a) && NoMissedExit(a) && 0 <= p < |a| && a[p].status == Running && p != INIT
    ensures NoMissedExit(Exited(a, p))
  {
    hide Exited, Woken, Reparented, HasZombie;
    var b := Exited(a, p);
    forall r, q | 0 <= r < |b| && 0 <= q < |b| && b[q].parent == r && b[q].status == Zombie
      ensures !(b[r].status == Sleeping && b[r].chan == r)
    {
      ExitedAt(a, p, r);
      ExitedAt(a, p, q);
      if a[q].parent == p {
        assert q != p;
        StillZombie(a, p, q);
      }
    }
  }

  lemma StillZombie(a: seq<Slot>, p: int, q: int)
    requires 0 <= q < |a| && a[q].parent == p && a[q].status == Zombie && 0 <= p < |a|
    ensures HasZombie(Woken(a, a[p].parent), p)
  {
    var w := Woken(a, a[p].parent);
    assert w[q].parent == p && w[q].status == Zombie;
  }

  lemma ExitPids(a: seq<Slot>, nextpid: int, reaped: seq<int>, p: int)
    requires Pids(a, nextpid, reaped) && 0 <= p < |a| && a[p].status == Running
    ensures Pids(Exited(a, p), nextpid, reaped)
  {
    hide Exited, Woken, Reparented;
    var b := Exited(a, p);
    forall q {:trigger b[q]} | 0 <= q < |a|
      ensures b[q].pid == a[q].pid && (b[q].status == Unused <==> a[q].status == Unused)
    {
      ExitedAt(a, p, q);
    }
  }

  lemma ExitStacks(t: Table, c: int)
    requires Stacks(t) && Enabled(t, Exit(c))
    ensures Stacks(Apply(t, Exit(c)))
  {
    hide Exited, Woken, Reparented, HasZombie;
    var t', p := Apply(t, Exit(c)), t.on[c];
    RunningNow(t, c);
    forall q {:trigger t'.slots[q]} | 0 <= q < |t.slots|
      ensures t'.slots[q].stack == t.slots[q].stack
      ensures q != p ==> t'.slots[q].status == t.slots[q].status || (t.slots[q].status == Sleeping && t'.slots[q].status == Runnable)
      ensures q == p ==> t'.slots[q].status == Zombie
    {
      ExitedAt(t.slots, p, q);
    }
    forall q | 0 <= q < |t'.slots| && t'.slots[q].status == Running
      ensures exists d :: 0 <= d < |t'.on| && t'.on[d] == q
    {
      assert t.slots[q].status == Running;
    }
  }

  lemma ExitKeepsInv(t: Table, c: int)
    requires Inv(t) && Enabled(t, Exit(c))
    ensures Inv(Apply(t, Exit(c)))
  {
    hide Parents, Makers, NoMissedExit, Pids, Stacks, Exited;
    var p := t.on[c];
    RunningNow(t, c);
    ExitParents(t.slots, p);
    ExitMakers(t.slots, p);
    ExitSees(t.slots, p);
    ExitPids(t.slots, t.nextpid, t.reaped, p);
    ExitStacks(t, c);
  }

  // Whole runs.

  lemma StepKeepsInv(t: Table, s: Step)
    requires Inv(t) && Enabled(t, s)
    ensures Inv(Apply(t, s))
  {
    hide Inv, Enabled, Apply;
    match s
    case Yield(_) => StopKeepsInv(t, s);
    case Sleep(_, _) => StopKeepsInv(t, s);
    case WaitSleep(_) => StopKeepsInv(t, s);
    case Exit(c) => ExitKeepsInv(t, c);
    case Reap(c, z) => ReapKeepsInv(t, c, z);
    case SwitchOut(_) => SwitchKeepsInv(t, s);
    case Acquire(_) => SwitchKeepsInv(t, s);
    case Pick(_, _) => SwitchKeepsInv(t, s);
    case Release(_) => SwitchKeepsInv(t, s);
    case Wakeup(_) => WakeKeepsInv(t, s);
    case Kill(_) => WakeKeepsInv(t, s);
    case _ => ForkKeepsInv(t, s);
  }

  lemma {:induction false} RunKeepsInv(t: Table, steps: seq<Step>, t': Table)
    requires Inv(t) && Run(t, steps, t')
    ensures Inv(t')
    decreases |steps|
  {
    hide Inv, Enabled, Apply;
    if steps != [] {
      StepKeepsInv(t, steps[0]);
      RunKeepsInv(Apply(t, steps[0]), steps[1..], t');
    }
  }

  lemma BootInv(n: nat, cpus: nat)
    ensures Inv(Boot(n, cpus))
  {
  }

  /** In every reachable state: every process past Embryo but init has a parent that
      is in use and not a zombie; nobody sleeps in wait beside a zombie child; no pid
      is reaped twice; and a CPU is on the kernel stack of a process only while that
      stack is allocated, one CPU at a time. */
  lemma LifeCycle(n: nat, cpus: nat, steps: seq<Step>, t: Table)
    requires Run(Boot(n, cpus), steps, t)
    ensures forall p :: 0 <= p < |t.slots| && p != INIT && Born(t.slots[p].status) ==>
              0 <= t.slots[p].parent < |t.slots| && Alive(t.slots[t.slots[p].parent].status)
    ensures forall p, q :: 0 <= p < |t.slots| && 0 <= q < |t.slots| && t.slots[q].parent == p && t.slots[q].status == Zombie ==>
              !(t.slots[p].status == Sleeping && t.slots[p].chan == p)
    ensures forall i, j :: 0 <= i < j < |t.reaped| ==> t.reaped[i] != t.reaped[j]
    ensures forall c :: 0 <= c < |t.on| && t.on[c] != SCHED ==> IsSlot(t, t.on[c]) && t.slots[t.on[c]].stack
    ensures forall c, d :: 0 <= c < d < |t.on| && t.on[c] != SCHED ==> t.on[c] != t.on[d]
  {
    BootInv(n, cpus);
    RunKeepsInv(Boot(n, cpus), steps, t);
  }

  /** Whatever wait frees, no CPU is running on. */
  lemma ReapIsSafe(n: nat, cpus: nat, steps: seq<Step>, t: Table, c: int, z: int)
    requires Run(Boot(n, cpus), steps, t) && Enabled(t, Reap(c, z))
    ensures forall d :: 0 <= d < |t.on| ==> t.on[d] != z
    ensures t.slots[z].pid !in t.reaped
  {
    BootInv(n, cpus);
    RunKeepsInv(Boot(n, cpus), steps, t);
    ZombieIsOff(t, z);
  }
}
