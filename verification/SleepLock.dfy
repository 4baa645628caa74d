/** A sleep-lock under all interleavings of acquiresleep, releasesleep and kill
    (sleeplock.c over sleep and wakeup in proc.c). Between two steps a process holds
    at most the lock's spinlock `lk` and the process table's lock. */
module SleepLock {

  /** Where a process is.
      Spin: wants lk.              Test: has lk, at the loop's test.
      Drowsy: in sleep with lk, wants the table lock.
      Handover: has both.          Settling: has the table lock, lk released.
      Asleep.                      Woken: runnable, still has to take lk again.
      Took: has lk, lock taken.    Holds: has the sleep-lock.
      Back: wants lk to release.   Clear: has lk, about to clear `locked`.
      Ring: has lk, wants the table lock for wakeup.
      Ringing: has both, in wakeup1.  Rung: has lk, wakeup done. */
  datatype Pc = Out | Spin | Test | Drowsy | Handover | Settling | Asleep | Woken
    | Took | Holds | Back | Clear | Ring | Ringing | Rung

  const NOBODY := -1

  /** `lk` and `table` say which process holds each spinlock. */
  datatype State = State(locked: bool, pid: int, lk: int, table: int, pc: map<int, Pc>)

  predicate HasLk(c: Pc) {
    c == Test || c == Drowsy || c == Handover || c == Took || c == Clear || c == Ring || c == Ringing || c == Rung
  }

  predicate HasTable(c: Pc) {
    c == Handover || c == Settling || c == Ringing
  }

  /** The process is past taking the sleep-lock and has not given it up. */
  predicate Owns(c: Pc) {
    c == Took || c == Holds || c == Back || c == Clear
  }

  predicate Sleepy(c: Pc) {
    c == Drowsy || c == Handover || c == Settling || c == Asleep
  }

  predicate Releasing(c: Pc) {
    c == Ring || c == Ringing
  }

  datatype Step = Go(p: int) | Wake(p: int) | Kill(p: int) | Want(p: int) | Giveup(p: int)

  function At(s: State, p: int): Pc {
    if p in s.pc then s.pc[p] else Out
  }

  function Move(s: State, p: int, c: Pc): State {
    s.(pc := s.pc[p := c])
  }

  /** wakeup1 on this lock's channel. */
  function WakeAll(pc: map<int, Pc>): map<int, Pc> {
    map p | p in pc :: if pc[p] == Asleep then Woken else pc[p]
  }

  ghost predicate Enabled(s: State, t: Step) {
    match t
    case Want(p) => At(s, p) == Out && p >= 0
    case Giveup(p) => At(s, p) == Holds
    case Wake(p) => At(s, p) == Woken && s.table == NOBODY
    case Kill(p) => s.table == NOBODY
    case Go(p) =>
      match At(s, p)
      case Out => false
      case Spin => s.lk == NOBODY
      case Drowsy => s.table == NOBODY
      case Asleep => false
      case Woken => false
      case Holds => false
      case Back => s.lk == NOBODY
      case Ring => s.table == NOBODY
      case _ => true
  }

  function Apply(s: State, t: Step): State
    requires Enabled(s, t)
  {
    match t
    case Want(p) => Move(s, p, Spin)
    case Giveup(p) => Move(s, p, Back)
    // The scheduler runs p; p gives up the table lock and goes for lk again.
    case Wake(p) => Move(s, p, Spin)
    case Kill(p) => if At(s, p) == Asleep then Move(s, p, Woken) else s
    case Go(p) =>
      match At(s, p)
      case Spin => Move(s, p, Test).(lk := p)
      case Test => if s.locked then Move(s, p, Drowsy) else Move(s, p, Took).(locked := true, pid := p)
      case Drowsy => Move(s, p, Handover).(table := p)
      case Handover => Move(s, p, Settling).(lk := NOBODY)
      case Settling => Move(s, p, Asleep).(table := NOBODY)
      case Took => Move(s, p, Holds).(lk := NOBODY)
      case Back => Move(s, p, Clear).(lk := p)
      case Clear => Move(s, p, Ring).(locked := false, pid := 0)
      case Ring => Move(s, p, Ringing).(table := p)
      case Ringing => Move(s, p, Rung).(pc := WakeAll(s.pc)[p := Rung], table := NOBODY)
      case Rung => Move(s, p, Out).(lk := NOBODY)
      case _ => s
  }

  ghost predicate Run(s: State, steps: seq<Step>, s': State)
    decreases |steps|
  {
    if steps == [] then s == s'
    else Enabled(s, steps[0]) && Run(Apply(s, steps[0]), steps[1..], s')
  }

  function Start(): State {
    State(false, 0, NOBODY, NOBODY, map[])
  }

  // The invariant.

  ghost predicate SpinsHeld(s: State) {
    && (forall p :: p in s.pc ==> p >= 0)
    && (forall p :: p in s.pc ==> (HasLk(s.pc[p]) <==> s.lk == p))
    && (forall p :: p in s.pc ==> (HasTable(s.pc[p]) <==> s.table == p))
    && (s.lk != NOBODY ==> s.lk in s.pc) && (s.table != NOBODY ==> s.table in s.pc)
  }

  ghost predicate OneOwner(s: State) {
    && (forall p :: p in s.pc && Owns(s.pc[p]) ==> s.locked && s.pid == p)
    && (s.locked ==> s.pid in s.pc && Owns(s.pc[s.pid]))
  }

  ghost predicate BeingReleased(s: State) {
    s.lk in s.pc && Releasing(s.pc[s.lk])
  }

  ghost predicate NoLostWakeup(s: State) {
    forall p :: p in s.pc && Sleepy(s.pc[p]) ==> s.locked || BeingReleased(s)
  }

  ghost predicate Inv(s: State) {
    SpinsHeld(s) && OneOwner(s) && NoLostWakeup(s)
  }

  /** A move that leaves a process with the locks it had. */
  lemma MoveKeepsInv(s: State, p: int, c: Pc)
    requires Inv(s) && p >= 0
    requires HasLk(c) == HasLk(At(s, p)) && HasTable(c) == HasTable(At(s, p)) && Owns(c) == Owns(At(s, p))
    requires !Sleepy(c) && !Releasing(At(s, p)) && (p in s.pc || (s.lk != p && s.table != p))
    ensures Inv(Move(s, p, c))
  {
  }

  lemma CallKeepsInv(s: State, t: Step)
    requires Inv(s) && Enabled(s, t) && !t.Go?
    ensures Inv(Apply(s, t))
  {
    hide OneOwner, NoLostWakeup;
    match t
    case Want(p) => MoveKeepsInv(s, p, Spin);
    case Giveup(p) => MoveKeepsInv(s, p, Back);
    case Wake(p) => MoveKeepsInv(s, p, Spin);
    case Kill(p) =>
      if At(s, p) == Asleep {
        MoveKeepsInv(s, p, Woken);
      }
  }

  lemma EnterKeepsInv(s: State, p: int)
    requires Inv(s) && Enabled(s, Go(p)) && (At(s, p) == Spin || At(s, p) == Test || At(s, p) == Took)
    ensures Inv(Apply(s, Go(p)))
  {
  }

  lemma SleepKeepsInv(s: State, p: int)
    requires Inv(s) && Enabled(s, Go(p)) && Sleepy(At(s, p))
    ensures Inv(Apply(s, Go(p)))
  {
  }

  lemma LeaveKeepsInv(s: State, p: int)
    requires Inv(s) && Enabled(s, Go(p)) && (At(s, p) == Back || At(s, p) == Clear || At(s, p) == Ring || At(s, p) == Rung)
    ensures Inv(Apply(s, Go(p)))
  {
  }

  /** The releaser has both spinlocks, so nobody is halfway into sleep: after
      wakeup1 nobody sleeps. */
  lemma RingKeepsInv(s: State, p: int)
    requires Inv(s) && Enabled(s, Go(p)) && At(s, p) == Ringing
    ensures Inv(Apply(s, Go(p)))
  {
    var s' := Apply(s, Go(p));
    forall q | q in s'.pc
      ensures !Sleepy(s'.pc[q])
    {
      assert HasLk(s.pc[p]) && HasTable(s.pc[p]);
    }
  }

  lemma StepKeepsInv(s: State, t: Step)
    requires Inv(s) && Enabled(s, t)
    ensures Inv(Apply(s, t))
  {
    hide Inv, Apply;
    if !t.Go? {
      CallKeepsInv(s, t);
    } else {
      var c := At(s, t.p);
      if c == Spin || c == Test || c == Took {
        EnterKeepsInv(s, t.p);
      } else if Sleepy(c) {
        SleepKeepsInv(s, t.p);
      } else if c == Ringing {
        RingKeepsInv(s, t.p);
      } else {
        LeaveKeepsInv(s, t.p);
      }
    }
  }

  /** Mutual exclusion and no lost wakeup, in every reachable state: at most one
      process owns the sleep-lock, holdingsleep tells exactly that process, and no
      process sleeps or is about to sleep on a free lock unless a releaser is still
      inside its wakeup. */
  lemma {:induction false} RunKeepsInv(s: State, steps: seq<Step>, s': State)
    requires Inv(s) && Run(s, steps, s')
    ensures Inv(s')
    decreases |steps|
  {
    hide Inv, Enabled, Apply;
    if steps != [] {
      StepKeepsInv(s, steps[0]);
      RunKeepsInv(Apply(s, steps[0]), steps[1..], s');
    }
  }

  lemma SleepLockSafe(steps: seq<Step>, s: State)
    requires Run(Start(), steps, s)
    ensures forall p, q :: p in s.pc && q in s.pc && Owns(s.pc[p]) && Owns(s.pc[q]) ==> p == q
    ensures forall p :: p in s.pc ==> (s.locked && s.pid == p <==> Owns(s.pc[p]))
    ensures forall p :: p in s.pc && Sleepy(s.pc[p]) && !s.locked ==> exists q :: q in s.pc && Releasing(s.pc[q])
  {
    assert Inv(Start());
    RunKeepsInv(Start(), steps, s);
  }

  // No process is left behind.

  /** Everyone is outside, asleep, or holding the lock. */
  ghost predicate Quiet(s: State) {
    forall p :: p in s.pc ==> s.pc[p] == Out || s.pc[p] == Asleep || s.pc[p] == Holds
  }

  /** Then nobody sleeps unless someone holds the lock. */
  lemma NobodyStranded(steps: seq<Step>, s: State)
    requires Run(Start(), steps, s) && Quiet(s)
    ensures (exists p :: p in s.pc && s.pc[p] == Asleep) ==> exists q :: q in s.pc && s.pc[q] == Holds
  {
    assert Inv(Start());
    RunKeepsInv(Start(), steps, s);
    if exists p :: p in s.pc && s.pc[p] == Asleep {
      assert s.pid in s.pc && s.pc[s.pid] == Holds;
    }
  }

  /** Until then some process inside the code can take a step. */
  lemma NoDeadlock(steps: seq<Step>, s: State)
    requires Run(Start(), steps, s)
    ensures (exists q :: Enabled(s, Go(q)) || Enabled(s, Wake(q))) || Quiet(s)
  {
    assert Inv(Start());
    RunKeepsInv(Start(), steps, s);
    if !Quiet(s) {
      var q :| q in s.pc && s.pc[q] != Out && s.pc[q] != Asleep && s.pc[q] != Holds;
      LockHolderMoves(s, q);
    }
  }

  lemma LockHolderMoves(s: State, q: int)
    requires Inv(s) && q in s.pc && s.pc[q] != Out && s.pc[q] != Asleep && s.pc[q] != Holds
    ensures exists r :: Enabled(s, Go(r)) || Enabled(s, Wake(r))
  {
    if s.table != NOBODY {
      assert Enabled(s, Go(s.table));
    } else if s.lk != NOBODY {
      assert Enabled(s, Go(s.lk));
    } else if s.pc[q] == Woken {
      assert Enabled(s, Wake(q));
    } else {
      assert Enabled(s, Go(q));
    }
  }
}
