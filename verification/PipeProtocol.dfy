/** Readers and writers of one pipe. Whoever has the pipe's lock keeps it until it
    sleeps or returns, so the stretch in between is one step; the lock is free between
    steps. */
module PipeProtocol {
  import PipeCode

  const PIPESIZE := PipeCode.PIPESIZE

  /** A process in a call. `i` counts the bytes written so far. */
  datatype Proc =
    | Outside
    | Writing(addr: seq<int>, i: nat, asleep: bool)
    | Reading(n: nat, asleep: bool)

  /** `accepted` and `delivered` are the bytes written and read so far. */
  datatype State = State(
    queue: seq<int>,
    readopen: bool,
    writeopen: bool,
    procs: map<int, Proc>,
    killed: set<int>,
    accepted: seq<int>,
    delivered: seq<int>)

  datatype Step =
    | CallWrite(p: int, addr: seq<int>)
    | CallRead(p: int, n: nat)
    | Write(p: int)
    | Read(p: int)
    | Kill(p: int)
    | CloseRead
    | CloseWrite

  function At(s: State, p: int): Proc {
    if p in s.procs then s.procs[p] else Outside
  }

  function Roused(c: Proc): Proc {
    match c
    case Outside => Outside
    case Writing(a, i, _) => Writing(a, i, false)
    case Reading(n, _) => Reading(n, false)
  }

  /** wakeup(&p->nread) and wakeup(&p->nwrite). */
  function WakeReaders(procs: map<int, Proc>): map<int, Proc> {
    map p | p in procs :: if procs[p].Reading? then Roused(procs[p]) else procs[p]
  }

  function WakeWriters(procs: map<int, Proc>): map<int, Proc> {
    map p | p in procs :: if procs[p].Writing? then Roused(procs[p]) else procs[p]
  }

  /** How many bytes a writer can put now. */
  function Room(s: State, addr: seq<int>, i: nat): int {
    PipeCode.Min(|addr| - i, PIPESIZE - |s.queue|)
  }

  ghost predicate Enabled(s: State, t: Step) {
    match t
    case CallWrite(p, _) => At(s, p).Outside? && s.writeopen
    case CallRead(p, _) => At(s, p).Outside? && s.readopen
    case Write(p) => var c := At(s, p); c.Writing? && !c.asleep && c.i <= |c.addr| && |s.queue| <= PIPESIZE
    case Read(p) => var c := At(s, p); c.Reading? && !c.asleep
    case Kill(_) => true
    // A descriptor that a call is using is open.
    case CloseRead => s.readopen && forall p :: p in s.procs ==> !s.procs[p].Reading?
    case CloseWrite => s.writeopen && forall p :: p in s.procs ==> !s.procs[p].Writing?
  }

  /** The writer finds the pipe full and leaves instead of sleeping. */
  predicate GivesUp(s: State, p: int) {
    var c := At(s, p);
    c.Writing? && Room(s, c.addr, c.i) < |c.addr| - c.i && (!s.readopen || p in s.killed)
  }

  function DoWrite(s: State, p: int): State
    requires Enabled(s, Write(p))
  {
    var c := At(s, p);
    var k := Room(s, c.addr, c.i);
    var put := c.addr[c.i..c.i + k];
    var s1 := s.(queue := s.queue + put, accepted := s.accepted + put);
    if c.i + k == |c.addr| then s1.(procs := WakeReaders(s.procs)[p := Outside])
    else if GivesUp(s, p) then s1.(procs := s.procs[p := Outside])
    else s1.(procs := WakeReaders(s.procs)[p := Writing(c.addr, c.i + k, true)])
  }

  function DoRead(s: State, p: int): State
    requires Enabled(s, Read(p))
  {
    var c := At(s, p);
    if s.queue == [] && s.writeopen then
      if p in s.killed then s.(procs := s.procs[p := Outside])
      else s.(procs := s.procs[p := Reading(c.n, true)])
    else
      var k := PipeCode.Min(c.n, |s.queue|);
      s.(queue := s.queue[k..], delivered := s.delivered + s.queue[..k],
         procs := WakeWriters(s.procs)[p := Outside])
  }

  function Apply(s: State, t: Step): State
    requires Enabled(s, t)
  {
    match t
    case CallWrite(p, addr) => s.(procs := s.procs[p := Writing(addr, 0, false)])
    case CallRead(p, n) => s.(procs := s.procs[p := Reading(n, false)])
    case Write(p) => DoWrite(s, p)
    case Read(p) => DoRead(s, p)
    case Kill(p) =>
      s.(killed := s.killed + {p}, procs := if p in s.procs then s.procs[p := Roused(s.procs[p])] else s.procs)
    case CloseRead => s.(readopen := false, procs := WakeWriters(s.procs))
    case CloseWrite => s.(writeopen := false, procs := WakeReaders(s.procs))
  }

  function Start(): State {
    State([], true, true, map[], {}, [], [])
  }

  ghost predicate Run(s: State, steps: seq<Step>, s': State)
    decreases |steps|
  {
    if steps == [] then s == s'
    else Enabled(s, steps[0]) && Run(Apply(s, steps[0]), steps[1..], s')
  }

  // What always holds.

  ghost predicate Fifo(s: State) {
    s.accepted == s.delivered + s.queue && |s.queue| <= PIPESIZE
  }

  /** No writer sleeps with space or with the reader gone. */
  ghost predicate WritersRight(s: State) {
    forall p :: p in s.procs && s.procs[p].Writing? ==>
      s.procs[p].i <= |s.procs[p].addr| && (s.procs[p].asleep ==> |s.queue| == PIPESIZE && s.readopen)
  }

  ghost predicate SomeReaderSleeps(s: State) {
    exists p :: p in s.procs && s.procs[p].Reading? && s.procs[p].asleep
  }

  /** No reader sleeps with data or at the end of file. */
  ghost predicate ReadersRight(s: State) {
    SomeReaderSleeps(s) ==> s.queue == [] && s.writeopen
  }

  /** A reader that is in a call keeps its end open. */
  ghost predicate EndsOpen(s: State) {
    forall p :: p in s.procs ==> (s.procs[p].Reading? ==> s.readopen) && (s.procs[p].Writing? ==> s.writeopen)
  }

  ghost predicate Inv(s: State) {
    Fifo(s) && WritersRight(s) && EndsOpen(s)
  }

  lemma StepKeepsInv(s: State, t: Step)
    requires Inv(s) && Enabled(s, t)
    ensures Inv(Apply(s, t))
  {
  }

  lemma {:induction false} RunKeepsInv(s: State, steps: seq<Step>, s': State)
    requires Inv(s) && Run(s, steps, s')
    ensures Inv(s')
    decreases |steps|
  {
    hide Inv, Enabled, Apply;
    if steps != [] {
      StepKeepsInv(s, steps[0]);
      RunKeepsInv(Apply(s, steps[0]), steps[1..], s');
    }
  }

  /** For any readers and writers: what was delivered is a prefix of what was
      accepted, at most PIPESIZE bytes are in flight, and no writer sleeps with space
      or with the reader gone. */
  lemma PipeIsFifo(steps: seq<Step>, s: State)
    requires Run(Start(), steps, s)
    ensures s.delivered <= s.accepted && |s.accepted| - |s.delivered| <= PIPESIZE
    ensures s.accepted[|s.delivered|..] == s.queue
    ensures WritersRight(s)
  {
    RunKeepsInv(Start(), steps, s);
  }

  // When readers are woken.

  /** A killed writer that has just filled the pipe leaves without a wakeup. */
  ghost predicate Silent(s: State, t: Step) {
    t.Write? && GivesUp(s, t.p) && |s.queue| < PIPESIZE
  }

  /** From a state where no reader sleeps in vain, a step leads to one where some
      reader does exactly when a killed writer puts bytes, finds the pipe full and
      gives up while a reader sleeps. */
  lemma ReadersRightIff(s: State, t: Step)
    requires Inv(s) && ReadersRight(s) && Enabled(s, t)
    ensures ReadersRight(Apply(s, t)) <==> !(Silent(s, t) && SomeReaderSleeps(s))
  {
    var s' := Apply(s, t);
    if Silent(s, t) && SomeReaderSleeps(s) {
      var p :| p in s.procs && s.procs[p].Reading? && s.procs[p].asleep;
      assert p in s'.procs && s'.procs[p] == s.procs[p];
    } else if SomeReaderSleeps(s') {
      var p :| p in s'.procs && s'.procs[p].Reading? && s'.procs[p].asleep;
      if !(t == Read(p)) {
        assert p in s.procs && s.procs[p].Reading? && s.procs[p].asleep;
      }
    }
  }

  /** No step of the run is a silent one while a reader sleeps. */
  ghost predicate NeverSilent(s: State, steps: seq<Step>)
    decreases |steps|
  {
    steps == [] ||
    (Enabled(s, steps[0]) && !(Silent(s, steps[0]) && SomeReaderSleeps(s)) && NeverSilent(Apply(s, steps[0]), steps[1..]))
  }

  /** Every state of the run has its readers right. */
  ghost predicate AllRight(s: State, steps: seq<Step>)
    decreases |steps|
  {
    ReadersRight(s) && (steps == [] || (Enabled(s, steps[0]) && AllRight(Apply(s, steps[0]), steps[1..])))
  }

  lemma {:induction false} RunRightIff(s: State, steps: seq<Step>, s': State)
    requires Inv(s) && ReadersRight(s) && Run(s, steps, s')
    ensures AllRight(s, steps) <==> NeverSilent(s, steps)
    decreases |steps|
  {
    hide Inv, Enabled, Apply, ReadersRight, Silent, SomeReaderSleeps;
    if steps != [] {
      StepKeepsInv(s, steps[0]);
      ReadersRightIff(s, steps[0]);
      if ReadersRight(Apply(s, steps[0])) {
        RunRightIff(Apply(s, steps[0]), steps[1..], s');
      } else {
        NotRight(Apply(s, steps[0]), steps[1..]);
      }
    }
  }

  lemma NotRight(s: State, steps: seq<Step>)
    requires !ReadersRight(s)
    ensures !AllRight(s, steps)
  {
  }

  /** Throughout a run no reader sleeps with data or end-of-file available, if and
      only if no killed writer ever gives up right after putting bytes while a reader
      sleeps. */
  lemma ReadersWokenIff(steps: seq<Step>, s: State)
    requires Run(Start(), steps, s)
    ensures AllRight(Start(), steps) <==> NeverSilent(Start(), steps)
  {
    RunRightIff(Start(), steps, s);
  }

  function Bytes(n: nat): seq<int> {
    seq(n, i => i)
  }

  /** It does happen: a reader sleeps, a killed writer fills the pipe and leaves, and
      the reader sleeps on beside a full pipe. */
  lemma ReaderSleepsByFullPipe() returns (steps: seq<Step>, s: State)
    ensures Run(Start(), steps, s)
    ensures SomeReaderSleeps(s) && |s.queue| == PIPESIZE && s.readopen && s.writeopen
  {
    var a := Bytes(PIPESIZE + 1);
    steps := [CallRead(1, 1), Read(1), CallWrite(2, a), Kill(2), Write(2)];
    var s1 := Apply(Start(), CallRead(1, 1));
    var s2 := Apply(s1, Read(1));
    var s3 := Apply(s2, CallWrite(2, a));
    var s4 := Apply(s3, Kill(2));
    s := Apply(s4, Write(2));
    assert s.procs[1] == Reading(1, true);
    assert Run(s4, [Write(2)], s);
    assert Run(s3, [Kill(2), Write(2)], s) by {
      assert [Kill(2), Write(2)][1..] == [Write(2)];
    }
    assert Run(s2, [CallWrite(2, a), Kill(2), Write(2)], s) by {
      assert [CallWrite(2, a), Kill(2), Write(2)][1..] == [Kill(2), Write(2)];
    }
    assert Run(s1, [Read(1), CallWrite(2, a), Kill(2), Write(2)], s) by {
      assert [Read(1), CallWrite(2, a), Kill(2), Write(2)][1..] == [CallWrite(2, a), Kill(2), Write(2)];
    }
    assert steps[1..] == [Read(1), CallWrite(2, a), Kill(2), Write(2)];
  }
}
