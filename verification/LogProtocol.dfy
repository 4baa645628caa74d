/** The logging protocol as a state machine: any number of processes begin, edit
    buffers, log them and end; the last one out commits; the machine may crash
    between any two block writes, also inside commit() and inside recovery. */
module LogProtocol {
  import opened LogLayout

  type OpId = int

  /** An edit of a cached block by a system call. */
  datatype Edit = Edit(op: OpId, blockno: int, data: Block)

  /** One outstanding system call: `added` log entries were appended by it, and
      `logged` is the set of block numbers it has passed to log_write. */
  datatype Op = Op(id: OpId, added: nat, logged: set<int>)

  /** A locked buffer; `unlogged` if it was edited since its last log_write. */
  datatype Hold = Hold(holder: OpId, unlogged: bool)

  datatype Mode = Down | Recovering | Running | Committing | Panicked

  /** The next block write of commit() or of recover_from_log(): log block i in
      write_log, the header, home block i in install_trans, the header again. */
  datatype Phase = Idle | Copy(i: nat) | Head | Install(i: nat) | Erase

  /** The machine. `committed`, `current`, `issued` and `group` are history: they
      record what was done and no step depends on them. A system call o belongs
      to group number group[o]; numbers below |committed| are groups whose header
      reached the disk, number |committed| is the one being built, and an o that
      is in `issued` but not in `group` was lost in a crash. */
  datatype State = State(
    disk: Disk,
    mode: Mode,
    phase: Phase,
    cache: map<int, Block>,
    dirty: set<int>,
    lh: seq<int>,
    ops: seq<Op>,
    holds: map<int, Hold>,
    committed: seq<seq<Edit>>,
    current: seq<Edit>,
    issued: map<OpId, seq<Edit>>,
    group: map<OpId, nat>)

  datatype Step =
    | Begin(op: OpId)
    | Bread(holder: OpId, blockno: int)
    | Modify(op: OpId, blockno: int, data: Block)
    | LogWrite(op: OpId, blockno: int)
    | Brelse(holder: OpId, blockno: int)
    | End(op: OpId)
    | WriteNext
    | Evict(blockno: int)
    | Crash
    | Boot

  function Find(ops: seq<Op>, o: OpId): (i: int)
    ensures -1 <= i < |ops|
    ensures i >= 0 ==> ops[i].id == o
    ensures i < 0 ==> forall k :: 0 <= k < |ops| ==> ops[k].id != o
  {
    if ops == [] then -1
    else if ops[|ops| - 1].id == o then |ops| - 1
    else Find(ops[..|ops| - 1], o)
  }

  /** What a bread of block b returns: the cached copy if there is one. */
  function View(s: State, b: int): Block
    requires 0 <= b < |s.disk|
  {
    if b in s.cache then s.cache[b] else s.disk[b]
  }

  predicate Up(s: State) {
    s.mode == Running || s.mode == Committing
  }

  // begin_op sleeps unless there is room for MAXOPBLOCKS more blocks.

  predicate Admits(s: State) {
    s.mode == Running && |s.lh| + (|s.ops| + 1) * MAXOPBLOCKS <= LOGSIZE
  }

  function DoBegin(s: State, o: OpId): State {
    s.(ops := s.ops + [Op(o, 0, {})],
       issued := s.issued[o := []],
       group := s.group[o := |s.committed|])
  }

  // bread waits for the buffer's sleep-lock. Processes that only read hold
  // buffers too, also while a commit is under way.

  function DoBread(s: State, o: OpId, b: int): State
    requires 0 <= b < |s.disk|
  {
    s.(holds := s.holds[b := Hold(o, false)], cache := s.cache[b := View(s, b)])
  }

  predicate HeldByOp(s: State, o: OpId, b: int) {
    s.mode == Running && Find(s.ops, o) >= 0 && b in s.holds && s.holds[b].holder == o
  }

  function DoModify(s: State, e: Edit): State {
    s.(cache := s.cache[e.blockno := e.data],
       holds := s.holds[e.blockno := Hold(e.op, true)],
       current := s.current + [e],
       issued := s.issued[e.op := (if e.op in s.issued then s.issued[e.op] else []) + [e]])
  }

  /** The panic test at the head of log_write. */
  predicate LogWritePanics(g: Geometry, s: State) {
    |s.lh| >= LOGSIZE || |s.lh| >= g.size - 1 || |s.ops| < 1
  }

  /** log_write past its panic test: append the block number or absorb it, and
      pin the buffer. */
  function DoLogWrite(s: State, o: OpId, b: int): State
    requires Find(s.ops, o) >= 0
  {
    var i := Find(s.ops, o);
    var op := s.ops[i];
    var absorbed := b in s.lh;
    s.(lh := if absorbed then s.lh else s.lh + [b],
       dirty := s.dirty + {b},
       holds := s.holds[b := Hold(o, false)],
       ops := s.ops[i := Op(o, if absorbed then op.added else op.added + 1, op.logged + {b})])
  }

  function DoBrelse(s: State, b: int): State {
    s.(holds := s.holds - {b})
  }

  /** end_op: the last one out commits. commit() does nothing when no block was
      logged. */
  function DoEnd(s: State, o: OpId): State
    requires Find(s.ops, o) >= 0
  {
    var i := Find(s.ops, o);
    var s' := s.(ops := s.ops[..i] + s.ops[i + 1..]);
    if s'.ops == [] && s.lh != [] then s'.(mode := Committing, phase := Copy(0)) else s'
  }

  /** The next bwrite is one the disk and the header have room for. */
  predicate WriteReady(g: Geometry, s: State) {
    && (s.mode == Committing || s.mode == Recovering)
    && g.start < g.blocks == |s.disk|
    && match s.phase
       case Idle => false
       case Copy(i) => i < |s.lh| && 0 <= s.lh[i] < g.blocks && g.start + 1 + i < g.blocks
       case Head => true
       case Install(i) => i < |s.lh| && 0 <= s.lh[i] < g.blocks && g.start + 1 + i < g.blocks
       case Erase => true
  }

  /** Its block number and data. */
  function NextWrite(g: Geometry, s: State): (w: (int, Block))
    requires WriteReady(g, s)
    ensures 0 <= w.0 < |s.disk|
  {
    match s.phase
    case Copy(i) => (g.start + 1 + i, View(s, s.lh[i]))
    case Head => (g.start, EncodeHeader(s.disk[g.start], s.lh))
    case Install(i) => (s.lh[i], s.disk[g.start + 1 + i])
    case Erase => (g.start, EncodeHeader(s.disk[g.start], []))
  }

  function NextPhase(p: Phase, n: nat): Phase {
    match p
    case Idle => Idle
    case Copy(i) => if i + 1 < n then Copy(i + 1) else Head
    case Head => if n > 0 then Install(0) else Erase
    case Install(i) => if i + 1 < n then Install(i + 1) else Erase
    case Erase => Idle
  }

  /** One bwrite: iderw writes the block and clears its dirty flag. The write that
      puts the block list into the header commits the current group. */
  function DoWrite(g: Geometry, s: State): State
    requires WriteReady(g, s)
  {
    var w := NextWrite(g, s);
    s.(disk := s.disk[w.0 := w.1],
       cache := if w.0 in s.cache then s.cache[w.0 := w.1] else s.cache,
       dirty := s.dirty - {w.0},
       phase := NextPhase(s.phase, |s.lh|),
       mode := if s.phase == Erase then Running else s.mode,
       lh := if s.phase == Erase then [] else s.lh,
       committed := if s.phase == Head then s.committed + [s.current] else s.committed,
       current := if s.phase == Head then [] else s.current)
  }

  function DoEvict(s: State, b: int): State {
    s.(cache := s.cache - {b})
  }

  /** A crash loses everything but the disk. */
  function DoCrash(s: State): State {
    s.(mode := Down, phase := Idle, cache := map[], dirty := {}, lh := [], ops := [], holds := map[],
       current := [],
       group := map o | o in s.group && s.group[o] < |s.committed| :: s.group[o])
  }

  /** recover_from_log starts with read_head. */
  function DoBoot(s: State, lh: seq<int>): State {
    s.(mode := Recovering, lh := lh, phase := if lh == [] then Erase else Install(0))
  }

  ghost predicate Enabled(g: Geometry, s: State, t: Step)
    requires ValidGeometry(g)
  {
    && |s.disk| == g.blocks
    && match t
       case Begin(o) => Admits(s) && o !in s.issued
       case Bread(_, b) => Up(s) && Home(g, b) && b !in s.holds
       case Modify(o, b, _) => HeldByOp(s, o, b)
       case LogWrite(o, b) => HeldByOp(s, o, b)
       // A client logs what it changed before it lets the buffer go.
       case Brelse(o, b) => Up(s) && b in s.holds && s.holds[b] == Hold(o, false)
       // A system call releases its buffers before it ends.
       case End(o) =>
         && s.mode == Running && Find(s.ops, o) >= 0
         && forall b :: b in s.holds ==> s.holds[b].holder != o
       // A bwrite waits for the buffer.
       case WriteNext => WriteReady(g, s) && NextWrite(g, s).0 !in s.holds
       // bget recycles only buffers that are neither held nor dirty.
       case Evict(b) => Up(s) && b !in s.holds && b !in s.dirty
       case Crash => true
       case Boot => s.mode == Down && GoodHeader(g, DecodeHeader(s.disk[g.start]))
  }

  /** The machine after step t. */
  function Apply(g: Geometry, s: State, t: Step): State
    requires ValidGeometry(g) && Enabled(g, s, t)
  {
    match t
    case Begin(o) => DoBegin(s, o)
    case Bread(o, b) => DoBread(s, o, b)
    case Modify(o, b, data) => DoModify(s, Edit(o, b, data))
    case LogWrite(o, b) =>
      if LogWritePanics(g, s) then s.(mode := Panicked) else DoLogWrite(s, o, b)
    case Brelse(_, b) => DoBrelse(s, b)
    case End(o) => DoEnd(s, o)
    case WriteNext => DoWrite(g, s)
    case Evict(b) => DoEvict(s, b)
    case Crash => DoCrash(s)
    case Boot => DoBoot(s, DecodeHeader(s.disk[g.start]))
  }

  /** A machine that has just been switched on over a disk with an empty log. */
  ghost predicate Init(g: Geometry, d0: Disk, s: State)
    requires ValidGeometry(g)
  {
    && |d0| == g.blocks && DecodeHeader(d0[g.start]) == []
    && s == State(d0, Down, Idle, map[], {}, [], [], map[], [], [], map[], map[])
  }

  /** A run: every step is enabled where it is taken. */
  ghost predicate Run(g: Geometry, s: State, steps: seq<Step>, s': State)
    requires ValidGeometry(g)
    decreases |steps|
  {
    if steps == [] then s == s'
    else Enabled(g, s, steps[0]) && Run(g, Apply(g, s, steps[0]), steps[1..], s')
  }

  // The meaning of the history: what the disk should hold.

  function ApplyEdits(d: Disk, es: seq<Edit>): (r: Disk)
    ensures |r| == |d|
  {
    if es == [] then d
    else
      var e := es[|es| - 1];
      var r := ApplyEdits(d, es[..|es| - 1]);
      if 0 <= e.blockno < |d| then r[e.blockno := e.data] else r
  }

  /** The disk contents after all the given groups of edits, in order. */
  function ApplyGroups(d: Disk, gs: seq<seq<Edit>>): (r: Disk)
    ensures |r| == |d|
  {
    if gs == [] then d else ApplyEdits(ApplyGroups(d, gs[..|gs| - 1]), gs[|gs| - 1])
  }

  /** The edits that system call o made in a group, in order. */
  function By(o: OpId, es: seq<Edit>): seq<Edit> {
    if es == [] then []
    else
      var e := es[|es| - 1];
      By(o, es[..|es| - 1]) + if e.op == o then [e] else []
  }

  /** The k-th group; the one being built comes after the committed ones. */
  function GroupAt(s: State, k: nat): seq<Edit>
    requires k <= |s.committed|
  {
    if k < |s.committed| then s.committed[k] else s.current
  }
}
