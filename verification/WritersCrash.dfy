/** The writers of FileWriters on top of the log: their edits go through buffers and
    transactions that share groups. Whatever step a crash comes at, the recovered disk
    holds a consistent file system in which every file has a whole number of its own
    chunks. */
module WritersCrash {
  import opened InodeState
  import opened InodeSteps
  import opened FileCode
  import opened WriteActs
  import opened FileWriters
  import opened ImageMount
  import FileCrash
  import L = LogLayout
  import P = LogProtocol
  import S = LogSafety

  datatype Site = Site(lg: L.Geometry, d0: L.Disk, job: Job)

  /** The log's machine and the writers. The writers do not outlive a crash. */
  datatype World = World(log: P.State, sys: Sys, alive: bool)

  /** A transaction begins or ends; a writer acts, and unless the action is in memory
      only it gives a buffer the data; anything else that may happen to the log. */
  datatype Move = Begin(i: int, o: int) | Perform(i: int, a: Act, data: L.Block) | End(i: int) | Other(t: P.Step)

  ghost predicate SiteOk(c: Site) {
    Layout(c.lg, c.job.g, |c.job.st0.inodes|) && Shows(c.lg, c.job.g, c.d0, c.job.st0) && JobOk(c.job)
  }

  /** What the disk should hold: the inodes in their blocks are those on the disk. */
  function Image(x: Files): State {
    State(x.st.disk, x.dinodes)
  }

  predicate InMemory(a: Act) {
    a.Fill? || a.Grow?
  }

  /** The edit that an action makes. */
  ghost function EditOf(c: Site, sys: Sys, i: int, a: Act, data: L.Block): P.Step
    requires Index(c.job, sys, i)
  {
    P.Modify(sys.w[i].op, BlockOf(c.job.g, sys.x, c.job.writers[i].ino, a), data)
  }

  ghost predicate Enabled(c: Site, w: World, m: Move)
    requires L.ValidGeometry(c.lg)
  {
    match m
    case Begin(i, o) => w.alive && MayBegin(c.job, w.sys, i) && o != NONE && P.Enabled(c.lg, w.log, P.Begin(o))
    case Perform(i, a, data) =>
      && w.alive && MayAct(c.job, w.sys, i, a) && Ready(c.job.g, w.sys.x, c.job.writers[i].ino, w.sys.w[i].mine, a)
      && (!InMemory(a) ==>
            && P.Enabled(c.lg, w.log, EditOf(c, w.sys, i, a, data))
            && ShowsAt(c.job.g, data, Image(Acted(c.job, w.sys, i, a).x), EditOf(c, w.sys, i, a, data).blockno))
    case End(i) => w.alive && MayEnd(c.job, w.sys, i) && P.Enabled(c.lg, w.log, P.End(w.sys.w[i].op))
    case Other(t) => !t.Begin? && !t.Modify? && !t.End? && P.Enabled(c.lg, w.log, t)
  }

  ghost function Apply(c: Site, w: World, m: Move): World
    requires L.ValidGeometry(c.lg) && Enabled(c, w, m)
  {
    match m
    case Begin(i, o) => w.(log := P.Apply(c.lg, w.log, P.Begin(o)), sys := Begun(w.sys, i, o))
    case Perform(i, a, data) =>
      w.(log := if InMemory(a) then w.log else P.Apply(c.lg, w.log, EditOf(c, w.sys, i, a, data)),
         sys := Acted(c.job, w.sys, i, a))
    case End(i) => w.(log := P.Apply(c.lg, w.log, P.End(w.sys.w[i].op)), sys := Ended(c.job, w.sys, i))
    case Other(t) => w.(log := P.Apply(c.lg, w.log, t), alive := w.alive && !t.Crash?)
  }

  ghost predicate Run(c: Site, w: World, moves: seq<Move>, w': World)
    requires L.ValidGeometry(c.lg)
    decreases |moves|
  {
    if moves == [] then w == w'
    else Enabled(c, w, moves[0]) && Run(c, Apply(c, w, moves[0]), moves[1..], w')
  }

  /** A machine just switched on, with nothing written yet. */
  ghost predicate Init(c: Site, w: World)
    requires L.ValidGeometry(c.lg)
  {
    P.Init(c.lg, c.d0, w.log) && w.sys == Start(c.job) && w.alive
  }

  // The invariant.

  /** Every transaction that a writer is in is one of the log's, and its own. */
  ghost predicate Matched(log: P.State, w: seq<Prog>) {
    && (forall i :: 0 <= i < |w| && w[i].op != NONE ==> P.Find(log.ops, w[i].op) >= 0 && w[i].op in log.issued)
    && (forall i, k :: 0 <= i < k < |w| && w[i].op != NONE ==> w[i].op != w[k].op)
  }

  ghost predicate Behind(v: seq<Prog>, w: seq<Prog>) {
    |v| == |w| && forall i :: 0 <= i < |v| ==> v[i].k <= w[i].k
  }

  /** `snap` is the last moment without a transaction whose group is on the disk. */
  ghost predicate Kept(c: Site, w: World, snap: Sys)
    requires L.ValidGeometry(c.lg)
  {
    && S.Inv(c.lg, c.d0, w.log) && (FileCrash.AtRest(w.log) ==> w.log.lh == [])
    && Good(c.job, snap) && Quiet(snap) && Behind(snap.w, w.sys.w)
    && Shows(c.lg, c.job.g, S.Durable(c.d0, w.log), Image(snap.x))
    && if w.alive then
         && Good(c.job, w.sys) && Matched(w.log, w.sys.w)
         && Shows(c.lg, c.job.g, S.Latest(c.d0, w.log), Image(w.sys.x))
       else w.log.ops == [] && w.log.current == [] && w.log.mode != P.Committing
  }

  // Actions on the image.

  lemma ImageSame(c: Site, w: World, i: int, a: Act)
    requires Index(c.job, w.sys, i) && Ready(c.job.g, w.sys.x, c.job.writers[i].ino, w.sys.w[i].mine, a) && InMemory(a)
    ensures Image(Acted(c.job, w.sys, i, a).x) == Image(w.sys.x)
  {
  }

  lemma OtherBlock(g: Super, x: Files, ino: int, mine: set<int>, a: Act, d: L.Block, b: int)
    requires Ready(g, x, ino, mine, a) && 0 <= b && ShowsAt(g, d, Image(x), b) && b != BlockOf(g, x, ino, a)
    ensures ShowsAt(g, d, Image(Do(g, x, ino, mine, a)), b)
  {
    hide Ready, Do, Dinode, Unpack, BlockOf;
    ActFrame(g, x, ino, mine, a);
    var x' := Do(g, x, ino, mine, a);
    UpdateBlock(g, x, ino, a);
    if InodeBlock(g, |x.dinodes|, b) {
      forall i {:trigger Image(x').inodes[i]} | 0 <= i < |x'.dinodes| && g.inodestart + i / IPB == b
        ensures Dinode(Unpack(d), i % IPB) == x'.dinodes[i]
      {
        assert Image(x).inodes[i] == x.dinodes[i];
        assert x'.dinodes[i] == x.dinodes[i];
      }
    }
  }

  lemma UpdateBlock(g: Super, x: Files, ino: int, a: Act)
    ensures a.Update? ==> BlockOf(g, x, ino, a) == g.inodestart + ino / IPB
  {
  }

  lemma EditShows(lg: L.Geometry, g: Super, d: L.Disk, x: Files, ino: int, mine: set<int>, a: Act, data: L.Block)
    requires Ready(g, x, ino, mine, a) && Shows(lg, g, d, Image(x)) && Layout(lg, g, |x.dinodes|)
    requires 0 <= BlockOf(g, x, ino, a) < |d| && ShowsAt(g, data, Image(Do(g, x, ino, mine, a)), BlockOf(g, x, ino, a))
    ensures Shows(lg, g, d[BlockOf(g, x, ino, a) := data], Image(Do(g, x, ino, mine, a)))
  {
    hide ShowsAt, Ready, Do, BlockOf;
    ActFrame(g, x, ino, mine, a);
    var d' := d[BlockOf(g, x, ino, a) := data];
    forall b {:trigger d'[b]} | g.inodestart <= b < lg.blocks && 0 <= b
      ensures ShowsAt(g, d'[b], Image(Do(g, x, ino, mine, a)), b)
    {
      if b != BlockOf(g, x, ino, a) {
        OtherBlock(g, x, ino, mine, a, d[b], b);
      }
    }
  }

  // Calls.

  lemma FoundAfterBegin(s: P.State, o: int, p: int)
    requires P.Find(s.ops, p) >= 0 || p == o
    ensures P.Find(P.DoBegin(s, o).ops, p) >= 0
  {
    var ops := P.DoBegin(s, o).ops;
    if p == o {
      assert ops[|s.ops|].id == o;
    } else {
      assert ops[P.Find(s.ops, p)].id == p;
    }
  }

  lemma FoundAfterEnd(s: P.State, o: int, p: int)
    requires P.Find(s.ops, o) >= 0 && P.Find(s.ops, p) >= 0 && p != o
    ensures P.Find(P.DoEnd(s, o).ops, p) >= 0
  {
    var f, k := P.Find(s.ops, o), P.Find(s.ops, p);
    var ops := P.DoEnd(s, o).ops;
    assert ops[if k < f then k else k - 1].id == p;
  }

  lemma FoundAfterLogWrite(s: P.State, o: int, b: int, p: int)
    requires P.Find(s.ops, o) >= 0 && P.Find(s.ops, p) >= 0
    ensures P.Find(P.DoLogWrite(s, o, b).ops, p) >= 0
  {
    assert P.DoLogWrite(s, o, b).ops[P.Find(s.ops, p)].id == p;
  }

  lemma NoCallsQuiet(log: P.State, sys: Sys)
    requires Matched(log, sys.w) && log.ops == []
    ensures Quiet(sys)
  {
  }

  lemma MatchedSame(log: P.State, log': P.State, w: seq<Prog>, w': seq<Prog>)
    requires Matched(log, w) && |w'| == |w| && forall i :: 0 <= i < |w| ==> w'[i].op == w[i].op
    requires log'.issued.Keys >= log.issued.Keys && forall p :: P.Find(log.ops, p) >= 0 ==> P.Find(log'.ops, p) >= 0
    ensures Matched(log', w')
  {
  }

  // One move.

  lemma KeptBegin(c: Site, w: World, snap: Sys, m: Move)
    requires L.ValidGeometry(c.lg) && Kept(c, w, snap) && m.Begin? && Enabled(c, w, m)
    ensures Kept(c, Apply(c, w, m), snap)
  {
    hide S.Inv, S.Durable, S.Latest, Good, Shows, Quiet, MayBegin, P.Find;
    FileCrash.StepImages(c.lg, c.d0, w.log, P.Begin(m.o));
    BeginGood(c.job, w.sys, m.i, m.o);
    InRange(c, w, m.i);
    MatchedBegin(w.log, w.sys, m.i, m.o);
  }

  lemma InRange(c: Site, w: World, i: int)
    requires MayBegin(c.job, w.sys, i) || MayEnd(c.job, w.sys, i)
    ensures Index(c.job, w.sys, i) && (MayEnd(c.job, w.sys, i) ==> w.sys.w[i].op != NONE)
  {
  }

  lemma MatchedBegin(log: P.State, sys: Sys, i: int, o: int)
    requires Matched(log, sys.w) && 0 <= i < |sys.w| && o !in log.issued
    ensures Matched(P.DoBegin(log, o), Begun(sys, i, o).w)
  {
    hide P.Find;
    var w' := Begun(sys, i, o).w;
    forall k | 0 <= k < |w'| && w'[k].op != NONE
      ensures P.Find(P.DoBegin(log, o).ops, w'[k].op) >= 0
    {
      FoundAfterBegin(log, o, w'[k].op);
    }
  }

  lemma KeptPerform(c: Site, w: World, snap: Sys, m: Move)
    requires SiteOk(c) && L.ValidGeometry(c.lg) && Kept(c, w, snap) && m.Perform? && Enabled(c, w, m)
    ensures Kept(c, Apply(c, w, m), snap)
  {
    hide S.Inv, S.Durable, S.Latest, Good, Quiet, P.Find, JobOk, Ready, Do, BlockOf, ShowsAt, Matched;
    var i, a := m.i, m.a;
    ActGood(c.job, w.sys, i, a);
    MatchedMoved(w.log, Apply(c, w, m).log, w.sys.w, i, a);
    if InMemory(a) {
      ImageSame(c, w, i, a);
    } else {
      var t := EditOf(c, w.sys, i, a, m.data);
      FileCrash.StepImages(c.lg, c.d0, w.log, t);
      GoodInodes(c.job, w.sys);
      EditShows(c.lg, c.job.g, S.Latest(c.d0, w.log), w.sys.x, c.job.writers[i].ino, w.sys.w[i].mine, a, m.data);
    }
  }

  lemma GoodInodes(j: Job, s: Sys)
    requires Good(j, s)
    ensures |s.x.dinodes| == |j.st0.inodes| == |s.x.st.inodes|
  {
  }

  lemma MatchedMoved(log: P.State, log': P.State, w: seq<Prog>, i: int, a: Act)
    requires Matched(log, w) && 0 <= i < |w| && log'.ops == log.ops && log'.issued.Keys >= log.issued.Keys
    ensures Matched(log', w[i := Moved(w[i], a)])
  {
    MatchedSame(log, log', w, w[i := Moved(w[i], a)]);
  }

  lemma KeptEnd(c: Site, w: World, snap: Sys, m: Move)
    requires L.ValidGeometry(c.lg) && Kept(c, w, snap) && m.End? && Enabled(c, w, m)
    ensures Kept(c, Apply(c, w, m), snap)
  {
    hide S.Inv, S.Durable, S.Latest, Good, Shows, Quiet, MayEnd, P.Find, Chunks;
    InRange(c, w, m.i);
    FileCrash.StepImages(c.lg, c.d0, w.log, P.End(w.sys.w[m.i].op));
    EndGood(c.job, w.sys, m.i);
    MatchedEnd(c.job, w.log, w.sys, m.i);
  }

  lemma MatchedEnd(j: Job, log: P.State, sys: Sys, i: int)
    requires Matched(log, sys.w) && Index(j, sys, i) && sys.w[i].op != NONE
    ensures P.Find(log.ops, sys.w[i].op) >= 0 && Matched(P.DoEnd(log, sys.w[i].op), Ended(j, sys, i).w)
  {
    hide P.Find, Chunks;
    var o, w' := sys.w[i].op, Ended(j, sys, i).w;
    forall k | 0 <= k < |w'| && w'[k].op != NONE
      ensures P.Find(P.DoEnd(log, o).ops, w'[k].op) >= 0
    {
      assert sys.w[k].op != o;
      FoundAfterEnd(log, o, sys.w[k].op);
    }
  }

  /** The header write makes everything so far durable; nobody is writing then. */
  lemma KeptWrite(c: Site, w: World, snap: Sys) returns (snap': Sys)
    requires L.ValidGeometry(c.lg) && Kept(c, w, snap) && P.Enabled(c.lg, w.log, P.WriteNext)
    ensures Kept(c, w.(log := P.DoWrite(c.lg, w.log)), snap')
  {
    hide S.Inv, S.Durable, S.Latest, Good, Shows, Quiet, Matched, P.NextWrite;
    FileCrash.StepImages(c.lg, c.d0, w.log, P.WriteNext);
    FileCrash.WritePhase(c.lg, c.d0, w.log);
    snap' := snap;
    if w.alive {
      MatchedNone(w.log, P.DoWrite(c.lg, w.log), w.sys.w);
      if w.log.phase.Head? {
        NoCallsQuiet(w.log, w.sys);
        snap' := w.sys;
      }
    }
  }

  lemma MatchedNone(log: P.State, log': P.State, w: seq<Prog>)
    requires Matched(log, w) && log.ops == log'.ops == [] && log'.issued == log.issued
    ensures Matched(log', w)
  {
  }

  /** Crashes, readers, log writes, evictions and booting. */
  lemma KeptOther(c: Site, w: World, snap: Sys, t: P.Step)
    requires L.ValidGeometry(c.lg) && Kept(c, w, snap) && P.Enabled(c.lg, w.log, t)
    requires !t.Begin? && !t.Modify? && !t.End? && !t.WriteNext?
    ensures Kept(c, Apply(c, w, Other(t)), snap)
  {
    hide S.Inv, S.Durable, S.Latest, Good, Shows, Quiet, Matched, P.Find, L.DecodeHeader;
    FileCrash.StepImages(c.lg, c.d0, w.log, t);
    if w.alive && !t.Crash? {
      MatchedOther(c.lg, w.log, t, w.sys.w);
    }
    if t.LogWrite? {
      StillBusy(w.log, t.op, t.blockno);
    }
  }

  lemma StillBusy(s: P.State, o: int, b: int)
    requires P.Find(s.ops, o) >= 0
    ensures s.ops != [] && P.DoLogWrite(s, o, b).ops != []
  {
  }

  lemma MatchedOther(lg: L.Geometry, log: P.State, t: P.Step, w: seq<Prog>)
    requires L.ValidGeometry(lg) && Matched(log, w) && P.Enabled(lg, log, t)
    requires !t.Begin? && !t.Modify? && !t.End? && !t.WriteNext? && !t.Crash?
    ensures Matched(P.Apply(lg, log, t), w)
  {
    hide P.Find, L.DecodeHeader;
    if t.LogWrite? && !P.LogWritePanics(lg, log) {
      forall p | P.Find(log.ops, p) >= 0
        ensures P.Find(P.Apply(lg, log, t).ops, p) >= 0
      {
        FoundAfterLogWrite(log, t.op, t.blockno, p);
      }
    }
    MatchedSame(log, P.Apply(lg, log, t), w, w);
  }

  lemma KeptMove(c: Site, w: World, snap: Sys, m: Move) returns (snap': Sys)
    requires SiteOk(c) && L.ValidGeometry(c.lg) && Kept(c, w, snap) && Enabled(c, w, m)
    ensures Kept(c, Apply(c, w, m), snap')
  {
    hide SiteOk, Kept, MayBegin, MayAct, MayEnd, P.Enabled;
    snap' := snap;
    match m
    case Begin(_, _) => KeptBegin(c, w, snap, m);
    case Perform(_, _, _) => KeptPerform(c, w, snap, m);
    case End(_) => KeptEnd(c, w, snap, m);
    case Other(t) =>
      if t.WriteNext? {
        snap' := KeptWrite(c, w, snap);
      } else {
        KeptOther(c, w, snap, t);
      }
  }

  // Whole runs.

  lemma {:induction false} KeptRun(c: Site, w: World, snap: Sys, moves: seq<Move>, w': World) returns (snap': Sys)
    requires SiteOk(c) && L.ValidGeometry(c.lg) && Kept(c, w, snap) && Run(c, w, moves, w')
    ensures Kept(c, w', snap')
    decreases |moves|
  {
    hide SiteOk, Kept, Enabled, Apply;
    snap' := snap;
    if moves != [] {
      snap' := KeptMove(c, w, snap, moves[0]);
      snap' := KeptRun(c, Apply(c, w, moves[0]), snap', moves[1..], w');
    }
  }

  lemma KeptInit(c: Site, w: World)
    requires SiteOk(c) && L.ValidGeometry(c.lg) && Init(c, w)
    ensures Kept(c, w, w.sys)
  {
    hide Shows, Good, JobOk;
    S.InitInv(c.lg, c.d0, w.log);
    StartGood(c.job);
    assert Image(Start(c.job).x) == c.job.st0;
  }


  /** Where the invariant leads: what is durable, and at rest that is everything. */
  lemma KeptMeans(c: Site, w: World, snap: Sys) returns (last: Sys)
    requires SiteOk(c) && L.ValidGeometry(c.lg) && Kept(c, w, snap)
    ensures Good(c.job, last) && Quiet(last) && Behind(last.w, w.sys.w)
    ensures Shows(c.lg, c.job.g, S.Durable(c.d0, w.log), Image(last.x))
    ensures w.alive && FileCrash.AtRest(w.log) ==> last == w.sys
  {
    hide S.Inv, S.Durable, S.Latest, Good, Shows, Quiet, Matched, JobOk;
    last := snap;
    if w.alive && FileCrash.AtRest(w.log) {
      NoCallsQuiet(w.log, w.sys);
      GoodInodes(c.job, w.sys);
      FileCrash.RestShows(c.lg, c.job.g, c.d0, w.log, Image(w.sys.x));
      last := w.sys;
    }
  }

  lemma MountedHasChunks(c: Site, w: seq<Prog>, st: State, d: L.Disk)
    requires Layout(c.lg, c.job.g, |c.job.st0.inodes|) && Shows(c.lg, c.job.g, d, st) && HasChunks(c.job, w, st)
    ensures HasChunks(c.job, w, Mounted(c.job.g, d, |c.job.st0.inodes|))
  {
    hide Inv, Mounted, Content, Written, Shows, Layout, Chunks, Unwritten;
    var m := Mounted(c.job.g, d, |c.job.st0.inodes|);
    MountedIs(c.lg, c.job.g, d, st);
    forall i {:trigger w[i]} | 0 <= i < |w|
      ensures FileHas(c.job.st0, m, c.job.writers[i], w[i].k)
    {
      assert FileHas(c.job.st0, st, c.job.writers[i], w[i].k);
    }
    forall ino | 0 <= ino < |c.job.st0.inodes| && Unwritten(c.job, ino)
      ensures SameFile(c.job.st0, m, ino)
    {
      assert SameFile(c.job.st0, st, ino);
    }
  }

  lemma SiteLayout(c: Site)
    requires SiteOk(c)
    ensures Layout(c.lg, c.job.g, |c.job.st0.inodes|) && L.ValidGeometry(c.lg) && JobOk(c.job)
  {
  }

  lemma KeptLog(c: Site, w: World, snap: Sys)
    requires L.ValidGeometry(c.lg) && Kept(c, w, snap)
    ensures S.Inv(c.lg, c.d0, w.log)
  {
  }

  /** Writers survive: any number of processes write different files, chunk by chunk,
      their actions interleaved in any order and their transactions sharing groups, and
      at any step the machine may crash, once or again during recovery. What is mounted
      after recovery is consistent, every file has a whole number of its own chunks, and
      files that nobody writes are untouched. No file has more chunks than were
      finished; and once every end_op has returned it has all of them. */
  lemma WritersSurvive(c: Site, w: World, moves: seq<Move>, w': World) returns (snap: Sys)
    requires SiteOk(c) && L.ValidGeometry(c.lg) && Init(c, w) && Run(c, w, moves, w')
    ensures Behind(snap.w, w'.sys.w) && (w'.alive && FileCrash.AtRest(w'.log) ==> snap == w'.sys)
    ensures |w'.log.disk| == c.lg.blocks && L.Fits(c.lg, w'.log.disk, L.DecodeHeader(w'.log.disk[c.lg.start]))
    ensures HasChunks(c.job, snap.w, Mounted(c.job.g, L.Recover(c.lg, w'.log.disk), |c.job.st0.inodes|))
  {
    hide *;
    SiteLayout(c);
    KeptInit(c, w);
    snap := KeptRun(c, w, w.sys, moves, w');
    KeptLog(c, w', snap);
    snap := KeptMeans(c, w', snap);
    QuietHas(c.job, snap);
    GoodInodes(c.job, snap);
    ImageIs(snap.x);
    FileCrash.RecoveredShows(c.lg, c.job.g, c.d0, w'.log, Image(snap.x));
    MountedHasChunks(c, snap.w, snap.x.st, L.Recover(c.lg, w'.log.disk));
  }

  lemma ImageIs(x: Files)
    ensures |Image(x).inodes| == |x.dinodes| && (x.dinodes == x.st.inodes ==> Image(x) == x.st)
  {
  }
}
