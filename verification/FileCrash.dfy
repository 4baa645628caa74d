/** filewrite on top of the log. One process writes a file part by part, each part
    a transaction; others may read. Whatever step a crash comes at, the recovered
    disk holds a consistent file system in which the file has a whole number of the
    parts, and every part that was finished. */
module FileCrash {
  import opened InodeState
  import opened InodeSteps
  import opened FileCode
  import opened ImageMount
  import L = LogLayout
  import P = LogProtocol
  import S = LogSafety

  // What a list of edits does to a block.

  datatype Found = None | Some(data: L.Block)

  function Final(es: seq<P.Edit>, b: int): Found {
    if es == [] then None
    else if es[|es| - 1].blockno == b then Some(es[|es| - 1].data)
    else Final(es[..|es| - 1], b)
  }

  lemma {:induction false} AppliedAt(d: L.Disk, es: seq<P.Edit>, b: int)
    requires 0 <= b < |d|
    ensures P.ApplyEdits(d, es)[b] == if Final(es, b).Some? then Final(es, b).data else d[b]
  {
    if es != [] {
      AppliedAt(d, es[..|es| - 1], b);
    }
  }

  /** The edits are to the blocks that the part logged, and leave them as the part
      did. */
  ghost predicate Carries(g: Super, es: seq<P.Edit>, p: Part) {
    forall b :: g.inodestart <= b ==>
      && (Final(es, b).Some? <==> b in p.logged)
      && (Final(es, b).Some? ==> ShowsAt(g, Final(es, b).data, p.st, b))
  }

  /** A block that was not logged shows the same before and after. */
  lemma NotLogged(g: Super, w: L.Block, prev: State, p: Part, ino: int, b: int)
    requires Logged(g, prev, p.st, ino, p.logged) && ShowsAt(g, w, prev, b) && b !in p.logged
    ensures ShowsAt(g, w, p.st, b)
  {
    if InodeBlock(g, |prev.inodes|, b) {
      forall i {:trigger p.st.inodes[i]} | 0 <= i < |p.st.inodes| && g.inodestart + i / IPB == b
        ensures Dinode(Unpack(w), i % IPB) == p.st.inodes[i]
      {
        assert p.st.inodes[i] == prev.inodes[i];
      }
    }
  }

  lemma EditsShow(lg: L.Geometry, g: Super, d: L.Disk, es: seq<P.Edit>, prev: State, p: Part, ino: int)
    requires Shows(lg, g, d, prev) && Logged(g, prev, p.st, ino, p.logged) && Carries(g, es, p)
    ensures Shows(lg, g, P.ApplyEdits(d, es), p.st)
  {
    hide ShowsAt, P.ApplyEdits, Final;
    var d' := P.ApplyEdits(d, es);
    forall b {:trigger d'[b]} | g.inodestart <= b < lg.blocks && 0 <= b
      ensures ShowsAt(g, d'[b], p.st, b)
    {
      AppliedAt(d, es, b);
      if Final(es, b).None? {
        NotLogged(g, d[b], prev, p, ino, b);
      }
    }
  }

  // Runs.

  /** A filewrite of src to file ino of st0 at offset off, in the given parts, on a
      disk that is d0 at first. */
  datatype Job = Job(lg: L.Geometry, g: Super, d0: L.Disk, st0: State, ino: int, off: int, src: seq<int>, parts: seq<Part>)

  ghost predicate Sound(j: Job) {
    && Layout(j.lg, j.g, |j.st0.inodes|) && Shows(j.lg, j.g, j.d0, j.st0)
    && Inv(j.g, j.st0, {}) && 0 <= j.ino < |j.st0.inodes| && 0 <= j.off
    && PartsOk(j.g, j.ino, j.st0, j.off, j.src, j.parts)
  }

  /** The file system after the first k parts. */
  ghost function After(j: Job, k: nat): State
    requires k <= |j.parts|
  {
    Before(j.st0, j.parts, k)
  }

  /** What the writing process does with the log: it begins part n when it has ended
      the one before, and by the end of a part it has made that part's edits. The
      process does not outlive a crash. Everything else may happen at any time. */
  ghost predicate Obeys(j: Job, s: P.State, n: nat, alive: bool, t: P.Step) {
    match t
    case Begin(o) => alive && s.ops == [] && o == n < |j.parts|
    case End(o) => 0 <= o < |j.parts| && o in s.issued && Carries(j.g, s.issued[o], j.parts[o])
    case _ => true
  }

  ghost predicate WriterRun(j: Job, s: P.State, n: nat, alive: bool, steps: seq<P.Step>, s': P.State)
    requires L.ValidGeometry(j.lg)
    decreases |steps|
  {
    if steps == [] then s == s'
    else
      && P.Enabled(j.lg, s, steps[0]) && Obeys(j, s, n, alive, steps[0])
      && WriterRun(j, P.Apply(j.lg, s, steps[0]), if steps[0].Begin? then n + 1 else n,
                   alive && !steps[0].Crash?, steps[1..], s')
  }

  /** The parts that a run begins. */
  function Begins(steps: seq<P.Step>): nat {
    if steps == [] then 0 else (if steps[0].Begin? then 1 else 0) + Begins(steps[1..])
  }

  /** No call is running and the log is idle: the last end_op has returned. */
  predicate AtRest(s: P.State) {
    s.mode == P.Running && s.ops == []
  }

  /** How far a run is: n parts have begun, and the disk would recover to the first k of
      them. While part n - 1 runs, base is the image that it began with. */
  datatype Point = Point(n: nat, alive: bool, k: nat, base: L.Disk)

  ghost predicate Kept(j: Job, s: P.State, w: Point)
    requires L.ValidGeometry(j.lg)
  {
    && S.Inv(j.lg, j.d0, s) && w.k <= w.n <= |j.parts| && w.n <= w.k + 1
    && Shows(j.lg, j.g, S.Durable(j.d0, s), After(j, w.k))
    && (AtRest(s) ==> s.lh == [])
    && if !w.alive then s.ops == [] && s.current == [] && s.mode != P.Committing
       else if s.ops == [] then Shows(j.lg, j.g, S.Latest(j.d0, s), After(j, w.n))
       else
         && |s.ops| == 1 && w.n > 0 && w.k == w.n - 1 && s.ops[0].id == w.n - 1 && w.n - 1 in s.issued
         && Shows(j.lg, j.g, w.base, After(j, w.k))
         && S.Latest(j.d0, s) == P.ApplyEdits(w.base, s.issued[w.n - 1])
  }

  /** At rest the disk has everything. */
  lemma RestIsDurable(lg: L.Geometry, d0: L.Disk, s: P.State, b: int)
    requires L.ValidGeometry(lg) && S.Inv(lg, d0, s) && AtRest(s) && s.lh == [] && L.Home(lg, b)
    ensures S.Durable(d0, s)[b] == S.Latest(d0, s)[b]
  {
    hide S.Durable, S.Latest;
    assert P.View(s, b) == S.Latest(d0, s)[b];
    assert !S.Unlogged(s, b);
  }

  lemma RestShows(lg: L.Geometry, g: Super, d0: L.Disk, s: P.State, st: State)
    requires Layout(lg, g, |st.inodes|) && S.Inv(lg, d0, s) && AtRest(s) && s.lh == []
    requires Shows(lg, g, S.Latest(d0, s), st)
    ensures Shows(lg, g, S.Durable(d0, s), st)
  {
    hide S.Inv, ShowsAt;
    var d, l := S.Durable(d0, s), S.Latest(d0, s);
    forall b {:trigger d[b]} | g.inodestart <= b < lg.blocks && 0 <= b
      ensures ShowsAt(g, d[b], st, b)
    {
      RestIsDurable(lg, d0, s, b);
    }
  }

  // One step.

  /** What a step does to the durable image and to the latest one. */
  lemma StepImages(lg: L.Geometry, d0: L.Disk, s: P.State, t: P.Step)
    requires L.ValidGeometry(lg) && S.Inv(lg, d0, s) && P.Enabled(lg, s, t)
    ensures var s' := P.Apply(lg, s, t);
            && S.Inv(lg, d0, s')
            && S.Durable(d0, s') == (if t.WriteNext? && s.phase.Head? then S.Latest(d0, s) else S.Durable(d0, s))
            && (!t.Modify? && !t.Crash? ==> S.Latest(d0, s') == S.Latest(d0, s))
            && (t.Modify? ==> 0 <= t.blockno < |d0| && S.Latest(d0, s') == S.Latest(d0, s)[t.blockno := t.data])
  {
    hide S.Holds, S.Progress, S.Durable, S.Latest;
    S.StepKeepsInv(lg, d0, s, t);
    S.ImagesAfter(lg, d0, s, t);
  }

  lemma KeptBegin(j: Job, s: P.State, w: Point)
    requires Layout(j.lg, j.g, |j.st0.inodes|) && Kept(j, s, w) && w.alive && w.n < |j.parts|
    requires s.ops == [] && P.Enabled(j.lg, s, P.Begin(w.n)) && |After(j, w.n).inodes| == |j.st0.inodes|
    ensures Kept(j, P.DoBegin(s, w.n), Point(w.n + 1, true, w.n, S.Latest(j.d0, s)))
  {
    hide Shows, S.Inv, S.Latest, S.Durable, After;
    StepImages(j.lg, j.d0, s, P.Begin(w.n));
    RestShows(j.lg, j.g, j.d0, s, After(j, w.n));
  }

  /** The one call that runs. */
  lemma TheCall(s: P.State, o: int)
    requires |s.ops| <= 1 && P.Find(s.ops, o) >= 0
    ensures |s.ops| == 1 && s.ops[0].id == o && P.Find(s.ops, o) == 0
  {
  }

  lemma EditsMore(d: L.Disk, es: seq<P.Edit>, e: P.Edit)
    requires 0 <= e.blockno < |d|
    ensures P.ApplyEdits(d, es + [e]) == P.ApplyEdits(d, es)[e.blockno := e.data]
  {
    assert (es + [e])[..|es|] == es;
  }

  lemma SameSize(j: Job, s: P.State, base: L.Disk, st: State)
    requires L.ValidGeometry(j.lg) && S.Inv(j.lg, j.d0, s) && Shows(j.lg, j.g, base, st)
    ensures |base| == |j.d0|
  {
  }

  lemma KeptModify(j: Job, s: P.State, w: Point, t: P.Step)
    requires L.ValidGeometry(j.lg) && Kept(j, s, w) && t.Modify? && P.Enabled(j.lg, s, t)
    ensures Kept(j, P.Apply(j.lg, s, t), w)
  {
    hide Shows, S.Inv, S.Latest, S.Durable, After, P.ApplyEdits;
    StepImages(j.lg, j.d0, s, t);
    TheCall(s, t.op);
    SameSize(j, s, w.base, After(j, w.k));
    EditsMore(w.base, s.issued[w.n - 1], P.Edit(t.op, t.blockno, t.data));
  }

  lemma KeptLogWrite(j: Job, s: P.State, w: Point, t: P.Step)
    requires L.ValidGeometry(j.lg) && Kept(j, s, w) && t.LogWrite? && P.Enabled(j.lg, s, t)
    ensures Kept(j, P.Apply(j.lg, s, t), w)
  {
    hide Shows, S.Inv, S.Latest, S.Durable, After, P.ApplyEdits;
    StepImages(j.lg, j.d0, s, t);
    TheCall(s, t.op);
  }

  lemma KeptEnd(j: Job, s: P.State, w: Point, t: P.Step)
    requires L.ValidGeometry(j.lg) && Kept(j, s, w) && t.End? && P.Enabled(j.lg, s, t)
    requires Obeys(j, s, w.n, w.alive, t) && Logged(j.g, After(j, t.op), j.parts[t.op].st, j.ino, j.parts[t.op].logged)
    ensures Kept(j, P.Apply(j.lg, s, t), w)
  {
    hide Shows, S.Inv, S.Latest, S.Durable, P.ApplyEdits, Carries, Logged;
    StepImages(j.lg, j.d0, s, t);
    TheCall(s, t.op);
    EditsShow(j.lg, j.g, w.base, s.issued[w.n - 1], After(j, w.k), j.parts[w.n - 1], j.ino);
  }

  /** What the log's invariant says of a block write. */
  lemma WritePhase(lg: L.Geometry, d0: L.Disk, s: P.State)
    requires L.ValidGeometry(lg) && S.Inv(lg, d0, s) && P.WriteReady(lg, s)
    ensures s.ops == [] && (s.mode == P.Recovering ==> !s.phase.Head?)
  {
    hide S.Holds, S.Progress, S.CacheOk;
  }

  /** The header write makes all parts so far durable. */
  lemma KeptWrite(j: Job, s: P.State, w: Point)
    requires L.ValidGeometry(j.lg) && Kept(j, s, w) && P.Enabled(j.lg, s, P.WriteNext)
    ensures Kept(j, P.DoWrite(j.lg, s), if s.phase.Head? then w.(k := w.n) else w)
  {
    hide Shows, S.Inv, S.Latest, S.Durable, After, P.ApplyEdits, P.NextWrite;
    StepImages(j.lg, j.d0, s, P.WriteNext);
    WritePhase(j.lg, j.d0, s);
  }

  lemma KeptCrash(j: Job, s: P.State, w: Point)
    requires L.ValidGeometry(j.lg) && Kept(j, s, w) && P.Enabled(j.lg, s, P.Crash)
    ensures Kept(j, P.DoCrash(s), w.(alive := false))
  {
    hide Shows, S.Inv, S.Latest, S.Durable, After, P.ApplyEdits;
    StepImages(j.lg, j.d0, s, P.Crash);
  }

  /** Readers, evictions and booting. */
  lemma KeptOther(j: Job, s: P.State, w: Point, t: P.Step)
    requires L.ValidGeometry(j.lg) && Kept(j, s, w) && P.Enabled(j.lg, s, t)
    requires t.Bread? || t.Brelse? || t.Evict? || t.Boot?
    ensures Kept(j, P.Apply(j.lg, s, t), w)
  {
    hide Shows, S.Inv, S.Latest, S.Durable, After, P.ApplyEdits, L.DecodeHeader;
    StepImages(j.lg, j.d0, s, t);
  }

  lemma PartFacts(j: Job, i: nat)
    requires Sound(j) && i < |j.parts|
    ensures PartOk(j.g, j.ino, j.st0, j.off, j.src, i, After(j, i), j.parts[i])
    ensures |j.parts[i].st.inodes| == |j.st0.inodes| && Logged(j.g, After(j, i), j.parts[i].st, j.ino, j.parts[i].logged)
  {
  }

  lemma AfterInodes(j: Job, k: nat)
    requires Sound(j) && k <= |j.parts|
    ensures |After(j, k).inodes| == |j.st0.inodes|
  {
    hide Sound;
    if k > 0 {
      PartFacts(j, k - 1);
    }
  }

  lemma Facts(j: Job)
    requires Sound(j)
    ensures Layout(j.lg, j.g, |j.st0.inodes|) && L.ValidGeometry(j.lg)
  {
  }

  lemma KeptStep(j: Job, s: P.State, w: Point, t: P.Step) returns (w': Point)
    requires Sound(j) && Kept(j, s, w) && P.Enabled(j.lg, s, t) && Obeys(j, s, w.n, w.alive, t)
    ensures Kept(j, P.Apply(j.lg, s, t), w')
    ensures w'.n == (if t.Begin? then w.n + 1 else w.n) && w'.alive == (w.alive && !t.Crash?)
  {
    hide Sound, Kept, Logged, Carries, P.Enabled, After, Layout, PartOk;
    Facts(j);
    w' := w;
    match t
    case Begin(o) =>
      AfterInodes(j, w.n);
      KeptBegin(j, s, w);
      w' := Point(w.n + 1, true, w.n, S.Latest(j.d0, s));
    case Modify(_, _, _) => KeptModify(j, s, w, t);
    case LogWrite(_, _) => KeptLogWrite(j, s, w, t);
    case End(o) =>
      PartFacts(j, o);
      KeptEnd(j, s, w, t);
    case WriteNext =>
      KeptWrite(j, s, w);
      w' := if s.phase.Head? then w.(k := w.n) else w;
    case Crash =>
      KeptCrash(j, s, w);
      w' := w.(alive := false);
    case _ => KeptOther(j, s, w, t);
  }

  // Whole runs.

  predicate NoCrash(steps: seq<P.Step>) {
    forall i :: 0 <= i < |steps| ==> !steps[i].Crash?
  }

  lemma NoCrashTail(steps: seq<P.Step>)
    ensures steps == [] ==> NoCrash(steps)
    ensures steps != [] ==> (NoCrash(steps) <==> !steps[0].Crash? && NoCrash(steps[1..]))
  {
    if steps != [] && !steps[0].Crash? && NoCrash(steps[1..]) {
      forall i | 0 <= i < |steps|
        ensures !steps[i].Crash?
      {
        assert i > 0 ==> steps[i] == steps[1..][i - 1];
      }
    }
  }

  lemma {:induction false} KeptRun(j: Job, s: P.State, w: Point, steps: seq<P.Step>, s': P.State) returns (w': Point)
    requires Sound(j) && Kept(j, s, w) && WriterRun(j, s, w.n, w.alive, steps, s')
    ensures Kept(j, s', w') && w'.n == w.n + Begins(steps) && w'.alive == (w.alive && NoCrash(steps))
    decreases |steps|
  {
    hide Sound, Kept, Obeys, P.Enabled, P.Apply, NoCrash;
    Facts(j);
    NoCrashTail(steps);
    w' := w;
    if steps != [] {
      w' := KeptStep(j, s, w, steps[0]);
      w' := KeptRun(j, P.Apply(j.lg, s, steps[0]), w', steps[1..], s');
    }
  }

  lemma KeptInit(j: Job, s: P.State)
    requires Sound(j) && P.Init(j.lg, j.d0, s)
    ensures Kept(j, s, Point(0, true, 0, j.d0))
  {
    hide Shows, Inv, PartsOk;
    S.InitInv(j.lg, j.d0, s);
  }

  /** Where the invariant leads: the durable image, and at rest all parts are in it. */
  lemma KeptMeans(j: Job, s: P.State, w: Point)
    requires Layout(j.lg, j.g, |j.st0.inodes|) && Kept(j, s, w)
    ensures S.Inv(j.lg, j.d0, s) && w.k <= w.n <= |j.parts| && w.n <= w.k + 1
    ensures Shows(j.lg, j.g, S.Durable(j.d0, s), After(j, w.k))
    ensures AtRest(s) && w.alive && |After(j, w.n).inodes| == |j.st0.inodes| ==>
              Shows(j.lg, j.g, S.Durable(j.d0, s), After(j, w.n))
  {
    hide Shows, S.Inv, S.Latest, S.Durable, After;
    if AtRest(s) && w.alive && |After(j, w.n).inodes| == |j.st0.inodes| {
      RestShows(j.lg, j.g, j.d0, s, After(j, w.n));
    }
  }

  // What is there after recovery.

  /** How much of the source the first k parts have written. */
  function Upto(parts: seq<Part>, k: nat): int
    requires k <= |parts|
  {
    if k == 0 then 0 else parts[k - 1].upto
  }

  /** m is consistent; its file ino is the old one with k chunks written over it, the
      last of them only if it was not refused; all other files are the old ones. */
  ghost predicate HasParts(j: Job, k: nat, m: State) {
    && k <= |j.parts| && 0 <= Upto(j.parts, k) <= |j.src|
    && (|| Upto(j.parts, k) == Chunks(k, j.src)
        || (k > 0 && Upto(j.parts, k) == (k - 1) * CHUNK && j.parts[k - 1].logged == {}))
    && Inv(j.g, m, {}) && SameOthers(j.st0, m, j.ino)
    && 0 <= j.ino < |j.st0.inodes| == |m.inodes| && m.inodes[j.ino].size >= 0 && j.st0.inodes[j.ino].size >= 0
    && Content(m, j.ino) == Written(Content(j.st0, j.ino), j.off, j.src[..Upto(j.parts, k)])
  }

  lemma AfterHasParts(j: Job, k: nat)
    requires Sound(j) && k <= |j.parts|
    ensures HasParts(j, k, After(j, k))
  {
    hide Sound, Inv, Content, SameOthers, Logged, Chunks, Written;
    if k == 0 {
      AtFirst(j);
    } else {
      PartFacts(j, k - 1);
    }
  }

  lemma AtFirst(j: Job)
    requires Sound(j)
    ensures HasParts(j, 0, j.st0)
  {
    hide Owned, OneOwner, MetaInUse, NoLeak, OrphansOk, Overwrite, Content, SameOthers, PartsOk, Shows;
    SameOthersSelf(j.g, j.st0, j.ino);
    OverwriteNone(Content(j.st0, j.ino), j.off);
  }

  lemma MountedHasParts(j: Job, k: nat, st: State, d: L.Disk)
    requires HasParts(j, k, st) && Layout(j.lg, j.g, |j.st0.inodes|) && Shows(j.lg, j.g, d, st)
    ensures HasParts(j, k, Mounted(j.g, d, |j.st0.inodes|))
  {
    hide Inv, Mounted, Content, Written, Shows, Layout, Chunks;
    var m := Mounted(j.g, d, |j.st0.inodes|);
    MountedIs(j.lg, j.g, d, st);
    forall i | 0 <= i < |j.st0.inodes| && i != j.ino
      ensures SameFile(j.st0, m, i)
    {
      assert SameFile(j.st0, st, i);
    }
  }

  /** The disk after recovery shows what was durable. */
  lemma RecoveredShows(lg: L.Geometry, g: Super, d0: L.Disk, s: P.State, st: State)
    requires Layout(lg, g, |st.inodes|) && S.Inv(lg, d0, s) && Shows(lg, g, S.Durable(d0, s), st)
    ensures |s.disk| == lg.blocks && L.Fits(lg, s.disk, L.DecodeHeader(s.disk[lg.start]))
    ensures Shows(lg, g, L.Recover(lg, s.disk), st)
  {
    hide ShowsAt, L.Recover, L.Fits, L.DecodeHeader, L.GoodHeader, S.Durable, S.Latest, S.CacheOk, S.Progress;
    S.RecoverYields(lg, s.disk, S.Durable(d0, s));
    var d := L.Recover(lg, s.disk);
    forall b {:trigger d[b]} | g.inodestart <= b < lg.blocks && 0 <= b
      ensures ShowsAt(g, d[b], st, b)
    {
      assert L.Home(lg, b);
    }
  }

  /** filewrite survives: a process writes src to a file part by part, and at any step
      the machine may crash, once or again during recovery. What is mounted after
      recovery is a consistent file system in which that file has the first k parts
      and every other file is untouched. k is the number of parts begun or one less;
      and once the last end_op has returned it is all of them. */
  lemma FilewriteSurvives(j: Job, s: P.State, steps: seq<P.Step>, s': P.State) returns (k: nat)
    requires Sound(j) && P.Init(j.lg, j.d0, s) && WriterRun(j, s, 0, true, steps, s')
    ensures k <= Begins(steps) <= k + 1
    ensures NoCrash(steps) && AtRest(s') ==> k == Begins(steps)
    ensures |s'.disk| == j.lg.blocks && L.Fits(j.lg, s'.disk, L.DecodeHeader(s'.disk[j.lg.start]))
    ensures HasParts(j, k, Mounted(j.g, L.Recover(j.lg, s'.disk), |j.st0.inodes|))
  {
    hide *;
    Facts(j);
    KeptInit(j, s);
    var w := KeptRun(j, s, Point(0, true, 0, j.d0), steps, s');
    KeptMeans(j, s', w);
    AfterInodes(j, w.n);
    k := if NoCrash(steps) && AtRest(s') then w.n else w.k;
    AfterInodes(j, k);
    RecoveredShows(j.lg, j.g, j.d0, s', After(j, k));
    AfterHasParts(j, k);
    MountedHasParts(j, k, After(j, k), L.Recover(j.lg, s'.disk));
  }
}
