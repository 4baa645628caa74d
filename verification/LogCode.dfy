/** The code of log.c: loops over an in-memory header, a disk and a buffer cache.
    Every bwrite is one WriteNext step of the protocol, so what is proved about
    all runs of the protocol holds at each of them. */
module LogCode {
  import opened LogLayout
  import opened LogProtocol

  /** k block writes in a row. */
  ghost function Writes(g: Geometry, s: State, k: nat): State {
    if k == 0 then s
    else
      var m := Writes(g, s, k - 1);
      if WriteReady(g, m) then DoWrite(g, m) else m
  }

  lemma WritesNext(g: Geometry, s: State, k: nat)
    requires WriteReady(g, Writes(g, s, k))
    ensures Writes(g, s, k + 1) == DoWrite(g, Writes(g, s, k))
  {
    hide WriteReady, DoWrite;
  }

  lemma WritesNone(g: Geometry, s: State)
    ensures Writes(g, s, 0) == s
  {
  }

  ghost function Repeat(k: nat): (steps: seq<Step>)
    ensures |steps| == k
  {
    if k == 0 then [] else Repeat(k - 1) + [WriteNext]
  }

  /** Block writes that find every buffer free are steps of the protocol. */
  lemma {:induction false} WritesAreSteps(g: Geometry, s: State, k: nat)
    requires ValidGeometry(g) && |s.disk| == g.blocks && s.holds == map[]
    requires forall j {:trigger Writes(g, s, j)} :: 0 <= j < k ==> WriteReady(g, Writes(g, s, j))
    ensures Run(g, s, Repeat(k), Writes(g, s, k))
    ensures |Writes(g, s, k).disk| == g.blocks && Writes(g, s, k).holds == map[]
  {
    if k > 0 {
      WritesAreSteps(g, s, k - 1);
      var m := Writes(g, s, k - 1);
      assert WriteReady(g, m) && Enabled(g, m, WriteNext);
      assert Writes(g, s, k) == Apply(g, m, WriteNext);
      RunSnoc(g, s, Repeat(k - 1), m, WriteNext);
    }
  }

  lemma {:induction false} RunSnoc(g: Geometry, s: State, steps: seq<Step>, m: State, t: Step)
    requires ValidGeometry(g) && Run(g, s, steps, m) && Enabled(g, m, t)
    ensures Run(g, s, steps + [t], Apply(g, m, t))
    decreases |steps|
  {
    if steps == [] {
      assert [t][1..] == [];
    } else {
      RunSnoc(g, Apply(g, s, steps[0]), steps[1..], m, t);
      assert (steps + [t])[1..] == steps[1..] + [t];
    }
  }

  /** What bread(b) returns. */
  ghost function Cached(disk: Disk, cache: map<int, Block>, b: int): Block
    requires 0 <= b < |disk|
  {
    if b in cache then cache[b] else disk[b]
  }

  /** The cache holds what the protocol's cache holds, and the log area as it is
      on the disk. */
  ghost predicate Coherent(g: Geometry, disk: Disk, cache: map<int, Block>, m: State) {
    && |disk| == |m.disk| == g.blocks
    && forall b {:trigger Cached(disk, cache, b)} :: 0 <= b < g.blocks ==>
         Cached(disk, cache, b) == if Home(g, b) then View(m, b) else disk[b]
  }

  lemma CoherentAfterEnd(g: Geometry, disk: Disk, cache: map<int, Block>, m: State, o: OpId)
    requires Coherent(g, disk, cache, m) && Find(m.ops, o) >= 0
    ensures Coherent(g, disk, cache, DoEnd(m, o))
  {
    assert forall b :: 0 <= b < g.blocks ==> View(DoEnd(m, o), b) == View(m, b);
  }

  lemma GoodFits(g: Geometry, d: Disk, lh: seq<int>)
    requires ValidGeometry(g) && |d| == g.blocks && GoodHeader(g, lh)
    ensures Fits(g, d, lh)
  {
  }

  /** struct log, with the disk and the buffer cache it works on. */
  class Log {
    const g: Geometry
    var disk: seq<Block>
    var cache: map<int, Block>
    var dirty: set<int>  // blocks whose buffers have B_DIRTY set
    var n: nat
    var block: array<int>
    var outstanding: nat
    var committing: bool
    ghost var machine: State  // the protocol state this object is in

    ghost predicate Valid()
      reads this, block
    {
      && ValidGeometry(g)
      && block.Length == LOGSIZE && n <= LOGSIZE
      && |disk| == g.blocks && machine.disk == disk && machine.dirty == dirty
      && (machine.lh == block[..n] || (machine.phase.Erase? && n == 0))
      && |machine.ops| == outstanding
      && |disk[g.start].words| == BLOCK_WORDS
      && Coherent(g, disk, cache, machine)
    }

    /** bread: find the block in the cache or read it from the disk. */
    method Bread(b: int) returns (data: Block)
      requires Valid() && 0 <= b < |disk|
      modifies this`cache
      ensures Valid() && data == Cached(disk, old(cache), b)
    {
      if b !in cache {
        cache := cache[b := disk[b]];
      }
      assert forall c {:trigger Cached(disk, cache, c)} :: 0 <= c < |disk| ==>
          Cached(disk, cache, c) == Cached(disk, old(cache), c);
      data := cache[b];
    }

    /** Copy data into the buffer of block b and bwrite it. This is the one place
        where the disk changes, and it is the next write of the protocol. */
    method Bwrite(b: int, data: Block)
      requires Valid() && WriteReady(g, machine) && NextWrite(g, machine) == (b, data)
      requires machine.phase.Erase? ==> n == 0
      requires b == g.start ==> |data.words| == BLOCK_WORDS
      modifies this`cache, this`dirty, this`disk, this`machine
      ensures disk == old(disk)[b := data] && machine == DoWrite(g, old(machine))
      ensures Valid()
    {
      cache := cache[b := data];
      disk := disk[b := data];
      dirty := dirty - {b};
      machine := DoWrite(g, machine);
      assert forall c {:trigger Cached(disk, cache, c)} :: 0 <= c < |disk| && c != b ==>
          Cached(disk, cache, c) == Cached(old(disk), old(cache), c);
    }

    /** write_log: copy the modified blocks from the cache to the log. */
    method WriteLog()
      requires Valid() && machine.mode == Committing && machine.phase == Copy(0)
      requires n > 0 && machine.lh == block[..n] && GoodHeader(g, machine.lh)
      modifies this`cache, this`dirty, this`disk, this`machine
      ensures Valid() && machine == Writes(g, old(machine), n)
      ensures machine.mode == Committing && machine.phase == Head && machine.lh == old(machine.lh)
    {
      hide Writes, Coherent, GoodHeader;
      WritesNone(g, machine);
      var tail := 0;
      while tail < n
        invariant tail <= n && Valid()
        invariant machine == Writes(g, old(machine), tail)
        invariant machine.mode == Committing && machine.lh == old(machine.lh) == block[..n]
        invariant machine.phase == if tail < n then Copy(tail) else Head
      {
        CopyBlock(tail);
        WritesNext(g, old(machine), tail);
        tail := tail + 1;
      }
    }

    /** The body of that loop. */
    method CopyBlock(tail: nat)
      requires Valid() && machine.mode == Committing && machine.phase == Copy(tail) && tail < n
      requires machine.lh == block[..n] && GoodHeader(g, machine.lh)
      modifies this`cache, this`dirty, this`disk, this`machine
      ensures Valid() && WriteReady(g, old(machine)) && machine == DoWrite(g, old(machine))
    {
      assert Home(g, machine.lh[tail]);
      var to := Bread(g.start + 1 + tail);
      var from := Bread(block[tail]);
      Bwrite(g.start + 1 + tail, from);
    }

    /** write_head: put the in-memory header into the header block, word by word. */
    method WriteHead()
      requires Valid() && (machine.phase.Head? || machine.phase.Erase?) && WriteReady(g, machine)
      requires machine.phase.Head? ==> machine.lh == block[..n]
      requires machine.phase.Erase? ==> n == 0
      modifies this`cache, this`dirty, this`disk, this`machine
      ensures Valid() && machine == DoWrite(g, old(machine))
    {
      assert !Home(g, g.start);
      var hb := Bread(g.start);
      assert hb == disk[g.start];
      var words := hb.words[0 := n];
      var i := 0;
      while i < n
        invariant i <= n && |words| == BLOCK_WORDS && words[0] == n
        invariant words[1..1 + i] == block[..i] && words[1 + i..] == hb.words[1 + i..]
      {
        words := words[1 + i := block[i]];
        i := i + 1;
      }
      assert words == [n] + block[..n] + hb.words[1 + n..];
      Bwrite(g.start, Block(words));
    }

    /** install_trans: copy committed blocks from the log to their homes. */
    method InstallTrans()
      requires Valid() && (machine.mode == Committing || machine.mode == Recovering)
      requires machine.phase == if n > 0 then Install(0) else Erase
      requires machine.lh == block[..n] && GoodHeader(g, machine.lh)
      modifies this`cache, this`dirty, this`disk, this`machine
      ensures Valid() && machine == Writes(g, old(machine), n)
      ensures machine.mode == old(machine.mode) && machine.phase == Erase && machine.lh == old(machine.lh)
      ensures disk == InstallFrom(g, old(disk), old(machine.lh), 0)
    {
      hide Writes, Coherent, GoodHeader;
      WritesNone(g, machine);
      GoodFits(g, disk, machine.lh);
      var tail := 0;
      ghost var lh, d0 := machine.lh, disk;
      while tail < n
        invariant tail <= n && Valid()
        invariant machine == Writes(g, old(machine), tail)
        invariant machine.mode == old(machine.mode) && machine.lh == lh == block[..n]
        invariant machine.phase == if tail < n then Install(tail) else Erase
        invariant Fits(g, disk, lh) && InstallFrom(g, disk, lh, tail) == InstallFrom(g, d0, lh, 0)
      {
        InstallBlock(tail);
        WritesNext(g, old(machine), tail);
        tail := tail + 1;
      }
    }

    /** The body of that loop. */
    method InstallBlock(tail: nat)
      requires Valid() && (machine.mode == Committing || machine.mode == Recovering) && machine.phase == Install(tail)
      requires tail < n && machine.lh == block[..n] && GoodHeader(g, machine.lh) && g.start + 1 + tail < |disk|
      modifies this`cache, this`dirty, this`disk, this`machine
      ensures Valid() && WriteReady(g, old(machine)) && machine == DoWrite(g, old(machine))
      ensures 0 <= block[tail] < |old(disk)| && disk == old(disk)[block[tail] := old(disk)[g.start + 1 + tail]]
    {
      assert Home(g, machine.lh[tail]) && !Home(g, g.start + 1 + tail);
      var lbuf := Bread(g.start + 1 + tail);
      var dbuf := Bread(block[tail]);
      Bwrite(block[tail], lbuf);
    }

    /** commit: 2n + 2 block writes, or none. */
    method Commit()
      requires Valid() && (n > 0 ==> machine.mode == Committing && machine.phase == Copy(0))
      requires machine.lh == block[..n] && GoodHeader(g, machine.lh)
      modifies this`cache, this`dirty, this`disk, this`machine, this`n
      ensures Valid() && n == 0 && machine.lh == []
      ensures machine == Writes(g, old(machine), if old(n) > 0 then 2 * old(n) + 2 else 0)
      ensures old(n) > 0 ==> machine.mode == Running && machine.phase == Idle
    {
      hide Writes, Coherent, GoodHeader;
      WritesNone(g, machine);
      if n > 0 {
        ghost var m0, k := machine, n;
        WriteLog();
        WriteHead();
        WritesNext(g, m0, k);
        InstallTrans();
        WritesAdd(g, m0, k + 1, k);
        n := 0;
        WriteHead();
        WritesNext(g, m0, 2 * k + 1);
      }
    }

    /** read_head: copy the header block into the in-memory header. */
    method ReadHead()
      requires Valid() && machine.mode == Down && machine.lh == [] && n == 0
      requires disk[g.start].words[0] == |DecodeHeader(disk[g.start])| && GoodHeader(g, DecodeHeader(disk[g.start]))
      modifies this`cache, this`n, this`machine, block
      ensures Valid() && disk == old(disk)
      ensures machine == DoBoot(old(machine), DecodeHeader(old(disk)[g.start])) && machine.lh == block[..n]
    {
      assert !Home(g, g.start);
      var lh := Bread(g.start);
      ghost var header := DecodeHeader(disk[g.start]);
      n := lh.words[0];
      var i := 0;
      while i < n
        invariant 0 <= i <= n == |header| && block[..i] == header[..i]
        invariant machine == old(machine) && disk == old(disk) && lh == disk[g.start]
        invariant Coherent(g, disk, cache, machine)
        modifies block
      {
        block[i] := lh.words[1 + i];
        i := i + 1;
      }
      machine := DoBoot(machine, header);
    }

    /** recover_from_log: afterwards the disk is what Recover says, and every disk on
        the way was one of the protocol's. */
    method RecoverFromLog()
      requires Valid() && machine.mode == Down && machine.lh == [] && n == 0
      requires disk[g.start].words[0] == |DecodeHeader(disk[g.start])| && GoodHeader(g, DecodeHeader(disk[g.start]))
      modifies this`cache, this`dirty, this`disk, this`n, this`machine, block
      ensures Valid() && n == 0 && machine.mode == Running && machine.lh == []
      ensures Fits(g, old(disk), DecodeHeader(old(disk)[g.start])) && disk == Recover(g, old(disk))
      ensures var h := DecodeHeader(old(disk)[g.start]);
              machine == Writes(g, DoBoot(old(machine), h), |h| + 1)
    {
      ReadHead();
      InstallTrans();
      n := 0;
      WriteHead();
    }

    /** One pass of begin_op's loop: admit the caller, or tell it to sleep. */
    method BeginOp(ghost o: OpId) returns (admitted: bool)
      requires Valid() && machine.mode == (if committing then Committing else Running)
      requires !committing ==> machine.phase == Idle
      modifies this`outstanding, this`machine
      ensures Valid()
      ensures admitted <==> Admits(old(machine)) && !committing
      ensures machine == if admitted then DoBegin(old(machine), o) else old(machine)
    {
      if committing {
        admitted := false;
      } else if n + (outstanding + 1) * MAXOPBLOCKS > LOGSIZE {
        admitted := false;
      } else {
        outstanding := outstanding + 1;
        machine := DoBegin(machine, o);
        admitted := true;
      }
    }

    /** log_write: absorb or append the block number; `ok` is false where the code
        panics, and then nothing changes. */
    method LogWrite(ghost o: OpId, b: int) returns (ok: bool)
      requires Valid() && machine.mode == Running && machine.phase == Idle && HeldByOp(machine, o, b)
      modifies this`n, this`dirty, this`machine, block
      ensures Valid() && ok == !LogWritePanics(g, old(machine))
      ensures machine == if ok then DoLogWrite(old(machine), o, b) else old(machine)
      ensures ok ==> b in dirty && b in block[..n] && (n == old(n) <==> b in old(block[..n]))
    {
      if n >= LOGSIZE || n >= g.size - 1 || outstanding < 1 {
        ok := false;
        return;
      }
      var i := 0;
      while i < n && block[i] != b
        invariant 0 <= i <= n && forall k :: 0 <= k < i ==> block[k] != b
      {
        i := i + 1;
      }
      ghost var before := block[..n];
      assert b in machine.lh <==> i < n;
      block[i] := b;
      if i == n {
        n := n + 1;
        assert block[..n] == before + [b];
      } else {
        assert block[..n] == before;
      }
      dirty := dirty + {b};
      machine := DoLogWrite(machine, o, b);
      ok := true;
    }

    /** end_op: the last one out commits. */
    method EndOp(ghost o: OpId)
      requires Valid() && machine.mode == Running && machine.phase == Idle && !committing && Find(machine.ops, o) >= 0
      requires GoodHeader(g, machine.lh)
      modifies this`cache, this`dirty, this`disk, this`n, this`outstanding, this`committing, this`machine
      ensures Valid() && !committing && machine.mode == Running && machine.phase == Idle
      ensures machine == Writes(g, DoEnd(old(machine), o),
                                if old(outstanding) == 1 && old(n) > 0 then 2 * old(n) + 2 else 0)
    {
      hide Writes, Coherent, GoodHeader;
      ghost var ended := DoEnd(machine, o);
      CoherentAfterEnd(g, disk, cache, machine, o);
      WritesNone(g, ended);
      var doCommit := false;
      outstanding := outstanding - 1;
      if outstanding == 0 {
        doCommit := true;
        committing := true;
      }
      machine := ended;
      if doCommit {
        Commit();
        committing := false;
      }
    }
  }

  lemma {:induction false} WritesAdd(g: Geometry, s: State, j: nat, k: nat)
    ensures Writes(g, Writes(g, s, j), k) == Writes(g, s, j + k)
  {
    hide WriteReady, DoWrite;
    if k > 0 {
      WritesAdd(g, s, j, k - 1);
    }
  }
}
