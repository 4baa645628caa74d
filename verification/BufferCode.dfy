/** bio.c as it is written: buffers in an array, a doubly linked ring through next and
    prev, loops that walk it. Each method is one step of the machine. */
module BufferCode {
  import opened BufferMachine
  import opened BufferSafety

  /** The index that stands for bcache.head. */
  const HEAD := NBUF

  function At(ring: seq<int>, a: int): int {
    if 0 <= a < |ring| then ring[a] else HEAD
  }

  ghost predicate Spread(ring: seq<int>) {
    && (forall a :: 0 <= a < |ring| ==> 0 <= ring[a] < NBUF)
    && (forall a, b :: 0 <= a < b < |ring| ==> ring[a] != ring[b])
  }

  /** next and prev lead around the ring, from the head and back to it. */
  ghost predicate Linked(next: seq<int>, prev: seq<int>, ring: seq<int>) {
    && |next| == |prev| == NBUF + 1 && Spread(ring)
    && next[HEAD] == At(ring, 0) && prev[HEAD] == At(ring, |ring| - 1)
    && (forall a {:trigger next[ring[a]]} :: 0 <= a < |ring| ==> next[ring[a]] == At(ring, a + 1))
    && (forall a {:trigger prev[ring[a]]} :: 0 <= a < |ring| ==> prev[ring[a]] == At(ring, a - 1))
  }

  function Removed(ring: seq<int>, p: nat): seq<int>
    requires p < |ring|
  {
    ring[..p] + ring[p + 1..]
  }

  lemma RemovedAt(ring: seq<int>, p: nat, a: int)
    requires p < |ring|
    ensures At(Removed(ring, p), a) == At(ring, if a < p then a else a + 1)
  {
  }

  lemma RemovedSpread(ring: seq<int>, p: nat)
    requires Spread(ring) && p < |ring|
    ensures Spread(Removed(ring, p))
    ensures ring[p] !in Removed(ring, p)
  {
  }

  lemma UnlinkNextAt(next: seq<int>, prev: seq<int>, ring: seq<int>, p: nat, a: int)
    requires Linked(next, prev, ring) && p < |ring| && 0 <= a < |ring| && a != p
    ensures 0 <= prev[ring[p]] <= NBUF
    ensures next[prev[ring[p]] := next[ring[p]]][ring[a]] == At(ring, if a + 1 == p then a + 2 else a + 1)
  {
    assert prev[ring[p]] == At(ring, p - 1);
    assert next[ring[p]] == At(ring, p + 1) && next[ring[a]] == At(ring, a + 1);
  }

  lemma UnlinkPrevAt(next: seq<int>, prev: seq<int>, ring: seq<int>, p: nat, a: int)
    requires Linked(next, prev, ring) && p < |ring| && 0 <= a < |ring| && a != p
    ensures 0 <= next[ring[p]] <= NBUF
    ensures prev[next[ring[p]] := prev[ring[p]]][ring[a]] == At(ring, if a - 1 == p then a - 2 else a - 1)
  {
    assert next[ring[p]] == At(ring, p + 1);
    assert prev[ring[p]] == At(ring, p - 1) && prev[ring[a]] == At(ring, a - 1);
  }

  /** Taking a buffer out by joining its neighbours. */
  lemma UnlinkKeepsRing(next: seq<int>, prev: seq<int>, ring: seq<int>, p: nat)
    requires Linked(next, prev, ring) && p < |ring|
    ensures var i := ring[p];
            && 0 <= next[i] <= NBUF && 0 <= prev[i] <= NBUF
            && Linked(next[prev[i] := next[i]], prev[next[i] := prev[i]], Removed(ring, p))
  {
    hide Spread;
    var i := ring[p];
    RingBounds(next, prev, ring, p);
    var next', prev', ring' := next[prev[i] := next[i]], prev[next[i] := prev[i]], Removed(ring, p);
    RemovedSpread(ring, p);
    UnlinkHead(next, prev, ring, p);
    forall a {:trigger next'[ring'[a]]} | 0 <= a < |ring'|
      ensures next'[ring'[a]] == At(ring', a + 1)
    {
      RemovedAt(ring, p, a);
      RemovedAt(ring, p, a + 1);
      UnlinkNextAt(next, prev, ring, p, if a < p then a else a + 1);
    }
    forall a {:trigger prev'[ring'[a]]} | 0 <= a < |ring'|
      ensures prev'[ring'[a]] == At(ring', a - 1)
    {
      RemovedAt(ring, p, a);
      RemovedAt(ring, p, a - 1);
      UnlinkPrevAt(next, prev, ring, p, if a < p then a else a + 1);
    }
  }

  lemma UnlinkHead(next: seq<int>, prev: seq<int>, ring: seq<int>, p: nat)
    requires Linked(next, prev, ring) && p < |ring|
    ensures 0 <= next[ring[p]] <= NBUF && 0 <= prev[ring[p]] <= NBUF
    ensures next[prev[ring[p]] := next[ring[p]]][HEAD] == At(Removed(ring, p), 0)
    ensures prev[next[ring[p]] := prev[ring[p]]][HEAD] == At(Removed(ring, p), |ring| - 2)
  {
    assert next[ring[p]] == At(ring, p + 1) && prev[ring[p]] == At(ring, p - 1);
    RemovedAt(ring, p, 0);
    RemovedAt(ring, p, |ring| - 2);
  }

  lemma RingBounds(next: seq<int>, prev: seq<int>, ring: seq<int>, p: nat)
    requires Linked(next, prev, ring) && p < |ring|
    ensures 0 <= ring[p] < NBUF && |next| == |prev| == NBUF + 1
    ensures 0 <= next[ring[p]] <= NBUF && 0 <= prev[ring[p]] <= NBUF
    ensures next[ring[p]] != ring[p] && prev[ring[p]] != ring[p]
    ensures ring[p] !in Removed(ring, p)
  {
    RemovedSpread(ring, p);
  }

  function NextPushed(next: seq<int>, i: int): seq<int>
    requires |next| == NBUF + 1 && 0 <= i < NBUF
  {
    next[i := next[HEAD]][HEAD := i]
  }

  function PrevPushed(next: seq<int>, prev: seq<int>, i: int): seq<int>
    requires |next| == |prev| == NBUF + 1 && 0 <= i < NBUF && 0 <= next[HEAD] <= NBUF
  {
    prev[i := HEAD][next[HEAD] := i]
  }

  /** Putting a buffer in right after the head. */
  lemma PushKeepsRing(next: seq<int>, prev: seq<int>, ring: seq<int>, i: int)
    requires Linked(next, prev, ring) && 0 <= i < NBUF && i !in ring
    ensures 0 <= next[HEAD] <= NBUF
    ensures Linked(NextPushed(next, i), PrevPushed(next, prev, i), [i] + ring)
  {
    var next', prev', ring' := NextPushed(next, i), PrevPushed(next, prev, i), [i] + ring;
    forall a {:trigger next'[ring'[a]]} | 0 <= a < |ring'|
      ensures next'[ring'[a]] == At(ring', a + 1)
    {
      if a > 0 {
        assert ring'[a] == ring[a - 1] && next[ring[a - 1]] == At(ring, a);
      }
    }
    forall a {:trigger prev'[ring'[a]]} | 0 <= a < |ring'|
      ensures prev'[ring'[a]] == At(ring', a - 1)
    {
      if a > 0 {
        assert ring'[a] == ring[a - 1] && prev[ring[a - 1]] == At(ring, a - 2);
      }
    }
  }

  class Bcache {
    const buf: array<Buf>
    const next: array<int>
    const prev: array<int>
    var disk: map<Key, Data>
    ghost var machine: Cache

    ghost predicate Valid()
      reads this, buf, next, prev
    {
      && buf.Length == NBUF && next.Length == prev.Length == NBUF + 1 && next != prev
      && Inv(machine) && machine.bufs == buf[..] && machine.disk == disk
      && Linked(next[..], prev[..], machine.ring)
    }

    /** binit. */
    constructor (image: map<Key, Data>)
      ensures Valid() && machine == Booted(image)
    {
      buf := new Buf[NBUF](i => Buf(Key(0, 0), 0, false, false, false, Data([])));
      next := new int[NBUF + 1](i => HEAD);
      prev := new int[NBUF + 1](i => HEAD);
      disk := image;
      machine := Booted(image);
      new;
      BootInv(image);
      ghost var ring: seq<int> := [];
      var b := 0;
      while b < NBUF
        invariant 0 <= b <= NBUF && |ring| == b
        invariant forall a :: 0 <= a < b ==> ring[a] == b - 1 - a
        invariant Linked(next[..], prev[..], ring)
        invariant buf[..] == machine.bufs && machine == Booted(image) && disk == image
      {
        ghost var n0, p0 := next[..], prev[..];
        PushKeepsRing(n0, p0, ring, b);
        next[b] := next[HEAD];
        prev[b] := HEAD;
        prev[next[HEAD]] := b;
        next[HEAD] := b;
        assert next[..] == NextPushed(n0, b) && prev[..] == PrevPushed(n0, p0, b);
        ring := [b] + ring;
        b := b + 1;
      }
      assert ring == machine.ring;
    }

    /** The first loop of bget: forward from the head. */
    method Search(key: Key) returns (b: int)
      requires Valid()
      ensures var p := Find(machine.bufs, machine.ring, key, 0); b == At(machine.ring, p)
    {
      ghost var p := 0;
      b := next[HEAD];
      while b != HEAD && buf[b].key != key
        invariant 0 <= p <= |machine.ring| && b == At(machine.ring, p)
        invariant Find(machine.bufs, machine.ring, key, p) == Find(machine.bufs, machine.ring, key, 0)
        decreases |machine.ring| - p
      {
        assert next[..][machine.ring[p]] == At(machine.ring, p + 1);
        b := next[b];
        p := p + 1;
      }
    }

    /** The second loop: backward from the head. */
    method SearchBack() returns (b: int)
      requires Valid()
      ensures var q := Victim(machine.bufs, machine.ring, |machine.ring|); b == At(machine.ring, q)
    {
      ghost var p := |machine.ring|;
      b := prev[HEAD];
      while b != HEAD && !(buf[b].refcnt == 0 && !buf[b].dirty)
        invariant 0 <= p <= |machine.ring| && b == At(machine.ring, p - 1)
        invariant Victim(machine.bufs, machine.ring, p) == Victim(machine.bufs, machine.ring, |machine.ring|)
        decreases p
      {
        assert prev[..][machine.ring[p - 1]] == At(machine.ring, p - 2);
        b := prev[b];
        p := p - 1;
      }
    }

    /** bget up to the sleep-lock; -1 for the panic. */
    method Bget(ghost h: int, key: Key) returns (b: int)
      requires Valid() && h !in machine.holds
      modifies this, buf
      ensures Valid()
      ensures b == Choice(old(machine), key)
      ensures if b >= 0 then Enabled(old(machine), Get(h, key)) && machine == Apply(old(machine), Get(h, key))
              else machine == old(machine)
    {
      hide Inv, Linked;
      ValidRing();
      b := Search(key);
      if b != HEAD {
        buf[b] := buf[b].(refcnt := buf[b].refcnt + 1);
      } else {
        b := SearchBack();
        if b == HEAD {
          return -1;
        }
        buf[b] := Buf(key, 1, false, false, buf[b].locked, buf[b].data);
      }
      GetKeepsInv(machine, h, key);
      machine := Apply(machine, Get(h, key));
      assert machine.bufs == buf[..];
    }

    lemma ValidRing()
      requires Valid()
      ensures RingInRange(machine) && buf.Length == NBUF && machine.bufs == buf[..]
      ensures forall a :: 0 <= a < |machine.ring| ==> 0 <= machine.ring[a] < NBUF
    {
    }

    /** The rest of bread, with the sleep-lock held: read the block if the buffer does
        not have it. */
    method Bread(ghost h: int, b: int)
      requires Valid() && h in machine.holds && machine.holds[h] == Hold(b, Locked) && 0 <= b < NBUF
      modifies this, buf
      ensures Valid() && machine == Apply(old(machine), Fill(h))
      ensures buf[b].valid
    {
      hide Inv, Linked, Choice, Released;
      StepKeepsInv(machine, Fill(h));
      if !buf[b].valid {
        buf[b] := buf[b].(valid := true, data := Block(disk, buf[b].key));
      }
      machine := Apply(machine, Fill(h));
      assert machine.bufs == buf[..];
    }

    /** bwrite, with the sleep-lock held: the block is on disk when it returns. */
    method Bwrite(ghost h: int, b: int)
      requires Valid() && h in machine.holds && 0 <= b < NBUF
      requires machine.holds[h].buf == b && Busy(machine.holds[h].stage)
      modifies this, buf
      ensures Valid() && machine == Apply(old(machine), BufferMachine.Bwrite(h))
      ensures Block(disk, buf[b].key) == buf[b].data == old(buf[b].data)
    {
      hide Inv, Linked, Choice, Released;
      StepKeepsInv(machine, BufferMachine.Bwrite(h));
      disk := disk[buf[b].key := buf[b].data];
      buf[b] := buf[b].(dirty := false, valid := true);
      machine := Apply(machine, BufferMachine.Bwrite(h));
      assert machine.bufs == buf[..];
    }

    /** brelse once the sleep-lock is released. */
    method Brelse(ghost h: int, b: int)
      requires Valid() && h in machine.holds && machine.holds[h] == Hold(b, Leaving)
      modifies this, buf, next, prev
      ensures Valid()
      ensures Enabled(old(machine), Put(h)) && machine == Apply(old(machine), Put(h))
    {
      hide Inv, Linked, Index;
      LeavingRanked(h);
      PutKeepsInv(machine, h);
      buf[b] := buf[b].(refcnt := buf[b].refcnt - 1);
      if buf[b].refcnt == 0 {
        MoveToFront(b);
      }
      machine := Apply(machine, Put(h));
      assert machine.bufs == buf[..];
    }

    lemma LeavingRanked(h: int)
      requires Valid() && h in machine.holds && machine.holds[h].stage == Leaving
      ensures Enabled(machine, Put(h)) && RingInRange(machine) && machine.bufs == buf[..]
      ensures 0 <= machine.holds[h].buf < NBUF == buf.Length && next.Length == prev.Length == NBUF + 1
    {
    }

    method MoveToFront(b: int)
      requires next.Length == prev.Length == NBUF + 1 && next != prev
      requires Linked(next[..], prev[..], machine.ring) && b in machine.ring
      modifies next, prev
      ensures Linked(next[..], prev[..], ToFront(machine.ring, Index(machine.ring, b)))
    {
      hide Linked, Spread;
      ghost var p, n0, p0 := Index(machine.ring, b), next[..], prev[..];
      RingBounds(n0, p0, machine.ring, p);
      UnlinkKeepsRing(n0, p0, machine.ring, p);
      prev[next[b]] := prev[b];
      next[prev[b]] := next[b];
      ghost var n1, p1 := next[..], prev[..];
      assert n1 == n0[p0[b] := n0[b]] && p1 == p0[n0[b] := p0[b]];
      PushKeepsRing(n1, p1, Removed(machine.ring, p), b);
      next[b] := next[HEAD];
      prev[b] := HEAD;
      prev[next[HEAD]] := b;
      next[HEAD] := b;
      assert next[..] == NextPushed(n1, b) && prev[..] == PrevPushed(n1, p1, b);
      assert [b] + Removed(machine.ring, p) == ToFront(machine.ring, p);
    }
  }
}
