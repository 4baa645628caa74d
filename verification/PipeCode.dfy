/** The pipe's ring buffer with its 32-bit counters (pipe.c). */
module PipeCode {

  const PIPESIZE := 512
  const WORD := 0x1_0000_0000

  function Min(a: int, b: int): int {
    if a < b then a else b
  }

  /** The counters compare as the true counts do. */
  lemma CountersTell(r: nat, w: nat)
    requires r <= w <= r + PIPESIZE
    ensures w % WORD == (r % WORD + PIPESIZE) % WORD <==> w == r + PIPESIZE
    ensures r % WORD == w % WORD <==> r == w
  {
    assert (r % WORD + PIPESIZE) % WORD == (r + PIPESIZE) % WORD;
    SameMod(w, r + PIPESIZE);
    SameMod(r, w);
  }

  lemma SameMod(a: nat, b: nat)
    requires a <= b < a + WORD
    ensures a % WORD == b % WORD <==> a == b
  {
  }

  /** They also index and step as the true counts do. */
  lemma CounterSteps(w: nat)
    ensures w % WORD % PIPESIZE == w % PIPESIZE && (w + 1) % WORD == (w % WORD + 1) % WORD
  {
    assert w == w / WORD * WORD + w % WORD;
    assert w / WORD * WORD == w / WORD * (WORD / PIPESIZE) * PIPESIZE;
  }

  lemma SlotsDiffer(j: nat, k: nat)
    requires j < k < j + PIPESIZE
    ensures j % PIPESIZE != k % PIPESIZE
  {
  }

  class Pipe {
    const data: array<int>
    var nread: int
    var nwrite: int
    ghost var accepted: seq<int>  // every byte ever written
    ghost var delivered: seq<int>  // every byte ever read

    constructor ()
      ensures Valid() && accepted == [] && delivered == [] && fresh(data)
    {
      data := new int[PIPESIZE](_ => 0);
      nread, nwrite := 0, 0;
      accepted, delivered := [], [];
    }

    ghost predicate Valid()
      reads this, data
    {
      && data.Length == PIPESIZE && delivered <= accepted && |accepted| <= |delivered| + PIPESIZE
      && nread == |delivered| % WORD && nwrite == |accepted| % WORD
      && forall k :: |delivered| <= k < |accepted| ==> data[k % PIPESIZE] == accepted[k]
    }

    /** The bytes in flight. */
    ghost function Queue(): seq<int>
      requires Valid()
      reads this, data
    {
      accepted[|delivered|..]
    }

    /** p->data[p->nwrite++ % PIPESIZE] = b, when there is room. */
    method PutByte(b: int)
      requires Valid() && |Queue()| < PIPESIZE
      modifies this`nwrite, this`accepted, data
      ensures Valid() && accepted == old(accepted) + [b] && Queue() == old(Queue()) + [b]
    {
      ghost var w := |accepted|;
      CounterSteps(w);
      forall k | |delivered| <= k < w
        ensures k % PIPESIZE != w % PIPESIZE
      {
        SlotsDiffer(k, w);
      }
      data[nwrite % PIPESIZE] := b;
      nwrite := (nwrite + 1) % WORD;
      accepted := accepted + [b];
    }

    /** The oldest byte in flight. */
    method GetByte() returns (b: int)
      requires Valid() && Queue() != []
      modifies this`nread, this`delivered
      ensures Valid() && delivered == old(delivered) + [b] && old(Queue()) == [b] + Queue()
    {
      ghost var r := |delivered|;
      CounterSteps(r);
      b := data[nread % PIPESIZE];
      assert b == accepted[r];
      nread := (nread + 1) % WORD;
      delivered := delivered + [b];
    }

    method Full() returns (full: bool)
      requires Valid()
      ensures full <==> |Queue()| == PIPESIZE
    {
      CountersTell(|delivered|, |accepted|);
      full := nwrite == (nread + PIPESIZE) % WORD;
    }

    method Empty() returns (empty: bool)
      requires Valid()
      ensures empty <==> Queue() == []
    {
      CountersTell(|delivered|, |accepted|);
      empty := nread == nwrite;
    }

    ghost predicate Holds(q: seq<int>)
      reads this, data
    {
      Valid() && Queue() == q && |q| <= PIPESIZE
    }

    /** pipewrite's loop from byte i on, until it is done or the pipe is full. */
    method Fill(addr: seq<int>, i: nat) returns (j: nat)
      requires Valid() && i <= |addr|
      modifies this`nwrite, this`accepted, data
      ensures Valid() && i <= j <= |addr|
      ensures accepted == old(accepted) + addr[i..j] && Queue() == old(Queue()) + addr[i..j]
      ensures j - i == Min(|addr| - i, PIPESIZE - |old(Queue())|)
    {
      ghost var q0 := Queue();
      j := i;
      while j < |addr|
        invariant i <= j <= |addr| && Valid() && Holds(q0 + addr[i..j])
        invariant accepted == old(accepted) + addr[i..j]
      {
        var full := Full();
        if full {
          return;
        }
        PutByte(addr[j]);
        assert addr[i..j + 1] == addr[i..j] + [addr[j]];
        j := j + 1;
      }
    }

    /** piperead's copying loop. */
    method Drain(n: nat) returns (out: seq<int>)
      requires Valid()
      modifies this`nread, this`delivered
      ensures Valid() && |out| == Min(n, |old(Queue())|)
      ensures delivered == old(delivered) + out && old(Queue()) == out + Queue()
    {
      ghost var q0, d0 := Queue(), delivered;
      ghost var q := q0;
      out := [];
      while |out| < n
        invariant Valid() && |out| <= n && Holds(q) && Parted(q0, out, q)
        invariant Parted(delivered, d0, out)
        decreases n - |out|
      {
        var empty := Empty();
        if empty {
          return;
        }
        var b := GetByte();
        PartMore(q0, out, q, b, Queue());
        DeliverMore(delivered, d0, out, b);
        q := Queue();
        out := out + [b];
      }
    }
  }

  ghost predicate Parted(q: seq<int>, a: seq<int>, b: seq<int>) {
    q == a + b
  }

  lemma PartMore(q0: seq<int>, out: seq<int>, q: seq<int>, b: int, rest: seq<int>)
    requires Parted(q0, out, q) && q == [b] + rest
    ensures Parted(q0, out + [b], rest)
  {
  }

  lemma DeliverMore(d: seq<int>, d0: seq<int>, out: seq<int>, b: int)
    requires d == (d0 + out) + [b]
    ensures Parted(d, d0, out + [b])
  {
  }
}
