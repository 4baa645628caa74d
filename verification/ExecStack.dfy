/** copyout, and the stack that exec builds with it: strings first, then the words
    that main's frame is made of. */
module ExecStack {
  import InodeLayout

  const PGSIZE := 4096
  const MAXARG := 32
  const WORD := InodeLayout.WORD
  const KERNBASE := 0x8000_0000
  const FAKE_RETURN := 0xffff_ffff

  function ByteAt(mem: map<int, int>, a: int): int {
    if a in mem then mem[a] else 0
  }

  /** mem with data laid down from va on. */
  function Put(mem: map<int, int>, va: int, data: seq<int>): (r: map<int, int>)
    ensures forall a :: ByteAt(r, a) == if va <= a < va + |data| then data[a - va] else ByteAt(mem, a)
    decreases |data|
  {
    if data == [] then mem else Put(mem[va := data[0]], va + 1, data[1..])
  }

  /** Little-endian words. */
  function Word(mem: map<int, int>, a: int): int {
    ByteAt(mem, a) + 256 * ByteAt(mem, a + 1) + 0x1_0000 * ByteAt(mem, a + 2) + 0x100_0000 * ByteAt(mem, a + 3)
  }

  function Encode(w: int): (r: seq<int>)
    ensures |r| == 4
  {
    [w % 256, w / 256 % 256, w / 0x1_0000 % 256, w / 0x100_0000 % 256]
  }

  function EncodeAll(ws: seq<int>): (r: seq<int>)
    ensures |r| == 4 * |ws|
  {
    if ws == [] then [] else EncodeAll(ws[..|ws| - 1]) + Encode(ws[|ws| - 1])
  }

  lemma {:induction false} EncodedAt(ws: seq<int>, i: nat)
    requires i < |ws|
    ensures EncodeAll(ws)[4 * i..4 * i + 4] == Encode(ws[i])
  {
    var init := ws[..|ws| - 1];
    if i < |ws| - 1 {
      EncodedAt(init, i);
      assert EncodeAll(ws)[4 * i..4 * i + 4] == EncodeAll(init)[4 * i..4 * i + 4];
    }
  }

  /** Words that were copied out read back as they were. */
  lemma WordsReadBack(mem: map<int, int>, va: int, ws: seq<int>, i: nat)
    requires i < |ws| && 0 <= ws[i] < WORD
    ensures Word(Put(mem, va, EncodeAll(ws)), va + 4 * i) == ws[i]
  {
    EncodedAt(ws, i);
    InodeLayout.SplitWord(ws[i]);
    var all := EncodeAll(ws);
    var w := all[4 * i..4 * i + 4];
    assert w[0] == all[4 * i] && w[1] == all[4 * i + 1] && w[2] == all[4 * i + 2] && w[3] == all[4 * i + 3];
  }

  /** Every page that [va, va + n) meets is one the user may touch. */
  ghost predicate Touchable(user: set<int>, va: int, n: int) {
    forall page :: n > 0 && va / PGSIZE <= page && page * PGSIZE < va + n ==> page in user
  }

  /** What is at a: a copy of s and a NUL. */
  ghost predicate StringAt(mem: map<int, int>, a: int, s: seq<int>) {
    (forall k :: 0 <= k < |s| ==> ByteAt(mem, a + k) == s[k]) && ByteAt(mem, a + |s|) == 0
  }

  /** The stack pointer after the first k strings. */
  function Sp(top: int, argv: seq<seq<int>>, k: nat): int
    requires k <= |argv|
  {
    if k == 0 then top else (Sp(top, argv, k - 1) - (|argv[k - 1]| + 1)) / 4 * 4
  }

  lemma {:induction false} SpFalls(top: int, argv: seq<seq<int>>, j: nat, k: nat)
    requires j < k <= |argv|
    ensures Sp(top, argv, k) + |argv[k - 1]| + 1 <= Sp(top, argv, j) && Sp(top, argv, k) % 4 == 0
    decreases k
  {
    if j < k - 1 {
      SpFalls(top, argv, j, k - 1);
    }
  }

  /** The words of main's frame. */
  function Frame(top: int, argv: seq<seq<int>>): seq<int> {
    var sp := Sp(top, argv, |argv|);
    [FAKE_RETURN, |argv|, sp - (|argv| + 1) * 4] + seq(|argv|, i requires 0 <= i < |argv| => Sp(top, argv, i + 1)) + [0]
  }

  /** The one stack page ends at top; below it lies the guard page. Nothing from
      KERNBASE up is the user's. */
  ghost predicate StackPage(user: set<int>, top: int) {
    && top % PGSIZE == 0 && 2 * PGSIZE <= top
    && top / PGSIZE - 1 in user && top / PGSIZE - 2 !in user
    && BelowKernel(user)
  }

  ghost predicate BelowKernel(user: set<int>) {
    forall page :: page in user ==> 0 <= page < KERNBASE / PGSIZE
  }

  /** An argument string comes from user memory, with its NUL. */
  ghost predicate FromUser(argv: seq<seq<int>>) {
    forall i {:trigger argv[i]} :: 0 <= i < |argv| ==> |argv[i]| + 1 <= KERNBASE
  }

  class UserMemory {
    var mem: map<int, int>
    const user: set<int>  // pages present with PTE_U

    constructor (pages: set<int>)
      ensures user == pages && mem == map[]
    {
      user, mem := pages, map[];
    }

    /** copyout, page by page. It may have written part of the data when it fails. */
    method Copyout(va: int, data: seq<int>) returns (ok: bool)
      requires 0 <= va < WORD && BelowKernel(user)
      modifies this
      ensures ok <==> Touchable(user, va, |data|)
      ensures ok ==> forall a :: ByteAt(mem, a) == ByteAt(Put(old(mem), va, data), a)
    {
      hide Put, ByteAt;
      var done, v := 0, va;
      PutNone(mem, va);
      while done < |data|
        invariant 0 <= done <= |data| && v < WORD && (done < |data| || done == 0 ==> v == va + done)
        invariant done > 0 && done < |data| ==> v % PGSIZE == 0
        invariant Touchable(user, va, done)
        invariant forall a :: ByteAt(mem, a) == ByteAt(Put(old(mem), va, data[..done]), a)
      {
        var va0 := v / PGSIZE * PGSIZE;
        if va0 / PGSIZE !in user {
          assert va / PGSIZE <= v / PGSIZE && v / PGSIZE * PGSIZE < va + |data|;
          return false;
        }
        var n := PGSIZE - (v - va0);
        if n > |data| - done {
          n := |data| - done;
        }
        ghost var m0 := mem;
        mem := Put(mem, v, data[done..done + n]);
        PutMore(old(mem), m0, mem, va, data, done, n);
        TouchMore(user, va, done, n);
        done := done + n;
        v := (va0 + PGSIZE) % WORD;
      }
      assert data[..done] == data;
      ok := true;
    }

    /** Push one string, in 32 bits. */
    method PushString(sp: int, s: seq<int>) returns (ok: bool, r: int)
      requires 0 <= sp < WORD && BelowKernel(user)
      modifies this
      ensures r == (sp - (|s| + 1)) % WORD / 4 * 4
      ensures ok <==> Touchable(user, r, |s| + 1)
      ensures ok ==> forall a :: ByteAt(mem, a) == ByteAt(Put(old(mem), r, s + [0]), a)
    {
      r := (sp - (|s| + 1)) % WORD / 4 * 4;
      ok := Copyout(r, s + [0]);
    }

    /** Push argument k, from a stack pointer inside the stack page. */
    method PushArg(argv: seq<seq<int>>, top: int, k: nat, sp: int) returns (ok: bool, r: int)
      requires k < |argv| && StackPage(user, top) && sp == Sp(top, argv, k) && top - PGSIZE <= sp <= top
      requires FromUser(argv) && AllAt(mem, top, argv, k)
      modifies this
      ensures ok <==> Sp(top, argv, k + 1) >= top - PGSIZE
      ensures ok ==> r == Sp(top, argv, k + 1) && AllAt(mem, top, argv, k + 1)
    {
      hide Put, Touchable, AllAt, Sp;
      SpAt(top, argv, k);
      GuardStops(user, top, sp, argv[k]);
      ghost var m0 := mem;
      ok, r := PushString(sp, argv[k]);
      if ok {
        StringsStay(m0, mem, top, argv, k);
      }
    }

    /** The loop that pushes the argument strings and notes where each one is. */
    method PushStrings(argv: seq<seq<int>>, top: int, ustack: array<int>) returns (ok: bool, sp: int)
      requires StackPage(user, top) && FromUser(argv) && ustack.Length == 3 + MAXARG + 1
      modifies this, ustack
      ensures ok <==> |argv| <= MAXARG && Sp(top, argv, |argv|) >= top - PGSIZE
      ensures ok ==> sp == Sp(top, argv, |argv|) && AllAt(mem, top, argv, |argv|)
      ensures ok ==> forall j :: 3 <= j < 3 + |argv| ==> ustack[j] == Sp(top, argv, j - 2)
    {
      hide AllAt, Sp, StackPage, FromUser;
      SpZero(top, argv);
      AllAtNone(mem, top, argv);
      var argc := 0;
      sp := top;
      while argc < |argv|
        invariant 0 <= argc <= |argv| && argc <= MAXARG && sp == Sp(top, argv, argc)
        invariant top - PGSIZE <= sp <= top && AllAt(mem, top, argv, argc)
        invariant forall j :: 3 <= j < 3 + argc ==> ustack[j] == Sp(top, argv, j - 2)
      {
        if argc >= MAXARG {
          return false, sp;
        }
        SpAt(top, argv, argc);
        var fits;
        fits, sp := PushArg(argv, top, argc, sp);
        if !fits {
          SpLast(top, argv, argc + 1);
          return false, sp;
        }
        ustack[3 + argc] := sp;
        argc := argc + 1;
      }
      ok := true;
    }

    /** exec from the empty stack to the stack pointer that main gets. The guard page
        lies below the one stack page. */
    method BuildStack(argv: seq<seq<int>>, top: int) returns (ok: bool, esp: int)
      requires StackPage(user, top) && FromUser(argv)
      modifies this
      ensures ok <==> |argv| <= MAXARG && Sp(top, argv, |argv|) - 4 * (|argv| + 4) >= top - PGSIZE
      ensures ok ==> esp == Sp(top, argv, |argv|) - 4 * (|argv| + 4)
      ensures ok ==> AllAt(mem, top, argv, |argv|) && FrameAt(mem, top, argv, esp)
    {
      hide Put, Touchable, AllAt, Sp, Frame, EncodeAll, FrameAt, FromUser;
      var ustack := new int[3 + MAXARG + 1];
      var sp;
      ok, sp := PushStrings(argv, top, ustack);
      if !ok {
        return false, sp;
      }
      var argc := |argv|;
      ustack[3 + argc] := 0;
      ustack[0], ustack[1], ustack[2] := FAKE_RETURN, argc, sp - (argc + 1) * 4;
      esp := sp - (3 + argc + 1) * 4;
      FrameFilled(top, argv, ustack[..3 + argc + 1]);
      SpBelow(top, argv, argc);
      ghost var m1 := mem;
      PageGuards(user, top, esp, 4 * (argc + 4));
      ok := Copyout(esp, EncodeAll(ustack[..3 + argc + 1]));
      if ok {
        FrameStays(m1, mem, top, argv, esp);
      }
    }
  }

  /** The words in ustack are those of main's frame. */
  lemma FrameFilled(top: int, argv: seq<seq<int>>, words: seq<int>)
    requires |words| == |argv| + 4 && words[0] == FAKE_RETURN && words[1] == |argv|
    requires words[2] == Sp(top, argv, |argv|) - (|argv| + 1) * 4 && words[3 + |argv|] == 0
    requires forall j :: 3 <= j < 3 + |argv| ==> words[j] == Sp(top, argv, j - 2)
    ensures words == Frame(top, argv)
  {
    hide Frame, Sp;
    FrameIs(top, argv);
    forall j | 0 <= j < |words|
      ensures words[j] == Frame(top, argv)[j]
    {
      if 3 <= j < 3 + |argv| {
        assert argv[j - 3] == argv[j - 3];
      }
    }
  }

  /** The first k strings are where they were pushed. */
  ghost predicate AllAt(mem: map<int, int>, top: int, argv: seq<seq<int>>, k: int)
    requires k <= |argv|
  {
    forall i {:trigger argv[i]} :: 0 <= i < k ==> StringAt(mem, Sp(top, argv, i + 1), argv[i])
  }

  ghost predicate FrameAt(mem: map<int, int>, top: int, argv: seq<seq<int>>, esp: int) {
    forall j :: 0 <= j < |Frame(top, argv)| ==> Word(mem, esp + 4 * j) == Frame(top, argv)[j]
  }

  lemma SpZero(top: int, argv: seq<seq<int>>)
    ensures Sp(top, argv, 0) == top
  {
  }

  lemma AllAtNone(mem: map<int, int>, top: int, argv: seq<seq<int>>)
    ensures AllAt(mem, top, argv, 0)
  {
  }

  lemma PutNone(mem: map<int, int>, va: int)
    ensures forall a :: ByteAt(mem, a) == ByteAt(Put(mem, va, []), a)
  {
  }

  lemma PutMore(m: map<int, int>, m0: map<int, int>, m1: map<int, int>, va: int, data: seq<int>, done: int, n: int)
    requires 0 <= done && 0 <= n && done + n <= |data| && m1 == Put(m0, va + done, data[done..done + n])
    requires forall a :: ByteAt(m0, a) == ByteAt(Put(m, va, data[..done]), a)
    ensures forall a :: ByteAt(m1, a) == ByteAt(Put(m, va, data[..done + n]), a)
  {
  }

  lemma TouchMore(user: set<int>, va: int, done: int, n: int)
    requires Touchable(user, va, done) && 0 <= va && 0 <= done && 0 < n && (va + done) / PGSIZE in user
    requires n <= PGSIZE - (va + done) % PGSIZE && (done > 0 ==> (va + done) % PGSIZE == 0)
    ensures Touchable(user, va, done + n)
  {
    forall page | va / PGSIZE <= page && page * PGSIZE < va + done + n
      ensures page in user
    {
      if page * PGSIZE >= va + done || done == 0 {
        assert page == (va + done) / PGSIZE;
      }
    }
  }

  lemma SpAt(top: int, argv: seq<seq<int>>, k: nat)
    requires k < |argv|
    ensures Sp(top, argv, k + 1) == (Sp(top, argv, k) - (|argv[k]| + 1)) / 4 * 4
    ensures Sp(top, argv, k + 1) % 4 == 0 && Sp(top, argv, k + 1) < Sp(top, argv, k)
    ensures Sp(top, argv, k) >= Sp(top, argv, k + 1) + |argv[k]| + 1
  {
  }

  lemma SpLast(top: int, argv: seq<seq<int>>, k: nat)
    requires k <= |argv|
    ensures Sp(top, argv, |argv|) <= Sp(top, argv, k)
  {
    if k < |argv| {
      SpFalls(top, argv, k, |argv|);
    }
  }

  /** A push from inside the stack page succeeds exactly when it stays inside: if it
      does not, it meets the guard page. */
  lemma GuardStops(user: set<int>, top: int, sp: int, s: seq<int>)
    requires StackPage(user, top) && top - PGSIZE <= sp <= top && |s| + 1 <= KERNBASE
    ensures var r, w := (sp - (|s| + 1)) / 4 * 4, (sp - (|s| + 1)) % WORD / 4 * 4;
            (Touchable(user, w, |s| + 1) <==> r >= top - PGSIZE) && (r >= top - PGSIZE ==> w == r)
  {
    var r, w := (sp - (|s| + 1)) / 4 * 4, (sp - (|s| + 1)) % WORD / 4 * 4;
    AlignWraps(sp - (|s| + 1));
    if r < 0 {
      KernelStops(user, w, |s| + 1);
    } else {
      PageGuards(user, top, r, |s| + 1);
    }
  }

  /** Rounding down to a word, in 32 bits. */
  lemma AlignWraps(x: int)
    requires -KERNBASE <= x < WORD
    ensures x / 4 * 4 <= x < x / 4 * 4 + 4
    ensures x % WORD / 4 * 4 == if x / 4 * 4 < 0 then x / 4 * 4 + WORD else x / 4 * 4
  {
    assert x % WORD == if x < 0 then x + WORD else x;
  }

  /** An address that has wrapped lies in the kernel's half. */
  lemma KernelStops(user: set<int>, w: int, n: int)
    requires BelowKernel(user) && KERNBASE <= w && 0 < n
    ensures !Touchable(user, w, n)
  {
    assert w / PGSIZE * PGSIZE < w + n;
    assert w / PGSIZE !in user;
  }

  /** What ends in the stack page, or just below it, is all in user pages if and only if
      it starts in the stack page. */
  lemma PageGuards(user: set<int>, top: int, r: int, n: int)
    requires StackPage(user, top) && 0 < n && top - PGSIZE - 4 < r + n <= top
    ensures Touchable(user, r, n) <==> r >= top - PGSIZE
  {
    if r >= top - PGSIZE {
      forall page | r / PGSIZE <= page && page * PGSIZE < r + n
        ensures page in user
      {
        assert page == top / PGSIZE - 1;
      }
    } else {
      var guard := top / PGSIZE - 2;
      assert r / PGSIZE <= guard && guard * PGSIZE < r + n;
    }
  }

  /** Writing elsewhere leaves a string alone. */
  lemma StringStays(m0: map<int, int>, m1: map<int, int>, va: int, data: seq<int>, a: int, s: seq<int>)
    requires StringAt(m0, a, s) && va + |data| <= a
    requires forall x :: ByteAt(m1, x) == ByteAt(Put(m0, va, data), x)
    ensures StringAt(m1, a, s)
  {
  }

  lemma StringThere(m0: map<int, int>, m1: map<int, int>, va: int, s: seq<int>)
    requires forall x :: ByteAt(m1, x) == ByteAt(Put(m0, va, s + [0]), x)
    ensures StringAt(m1, va, s)
  {
  }

  /** A new string leaves the earlier ones alone. */
  lemma StringsStay(m0: map<int, int>, m1: map<int, int>, top: int, argv: seq<seq<int>>, k: nat)
    requires k < |argv| && AllAt(m0, top, argv, k)
    requires forall a :: ByteAt(m1, a) == ByteAt(Put(m0, Sp(top, argv, k + 1), argv[k] + [0]), a)
    ensures AllAt(m1, top, argv, k + 1)
  {
    hide StringAt, Put;
    forall i {:trigger argv[i]} | 0 <= i < k + 1
      ensures StringAt(m1, Sp(top, argv, i + 1), argv[i])
    {
      if i < k {
        SpFalls(top, argv, i + 1, k + 1);
        StringStays(m0, m1, Sp(top, argv, k + 1), argv[k] + [0], Sp(top, argv, i + 1), argv[i]);
      } else {
        StringThere(m0, m1, Sp(top, argv, k + 1), argv[k]);
      }
    }
  }

  lemma FrameIs(top: int, argv: seq<seq<int>>)
    ensures var f := Frame(top, argv);
            && |f| == |argv| + 4 && f[0] == FAKE_RETURN && f[1] == |argv|
            && f[2] == Sp(top, argv, |argv|) - (|argv| + 1) * 4 && f[3 + |argv|] == 0
            && forall i {:trigger argv[i]} :: 0 <= i < |argv| ==> f[3 + i] == Sp(top, argv, i + 1)
  {
    hide Sp;
  }

  lemma FrameWords(top: int, argv: seq<seq<int>>)
    requires 0 <= top < WORD && |argv| <= MAXARG && Sp(top, argv, |argv|) >= PGSIZE
    ensures |Frame(top, argv)| == |argv| + 4
    ensures forall j :: 0 <= j < |argv| + 4 ==> 0 <= Frame(top, argv)[j] < WORD
  {
    hide Frame, Sp;
    FrameIs(top, argv);
    SpZero(top, argv);
    SpBelow(top, argv, |argv|);
    forall j | 0 <= j < |argv| + 4
      ensures 0 <= Frame(top, argv)[j] < WORD
    {
      if 3 <= j < |argv| + 3 {
        assert Frame(top, argv)[j] == Sp(top, argv, j - 2) by {
          assert argv[j - 3] == argv[j - 3];
        }
        SpBelow(top, argv, j - 2);
        SpLast(top, argv, j - 2);
      }
    }
  }

  lemma SpBelow(top: int, argv: seq<seq<int>>, k: nat)
    requires k <= |argv|
    ensures Sp(top, argv, k) <= top
  {
    if k > 0 {
      SpFalls(top, argv, 0, k);
    }
  }

  lemma FrameStays(m0: map<int, int>, m1: map<int, int>, top: int, argv: seq<seq<int>>, esp: int)
    requires 0 <= top < WORD && |argv| <= MAXARG && Sp(top, argv, |argv|) >= PGSIZE
    requires esp == Sp(top, argv, |argv|) - 4 * (|argv| + 4)
    requires AllAt(m0, top, argv, |argv|)
    requires forall a :: ByteAt(m1, a) == ByteAt(Put(m0, esp, EncodeAll(Frame(top, argv))), a)
    ensures AllAt(m1, top, argv, |argv|) && FrameAt(m1, top, argv, esp)
  {
    hide Frame, Sp, StringAt, Put, EncodeAll;
    FrameWords(top, argv);
    forall i {:trigger argv[i]} | 0 <= i < |argv|
      ensures StringAt(m1, Sp(top, argv, i + 1), argv[i])
    {
      SpLast(top, argv, i + 1);
      StringStays(m0, m1, esp, EncodeAll(Frame(top, argv)), Sp(top, argv, i + 1), argv[i]);
    }
    forall j | 0 <= j < |Frame(top, argv)|
      ensures Word(m1, esp + 4 * j) == Frame(top, argv)[j]
    {
      WordsReadBack(m0, esp, Frame(top, argv), j);
    }
  }

  /** What the layout means: all inside the stack page, strings and frame apart from
      each other, argv's array right behind the three words and ended by null. */
  lemma LayoutIsSound(top: int, argv: seq<seq<int>>, i: nat)
    requires top % PGSIZE == 0 && i < |argv|
    requires Sp(top, argv, |argv|) - 4 * (|argv| + 4) >= top - PGSIZE
    ensures var esp, a := Sp(top, argv, |argv|) - 4 * (|argv| + 4), Sp(top, argv, i + 1);
            && top - PGSIZE <= esp && esp + 4 * (|argv| + 4) <= a && a % 4 == 0
            && a + |argv[i]| + 1 <= (if i == 0 then top else Sp(top, argv, i))
    ensures var f, esp := Frame(top, argv), Sp(top, argv, |argv|) - 4 * (|argv| + 4);
            && |f| == |argv| + 4 && f[0] == FAKE_RETURN && f[1] == |argv| && f[2] == esp + 12
            && f[3 + i] == Sp(top, argv, i + 1) && f[3 + |argv|] == 0
  {
    hide Frame, Sp;
    FrameIs(top, argv);
    assert argv[i] == argv[i];
    SpZero(top, argv);
    SpLast(top, argv, i + 1);
    SpFalls(top, argv, i, i + 1);
  }
}
