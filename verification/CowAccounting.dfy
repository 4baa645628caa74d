/** Reference-count accounting: in every reachable state each 8-bit count is, modulo
    256, the number of user entries that name the frame plus the kernel mappings
    made of it. */
module CowAccounting {
  import opened CowMachine

  /** The user page-table entries, over all processes, that name frame f. */
  ghost function Users(pts: map<Va, Pte>, f: int): set<Va> {
    set k | k in pts && pts[k].frame == f
  }

  lemma UsersAfterPut(pts: map<Va, Pte>, k: Va, pte: Pte, f: int)
    ensures |Users(pts[k := pte], f)| ==
            |Users(pts, f)| - (if k in pts && pts[k].frame == f then 1 else 0) + (if pte.frame == f then 1 else 0)
  {
    var us := Users(pts, f);
    assert Users(pts[k := pte], f) == if pte.frame == f then us + {k} else us - {k};
    assert k in us <==> k in pts && pts[k].frame == f;
  }

  lemma UsersAfterRemove(pts: map<Va, Pte>, k: Va, f: int)
    ensures |Users(pts - {k}, f)| == |Users(pts, f)| - if k in pts && pts[k].frame == f then 1 else 0
  {
    var us := Users(pts, f);
    assert Users(pts - {k}, f) == us - {k};
    assert k in us <==> k in pts && pts[k].frame == f;
  }

  lemma OneMore(c: int, n: int)
    requires c == n % 256
    ensures (c + 1) % 256 == (n + 1) % 256
    ensures (c + 255) % 256 == (n - 1) % 256
  {
  }

  ghost predicate FramesOk(m: Machine) {
    && m.cnt.Keys == m.kern.Keys == m.mem.Keys
    && (forall k :: k in m.pts ==> m.pts[k].frame in m.cnt)
    && (forall i :: 0 <= i < |m.free| ==> m.free[i] in m.cnt)
    && m.owned <= m.cnt.Keys
  }

  ghost predicate Counted(m: Machine, f: int) {
    && f in m.cnt && f in m.kern && m.kern[f] >= 0
    && m.cnt[f] == (|Users(m.pts, f)| + m.kern[f]) % 256
  }

  /** The accounting invariant. */
  ghost predicate Accounted(m: Machine) {
    FramesOk(m) && forall f :: f in m.cnt ==> Counted(m, f)
  }

  // Single entries.

  lemma AccountedAfterMap(m: Machine, k: Va, pte: Pte)
    requires Accounted(m) && k !in m.pts && pte.frame in m.cnt
    ensures Accounted(MapPte(m, k, pte))
  {
    var m' := MapPte(m, k, pte);
    forall f | f in m.cnt
      ensures Counted(m', f)
    {
      hide Users;
      assert Counted(m, f);
      UsersAfterPut(m.pts, k, pte, f);
      OneMore(m.cnt[f], |Users(m.pts, f)| + m.kern[f]);
    }
  }

  lemma AccountedAfterSet(m: Machine, k: Va, pte: Pte)
    requires Accounted(m) && k in m.pts && pte.frame == m.pts[k].frame
    ensures Accounted(SetPte(m, k, pte))
  {
    var m' := SetPte(m, k, pte);
    forall f | f in m.cnt
      ensures Counted(m', f)
    {
      assert Counted(m, f);
      UsersAfterPut(m.pts, k, pte, f);
    }
  }

  /** Forgetting an entry and its reference. */
  lemma AccountedAfterForget(m: Machine, k: Va)
    requires Accounted(m) && k in m.pts
    ensures Accounted(m.(cnt := Drop(m.cnt, m.pts[k].frame), pts := m.pts - {k}))
  {
    var m' := m.(cnt := Drop(m.cnt, m.pts[k].frame), pts := m.pts - {k});
    forall f | f in m.cnt
      ensures Counted(m', f)
    {
      assert Counted(m, f);
      UsersAfterRemove(m.pts, k, f);
      OneMore(m.cnt[f], |Users(m.pts, f)| + m.kern[f]);
    }
  }

  /** Changes of contents, free list and ownership do not matter. */
  lemma AccountedSame(m: Machine, m': Machine)
    requires Accounted(m) && FramesOk(m') && m'.pts == m.pts && m'.cnt == m.cnt && m'.kern == m.kern
    ensures Accounted(m')
  {
    assert forall f :: f in m.cnt ==> Counted(m, f);
  }

  lemma AccountedAfterKfree(m: Machine, f: int)
    requires Accounted(m) && f in m.cnt
    ensures Accounted(Kfree(m, f))
  {
    AccountedSame(m, Kfree(m, f));
  }

  lemma AccountedAfterUnmap(m: Machine, k: Va)
    requires Accounted(m) && k in m.pts
    ensures Accounted(Unmap(m, k))
  {
    var f := m.pts[k].frame;
    var m' := m.(cnt := Drop(m.cnt, f), pts := m.pts - {k});
    AccountedAfterForget(m, k);
    if m'.cnt[f] == 0 {
      AccountedAfterKfree(m', f);
    }
  }

  lemma AccountedAfterZero(m: Machine, k: Va)
    requires Accounted(m) && m.free != [] && k !in m.pts
    ensures Accounted(MapZero(m, k))
  {
    var f := m.free[0];
    var m1 := m.(free := m.free[1..], mem := m.mem[f := Filled(0)]);
    AccountedSame(m, m1);
    AccountedAfterMap(m1, k, Pte(f, true, true, false));
  }

  lemma AccountedAfterKvm(m: Machine, counted: set<int>)
    requires Accounted(m)
    ensures Accounted(SetupKvm(m, counted))
  {
    var m' := SetupKvm(m, counted);
    forall f | f in m.cnt
      ensures Counted(m', f)
    {
      assert Counted(m, f);
      OneMore(m.cnt[f], |Users(m.pts, f)| + m.kern[f]);
    }
  }

  /** Copying a copy-on-write page replaces the entry: the new frame gains a user
      and the old one loses it. */
  lemma AccountedAfterCopy(m: Machine, k: Va, f: int, page: Page)
    requires Accounted(m) && k in m.pts && m.free != [] && f == m.free[0]
    ensures var pte := Pte(f, true, m.pts[k].u, false);
            var m1 := MapPte(m.(free := m.free[1..], mem := m.mem[f := page]), k, pte);
            Accounted(m1.(cnt := Drop(m1.cnt, m.pts[k].frame)))
  {
    // The same as forgetting the old entry and mapping the new one.
    hide Counted, Bump, Drop, Users;
    var m0 := m.(free := m.free[1..], mem := m.mem[f := page]);
    var pte := Pte(f, true, m.pts[k].u, false);
    var old' := m.pts[k].frame;
    AccountedSame(m, m0);
    AccountedAfterForget(m0, k);
    var m1 := m0.(cnt := Drop(m.cnt, old'), pts := m.pts - {k});
    AccountedAfterMap(m1, k, pte);
    var m2 := MapPte(m0, k, pte);
    var m3 := m2.(cnt := Drop(m2.cnt, old'));
    assert m3.pts == MapPte(m1, k, pte).pts;
    CountIsByte(m, old');
    DropBump(m.cnt, old', f);
    AccountedSame(MapPte(m1, k, pte), m3);
  }

  lemma CountIsByte(m: Machine, f: int)
    requires Accounted(m) && f in m.cnt
    ensures 0 <= m.cnt[f] < 256
  {
    assert Counted(m, f);
  }

  lemma DropBump(cnt: map<int, int>, f: int, g: int)
    requires f in cnt && 0 <= cnt[f] < 256
    ensures Drop(Bump(cnt, g), f) == Bump(Drop(cnt, f), g)
  {
  }

  lemma AccountedAfterCow(m: Machine, k: Va)
    requires Accounted(m) && DoCow(m, k).1 == Done
    ensures Accounted(DoCow(m, k).0)
  {
    var pte := m.pts[k];
    if m.cnt[pte.frame] == 1 {
      AccountedAfterSet(m, k, Pte(pte.frame, true, pte.u, false));
    } else {
      AccountedAfterCopy(m, k, m.free[0], m.mem[pte.frame]);
    }
  }
}
