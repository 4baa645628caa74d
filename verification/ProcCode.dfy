/** The loops over the process table, slot by slot. Each does what the step of the
    machine that it belongs to says. */
module ProcCode {
  import opened ProcLife

  /** wakeup1. */
  method Wakeup1(slots: array<Slot>, chan: int)
    modifies slots
    ensures slots[..] == Woken(old(slots[..]), chan)
  {
    var p := 0;
    while p < slots.Length
      invariant 0 <= p <= slots.Length
      invariant forall q :: 0 <= q < p ==> slots[q] == Woken(old(slots[..]), chan)[q]
      invariant forall q :: p <= q < slots.Length ==> slots[q] == old(slots[q])
    {
      if slots[p].status == Sleeping && slots[p].chan == chan {
        slots[p] := slots[p].(status := Runnable);
      }
      p := p + 1;
    }
  }

  ghost predicate ZombieBefore(a: seq<Slot>, p: int, k: int)
    requires k <= |a|
  {
    exists q :: 0 <= q < k && a[q].parent == p && a[q].status == Zombie
  }

  function Handed(s: Slot, p: int, moved: bool, wake: bool): Slot {
    var s1 := if moved && s.parent == p then s.(parent := INIT) else s;
    if wake && s1.status == Sleeping && s1.chan == INIT then s1.(status := Runnable) else s1
  }

  /** exit's loop after k slots: the first k are handed over, and init is awake if one
      of them was a zombie. */
  ghost function PartHanded(a: seq<Slot>, p: int, k: nat): (r: seq<Slot>)
    requires k <= |a|
    ensures |r| == |a|
    ensures forall q :: 0 <= q < |a| ==> r[q] == Handed(a[q], p, q < k, ZombieBefore(a, p, k))
  {
    seq(|a|, q requires 0 <= q < |a| => Handed(a[q], p, q < k, ZombieBefore(a, p, k)))
  }

  lemma ZombieNext(a: seq<Slot>, p: int, k: nat)
    requires k < |a|
    ensures ZombieBefore(a, p, k + 1) <==> ZombieBefore(a, p, k) || (a[k].parent == p && a[k].status == Zombie)
  {
    if ZombieBefore(a, p, k + 1) {
      var q :| 0 <= q < k + 1 && a[q].parent == p && a[q].status == Zombie;
    }
  }

  lemma PartStep(a: seq<Slot>, p: int, k: nat)
    requires k < |a| && p != INIT
    ensures a[k].parent != p ==> PartHanded(a, p, k + 1) == PartHanded(a, p, k)
    ensures a[k].parent == p ==>
              var b := PartHanded(a, p, k);
              var c := b[k := b[k].(parent := INIT)];
              PartHanded(a, p, k + 1) == if a[k].status == Zombie then Woken(c, INIT) else c
    ensures PartHanded(a, p, k)[k].parent == a[k].parent
    ensures PartHanded(a, p, k)[k].status == Zombie <==> a[k].status == Zombie
  {
    hide ZombieBefore;
    ZombieNext(a, p, k);
    var b := PartHanded(a, p, k);
    var c := b[k := b[k].(parent := INIT)];
    assert a[k].parent == p ==> c[k] == Handed(a[k], p, true, ZombieBefore(a, p, k));
  }

  /** exit, from taking the table lock to the context switch. */
  method Exit(slots: array<Slot>, me: int)
    requires 0 <= me < slots.Length && me != INIT && slots[me].status == Running
    modifies slots
    ensures slots[..] == Exited(old(slots[..]), me)
  {
    hide PartHanded, Woken;
    Wakeup1(slots, slots[me].parent);
    ghost var a := slots[..];
    var p := 0;
    PartEnds(a, me);
    while p < slots.Length
      invariant 0 <= p <= slots.Length && slots[..] == PartHanded(a, me, p)
    {
      PartStep(a, me, p);
      assert slots[..][p] == slots[p];
      if slots[p].parent == me {
        slots[p] := slots[p].(parent := INIT);
        if slots[p].status == Zombie {
          Wakeup1(slots, INIT);
        }
      }
      p := p + 1;
    }
    slots[me] := slots[me].(status := Zombie);
  }

  lemma PartEnds(a: seq<Slot>, p: int)
    ensures PartHanded(a, p, 0) == a
    ensures PartHanded(a, p, |a|) == if HasZombie(a, p) then Woken(Reparented(a, p), INIT) else Reparented(a, p)
  {
    hide ZombieBefore;
    NoneBefore(a, p);
  }

  lemma NoneBefore(a: seq<Slot>, p: int)
    ensures !ZombieBefore(a, p, 0) && (ZombieBefore(a, p, |a|) <==> HasZombie(a, p))
  {
  }

  /** wait's scan: the first zombie child, and whether there is any child at all. */
  method WaitScan(slots: array<Slot>, me: int) returns (havekids: bool, z: int)
    ensures z >= 0 <==> HasZombie(slots[..], me)
    ensures z >= 0 ==> z < slots.Length && slots[z].parent == me && slots[z].status == Zombie
    ensures z < 0 ==> (havekids <==> HasChild(slots[..], me))
  {
    havekids, z := false, -1;
    var p := 0;
    while p < slots.Length
      invariant 0 <= p <= slots.Length && z == -1
      invariant forall q :: 0 <= q < p && slots[q].parent == me ==> slots[q].status != Zombie
      invariant havekids <==> exists q :: 0 <= q < p && slots[q].parent == me
    {
      if slots[p].parent == me {
        havekids := true;
        if slots[p].status == Zombie {
          assert slots[..][p].parent == me && slots[..][p].status == Zombie;
          return havekids, p;
        }
      }
      p := p + 1;
    }
    if havekids {
      var q :| 0 <= q < slots.Length && slots[q].parent == me;
      assert slots[..][q].parent == me;
    }
  }
}
