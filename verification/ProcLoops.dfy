/** kernel/proc.c: the loops over the process table, which carry out the steps of the process system. */
module ProcLoops {
  import opened Basics
  import opened ProcSystem

  /** wakeup1() */
  method Wakeup1(ptable: array<Proc>, chan: Chan)
    modifies ptable
    ensures ptable[..] == Woken(old(ptable[..]), chan)
  {
    ghost var was := ptable[..];
    for i := 0 to ptable.Length
      invariant forall j | 0 <= j < i :: ptable[j] == Woken(was, chan)[j]
      invariant forall j | i <= j < ptable.Length :: ptable[j] == was[j]
    {
      if ptable[i].state == SLEEPING && ptable[i].chan == chan {
        ptable[i] := ptable[i].(state := RUNNABLE);
      }
    }
  }

  /** What the loop of exit() has done after i entries: children of p handed over, init woken if one was a zombie. */
  ghost predicate HandedOver(before: seq<Proc>, now: seq<Proc>, p: nat, init: nat, i: nat, woke: bool) {
    && |now| == |before| && i <= |before|
    && (woke <==> exists j | 0 <= j < i :: before[j].state == ZOMBIE && before[j].parent == Some(p))
    && forall j | 0 <= j < |before| ::
        var q := if woke then Woken(before, OnProc(init))[j] else before[j];
        now[j] == if j < i && before[j].parent == Some(p) then q.(parent := Some(init)) else q
  }

  /** exit(), under ptable.lock: the parent is woken, the children go to init, the process becomes a zombie. */
  method ExitTable(ptable: array<Proc>, p: nat, init: nat, ghost s: State)
    requires p < ptable.Length && init < ptable.Length && s.procs == ptable[..] && s.init == init
    modifies ptable
    ensures ptable[..] == Exited(s, p)
  {
    if ptable[p].parent.Some? { Wakeup1(ptable, OnProc(ptable[p].parent.value)); }
    ghost var a := ptable[..];
    ghost var woke := false;
    for i := 0 to ptable.Length
      invariant HandedOver(a, ptable[..], p, init, i, woke)
    {
      ghost var now, woke0 := ptable[..], woke;
      if ptable[i].parent == Some(p) {
        ptable[i] := ptable[i].(parent := Some(init));
        assert ptable[..] == now[i := now[i].(parent := Some(init))];
        if ptable[i].state == ZOMBIE {
          Wakeup1(ptable, OnProc(init));
          woke := true;
        }
      }
      HandMore(a, now, p, init, i, woke0, ptable[..], woke);
    }
    HandedOverAll(a, ptable[..], p, init, woke);
    ptable[p] := ptable[p].(state := ZOMBIE, pc := Leaving, frame := Nowhere);
  }

  lemma HandMore(a: seq<Proc>, now: seq<Proc>, p: nat, init: nat, i: nat, woke: bool, now': seq<Proc>, woke': bool)
    requires HandedOver(a, now, p, init, i, woke) && i < |a|
    requires if now[i].parent != Some(p) then now' == now && woke' == woke
      else var n1 := now[i := now[i].(parent := Some(init))];
        if now[i].state == ZOMBIE then now' == Woken(n1, OnProc(init)) && woke' else now' == n1 && woke' == woke
    ensures HandedOver(a, now', p, init, i + 1, woke')
  {
    assert now[i].parent == a[i].parent && (now[i].state == ZOMBIE <==> a[i].state == ZOMBIE);
    if a[i].state == ZOMBIE && a[i].parent == Some(p) {
      assert woke';
    } else {
      assert woke' == woke;
    }
    assert woke' <==> exists j | 0 <= j < i + 1 :: a[j].state == ZOMBIE && a[j].parent == Some(p);
  }

  lemma HandedOverAll(a: seq<Proc>, now: seq<Proc>, p: nat, init: nat, woke: bool)
    requires HandedOver(a, now, p, init, |a|, woke)
    ensures now == Reparented(if HasZombie(a, p) then Woken(a, OnProc(init)) else a, p, init)
  { }

  /** The scan of wait(): the first zombie child is freed, or the caller gives up or goes to sleep. */
  method WaitTable(ptable: array<Proc>, p: nat, ghost s: State) returns (reaped: Option<nat>, sleeps: bool)
    requires p < ptable.Length && s.procs == ptable[..]
    modifies ptable
    ensures WaitStep(s, p, s.(procs := ptable[..]))
    ensures reaped.Some? <==> HasZombie(s.procs, p)
    ensures reaped.Some? ==>
      IsZombieChild(s, p, reaped.value) && s.(procs := ptable[..]) == ReapStep(s, p, reaped.value)
    ensures reaped.Some? ==> forall q | 0 <= q < reaped.value :: !IsZombieChild(s, p, q)
    ensures sleeps <==> !HasZombie(s.procs, p) && HasChild(s.procs, p) && !s.procs[p].killed
  {
    var havekids := false;
    for i := 0 to ptable.Length
      invariant ptable[..] == s.procs
      invariant havekids <==> exists j | 0 <= j < i :: s.procs[j].parent == Some(p)
      invariant forall j | 0 <= j < i :: !(s.procs[j].state == ZOMBIE && s.procs[j].parent == Some(p))
    {
      assert ptable[i] == ptable[..][i];
      if ptable[i].parent == Some(p) {
        havekids := true;
        if ptable[i].state == ZOMBIE {
          ptable[i] := Reaped(ptable[i]);
          ptable[p] := ptable[p].(pc := Done(ToKern));
          assert IsZombieChild(s, p, i) && ptable[..] == ReapStep(s, p, i).procs;
          assert s.(procs := ptable[..]) == ReapStep(s, p, i);
          return Some(i), false;
        }
      }
    }
    assert ptable[p] == ptable[..][p];
    if !havekids || ptable[p].killed {
      ptable[p] := ptable[p].(pc := Done(ToKern));
      assert ptable[..] == DoneStep(s, p, ToKern).procs;
      return None, false;
    }
    ptable[p] := ptable[p].(state := SLEEPING, chan := OnProc(p), pc := Leaving, frame := InWait);
    assert ptable[..] == LeaveStep(s, p, SLEEPING, OnProc(p), InWait).procs;
    return None, true;
  }

  /** The search of allocproc(). */
  method AllocTable(ptable: array<Proc>, p: nat, ghost s: State) returns (slot: Option<nat>)
    requires p < ptable.Length && s.procs == ptable[..]
    modifies ptable
    ensures AllocStep(s, p, s.(procs := ptable[..]))
    ensures slot.None? <==> forall q | 0 <= q < |s.procs| :: s.procs[q].state != UNUSED
    ensures slot.Some? ==> FreeSlot(s, slot.value) && s.(procs := ptable[..]) == TakeSlot(s, p, slot.value)
    ensures slot.Some? ==> forall q | 0 <= q < slot.value :: s.procs[q].state != UNUSED
  {
    for i := 0 to ptable.Length
      invariant ptable[..] == s.procs
      invariant forall j | 0 <= j < i :: s.procs[j].state != UNUSED
    {
      assert ptable[i] == ptable[..][i];
      if ptable[i].state == UNUSED {
        ptable[i] := ptable[i].(state := EMBRYO, frame := InForkret);
        ptable[p] := ptable[p].(fork := Some(i), pc := Done(ToKern));
        assert FreeSlot(s, i) && ptable[..] == TakeSlot(s, p, i).procs;
        assert s.(procs := ptable[..]) == TakeSlot(s, p, i);
        return Some(i);
      }
    }
    ptable[p] := ptable[p].(pc := Done(ToKern));
    assert ptable[..] == DoneStep(s, p, ToKern).procs;
    return None;
  }
}
