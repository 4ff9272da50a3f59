/** The steps under ptable.lock, and fork(), keep the invariant of the process system. */
module ProcTable {
  import opened Basics
  import opened ProcSystem
  import opened ProcProof

  /** Processor c stays as it is and its process inside or outside ptable.lock as it was. */
  lemma TableRun(s: State, s': State, c: nat, p: nat)
    requires CpusOk(s) && Runs(s, c) && At(s, c) == p && s'.cpus == s.cpus && s'.lock == s.lock
      && |s'.procs| == |s.procs|
    requires forall q | 0 <= q < |s.procs| && q != p :: SameRun(s.procs[q], s'.procs[q])
    requires s'.procs[p].on == s.procs[p].on && s'.procs[p].held == s.procs[p].held
      && s'.procs[p].want == s.procs[p].want
    requires HoldsPt(s'.procs[p].pc) == HoldsPt(s.procs[p].pc) && s'.procs[p].pc != Parked
    ensures CpusOk(s')
  {
    Running(s, c);
    hide CpusOk;
    RunKept(s, s', c, p);
  }

  // ------------------------------------------------- waking

  ghost predicate Wakes(a: Proc, b: Proc) {
    b == a.(killed := b.killed) || (a.state == SLEEPING && b == a.(state := RUNNABLE, killed := b.killed))
  }

  ghost predicate AllWake(s: State, s': State) {
    && |s'.procs| == |s.procs| && s'.cpus == s.cpus && s'.lock == s.lock && s'.locks == s.locks && s'.cond == s.cond
    && s'.init == s.init
    && forall q | 0 <= q < |s.procs| :: Wakes(s.procs[q], s'.procs[q])
  }

  lemma AllWakeCpus(s: State, s': State)
    requires CpusOk(s) && ProcsOk(s) && AllWake(s, s')
    ensures CpusOk(s') && ProcsOk(s')
  {
    forall c | 0 <= c < |s'.cpus| ensures CpuOk(s', c) { assert CpuOk(s, c); }
    forall p | 0 <= p < |s'.procs|
      ensures ProcOk(s'.procs[p], p) { assert ProcOk(s.procs[p], p) && Wakes(s.procs[p], s'.procs[p]); }
  }

  lemma AllWakeFamily(s: State, s': State)
    requires FamilyOk(s) && AllWake(s, s')
    ensures FamilyOk(s')
  {
    assert AllFamily(s, s');
    FamilyIn(s);
    hide FamilyOk;
    FamilyKept(s, s');
  }

  lemma AllWakeWake(s: State, s': State)
    requires WakeOk(s) && AllWake(s, s')
    ensures WakeOk(s')
  {
    forall p, k | 0 <= p < |s'.procs| && 0 <= k < |s'.cond| && Waits(s'.procs[p], k) && s'.cond[k].holds
      ensures Owed(s', k)
    {
      assert Waits(s.procs[p], k);
      var q :| 0 <= q < |s.procs| && k in s.procs[q].owes;
      assert k in s'.procs[q].owes;
    }
  }

  lemma AllWakeWaiters(s: State, s': State)
    requires WaitersOk(s) && AllWake(s, s')
    ensures WaitersOk(s')
  { }

  lemma AllWakeKeeps(s: State, s': State)
    requires Inv(s) && AllWake(s, s')
    ensures Inv(s')
  {
    hide CpusOk, ProcsOk, LocksOk, FamilyOk, WaitersOk, WakeOk;
    AllWakeCpus(s, s');
    AllWakeFamily(s, s');
    AllWakeWaiters(s, s');
    AllWakeWake(s, s');
    LocksKept(s, s');
  }

  /** A process inside ptable.lock is done with it. */
  lemma DoneKeeps(s: State, c: nat, next: Next)
    requires Inv(s) && Runs(s, c) && Cur(s, c).pc.Locked? && (next.ToKern? || Cur(s, c).held == {})
      && !SleepPc(Cur(s, c))
    ensures Inv(DoneStep(s, At(s, c), next))
  {
    hide CpusOk, ProcsOk, LocksOk, FamilyOk, WaitersOk, WakeOk;
    var p, s' := At(s, c), DoneStep(s, At(s, c), next);
    DoneOk(s, c, next);
    hide ProcOk;
    TableRun(s, s', c, p);
    LocksKept(s, s');
    PlaceKept(s, s', p);
    WakeKept(s, s');
  }

  lemma DoneOk(s: State, c: nat, next: Next)
    requires CpusOk(s) && ProcsOk(s) && Runs(s, c) && Cur(s, c).pc.Locked? && (next.ToKern? || Cur(s, c).held == {})
    ensures ProcOk(Cur(s, c).(pc := Done(next)), At(s, c)) && Cur(s, c).state == RUNNING && Cur(s, c).on == Some(c)
  {
    Running(s, c);
    assert ProcOk(Cur(s, c), At(s, c));
  }

  lemma KillWakes(s: State, q: nat)
    requires q < |s.procs|
    ensures var state := if s.procs[q].state == SLEEPING then RUNNABLE else s.procs[q].state;
      AllWake(s, SetP(s, q, s.procs[q].(killed := true, state := state)))
  { }

  lemma KillKeeps(s: State, c: nat, q: nat)
    requires Inv(s) && Has(s, c, Kill(q)) && q < |s.procs|
    ensures Inv(KillStep(s, At(s, c), q))
  {
    hide Inv, AllWake;
    var state := if s.procs[q].state == SLEEPING then RUNNABLE else s.procs[q].state;
    var s1 := SetP(s, q, s.procs[q].(killed := true, state := state));
    KillWakes(s, q);
    AllWakeKeeps(s, s1);
    DoneKeeps(s1, c, ToKern);
  }

  lemma ProcAt(s: State, q: nat)
    requires ProcsOk(s) && q < |s.procs|
    ensures ProcOk(s.procs[q], q)
  { }

  lemma WakeupWake(s1: State, c: nat, p: nat, k: nat, back: Next)
    requires CpusOk(s1) && ProcsOk(s1) && WakeOk(s1) && Runs(s1, c) && At(s1, c) == p
      && s1.procs[p].pc == Locked(Wakeup(k, back))
    requires forall q | 0 <= q < |s1.procs| :: !(s1.procs[q].state == SLEEPING && s1.procs[q].chan == OnCond(k))
    ensures WakeOk(SetP(s1, p, s1.procs[p].(owes := s1.procs[p].owes - {k}, pc := Done(back))))
  {
    var s' := SetP(s1, p, s1.procs[p].(owes := s1.procs[p].owes - {k}, pc := Done(back)));
    hide CpusOk, ProcsOk;
    forall q, j | 0 <= q < |s'.procs| && 0 <= j < |s'.cond| && Waits(s'.procs[q], j) && s'.cond[j].holds
      ensures Owed(s', j)
    {
      assert Waits(s1.procs[q], j);
      if j == k {
        Running(s1, c);
        ProcAt(s1, q);
        InsideOnly(s1, p, q);
      } else {
        var r :| 0 <= r < |s1.procs| && j in s1.procs[r].owes;
        assert j in s'.procs[r].owes;
      }
    }
  }

  lemma WakeupKeeps(s: State, c: nat, k: nat, back: Next)
    requires Inv(s) && Has(s, c, Wakeup(k, back))
    ensures Inv(WakeupStep(s, At(s, c), k, back))
  {
    hide CpusOk, ProcsOk, LocksOk, FamilyOk, WaitersOk, WakeOk, ProcOk;
    var p, s1 := At(s, c), s.(procs := Woken(s.procs, OnCond(k)));
    WakeupOk(s, c, k, back);
    assert AllWake(s, s1);
    AllWakeKeeps(s, s1);
    assert s1.procs[p] == s.procs[p];
    WakeupEnds(s1, c, k, back);
  }

  lemma WakeupEnds(s1: State, c: nat, k: nat, back: Next)
    requires Inv(s1) && Has(s1, c, Wakeup(k, back))
      && ProcOk(Cur(s1, c).(owes := Cur(s1, c).owes - {k}, pc := Done(back)), At(s1, c))
    requires forall q | 0 <= q < |s1.procs| :: !(s1.procs[q].state == SLEEPING && s1.procs[q].chan == OnCond(k))
    ensures Inv(SetP(s1, At(s1, c), Cur(s1, c).(owes := Cur(s1, c).owes - {k}, pc := Done(back))))
  {
    hide CpusOk, ProcsOk, LocksOk, FamilyOk, WaitersOk, WakeOk, ProcOk;
    var p := At(s1, c);
    var s' := SetP(s1, p, s1.procs[p].(owes := s1.procs[p].owes - {k}, pc := Done(back)));
    WakeupWake(s1, c, p, k, back);
    TableRun(s1, s', c, p);
    LocksKept(s1, s');
    ProcsKept(s1, s', p);
    FamilyIn(s1);
    FamilyKept(s1, s');
    WaitersKept(s1, s');
  }

  lemma WakeupOk(s: State, c: nat, k: nat, back: Next)
    requires CpusOk(s) && ProcsOk(s) && Has(s, c, Wakeup(k, back))
    ensures Cur(s, c).state == RUNNING && ProcOk(Cur(s, c).(owes := Cur(s, c).owes - {k}, pc := Done(back)), At(s, c))
  {
    Running(s, c);
    assert ProcOk(Cur(s, c), At(s, c));
  }

  lemma IntrWake(s1: State, k: nat)
    requires CpusOk(s1) && ProcsOk(s1) && WakeOk(s1) && s1.lock.None? && k < |s1.cond|
    requires forall q | 0 <= q < |s1.procs| :: !(s1.procs[q].state == SLEEPING && s1.procs[q].chan == OnCond(k))
    ensures WakeOk(s1.(cond := s1.cond[k := s1.cond[k].(holds := true)]))
  {
    var s' := s1.(cond := s1.cond[k := s1.cond[k].(holds := true)]);
    forall q | 0 <= q < |s1.procs| ensures !SleepPc(s1.procs[q]) {
      assert ProcOk(s1.procs[q], q);
      if SleepPc(s1.procs[q]) { Inside(s1, q); }
    }
    forall q, j | 0 <= q < |s'.procs| && 0 <= j < |s'.cond| && Waits(s'.procs[q], j) && s'.cond[j].holds
      ensures Owed(s', j)
    {
      assert j != k;
      assert Waits(s1.procs[q], j);
      assert Owed(s1, j);
    }
  }

  lemma WokenAll(s: State, chan: Chan)
    ensures AllWake(s, s.(procs := Woken(s.procs, chan)))
  { }

  lemma CondCpus(s: State, cond: seq<Cond>)
    requires CpusOk(s) && ProcsOk(s)
    ensures CpusOk(s.(cond := cond)) && ProcsOk(s.(cond := cond))
  {
    forall c | 0 <= c < |s.cpus| ensures CpuOk(s.(cond := cond), c) { assert CpuOk(s, c); }
  }

  lemma SIntrKeeps(s: State, k: nat)
    requires Inv(s) && s.lock.None? && k < |s.cond|
    ensures Inv(SIntrStep(s, k))
  {
    hide CpusOk, ProcsOk, LocksOk, FamilyOk, WaitersOk, WakeOk, AllWake;
    var s1 := s.(procs := Woken(s.procs, OnCond(k)));
    var s' := s1.(cond := s1.cond[k := s1.cond[k].(holds := true)]);
    WokenAll(s, OnCond(k));
    AllWakeKeeps(s, s1);
    IntrWake(s1, k);
    CondCpus(s1, s'.cond);
    LocksKept(s1, s');
    FamilyIn(s1);
    FamilyKept(s1, s');
    WaitersKept(s1, s');
  }

  // ------------------------------------------------- yield(), sleep() and wait() leaving

  lemma LeaveOk(s: State, c: nat, state: PState, chan: Chan, frame: Frame)
    requires CpusOk(s) && ProcsOk(s) && Runs(s, c) && Cur(s, c).pc.Locked? && Cur(s, c).held == {}
    requires (state == RUNNABLE && frame.InYield?)
      || (state == SLEEPING
         && ((frame.InSleep? && chan == OnCond(frame.k))
         || (frame == InWait && chan == OnProc(At(s, c)) && Cur(s, c).fork.None?)))
    ensures Cur(s, c).state == RUNNING && ProcOk(LeaveStep(s, At(s, c), state, chan, frame).procs[At(s, c)], At(s, c))
  {
    Running(s, c);
    assert ProcOk(Cur(s, c), At(s, c));
  }

  lemma LeaveKeeps(s: State, c: nat, state: PState, chan: Chan, frame: Frame)
    requires Inv(s) && Runs(s, c) && Cur(s, c).pc.Locked? && Cur(s, c).held == {}
    requires (state == RUNNABLE && frame.InYield?)
      || (state == SLEEPING
         && ((frame.InSleep? && chan == OnCond(frame.k))
         || (frame == InWait && chan == OnProc(At(s, c)) && Cur(s, c).fork.None?)))
    requires state == SLEEPING && chan.OnCond? ==> Waits(Cur(s, c), chan.k)
    requires state == SLEEPING && chan.OnProc? ==> !HasZombie(s.procs, At(s, c))
    ensures Inv(LeaveStep(s, At(s, c), state, chan, frame))
  {
    hide CpusOk, ProcsOk, LocksOk, FamilyOk, WaitersOk, WakeOk, ProcOk, HasZombie;
    var p, s' := At(s, c), LeaveStep(s, At(s, c), state, chan, frame);
    LeaveOk(s, c, state, chan, frame);
    LeaveWaiters(s, p, state, chan, frame);
    TableRun(s, s', c, p);
    LocksKept(s, s');
    ProcsKept(s, s', p);
    FamilyIn(s);
    FamilyKept(s, s');
    AwakeWake(s, s', p);
  }

  lemma LeaveWaiters(s: State, p: nat, state: PState, chan: Chan, frame: Frame)
    requires WaitersOk(s) && p < |s.procs| && s.procs[p].state == RUNNING && (state == RUNNABLE || state == SLEEPING)
    requires state == SLEEPING && chan == OnProc(p) ==> !HasZombie(s.procs, p)
    ensures WaitersOk(LeaveStep(s, p, state, chan, frame))
  { }

  // ------------------------------------------------- wait() finding a zombie

  lemma ReapForks(s: State, p: nat, q: nat)
    requires ForksOk(s) && p < |s.procs| && q < |s.procs| && s.procs[q].state == ZOMBIE && s.procs[p].pc == Locked(Wait)
    ensures ForksOk(ReapStep(s, p, q))
  {
    var s' := ReapStep(s, p, q);
    forall f | 0 <= f < |s'.procs| && s'.procs[f].fork.Some? ensures ForkOk(s', f, s'.procs[f].fork.value) {
      assert ForkOk(s, f, s.procs[f].fork.value);
    }
  }

  lemma ReapParents(s: State, p: nat, q: nat)
    requires ParentsOk(s) && p < |s.procs| && q < |s.procs| && s.procs[q].state == ZOMBIE
      && s.procs[p].state == RUNNING && s.procs[p].pc == Locked(Wait)
    ensures ParentsOk(ReapStep(s, p, q))
  {
    var s' := ReapStep(s, p, q);
    forall r | 0 <= r < |s'.procs| && s'.procs[r].parent.Some? ensures ParentOf(s', r, s'.procs[r].parent.value) {
      assert ParentOf(s, r, s.procs[r].parent.value);
    }
  }

  lemma ReapFamily(s: State, p: nat, q: nat)
    requires FamilyOk(s) && p < |s.procs| && q < |s.procs| && s.procs[q].state == ZOMBIE
      && s.procs[p].state == RUNNING && s.procs[p].pc == Locked(Wait)
    ensures FamilyOk(ReapStep(s, p, q))
  {
    hide ParentsOk, ForksOk;
    ReapParents(s, p, q);
    ReapForks(s, p, q);
  }

  lemma ReapWaiters(s: State, p: nat, q: nat)
    requires WaitersOk(s) && p < |s.procs| && q < |s.procs| && s.procs[q].state == ZOMBIE && p != q
    ensures WaitersOk(ReapStep(s, p, q))
  { }

  lemma ReapWake(s: State, p: nat, q: nat)
    requires WakeOk(s) && p < |s.procs| && q < |s.procs| && s.procs[q].state == ZOMBIE
      && s.procs[p].pc == Locked(Wait) && p != q && s.procs[q].pc == Parked
    requires s.procs[p].state == RUNNING
    ensures WakeOk(ReapStep(s, p, q))
  {
    var s' := ReapStep(s, p, q);
    forall r, j | 0 <= r < |s'.procs| && 0 <= j < |s'.cond| && Waits(s'.procs[r], j) && s'.cond[j].holds
      ensures Owed(s', j)
    {
      assert Waits(s.procs[r], j);
      var o :| 0 <= o < |s.procs| && j in s.procs[o].owes;
      assert j in s'.procs[o].owes;
    }
  }

  lemma ReapOk(s: State, c: nat, q: nat)
    requires CpusOk(s) && ProcsOk(s) && Has(s, c, Wait) && q < |s.procs| && s.procs[q].state == ZOMBIE
    ensures var p, s' := At(s, c), ReapStep(s, At(s, c), q);
      && p != q && s.procs[p].state == RUNNING && s.procs[q].pc == Parked && s.procs[q].on.None? && CpusOk(s')
      && ProcsOk(s')
  {
    var p, s' := At(s, c), ReapStep(s, At(s, c), q);
    Running(s, c);
    assert ProcOk(s.procs[p], p) && ProcOk(s.procs[q], q);
    OffCpu(s, c, q);
    assert ProcOk(s'.procs[p], p) && ProcOk(s'.procs[q], q);
    hide CpusOk, ProcOk;
    TableRun(s, s', c, p);
  }

  lemma ReapKeeps(s: State, c: nat, q: nat)
    requires Inv(s) && Has(s, c, Wait) && q < |s.procs| && s.procs[q].state == ZOMBIE
    ensures Inv(ReapStep(s, At(s, c), q))
  {
    hide CpusOk, ProcsOk, LocksOk, FamilyOk, WaitersOk, WakeOk, ProcOk;
    var p, s' := At(s, c), ReapStep(s, At(s, c), q);
    ReapOk(s, c, q);
    ReapFamily(s, p, q);
    ReapWaiters(s, p, q);
    ReapWake(s, p, q);
    LocksKept(s, s');
  }

  lemma WaitKeeps(s: State, c: nat, s': State)
    requires Inv(s) && Has(s, c, Wait) && WaitStep(s, At(s, c), s')
    ensures Inv(s')
  {
    var p := At(s, c);
    WaitPlace(s, c);
    hide Inv;
    if HasZombie(s.procs, p) {
      var q :| IsZombieChild(s, p, q) && s' == ReapStep(s, p, q);
      ReapKeeps(s, c, q);
    } else if !HasChild(s.procs, p) || s.procs[p].killed {
      DoneKeeps(s, c, ToKern);
    } else {
      LeaveKeeps(s, c, SLEEPING, OnProc(p), InWait);
    }
  }

  lemma WaitPlace(s: State, c: nat)
    requires ProcsOk(s) && Has(s, c, Wait)
    ensures Cur(s, c).held == {} && Cur(s, c).fork.None?
  {
    assert ProcOk(Cur(s, c), At(s, c));
  }
}
