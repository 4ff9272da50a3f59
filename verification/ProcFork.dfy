/** fork() and exit() keep the invariant of the process system. */
module ProcFork {
  import opened Basics
  import opened ProcSystem
  import opened ProcProof
  import opened ProcTable

  // ------------------------------------------------- allocproc()

  lemma SlotFamily(s: State, p: nat, q: nat)
    requires FamilyOk(s) && p < |s.procs| && FreeSlot(s, q) && s.procs[p].state == RUNNING && s.procs[p].fork.None?
      && s.procs[p].pc == Locked(Alloc)
    ensures FamilyOk(TakeSlot(s, p, q))
  {
    var s' := TakeSlot(s, p, q);
    SlotParents(s, p, q);
    hide ParentsOk;
    FreeHasNoParent(s, q);
    SlotForks(s, p, q);
  }

  lemma SlotForks(s: State, p: nat, q: nat)
    requires ForksOk(s) && p < |s.procs| && FreeSlot(s, q) && s.procs[q].parent.None? && s.procs[p].state == RUNNING
      && s.procs[p].fork.None?
    requires s.procs[p].pc == Locked(Alloc)
    ensures ForksOk(TakeSlot(s, p, q))
  {
    var s' := TakeSlot(s, p, q);
    forall f | 0 <= f < |s'.procs| && s'.procs[f].fork.Some? ensures ForkOk(s', f, s'.procs[f].fork.value) {
      if f != p { assert ForkOk(s, f, s.procs[f].fork.value); }
    }
    forall f, g | 0 <= f < |s'.procs| && 0 <= g < |s'.procs| && f != g && s'.procs[f].fork.Some?
      ensures s'.procs[g].fork != s'.procs[f].fork
    {
      hide ForkOk;
      SlotNew(s, p, q, f);
      SlotNew(s, p, q, g);
    }
  }

  lemma SlotNew(s: State, p: nat, q: nat, f: nat)
    requires ForksOk(s) && p < |s.procs| && f < |s.procs| && FreeSlot(s, q)
    ensures s.procs[f].fork != Some(q)
  {
    if s.procs[f].fork.Some? { assert ForkOk(s, f, s.procs[f].fork.value); }
  }

  lemma FreeHasNoParent(s: State, q: nat)
    requires ParentsOk(s) && FreeSlot(s, q)
    ensures s.procs[q].parent.None?
  { }

  lemma SlotParents(s: State, p: nat, q: nat)
    requires ParentsOk(s) && p < |s.procs| && FreeSlot(s, q) && s.procs[p].state == RUNNING
    ensures ParentsOk(TakeSlot(s, p, q))
  { }

  lemma SlotOk(s: State, c: nat, q: nat)
    requires CpusOk(s) && ProcsOk(s) && Has(s, c, Alloc) && FreeSlot(s, q)
    ensures var p, s' := At(s, c), TakeSlot(s, At(s, c), q);
      p != q && s.procs[p].state == RUNNING && s.procs[p].fork.None? && s.procs[q].pc == Parked && CpusOk(s')
        && ProcsOk(s')
  {
    var p, s' := At(s, c), TakeSlot(s, At(s, c), q);
    Running(s, c);
    assert ProcOk(s.procs[p], p) && ProcOk(s.procs[q], q);
    assert ProcOk(s'.procs[p], p) && ProcOk(s'.procs[q], q);
    hide CpusOk, ProcOk;
    TableRun(s, s', c, p);
  }

  /** A change of two processes none of which waits or is a zombie, before or after. */
  lemma QuietKept(s: State, s': State, p: nat, q: nat)
    requires WaitersOk(s) && WakeOk(s) && p < |s.procs| == |s'.procs| && q < |s.procs| && s'.cond == s.cond
    requires forall r | 0 <= r < |s.procs| && r != p && r != q :: s'.procs[r] == s.procs[r]
    requires Quiet(s.procs[p], s'.procs[p]) && Quiet(s.procs[q], s'.procs[q])
    ensures WaitersOk(s') && WakeOk(s')
  {
    forall r, j | 0 <= r < |s'.procs| && 0 <= j < |s'.cond| && Waits(s'.procs[r], j) && s'.cond[j].holds
      ensures Owed(s', j)
    {
      assert Waits(s.procs[r], j);
      var o :| 0 <= o < |s.procs| && j in s.procs[o].owes;
      assert j in s'.procs[o].owes;
    }
  }

  ghost predicate Quiet(a: Proc, b: Proc) {
    a.state != ZOMBIE && b.state != ZOMBIE && b.state != SLEEPING && !SleepPc(b) && b.owes == a.owes
  }

  lemma AllocKeeps(s: State, c: nat, s': State)
    requires Inv(s) && Has(s, c, Alloc) && AllocStep(s, At(s, c), s')
    ensures Inv(s')
  {
    hide CpusOk, ProcsOk, LocksOk, FamilyOk, WaitersOk, WakeOk;
    var p := At(s, c);
    if s' == DoneStep(s, p, ToKern) {
      DoneKeeps(s, c, ToKern);
    } else {
      var q :| FreeSlot(s, q) && s' == TakeSlot(s, p, q);
      SlotOk(s, c, q);
      SlotFamily(s, p, q);
      QuietKept(s, s', p, q);
      LocksKept(s, s');
    }
  }

  // ------------------------------------------------- the rest of fork()

  lemma ForkFacts(s: State, c: nat, q: nat)
    requires CpusOk(s) && ProcsOk(s) && ForksOk(s) && Runs(s, c) && Cur(s, c).fork == Some(q)
    ensures q < |s.procs| && q != At(s, c) && s.procs[q].state == EMBRYO && s.procs[q].on.None?
      && s.procs[q].pc == Parked
    ensures Alive(Cur(s, c).state) && (Cur(s, c).pc == Locked(ForkDone) ==> s.procs[q].parent == Some(At(s, c)))
    ensures Cur(s, c).pc == Kern || Cur(s, c).pc.Locked? ==> Cur(s, c).state == RUNNING
  {
    Running(s, c);
    assert ForkOk(s, At(s, c), q);
    assert ProcOk(s.procs[q], q) && ProcOk(Cur(s, c), At(s, c));
  }

  lemma ParentParents(s: State, p: nat, q: nat)
    requires ParentsOk(s) && p < |s.procs| && q < |s.procs| && Alive(s.procs[p].state) && s.procs[q].state == EMBRYO
    ensures ParentsOk(SetP(s, q, s.procs[q].(parent := Some(p))))
  { }

  lemma ParentForks(s: State, p: nat, q: nat)
    requires ForksOk(s) && p < |s.procs| && q < |s.procs| && s.procs[p].fork == Some(q) && s.procs[p].pc == Kern
    ensures ForksOk(SetP(s, q, s.procs[q].(parent := Some(p))))
  {
    var s' := SetP(s, q, s.procs[q].(parent := Some(p)));
    forall f | 0 <= f < |s'.procs| && s'.procs[f].fork.Some? ensures ForkOk(s', f, s'.procs[f].fork.value) {
      assert ForkOk(s, f, s.procs[f].fork.value);
    }
  }

  lemma SetParentKeeps(s: State, c: nat, q: nat)
    requires Inv(s) && Forks(s, c, q)
    ensures Inv(SetP(s, q, s.procs[q].(parent := Some(At(s, c)))))
  {
    hide CpusOk, ProcsOk, LocksOk, ParentsOk, ForksOk, WaitersOk, WakeOk, ProcOk;
    var p, s' := At(s, c), SetP(s, q, s.procs[q].(parent := Some(At(s, c))));
    ForkFacts(s, c, q);
    OkOf(s, p);
    OkOf(s, q);
    ParentParents(s, p, q);
    ParentForks(s, p, q);
    ParentOk(s.procs[q], q, Some(p));
    ProcsKept(s, s', q);
    TableRun(s, s', c, p);
    LocksKept(s, s');
    QuietKept(s, s', q, q);
  }

  lemma OkOf(s: State, p: nat)
    requires ProcsOk(s) && p < |s.procs|
    ensures ProcOk(s.procs[p], p)
  { }

  lemma ParentOk(pr: Proc, p: nat, parent: Option<nat>)
    requires ProcOk(pr, p)
    ensures ProcOk(pr.(parent := parent), p)
  { }

  lemma FailFamily(s: State, p: nat, q: nat)
    requires FamilyOk(s) && p < |s.procs| && q < |s.procs| && p != q && s.procs[p].fork == Some(q)
      && s.procs[q].state == EMBRYO && s.procs[q].parent.None?
    ensures FamilyOk(ForkFailStep(s, p, q))
  {
    var s' := ForkFailStep(s, p, q);
    FailParents(s, p, q);
    hide ParentsOk;
    forall f | 0 <= f < |s'.procs| && s'.procs[f].fork.Some? ensures ForkOk(s', f, s'.procs[f].fork.value) {
      assert ForkOk(s, f, s.procs[f].fork.value);
    }
  }

  lemma FailParents(s: State, p: nat, q: nat)
    requires ParentsOk(s) && p < |s.procs| && q < |s.procs| && p != q && s.procs[q].state == EMBRYO
      && s.procs[q].parent.None?
    ensures ParentsOk(ForkFailStep(s, p, q))
  { }

  lemma ForkFailProcs(s: State, c: nat, q: nat)
    requires ProcsOk(s) && Runs(s, c) && q < |s.procs| && q != At(s, c) && s.procs[q].state == EMBRYO
      && Cur(s, c).pc == Kern
    ensures ProcsOk(ForkFailStep(s, At(s, c), q))
  {
    var p, s' := At(s, c), ForkFailStep(s, At(s, c), q);
    assert ProcOk(s.procs[p], p) && ProcOk(s.procs[q], q);
    assert ProcOk(s'.procs[p], p) && ProcOk(s'.procs[q], q);
  }

  lemma ForkFailKeeps(s: State, c: nat, q: nat)
    requires Inv(s) && Forks(s, c, q) && s.procs[q].parent.None?
    ensures Inv(ForkFailStep(s, At(s, c), q))
  {
    hide CpusOk, ProcsOk, LocksOk, ParentsOk, ForksOk, WaitersOk, WakeOk, ProcOk;
    var p, s' := At(s, c), ForkFailStep(s, At(s, c), q);
    ForkFacts(s, c, q);
    ForkFailProcs(s, c, q);
    FailFamily(s, p, q);
    TableRun(s, s', c, p);
    LocksKept(s, s');
    QuietKept(s, s', p, q);
  }

  lemma DoneForks(s: State, p: nat, q: nat)
    requires ForksOk(s) && p < |s.procs| && q < |s.procs| && p != q && s.procs[p].fork == Some(q)
    ensures ForksOk(ForkDoneStep(s, p, q))
  {
    var s' := ForkDoneStep(s, p, q);
    forall f | 0 <= f < |s'.procs| && s'.procs[f].fork.Some? ensures ForkOk(s', f, s'.procs[f].fork.value) {
      assert ForkOk(s, f, s.procs[f].fork.value);
    }
  }

  lemma DoneParents(s: State, p: nat, q: nat)
    requires ParentsOk(s) && p < |s.procs| && q < |s.procs| && p != q && s.procs[q].state == EMBRYO
      && s.procs[q].parent == Some(p)
    ensures ParentsOk(ForkDoneStep(s, p, q))
  {
    var s' := ForkDoneStep(s, p, q);
    forall r | 0 <= r < |s'.procs| && s'.procs[r].parent.Some? ensures ParentOf(s', r, s'.procs[r].parent.value) {
      assert ParentOf(s, r, s.procs[r].parent.value);
    }
  }

  lemma ForkDoneProcs(s: State, c: nat, q: nat)
    requires ProcsOk(s) && Has(s, c, ForkDone) && q < |s.procs| && q != At(s, c) && s.procs[q].state == EMBRYO
    ensures ProcsOk(ForkDoneStep(s, At(s, c), q))
  {
    var p, s' := At(s, c), ForkDoneStep(s, At(s, c), q);
    assert ProcOk(s.procs[p], p) && ProcOk(s.procs[q], q);
    assert ProcOk(s'.procs[p], p) && ProcOk(s'.procs[q], q);
  }

  lemma ForkDoneKeeps(s: State, c: nat, q: nat)
    requires Inv(s) && Has(s, c, ForkDone) && Cur(s, c).fork == Some(q) && q < |s.procs|
    ensures Inv(ForkDoneStep(s, At(s, c), q))
  {
    hide CpusOk, ProcsOk, LocksOk, ParentsOk, ForksOk, WaitersOk, WakeOk, ProcOk;
    var p, s' := At(s, c), ForkDoneStep(s, At(s, c), q);
    ForkFacts(s, c, q);
    ForkDoneProcs(s, c, q);
    DoneParents(s, p, q);
    DoneForks(s, p, q);
    TableRun(s, s', c, p);
    LocksKept(s, s');
    QuietKept(s, s', p, q);
  }

  // ------------------------------------------------- exit()

  /** The last part of exit(): children to init, and p a zombie. */
  function Gone(s: State, p: nat): State
    requires p < |s.procs|
  {
    var procs := Reparented(s.procs, p, s.init);
    s.(procs := procs[p := procs[p].(state := ZOMBIE, pc := Leaving, frame := Nowhere)])
  }

  lemma GoneParents(s: State, p: nat)
    requires ParentsOk(s) && p < |s.procs| && s.procs[p].state == RUNNING && p != s.init
    ensures ParentsOk(Gone(s, p))
  {
    var s' := Gone(s, p);
    forall q | 0 <= q < |s'.procs| && s'.procs[q].parent.Some? ensures ParentOf(s', q, s'.procs[q].parent.value) {
      assert ParentOf(s, q, s.procs[q].parent.value);
    }
  }

  lemma GoneForks(s: State, p: nat)
    requires ForksOk(s) && p < |s.procs| && s.procs[p].fork.None? && s.procs[p].state == RUNNING
    ensures ForksOk(Gone(s, p))
  {
    var s' := Gone(s, p);
    forall f | 0 <= f < |s'.procs| && s'.procs[f].fork.Some? ensures ForkOk(s', f, s'.procs[f].fork.value) {
      assert f != p && ForkOk(s, f, s.procs[f].fork.value);
    }
  }

  /** r does not sleep in wait(). */
  predicate NotWaiting(s: State, r: nat) {
    r < |s.procs| ==> !(s.procs[r].state == SLEEPING && s.procs[r].chan == OnProc(r))
  }

  lemma GoneWaiters(s: State, p: nat)
    requires WaitersOk(s) && ParentsOk(s) && p < |s.procs| && s.procs[p].state == RUNNING && p != s.init
    requires s.procs[p].parent.Some? ==> NotWaiting(s, s.procs[p].parent.value)
    requires HasZombie(s.procs, p) ==> NotWaiting(s, s.init)
    ensures WaitersOk(Gone(s, p))
  {
    var s' := Gone(s, p);
    forall q | 0 <= q < |s'.procs| && s'.procs[q].state == ZOMBIE && s'.procs[q].parent.Some?
      && s'.procs[q].parent.value < |s'.procs|
      ensures NotWaiting(s', s'.procs[q].parent.value)
    {
      assert ParentOf(s, q, s.procs[q].parent.value);
      if q != p && s.procs[q].parent == Some(p) { assert HasZombie(s.procs, p); }
    }
  }

  lemma GoneWake(s: State, p: nat)
    requires WakeOk(s) && p < |s.procs| && s.procs[p].state == RUNNING && !SleepPc(s.procs[p])
    ensures WakeOk(Gone(s, p))
  {
    var s' := Gone(s, p);
    forall r, j | 0 <= r < |s'.procs| && 0 <= j < |s'.cond| && Waits(s'.procs[r], j) && s'.cond[j].holds
      ensures Owed(s', j)
    {
      assert Waits(s.procs[r], j);
      var o :| 0 <= o < |s.procs| && j in s.procs[o].owes;
      assert j in s'.procs[o].owes;
    }
  }

  lemma GoneOk(s: State, c: nat)
    requires CpusOk(s) && ProcsOk(s) && Has(s, c, Exit)
    ensures CpusOk(Gone(s, At(s, c))) && ProcsOk(Gone(s, At(s, c))) && Cur(s, c).state == RUNNING
      && Cur(s, c).fork.None?
  {
    var p, s' := At(s, c), Gone(s, At(s, c));
    Running(s, c);
    forall q | 0 <= q < |s'.procs| ensures ProcOk(s'.procs[q], q) {
      assert ProcOk(s.procs[q], q);
      if q != p { ParentOk(s.procs[q], q, s'.procs[q].parent); }
    }
    hide CpusOk, ProcOk;
    TableRun(s, s', c, p);
  }

  lemma GoneKeeps(s: State, c: nat)
    requires Inv(s) && Has(s, c, Exit) && At(s, c) != s.init
    requires Cur(s, c).parent.Some? ==> NotWaiting(s, Cur(s, c).parent.value)
    requires HasZombie(s.procs, At(s, c)) ==> NotWaiting(s, s.init)
    ensures Inv(Gone(s, At(s, c)))
  {
    hide CpusOk, ProcsOk, LocksOk, ParentsOk, ForksOk, WaitersOk, WakeOk, HasZombie;
    var p := At(s, c);
    GoneOk(s, c);
    GoneParents(s, p);
    GoneForks(s, p);
    GoneWaiters(s, p);
    GoneWake(s, p);
    LocksKept(s, Gone(s, p));
  }

  /** wakeup1() on a process of the table. */
  lemma WokenKeeps(s: State, r: nat)
    requires Inv(s)
    ensures var s' := s.(procs := Woken(s.procs, OnProc(r)));
      Inv(s') && NotWaiting(s', r) && AllWake(s, s')
  {
    hide Inv, AllWake;
    WokenAll(s, OnProc(r));
    AllWakeKeeps(s, s.(procs := Woken(s.procs, OnProc(r))));
  }

  lemma StillNotWaiting(s: State, s': State, r: nat)
    requires AllWake(s, s') && NotWaiting(s, r)
    ensures NotWaiting(s', r)
  { }

  lemma StillHas(s: State, s': State, c: nat)
    requires ProcsOk(s) && CpusOk(s) && AllWake(s, s') && Has(s, c, Exit)
    ensures Has(s', c, Exit) && At(s', c) == At(s, c) && Cur(s', c).parent == Cur(s, c).parent
  {
    Running(s, c);
    assert ProcOk(Cur(s, c), At(s, c));
    assert Wakes(Cur(s, c), Cur(s', c));
  }

  lemma ExitKeeps(s: State, c: nat)
    requires Inv(s) && Has(s, c, Exit)
    ensures Inv(s.(procs := Exited(s, At(s, c))))
  {
    var p := At(s, c);
    NotInit(s, c);
    var parent := s.procs[p].parent;
    hide CpusOk, ProcsOk, LocksOk, FamilyOk, WaitersOk, WakeOk, AllWake, HasZombie;
    var s1 := if parent.Some? then s.(procs := Woken(s.procs, OnProc(parent.value))) else s;
    if parent.Some? {
      WokenKeeps(s, parent.value);
      StillHas(s, s1, c);
    }
    var s2 := if HasZombie(s1.procs, p) then s1.(procs := Woken(s1.procs, OnProc(s.init))) else s1;
    if HasZombie(s1.procs, p) {
      WokenKeeps(s1, s.init);
      StillHas(s1, s2, c);
      if parent.Some? { StillNotWaiting(s1, s2, parent.value); }
    }
    assert s.(procs := Exited(s, p)) == Gone(s2, p);
    GoneKeeps(s2, c);
  }

  lemma NotInit(s: State, c: nat)
    requires ParentsOk(s) && Has(s, c, Exit)
    ensures At(s, c) != s.init
  { }
}
