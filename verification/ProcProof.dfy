/** Every step of the process system keeps its invariant. */
module ProcProof {
  import opened Basics
  import opened ProcSystem

  // ------------------------------------------------- what a step leaves alone

  ghost predicate SameRun(a: Proc, b: Proc) {
    a.on == b.on && a.pc == b.pc && a.held == b.held && a.want == b.want
  }

  /** ptable.lock stays where it is, or processor c takes it or gives it up. */
  ghost predicate LockMoves(s: State, s': State, c: nat) {
    s'.lock == s.lock || (s.lock.None? && s'.lock == Some(c)) || (s.lock == Some(c) && s'.lock.None?)
  }

  /** Only processor c and the processes coming to it or leaving it are touched. */
  ghost predicate OnlyCpu(s: State, s': State, c: nat) {
    && c < |s.cpus| && |s'.cpus| == |s.cpus| && |s'.procs| == |s.procs| && LockMoves(s, s', c)
    && (forall d | 0 <= d < |s.cpus| && d != c :: s'.cpus[d] == s.cpus[d])
    && (forall q | 0 <= q < |s.procs| ::
       s.procs[q].on != Some(c) && s'.procs[q].on != Some(c) ==> SameRun(s.procs[q], s'.procs[q]))
    && (forall q | 0 <= q < |s.procs| ::
       s'.procs[q].on == Some(c) ==> s'.cpus[c].proc == Some(q) && (s.procs[q].on.None? || s.procs[q].on == Some(c)))
    && (forall q | 0 <= q < |s.procs| :: s.procs[q].on == Some(c) ==> s'.procs[q].on.None? || s'.procs[q].on == Some(c))
  }

  lemma CpusKept(s: State, s': State, c: nat)
    requires CpusOk(s) && OnlyCpu(s, s', c) && CpuOk(s', c)
    ensures CpusOk(s')
  {
    forall d | 0 <= d < |s'.cpus| ensures CpuOk(s', d) {
      if d != c {
        assert CpuOk(s, d);
        if s.cpus[d].proc.Some? {
          var q := s.cpus[d].proc.value;
          assert s.procs[q].on == Some(d);
          assert SameRun(s.procs[q], s'.procs[q]);
        }
      }
    }
  }

  /** Only processor c and the process p it runs are touched. */
  ghost predicate OnlyRun(s: State, s': State, c: nat, p: nat) {
    && Runs(s, c) && At(s, c) == p && |s'.cpus| == |s.cpus| && |s'.procs| == |s.procs| && LockMoves(s, s', c)
    && (forall d | 0 <= d < |s.cpus| && d != c :: s'.cpus[d] == s.cpus[d])
    && s'.cpus[c].proc == Some(p) && s'.cpus[c].sched == SRun
    && (forall q | 0 <= q < |s.procs| && q != p :: SameRun(s.procs[q], s'.procs[q]))
  }

  lemma RunKept(s: State, s': State, c: nat, p: nat)
    requires CpusOk(s) && OnlyRun(s, s', c, p) && RunOk(s'.cpus[c], s'.procs[p], c, s'.lock)
    ensures CpusOk(s')
  {
    assert CpuOk(s, c);
    assert s.procs[p].on == Some(c);
    assert OnlyCpu(s, s', c);
    CpusKept(s, s', c);
  }

  /** Facts about the process on a processor. */
  lemma Running(s: State, c: nat)
    requires CpusOk(s) && Runs(s, c)
    ensures RunOk(s.cpus[c], Cur(s, c), c, s.lock)
  {
    assert CpuOk(s, c);
  }

  /** At most one process is inside ptable.lock, on the processor that holds it. */
  lemma Inside(s: State, p: nat)
    requires CpusOk(s) && ProcsOk(s) && p < |s.procs| && s.procs[p].on.Some?
      && (HoldsPt(s.procs[p].pc) || s.procs[p].pc == Parked)
    ensures s.lock == s.procs[p].on && s.lock.value < |s.cpus| && s.cpus[s.lock.value].proc == Some(p)
  {
    var c := s.procs[p].on.value;
    assert CpuOk(s, c);
  }

  lemma InsideOnly(s: State, p: nat, q: nat)
    requires CpusOk(s) && ProcsOk(s) && p < |s.procs| && q < |s.procs|
    requires s.procs[p].on.Some? && (HoldsPt(s.procs[p].pc) || s.procs[p].pc == Parked)
    requires s.procs[q].on.Some? && (HoldsPt(s.procs[q].pc) || s.procs[q].pc == Parked)
    ensures p == q
  {
    Inside(s, p);
    Inside(s, q);
  }

  /** A process that is not RUNNING while another one is inside is on no processor. */
  lemma OffCpu(s: State, c: nat, q: nat)
    requires CpusOk(s) && ProcsOk(s) && Runs(s, c) && HoldsPt(Cur(s, c).pc) && q < |s.procs|
      && s.procs[q].state != RUNNING && q != At(s, c)
    ensures s.procs[q].on.None? && s.procs[q].pc == Parked
  {
    assert ProcOk(s.procs[q], q);
    Running(s, c);
    if s.procs[q].on.Some? { InsideOnly(s, q, At(s, c)); }
  }

  lemma OffCpuScan(s: State, c: nat, q: nat)
    requires CpusOk(s) && ProcsOk(s) && c < |s.cpus| && s.cpus[c].sched == SScan && q < |s.procs|
      && s.procs[q].state != RUNNING
    ensures s.procs[q].on.None? && s.procs[q].pc == Parked
  {
    assert ProcOk(s.procs[q], q);
    assert CpuOk(s, c);
    if s.procs[q].on.Some? { Inside(s, q); }
  }

  lemma ProcsKept(s: State, s': State, p: nat)
    requires ProcsOk(s) && p < |s.procs| == |s'.procs| && ProcOk(s'.procs[p], p)
    requires forall q | 0 <= q < |s.procs| && q != p :: s'.procs[q] == s.procs[q]
    ensures ProcsOk(s')
  { }

  ghost predicate SameGuards(a: seq<Cond>, b: seq<Cond>) {
    |a| == |b| && forall k | 0 <= k < |a| :: a[k].lock == b[k].lock
  }

  lemma LocksKept(s: State, s': State)
    requires LocksOk(s) && |s'.procs| == |s.procs| && s'.locks == s.locks && SameGuards(s.cond, s'.cond)
    requires forall q | 0 <= q < |s.procs| :: s'.procs[q].held == s.procs[q].held
    ensures LocksOk(s')
  { }

  /** The same parent, the same fork() in progress, and as alive as before. */
  ghost predicate SameFamily(a: Proc, b: Proc) {
    a.parent == b.parent && a.fork == b.fork && (a.state == b.state || (Alive(a.state) && Alive(b.state)))
  }

  ghost predicate AllFamily(s: State, s': State) {
    && |s'.procs| == |s.procs| && s'.init == s.init
    && (forall q | 0 <= q < |s.procs| :: SameFamily(s.procs[q], s'.procs[q]))
  }

  lemma ParentsKept(s: State, s': State)
    requires ParentsOk(s) && AllFamily(s, s') && s'.procs[s.init].pc != Locked(Exit)
    ensures ParentsOk(s')
  {
    forall p | 0 <= p < |s'.procs| && s'.procs[p].parent.Some? ensures ParentOf(s', p, s'.procs[p].parent.value) {
      assert ParentOf(s, p, s.procs[p].parent.value);
      assert SameFamily(s.procs[s.procs[p].parent.value], s'.procs[s.procs[p].parent.value]);
    }
  }

  lemma ForksKept(s: State, s': State)
    requires ForksOk(s) && AllFamily(s, s')
    requires forall q | 0 <= q < |s.procs| && s'.procs[q].pc == Locked(ForkDone) :: s.procs[q].pc == Locked(ForkDone)
    ensures ForksOk(s')
  {
    forall f | 0 <= f < |s'.procs| && s'.procs[f].fork.Some? ensures ForkOk(s', f, s'.procs[f].fork.value) {
      assert ForkOk(s, f, s.procs[f].fork.value);
      assert SameFamily(s.procs[f], s'.procs[f])
        && SameFamily(s.procs[s.procs[f].fork.value], s'.procs[s.procs[f].fork.value]);
    }
    assert forall f | 0 <= f < |s.procs| :: s'.procs[f].fork == s.procs[f].fork;
  }

  lemma FamilyKept(s: State, s': State)
    requires FamilyOk(s) && AllFamily(s, s')
    requires forall q | 0 <= q < |s.procs| && s'.procs[q].pc == Locked(ForkDone) :: s.procs[q].pc == Locked(ForkDone)
    requires s'.procs[s.init].pc == Locked(Exit) ==> s.procs[s.init].pc == Locked(Exit)
    ensures FamilyOk(s')
  {
    hide ForksOk;
    ParentsKept(s, s');
    ForksKept(s, s');
  }

  lemma WaitersKept(s: State, s': State)
    requires WaitersOk(s) && |s'.procs| == |s.procs|
    requires forall q | 0 <= q < |s.procs| ::
      s'.procs[q].state == s.procs[q].state && s'.procs[q].parent == s.procs[q].parent
      && s'.procs[q].chan == s.procs[q].chan
    ensures WaitersOk(s')
  { }

  ghost predicate SleepPc(pr: Proc) {
    pr.pc.Locked? && pr.pc.why.Sleep?
  }

  ghost predicate SameWake(a: Proc, b: Proc) {
    && a.state == b.state && a.chan == b.chan && a.owes == b.owes
    && (SleepPc(a) || SleepPc(b) ==> a.pc == b.pc && a.held == b.held)
  }

  lemma WakeKept(s: State, s': State)
    requires WakeOk(s) && |s'.procs| == |s.procs| && s'.cond == s.cond
    requires forall q | 0 <= q < |s.procs| :: SameWake(s.procs[q], s'.procs[q])
    ensures WakeOk(s')
  {
    forall p, k | 0 <= p < |s'.procs| && 0 <= k < |s'.cond| && Waits(s'.procs[p], k) && s'.cond[k].holds
      ensures Owed(s', k)
    {
      assert Waits(s.procs[p], k);
      var q :| 0 <= q < |s.procs| && k in s.procs[q].owes;
      assert k in s'.procs[q].owes;
    }
  }

  // ------------------------------------------------- spinlocks and interrupts

  lemma IntsKeep(s: State, c: nat, b: bool)
    requires Inv(s) && Runs(s, c) && s.cpus[c].ncli == 0
    ensures Inv(SetC(s, c, s.cpus[c].(ifl := b)))
  {
    var s' := SetC(s, c, s.cpus[c].(ifl := b));
    Running(s, c);
    assert RunOk(s'.cpus[c], Cur(s, c), c, s'.lock);
    hide CpusOk, ProcsOk, LocksOk, FamilyOk, WaitersOk, WakeOk;
    RunKept(s, s', c, At(s, c));
    Frames(s, s');
  }

  /** A step that changes no process at all. */
  lemma Frames(s: State, s': State)
    requires ProcsOk(s) && LocksOk(s) && FamilyOk(s) && WaitersOk(s) && WakeOk(s)
    requires s'.procs == s.procs && s'.locks == s.locks && s'.cond == s.cond && s'.init == s.init
    ensures ProcsOk(s') && LocksOk(s') && FamilyOk(s') && WaitersOk(s') && WakeOk(s')
  {
    hide LocksOk, FamilyOk, WaitersOk, WakeOk;
    LocksKept(s, s');
    FamilyIn(s);
    FamilyKept(s, s');
    WaitersKept(s, s');
    WakeKept(s, s');
  }

  lemma FamilyIn(s: State)
    requires FamilyOk(s)
    ensures s.init < |s.procs|
  { }

  /** A step of process p that changes its place in the code, locks and interrupt flags only. */
  ghost predicate OnlyPlace(s: State, s': State, p: nat) {
    && p < |s.procs| == |s'.procs| && s'.init == s.init
    && (forall q | 0 <= q < |s.procs| && q != p :: s'.procs[q] == s.procs[q])
    && SameFamily(s.procs[p], s'.procs[p]) && s'.procs[p].state == s.procs[p].state
    && s'.procs[p].chan == s.procs[p].chan && s'.procs[p].owes == s.procs[p].owes
  }

  lemma PlaceKept(s: State, s': State, p: nat)
    requires ProcsOk(s) && FamilyOk(s) && WaitersOk(s) && OnlyPlace(s, s', p) && ProcOk(s'.procs[p], p)
    requires s'.procs[p].pc == Locked(ForkDone) ==> s.procs[p].pc == Locked(ForkDone)
    requires s'.procs[p].pc == Locked(Exit) ==> s.procs[p].pc == Locked(Exit)
    ensures ProcsOk(s') && FamilyOk(s') && WaitersOk(s')
  {
    ProcsKept(s, s', p);
    FamilyKept(s, s');
    WaitersKept(s, s');
  }

  lemma TakeLockLocks(s: State, c: nat, p: nat, k: nat)
    requires LocksOk(s) && c < |s.cpus| && p < |s.procs| && k < |s.locks| && s.locks[k].None?
    ensures LocksOk(TakeLock(s, c, p, k)) && k !in s.procs[p].held
  {
    var s' := TakeLock(s, c, p, k);
    forall q, j | 0 <= q < |s'.procs| && j in s'.procs[q].held ensures j < |s'.locks| && s'.locks[j] == Some(q) {
      if q != p || j != k { assert j in s.procs[q].held; }
    }
  }

  lemma TakeLockRun(s: State, c: nat, k: nat)
    requires CpusOk(s) && ProcsOk(s) && Runs(s, c) && k < |s.locks| && k !in Cur(s, c).held
      && (Cur(s, c).pc == Kern || Cur(s, c).pc == Relock(k))
    ensures var p, s' := At(s, c), TakeLock(s, c, At(s, c), k);
      RunOk(s'.cpus[c], s'.procs[p], c, s'.lock) && ProcOk(s'.procs[p], p)
  {
    Running(s, c);
    assert ProcOk(Cur(s, c), At(s, c));
  }

  lemma TakeLockKeeps(s: State, c: nat, k: nat)
    requires Inv(s) && Runs(s, c) && k < |s.locks| && s.locks[k].None?
      && (Cur(s, c).pc == Kern || Cur(s, c).pc == Relock(k))
    ensures Inv(TakeLock(s, c, At(s, c), k))
  {
    hide CpusOk, ProcsOk, LocksOk, FamilyOk, WaitersOk, WakeOk, CpuOk, ProcOk, RunOk;
    var p, s' := At(s, c), TakeLock(s, c, At(s, c), k);
    TakeLockLocks(s, c, p, k);
    TakeLockRun(s, c, k);
    RunKept(s, s', c, p);
    PlaceKept(s, s', p);
    WakeKept(s, s');
  }

  lemma DropLockLocks(s: State, c: nat, p: nat, k: nat)
    requires LocksOk(s) && c < |s.cpus| && p < |s.procs| && k in s.procs[p].held && k < |s.locks| && s.cpus[c].ncli > 0
    ensures LocksOk(DropLock(s, c, p, k))
  {
    var s' := DropLock(s, c, p, k);
    forall q, j | 0 <= q < |s'.procs| && j in s'.procs[q].held ensures j < |s'.locks| && s'.locks[j] == Some(q) {
      assert j in s.procs[q].held;
    }
  }

  lemma DropLockRun(s: State, c: nat, k: nat)
    requires CpusOk(s) && ProcsOk(s) && Runs(s, c) && k < |s.locks| && k in Cur(s, c).held && s.cpus[c].ncli > 0
    requires Cur(s, c).pc == Kern || (SleepPc(Cur(s, c)) && Cur(s, c).pc.why.lk == k)
    ensures var p, s' := At(s, c), DropLock(s, c, At(s, c), k);
      RunOk(s'.cpus[c], s'.procs[p], c, s'.lock) && ProcOk(s'.procs[p], p)
  {
    Running(s, c);
    assert ProcOk(Cur(s, c), At(s, c));
  }

  lemma RelLkKeeps(s: State, c: nat, k: nat)
    requires Inv(s) && Runs(s, c) && k < |s.locks| && k in Cur(s, c).held && Cur(s, c).pc == Kern && s.cpus[c].ncli > 0
    ensures Inv(DropLock(s, c, At(s, c), k))
  {
    hide CpusOk, ProcsOk, LocksOk, FamilyOk, WaitersOk, WakeOk, CpuOk, ProcOk, RunOk;
    var p, s' := At(s, c), DropLock(s, c, At(s, c), k);
    DropLockLocks(s, c, p, k);
    DropLockRun(s, c, k);
    RunKept(s, s', c, p);
    PlaceKept(s, s', p);
    WakeKept(s, s');
  }

  /** sleep() lets go of lk once ptable.lock is held: the condition is still false. */
  lemma DropLkWake(s: State, c: nat, p: nat, k: nat, lk: nat)
    requires WakeOk(s) && c < |s.cpus| && p < |s.procs| && lk < |s.locks| && s.cpus[c].ncli > 0
    requires s.procs[p].pc == Locked(Sleep(k, lk)) && lk in s.procs[p].held
    ensures WakeOk(DropLock(s, c, p, lk))
  {
    var s' := DropLock(s, c, p, lk);
    assert AboutTo(s, s.procs[p]);
    forall q, j | 0 <= q < |s'.procs| && 0 <= j < |s'.cond| && Waits(s'.procs[q], j) && s'.cond[j].holds
      ensures Owed(s', j)
    {
      assert q != p || j != k;
      assert Waits(s.procs[q], j);
      var r :| 0 <= r < |s.procs| && j in s.procs[r].owes;
      assert j in s'.procs[r].owes;
    }
  }

  lemma DropLkKeeps(s: State, c: nat, k: nat, lk: nat)
    requires Inv(s) && Has(s, c, Sleep(k, lk)) && lk < |s.locks| && lk in Cur(s, c).held && s.cpus[c].ncli > 0
    ensures Inv(DropLock(s, c, At(s, c), lk))
  {
    hide CpusOk, ProcsOk, LocksOk, FamilyOk, WaitersOk, WakeOk, CpuOk, ProcOk, RunOk;
    var p, s' := At(s, c), DropLock(s, c, At(s, c), lk);
    DropLockLocks(s, c, p, lk);
    DropLkWake(s, c, p, k, lk);
    DropLockRun(s, c, lk);
    RunKept(s, s', c, p);
    PlaceKept(s, s', p);
  }

  lemma SetCondWake(s: State, p: nat, k: nat, b: bool)
    requires WakeOk(s) && LocksOk(s) && p < |s.procs| && k < |s.cond| && s.cond[k].lock in s.procs[p].held
      && s.procs[p].pc == Kern
    ensures WakeOk(SetCondStep(s, p, k, b))
  {
    var s' := SetCondStep(s, p, k, b);
    forall q, j | 0 <= q < |s'.procs| && 0 <= j < |s'.cond| && Waits(s'.procs[q], j) && s'.cond[j].holds
      ensures Owed(s', j)
    {
      if j == k {
        assert k in s'.procs[p].owes;
      } else {
        assert Waits(s.procs[q], j);
        var r :| 0 <= r < |s.procs| && j in s.procs[r].owes;
        assert j in s'.procs[r].owes;
      }
    }
    forall q | 0 <= q < |s'.procs| ensures AboutTo(s', s'.procs[q]) {
      assert AboutTo(s, s.procs[q]);
      if q != p && SleepPc(s.procs[q]) && s.procs[q].pc.why.lk in s.procs[q].held {
        assert s.locks[s.procs[q].pc.why.lk] == Some(q) && s.locks[s.cond[k].lock] == Some(p);
      }
    }
  }

  lemma SetCondRun(s: State, c: nat, k: nat, b: bool)
    requires CpusOk(s) && ProcsOk(s) && Runs(s, c) && k < |s.cond| && Cur(s, c).pc == Kern
    ensures var p, s' := At(s, c), SetCondStep(s, At(s, c), k, b);
      RunOk(s'.cpus[c], s'.procs[p], c, s'.lock) && ProcOk(s'.procs[p], p)
  {
    Running(s, c);
    assert ProcOk(Cur(s, c), At(s, c));
  }

  lemma SetCondKeeps(s: State, c: nat, k: nat, b: bool)
    requires Inv(s) && Runs(s, c) && k < |s.cond| && s.cond[k].lock in Cur(s, c).held && Cur(s, c).pc == Kern
    ensures Inv(SetCondStep(s, At(s, c), k, b))
  {
    hide CpusOk, ProcsOk, LocksOk, FamilyOk, WaitersOk, WakeOk, CpuOk, ProcOk, RunOk;
    var p, s' := At(s, c), SetCondStep(s, At(s, c), k, b);
    SetCondRun(s, c, k, b);
    SetCondWake(s, p, k, b);
    RunKept(s, s', c, p);
    LocksKept(s, s');
    ProcsKept(s, s', p);
    FamilyIn(s);
    FamilyKept(s, s');
    WaitersKept(s, s');
  }

  // ------------------------------------------------- taking and giving back ptable.lock

  lemma AcqRun(s: State, c: nat, why: Why)
    requires CpusOk(s) && ProcsOk(s) && Runs(s, c) && s.lock.None? && MayAcq(s, At(s, c), why)
    ensures var p, s' := At(s, c), AcqStep(s, c, At(s, c), why);
      RunOk(s'.cpus[c], s'.procs[p], c, s'.lock) && ProcOk(s'.procs[p], p)
  {
    Running(s, c);
    assert ProcOk(Cur(s, c), At(s, c));
  }

  lemma AcqWake(s: State, c: nat, p: nat, why: Why)
    requires WakeOk(s) && c < |s.cpus| && p < |s.procs| && MayAcq(s, p, why)
    ensures WakeOk(AcqStep(s, c, p, why))
  {
    var s' := AcqStep(s, c, p, why);
    forall q, j | 0 <= q < |s'.procs| && 0 <= j < |s'.cond| && Waits(s'.procs[q], j) && s'.cond[j].holds
      ensures Owed(s', j)
    {
      assert Waits(s.procs[q], j);
      var r :| 0 <= r < |s.procs| && j in s.procs[r].owes;
      assert j in s'.procs[r].owes;
    }
  }

  lemma AcqFamily(s: State, c: nat, p: nat, why: Why)
    requires FamilyOk(s) && c < |s.cpus| && p < |s.procs| && MayAcq(s, p, why)
    ensures FamilyOk(AcqStep(s, c, p, why))
  {
    var s' := AcqStep(s, c, p, why);
    assert AllFamily(s, s');
    ParentsKept(s, s');
    hide ParentsOk, AllFamily;
    forall f | 0 <= f < |s'.procs| && s'.procs[f].fork.Some? ensures ForkOk(s', f, s'.procs[f].fork.value) {
      assert ForkOk(s, f, s.procs[f].fork.value);
    }
  }

  lemma AcqKeeps(s: State, c: nat, why: Why)
    requires Inv(s) && Runs(s, c) && s.lock.None? && MayAcq(s, At(s, c), why)
    ensures Inv(AcqStep(s, c, At(s, c), why))
  {
    hide CpusOk, ProcsOk, LocksOk, FamilyOk, WaitersOk, WakeOk, CpuOk, ProcOk, RunOk;
    var p, s' := At(s, c), AcqStep(s, c, At(s, c), why);
    AcqRun(s, c, why);
    AcqWake(s, c, p, why);
    AcqFamily(s, c, p, why);
    hide MayAcq;
    RunKept(s, s', c, p);
    LocksKept(s, s');
    ProcsKept(s, s', p);
    WaitersKept(s, s');
  }

  lemma RelRun(s: State, c: nat)
    requires CpusOk(s) && ProcsOk(s) && Runs(s, c) && Cur(s, c).pc.Done? && s.cpus[c].ncli > 0
    ensures var p, s' := At(s, c), RelStep(s, c, At(s, c));
      RunOk(s'.cpus[c], s'.procs[p], c, s'.lock) && ProcOk(s'.procs[p], p) && s.lock == Some(c)
  {
    Running(s, c);
    assert ProcOk(Cur(s, c), At(s, c));
  }

  lemma RelKeeps(s: State, c: nat)
    requires Inv(s) && Runs(s, c) && Cur(s, c).pc.Done? && s.cpus[c].ncli > 0
    ensures Inv(RelStep(s, c, At(s, c)))
  {
    hide CpusOk, ProcsOk, LocksOk, FamilyOk, WaitersOk, WakeOk, CpuOk, ProcOk, RunOk;
    var p, s' := At(s, c), RelStep(s, c, At(s, c));
    RelRun(s, c);
    RunKept(s, s', c, p);
    LocksKept(s, s');
    PlaceKept(s, s', p);
    WakeKept(s, s');
  }

  // ------------------------------------------------- the scheduler

  lemma SwtchCpus(s: State, c: nat)
    requires CpusOk(s) && ProcsOk(s) && Runs(s, c) && Cur(s, c).pc == Leaving
    ensures CpusOk(SwtchStep(s, c, At(s, c))) && ProcOk(SwtchStep(s, c, At(s, c)).procs[At(s, c)], At(s, c))
  {
    var p, s' := At(s, c), SwtchStep(s, c, At(s, c));
    Running(s, c);
    assert ProcOk(s.procs[p], p);
    assert CpuOk(s', c) && OnlyCpu(s, s', c);
    hide CpusOk, OnlyCpu, CpuOk;
    CpusKept(s, s', c);
  }

  lemma SwtchKeeps(s: State, c: nat)
    requires Inv(s) && Runs(s, c) && Cur(s, c).pc == Leaving
    ensures Inv(SwtchStep(s, c, At(s, c)))
  {
    hide CpusOk, ProcsOk, LocksOk, FamilyOk, WaitersOk, WakeOk, CpuOk, ProcOk, RunOk;
    var p, s' := At(s, c), SwtchStep(s, c, At(s, c));
    SwtchCpus(s, c);
    LocksKept(s, s');
    PlaceKept(s, s', p);
    WakeKept(s, s');
  }

  lemma SAcqKeeps(s: State, c: nat)
    requires Inv(s) && c < |s.cpus| && s.cpus[c].sched == SOut && s.lock.None?
    ensures Inv(SAcqStep(s, c))
  {
    var s' := SAcqStep(s, c);
    assert CpuOk(s, c);
    assert CpuOk(s', c) && OnlyCpu(s, s', c);
    hide CpusOk, ProcsOk, LocksOk, FamilyOk, WaitersOk, WakeOk, OnlyCpu, CpuOk;
    CpusKept(s, s', c);
    Frames(s, s');
  }

  lemma SRelKeeps(s: State, c: nat)
    requires Inv(s) && c < |s.cpus| && s.cpus[c].sched == SScan && s.cpus[c].ncli > 0
    ensures Inv(SRelStep(s, c))
  {
    var s' := SRelStep(s, c);
    assert CpuOk(s, c);
    assert CpuOk(s', c) && OnlyCpu(s, s', c);
    hide CpusOk, ProcsOk, LocksOk, FamilyOk, WaitersOk, WakeOk, OnlyCpu, CpuOk;
    CpusKept(s, s', c);
    Frames(s, s');
  }

  lemma SClearCpus(s: State, c: nat, p: nat)
    requires CpusOk(s) && ProcsOk(s) && c < |s.cpus| && s.cpus[c].sched == SBack && s.cpus[c].proc == Some(p)
      && p < |s.procs|
    ensures CpusOk(SClearStep(s, c, p)) && ProcOk(SClearStep(s, c, p).procs[p], p)
  {
    var s' := SClearStep(s, c, p);
    assert CpuOk(s, c) && ProcOk(s.procs[p], p);
    assert CpuOk(s', c) && OnlyCpu(s, s', c);
    hide CpusOk, OnlyCpu, CpuOk;
    CpusKept(s, s', c);
  }

  lemma SClearKeeps(s: State, c: nat, p: nat)
    requires Inv(s) && c < |s.cpus| && s.cpus[c].sched == SBack && s.cpus[c].proc == Some(p) && p < |s.procs|
    ensures Inv(SClearStep(s, c, p))
  {
    hide CpusOk, ProcsOk, LocksOk, FamilyOk, WaitersOk, WakeOk, CpuOk, ProcOk, RunOk;
    var s' := SClearStep(s, c, p);
    SClearCpus(s, c, p);
    LocksKept(s, s');
    PlaceKept(s, s', p);
    WakeKept(s, s');
  }

  lemma PickResumes(pr: Proc, p: nat, c: nat, intena: bool)
    ensures var r := Resumed(pr, c, intena);
      && r.state == RUNNING && r.on == Some(c) && r.parent == pr.parent && r.fork == pr.fork && r.held == pr.held
      && r.owes == pr.owes
      && (!SleepPc(pr) ==> !SleepPc(r)) && (r.pc == pr.pc || (r.pc != Locked(ForkDone) && r.pc != Locked(Exit)))
  { }

  lemma SPickOk(s: State, c: nat, p: nat)
    requires CpusOk(s) && ProcsOk(s) && c < |s.cpus| && s.cpus[c].sched == SScan && p < |s.procs|
      && s.procs[p].state == RUNNABLE
    ensures CpuOk(SPickStep(s, c, p), c) && ProcOk(SPickStep(s, c, p).procs[p], p)
    ensures s.procs[p].on.None? && s.procs[p].pc == Parked && s.cpus[c].proc.None?
  {
    assert CpuOk(s, c) && ProcOk(s.procs[p], p);
    OffCpuScan(s, c, p);
  }

  lemma SPickCpus(s: State, c: nat, p: nat)
    requires CpusOk(s) && ProcsOk(s) && c < |s.cpus| && s.cpus[c].sched == SScan && p < |s.procs|
      && s.procs[p].state == RUNNABLE
    ensures CpusOk(SPickStep(s, c, p)) && ProcOk(SPickStep(s, c, p).procs[p], p) && s.procs[p].pc == Parked
  {
    var s' := SPickStep(s, c, p);
    SPickOk(s, c, p);
    assert forall q | 0 <= q < |s.procs| && s.procs[q].on == Some(c) :: s.cpus[c].proc == Some(q);
    hide CpusOk, CpuOk, ProcsOk, ProcOk, Resumed;
    PickResumes(s.procs[p], p, c, s.cpus[c].intena);
    assert OnlyCpu(s, s', c);
    CpusKept(s, s', c);
  }

  lemma AliveWaiters(s: State, s': State, p: nat)
    requires WaitersOk(s) && |s'.procs| == |s.procs| && p < |s.procs|
    requires forall q | 0 <= q < |s.procs| && q != p :: s'.procs[q] == s.procs[q]
    requires s.procs[p].state != ZOMBIE && s'.procs[p].state != ZOMBIE && s'.procs[p].state != SLEEPING
    ensures WaitersOk(s')
  { }

  /** p waits for nothing that it did not wait for before. */
  lemma AwakeWake(s: State, s': State, p: nat)
    requires WakeOk(s) && |s'.procs| == |s.procs| && p < |s.procs| && s'.cond == s.cond
    requires forall q | 0 <= q < |s.procs| && q != p :: s'.procs[q] == s.procs[q]
    requires s'.procs[p].state == SLEEPING && s'.procs[p].chan.OnCond? ==> Waits(s.procs[p], s'.procs[p].chan.k)
    requires !SleepPc(s'.procs[p]) && s'.procs[p].owes == s.procs[p].owes
    ensures WakeOk(s')
  {
    forall q, j | 0 <= q < |s'.procs| && 0 <= j < |s'.cond| && Waits(s'.procs[q], j) && s'.cond[j].holds
      ensures Owed(s', j)
    {
      assert Waits(s.procs[q], j);
      var r :| 0 <= r < |s.procs| && j in s.procs[r].owes;
      assert j in s'.procs[r].owes;
    }
  }

  lemma SPickKeeps(s: State, c: nat, p: nat)
    requires Inv(s) && c < |s.cpus| && s.cpus[c].sched == SScan && p < |s.procs| && s.procs[p].state == RUNNABLE
    ensures Inv(SPickStep(s, c, p))
  {
    hide CpusOk, ProcsOk, LocksOk, FamilyOk, WaitersOk, WakeOk, CpuOk, ProcOk, RunOk, Resumed;
    var s' := SPickStep(s, c, p);
    SPickCpus(s, c, p);
    PickResumes(s.procs[p], p, c, s.cpus[c].intena);
    LocksKept(s, s');
    ProcsKept(s, s', p);
    FamilyIn(s);
    FamilyKept(s, s');
    AliveWaiters(s, s', p);
    AwakeWake(s, s', p);
  }
}
