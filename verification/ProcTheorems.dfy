/** What holds in every state of every run of processes and processors. */
module ProcTheorems {
  import opened Basics
  import opened ProcSystem
  import opened ProcProof
  import opened ProcTable
  import opened ProcFork

  lemma LockStepsKeep(s: State, step: Step, s': State)
    requires Inv(s) && Enabled(s, step) && DoLocks(s, step, s')
    ensures Inv(s')
  {
    hide Inv, MayAcq;
    match step
    case SetInts(c, b) => IntsKeep(s, c, b);
    case AcqLk(c, k) => TakeLockKeeps(s, c, k);
    case RelLk(c, k) => RelLkKeeps(s, c, k);
    case SetCond(c, k, b) => SetCondKeeps(s, c, k, b);
    case Acq(c, why) => AcqKeeps(s, c, why);
    case DropLk(c, k, lk) => DropLkKeeps(s, c, k, lk);
    case Rel(c) => RelKeeps(s, c);
    case TakeLk(c, k) => TakeLockKeeps(s, c, k);
    case _ =>
  }

  lemma NoLocksHeld(s: State, c: nat, why: Why)
    requires ProcsOk(s) && Has(s, c, why) && (why.Yield? || (why.Sleep? && why.lk !in Cur(s, c).held))
    ensures Cur(s, c).held == {}
  {
    assert ProcOk(Cur(s, c), At(s, c));
  }

  lemma TableStepsKeep(s: State, step: Step, s': State)
    requires Inv(s) && Enabled(s, step) && DoTable(s, step, s')
    ensures Inv(s')
  {
    assert ProcsOk(s);
    hide Inv, ProcsOk;
    match step
    case DoYield(c, back) =>
      NoLocksHeld(s, c, Yield(back));
      LeaveKeeps(s, c, RUNNABLE, NoChan, InYield(back));
    case DoSleep(c, k, lk) =>
      NoLocksHeld(s, c, Sleep(k, lk));
      LeaveKeeps(s, c, SLEEPING, OnCond(k), InSleep(k, lk));
    case DoWakeup(c, k, back) => WakeupKeeps(s, c, k, back);
    case DoExit(c) => ExitKeeps(s, c);
    case DoWait(c) => WaitKeeps(s, c, s');
    case DoAlloc(c) => AllocKeeps(s, c, s');
    case SetParent(c, q) => SetParentKeeps(s, c, q);
    case ForkFail(c, q) => ForkFailKeeps(s, c, q);
    case DoForkDone(c, q) => ForkDoneKeeps(s, c, q);
    case DoKill(c, q) => KillKeeps(s, c, q);
    case _ =>
  }

  lemma SchedStepsKeep(s: State, step: Step, s': State)
    requires Inv(s) && Enabled(s, step) && DoSched(s, step, s')
    ensures Inv(s')
  {
    hide Inv;
    match step
    case Swtch(c) => SwtchKeeps(s, c);
    case SAcq(c) => SAcqKeeps(s, c);
    case SClear(c, p) => SClearKeeps(s, c, p);
    case SPick(c, p) => SPickKeeps(s, c, p);
    case SRel(c) => SRelKeeps(s, c);
    case SIntr(c, k) => SIntrKeeps(s, k);
    case _ =>
  }

  /** Every step keeps the invariant. */
  lemma StepKeeps(s: State, step: Step, s': State)
    requires Inv(s) && Do(s, step, s')
    ensures Inv(s')
  {
    hide Inv, DoLocks, DoTable, DoSched, Enabled;
    if DoLocks(s, step, s') {
      LockStepsKeep(s, step, s');
    } else if DoTable(s, step, s') {
      TableStepsKeep(s, step, s');
    } else {
      SchedStepsKeep(s, step, s');
    }
  }

  // ------------------------------------------------- runs

  /** userinit(): one process, RUNNABLE and about to start in forkret(). */
  predicate Boot(s: State) {
    && s.init < |s.procs| && s.lock.None? && (forall k | 0 <= k < |s.cond| :: s.cond[k].lock < |s.locks|)
    && (forall k | 0 <= k < |s.locks| :: s.locks[k].None?)
    && (forall c | 0 <= c < |s.cpus| :: s.cpus[c] == Cpu(None, SOut, 0, s.cpus[c].intena, s.cpus[c].ifl))
    && (forall p | 0 <= p < |s.procs| ::
          s.procs[p] ==
            Proc(if p == s.init then RUNNABLE
            else UNUSED, None, NoChan, false, Parked, InForkret, None, None, {}, {}, false, false))
  }

  lemma BootInv(s: State)
    requires Boot(s)
    ensures Inv(s)
  {
    assert CpusOk(s) && ProcsOk(s) && LocksOk(s);
    assert ParentsOk(s) && ForksOk(s) && WaitersOk(s);
    assert WakeOk(s);
  }

  ghost predicate StepsTo(s: State, s': State) {
    exists step :: Do(s, step, s')
  }

  ghost predicate IsRun(run: seq<State>) {
    |run| > 0 && Boot(run[0]) && forall k | 0 <= k < |run| - 1 :: StepsTo(run[k], run[k + 1])
  }

  lemma {:induction false} RunInv(run: seq<State>)
    requires IsRun(run)
    ensures Inv(run[|run| - 1])
    decreases |run|
  {
    hide Inv, Boot, Do;
    if |run| == 1 {
      BootInv(run[0]);
    } else {
      var k := |run| - 2;
      var before := run[..k + 1];
      forall j | 0 <= j < |before| - 1 ensures StepsTo(before[j], before[j + 1]) {
        assert StepsTo(run[j], run[j + 1]);
      }
      RunInv(before);
      assert StepsTo(run[k], run[k + 1]);
      var step :| Do(run[k], step, run[k + 1]);
      StepKeeps(run[k], step, run[k + 1]);
    }
  }

  ghost predicate Reachable(s: State) {
    exists run :: IsRun(run) && run[|run| - 1] == s
  }

  lemma ReachableInv(s: State)
    requires Reachable(s)
    ensures Inv(s)
  {
    hide Inv;
    var run :| IsRun(run) && run[|run| - 1] == s;
    RunInv(run);
  }

  // ------------------------------------------------- the theorems

  /** While ptable.lock is free, a process is RUNNING exactly if it is the current process of a processor, and of
      one only. */
  lemma HandOff(s: State, p: nat)
    requires Reachable(s) && s.lock.None? && p < |s.procs|
    ensures s.procs[p].state == RUNNING <==> exists c | 0 <= c < |s.cpus| :: s.cpus[c].proc == Some(p)
    ensures forall c, d | 0 <= c < |s.cpus| && 0 <= d < |s.cpus| && s.cpus[c].proc == Some(p)
      && s.cpus[d].proc == Some(p) :: c == d
  {
    ReachableInv(s);
    assert ProcOk(s.procs[p], p);
    forall c | 0 <= c < |s.cpus| && s.cpus[c].proc == Some(p)
      ensures s.procs[p].on == Some(c) && s.procs[p].state == RUNNING
    {
      assert CpuOk(s, c);
    }
  }

  /** wait() frees the stack and page table of a process that no processor is on. */
  lemma ReapedIsOff(s: State, c: nat, q: nat)
    requires Reachable(s) && Has(s, c, Wait) && IsZombieChild(s, At(s, c), q)
    ensures s.procs[q].pc == Parked && forall d | 0 <= d < |s.cpus| :: s.cpus[d].proc != Some(q)
  {
    ReachableInv(s);
    Running(s, c);
    assert ProcOk(s.procs[At(s, c)], At(s, c));
    OffCpu(s, c, q);
    forall d | 0 <= d < |s.cpus| ensures s.cpus[d].proc != Some(q) { assert CpuOk(s, d); }
  }

  /** The checks of sched() never fail. */
  lemma SchedNeverPanics(s: State, c: nat)
    requires Reachable(s) && Runs(s, c) && Cur(s, c).pc == Leaving
    ensures s.lock == Some(c) && s.cpus[c].ncli == 1 && Cur(s, c).state != RUNNING && !s.cpus[c].ifl
  {
    ReachableInv(s);
    Running(s, c);
    assert ProcOk(Cur(s, c), At(s, c));
  }

  /** p holds a lock or is inside sched(). */
  predicate Nested(s: State, p: nat)
    requires p < |s.procs|
  {
    match s.procs[p].on
    case Some(c) => c < |s.cpus| && s.cpus[c].ncli > 0
    case None => Alive(s.procs[p].state) && s.procs[p].frame != InForkret
  }

  /** Interrupts come back as the process had them, whatever processor it is on by then: want is set
      when the first lock is taken, stays while the process is nested, and is what releasing the last lock restores. */
  lemma InterruptsRestored(s: State, step: Step, s': State, c: nat)
    requires Reachable(s) && Do(s, step, s') && Runs(s, c) && (step == Rel(c) || exists k :: step == RelLk(c, k))
      && s.cpus[c].ncli == 1
    ensures c < |s'.cpus| && s'.cpus[c].ncli == 0 && s'.cpus[c].ifl == Cur(s, c).want
  {
    ReachableInv(s);
    Running(s, c);
    hide Inv;
  }

  lemma WantStaysLocks(s: State, step: Step, s': State, p: nat)
    requires CpusOk(s) && Enabled(s, step) && DoLocks(s, step, s') && p < |s.procs| && Nested(s, p)
    ensures |s'.procs| == |s.procs| && s'.procs[p].want == s.procs[p].want
  {
    hide CpusOk, MayAcq;
    match step
    case AcqLk(c, k) => Running(s, c);
    case Acq(c, why) => Running(s, c);
    case TakeLk(c, k) => Running(s, c);
    case _ =>
  }

  lemma WantStaysTable(s: State, step: Step, s': State, p: nat)
    requires Enabled(s, step) && DoTable(s, step, s') && p < |s.procs|
    ensures |s'.procs| == |s.procs| && s'.procs[p].want == s.procs[p].want
  {
    hide WaitStep, AllocStep, Exited, WakeupStep;
    match step
    case DoExit(c) => WantExited(s, At(s, c), p);
    case DoWait(c) => WantWaited(s, At(s, c), s', p);
    case DoAlloc(c) => WantAllocated(s, At(s, c), s', p);
    case DoWakeup(c, k, back) => WantWoken(s, At(s, c), k, back, p);
    case _ =>
  }

  lemma WantExited(s: State, c: nat, p: nat)
    requires c < |s.procs| && p < |s.procs|
    ensures |Exited(s, c)| == |s.procs| && Exited(s, c)[p].want == s.procs[p].want
  { }

  lemma WantWaited(s: State, c: nat, s': State, p: nat)
    requires c < |s.procs| && p < |s.procs| && WaitStep(s, c, s')
    ensures |s'.procs| == |s.procs| && s'.procs[p].want == s.procs[p].want
  { }

  lemma WantAllocated(s: State, c: nat, s': State, p: nat)
    requires c < |s.procs| && p < |s.procs| && AllocStep(s, c, s')
    ensures |s'.procs| == |s.procs| && s'.procs[p].want == s.procs[p].want
  { }

  lemma WantWoken(s: State, c: nat, k: nat, back: Next, p: nat)
    requires c < |s.procs| && p < |s.procs|
    ensures |WakeupStep(s, c, k, back).procs| == |s.procs| && WakeupStep(s, c, k, back).procs[p].want == s.procs[p].want
  { }

  lemma WantStaysSched(s: State, step: Step, s': State, p: nat)
    requires CpusOk(s) && ProcsOk(s) && Enabled(s, step) && DoSched(s, step, s') && p < |s.procs| && Nested(s, p)
    ensures |s'.procs| == |s.procs| && s'.procs[p].want == s.procs[p].want
  {
    match step
    case SPick(c, q) => OffCpuScan(s, c, q);
    case _ =>
  }

  lemma WantStays(s: State, step: Step, s': State, p: nat)
    requires Inv(s) && Do(s, step, s') && p < |s.procs| && Nested(s, p)
    ensures |s'.procs| == |s.procs| && s'.procs[p].want == s.procs[p].want
  {
    hide CpusOk, ProcsOk, DoLocks, DoTable, DoSched, Enabled, Nested;
    if DoLocks(s, step, s') {
      WantStaysLocks(s, step, s', p);
    } else if DoTable(s, step, s') {
      WantStaysTable(s, step, s', p);
    } else {
      WantStaysSched(s, step, s', p);
    }
  }

  lemma WantAt(run: seq<State>, k: nat, p: nat)
    requires IsRun(run) && k + 1 < |run| && p < |run[k].procs| && Nested(run[k], p)
    ensures |run[k + 1].procs| == |run[k].procs| && run[k + 1].procs[p].want == run[k].procs[p].want
  {
    hide Boot, Do, Nested, Inv;
    var before := run[..k + 1];
    forall j | 0 <= j < |before| - 1 ensures StepsTo(before[j], before[j + 1]) { assert StepsTo(run[j], run[j + 1]); }
    RunInv(before);
    assert StepsTo(run[k], run[k + 1]);
    var step :| Do(run[k], step, run[k + 1]);
    WantStays(run[k], step, run[k + 1], p);
  }

  /** From its first lock to its last, through any number of switches, a process keeps the interrupt state it came
      with. */
  lemma {:induction false} WantThroughRun(run: seq<State>, i: nat, j: nat, p: nat)
    requires IsRun(run) && i <= j < |run| && p < |run[i].procs|
    requires forall k | i <= k < j :: |run[k].procs| == |run[i].procs| && Nested(run[k], p)
    ensures |run[j].procs| == |run[i].procs| && run[j].procs[p].want == run[i].procs[p].want
    decreases j
  {
    hide Nested, IsRun;
    if i < j {
      WantThroughRun(run, i, j - 1, p);
      WantAt(run, j - 1, p);
    }
  }

  /** The steps of a process that take a lock, and those that give one back. */
  predicate Takes(step: Step, c: nat) {
    (step.Acq? || step.AcqLk? || step.TakeLk?) && step.c == c
  }

  predicate GivesBack(step: Step, c: nat) {
    (step.Rel? || step.RelLk?) && step.c == c
  }

  lemma WantRecorded(s: State, step: Step, s': State, c: nat)
    requires Do(s, step, s') && Runs(s, c) && s.cpus[c].ncli == 0 && Takes(step, c)
    ensures |s'.procs| == |s.procs| && s'.procs[At(s, c)].want == s.cpus[c].ifl
  {
    hide MayAcq;
  }

  lemma StateReachable(run: seq<State>, k: nat)
    requires IsRun(run) && k < |run|
    ensures Reachable(run[k])
  {
    hide Boot, Do;
    var before := run[..k + 1];
    forall j | 0 <= j < |before| - 1 ensures StepsTo(before[j], before[j + 1]) { assert StepsTo(run[j], run[j + 1]); }
    assert IsRun(before) && before[|before| - 1] == run[k];
  }

  /** A process takes its first lock on processor c and gives its last one back on processor d, however often it was
      switched in between: interrupts are on d what they were on c. */
  lemma InterruptsRoundTrip(run: seq<State>, i: nat, j: nat, p: nat, c: nat, first: Step, d: nat, last: Step)
    requires IsRun(run) && i < j && j + 1 < |run| && Runs(run[i], c) && At(run[i], c) == p
    requires run[i].cpus[c].ncli == 0 && Takes(first, c) && Do(run[i], first, run[i + 1])
    requires forall k | i < k < j :: |run[k].procs| == |run[i].procs| && Nested(run[k], p)
    requires Runs(run[j], d) && At(run[j], d) == p && run[j].cpus[d].ncli == 1
    requires GivesBack(last, d) && Do(run[j], last, run[j + 1])
    ensures d < |run[j + 1].cpus| && run[j + 1].cpus[d].ncli == 0 && run[j + 1].cpus[d].ifl == run[i].cpus[c].ifl
  {
    hide Nested, IsRun, Do, Reachable;
    WantRecorded(run[i], first, run[i + 1], c);
    WantThroughRun(run, i + 1, j, p);
    StateReachable(run, j);
    if last.Rel? { assert last == Rel(d); } else { assert last == RelLk(d, last.k); }
    InterruptsRestored(run[j], last, run[j + 1], d);
  }

  /** Nobody sleeps on a condition that holds unless a wakeup is still to come. */
  lemma NoLostWakeup(s: State, p: nat, k: nat)
    requires Reachable(s) && p < |s.procs| && k < |s.cond| && s.procs[p].state == SLEEPING
      && s.procs[p].chan == OnCond(k) && s.cond[k].holds
    ensures exists q | 0 <= q < |s.procs| :: k in s.procs[q].owes && Alive(s.procs[q].state)
  {
    ReachableInv(s);
    assert Waits(s.procs[p], k);
    assert Owed(s, k);
    var q :| 0 <= q < |s.procs| && k in s.procs[q].owes;
    assert ProcOk(s.procs[q], q);
  }

  /** Only the wakeup() itself pays what a process owes, and leaves nobody asleep on the condition. */
  lemma DebtPaid(s: State, step: Step, s': State, q: nat, k: nat)
    requires Do(s, step, s') && q < |s.procs| && k in s.procs[q].owes && !StillOwes(s', q, k)
    ensures step.DoWakeup? && step.k == k && At(s, step.c) == q
    ensures forall p | 0 <= p < |s'.procs| :: !(s'.procs[p].state == SLEEPING && s'.procs[p].chan == OnCond(k))
  {
    if DoTable(s, step, s') {
      DebtTable(s, step, s', q, k);
    } else {
      hide DoTable;
      DebtElse(s, step, s', q, k);
    }
  }

  lemma DebtElse(s: State, step: Step, s': State, q: nat, k: nat)
    requires Enabled(s, step) && (DoLocks(s, step, s') || DoSched(s, step, s')) && StillOwes(s, q, k)
    ensures StillOwes(s', q, k)
  {
    hide MayAcq;
  }

  lemma DebtTable(s: State, step: Step, s': State, q: nat, k: nat)
    requires Enabled(s, step) && DoTable(s, step, s') && StillOwes(s, q, k) && !StillOwes(s', q, k)
    ensures step.DoWakeup? && step.k == k && At(s, step.c) == q
    ensures forall p | 0 <= p < |s'.procs| :: !(s'.procs[p].state == SLEEPING && s'.procs[p].chan == OnCond(k))
  {
    hide WaitStep, AllocStep, Exited, WakeupStep, MayAcq;
    match step
    case DoWakeup(c, j, back) => DebtWakeup(s, At(s, c), j, back, q, k);
    case DoWait(c) => DebtWait(s, At(s, c), s', q, k);
    case DoAlloc(c) => DebtAlloc(s, At(s, c), s', q, k);
    case DoExit(c) => DebtExit(s, At(s, c), q, k);
    case _ =>
  }

  lemma DebtWakeup(s: State, p: nat, j: nat, back: Next, q: nat, k: nat)
    requires p < |s.procs| && StillOwes(s, q, k)
    ensures StillOwes(WakeupStep(s, p, j, back), q, k) || (j == k && p == q)
    ensures |WakeupStep(s, p, j, back).procs| == |s.procs|
    ensures forall r | 0 <= r < |s.procs| ::
      !(WakeupStep(s, p, j, back).procs[r].state == SLEEPING && WakeupStep(s, p, j, back).procs[r].chan == OnCond(j))
  { }

  predicate StillOwes(s: State, q: nat, k: nat) {
    q < |s.procs| && k in s.procs[q].owes
  }

  lemma DebtWait(s: State, p: nat, s': State, q: nat, k: nat)
    requires p < |s.procs| && WaitStep(s, p, s') && StillOwes(s, q, k)
    ensures StillOwes(s', q, k)
  { }

  lemma DebtAlloc(s: State, p: nat, s': State, q: nat, k: nat)
    requires p < |s.procs| && AllocStep(s, p, s') && StillOwes(s, q, k)
    ensures StillOwes(s', q, k)
  { }

  lemma DebtExit(s: State, p: nat, q: nat, k: nat)
    requires p < |s.procs| && StillOwes(s, q, k)
    ensures q < |Exited(s, p)| && k in Exited(s, p)[q].owes
  { }

  /** Nobody sleeps in wait() with a zombie child; parents are alive; everyone but init has one. */
  lemma FamilyTies(s: State, p: nat)
    requires Reachable(s) && p < |s.procs|
    ensures s.procs[p].state == SLEEPING && s.procs[p].chan == OnProc(p) ==> !HasZombie(s.procs, p)
    ensures (Alive(s.procs[p].state) || s.procs[p].state == ZOMBIE) && p != s.init ==>
      s.procs[p].parent.Some? && s.procs[p].parent.value < |s.procs| && Alive(s.procs[s.procs[p].parent.value].state)
  {
    ReachableInv(s);
    if s.procs[p].parent.Some? { assert ParentOf(s, p, s.procs[p].parent.value); }
  }
}
