/** kernel/proc.c and kernel/spinlock.c: processes, processors and ptable.lock as a step system.
    A step is what one processor does between two points at which others can interfere. */
module ProcSystem {
  import opened Basics

  datatype PState = UNUSED | EMBRYO | SLEEPING | RUNNABLE | RUNNING | ZOMBIE

  /** What a process sleeps on: condition k, or a process (in wait). */
  datatype Chan = NoChan | OnCond(k: nat) | OnProc(p: nat)

  /** What ptable.lock was taken for. */
  datatype Why = Yield(back: Next) | Sleep(k: nat, lk: nat) | Wakeup(k: nat,
      back: Next) | Exit | Wait | Alloc | ForkDone | Kill(target: nat)

  /** Where a process goes on after releasing ptable.lock: to its own code, or to take lock lk again
      at the end of sleep(). Timer and device interrupts can come at both. */
  datatype Next = ToKern | ToLk(lk: nat)

  datatype Pc = Kern | Relock(lk: nat) | Locked(why: Why) | Leaving | Done(next: Next) | Parked

  /** The call of sched() a process comes back to; a new process starts in forkret(). */
  datatype Frame = InYield(back: Next) | InSleep(k: nat, lk: nat) | InWait | InForkret | Nowhere

  /** fork is the slot a fork() in progress is setting up; on, owes and want are bookkeeping of the model:
      the processor the process is on, the conditions it has made true and not yet woken anybody for,
      and whether interrupts were on when it took its first lock. */
  datatype Proc = Proc(state: PState, parent: Option<nat>, chan: Chan, killed: bool, pc: Pc, frame: Frame,
      fork: Option<nat>,
                       on: Option<nat>, held: set<nat>, owes: set<nat>, saved: bool, want: bool)

  /** A processor's scheduler: without the lock, scanning the table, a process running, a process just back. */
  datatype SPc = SOut | SScan | SRun | SBack

  datatype Cpu = Cpu(proc: Option<nat>, sched: SPc, ncli: nat, intena: bool, ifl: bool)

  /** A condition that processes sleep on, and the lock that guards it; a lock can guard several. */
  datatype Cond = Cond(lock: nat, holds: bool)

  datatype State = State(procs: seq<Proc>, cpus: seq<Cpu>, lock: Option<nat>, locks: seq<Option<nat>>,
      cond: seq<Cond>, init: nat)

  predicate HoldsPt(pc: Pc) {
    pc.Locked? || pc.Leaving? || pc.Done?
  }

  // ------------------------------------------------- interrupts: pushcli() and popcli()

  function Push(cpu: Cpu): Cpu {
    cpu.(ncli := cpu.ncli + 1, ifl := false, intena := if cpu.ncli == 0 then cpu.ifl else cpu.intena)
  }

  function Pop(cpu: Cpu): Cpu
    requires cpu.ncli > 0
  {
    cpu.(ncli := cpu.ncli - 1, ifl := if cpu.ncli == 1 && cpu.intena then true else cpu.ifl)
  }

  // ------------------------------------------------- steps

  datatype Step =
    | SetInts(c: nat, b: bool)
    | AcqLk(c: nat, k: nat)
    | RelLk(c: nat, k: nat)
    | SetCond(c: nat, k: nat, b: bool)
    | Acq(c: nat, why: Why)
    | DoYield(c: nat, back: Next)
    | DropLk(c: nat, k: nat, lk: nat)
    | DoSleep(c: nat, k: nat, lk: nat)
    | DoWakeup(c: nat, k: nat, back: Next)
    | DoExit(c: nat)
    | DoWait(c: nat)
    | DoAlloc(c: nat)
    | SetParent(c: nat, child: nat)
    | ForkFail(c: nat, child: nat)
    | DoForkDone(c: nat, child: nat)
    | DoKill(c: nat, target: nat)
    | Rel(c: nat)
    | Swtch(c: nat)
    | TakeLk(c: nat, k: nat)
    | SAcq(c: nat)
    | SClear(c: nat, p: nat)
    | SPick(c: nat, p: nat)
    | SRel(c: nat)
    | SIntr(c: nat, k: nat)

  /** The process that runs on processor c. */
  predicate Runs(s: State, c: nat) {
    c < |s.cpus| && s.cpus[c].sched == SRun && s.cpus[c].proc.Some? && s.cpus[c].proc.value < |s.procs|
  }

  function Cur(s: State, c: nat): Proc
    requires Runs(s, c)
  {
    s.procs[s.cpus[c].proc.value]
  }

  /** What the callers of yield(), sleep(), exit() and wait() have to see to: which locks are held. */
  predicate MayAcq(s: State, p: nat, why: Why)
    requires p < |s.procs|
  {
    var pr := s.procs[p];
    match why
    case Yield(back) => pr.pc == After(back) && pr.held == {}
    case Sleep(k, lk) => pr.pc.Kern? && k < |s.cond| && lk == s.cond[k].lock && pr.held == {lk} && !s.cond[k].holds
    case Wakeup(k, back) => pr.pc == After(back) && k < |s.cond|
    case Exit => pr.pc.Kern? && pr.held == {} && pr.owes == {} && pr.fork.None? && p != s.init
    case Wait => pr.pc.Kern? && pr.held == {} && pr.fork.None?
    case Alloc => pr.pc.Kern? && pr.held == {} && pr.fork.None?
    case ForkDone => pr.pc.Kern? && pr.held == {} && pr.fork.Some? && pr.fork.value < |s.procs|
      && s.procs[pr.fork.value].parent == Some(p)
    case Kill(target) => pr.pc.Kern? && target < |s.procs|
  }

  predicate IsZombieChild(s: State, p: nat, q: nat) {
    q < |s.procs| && s.procs[q].state == ZOMBIE && s.procs[q].parent == Some(p)
  }

  /** The process on processor c has taken ptable.lock and is at why. */
  predicate Has(s: State, c: nat, why: Why) {
    Runs(s, c) && Cur(s, c).pc == Locked(why)
  }

  /** The process on processor c is in its own code, setting up slot child. */
  predicate Forks(s: State, c: nat, child: nat) {
    Runs(s, c) && Cur(s, c).pc.Kern? && Cur(s, c).fork == Some(child) && child < |s.procs|
  }

  predicate Enabled(s: State, step: Step) {
    match step
    case SetInts(c, b) => Runs(s, c) && s.cpus[c].ncli == 0
    case AcqLk(c, k) => Runs(s, c) && Cur(s, c).pc.Kern? && k < |s.locks| && s.locks[k].None?
    case RelLk(c, k) => Runs(s, c) && Cur(s, c).pc.Kern? && k < |s.locks| && k in Cur(s, c).held && s.cpus[c].ncli > 0
    case SetCond(c, k, b) => Runs(s, c) && Cur(s, c).pc.Kern? && k < |s.cond| && s.cond[k].lock in Cur(s, c).held
    case Acq(c, why) => Runs(s, c) && s.lock.None? && MayAcq(s, s.cpus[c].proc.value, why)
    case DoYield(c, back) => Has(s, c, Yield(back))
    case DropLk(c, k, lk) => Has(s, c, Sleep(k, lk)) && lk in Cur(s, c).held && lk < |s.locks| && s.cpus[c].ncli > 0
    case DoSleep(c, k, lk) => Has(s, c, Sleep(k, lk)) && lk !in Cur(s, c).held
    case DoWakeup(c, k, back) => Has(s, c, Wakeup(k, back))
    case DoExit(c) => Has(s, c, Exit)
    case DoWait(c) => Has(s, c, Wait)
    case DoAlloc(c) => Has(s, c, Alloc)
    case SetParent(c, child) => Forks(s, c, child)
    case ForkFail(c, child) => Forks(s, c, child) && s.procs[child].parent.None?
    case DoForkDone(c, child) => Has(s, c, ForkDone) && Cur(s, c).fork == Some(child) && child < |s.procs|
    case DoKill(c, target) => Has(s, c, Kill(target)) && target < |s.procs|
    case Rel(c) => Runs(s, c) && Cur(s, c).pc.Done? && s.cpus[c].ncli > 0
    case Swtch(c) => Runs(s, c) && Cur(s, c).pc.Leaving?
    case TakeLk(c, k) => Runs(s, c) && Cur(s, c).pc == Relock(k) && k < |s.locks| && s.locks[k].None?
    case SAcq(c) => c < |s.cpus| && s.cpus[c].sched == SOut && s.lock.None?
    case SClear(c, p) => c < |s.cpus| && s.cpus[c].sched == SBack && s.cpus[c].proc == Some(p) && p < |s.procs|
    case SPick(c, p) => c < |s.cpus| && s.cpus[c].sched == SScan && p < |s.procs| && s.procs[p].state == RUNNABLE
    case SRel(c) => c < |s.cpus| && s.cpus[c].sched == SScan && s.cpus[c].ncli > 0
    case SIntr(c, k) =>
      && c < |s.cpus| && s.cpus[c].sched == SOut && s.lock.None? && k < |s.cond|
      && s.cond[k].lock < |s.locks| && s.locks[s.cond[k].lock].None?
  }

  function SetP(s: State, p: nat, pr: Proc): State
    requires p < |s.procs|
  {
    s.(procs := s.procs[p := pr])
  }

  function SetC(s: State, c: nat, cpu: Cpu): State
    requires c < |s.cpus|
  {
    s.(cpus := s.cpus[c := cpu])
  }

  /** acquire() and release() of lock k by process p on processor c. */
  function TakeLock(s: State, c: nat, p: nat, k: nat): State
    requires c < |s.cpus| && p < |s.procs| && k < |s.locks|
  {
    var pr := s.procs[p];
    s.(locks := s.locks[k := Some(p)], cpus := s.cpus[c := Push(s.cpus[c])],
      procs := s.procs[p :=
        pr.(held := pr.held + {k}, want := if s.cpus[c].ncli == 0 then s.cpus[c].ifl else pr.want, pc := Kern)])
  }

  function DropLock(s: State, c: nat, p: nat, k: nat): State
    requires c < |s.cpus| && p < |s.procs| && k < |s.locks| && s.cpus[c].ncli > 0
  {
    s.(locks := s.locks[k := None], cpus := s.cpus[c := Pop(s.cpus[c])], procs :=
      s.procs[p := s.procs[p].(held := s.procs[p].held - {k})])
  }

  /** wakeup1() */
  function Woken(procs: seq<Proc>, chan: Chan): (r: seq<Proc>)
    ensures |r| == |procs|
    ensures forall p | 0 <= p < |procs| ::
      r[p] == if procs[p].state == SLEEPING && procs[p].chan == chan then procs[p].(state := RUNNABLE) else procs[p]
  {
    seq(|procs|, p requires 0 <= p < |procs| =>
      if procs[p].state == SLEEPING && procs[p].chan == chan then procs[p].(state := RUNNABLE) else procs[p])
  }

  /** exit(): the children go to init. */
  function Reparented(procs: seq<Proc>, from: nat, init: nat): (r: seq<Proc>)
    ensures |r| == |procs|
    ensures forall p | 0 <= p < |procs| ::
      r[p] == if procs[p].parent == Some(from) then procs[p].(parent := Some(init)) else procs[p]
  {
    seq(|procs|, p requires 0 <= p < |procs| => if procs[p].parent == Some(from) then procs[p].(parent := Some(init))
      else procs[p])
  }

  ghost predicate HasZombie(procs: seq<Proc>, p: nat) {
    exists q | 0 <= q < |procs| :: procs[q].state == ZOMBIE && procs[q].parent == Some(p)
  }

  ghost predicate HasChild(procs: seq<Proc>, p: nat) {
    exists q | 0 <= q < |procs| :: procs[q].parent == Some(p)
  }

  ghost function Exited(s: State, p: nat): seq<Proc>
    requires p < |s.procs|
  {
    var a := if s.procs[p].parent.Some? then Woken(s.procs, OnProc(s.procs[p].parent.value)) else s.procs;
    var b := if HasZombie(a, p) then Woken(a, OnProc(s.init)) else a;
    var c := Reparented(b, p, s.init);
    c[p := c[p].(state := ZOMBIE, pc := Leaving, frame := Nowhere)]
  }

  /** The slot as wait() leaves it for allocproc(). */
  function Reaped(pr: Proc): Proc {
    pr.(state := UNUSED, parent := None, killed := false)
  }

  /** How a process goes on when the scheduler has switched to it. */
  function Resumed(pr: Proc, c: nat, intena: bool): Proc {
    var r := pr.(state := RUNNING, on := Some(c));
    match pr.frame
    case InYield(back) => r.(pc := Done(back))
    case InSleep(_, lk) => r.(pc := Done(ToLk(lk)), chan := NoChan)
    case InWait => r.(pc := Locked(Wait), chan := NoChan)
    case InForkret => r.(pc := Done(ToKern), want := intena)
    case Nowhere => r
  }

  function After(next: Next): Pc {
    match next
    case ToKern => Kern
    case ToLk(lk) => Relock(lk)
  }

  // ------------------------------------------------- what each step does, for process p on processor c

  function SetCondStep(s: State, p: nat, k: nat, b: bool): State
    requires p < |s.procs| && k < |s.cond|
  {
    SetP(s, p, s.procs[p].(owes := if b then s.procs[p].owes + {k} else s.procs[p].owes)).(cond :=
      s.cond[k := s.cond[k].(holds := b)])
  }

  function AcqStep(s: State, c: nat, p: nat, why: Why): State
    requires c < |s.cpus| && p < |s.procs|
  {
    var pr := s.procs[p].(pc := Locked(why), want := if s.cpus[c].ncli == 0 then s.cpus[c].ifl else s.procs[p].want);
    SetC(SetP(s, p, pr), c, Push(s.cpus[c])).(lock := Some(c))
  }

  /** The state is changed and sched() called. */
  function LeaveStep(s: State, p: nat, state: PState, chan: Chan, frame: Frame): State
    requires p < |s.procs|
  {
    SetP(s, p, s.procs[p].(state := state, chan := chan, pc := Leaving, frame := frame))
  }

  function DoneStep(s: State, p: nat, next: Next): State
    requires p < |s.procs|
  {
    SetP(s, p, s.procs[p].(pc := Done(next)))
  }

  function WakeupStep(s: State, p: nat, k: nat, back: Next): State
    requires p < |s.procs|
  {
    var procs := Woken(s.procs, OnCond(k));
    s.(procs := procs[p := procs[p].(owes := procs[p].owes - {k}, pc := Done(back))])
  }

  /** A device interrupt on a processor whose scheduler is idle: under its lock condition k becomes true,
      and its sleepers are woken. */
  function SIntrStep(s: State, k: nat): State
    requires k < |s.cond|
  {
    s.(cond := s.cond[k := s.cond[k].(holds := true)], procs := Woken(s.procs, OnCond(k)))
  }

  function ReapStep(s: State, p: nat, q: nat): State
    requires p < |s.procs| && q < |s.procs|
  {
    DoneStep(SetP(s, q, Reaped(s.procs[q])), p, ToKern)
  }

  /** The scan of wait(): a zombie child is freed, or there is nothing to wait for, or the process sleeps. */
  ghost predicate WaitStep(s: State, p: nat, s': State)
    requires p < |s.procs|
  {
    if HasZombie(s.procs, p) then exists q :: IsZombieChild(s, p, q) && s' == ReapStep(s, p, q)
    else if !HasChild(s.procs, p) || s.procs[p].killed then s' == DoneStep(s, p, ToKern)
    else s' == LeaveStep(s, p, SLEEPING, OnProc(p), InWait)
  }

  predicate FreeSlot(s: State, q: nat) {
    q < |s.procs| && s.procs[q].state == UNUSED
  }

  function TakeSlot(s: State, p: nat, q: nat): State
    requires p < |s.procs| && q < |s.procs|
  {
    var s1 := SetP(s, q, s.procs[q].(state := EMBRYO, frame := InForkret));
    SetP(s1, p, s1.procs[p].(fork := Some(q), pc := Done(ToKern)))
  }

  ghost predicate AllocStep(s: State, p: nat, s': State)
    requires p < |s.procs|
  {
    (exists q :: FreeSlot(s, q) && s' == TakeSlot(s, p, q)) || s' == DoneStep(s, p, ToKern)
  }

  function ForkFailStep(s: State, p: nat, q: nat): State
    requires p < |s.procs| && q < |s.procs|
  {
    var s1 := SetP(s, q, s.procs[q].(state := UNUSED));
    SetP(s1, p, s1.procs[p].(fork := None))
  }

  function ForkDoneStep(s: State, p: nat, q: nat): State
    requires p < |s.procs| && q < |s.procs|
  {
    var s1 := SetP(s, q, s.procs[q].(state := RUNNABLE));
    SetP(s1, p, s1.procs[p].(fork := None, pc := Done(ToKern)))
  }

  function KillStep(s: State, p: nat, q: nat): State
    requires p < |s.procs| && q < |s.procs|
  {
    var state := if s.procs[q].state == SLEEPING then RUNNABLE else s.procs[q].state;
    DoneStep(SetP(s, q, s.procs[q].(killed := true, state := state)), p, ToKern)
  }

  function RelStep(s: State, c: nat, p: nat): State
    requires c < |s.cpus| && p < |s.procs| && s.procs[p].pc.Done? && s.cpus[c].ncli > 0
  {
    SetC(SetP(s, p, s.procs[p].(pc := After(s.procs[p].pc.next))), c, Pop(s.cpus[c])).(lock := None)
  }

  /** swtch() to the scheduler, with intena kept on the stack of p. */
  function SwtchStep(s: State, c: nat, p: nat): State
    requires c < |s.cpus| && p < |s.procs|
  {
    SetC(SetP(s, p, s.procs[p].(pc := Parked, saved := s.cpus[c].intena)), c, s.cpus[c].(sched := SBack))
  }

  /** The scheduler: acquire() after sti(); proc = 0; swtch() to p; release(). */
  function SAcqStep(s: State, c: nat): State
    requires c < |s.cpus|
  {
    SetC(s, c, Push(s.cpus[c].(ifl := true)).(sched := SScan)).(lock := Some(c))
  }

  function SClearStep(s: State, c: nat, p: nat): State
    requires c < |s.cpus| && p < |s.procs|
  {
    SetC(SetP(s, p, s.procs[p].(on := None)), c, s.cpus[c].(proc := None, sched := SScan))
  }

  function SPickStep(s: State, c: nat, p: nat): State
    requires c < |s.cpus| && p < |s.procs|
  {
    var intena := if s.procs[p].frame.InForkret? then s.cpus[c].intena else s.procs[p].saved;
    SetC(SetP(s, p, Resumed(s.procs[p], c, s.cpus[c].intena)), c,
      s.cpus[c].(proc := Some(p), sched := SRun, intena := intena))
  }

  function SRelStep(s: State, c: nat): State
    requires c < |s.cpus| && s.cpus[c].ncli > 0
  {
    SetC(s, c, Pop(s.cpus[c]).(sched := SOut)).(lock := None)
  }

  function At(s: State, c: nat): nat
    requires Runs(s, c)
  {
    s.cpus[c].proc.value
  }

  ghost predicate DoLocks(s: State, step: Step, s': State)
    requires Enabled(s, step)
  {
    match step
    case SetInts(c, b) => s' == SetC(s, c, s.cpus[c].(ifl := b))
    case AcqLk(c, k) => s' == TakeLock(s, c, At(s, c), k)
    case RelLk(c, k) => s' == DropLock(s, c, At(s, c), k)
    case SetCond(c, k, b) => s' == SetCondStep(s, At(s, c), k, b)
    case Acq(c, why) => s' == AcqStep(s, c, At(s, c), why)
    case DropLk(c, _, lk) => s' == DropLock(s, c, At(s, c), lk)
    case Rel(c) => s' == RelStep(s, c, At(s, c))
    case TakeLk(c, k) => s' == TakeLock(s, c, At(s, c), k)
    case _ => false
  }

  /** Steps under ptable.lock, and fork(); which zombie is found and which slot is free is left open. */
  ghost predicate DoTable(s: State, step: Step, s': State)
    requires Enabled(s, step)
  {
    match step
    case DoYield(c, back) => s' == LeaveStep(s, At(s, c), RUNNABLE, NoChan, InYield(back))
    case DoSleep(c, k, lk) => s' == LeaveStep(s, At(s, c), SLEEPING, OnCond(k), InSleep(k, lk))
    case DoWakeup(c, k, back) => s' == WakeupStep(s, At(s, c), k, back)
    case DoExit(c) => s' == s.(procs := Exited(s, At(s, c)))
    case DoWait(c) => WaitStep(s, At(s, c), s')
    case DoAlloc(c) => AllocStep(s, At(s, c), s')
    case SetParent(c, q) => s' == SetP(s, q, s.procs[q].(parent := Some(At(s, c))))
    case ForkFail(c, q) => s' == ForkFailStep(s, At(s, c), q)
    case DoForkDone(c, q) => s' == ForkDoneStep(s, At(s, c), q)
    case DoKill(c, q) => s' == KillStep(s, At(s, c), q)
    case _ => false
  }

  ghost predicate DoSched(s: State, step: Step, s': State)
    requires Enabled(s, step)
  {
    match step
    case Swtch(c) => s' == SwtchStep(s, c, At(s, c))
    case SAcq(c) => s' == SAcqStep(s, c)
    case SClear(c, p) => s' == SClearStep(s, c, p)
    case SPick(c, p) => s' == SPickStep(s, c, p)
    case SRel(c) => s' == SRelStep(s, c)
    case SIntr(c, k) => s' == SIntrStep(s, k)
    case _ => false
  }

  ghost predicate Do(s: State, step: Step, s': State) {
    Enabled(s, step) && (DoLocks(s, step, s') || DoTable(s, step, s') || DoSched(s, step, s'))
  }

  // ------------------------------------------------- the invariant

  /** A processor, its scheduler, ptable.lock and the process it runs agree. */
  ghost predicate CpuOk(s: State, c: nat)
    requires c < |s.cpus|
  {
    var cpu := s.cpus[c];
    match cpu.sched
    case SOut => cpu.proc.None? && cpu.ncli == 0 && s.lock != Some(c)
    case SScan => cpu.proc.None? && cpu.ncli == 1 && !cpu.ifl && s.lock == Some(c)
    case SBack =>
      && cpu.proc.Some? && cpu.proc.value < |s.procs| && s.procs[cpu.proc.value].on == Some(c)
      && s.procs[cpu.proc.value].pc == Parked
      && cpu.ncli == 1 && !cpu.ifl && s.lock == Some(c)
    case SRun => cpu.proc.Some? && cpu.proc.value < |s.procs| && RunOk(cpu, s.procs[cpu.proc.value], c, s.lock)
  }

  ghost predicate RunOk(cpu: Cpu, pr: Proc, c: nat, lock: Option<nat>) {
    && pr.on == Some(c) && pr.pc != Parked && (lock == Some(c) <==> HoldsPt(pr.pc))
    && cpu.ncli == |pr.held| + (if HoldsPt(pr.pc) then 1 else 0)
    && (cpu.ncli > 0 ==> !cpu.ifl && cpu.intena == pr.want)
  }

  ghost predicate CpusOk(s: State) {
    && (forall c | 0 <= c < |s.cpus| :: CpuOk(s, c))
    && (s.lock.Some? ==> s.lock.value < |s.cpus|)
    && (forall p | 0 <= p < |s.procs| && s.procs[p].on.Some? ::
          s.procs[p].on.value < |s.cpus| && s.cpus[s.procs[p].on.value].proc == Some(p))
  }

  /** Which locks a process holds at each point of its code. */
  ghost predicate HeldOk(pr: Proc) {
    match pr.pc
    case Kern => true
    case Relock(_) => pr.held == {}
    case Locked(why) => (match why
      case Sleep(_, lk) => pr.held <= {lk}
      case Wakeup(_, back) => back.ToKern? || pr.held == {} case Kill(_) => true case _ => pr.held == {})
    case Leaving => pr.held == {}
    case Done(next) => next.ToKern? || pr.held == {}
    case Parked => pr.held == {}
  }

  /** The state of a process, its place in the code and the frame it sleeps in agree. */
  ghost predicate ProcOk(pr: Proc, p: nat) {
    && HeldOk(pr)
    && (pr.on.None? ==> pr.pc == Parked)
    && (pr.state == RUNNING <==> pr.on.Some? && pr.pc != Parked && pr.pc != Leaving)
    && (pr.state == SLEEPING ==>
       (pr.frame.InSleep? && pr.chan == OnCond(pr.frame.k)) || (pr.frame == InWait && pr.chan == OnProc(p)))
    && (pr.state == RUNNABLE ==> pr.frame != Nowhere)
    && (pr.state == EMBRYO || pr.state == UNUSED ==> pr.on.None?)
    && (pr.state == EMBRYO ==> pr.frame == InForkret)
    && (pr.owes != {} ==> Alive(pr.state))
    && (pr.pc == Leaving ==> pr.frame != InForkret)
    && (pr.pc == Locked(Exit) ==> pr.fork.None? && pr.owes == {})
    && (pr.pc == Locked(Alloc) || pr.pc == Locked(Wait) ==> pr.fork.None?)
    && (pr.frame == InWait && (pr.pc == Leaving || pr.pc == Parked) ==> pr.fork.None?)
    && (pr.pc == Parked && (pr.state == SLEEPING || pr.state == RUNNABLE) && pr.frame != InForkret ==>
       pr.saved == pr.want)
  }

  ghost predicate ProcsOk(s: State) {
    forall p | 0 <= p < |s.procs| :: ProcOk(s.procs[p], p)
  }

  ghost predicate LocksOk(s: State) {
    && (forall k | 0 <= k < |s.cond| :: s.cond[k].lock < |s.locks|)
    && (forall p, k {:trigger k in s.procs[p].held} | 0 <= p < |s.procs| && k in s.procs[p].held ::
       k < |s.locks| && s.locks[k] == Some(p))
    && (forall k | 0 <= k < |s.locks| && s.locks[k].Some? ::
       s.locks[k].value < |s.procs| && k in s.procs[s.locks[k].value].held)
  }

  predicate Alive(state: PState) {
    state == SLEEPING || state == RUNNABLE || state == RUNNING
  }

  /** Parents are alive, and everyone but init has one. */
  ghost predicate ParentsOk(s: State) {
    && s.init < |s.procs| && Alive(s.procs[s.init].state) && s.procs[s.init].pc != Locked(Exit)
    && s.procs[s.init].parent.None?
    && (forall p | 0 <= p < |s.procs| && s.procs[p].parent.Some? :: ParentOf(s, p, s.procs[p].parent.value))
    && (forall p | 0 <= p < |s.procs| && p != s.init && (Alive(s.procs[p].state) || s.procs[p].state == ZOMBIE) ::
       s.procs[p].parent.Some?)
  }

  ghost predicate ParentOf(s: State, p: nat, r: nat)
    requires p < |s.procs|
  {
    r < |s.procs| && r != p && Alive(s.procs[r].state) && s.procs[p].state != UNUSED
  }

  /** A slot being set up belongs to one fork(). */
  ghost predicate ForksOk(s: State) {
    && (forall f | 0 <= f < |s.procs| && s.procs[f].fork.Some? :: ForkOk(s, f, s.procs[f].fork.value))
    && (forall f, g | 0 <= f < |s.procs| && 0 <= g < |s.procs| && f != g && s.procs[f].fork.Some? ::
       s.procs[g].fork != s.procs[f].fork)
  }

  ghost predicate FamilyOk(s: State) {
    ParentsOk(s) && ForksOk(s)
  }

  ghost predicate ForkOk(s: State, f: nat, q: nat)
    requires f < |s.procs|
  {
    && q < |s.procs| && s.procs[q].state == EMBRYO && (s.procs[q].parent.None? || s.procs[q].parent == Some(f))
    && Alive(s.procs[f].state) && (s.procs[f].pc == Locked(ForkDone) ==> s.procs[q].parent == Some(f))
  }

  /** Nobody sleeps in wait() while a child of theirs is a zombie. */
  ghost predicate WaitersOk(s: State) {
    forall q | 0 <= q < |s.procs| && s.procs[q].state == ZOMBIE && s.procs[q].parent.Some?
      && s.procs[q].parent.value < |s.procs| ::
      !(s.procs[s.procs[q].parent.value].state == SLEEPING
        && s.procs[s.procs[q].parent.value].chan == OnProc(s.procs[q].parent.value))
  }

  /** The process sleeps on condition k, or has let go of the lock on its way there. */
  predicate Waits(pr: Proc, k: nat) {
    (pr.state == SLEEPING && pr.chan == OnCond(k))
      || (pr.pc.Locked? && pr.pc.why.Sleep? && pr.pc.why.k == k && pr.pc.why.lk !in pr.held)
  }

  ghost predicate Owed(s: State, k: nat) {
    exists q | 0 <= q < |s.procs| :: k in s.procs[q].owes
  }

  /** A process that is about to sleep and still has the lock has just seen the condition false. */
  predicate AboutTo(s: State, pr: Proc) {
    pr.pc.Locked? && pr.pc.why.Sleep? && pr.pc.why.lk in pr.held ==>
      pr.pc.why.k < |s.cond| && s.cond[pr.pc.why.k] == Cond(pr.pc.why.lk, false)
  }

  /** Whoever waits for a condition that holds has a wakeup coming. */
  ghost predicate WakeOk(s: State) {
    && (forall p, k | 0 <= p < |s.procs| && 0 <= k < |s.cond| && Waits(s.procs[p], k) && s.cond[k].holds :: Owed(s, k))
    && (forall p | 0 <= p < |s.procs| :: AboutTo(s, s.procs[p]))
  }

  ghost predicate Inv(s: State) {
    CpusOk(s) && ProcsOk(s) && LocksOk(s) && FamilyOk(s) && WaitersOk(s) && WakeOk(s)
  }
}
