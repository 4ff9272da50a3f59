/** What holds in every state of every run of LogSystem. */
module LogTheorems {
  import opened Basics
  import opened LogFormat
  import opened LogSystem
  import opened LogSystemProof
  import opened LogThreadProof

  lemma Shape(lay: Layout, s: State)
    requires Storage(lay, s)
    ensures |s.view| == |s.base| == lay.start && PhaseOk(s.pc, |s.lh|)
  { }

  lemma LogThreadMoves(lay: Layout, s: State, victim: Option<nat>, junk: Block, s': State)
    requires Inv(lay, s) && DoLog(lay, s, victim, junk) == Some(s')
    requires var i := Code(lay, s.pc.phase, s.lh); i.Bread? || i.Put? || i.Jump?
    ensures Inv(lay, s')
  {
    hide Storage, Books;
    match Code(lay, s.pc.phase, s.lh)
    case Bread(b, next) => BreadStorage(lay, s, b, next, victim, junk, s'); BooksKept(s, s');
    case Put(b, next) => PutStorage(lay, s, b, next, s'); BooksKept(s, s');
    case Jump(next) => JumpStorage(lay, s, next, s'); BooksKept(s, s');
  }

  lemma LogThreadWrites(lay: Layout, s: State, victim: Option<nat>, junk: Block, s': State)
    requires Inv(lay, s) && DoLog(lay, s, victim, junk) == Some(s')
    requires var i := Code(lay, s.pc.phase, s.lh); i.Copy? || i.StoreHead?
    ensures Inv(lay, s')
  {
    hide Storage, Books;
    Shape(lay, s);
    match s.pc.phase
    case WriteLog(i, _) => CopyToLogStorage(lay, s, i, s'); BooksKept(s, s');
    case WriteHead(_) => CommitStorage(lay, s, s'); CommitBooks(lay, s, s');
    case Install(i, _) => CopyHomeStorage(lay, s, i, s'); BooksKept(s, s');
    case Clear(_) => ClearStorage(lay, s, s'); BooksKept(s, s');
  }

  lemma LogThreadKeeps(lay: Layout, s: State, victim: Option<nat>, junk: Block, s': State)
    requires Inv(lay, s) && DoLog(lay, s, victim, junk) == Some(s')
    ensures Inv(lay, s')
  {
    hide Storage, Books;
    Shape(lay, s);
    match Code(lay, s.pc.phase, s.lh)
    case Bread(_, _) => LogThreadMoves(lay, s, victim, junk, s');
    case Put(_, _) => LogThreadMoves(lay, s, victim, junk, s');
    case Jump(_) => LogThreadMoves(lay, s, victim, junk, s');
    case Copy(_, _, _) => LogThreadWrites(lay, s, victim, junk, s');
    case StoreHead(_, _) => LogThreadWrites(lay, s, victim, junk, s');
    case LoadHead(_) => LoadHeadKeeps(lay, s, s');
    case DropHead(_) => DropHeadKeeps(lay, s, s');
    case Return => ReturnKeeps(lay, s, s');
  }

  lemma StepKeeps(lay: Layout, s: State, step: Step, s': State)
    requires Inv(lay, s) && Do(lay, s, step) == Some(s')
    ensures Inv(lay, s')
  {
    hide Storage, Books;
    match step
    case BeginSleep(p) => BeginSleepKeeps(lay, s, p, s');
    case BeginJoin(p) => BeginJoinKeeps(lay, s, p, s');
    case EndOp(p) => EndOpBooks(s, p, s'); EndOpStorage(lay, s, p, s');
    case Get(p, b, victim, junk) => GetKeeps(lay, s, p, b, victim, junk, s');
    case Fill(who, b) => FillKeeps(lay, s, who, b, s');
    case Modify(p, b, data) => ModifyKeeps(lay, s, p, b, data, s');
    case LogWrite(p, b) => Shape(lay, s); LogWriteBooks(lay, s, p, b, s'); LogWriteStorage(lay, s, p, b, s');
    case Release(p, b) => ReleaseKeeps(lay, s, p, b, s');
    case Log(victim, junk) => LogThreadKeeps(lay, s, victim, junk, s');
    case Crash => CrashBooks(s); CrashStorage(lay, s);
  }

  lemma BootInv(lay: Layout, disk: seq<Block>)
    requires ValidDisk(lay, disk)
    ensures Inv(lay, Boot(lay, disk))
  {
    var m := Meaning(lay, disk);
    MeansIsMeaning(lay, disk, m);
  }

  lemma {:induction false} RunInv(lay: Layout, run: seq<State>, steps: seq<Step>, i: nat)
    requires IsRun(lay, run, steps) && i < |run|
    ensures Inv(lay, run[i])
  {
    hide Inv, Do;
    if i == 0 {
      BootInv(lay, run[0].disk);
    } else {
      RunInv(lay, run, steps, i - 1);
      StepKeeps(lay, run[i - 1], steps[i - 1], run[i]);
    }
  }

  lemma ReachableInv(lay: Layout, s: State)
    requires Reachable(lay, s)
    ensures Inv(lay, s)
  {
    hide Inv, Do;
    var run, steps :| IsRun(lay, run, steps) && run[|steps|] == s;
    RunInv(lay, run, steps, |steps|);
  }

  /** Crash atomicity. In every state of every run, with crashes anywhere, also inside
      recovery, the disk is worth the effect of exactly the first `cut` log_writes, and
      every operation has all of its log_writes among them or none. */
  lemma CrashAtomicity(lay: Layout, s: State)
    requires Reachable(lay, s)
    ensures ValidDisk(lay, s.disk) && s.cut <= |s.hist|
    ensures Meaning(lay, s.disk) == Replay(s.base, s.hist[..s.cut])
    ensures HeaderOf(s.disk[lay.start]) != [] ==> s.cut == |s.hist|
    ensures forall j, k | 0 <= j < |s.hist| && 0 <= k < |s.hist| && s.hist[j].id == s.hist[k].id ::
      j < s.cut <==> k < s.cut
  {
    ReachableInv(lay, s);
    MeansIsMeaning(lay, s.disk, s.durable);
  }

  lemma Settled(lay: Layout, s: State)
    requires Inv(lay, s) && s.pc.Run? && s.pc.phase.Finish?
    ensures |s.disk| >= lay.start && s.disk[..lay.start] == s.view == Replay(s.base, s.hist) && s.cut == |s.hist|
    ensures HeaderOf(s.disk[lay.start]) == []
    ensures forall b | b in s.cache :: !s.cache[b].dirty
  {
    assert s.lh[0..] == [];
    assert s.hist[..s.cut] == s.hist;
  }

  lemma OnlyReturnIdles(lay: Layout, s: State, victim: Option<nat>, junk: Block, s': State)
    requires DoLog(lay, s, victim, junk) == Some(s') && s'.pc.Idle?
    ensures s.pc.Run? && s.pc.phase.Finish? && s' == s.(pc := Idle, sleepers := {})
  { }

  /** When commit() or a recovery returns, every log_write in the history is on the home
      blocks, the log is empty and no buffer is DIRTY. */
  lemma LogThreadCompletes(lay: Layout, s: State, victim: Option<nat>, junk: Block, s': State)
    requires Reachable(lay, s) && DoLog(lay, s, victim, junk) == Some(s') && s'.pc.Idle?
    ensures |s'.disk| >= lay.start && s'.disk[..lay.start] == Replay(s'.base, s'.hist) == s'.view
    ensures s'.hist == s.hist && s'.cut == |s'.hist| && s'.lh == []
    ensures forall b | b in s'.cache :: !s'.cache[b].dirty
  {
    hide Reachable, Storage, Books, Exec, Code;
    ReachableInv(lay, s);
    OnlyReturnIdles(lay, s, victim, junk, s');
    Settled(lay, s);
    Shape(lay, s);
  }

  /** bread(): a filled buffer that its holder has not changed holds the logical block: the
      last log_write to it, else what the disk was worth at boot. */
  lemma BreadIsLogical(lay: Layout, s: State, b: nat)
    requires Reachable(lay, s) && b < lay.start && !Recovering(s.pc)
    requires b in s.cache && s.cache[b].valid && !s.cache[b].touched
    ensures b < |s.base| && s.cache[b].data == Replay(s.base, s.hist)[b]
  {
    ReachableInv(lay, s);
  }

  lemma DirtyInLog(lay: Layout, s: State, b: nat)
    requires Inv(lay, s) && b in s.cache && s.cache[b].dirty
    ensures s.cache[b].valid && b in s.lh && b < lay.start && b < |s.view| && b < |s.disk| && |s.cache| <= NBUF
      && !Recovering(s.pc)
  { }

  lemma DirtyStaysInLogThread(lay: Layout, s: State, victim: Option<nat>, junk: Block, s': State, b: nat)
    requires DoLog(lay, s, victim, junk) == Some(s') && |s.cache| <= NBUF && b < lay.start && b < |s.disk|
    requires b in s.cache && s.cache[b].dirty
    ensures b in s'.cache
      && (s'.cache[b].dirty || (s.pc.phase.Install? && b < |s'.disk| && s'.disk[b] == s'.cache[b].data))
  {
    match Code(lay, s.pc.phase, s.lh)
    case Bread(x, next) => BgetGets(s.cache, x, LogThread, victim, junk, s'.cache);
    case _ =>
  }

  lemma DirtyStaysInProcess(lay: Layout, s: State, step: Step, s': State, b: nat)
    requires Do(lay, s, step) == Some(s') && !step.Log? && !step.Crash? && |s.cache| <= NBUF
    requires b in s.cache && s.cache[b].dirty && s.cache[b].valid
    ensures b in s'.cache && s'.cache[b].dirty
    ensures step.Fill? ==> s'.cache[b] == s.cache[b]
  {
    if step.Get? {
      BgetGets(s.cache, step.b, Proc(step.p), step.victim, step.junk, s'.cache);
    }
  }

  /** A pinned buffer is neither recycled nor read again before its home block is written;
      only a crash loses it. */
  lemma DirtyStays(lay: Layout, s: State, step: Step, s': State, b: nat)
    requires Reachable(lay, s) && Do(lay, s, step) == Some(s') && !step.Crash?
    requires b in s.cache && s.cache[b].dirty
    ensures b in s'.cache
      && (s'.cache[b].dirty || (s.pc.Run? && s.pc.phase.Install? && b < |s'.disk| && s'.disk[b] == s'.cache[b].data))
    ensures step.Fill? ==> s'.cache[b] == s.cache[b]
  {
    hide Reachable, Storage, Books, Exec, Code;
    ReachableInv(lay, s);
    DirtyInLog(lay, s, b);
    if step.Log? {
      DirtyStaysInLogThread(lay, s, step.victim, step.junk, s', b);
    } else {
      DirtyStaysInProcess(lay, s, step, s', b);
    }
  }

  lemma OnlyInstallWritesHome(lay: Layout, s: State, step: Step, s': State, b: nat)
    requires Do(lay, s, step) == Some(s') && b < lay.start && b < |s.disk| && b < |s'.disk| && s'.disk[b] != s.disk[b]
    ensures s.pc.Run? && s.pc.phase.Install? && s.pc.phase.k >= 2 && s.pc.phase.tail < |s.lh|
      && s.lh[s.pc.phase.tail] == b
    ensures var from := LogBlock(lay, s.pc.phase.tail);
      HoldsValid(s, from, LogThread) && s'.disk[b] == s.cache[from].data
  {
    if !step.Log? {
      ProcessesWriteNothing(lay, s, step, s');
    } else {
      hide HeaderOf, Brelse, Bget;
    }
  }

  lemma ProcessesWriteNothing(lay: Layout, s: State, step: Step, s': State)
    requires Do(lay, s, step) == Some(s') && !step.Log?
    ensures s'.disk == s.disk
  { }

  lemma LogCopyIsMeaning(lay: Layout, s: State)
    requires Storage(lay, s) && s.pc.Run? && s.pc.phase.Install? && s.pc.phase.tail < |s.lh|
    requires HoldsValid(s, LogBlock(lay, s.pc.phase.tail), LogThread)
    ensures ValidDisk(lay, s.disk) && HeaderOf(s.disk[lay.start]) == s.lh
    ensures s.cache[LogBlock(lay, s.pc.phase.tail)].data == Meaning(lay, s.disk)[s.lh[s.pc.phase.tail]]
  {
    hide CacheOk, DiskOk, Means, HeaderOf, Meaning, Elements;
    HeldData(lay, s, LogBlock(lay, s.pc.phase.tail));
    EntryMeans(lay, s.disk, s.pc.phase.tail);
  }

  lemma EntryMeans(lay: Layout, disk: seq<Block>, i: nat)
    requires ValidDisk(lay, disk) && i < |HeaderOf(disk[lay.start])|
    ensures Meaning(lay, disk)[HeaderOf(disk[lay.start])[i]] == disk[lay.start + 1 + i]
  {
    hide HeaderOf;
  }

  /** No home block reaches the disk before the header that commits it: the block is in the
      on-disk header, and what is written is what the disk was already worth. */
  lemma HomeWrittenAfterHeader(lay: Layout, s: State, step: Step, s': State, b: nat)
    requires Reachable(lay, s) && Do(lay, s, step) == Some(s')
    requires b < lay.start && b < |s.disk| && b < |s'.disk| && s'.disk[b] != s.disk[b]
    ensures ValidDisk(lay, s.disk) && b in HeaderOf(s.disk[lay.start]) && s'.disk[b] == Meaning(lay, s.disk)[b]
  {
    hide Reachable, Storage, Books, Do;
    ReachableInv(lay, s);
    OnlyInstallWritesHome(lay, s, step, s', b);
    LogCopyIsMeaning(lay, s);
  }

  // ------------------------------------------------- admission

  /** In every interleaving: no operation is inside during a commit; an idle log is empty;
      logged blocks are distinct home blocks, no more than the header holds; and every begin_op sleeper has
      an operation or a commit to wake it. */
  lemma AdmissionSafe(lay: Layout, s: State)
    requires Reachable(lay, s)
    ensures s.pc.Run? ==> s.ops == map[]
    ensures s.pc.Idle? && s.ops == map[] ==> s.lh == []
    ensures GoodHeader(lay, s.lh)
    ensures s.sleepers != {} ==> s.ops != map[] || s.pc.Run?
  {
    ReachableInv(lay, s);
  }
}
