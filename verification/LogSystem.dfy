/** kernel/log.c over kernel/bio.c over kernel/memide.c as one step system.

    Any number of processes read blocks, run file-system operations between begin_op
    and end_op, and sleep for log space; the process that ends the last operation runs
    commit() block by block while readers go on; the machine may crash between any two
    steps, also inside recovery. Each step is what one process does between two points
    where another can run: every disk write is a step of its own. */
module LogSystem {
  import opened Basics
  import opened LogFormat

  type Pid = nat

  /** Who holds B_BUSY: a process, or the thread inside commit() or recover_from_log(). */
  datatype Holder = Proc(p: Pid) | LogThread

  /** A cached block. `touched` says that the holder changed the data and has not yet
      called log_write; it records the caller discipline stated above log_write(). */
  datatype Buf = Buf(valid: bool, dirty: bool, touched: bool, holder: Option<Holder>, data: Block)

  /** An outstanding operation: a number of its own and the log slots it has used. */
  datatype Op = Op(id: nat, used: nat)

  /** One log_write, in the order the operations made them. */
  datatype Write = Write(id: nat, block: nat, data: Block)

  /** Where the log thread is. In WriteLog and Install, k counts: 0 nothing held, 1 log
      block held, 2 home block held too, 3 disk written, 4 first buffer released. In the
      header phases: 0 nothing held, 1 header block held, 2 done with it. */
  datatype Phase =
    | ReadHead(k: nat)
    | WriteLog(tail: nat, k: nat)
    | WriteHead(k: nat)
    | Install(tail: nat, k: nat)
    | Clear(k: nat)
    | Finish

  datatype Pc = Idle | Run(recovering: bool, phase: Phase)

  /** disk, cache, lh, ops (log.outstanding == |ops|), sleepers and pc (log.committing) are
      the system. The rest is history: view is what the operations wrote so far, durable
      what the disk is worth, hist every log_write over base, cut how many of them are
      durable, floor the first operation number not yet durable. */
  datatype State = State(
    disk: seq<Block>, cache: map<nat, Buf>, lh: seq<nat>,
    ops: map<Pid, Op>, sleepers: set<Pid>, pc: Pc,
    base: seq<Block>, view: seq<Block>, durable: seq<Block>,
    hist: seq<Write>, cut: nat, floor: nat, nextId: nat)

  // ---------------------------------------------------------------- actions

  /** bget(): take a cached buffer that is not busy, else recycle a clean, free one. */
  function Bget(cache: map<nat, Buf>, b: nat, who: Holder, victim: Option<nat>, junk: Block)
      : (r: Option<map<nat, Buf>>) {
    var recycled := Buf(false, false, false, Some(who), junk);
    if b in cache then
      if cache[b].holder.None? then Some(cache[b := cache[b].(holder := Some(who))]) else None
    else match victim
      case None => if |cache| < NBUF then Some(cache[b := recycled]) else None
      case Some(v) =>
        if v in cache && cache[v].holder.None? && !cache[v].dirty then Some((cache - {v})[b := recycled]) else None
  }

  function Brelse(cache: map<nat, Buf>, b: nat): map<nat, Buf>
    requires b in cache
  {
    cache[b := cache[b].(holder := None)]
  }

  predicate HoldsValid(s: State, b: nat, who: Holder) {
    b in s.cache && s.cache[b].holder == Some(who) && s.cache[b].valid
  }

  /** bwrite(): DIRTY on, block to disk, DIRTY off, VALID on. */
  function Bwrite(s: State, b: nat, data: Block): State
    requires b in s.cache && b < |s.disk|
  {
    s.(disk := s.disk[b := data],
       cache := s.cache[b := s.cache[b].(valid := true, dirty := false, touched := false, data := data)])
  }

  function LogBlock(lay: Layout, tail: nat): nat { lay.start + 1 + tail }

  /** The straight-line actions that commit() and recover_from_log() are made of. */
  datatype Instr =
    | Bread(b: nat, next: Phase)
    | Put(b: nat, next: Phase)                    // brelse
    | Copy(from: nat, to: nat, next: Phase)       // memmove, then bwrite of the destination
    | LoadHead(next: Phase)                       // log.lh = header block
    | StoreHead(h: seq<nat>, next: Phase)         // header block = h, then bwrite
    | DropHead(next: Phase)                       // log.lh.n = 0
    | Jump(next: Phase)
    | Return                                      // committing = 0; wakeup(&log)

  /** write_log(), write_head(), install_trans(), write_head() and, after a reboot, read_head(),
      install_trans(), write_head(), action by action. */
  function Code(lay: Layout, phase: Phase, lh: seq<nat>): Instr {
    match phase
    case ReadHead(k) =>
      if k == 0 then Bread(lay.start, ReadHead(1))
      else if k == 1 then LoadHead(ReadHead(2))
      else Put(lay.start, Install(0, 0))
    case WriteLog(i, k) =>
      if i >= |lh| then Jump(WriteHead(0))
      else if k == 0 then Bread(LogBlock(lay, i), WriteLog(i, 1))
      else if k == 1 then Bread(lh[i], WriteLog(i, 2))
      else if k == 2 then Copy(lh[i], LogBlock(lay, i), WriteLog(i, 3))
      else if k == 3 then Put(lh[i], WriteLog(i, 4))
      else Put(LogBlock(lay, i), WriteLog(i + 1, 0))
    case WriteHead(k) =>
      if k == 0 then Bread(lay.start, WriteHead(1))
      else if k == 1 then StoreHead(lh, WriteHead(2))
      else Put(lay.start, Install(0, 0))
    case Install(i, k) =>
      if i >= |lh| then DropHead(Clear(0))
      else if k == 0 then Bread(LogBlock(lay, i), Install(i, 1))
      else if k == 1 then Bread(lh[i], Install(i, 2))
      else if k == 2 then Copy(LogBlock(lay, i), lh[i], Install(i, 3))
      else if k == 3 then Put(LogBlock(lay, i), Install(i, 4))
      else Put(lh[i], Install(i + 1, 0))
    case Clear(k) =>
      if k == 0 then Bread(lay.start, Clear(1))
      else if k == 1 then StoreHead([], Clear(2))
      else Put(lay.start, Finish)
    case Finish => Return
  }

  function Go(s: State, phase: Phase): State
    requires s.pc.Run?
  {
    s.(pc := Run(s.pc.recovering, phase))
  }

  function RunBread(s: State, b: nat, next: Phase, victim: Option<nat>, junk: Block): (r: Option<State>)
    requires s.pc.Run?
  {
    match Bget(s.cache, b, LogThread, victim, junk)
    case None => None
    case Some(c) => Some(Go(s.(cache := c), next))
  }

  /** Writing the nonzero header is the commit point: here the history moves. */
  function RunStoreHead(lay: Layout, s: State, h: seq<nat>, next: Phase): (r: Option<State>)
    requires s.pc.Run?
  {
    if HoldsValid(s, lay.start, LogThread) && |h| <= LOGSIZE && lay.start < |s.disk| then
      var w := Go(Bwrite(s, lay.start, WithHeader(s.cache[lay.start].data, h)), next);
      Some(if |h| > 0 then w.(durable := s.view, cut := |s.hist|, floor := s.nextId) else w)
    else None
  }

  /** bread() has returned: every buffer the log thread asked for is filled. */
  predicate Filled(cache: map<nat, Buf>) {
    forall b | b in cache && cache[b].holder == Some(LogThread) :: cache[b].valid
  }

  function Exec(lay: Layout, s: State, instr: Instr, victim: Option<nat>, junk: Block): (r: Option<State>)
    requires s.pc.Run?
  {
    match instr
    case Bread(b, next) => RunBread(s, b, next, victim, junk)
    case Put(b, next) =>
      if b in s.cache && s.cache[b].holder == Some(LogThread) then Some(Go(s.(cache := Brelse(s.cache, b)), next))
        else None
    case Copy(from, to, next) =>
      if HoldsValid(s, from, LogThread) && HoldsValid(s, to, LogThread) && to < |s.disk| then
        Some(Go(Bwrite(s, to, s.cache[from].data), next))
      else None
    case LoadHead(next) =>
      if HoldsValid(s, lay.start, LogThread) then Some(Go(s.(lh := HeaderOf(s.cache[lay.start].data)), next)) else None
    case StoreHead(h, next) => RunStoreHead(lay, s, h, next)
    case DropHead(next) => Some(Go(s.(lh := []), next))
    case Jump(next) => Some(Go(s, next))
    case Return => Some(s.(pc := Idle, sleepers := {}))
  }

  /** One step of the log thread; None where it has to wait (or panics for want of a buffer). */
  function DoLog(lay: Layout, s: State, victim: Option<nat>, junk: Block): (r: Option<State>) {
    if s.pc.Run? && Filled(s.cache) then Exec(lay, s, Code(lay, s.pc.phase, s.lh), victim, junk) else None
  }

  // ---------------------------------------------------------------- steps

  datatype Step =
    | BeginSleep(p: Pid)                                   // begin_op: no room, or committing
    | BeginJoin(p: Pid)                                    // begin_op: outstanding += 1
    | EndOp(p: Pid)                                        // end_op up to the call of commit()
    | Get(p: Pid, b: nat, victim: Option<nat>, junk: Block) // bread: bget
    | Fill(who: Holder, b: nat)                            // bread: iderw of an invalid buffer
    | Modify(p: Pid, b: nat, data: Block)                  // the holder changes b->data
    | LogWrite(p: Pid, b: nat)
    | Release(p: Pid, b: nat)                              // brelse
    | Log(victim: Option<nat>, junk: Block)                // the log thread moves
    | Crash                                                // power fails; the machine reboots

  predicate NoRoom(s: State) {
    |s.lh| + (|s.ops| + 1) * MAXOPBLOCKS > LOGSIZE
  }

  predicate LogWritePanics(lay: Layout, s: State) {
    |s.lh| >= LOGSIZE || |s.lh| >= lay.size - 1 || |s.ops| < 1
  }

  function Reboot(s: State): (r: State)
    requires s.cut <= |s.hist|
  {
    s.(cache := map[], lh := [], ops := map[], sleepers := {}, pc := Run(true, ReadHead(0)),
       view := s.durable, hist := s.hist[..s.cut])
  }

  // Besides the code's own guards, the steps state what callers must keep to: a process only
  // touches home blocks, changes a buffer only while it holds it inside an operation, calls
  // log_write before releasing it, and releases changed buffers before end_op. How many blocks an
  // operation logs is its own affair. None means the step cannot be taken (it waits, or panics).

  function DoBeginSleep(s: State, p: Pid): (r: Option<State>) {
    if p !in s.ops && (s.pc.Run? || NoRoom(s)) then Some(s.(sleepers := s.sleepers + {p})) else None
  }

  function DoBeginJoin(s: State, p: Pid): (r: Option<State>) {
    if p !in s.ops && p !in s.sleepers && s.pc.Idle? && !NoRoom(s) then
      Some(s.(ops := s.ops[p := Op(s.nextId, 0)], nextId := s.nextId + 1))
    else None
  }

  predicate ReleasedAll(cache: map<nat, Buf>, p: Pid) {
    forall b | b in cache :: cache[b].holder == Some(Proc(p)) ==> !cache[b].touched
  }

  function DoEndOp(s: State, p: Pid): (r: Option<State>) {
    if p in s.ops && s.pc.Idle? && ReleasedAll(s.cache, p) then
      var ops := s.ops - {p};
      if ops == map[] then
        Some(s.(ops := ops, pc := Run(false, if |s.lh| > 0 then WriteLog(0, 0) else Finish)))
      else Some(s.(ops := ops, sleepers := {}))
    else None
  }

  function DoGet(lay: Layout, s: State, p: Pid, b: nat, victim: Option<nat>, junk: Block): (r: Option<State>) {
    if b < lay.start && !(s.pc.Run? && s.pc.recovering) then
      match Bget(s.cache, b, Proc(p), victim, junk)
      case None => None
      case Some(c) => Some(s.(cache := c))
    else None
  }

  function DoFill(s: State, who: Holder, b: nat): (r: Option<State>) {
    if b in s.cache && b < |s.disk| && s.cache[b].holder == Some(who) && !s.cache[b].valid then
      Some(s.(cache := s.cache[b := s.cache[b].(valid := true, data := s.disk[b])]))
    else None
  }

  function DoModify(lay: Layout, s: State, p: Pid, b: nat, data: Block): (r: Option<State>) {
    if p in s.ops && b < lay.start && HoldsValid(s, b, Proc(p)) then
      Some(s.(cache := s.cache[b := s.cache[b].(touched := true, data := data)]))
    else None
  }

  function DoLogWrite(lay: Layout, s: State, p: Pid, b: nat): (r: Option<State>) {
    if p in s.ops && HoldsValid(s, b, Proc(p)) && b < lay.start && b < |s.view| && !LogWritePanics(lay, s) then
      if b in s.lh then Some(Logged(s, p, b, s.lh, s.ops[p].used))
      else Some(Logged(s, p, b, s.lh + [b], s.ops[p].used + 1))
    else None
  }

  function DoRelease(s: State, p: Pid, b: nat): (r: Option<State>) {
    if b in s.cache && s.cache[b].holder == Some(Proc(p)) && !s.cache[b].touched then
      Some(s.(cache := Brelse(s.cache, b)))
    else None
  }

  /** What step does in s. */
  function Do(lay: Layout, s: State, step: Step): (r: Option<State>) {
    match step
    case BeginSleep(p) => DoBeginSleep(s, p)
    case BeginJoin(p) => DoBeginJoin(s, p)
    case EndOp(p) => DoEndOp(s, p)
    case Get(p, b, victim, junk) => DoGet(lay, s, p, b, victim, junk)
    case Fill(who, b) => DoFill(s, who, b)
    case Modify(p, b, data) => DoModify(lay, s, p, b, data)
    case LogWrite(p, b) => DoLogWrite(lay, s, p, b)
    case Release(p, b) => DoRelease(s, p, b)
    case Log(victim, junk) => DoLog(lay, s, victim, junk)
    case Crash => if s.cut <= |s.hist| then Some(Reboot(s)) else None
  }

  /** log_write(b): record b in the header (absorbing a repeat) and pin the buffer. */
  function Logged(s: State, p: Pid, b: nat, lh: seq<nat>, used: nat): (r: State)
    requires p in s.ops && b in s.cache && b < |s.view|
  {
    var data := s.cache[b].data;
    s.(lh := lh, ops := s.ops[p := s.ops[p].(used := used)],
       cache := s.cache[b := s.cache[b].(dirty := true, touched := false)],
       view := s.view[b := data], hist := s.hist + [Write(s.ops[p].id, b, data)])
  }

  // ---------------------------------------------------------------- invariant

  function Replay(base: seq<Block>, hist: seq<Write>): (v: seq<Block>)
    ensures |v| == |base|
  {
    if hist == [] then base else
    var w := hist[|hist| - 1];
    var v := Replay(base, hist[..|hist| - 1]);
    if w.block < |v| then v[w.block := w.data] else v
  }

  /** How many header entries have reached their home block. */
  function Installed(pc: Pc): nat {
    match pc
    case Run(_, Install(tail, k)) => if k >= 3 then tail + 1 else tail
    case _ => 0
  }

  /** How many header entries have reached the log but are not committed. */
  function Copied(pc: Pc, n: nat): nat {
    match pc
    case Run(_, WriteLog(tail, k)) => if k >= 3 then tail + 1 else tail
    case Run(_, WriteHead(k)) => if k <= 1 then n else 0
    case _ => 0
  }

  predicate PhaseOk(pc: Pc, n: nat) {
    match pc
    case Idle => true
    case Run(rec, ReadHead(k)) => rec && k <= 2 && (k <= 1 ==> n == 0)
    case Run(rec, WriteLog(tail, k)) => !rec && tail <= n && n > 0 && k <= 4 && (k > 0 ==> tail < n)
    case Run(rec, WriteHead(k)) => !rec && k <= 2 && n > 0
    case Run(_, Install(tail, k)) => tail <= n && k <= 4 && (k > 0 ==> tail < n)
    case Run(_, Clear(k)) => k <= 2 && n == 0
    case Run(_, Finish) => n == 0
  }

  /** The buffers the log thread holds. */
  function Held(lay: Layout, pc: Pc, lh: seq<nat>): set<nat>
    requires PhaseOk(pc, |lh|)
  {
    match pc
    case Idle => {}
    case Run(_, ReadHead(k)) => if k >= 1 then {lay.start} else {}
    case Run(_, WriteLog(tail, k)) =>
      if k == 0 then {} else if k == 1 || k == 4 then {LogBlock(lay, tail)} else {LogBlock(lay, tail), lh[tail]}
    case Run(_, WriteHead(k)) => if k >= 1 then {lay.start} else {}
    case Run(_, Install(tail, k)) =>
      if k == 0 then {} else if k == 1 then {LogBlock(lay, tail)}
      else if k == 4 then {lh[tail]} else {LogBlock(lay, tail), lh[tail]}
    case Run(_, Clear(k)) => if k >= 1 then {lay.start} else {}
    case Run(_, Finish) => {}
  }

  /** The transaction in memory has not reached its commit point. */
  predicate Before(pc: Pc) {
    pc.Idle? || (!pc.recovering && (pc.phase.WriteLog? || (pc.phase.WriteHead? && pc.phase.k <= 1)))
  }

  predicate Recovering(pc: Pc) { pc.Run? && pc.recovering }

  function Elements(h: seq<nat>): set<nat> { set x | x in h }

  /** Home blocks whose disk copy may lag behind the view. */
  function Unsettled(lay: Layout, disk: seq<Block>, pc: Pc, lh: seq<nat>): set<nat>
    requires ValidDisk(lay, disk) && PhaseOk(pc, |lh|)
  {
    if pc.Run? && pc.phase.ReadHead? then Elements(HeaderOf(disk[lay.start])) else Elements(lh[Installed(pc)..])
  }

  /** While the system is up, those blocks sit in the cache marked DIRTY. */
  function Pinned(lay: Layout, disk: seq<Block>, pc: Pc, lh: seq<nat>): set<nat>
    requires ValidDisk(lay, disk) && PhaseOk(pc, |lh|)
  {
    if Recovering(pc) then {} else Unsettled(lay, disk, pc, lh)
  }

  /** During recovery, their cached copies are as stale as the disk. */
  function Stale(lay: Layout, disk: seq<Block>, pc: Pc, lh: seq<nat>): set<nat>
    requires ValidDisk(lay, disk) && PhaseOk(pc, |lh|)
  {
    if Recovering(pc) then Unsettled(lay, disk, pc, lh) else {}
  }

  ghost predicate Wf(lay: Layout, s: State) {
    && ValidDisk(lay, s.disk)
    && |s.view| == |s.durable| == |s.base| == lay.start
    && GoodHeader(lay, s.lh)
    && PhaseOk(s.pc, |s.lh|)
    && |s.cache| <= NBUF
    && (forall b | b in s.cache :: b < |s.disk|)
  }

  ghost predicate HeldOk(cache: map<nat, Buf>, held: set<nat>) {
    && (forall b | b in held :: b in cache && cache[b].holder == Some(LogThread))
    && (forall b | b in cache && cache[b].holder == Some(LogThread) :: b in held)
  }

  predicate TouchOk(b: nat, f: Buf, start: nat, ops: set<Pid>) {
    f.touched ==> b < start && f.valid && f.holder.Some? && f.holder.value.Proc? && f.holder.value.p in ops
  }

  ghost predicate CacheOk(disk: seq<Block>, cache: map<nat, Buf>, view: seq<Block>, ops: set<Pid>, pinned: set<nat>,
      stale: set<nat>)
    requires forall b | b in cache :: b < |disk|
  {
    && (forall b | b in cache && cache[b].valid && !cache[b].touched && !cache[b].dirty :: cache[b].data == disk[b])
    && (forall b | b in cache && cache[b].valid && !cache[b].touched && b < |view| && b !in stale ::
       cache[b].data == view[b])
    && (forall b | b in cache :: TouchOk(b, cache[b], |view|, ops))
    && (forall b | b in cache :: cache[b].dirty <==> b in pinned)
    && (forall b | b in pinned :: b in cache && cache[b].valid)
  }

  ghost predicate DiskOk(disk: seq<Block>, view: seq<Block>, unsettled: set<nat>)
    requires |view| <= |disk|
  {
    forall b | 0 <= b < |view| && b !in unsettled :: disk[b] == view[b]
  }

  /** What the header block on disk says: nothing, this transaction, or whatever a crash left. */
  datatype HeadState = Empty | Full | Any

  function Head(pc: Pc): HeadState {
    match pc
    case Idle => Empty
    case Run(_, ReadHead(k)) => if k == 2 then Full else Any
    case Run(_, WriteLog(_, _)) => Empty
    case Run(_, WriteHead(k)) => if k == 2 then Full else Empty
    case Run(_, Install(_, _)) => Full
    case Run(_, Clear(k)) => if k == 2 then Empty else Any
    case Run(_, Finish) => Empty
  }

  ghost predicate LogOk(lay: Layout, disk: seq<Block>, view: seq<Block>, lh: seq<nat>, copied: nat, head: HeadState)
    requires ValidDisk(lay, disk) && GoodHeader(lay, lh) && |view| == lay.start && copied <= |lh|
  {
    && (forall i | 0 <= i < copied :: disk[lay.start + 1 + i] == view[lh[i]])
    && (head.Empty? ==> HeaderOf(disk[lay.start]) == [])
    && (head.Full? ==> HeaderOf(disk[lay.start]) == lh)
  }

  /** begin_op and end_op: who may be inside, and who sleeps. */
  ghost predicate AdmissionOk(n: nat, ops: map<Pid, Op>, sleepers: set<Pid>, pc: Pc, floor: nat, nextId: nat) {
    && (pc.Run? ==> ops == map[])
    && (pc.Idle? && ops == map[] ==> n == 0)
    && (sleepers != {} ==> ops != map[] || pc.Run?)
    && (forall p | p in ops :: floor <= ops[p].id < nextId)
    && (forall p, q | p in ops && q in ops && p != q :: ops[p].id != ops[q].id)
  }

  ghost predicate HistoryOk(hist: seq<Write>, cut: nat, floor: nat, nextId: nat, lh: seq<nat>) {
    && cut <= |hist|
    && floor <= nextId
    && (forall i | 0 <= i < cut :: hist[i].id < floor)
    && (forall i | cut <= i < |hist| :: floor <= hist[i].id < nextId)
    && (forall i | cut <= i < |hist| :: hist[i].block in lh)
  }

  /** Cache, disk and log agree with the view and with the durable state. */
  ghost predicate Storage(lay: Layout, s: State) {
    && Wf(lay, s)
    && HeldOk(s.cache, Held(lay, s.pc, s.lh))
    && CacheOk(s.disk, s.cache, s.view, s.ops.Keys, Pinned(lay, s.disk, s.pc, s.lh), Stale(lay, s.disk, s.pc, s.lh))
    && DiskOk(s.disk, s.view, Unsettled(lay, s.disk, s.pc, s.lh))
    && LogOk(lay, s.disk, s.view, s.lh, Copied(s.pc, |s.lh|), Head(s.pc))
    && Means(lay, s.disk, s.durable)
    && (!Before(s.pc) ==> s.view == s.durable)
  }

  /** Admission and history. */
  ghost predicate Books(s: State) {
    && AdmissionOk(|s.lh|, s.ops, s.sleepers, s.pc, s.floor, s.nextId)
    && HistoryOk(s.hist, s.cut, s.floor, s.nextId, s.lh)
    && (!Before(s.pc) ==> s.cut == |s.hist|)
    && s.view == Replay(s.base, s.hist)
    && s.durable == Replay(s.base, s.hist[..s.cut])
  }

  ghost predicate Inv(lay: Layout, s: State) {
    Storage(lay, s) && Books(s)
  }

  // ---------------------------------------------------------------- runs

  /** Power-on with any image whose header block is good. */
  ghost function Boot(lay: Layout, disk: seq<Block>): State
    requires ValidDisk(lay, disk)
  {
    var m := Meaning(lay, disk);
    State(disk, map[], [], map[], {}, Run(true, ReadHead(0)), m, m, m, [], 0, 0, 0)
  }

  ghost predicate IsRun(lay: Layout, run: seq<State>, steps: seq<Step>) {
    && |run| == |steps| + 1
    && ValidDisk(lay, run[0].disk)
    && run[0] == Boot(lay, run[0].disk)
    && forall i | 0 <= i < |steps| :: Do(lay, run[i], steps[i]) == Some(run[i + 1])
  }

  ghost predicate Reachable(lay: Layout, s: State) {
    exists run, steps :: IsRun(lay, run, steps) && run[|steps|] == s
  }
}
