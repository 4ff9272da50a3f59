/** kernel/pipe.c: any number of processes reading and writing one pipe. A step is a stretch of
    pipewrite(), piperead() or pipeclose() under the lock, up to returning or sleeping. */
module PipeSystem {
  import opened Basics
  import opened Pipe

  /** A byte of the pipe and the call of pipewrite() it came from. */
  datatype Tagged = Tagged(call: nat, b: Byte)

  datatype Pc = Idle | W(call: nat, addr: seq<Byte>, i: nat, asleep: bool) | R(n: nat, asleep: bool)

  datatype State = State(sent: seq<Tagged>, got: nat, readopen: bool, writeopen: bool, pcs: seq<Pc>, killed: set<nat>,
      calls: nat)

  datatype Step = BeginWrite(t: nat, addr: seq<Byte>) | BeginRead(t: nat,
      n: nat) | Run(t: nat) | Kill(t: nat) | Close(writable: bool)

  function Woken(pc: Pc): Pc {
    match pc
    case Idle => Idle
    case W(call, addr, i, asleep) => W(call, addr, i, false)
    case R(n, asleep) => R(n, false)
  }

  /** wakeup(&p->nread) and wakeup(&p->nwrite). */
  function WakeReaders(pcs: seq<Pc>): (r: seq<Pc>)
    ensures |r| == |pcs| && forall t | 0 <= t < |pcs| :: r[t] == if pcs[t].R? then R(pcs[t].n, false) else pcs[t]
  {
    seq(|pcs|, t requires 0 <= t < |pcs| => if pcs[t].R? then R(pcs[t].n, false) else pcs[t])
  }

  function WakeWriters(pcs: seq<Pc>): (r: seq<Pc>)
    ensures |r| == |pcs| && forall t | 0 <= t < |pcs| :: r[t] == if pcs[t].W? then Woken(pcs[t]) else pcs[t]
  {
    seq(|pcs|, t requires 0 <= t < |pcs| => if pcs[t].W? then Woken(pcs[t]) else pcs[t])
  }

  function Tag(call: nat, bytes: seq<Byte>): seq<Tagged> {
    seq(|bytes|, k requires 0 <= k < |bytes| => Tagged(call, bytes[k]))
  }

  /** Whether a step can be taken. A process in a call holds its end open; a killed one starts no call. */
  predicate Enabled(s: State, step: Step) {
    match step
    case BeginWrite(t, addr) => t < |s.pcs| && s.pcs[t].Idle? && t !in s.killed && s.writeopen
    case BeginRead(t, n) => t < |s.pcs| && s.pcs[t].Idle? && t !in s.killed && s.readopen
    case Run(t) => t < |s.pcs| && !s.pcs[t].Idle? && !s.pcs[t].asleep
    case Kill(t) => t < |s.pcs|
    case Close(writable) =>
      if writable then s.writeopen && forall t | 0 <= t < |s.pcs| :: !s.pcs[t].W?
      else s.readopen && forall t | 0 <= t < |s.pcs| :: !s.pcs[t].R?
  }

  /** pipewrite() of process t, as Pipe.Write says. */
  function RunWrite(s: State, t: nat): State
    requires t < |s.pcs| && s.pcs[t].W? && s.pcs[t].i <= |s.pcs[t].addr| && s.got <= |s.sent| <= s.got + PIPESIZE
  {
    var pc := s.pcs[t];
    var j := Stop(pc.i, |pc.addr|, s.got + PIPESIZE - |s.sent|);
    var s' := s.(sent := s.sent + Tag(pc.call, pc.addr[pc.i..j]));
    match WriteEnds(j == |pc.addr|, s.readopen, t in s.killed)
    case Returns => s'.(pcs := WakeReaders(s.pcs[t := Idle]))
    case Fails => s'.(pcs := s.pcs[t := Idle])
    case Sleeps => s'.(pcs := WakeReaders(s.pcs[t := W(pc.call, pc.addr, j, true)]))
  }

  /** piperead() of process t, as Pipe.Read says. */
  function RunRead(s: State, t: nat): State
    requires t < |s.pcs| && s.pcs[t].R? && s.got <= |s.sent|
  {
    match ReadEnds(s.got == |s.sent|, s.writeopen, t in s.killed)
    case Fails => s.(pcs := s.pcs[t := Idle])
    case Sleeps => s.(pcs := s.pcs[t := R(s.pcs[t].n, true)])
    case Returns => s.(got := s.got + Min(s.pcs[t].n, |s.sent| - s.got), pcs := WakeWriters(s.pcs[t := Idle]))
  }

  function Do(s: State, step: Step): State
    requires Enabled(s, step) && Bounded(s)
  {
    match step
    case BeginWrite(t, addr) => s.(pcs := s.pcs[t := W(s.calls, addr, 0, false)], calls := s.calls + 1)
    case BeginRead(t, n) => s.(pcs := s.pcs[t := R(n, false)])
    case Run(t) => if s.pcs[t].W? then RunWrite(s, t) else RunRead(s, t)
    case Kill(t) => s.(killed := s.killed + {t}, pcs := s.pcs[t := Woken(s.pcs[t])])
    case Close(writable) =>
      if writable then s.(writeopen := false, pcs := WakeReaders(s.pcs))
        else s.(readopen := false, pcs := WakeWriters(s.pcs))
  }

  // ------------------------------------------------- what every step keeps

  ghost predicate Bounded(s: State) {
    && s.got <= |s.sent| <= s.got + PIPESIZE
    && forall t | 0 <= t < |s.pcs| && s.pcs[t].W? :: s.pcs[t].i <= |s.pcs[t].addr|
  }

  /** The bytes of one call, in the order they went into the pipe. */
  function From(sent: seq<Tagged>, call: nat): seq<Byte> {
    if sent == [] then []
    else From(sent[..|sent| - 1], call) + (if sent[|sent| - 1].call == call then [sent[|sent| - 1].b] else [])
  }

  /** Every call in progress has put in exactly what it says it has, in order. */
  ghost predicate Calls(s: State) {
    && (forall k | 0 <= k < |s.sent| :: s.sent[k].call < s.calls)
    && (forall t | 0 <= t < |s.pcs| && s.pcs[t].W? ::
          s.pcs[t].call < s.calls && s.pcs[t].i <= |s.pcs[t].addr|
            && From(s.sent, s.pcs[t].call) == s.pcs[t].addr[..s.pcs[t].i])
    && (forall t, u | 0 <= t < |s.pcs| && 0 <= u < |s.pcs| && t != u && s.pcs[t].W? && s.pcs[u].W? ::
       s.pcs[t].call != s.pcs[u].call)
  }

  /** Writers sleep on a full pipe with its read end open only. */
  ghost predicate WritersAwake(s: State) {
    forall t | 0 <= t < |s.pcs| && s.pcs[t].W? && s.pcs[t].asleep :: |s.sent| == s.got + PIPESIZE && s.readopen
  }

  /** Readers sleep on an empty pipe with its write end open only. */
  ghost predicate ReadersAwake(s: State) {
    forall t | 0 <= t < |s.pcs| && s.pcs[t].R? && s.pcs[t].asleep :: |s.sent| == s.got && s.writeopen
  }

  /** Whoever is in a call holds its end open. */
  ghost predicate Ends(s: State) {
    forall t | 0 <= t < |s.pcs| :: (s.pcs[t].R? ==> s.readopen) && (s.pcs[t].W? ==> s.writeopen)
  }

  ghost predicate Inv(s: State) {
    Bounded(s) && Calls(s) && WritersAwake(s) && Ends(s)
  }

  lemma {:induction false} FromSum(a: seq<Tagged>, b: seq<Tagged>, call: nat)
    ensures From(a + b, call) == From(a, call) + From(b, call)
    decreases |b|
  {
    if b == [] {
      assert a + b == a;
    } else {
      assert (a + b)[..|a + b| - 1] == a + b[..|b| - 1];
      FromSum(a, b[..|b| - 1], call);
    }
  }

  lemma {:induction false} FromTag(call: nat, bytes: seq<Byte>, other: nat)
    ensures From(Tag(call, bytes), other) == if call == other then bytes else []
    decreases |bytes|
  {
    if bytes != [] {
      var n := |bytes| - 1;
      assert Tag(call, bytes)[..n] == Tag(call, bytes[..n]);
      FromTag(call, bytes[..n], other);
      assert bytes == bytes[..n] + [bytes[n]];
    }
  }

  lemma {:induction false} FromNone(sent: seq<Tagged>, call: nat)
    requires forall k | 0 <= k < |sent| :: sent[k].call < call
    ensures From(sent, call) == []
  {
    if sent != [] { FromNone(sent[..|sent| - 1], call); }
  }

  /** One process moves on in its call, or leaves it; the others stay where they are. */
  ghost predicate Moves(s: State, s': State, t: nat, j: nat)
    requires t < |s.pcs| && s.pcs[t].W?
  {
    && |s'.pcs| == |s.pcs| && s'.calls == s.calls
    && (forall u | 0 <= u < |s.pcs| && u != t :: Woken(s'.pcs[u]) == Woken(s.pcs[u]))
    && (s'.pcs[t].Idle? || Woken(s'.pcs[t]) == W(s.pcs[t].call, s.pcs[t].addr, j, false))
  }

  lemma CallsAfter(s: State, s': State, t: nat, j: nat)
    requires Calls(s) && t < |s.pcs| && s.pcs[t].W? && s.pcs[t].i <= j <= |s.pcs[t].addr| && Moves(s, s', t, j)
    requires s'.sent == s.sent + Tag(s.pcs[t].call, s.pcs[t].addr[s.pcs[t].i..j])
    ensures Calls(s')
  {
    var pc := s.pcs[t];
    forall u | 0 <= u < |s'.pcs| && s'.pcs[u].W?
      ensures s'.pcs[u].call == s.pcs[u].call < s'.calls && s'.pcs[u].i <= |s'.pcs[u].addr|
        && From(s'.sent, s'.pcs[u].call) == s'.pcs[u].addr[..s'.pcs[u].i]
    {
      FromMore(s.sent, pc, j, s.pcs[u].call);
    }
    hide From, Tag;
    TagsBelow(s.sent, pc.call, pc.addr[pc.i..j], s.calls);
  }

  lemma FromMore(sent: seq<Tagged>, pc: Pc, j: nat, call: nat)
    requires pc.W? && pc.i <= j <= |pc.addr|
    ensures call != pc.call ==> From(sent + Tag(pc.call, pc.addr[pc.i..j]), call) == From(sent, call)
    ensures From(sent, pc.call) == pc.addr[..pc.i] ==>
      From(sent + Tag(pc.call, pc.addr[pc.i..j]), pc.call) == pc.addr[..j]
  {
    var more := pc.addr[pc.i..j];
    assert pc.addr[..j] == pc.addr[..pc.i] + more;
    FromSum(sent, Tag(pc.call, more), call);
    FromTag(pc.call, more, call);
    FromSum(sent, Tag(pc.call, more), pc.call);
    FromTag(pc.call, more, pc.call);
  }

  lemma TagsBelow(sent: seq<Tagged>, call: nat, bytes: seq<Byte>, calls: nat)
    requires call < calls && forall k | 0 <= k < |sent| :: sent[k].call < calls
    ensures forall k | 0 <= k < |sent + Tag(call, bytes)| :: (sent + Tag(call, bytes))[k].call < calls
  { }

  lemma WriteCalls(s: State, t: nat)
    requires Bounded(s) && Calls(s) && t < |s.pcs| && s.pcs[t].W?
    ensures Calls(RunWrite(s, t))
  {
    var pc := s.pcs[t];
    var j := Stop(pc.i, |pc.addr|, s.got + PIPESIZE - |s.sent|);
    assert Moves(s, RunWrite(s, t), t, j);
    hide Calls, Moves;
    CallsAfter(s, RunWrite(s, t), t, j);
  }

  lemma WriteKeeps(s: State, t: nat)
    requires Inv(s) && t < |s.pcs| && s.pcs[t].W? && !s.pcs[t].asleep
    ensures Inv(RunWrite(s, t))
  {
    WriteCalls(s, t);
    hide Calls;
  }

  lemma ReadKeeps(s: State, t: nat)
    requires Inv(s) && t < |s.pcs| && s.pcs[t].R? && !s.pcs[t].asleep
    ensures Inv(RunRead(s, t))
  {
    hide From;
  }

  lemma BeginWriteKeeps(s: State, t: nat, addr: seq<Byte>)
    requires Inv(s) && Enabled(s, BeginWrite(t, addr))
    ensures Inv(Do(s, BeginWrite(t, addr)))
  {
    FromNone(s.sent, s.calls);
    hide From;
  }

  lemma KillKeeps(s: State, t: nat)
    requires Inv(s) && Enabled(s, Kill(t))
    ensures Inv(Do(s, Kill(t)))
  {
    hide From;
  }

  lemma CloseKeeps(s: State, writable: bool)
    requires Inv(s) && Enabled(s, Close(writable))
    ensures Inv(Do(s, Close(writable)))
  {
    hide From;
  }

  lemma BeginReadKeeps(s: State, t: nat, n: nat)
    requires Inv(s) && Enabled(s, BeginRead(t, n))
    ensures Inv(Do(s, BeginRead(t, n)))
  {
    hide From;
  }

  /** Every step keeps the invariant. */
  lemma StepKeeps(s: State, step: Step)
    requires Inv(s) && Enabled(s, step)
    ensures Inv(Do(s, step))
  {
    match step
    case BeginWrite(t, addr) => BeginWriteKeeps(s, t, addr);
    case BeginRead(t, n) => BeginReadKeeps(s, t, n);
    case Run(t) => if s.pcs[t].W? { WriteKeeps(s, t); } else { ReadKeeps(s, t); }
    case Kill(t) => KillKeeps(s, t);
    case Close(writable) => CloseKeeps(s, writable);
  }

  // ------------------------------------------------- the steps are those of the ring

  function Untag(sent: seq<Tagged>): seq<Byte> {
    seq(|sent|, k requires 0 <= k < |sent| => sent[k].b)
  }

  /** A step of a writer is a call of Pipe.Write: the same bytes go in, and it ends the same way. */
  lemma WritesAsRing(s: State, t: nat)
    requires Bounded(s) && t < |s.pcs| && s.pcs[t].W?
    ensures var pc, s' := s.pcs[t], RunWrite(s, t);
      var j := Stop(pc.i, |pc.addr|, s.got + PIPESIZE - |s.sent|);
      && Untag(s'.sent) == Untag(s.sent) + pc.addr[pc.i..j] && s'.got == s.got
      && (s'.pcs[t].Idle? <==> WriteEnds(j == |pc.addr|, s.readopen, t in s.killed) != Sleeps)
  { }

  /** A step of a reader is a call of Pipe.Read: it takes the oldest bytes. */
  lemma ReadsAsRing(s: State, t: nat)
    requires Bounded(s) && t < |s.pcs| && s.pcs[t].R?
    ensures var out, s' := ReadEnds(s.got == |s.sent|, s.writeopen, t in s.killed), RunRead(s, t);
      && s'.sent == s.sent && s'.got == s.got + (if out == Returns then Min(s.pcs[t].n, |s.sent| - s.got) else 0)
      && (s'.pcs[t].Idle? <==> out != Sleeps)
  { }

  // ------------------------------------------------- whole runs

  function Start(n: nat): State {
    State([], 0, true, true, seq(n, _ => Idle), {}, 0)
  }

  /** A run of n processes: its states and the steps between them. */
  ghost predicate IsRun(run: seq<State>, steps: seq<Step>, n: nat) {
    && |run| == |steps| + 1 && run[0] == Start(n)
    && forall k | 0 <= k < |steps| :: StepsTo(run[k], steps[k], run[k + 1])
  }

  ghost predicate StepsTo(s: State, step: Step, s': State) {
    Enabled(s, step) && Bounded(s) && s' == Do(s, step)
  }

  lemma {:induction false} RunKeeps(run: seq<State>, steps: seq<Step>, n: nat, k: nat)
    requires IsRun(run, steps, n) && k < |run|
    ensures Inv(run[k])
  {
    if k > 0 {
      RunKeeps(run, steps, n, k - 1);
      assert StepsTo(run[k - 1], steps[k - 1], run[k]);
      StepKeeps(run[k - 1], steps[k - 1]);
    }
  }

  /** At every point of every run: no more than a pipe full in flight, each call's bytes in order, no
      writer asleep without reason. */
  lemma PipeSafety(run: seq<State>, steps: seq<Step>, n: nat, k: nat)
    requires IsRun(run, steps, n) && k < |run|
    ensures var s := run[k]; s.got <= |s.sent| <= s.got + PIPESIZE && Calls(s) && WritersAwake(s)
  {
    RunKeeps(run, steps, n, k);
  }

  // ------------------------------------------------- when a reader is left asleep

  predicate SomeReaderSleeps(s: State) {
    exists u | 0 <= u < |s.pcs| :: s.pcs[u].R? && s.pcs[u].asleep
  }

  /** A killed writer goes on with more bytes to write than the pipe holds, while a reader sleeps. */
  predicate Strands(s: State, step: Step) {
    && step.Run? && step.t < |s.pcs| && s.pcs[step.t].W? && step.t in s.killed
    && |s.pcs[step.t].addr| - s.pcs[step.t].i > PIPESIZE && SomeReaderSleeps(s)
  }

  lemma WriteStrandsIff(s: State, t: nat)
    requires Inv(s) && ReadersAwake(s) && t < |s.pcs| && s.pcs[t].W? && !s.pcs[t].asleep
    ensures ReadersAwake(RunWrite(s, t)) <==> !Strands(s, Run(t))
  {
    hide Calls, Tag;
    TagLength(s.pcs[t].call, s.pcs[t].addr[s.pcs[t].i..Stop(s.pcs[t].i, |s.pcs[t].addr|, s.got + PIPESIZE - |s.sent|)]);
    if u :| 0 <= u < |s.pcs| && s.pcs[u].R? && s.pcs[u].asleep {
      if Strands(s, Run(t)) { assert RunWrite(s, t).pcs[u] == s.pcs[u]; }
    }
  }

  lemma TagLength(call: nat, bytes: seq<Byte>)
    ensures |Tag(call, bytes)| == |bytes|
  { }

  /** A step leaves a reader asleep over data, or with the write end closed, exactly if it is such a step. */
  lemma StrandsIff(s: State, step: Step)
    requires Inv(s) && ReadersAwake(s) && Enabled(s, step)
    ensures ReadersAwake(Do(s, step)) <==> !Strands(s, step)
  {
    hide Calls;
    if step.Run? && s.pcs[step.t].W? { WriteStrandsIff(s, step.t); }
  }

  /** In a run no reader is ever left asleep without reason if and only if no killed writer goes on with
      more bytes than the pipe holds while a reader sleeps. */
  lemma ReadersAwakeIff(run: seq<State>, steps: seq<Step>, n: nat)
    requires IsRun(run, steps, n)
    ensures (forall k | 0 <= k < |run| :: ReadersAwake(run[k])) <==> forall k | 0 <= k < |steps| ::
      !Strands(run[k], steps[k])
  {
    hide Inv, Strands, ReadersAwake;
    if forall k | 0 <= k < |steps| :: !Strands(run[k], steps[k]) {
      forall k | 0 <= k < |run| ensures ReadersAwake(run[k]) { AwakeUpTo(run, steps, n, k); }
    } else {
      var k :| 0 <= k < |steps| && Strands(run[k], steps[k]);
      assert StepsTo(run[k], steps[k], run[k + 1]);
      RunKeeps(run, steps, n, k);
      if ReadersAwake(run[k]) { StrandsIff(run[k], steps[k]); }
    }
  }

  lemma {:induction false} AwakeUpTo(run: seq<State>, steps: seq<Step>, n: nat, k: nat)
    requires IsRun(run, steps, n) && k < |run| && forall j | 0 <= j < |steps| :: !Strands(run[j], steps[j])
    ensures ReadersAwake(run[k])
  {
    hide Inv, Strands;
    if k > 0 {
      AwakeUpTo(run, steps, n, k - 1);
      hide ReadersAwake;
      RunKeeps(run, steps, n, k - 1);
      assert StepsTo(run[k - 1], steps[k - 1], run[k]);
      StrandsIff(run[k - 1], steps[k - 1]);
    }
  }

  /** In particular none is in a run without kill. */
  lemma AwakeWithoutKill(run: seq<State>, steps: seq<Step>, n: nat)
    requires IsRun(run, steps, n) && forall k | 0 <= k < |steps| :: !steps[k].Kill?
    ensures forall k | 0 <= k < |run| :: ReadersAwake(run[k])
  {
    hide ReadersAwake;
    forall k | 0 <= k < |steps| ensures !Strands(run[k], steps[k]) { NobodyKilled(run, steps, n, k); }
    ReadersAwakeIff(run, steps, n);
  }

  lemma {:induction false} NobodyKilled(run: seq<State>, steps: seq<Step>, n: nat, k: nat)
    requires IsRun(run, steps, n) && k < |run| && forall j | 0 <= j < |steps| :: !steps[j].Kill?
    ensures run[k].killed == {}
  {
    if k > 0 {
      NobodyKilled(run, steps, n, k - 1);
      assert StepsTo(run[k - 1], steps[k - 1], run[k]);
    }
  }

  /** A reader asleep, and a writer of 513 bytes killed before it fills the pipe. */
  function Stuck(): seq<State> {
    var bytes := seq(PIPESIZE + 1, _ => 0);
    var s0 := Start(2);
    var s1 := s0.(pcs := [R(1, false), Idle]);
    var s2 := s0.(pcs := [R(1, true), Idle]);
    var s3 := s0.(pcs := [R(1, true), W(0, bytes, 0, false)], calls := 1);
    var s4 := s3.(killed := {1});
    var s5 := s4.(sent := Tag(0, bytes[..PIPESIZE]), pcs := [R(1, true), Idle]);
    [s0, s1, s2, s3, s4, s5]
  }

  function StuckSteps(): seq<Step> {
    [BeginRead(0, 1), Run(0), BeginWrite(1, seq(PIPESIZE + 1, _ => 0)), Kill(1), Run(1)]
  }

  lemma StuckIsRun()
    ensures IsRun(Stuck(), StuckSteps(), 2) && Strands(Stuck()[4], StuckSteps()[4]) && !ReadersAwake(Stuck()[5])
  {
    var r, steps := Stuck(), StuckSteps();
    assert StepsTo(r[0], steps[0], r[1]);
    assert StepsTo(r[1], steps[1], r[2]);
    assert StepsTo(r[2], steps[2], r[3]);
    assert StepsTo(r[3], steps[3], r[4]);
    assert [] + Tag(0, seq(PIPESIZE + 1, _ => 0)[0..PIPESIZE]) == r[5].sent;
    assert StepsTo(r[4], steps[4], r[5]);
    assert r[5].pcs[0].R? && r[5].pcs[0].asleep && |r[5].sent| == PIPESIZE;
    assert r[4].pcs[0].R? && r[4].pcs[0].asleep;
  }
}
