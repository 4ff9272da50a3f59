/** How much the operations log: admission in kernel/log.c reckons with MAXOPBLOCKS blocks each. */
module LogBudget {
  import opened Basics
  import opened LogFormat
  import opened LogSystem
  import opened LogSystemProof
  import opened LogTheorems

  // ------------------------------------------------- runs with a cap on what an operation logs

  /** Operation p calls log_write on a block it holds. */
  predicate Calls(lay: Layout, s: State, p: Pid, b: nat) {
    p in s.ops && b < lay.start && HoldsValid(s, b, Proc(p))
  }

  /** The call keeps cap m: it is absorbed, or the operation has logged fewer than m new blocks. */
  predicate WithinCap(m: nat, s: State, p: Pid, b: nat) {
    b in s.lh || (p in s.ops && s.ops[p].used < m)
  }

  predicate StepWithin(m: nat, s: State, step: Step) {
    step.LogWrite? ==> WithinCap(m, s, step.p, step.b)
  }

  /** A run in which no operation logs more than m new blocks. */
  ghost predicate RunWithin(lay: Layout, m: nat, run: seq<State>, steps: seq<Step>) {
    IsRun(lay, run, steps) && forall i | 0 <= i < |steps| :: StepWithin(m, run[i], steps[i])
  }

  ghost predicate ReachableWithin(lay: Layout, m: nat, s: State) {
    exists run, steps :: RunWithin(lay, m, run, steps) && run[|steps|] == s
  }

  lemma WithinReachable(lay: Layout, m: nat, s: State)
    requires ReachableWithin(lay, m, s)
    ensures Reachable(lay, s)
  {
    hide Do, Boot, StepWithin;
    var run, steps :| RunWithin(lay, m, run, steps) && run[|steps|] == s;
    assert IsRun(lay, run, steps) && run[|steps|] == s;
  }

  // ------------------------------------------------- what may still be logged

  /** What operations with cap m may still log. */
  function Remaining(m: nat, ops: map<Pid, Op>): int {
    if ops == map[] then 0 else
    var p := Least(ops.Keys);
    m - ops[p].used + Remaining(m, ops - {p})
  }

  function Least(s: set<nat>): (m: nat)
    requires s != {}
    ensures m in s && forall x | x in s :: m <= x
  {
    LeastExists(s);
    var m :| IsLeast(s, m);
    m
  }

  predicate IsLeast(s: set<nat>, m: nat) {
    m in s && forall x | x in s :: m <= x
  }

  lemma {:induction false} LeastExists(s: set<nat>)
    requires s != {}
    ensures exists m :: IsLeast(s, m)
  {
    var y :| y in s;
    var rest := s - {y};
    if rest == {} {
      assert s == {y};
      assert IsLeast(s, y);
    } else {
      LeastExists(rest);
      var m :| IsLeast(rest, m);
      LeastOfMore(s, y, m);
    }
  }

  lemma LeastOfMore(s: set<nat>, y: nat, m: nat)
    requires y in s && IsLeast(s - {y}, m)
    ensures IsLeast(s, if y <= m then y else m)
  {
    forall x | x in s ensures (if y <= m then y else m) <= x {
      if x != y { assert x in s - {y}; }
    }
  }

  lemma {:induction false} RemainingSplit(m: nat, ops: map<Pid, Op>, p: Pid)
    requires p in ops
    ensures Remaining(m, ops) == m - ops[p].used + Remaining(m, ops - {p})
    decreases |ops|
  {
    var q := Least(ops.Keys);
    if p != q {
      SizeOfDrop(ops, q);
      RemainingSplit(m, ops - {q}, p);
      var rest := ops - {p};
      assert rest.Keys == ops.Keys - {p};
      assert q in rest;
      assert Least(rest.Keys) == q;
      assert rest - {q} == ops - {q} - {p};
    }
  }

  lemma RemainingUpdate(m: nat, ops: map<Pid, Op>, p: Pid, op: Op)
    ensures Remaining(m, ops[p := op]) == Remaining(m, ops - {p}) + m - op.used
  {
    RemainingSplit(m, ops[p := op], p);
    assert ops[p := op] - {p} == ops - {p};
  }

  lemma {:induction false} RemainingBound(m: nat, ops: map<Pid, Op>)
    requires forall p | p in ops :: ops[p].used <= m
    ensures 0 <= Remaining(m, ops) <= |ops| * m
    decreases |ops|
  {
    if ops != map[] {
      var q := Least(ops.Keys);
      SizeOfDrop(ops, q);
      var rest := ops - {q};
      RemainingBound(m, rest);
      OneMore(|rest|, m);
      RemainingFirst(m, ops, q);
      hide Remaining, Least;
    }
  }

  lemma OneMore(n: nat, m: nat)
    ensures (n + 1) * m == n * m + m
  { }

  lemma RemainingFirst(m: nat, ops: map<Pid, Op>, q: Pid)
    requires ops != map[] && q == Least(ops.Keys)
    ensures Remaining(m, ops) == m - ops[q].used + Remaining(m, ops - {q})
  { }

  /** The most blocks that can be in the log: ten when a second operation joins, and m of each of the two. */
  function Most(m: nat): int {
    LOGSIZE - 2 * (MAXOPBLOCKS - m)
  }

  /** No operation is over its cap, and what is logged with what may still be logged fits. */
  ghost predicate BudgetOk(m: nat, s: State) {
    && (forall p | p in s.ops :: s.ops[p].used <= m)
    && (s.ops != map[] ==> |s.lh| + Remaining(m, s.ops) <= Most(m))
  }

  lemma JoinRoom(m: nat, n: nat, ops: map<Pid, Op>, p: Pid, id: nat)
    requires p !in ops && m <= MAXOPBLOCKS && (forall q | q in ops :: ops[q].used <= m)
    requires n + (|ops| + 1) * MAXOPBLOCKS <= LOGSIZE && (ops == map[] ==> n == 0)
    ensures n + Remaining(m, ops[p := Op(id, 0)]) <= Most(m)
  {
    RemainingBound(m, ops);
    RemainingUpdate(m, ops, p, Op(id, 0));
    assert ops - {p} == ops;
    hide Remaining;
    if |ops| >= 1 {
      assert ops != map[];
      assert (|ops| + 1) * (MAXOPBLOCKS - m) >= 2 * (MAXOPBLOCKS - m);
    }
  }

  lemma LogWriteBudget(lay: Layout, m: nat, s: State, p: Pid, b: nat, s': State)
    requires BudgetOk(m, s) && DoLogWrite(lay, s, p, b) == Some(s') && WithinCap(m, s, p, b)
    ensures BudgetOk(m, s')
  {
    RemainingSplit(m, s.ops, p);
    RemainingUpdate(m, s.ops, p, s'.ops[p]);
    hide Remaining, HoldsValid;
    assert s'.ops == s.ops[p := s'.ops[p]];
  }

  lemma EndOpBudget(m: nat, s: State, p: Pid, s': State)
    requires BudgetOk(m, s) && DoEndOp(s, p) == Some(s')
    ensures BudgetOk(m, s')
  {
    RemainingSplit(m, s.ops, p);
    hide Remaining;
    assert forall q | q in s'.ops :: q in s.ops && s'.ops[q] == s.ops[q];
  }

  /** Every step within the cap keeps it. */
  lemma BudgetKept(lay: Layout, m: nat, s: State, step: Step, s': State)
    requires Inv(lay, s) && BudgetOk(m, s) && Do(lay, s, step) == Some(s') && m <= MAXOPBLOCKS && StepWithin(m, s, step)
    ensures BudgetOk(m, s')
  {
    hide Storage, HistoryOk, Replay, Remaining;
    match step
    case BeginJoin(p) => JoinRoom(m, |s.lh|, s.ops, p, s.nextId);
    case EndOp(p) => EndOpBudget(m, s, p, s');
    case LogWrite(p, b) => LogWriteBudget(lay, m, s, p, b, s');
    case Log(victim, junk) => LogThreadAlone(lay, s, victim, junk, s');
    case _ =>
  }

  lemma LogThreadAlone(lay: Layout, s: State, victim: Option<nat>, junk: Block, s': State)
    requires Inv(lay, s) && DoLog(lay, s, victim, junk) == Some(s')
    ensures s'.ops == map[]
  {
    hide Storage, HistoryOk, Replay, HeaderOf;
  }

  lemma {:induction false} RunBudget(lay: Layout, m: nat, run: seq<State>, steps: seq<Step>, i: nat)
    requires RunWithin(lay, m, run, steps) && i < |run| && m <= MAXOPBLOCKS
    ensures BudgetOk(m, run[i])
  {
    hide Inv, Do, BudgetOk, StepWithin;
    if i == 0 {
      BootBudget(lay, m, run[0].disk);
    } else {
      RunBudget(lay, m, run, steps, i - 1);
      RunInv(lay, run, steps, i - 1);
      assert StepWithin(m, run[i - 1], steps[i - 1]);
      BudgetKept(lay, m, run[i - 1], steps[i - 1], run[i]);
    }
  }

  lemma BootBudget(lay: Layout, m: nat, disk: seq<Block>)
    requires ValidDisk(lay, disk)
    ensures BudgetOk(m, Boot(lay, disk))
  { }

  /** In every run in which no operation logs more than m blocks, and m is no more than admission reckons with:
      the blocks logged and those still to come fit, with room to spare if m is less. */
  lemma BudgetSafe(lay: Layout, m: nat, s: State)
    requires ReachableWithin(lay, m, s) && m <= MAXOPBLOCKS
    ensures forall p | p in s.ops :: s.ops[p].used <= m
    ensures s.ops != map[] ==> |s.lh| + Remaining(m, s.ops) <= Most(m) <= LOGSIZE
  {
    hide Do, Boot, StepWithin, Remaining;
    var run, steps :| RunWithin(lay, m, run, steps) && run[|steps|] == s;
    RunBudget(lay, m, run, steps, |steps|);
  }

  // ------------------------------------------------- when log_write panics

  /** Operations log at most m blocks, and the log region has room for as many as can come together. A call
      within the cap panics exactly if they are all in the log and it is full: then every operation has used
      up its cap and the call would have been absorbed. */
  lemma PanicsExactly(lay: Layout, m: nat, s: State, p: Pid, b: nat)
    requires ReachableWithin(lay, m, s) && Calls(lay, s, p, b) && WithinCap(m, s, p, b)
    requires m <= MAXOPBLOCKS && lay.size > Most(m)
    ensures LogWritePanics(lay, s) <==> |s.lh| == Most(m) && (Most(m) == LOGSIZE || Most(m) == lay.size - 1)
    ensures LogWritePanics(lay, s) ==> b in s.lh && forall q | q in s.ops :: s.ops[q].used == m
  {
    hide ReachableWithin, Remaining;
    BudgetSafe(lay, m, s);
    SizeOfDrop(s.ops, p);
    RemainingBound(m, s.ops);
    forall q | q in s.ops && s.ops[q].used < m ensures Remaining(m, s.ops) > 0 { BudgetLeft(m, s.ops, q); }
  }

  lemma BudgetLeft(m: nat, ops: map<Pid, Op>, p: Pid)
    requires p in ops && ops[p].used < m && (forall q | q in ops :: ops[q].used <= m)
    ensures Remaining(m, ops) > 0
  {
    RemainingSplit(m, ops, p);
    RemainingBound(m, ops - {p});
  }

  /** In particular an operation that has not used up its cap never makes log_write panic. */
  lemma LogWriteRoom(lay: Layout, m: nat, s: State, p: Pid, b: nat)
    requires ReachableWithin(lay, m, s) && Calls(lay, s, p, b) && s.ops[p].used < m
    requires m <= MAXOPBLOCKS && lay.size > Most(m)
    ensures !LogWritePanics(lay, s)
  {
    hide ReachableWithin;
    PanicsExactly(lay, m, s, p, b);
  }
}
