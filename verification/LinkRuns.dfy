/** kernel/sysfile.c: link counts over whole runs of create(), sys_link(), sys_unlink() and iput(). */
module LinkRuns {
  import opened DirTree
  import opened Links
  import opened LinkOps

  /** A call that changes the tree, as the methods of FileTree say; the others change nothing. */
  datatype Op =
    | Make(dp: nat, name: string, kind: Kind, q: nat)
    | Enter(dp: nat, name: string, ip: nat)
    | Remove(dp: nat, name: string, k: nat)
    | Release(ip: nat)

  ghost predicate Does(nodes: seq<Node>, op: Op, nodes': seq<Node>) {
    match op
    case Make(dp, name, kind, q) => Makes(nodes, dp, name, kind, q, nodes')
    case Enter(dp, name, ip) => Enters(nodes, ip, dp, name, nodes')
    case Remove(dp, name, k) => Removes(nodes, dp, name, k, nodes')
    case Release(ip) => 0 < ip < |nodes| && nodes[ip].nlink == 0 && nodes' == nodes[ip := Node(Free, 0, [])]
  }

  /** The call names nothing new, or does so in a directory that has links, and the count that goes up is not at
      its limit. */
  predicate Safe(nodes: seq<Node>, op: Op) {
    match op
    case Make(dp, _, kind, _) => dp < |nodes| && Live(nodes[dp]) && (kind.Dir? ==> nodes[dp].nlink < SHRT_MAX)
    case Enter(dp, _, ip) => dp < |nodes| && Live(nodes[dp]) && ip < |nodes| && nodes[ip].nlink < SHRT_MAX
    case _ => true
  }

  lemma PlaceIsInserted(es: seq<Dirent>, e: Dirent, es': seq<Dirent>)
    requires FirstPlace(es, e, es')
    ensures Inserted(es, e, es')
  {
    var k :| PlacedAt(es, e, k, es');
  }

  lemma RemoveKeeps(nodes: seq<Node>, dp: nat, name: string, k: nat, nodes': seq<Node>)
    requires Inv(nodes) && Removes(nodes, dp, name, k, nodes')
    ensures Inv(nodes')
  {
    hide Inv;
    FoundEntry(nodes, dp, k, name);
    var ip := nodes[dp].entries[k].inum;
    if nodes[ip].kind.Dir? { DirLost(nodes, dp, k, ip); } else { FileLost(nodes, dp, k, ip); }
  }

  /** A call keeps the link counts right exactly if it is safe, and the tree with them. */
  lemma OpKeepsIff(nodes: seq<Node>, op: Op, nodes': seq<Node>)
    requires Inv(nodes) && Does(nodes, op, nodes')
    ensures LinksOk(nodes') <==> Safe(nodes, op)
    ensures Inv(nodes') <==> Safe(nodes, op)
  {
    hide Tree, LinksOk, Inserted, FirstPlace;
    match op
    case Make(dp, name, kind, q) =>
      NotDots(nodes, dp, name);
      PlaceIsInserted(nodes[dp].entries, Dirent(q, name), nodes'[dp].entries);
      CreateResult(nodes, nodes', dp, q, name, kind);
    case Enter(dp, name, ip) =>
      PlaceIsInserted(nodes[dp].entries, Dirent(ip, name), nodes'[dp].entries);
      LinkResult(nodes, nodes', ip, dp, name);
    case Remove(dp, name, k) =>
      RemoveKeeps(nodes, dp, name, k, nodes');
    case Release(ip) =>
      ReleasedTree(nodes, ip);
  }

  /** The trees between the calls of a run. */
  ghost predicate IsRun(run: seq<seq<Node>>, ops: seq<Op>) {
    && |run| == |ops| + 1 && Inv(run[0])
    && forall k | 0 <= k < |ops| :: Does(run[k], ops[k], run[k + 1])
  }

  /** All calls up to state j are safe. */
  ghost predicate SafeUpTo(run: seq<seq<Node>>, ops: seq<Op>, j: nat)
    requires IsRun(run, ops) && j < |run|
  {
    forall k | 0 <= k < j :: Safe(run[k], ops[k])
  }

  lemma {:induction false} SafeRunKeeps(run: seq<seq<Node>>, ops: seq<Op>, j: nat)
    requires IsRun(run, ops) && j < |run| && SafeUpTo(run, ops, j)
    ensures Inv(run[j])
  {
    hide Inv, Does, Safe;
    if j > 0 {
      SafeRunKeeps(run, ops, j - 1);
      assert Does(run[j - 1], ops[j - 1], run[j]) && Safe(run[j - 1], ops[j - 1]);
      OpKeepsIff(run[j - 1], ops[j - 1], run[j]);
    }
  }

  /** The first call that is not safe leaves a wrong link count. */
  lemma {:induction false} UnsafeBreaks(run: seq<seq<Node>>, ops: seq<Op>, k: nat) returns (j: nat)
    requires IsRun(run, ops) && k < |ops| && !Safe(run[k], ops[k])
    ensures j < |run| && !LinksOk(run[j])
  {
    hide Inv, Does, Safe, LinksOk;
    if i: nat :| i < k && !Safe(run[i], ops[i]) {
      j := UnsafeBreaks(run, ops, i);
    } else {
      SafeRunKeeps(run, ops, k);
      assert Does(run[k], ops[k], run[k + 1]);
      OpKeepsIff(run[k], ops[k], run[k + 1]);
      j := k + 1;
    }
  }

  /** In every run from a well-formed tree, link counts are right after every call if and only if
      every call is safe; the tree is then well formed, too. */
  lemma RunKeepsIff(run: seq<seq<Node>>, ops: seq<Op>)
    requires IsRun(run, ops)
    ensures (forall j | 0 <= j < |run| :: LinksOk(run[j])) <==> forall k | 0 <= k < |ops| :: Safe(run[k], ops[k])
    ensures (forall j | 0 <= j < |run| :: Inv(run[j])) <==> forall k | 0 <= k < |ops| :: Safe(run[k], ops[k])
  {
    hide Tree, LinksOk, Does, Safe;
    if forall k | 0 <= k < |ops| :: Safe(run[k], ops[k]) {
      forall j | 0 <= j < |run| ensures Inv(run[j]) { SafeRunKeeps(run, ops, j); }
    } else {
      var k :| 0 <= k < |ops| && !Safe(run[k], ops[k]);
      var j := UnsafeBreaks(run, ops, k);
    }
  }

  // ------------------------------------------------- runs from a bare root

  /** A root directory with nothing in it, and two free inodes. */
  function Bare(): seq<Node> {
    [Node(Free, 0, []), Node(Dir, 1, [Dirent(1, "."), Dirent(1, "..")]), Node(Free, 0, []), Node(Free, 0, [])]
  }

  lemma BareLinks()
    ensures LinksOk(Bare())
  {
    var nodes := Bare();
    forall t | 0 < t < |nodes| ensures nodes[t].nlink == Count(nodes, t) {
      hide Count, Refs;
      NewDirRefs(1, 1, t);
      CountOnly(nodes, 1, t);
    }
  }

  lemma BareTree()
    ensures Tree(Bare())
  {
    var nodes := Bare();
    hide Refs;
    forall d | 0 <= d < |nodes| && Live(nodes[d]) ensures DirOk(nodes, d) { assert d == 1; }
    assert OnceOk(nodes) by { BareOnce(); }
  }

  lemma BareOnce()
    ensures OnceOk(Bare())
  {
    var nodes := Bare();
    forall x, d | 0 <= x < |nodes| && 0 <= d < |nodes| && Live(nodes[x]) && Live(nodes[d])
      ensures NamedOnce(x, nodes[x], d, nodes[d])
    {
      assert x == 1 && d == 1;
      assert Rest(nodes[1]) == [] && Refs([], 1) == 0;
    }
  }

  lemma BareInv()
    ensures Inv(Bare())
  {
    hide Tree, LinksOk, Bare;
    BareTree();
    BareLinks();
  }

  /** Making a directory in one where the name is not taken and every place is in use. */
  lemma MakesDir(nodes: seq<Node>, dp: nat, name: string, q: nat, nodes': seq<Node>)
    requires dp < |nodes| && nodes[dp].kind.Dir? && 0 < q < |nodes| && nodes[q].kind.Free?
    requires forall k | 0 <= k < |nodes[dp].entries| ::
      nodes[dp].entries[k].inum != 0 && nodes[dp].entries[k].name != name
    requires nodes' == WithDir(nodes, dp, nodes[dp].entries + [Dirent(q, name)], q) && q != dp
    ensures Makes(nodes, dp, name, Dir, q, nodes')
  {
    assert PlacedAt(nodes[dp].entries, Dirent(q, name), |nodes[dp].entries|, nodes'[dp].entries);
  }

  /** mkdir d, rmdir d while it is somebody's current directory, and a file made there. */
  function DeadRun(): seq<seq<Node>> {
    var free, out := Node(Free, 0, []), [Dirent(2, "."), Dirent(1, "..")];
    var r1 := [free, Node(Dir, 2, [Dirent(1, "."), Dirent(1, ".."), Dirent(2, "d")]), Node(Dir, 1, out), free];
    var r2 := [free, Node(Dir, 1, [Dirent(1, "."), Dirent(1, ".."), Dirent(0, "")]), Node(Dir, 0, out), free];
    [Bare(), r1, r2, r2[3 := Node(File, 1, [])][2 := Node(Dir, 0, out + [Dirent(3, "a")])]]
  }

  function DeadOps(): seq<Op> {
    [Make(1, "d", Dir, 2), Remove(1, "d", 2), Make(2, "a", File, 3)]
  }

  lemma DeadSteps()
    ensures var run, ops := DeadRun(), DeadOps();
      Does(run[0], ops[0], run[1]) && Does(run[1], ops[1], run[2]) && Does(run[2], ops[2], run[3])
  {
    var run: seq<seq<Node>> := DeadRun();
    assert run[1][1].entries == run[0][1].entries + [Dirent(2, "d")];
    assert run[1] == WithDir(run[0], 1, run[0][1].entries + [Dirent(2, "d")], 2);
    MakesDir(run[0], 1, "d", 2, run[1]);
    assert FirstMatch(run[1][1].entries, "d", 2) && MayGo(run[1], 2);
    assert run[2][1].entries == run[1][1].entries[2 := Dirent(0, "")];
    assert run[2] == Unlinked(run[1][1 := Cleared(run[1][1], 2, 1)], 2);
    assert PlacedAt(run[2][2].entries, Dirent(3, "a"), 2, run[3][2].entries);
  }

  /** The file has a link count of one, and no directory of the tree names it. */
  lemma DeadExample()
    ensures IsRun(DeadRun(), DeadOps()) && Inv(DeadRun()[2]) && !LinksOk(DeadRun()[3])
  {
    var run, ops := DeadRun(), DeadOps();
    BareInv();
    DeadSteps();
    hide Inv, Does, LinksOk;
    assert Safe(run[0], ops[0]) && Safe(run[1], ops[1]);
    SafeRunKeeps(run, ops, 2);
    OpKeepsIff(run[2], ops[2], run[3]);
  }
}
