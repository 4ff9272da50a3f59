/** kernel/fs.c: namex() on the directories that link counting keeps. */
module PathTree {
  import opened Basics
  import opened DirTree
  import opened Links
  import opened LinkOps
  import opened LinkRuns
  import opened Paths

  /** Entry k of directory d leads to an inode in use. */
  predicate Leads(nodes: seq<Node>, d: nat, k: nat)
    requires d < |nodes| && k < |nodes[d].entries|
  {
    var t := nodes[d].entries[k].inum;
    t < |nodes| && (t != 0 ==> !nodes[t].kind.Free?)
  }

  /** Without links, only ".." can lead to a free inode. */
  predicate UpFree(nodes: seq<Node>, d: nat) {
    d < |nodes| && nodes[d].kind.Dir? && nodes[d].nlink == 0 && Up(nodes[d]) < |nodes| && nodes[Up(nodes[d])].kind.Free?
  }

  lemma EntryLeads(nodes: seq<Node>, d: nat, k: nat)
    requires Inv(nodes) && d < |nodes| && nodes[d].kind.Dir? && k < |nodes[d].entries|
    ensures nodes[d].entries[k].inum < |nodes| && (Leads(nodes, d, k) || (k == 1 && UpFree(nodes, d)))
  {
    hide Count, Refs, OnceOk, LinksOk, DirsOk, OutOk;
    NotNegative(nodes, d);
    if nodes[d].nlink == 0 {
      OutLeads(nodes, d, k);
    } else {
      InLeads(nodes, d, k);
    }
  }

  lemma OutLeads(nodes: seq<Node>, d: nat, k: nat)
    requires OutOk(nodes) && d < |nodes| && nodes[d].kind.Dir? && nodes[d].nlink == 0 && k < |nodes[d].entries|
    ensures nodes[d].entries[k].inum < |nodes| && (Leads(nodes, d, k) || (k == 1 && UpFree(nodes, d)))
  {
    assert Barren(nodes[d], d) && Up(nodes[d]) < |nodes|;
  }

  lemma InLeads(nodes: seq<Node>, d: nat, k: nat)
    requires Inv(nodes) && d < |nodes| && Live(nodes[d]) && k < |nodes[d].entries|
    ensures Leads(nodes, d, k)
  {
    hide Count, Refs, OnceOk, LinksOk, Inv, Tree;
    var e := nodes[d].entries[k];
    LiveAt(nodes, d);
    if k >= 2 && e.inum != 0 {
      assert Rest(nodes[d])[k - 2] == e;
      FoundEntry(nodes, d, k, e.name);
      LinksInUse(nodes, e.inum);
    }
  }

  lemma LiveAt(nodes: seq<Node>, d: nat)
    requires Inv(nodes) && d < |nodes| && Live(nodes[d])
    ensures DirOk(nodes, d)
  {
    hide Count, Refs, OnceOk, LinksOk, OutOk, DirOk;
  }

  lemma LinksInUse(nodes: seq<Node>, t: nat)
    requires Inv(nodes) && t < |nodes| && nodes[t].nlink > 0
    ensures !nodes[t].kind.Free?
  {
    hide Count, Refs, OnceOk, LinksOk, DirsOk;
  }

  lemma {:induction false} LookupAt(es: seq<Dirent>, name: string) returns (k: nat)
    ensures Lookup(es, name).Some? ==> k < |es| && Matches(es[k], name) && es[k].inum == Lookup(es, name).value
    decreases |es|
  {
    k := 0;
    if |es| > 0 && !Matches(es[0], name) {
      var j := LookupAt(es[1..], name);
      k := j + 1;
    }
  }

  /** What namex() needs holds of every tree, if the cache has the inodes that are in use without links. */
  lemma TreeIsWalkable(nodes: seq<Node>, slots: seq<Slot>)
    requires Inv(nodes) && InCache(nodes, slots)
    ensures Walkable(nodes, slots)
  {
    hide Count, Refs, OnceOk, LinksOk, Leads;
    forall d: nat, k: nat | d < |nodes| && nodes[d].kind.Dir? && k < |nodes[d].entries|
      ensures nodes[d].entries[k].inum < |nodes|
    {
      EntryLeads(nodes, d, k);
    }
  }

  /** No path from an inode in use leads through a free one. */
  ghost predicate NeverMeets(nodes: seq<Node>) {
    forall at: nat, parent, elems | at < |nodes| && !nodes[at].kind.Free? :: !Meets(nodes, parent, at, elems)
  }

  /** namex() can panic on a free inode exactly if the ".." of some directory without links names one. */
  lemma NeverMeetsIff(nodes: seq<Node>)
    requires Inv(nodes)
    ensures NeverMeets(nodes) <==> forall d :: !UpFree(nodes, d)
  {
    hide Inv, Meets, UpFree;
    if forall d :: !UpFree(nodes, d) {
      forall at: nat, parent, elems | at < |nodes| && !nodes[at].kind.Free? ensures !Meets(nodes, parent, at, elems) {
        StaysInUse(nodes, parent, at, elems);
      }
    } else {
      var d :| UpFree(nodes, d);
      UpMeets(nodes, d);
    }
  }

  lemma {:induction false} StaysInUse(nodes: seq<Node>, parent: bool, at: nat, elems: seq<string>)
    requires Inv(nodes) && at < |nodes| && !nodes[at].kind.Free? && forall d :: !UpFree(nodes, d)
    ensures !Meets(nodes, parent, at, elems)
    decreases |elems|
  {
    hide Inv, UpFree, Lookup;
    if elems != [] && nodes[at].kind.Dir? && Lookup(nodes[at].entries, elems[0]).Some? {
      var k := LookupAt(nodes[at].entries, elems[0]);
      EntryLeads(nodes, at, k);
      StaysInUse(nodes, parent, nodes[at].entries[k].inum, elems[1..]);
    }
  }

  /** From such a directory, a path that goes up and on. */
  lemma UpMeets(nodes: seq<Node>, d: nat)
    requires Inv(nodes) && UpFree(nodes, d)
    ensures !nodes[d].kind.Free? && Meets(nodes, false, d, ["..", "x"]) && !NeverMeets(nodes)
  {
    hide Count, Refs, OnceOk, LinksOk, DirsOk;
    assert Barren(nodes[d], d);
    var es := nodes[d].entries;
    assert Lookup(es, "..") == Lookup(es[1..], "..") == Some(Up(nodes[d]));
    assert ["..", "x"][1..] == ["x"];
    assert Meets(nodes, false, Up(nodes[d]), ["x"]);
  }

  /** Freeing the parent of such a directory keeps the tree, and leaves its ".." with a free inode. */
  lemma ReleasedUp(nodes: seq<Node>, d: nat)
    requires Inv(nodes) && d < |nodes| && nodes[d].kind.Dir? && nodes[d].nlink == 0
    requires nodes[Up(nodes[d])].nlink == 0
    ensures var nodes' := nodes[Up(nodes[d]) := Node(Free, 0, [])]; Inv(nodes') && UpFree(nodes', d)
  {
    hide Count, Refs, OnceOk, LinksOk, DirsOk;
    assert Barren(nodes[d], d);
    ReleasedTree(nodes, Up(nodes[d]));
  }

  /** mkdir a, mkdir a/b, rmdir a/b while it is somebody's current directory, rmdir a, and the freeing iput() of a. */
  function OrphanRun(): seq<seq<Node>> {
    var free, dots := Node(Free, 0, []), [Dirent(1, "."), Dirent(1, "..")];
    var a, b := [Dirent(2, "."), Dirent(1, "..")], [Dirent(3, "."), Dirent(2, "..")];
    var root := Node(Dir, 2, dots + [Dirent(2, "a")]);
    var r4 := [free, Node(Dir, 1, dots + [Dirent(0, "")]), Node(Dir, 0, a + [Dirent(0, "")]), Node(Dir, 0, b)];
    [Bare(), [free, root, Node(Dir, 1, a), free], [free, root, Node(Dir, 2, a + [Dirent(3, "b")]), Node(Dir, 1, b)],
     [free, root, Node(Dir, 1, a + [Dirent(0, "")]), Node(Dir, 0, b)], r4, r4[2 := free]]
  }

  function OrphanOps(): seq<Op> {
    [Make(1, "a", Dir, 2), Make(2, "b", Dir, 3), Remove(2, "b", 2), Remove(1, "a", 2), Release(2)]
  }

  lemma OrphanMade()
    ensures var run, ops := OrphanRun(), OrphanOps(); Does(run[0], ops[0], run[1]) && Does(run[1], ops[1], run[2])
  {
    var run: seq<seq<Node>> := OrphanRun();
    assert run[1][1].entries == run[0][1].entries + [Dirent(2, "a")];
    assert run[1] == WithDir(run[0], 1, run[0][1].entries + [Dirent(2, "a")], 2);
    MakesDir(run[0], 1, "a", 2, run[1]);
    assert run[2][2].entries == run[1][2].entries + [Dirent(3, "b")];
    assert run[2] == WithDir(run[1], 2, run[1][2].entries + [Dirent(3, "b")], 3);
    MakesDir(run[1], 2, "b", 3, run[2]);
  }

  lemma OrphanGone()
    ensures var run, ops := OrphanRun(), OrphanOps();
      Does(run[2], ops[2], run[3]) && Does(run[3], ops[3], run[4]) && Does(run[4], ops[4], run[5])
  {
    var run: seq<seq<Node>> := OrphanRun();
    assert FirstMatch(run[2][2].entries, "b", 2) && MayGo(run[2], 3);
    assert run[3][2].entries == run[2][2].entries[2 := Dirent(0, "")];
    assert run[3] == Unlinked(run[2][2 := Cleared(run[2][2], 2, 1)], 3);
    assert FirstMatch(run[3][1].entries, "a", 2) && MayGo(run[3], 2);
    assert run[4][1].entries == run[3][1].entries[2 := Dirent(0, "")];
    assert run[4] == Unlinked(run[3][1 := Cleared(run[3][1], 2, 1)], 2);
  }

  /** A path from that directory leads through a free inode. */
  lemma FreeParentExample()
    ensures IsRun(OrphanRun(), OrphanOps()) && Inv(OrphanRun()[5]) && UpFree(OrphanRun()[5], 3)
    ensures Meets(OrphanRun()[5], false, 3, ["..", "x"])
  {
    var run, ops := OrphanRun(), OrphanOps();
    BareInv();
    OrphanMade();
    OrphanGone();
    hide Inv, Does, Meets;
    assert Safe(run[0], ops[0]) && Safe(run[1], ops[1]);
    SafeRunKeeps(run, ops, 5);
    UpMeets(run[5], 3);
  }
}
