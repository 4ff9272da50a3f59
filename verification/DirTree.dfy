/** Directories as link counting sees them: kernel/sysfile.c and the directory part of kernel/fs.c. */
module DirTree {
  const DIRSIZ: nat := 14
  const ROOTINO: nat := 1

  datatype Kind = Free | Dir | File | Dev

  /** inum 0 marks an empty slot. */
  datatype Dirent = Dirent(inum: nat, name: string)

  const SHRT_MAX := 0x7fff

  /** A link count is a short. */
  type Short = n: int | -0x8000 <= n <= SHRT_MAX witness 0

  /** n++ and n-- of a short. */
  function More(n: Short): Short {
    if n == SHRT_MAX then -0x8000 else n + 1
  }

  function Less(n: Short): Short {
    if n == -0x8000 then SHRT_MAX else n - 1
  }

  /** An inode and, for a directory, its entries. */
  datatype Node = Node(kind: Kind, nlink: Short, entries: seq<Dirent>)

  /** A directory that is still part of the tree. */
  predicate Live(n: Node) {
    n.kind.Dir? && n.nlink > 0
  }

  function One(e: Dirent, t: nat): nat {
    if e.inum == t && e.name != "." then 1 else 0
  }

  /** Entries other than "." that name t. */
  function Refs(es: seq<Dirent>, t: nat): nat {
    if |es| == 0 then 0 else Refs(es[..|es| - 1], t) + One(es[|es| - 1], t)
  }

  function From(n: Node, t: nat): nat {
    if Live(n) then Refs(n.entries, t) else 0
  }

  /** Entries other than "." that name t, in all directories with links. */
  function Count(nodes: seq<Node>, t: nat): nat {
    if |nodes| == 0 then 0 else Count(nodes[..|nodes| - 1], t) + From(nodes[|nodes| - 1], t)
  }

  /** Link counts are right. */
  ghost predicate LinksOk(nodes: seq<Node>) {
    forall t | 0 < t < |nodes| :: nodes[t].nlink == Count(nodes, t)
  }

  // ------------------------------------------------- counting

  lemma {:induction false} RefsSum(a: seq<Dirent>, b: seq<Dirent>, t: nat)
    ensures Refs(a + b, t) == Refs(a, t) + Refs(b, t)
    decreases |b|
  {
    if |b| == 0 {
      assert a + b == a;
    } else {
      assert (a + b)[..|a + b| - 1] == a + b[..|b| - 1];
      RefsSum(a, b[..|b| - 1], t);
    }
  }

  lemma RefsOne(e: Dirent, t: nat)
    ensures Refs([e], t) == One(e, t)
  {
    assert [e][..0] == [];
    assert Refs([], t) == 0;
  }

  lemma RefsUpdate(es: seq<Dirent>, i: nat, e: Dirent, t: nat)
    requires i < |es|
    ensures Refs(es[i := e], t) == Refs(es, t) - One(es[i], t) + One(e, t)
  {
    assert es == es[..i] + [es[i]] + es[i + 1..];
    assert es[i := e] == es[..i] + [e] + es[i + 1..];
    RefsSum(es[..i] + [es[i]], es[i + 1..], t);
    RefsSum(es[..i], [es[i]], t);
    RefsSum(es[..i] + [e], es[i + 1..], t);
    RefsSum(es[..i], [e], t);
    RefsOne(es[i], t);
    RefsOne(e, t);
  }

  lemma {:induction false} CountUpdate(nodes: seq<Node>, d: nat, n: Node, t: nat)
    requires d < |nodes|
    ensures Count(nodes[d := n], t) == Count(nodes, t) - From(nodes[d], t) + From(n, t)
    decreases |nodes|
  {
    var last := |nodes| - 1;
    if d == last {
      assert nodes[d := n][..last] == nodes[..last];
    } else {
      assert nodes[d := n][..last] == nodes[..last][d := n];
      CountUpdate(nodes[..last], d, n, t);
    }
  }

  /** An entry that names t counts. */
  lemma {:induction false} RefsAtLeast(es: seq<Dirent>, i: nat, t: nat)
    requires i < |es|
    ensures Refs(es, t) >= One(es[i], t)
    decreases |es|
  {
    if i < |es| - 1 { RefsAtLeast(es[..|es| - 1], i, t); }
  }

  lemma {:induction false} CountAtLeast(nodes: seq<Node>, d: nat, t: nat)
    requires d < |nodes|
    ensures Count(nodes, t) >= From(nodes[d], t)
    decreases |nodes|
  {
    if d < |nodes| - 1 { CountAtLeast(nodes[..|nodes| - 1], d, t); }
  }

  lemma {:induction false} CountZero(nodes: seq<Node>, t: nat)
    requires forall d | 0 <= d < |nodes| :: From(nodes[d], t) == 0
    ensures Count(nodes, t) == 0
  {
    if |nodes| > 0 { CountZero(nodes[..|nodes| - 1], t); }
  }

  /** Only directory x names t. */
  lemma CountOnly(nodes: seq<Node>, x: nat, t: nat)
    requires x < |nodes| && forall d | 0 <= d < |nodes| && d != x :: From(nodes[d], t) == 0
    ensures Count(nodes, t) == From(nodes[x], t)
  {
    var none := nodes[x := Node(Free, 0, [])];
    CountZero(none, t);
    CountUpdate(nodes, x, Node(Free, 0, []), t);
  }

  // ------------------------------------------------- the shape of the tree

  function Up(n: Node): nat {
    if |n.entries| >= 2 then n.entries[1].inum else 0
  }

  /** The entries after "." and "..". */
  function Rest(n: Node): seq<Dirent> {
    if |n.entries| >= 2 then n.entries[2..] else []
  }

  ghost predicate DirOk(nodes: seq<Node>, d: nat)
    requires d < |nodes|
  {
    var n := nodes[d];
    && DotsOk(n, d)
    && 0 < Up(n) < |nodes| && Live(nodes[Up(n)]) && (d != ROOTINO ==> Up(n) != d)
    && (forall k | 0 <= k < |Rest(n)| && Rest(n)[k].inum != 0 :: EntryOk(nodes, Rest(n)[k]))
  }

  predicate DotsOk(n: Node, d: nat) {
    |n.entries| >= 2 && n.entries[0] == Dirent(d, ".") && n.entries[1].name == ".."
  }

  predicate EntryOk(nodes: seq<Node>, e: Dirent) {
    e.name != "." && e.name != ".." && e.inum < |nodes|
  }

  /** A directory is named once, by the one its ".." names; the root by none. */
  predicate NamedOnce(x: nat, xn: Node, d: nat, dn: Node) {
    Refs(Rest(xn), d) == if d != ROOTINO && x == Up(dn) then 1 else 0
  }

  predicate RootOk(nodes: seq<Node>) {
    ROOTINO < |nodes| && Live(nodes[ROOTINO]) && Up(nodes[ROOTINO]) == ROOTINO && nodes[0].kind.Free?
  }

  ghost predicate DirsOk(nodes: seq<Node>) {
    forall d | 0 <= d < |nodes| && Live(nodes[d]) :: DirOk(nodes, d)
  }

  ghost predicate OnceOk(nodes: seq<Node>) {
    forall x, d | 0 <= x < |nodes| && 0 <= d < |nodes| && Live(nodes[x]) && Live(nodes[d]) ::
      NamedOnce(x, nodes[x], d, nodes[d])
  }

  /** Free inodes have no links, and directories out of the tree no entries but "." and "..". */
  ghost predicate OutOk(nodes: seq<Node>) {
    && (forall d | 0 <= d < |nodes| && nodes[d].kind.Free? :: nodes[d].nlink == 0)
    && (forall d | 0 <= d < |nodes| && nodes[d].kind.Dir? && nodes[d].nlink == 0 ::
       Barren(nodes[d], d) && Up(nodes[d]) < |nodes|)
  }

  predicate Barren(n: Node, d: nat) {
    DotsOk(n, d) && Up(n) != 0 && Up(n) != d && Empty(n.entries)
  }

  /** What isdirempty() looks for. */
  predicate Empty(es: seq<Dirent>) {
    forall k | 2 <= k < |es| :: es[k].inum == 0
  }

  ghost predicate Tree(nodes: seq<Node>) {
    RootOk(nodes) && DirsOk(nodes) && OnceOk(nodes) && OutOk(nodes)
  }

  ghost predicate Inv(nodes: seq<Node>) {
    Tree(nodes) && LinksOk(nodes)
  }
}
