/** kernel/sysfile.c: create(), sys_link() and sys_unlink(), with dirlookup(), dirlink() and isdirempty(). */
module Links {
  import opened DirTree

  /** e is in the first empty slot of es, or at its end. */
  ghost predicate Inserted(es: seq<Dirent>, e: Dirent, es': seq<Dirent>) {
    es' == es + [e] || exists i | 0 <= i < |es| :: es[i].inum == 0 && es' == es[i := e]
  }

  lemma InsertedRefs(es: seq<Dirent>, e: Dirent, es': seq<Dirent>, t: nat)
    requires Inserted(es, e, es') && t != 0
    ensures Refs(es', t) == Refs(es, t) + One(e, t)
  {
    if es' == es + [e] {
      RefsSum(es, [e], t);
      RefsOne(e, t);
    } else {
      var i :| 0 <= i < |es| && es[i].inum == 0 && es' == es[i := e];
      RefsUpdate(es, i, e, t);
    }
  }

  /** In a directory the slot taken is not that of "." or "..". */
  lemma InsertedRest(es: seq<Dirent>, e: Dirent, es': seq<Dirent>)
    requires Inserted(es, e, es') && |es| >= 2 && es[0].inum != 0 && es[1].inum != 0
    ensures |es'| >= 2 && es'[0] == es[0] && es'[1] == es[1] && Inserted(es[2..], e, es'[2..])
    ensures forall k | 2 <= k < |es'| :: es'[k] == e || (k < |es| && es'[k] == es[k])
  {
    if es' == es + [e] {
      assert es'[2..] == es[2..] + [e];
    } else {
      var i :| 0 <= i < |es| && es[i].inum == 0 && es' == es[i := e];
      assert es'[2..] == es[2..][i - 2 := e];
      assert es[2..][i - 2].inum == 0;
    }
  }

  /** The two entries of a directory that are not counted like the rest. */
  lemma RefsSplit(n: Node, d: nat, t: nat)
    requires DotsOk(n, d)
    ensures Refs(n.entries, t) == (if Up(n) == t then 1 else 0) + Refs(Rest(n), t)
  {
    var es := n.entries;
    assert es == [es[0]] + [es[1]] + es[2..];
    RefsSum([es[0]] + [es[1]], es[2..], t);
    RefsSum([es[0]], [es[1]], t);
    RefsOne(es[0], t);
    RefsOne(es[1], t);
  }

  // ------------------------------------------------- a new entry for something that is not a live directory

  /** A directory with one more entry. */
  lemma GainsEntry(n: Node, es: seq<Dirent>, e: Dirent, d: nat)
    requires DotsOk(n, d) && d != 0 && Up(n) != 0 && Inserted(n.entries, e, es)
    ensures var n' := n.(entries := es);
      && DotsOk(n', d) && Up(n') == Up(n) && Inserted(Rest(n), e, Rest(n'))
      && (forall k | 0 <= k < |Rest(n')| :: Rest(n')[k] == e || (k < |Rest(n)| && Rest(n')[k] == Rest(n)[k]))
  {
    InsertedRest(n.entries, e, es);
  }

  /** Adding a name for a file to a live directory. */
  lemma TreeGains(nodes: seq<Node>, dp: nat, es: seq<Dirent>, e: Dirent, q: Node)
    requires Tree(nodes) && dp < |nodes| && Live(nodes[dp]) && Inserted(nodes[dp].entries, e, es)
    requires 0 < e.inum < |nodes| && e.inum != dp && !nodes[e.inum].kind.Dir? && EntryOk(nodes, e) && !q.kind.Dir?
      && !q.kind.Free?
    ensures Tree(nodes[e.inum := q][dp := nodes[dp].(entries := es)])
  {
    hide Inserted, DirsOk, OnceOk;
    var nodes' := nodes[e.inum := q][dp := nodes[dp].(entries := es)];
    DirAt(nodes, dp);
    GainsEntry(nodes[dp], es, e, dp);
    DirsGain(nodes, nodes', dp, e);
    OnceGains(nodes, nodes', dp, e);
  }

  lemma DirAt(nodes: seq<Node>, d: nat)
    requires DirsOk(nodes) && d < |nodes| && Live(nodes[d])
    ensures DotsOk(nodes[d], d) && 0 < Up(nodes[d]) < |nodes| && Live(nodes[Up(nodes[d])])
      && (d != ROOTINO ==> Up(nodes[d]) != d)
  {
    assert DirOk(nodes, d);
  }

  ghost predicate GainedAt(nodes: seq<Node>, nodes': seq<Node>, dp: nat, e: Dirent) {
    && dp < |nodes| == |nodes'| && e.inum < |nodes| && Live(nodes[dp]) && !Live(nodes[e.inum]) && !Live(nodes'[e.inum])
    && (forall d | 0 <= d < |nodes| && d != dp && d != e.inum :: nodes'[d] == nodes[d])
    && Live(nodes'[dp]) && DotsOk(nodes'[dp], dp) && Up(nodes'[dp]) == Up(nodes[dp])
    && Inserted(Rest(nodes[dp]), e, Rest(nodes'[dp]))
    && (forall k | 0 <= k < |Rest(nodes'[dp])| ::
       Rest(nodes'[dp])[k] == e || (k < |Rest(nodes[dp])| && Rest(nodes'[dp])[k] == Rest(nodes[dp])[k]))
  }

  lemma DirsGain(nodes: seq<Node>, nodes': seq<Node>, dp: nat, e: Dirent)
    requires DirsOk(nodes) && GainedAt(nodes, nodes', dp, e) && EntryOk(nodes, e)
    ensures DirsOk(nodes')
  {
    hide Inserted, Rest, Up, DotsOk;
    forall d | 0 <= d < |nodes'| && Live(nodes'[d]) ensures DirOk(nodes', d) {
      assert DirOk(nodes, d);
      if d == dp { DirGains(nodes, nodes', dp, e); }
    }
  }

  lemma DirGains(nodes: seq<Node>, nodes': seq<Node>, dp: nat, e: Dirent)
    requires GainedAt(nodes, nodes', dp, e) && EntryOk(nodes, e) && DirOk(nodes, dp)
    ensures DirOk(nodes', dp)
  {
    hide Inserted, Rest, Up, DotsOk;
    forall k | 0 <= k < |Rest(nodes'[dp])| && Rest(nodes'[dp])[k].inum != 0
      ensures EntryOk(nodes', Rest(nodes'[dp])[k])
    {
      if Rest(nodes'[dp])[k] != e { assert EntryOk(nodes, Rest(nodes[dp])[k]); }
    }
  }

  lemma OnceGains(nodes: seq<Node>, nodes': seq<Node>, dp: nat, e: Dirent)
    requires OnceOk(nodes) && GainedAt(nodes, nodes', dp, e) && !Live(nodes[0])
    ensures OnceOk(nodes')
  {
    hide Inserted, Rest, Up, DotsOk;
    forall x, d | 0 <= x < |nodes'| && 0 <= d < |nodes'| && Live(nodes'[x]) && Live(nodes'[d])
      ensures NamedOnce(x, nodes'[x], d, nodes'[d])
    {
      assert NamedOnce(x, nodes[x], d, nodes[d]);
      if x == dp && d != 0 { InsertedRefs(Rest(nodes[dp]), e, Rest(nodes'[dp]), d); }
    }
  }

  lemma LinksGain(nodes: seq<Node>, dp: nat, es: seq<Dirent>, e: Dirent, q: Node, t: nat)
    requires dp < |nodes| && Live(nodes[dp]) && Inserted(nodes[dp].entries, e, es) && e.inum < |nodes| && e.inum != dp
      && e.name != "."
    requires !Live(nodes[e.inum]) && !Live(q) && t != 0
    ensures Count(nodes[e.inum := q][dp := nodes[dp].(entries := es)], t) == Count(nodes, t) +
      (if t == e.inum then 1 else 0)
  {
    var n1 := nodes[e.inum := q];
    CountUpdate(nodes, e.inum, q, t);
    CountUpdate(n1, dp, nodes[dp].(entries := es), t);
    InsertedRefs(nodes[dp].entries, e, es, t);
  }

  // ------------------------------------------------- a new directory

  lemma NewDirRefs(q: nat, dp: nat, t: nat)
    ensures Refs([Dirent(q, "."), Dirent(dp, "..")], t) == if dp == t then 1 else 0
  {
    var n := Node(Dir, 1, [Dirent(q, "."), Dirent(dp, "..")]);
    RefsSplit(n, q, t);
    assert Rest(n) == [];
    assert Refs([], t) == 0;
  }

  ghost function WithDir(nodes: seq<Node>, dp: nat, es: seq<Dirent>, q: nat): seq<Node>
    requires dp < |nodes| && q < |nodes|
  {
    nodes[q := Node(Dir, 1, [Dirent(q, "."), Dirent(dp, "..")])][dp := Node(nodes[dp].kind, More(nodes[dp].nlink), es)]
  }

  lemma DirLinks(nodes: seq<Node>, dp: nat, es: seq<Dirent>, e: Dirent, t: nat)
    requires dp < |nodes| && Live(nodes[dp]) && Inserted(nodes[dp].entries, e, es) && e.inum < |nodes| && e.inum != dp
      && e.name != "."
    requires nodes[e.inum].kind.Free? && t != 0 && nodes[dp].nlink < SHRT_MAX
    ensures Count(WithDir(nodes, dp, es, e.inum), t) == Count(nodes, t) + (if t == e.inum then 1 else 0) +
      (if t == dp then 1 else 0)
  {
    var made := Node(Dir, 1, [Dirent(e.inum, "."), Dirent(dp, "..")]);
    CountUpdate(nodes, e.inum, made, t);
    CountUpdate(nodes[e.inum := made], dp, Node(nodes[dp].kind, nodes[dp].nlink + 1, es), t);
    InsertedRefs(nodes[dp].entries, e, es, t);
    NewDirRefs(e.inum, dp, t);
  }

  /** An inode that nobody names can become a directory once its parent names it. */
  lemma DirBorn(nodes: seq<Node>, dp: nat, q: nat)
    requires Tree(nodes) && dp < |nodes| && Live(nodes[dp]) && 0 < q < |nodes| && q != dp && !nodes[q].kind.Dir?
      && q != ROOTINO && nodes[dp].nlink < SHRT_MAX
    requires forall x | 0 <= x < |nodes| && Live(nodes[x]) :: Refs(Rest(nodes[x]), q) == if x == dp then 1 else 0
    ensures var q' := Node(Dir, 1, [Dirent(q, "."), Dirent(dp, "..")]);
      Tree(nodes[q := q'][dp := nodes[dp].(nlink := nodes[dp].nlink + 1)])
  {
    hide DirsOk, OnceOk;
    var q' := Node(Dir, 1, [Dirent(q, "."), Dirent(dp, "..")]);
    var nodes' := nodes[q := q'][dp := nodes[dp].(nlink := nodes[dp].nlink + 1)];
    assert Rest(q') == [] && Up(q') == dp;
    BornDirs(nodes, nodes', dp, q);
    BornOnce(nodes, nodes', dp, q);
  }

  ghost predicate BornAt(nodes: seq<Node>, nodes': seq<Node>, dp: nat, q: nat) {
    && dp < |nodes| == |nodes'| && q < |nodes| && q != dp && Live(nodes[dp]) && !Live(nodes[q]) && Live(nodes'[dp])
    && Live(nodes'[q])
    && (forall d | 0 <= d < |nodes| && d != dp && d != q :: nodes'[d] == nodes[d])
    && Rest(nodes'[dp]) == Rest(nodes[dp]) && Up(nodes'[dp]) == Up(nodes[dp])
    && (DotsOk(nodes[dp], dp) ==> DotsOk(nodes'[dp], dp)) && DotsOk(nodes'[q], q) && Rest(nodes'[q]) == []
    && Up(nodes'[q]) == dp
  }

  lemma BornDirs(nodes: seq<Node>, nodes': seq<Node>, dp: nat, q: nat)
    requires DirsOk(nodes) && BornAt(nodes, nodes', dp, q) && dp > 0
    ensures DirsOk(nodes')
  {
    hide Rest, Up, DotsOk;
    forall d | 0 <= d < |nodes'| && Live(nodes'[d]) ensures DirOk(nodes', d) {
      if d != q {
        assert DirOk(nodes, d);
        BornDir(nodes, nodes', dp, q, d);
      }
    }
  }

  lemma BornDir(nodes: seq<Node>, nodes': seq<Node>, dp: nat, q: nat, d: nat)
    requires BornAt(nodes, nodes', dp, q) && d < |nodes| && d != q && DirOk(nodes, d)
    ensures DirOk(nodes', d)
  {
    hide Rest, Up, DotsOk;
    forall k | 0 <= k < |Rest(nodes'[d])| && Rest(nodes'[d])[k].inum != 0 ensures EntryOk(nodes', Rest(nodes'[d])[k]) {
      assert EntryOk(nodes, Rest(nodes[d])[k]);
    }
  }

  lemma BornOnce(nodes: seq<Node>, nodes': seq<Node>, dp: nat, q: nat)
    requires OnceOk(nodes) && DirsOk(nodes) && BornAt(nodes, nodes', dp, q) && q != ROOTINO
    requires forall x | 0 <= x < |nodes| && Live(nodes[x]) :: Refs(Rest(nodes[x]), q) == if x == dp then 1 else 0
    ensures OnceOk(nodes')
  {
    hide Rest, Up, DotsOk, DirsOk;
    forall x, d | 0 <= x < |nodes'| && 0 <= d < |nodes'| && Live(nodes'[x]) && Live(nodes'[d])
      ensures NamedOnce(x, nodes'[x], d, nodes'[d])
    {
      if x == q {
        assert Refs([], d) == 0;
        if d != q { DirAt(nodes, d); }
      } else if d != q {
        assert NamedOnce(x, nodes[x], d, nodes[d]);
      }
    }
  }

  lemma Unnamed(nodes: seq<Node>, q: nat, x: nat)
    requires LinksOk(nodes) && DirsOk(nodes) && 0 < q < |nodes| && nodes[q].nlink == 0 && x < |nodes| && Live(nodes[x])
    ensures Refs(Rest(nodes[x]), q) == 0 && Up(nodes[x]) != q
  {
    assert nodes[q].nlink == Count(nodes, q);
    CountAtLeast(nodes, x, q);
    DirAt(nodes, x);
    RefsSplit(nodes[x], x, q);
  }

  /** create() of a directory in a live directory. */
  lemma MkdirTree(nodes: seq<Node>, dp: nat, es: seq<Dirent>, e: Dirent)
    requires Inv(nodes) && dp < |nodes| && Live(nodes[dp]) && Inserted(nodes[dp].entries, e, es)
    requires 0 < e.inum < |nodes| && nodes[e.inum].kind.Free? && EntryOk(nodes, e) && nodes[dp].nlink < SHRT_MAX
    ensures Tree(WithDir(nodes, dp, es, e.inum))
  {
    hide Inserted, DirsOk, OnceOk, LinksOk;
    var q := e.inum;
    var n1 := nodes[q := Node(File, 1, [])][dp := nodes[dp].(entries := es)];
    TreeGains(nodes, dp, es, e, Node(File, 1, []));
    DirAt(nodes, dp);
    GainsEntry(nodes[dp], es, e, dp);
    forall x | 0 <= x < |n1| && Live(n1[x]) ensures Refs(Rest(n1[x]), q) == if x == dp then 1 else 0 {
      Unnamed(nodes, q, x);
      if x == dp { InsertedRefs(Rest(nodes[dp]), e, Rest(n1[dp]), q); }
    }
    DirBorn(n1, dp, q);
    assert WithDir(nodes, dp, es, q) ==
      n1[q := Node(Dir, 1, [Dirent(q, "."), Dirent(dp, "..")])][dp := n1[dp].(nlink := n1[dp].nlink + 1)];
  }

  // ------------------------------------------------- a name goes away

  /** Entry k of directory dp is cleared and its link count set. */
  function Cleared(n: Node, k: nat, nlink: Short): Node
    requires k < |n.entries|
  {
    n.(entries := n.entries[k := Dirent(0, "")], nlink := nlink)
  }

  lemma ClearedRest(n: Node, k: nat, nlink: Short, t: nat)
    requires 2 <= k < |n.entries| && t != 0
    ensures var n' := Cleared(n, k, nlink);
      && Up(n') == Up(n) && Refs(Rest(n'), t) == Refs(Rest(n), t) - One(n.entries[k], t)
      && Refs(n'.entries, t) == Refs(n.entries, t) - One(n.entries[k], t)
  {
    var n' := Cleared(n, k, nlink);
    assert Rest(n') == Rest(n)[k - 2 := Dirent(0, "")];
    RefsUpdate(Rest(n), k - 2, Dirent(0, ""), t);
    RefsUpdate(n.entries, k, Dirent(0, ""), t);
  }

  ghost predicate LostAt(nodes: seq<Node>, nodes': seq<Node>, dp: nat, k: nat, ip: nat) {
    && dp < |nodes| == |nodes'| && ip < |nodes| && dp != ip && 2 <= k < |nodes[dp].entries|
    && nodes[dp].entries[k].inum == ip
    && (forall d | 0 <= d < |nodes| && d != dp && d != ip :: nodes'[d] == nodes[d])
    && Live(nodes[dp]) && Live(nodes'[dp]) && nodes'[dp] == Cleared(nodes[dp], k, nodes'[dp].nlink) && !Live(nodes'[ip])
  }

  lemma LostDirs(nodes: seq<Node>, nodes': seq<Node>, dp: nat, k: nat, ip: nat)
    requires DirsOk(nodes) && LostAt(nodes, nodes', dp, k, ip)
    requires forall x | 0 <= x < |nodes| && x != ip && Live(nodes[x]) :: Up(nodes[x]) != ip
    ensures DirsOk(nodes')
  {
    forall d | 0 <= d < |nodes'| && Live(nodes'[d]) ensures DirOk(nodes', d) {
      assert DirOk(nodes, d);
      if d == dp { LostDir(nodes, nodes', dp, k); }
    }
  }

  lemma LostDir(nodes: seq<Node>, nodes': seq<Node>, dp: nat, k: nat)
    requires dp < |nodes| == |nodes'| && DirOk(nodes, dp) && 2 <= k < |nodes[dp].entries|
      && nodes'[dp] == Cleared(nodes[dp], k, nodes'[dp].nlink)
    requires Live(nodes'[Up(nodes[dp])])
    ensures DirOk(nodes', dp)
  {
    assert Rest(nodes'[dp]) == Rest(nodes[dp])[k - 2 := Dirent(0, "")];
    forall j | 0 <= j < |Rest(nodes'[dp])| && Rest(nodes'[dp])[j].inum != 0
      ensures EntryOk(nodes', Rest(nodes'[dp])[j])
    {
      assert EntryOk(nodes, Rest(nodes[dp])[j]);
    }
  }

  lemma LostOnce(nodes: seq<Node>, nodes': seq<Node>, dp: nat, k: nat, ip: nat)
    requires OnceOk(nodes) && LostAt(nodes, nodes', dp, k, ip) && !Live(nodes[0])
    ensures OnceOk(nodes')
  {
    hide Rest, Up;
    forall x, d | 0 <= x < |nodes'| && 0 <= d < |nodes'| && Live(nodes'[x]) && Live(nodes'[d])
      ensures NamedOnce(x, nodes'[x], d, nodes'[d])
    {
      assert NamedOnce(x, nodes[x], d, nodes[d]);
      if d != 0 { ClearedRest(nodes[dp], k, nodes'[dp].nlink, d); }
    }
  }

  /** The last part of unlink for a file. */
  lemma FileLost(nodes: seq<Node>, dp: nat, k: nat, ip: nat)
    requires Inv(nodes) && dp < |nodes| && Live(nodes[dp]) && 2 <= k < |nodes[dp].entries|
      && nodes[dp].entries[k].inum == ip
    requires 0 < ip < |nodes| && nodes[dp].entries[k].name != "." && !nodes[ip].kind.Dir? && nodes[ip].nlink > 0
    ensures Inv(nodes[dp := Cleared(nodes[dp], k, nodes[dp].nlink)][ip := nodes[ip].(nlink := nodes[ip].nlink - 1)])
  {
    hide DirsOk, OnceOk, LinksOk;
    var nodes' := nodes[dp := Cleared(nodes[dp], k, nodes[dp].nlink)][ip := nodes[ip].(nlink := nodes[ip].nlink - 1)];
    forall x | 0 <= x < |nodes| && Live(nodes[x]) ensures Up(nodes[x]) != ip { DirAt(nodes, x); }
    FileLostLinks(nodes, dp, k, ip);
    hide Up;
    LostDirs(nodes, nodes', dp, k, ip);
    LostOnce(nodes, nodes', dp, k, ip);
  }

  lemma FileLostLinks(nodes: seq<Node>, dp: nat, k: nat, ip: nat)
    requires LinksOk(nodes) && dp < |nodes| && Live(nodes[dp]) && 2 <= k < |nodes[dp].entries|
      && nodes[dp].entries[k].inum == ip
    requires 0 < ip < |nodes| && nodes[dp].entries[k].name != "." && !nodes[ip].kind.Dir? && nodes[ip].nlink > 0
    ensures LinksOk(nodes[dp := Cleared(nodes[dp], k, nodes[dp].nlink)][ip := nodes[ip].(nlink := nodes[ip].nlink - 1)])
  {
    var nodes' := nodes[dp := Cleared(nodes[dp], k, nodes[dp].nlink)][ip := nodes[ip].(nlink := nodes[ip].nlink - 1)];
    forall t | 0 < t < |nodes'| ensures nodes'[t].nlink == Count(nodes', t) {
      assert nodes[t].nlink == Count(nodes, t);
      CountUpdate(nodes, dp, Cleared(nodes[dp], k, nodes[dp].nlink), t);
      CountUpdate(nodes[dp := Cleared(nodes[dp], k, nodes[dp].nlink)], ip, nodes'[ip], t);
      ClearedRest(nodes[dp], k, nodes[dp].nlink, t);
    }
  }

  // ------------------------------------------------- a directory goes away

  lemma {:induction false} EmptyRefs(es: seq<Dirent>, t: nat)
    requires t != 0 && forall k | 0 <= k < |es| :: es[k].inum == 0
    ensures Refs(es, t) == 0
  {
    if |es| > 0 { EmptyRefs(es[..|es| - 1], t); }
  }

  lemma NoneBelow(nodes: seq<Node>, ip: nat, x: nat)
    requires DirsOk(nodes) && OnceOk(nodes) && RootOk(nodes) && 0 < ip < |nodes| && Live(nodes[ip])
      && Empty(nodes[ip].entries) && ip != ROOTINO
    requires 0 <= x < |nodes| && Live(nodes[x])
    ensures Up(nodes[x]) != ip
  {
    hide DirsOk, OnceOk;
    if Up(nodes[x]) == ip && x != ROOTINO {
      NamedBy(nodes, ip, x);
      EmptyRefs(Rest(nodes[ip]), x);
    }
  }

  /** What unlink knows of an empty directory: dp is its parent, and no live directory is below it. */
  lemma EmptyDir(nodes: seq<Node>, dp: nat, k: nat, ip: nat)
    requires Tree(nodes) && dp < |nodes| && Live(nodes[dp]) && 2 <= k < |nodes[dp].entries|
      && nodes[dp].entries[k].inum == ip
    requires 0 < ip < |nodes| && nodes[dp].entries[k].name != "." && Live(nodes[ip]) && Empty(nodes[ip].entries)
    ensures ip != ROOTINO && Up(nodes[ip]) == dp && dp != ip && Refs(Rest(nodes[dp]), ip) == 1
    ensures forall x | 0 <= x < |nodes| && x != dp && Live(nodes[x]) :: Refs(Rest(nodes[x]), ip) == 0
    ensures forall x | 0 <= x < |nodes| && Live(nodes[x]) :: Up(nodes[x]) != ip
  {
    hide DirsOk, OnceOk, Up, Rest, Refs;
    IsParent(nodes, dp, k, ip);
    forall x | 0 <= x < |nodes| && Live(nodes[x]) ensures Up(nodes[x]) != ip {
      NoneBelow(nodes, ip, x);
    }
    forall x | 0 <= x < |nodes| && x != dp && Live(nodes[x]) ensures Refs(Rest(nodes[x]), ip) == 0 {
      NamedBy(nodes, x, ip);
    }
  }

  lemma IsParent(nodes: seq<Node>, dp: nat, k: nat, ip: nat)
    requires DirsOk(nodes) && OnceOk(nodes) && dp < |nodes| && Live(nodes[dp]) && 2 <= k < |nodes[dp].entries|
      && nodes[dp].entries[k].inum == ip
    requires 0 < ip < |nodes| && nodes[dp].entries[k].name != "." && Live(nodes[ip])
    ensures ip != ROOTINO && Up(nodes[ip]) == dp && dp != ip && Refs(Rest(nodes[dp]), ip) == 1
  {
    hide DirsOk, OnceOk, Refs;
    assert Rest(nodes[dp])[k - 2] == nodes[dp].entries[k];
    RefsAtLeast(Rest(nodes[dp]), k - 2, ip);
    NamedBy(nodes, dp, ip);
    DirAt(nodes, ip);
  }

  lemma NamedBy(nodes: seq<Node>, x: nat, d: nat)
    requires OnceOk(nodes) && x < |nodes| && d < |nodes| && Live(nodes[x]) && Live(nodes[d])
    ensures Refs(Rest(nodes[x]), d) == if d != ROOTINO && x == Up(nodes[d]) then 1 else 0
  {
    assert NamedOnce(x, nodes[x], d, nodes[d]);
  }

  lemma OneLink(nodes: seq<Node>, dp: nat, k: nat, ip: nat)
    requires Inv(nodes) && dp < |nodes| && Live(nodes[dp]) && 2 <= k < |nodes[dp].entries|
      && nodes[dp].entries[k].inum == ip
    requires 0 < ip < |nodes| && nodes[dp].entries[k].name != "." && Live(nodes[ip]) && Empty(nodes[ip].entries)
    ensures nodes[ip].nlink == 1
  {
    EmptyDir(nodes, dp, k, ip);
    forall x | 0 <= x < |nodes| && x != dp ensures From(nodes[x], ip) == 0 {
      if Live(nodes[x]) {
        DirAt(nodes, x);
        RefsSplit(nodes[x], x, ip);
      }
    }
    CountOnly(nodes, dp, ip);
    DirAt(nodes, dp);
    RefsSplit(nodes[dp], dp, ip);
    assert nodes[ip].nlink == Count(nodes, ip);
  }

  /** The parent keeps a link: its own name, or ".." of the root. */
  lemma ParentStays(nodes: seq<Node>, dp: nat, ip: nat)
    requires Inv(nodes) && 0 < dp < |nodes| && Live(nodes[dp]) && ip < |nodes| && Live(nodes[ip])
      && Up(nodes[ip]) == dp && Up(nodes[dp]) != ip && dp != ip
    ensures nodes[dp].nlink >= 2
  {
    var y := if dp == ROOTINO then ROOTINO else Up(nodes[dp]);
    DirAt(nodes, dp);
    DirAt(nodes, ip);
    DirAt(nodes, y);
    assert NamedOnce(y, nodes[y], dp, nodes[dp]);
    RefsSplit(nodes[y], y, dp);
    RefsSplit(nodes[ip], ip, dp);
    var none := nodes[ip := Node(Free, 0, [])];
    CountUpdate(nodes, ip, Node(Free, 0, []), dp);
    CountAtLeast(none, y, dp);
    assert nodes[dp].nlink == Count(nodes, dp);
  }

  /** The last part of unlink for a directory. */
  lemma DirLost(nodes: seq<Node>, dp: nat, k: nat, ip: nat)
    requires Inv(nodes) && dp < |nodes| && Live(nodes[dp]) && 2 <= k < |nodes[dp].entries|
      && nodes[dp].entries[k].inum == ip
    requires 0 < ip < |nodes| && nodes[dp].entries[k].name != "." && Live(nodes[ip]) && Empty(nodes[ip].entries)
    ensures nodes[dp].nlink >= 2 && nodes[ip].nlink == 1 && dp != ip
    ensures Inv(nodes[dp := Cleared(nodes[dp], k, nodes[dp].nlink - 1)][ip := nodes[ip].(nlink := nodes[ip].nlink - 1)])
  {
    hide DirsOk, OnceOk, LinksOk;
    EmptyDir(nodes, dp, k, ip);
    OneLink(nodes, dp, k, ip);
    ParentStays(nodes, dp, ip);
    var nodes' :=
      nodes[dp := Cleared(nodes[dp], k, nodes[dp].nlink - 1)][ip := nodes[ip].(nlink := nodes[ip].nlink - 1)];
    DirLostLinks(nodes, dp, k, ip);
    LostDirs(nodes, nodes', dp, k, ip);
    LostOnce(nodes, nodes', dp, k, ip);
    DirAt(nodes, ip);
  }

  lemma DirLostLinks(nodes: seq<Node>, dp: nat, k: nat, ip: nat)
    requires Tree(nodes) && LinksOk(nodes) && dp < |nodes| && Live(nodes[dp]) && 2 <= k < |nodes[dp].entries|
      && nodes[dp].entries[k].inum == ip && dp != ip
    requires 0 < ip < |nodes| && nodes[dp].entries[k].name != "." && Live(nodes[ip]) && Empty(nodes[ip].entries)
    requires nodes[dp].nlink >= 2 && nodes[ip].nlink == 1 && Up(nodes[ip]) == dp
    ensures LinksOk(nodes[dp := Cleared(nodes[dp], k, nodes[dp].nlink - 1)][ip :=
      nodes[ip].(nlink := nodes[ip].nlink - 1)])
  {
    hide Tree, Count, Empty;
    var nodes' :=
      nodes[dp := Cleared(nodes[dp], k, nodes[dp].nlink - 1)][ip := nodes[ip].(nlink := nodes[ip].nlink - 1)];
    forall t | 0 < t < |nodes'| ensures nodes'[t].nlink == Count(nodes', t) {
      assert nodes[t].nlink == Count(nodes, t);
      DirLostCount(nodes, dp, k, ip, t);
    }
  }

  lemma DirLostCount(nodes: seq<Node>, dp: nat, k: nat, ip: nat, t: nat)
    requires Tree(nodes) && dp < |nodes| && Live(nodes[dp]) && 2 <= k < |nodes[dp].entries|
      && nodes[dp].entries[k].inum == ip && dp != ip
    requires 0 < ip < |nodes| && nodes[dp].entries[k].name != "." && Live(nodes[ip]) && Empty(nodes[ip].entries)
    requires nodes[dp].nlink >= 2 && nodes[ip].nlink == 1 && Up(nodes[ip]) == dp && t > 0
    ensures Count(nodes[dp := Cleared(nodes[dp], k, nodes[dp].nlink - 1)][ip :=
      nodes[ip].(nlink := nodes[ip].nlink - 1)], t)
      == Count(nodes, t) - (if t == ip || t == dp then 1 else 0)
  {
    hide DirsOk, OnceOk, OutOk, Count, Refs;
    var dp', ip' := Cleared(nodes[dp], k, nodes[dp].nlink - 1), nodes[ip].(nlink := nodes[ip].nlink - 1);
    DirAt(nodes, ip);
    CountUpdate(nodes, dp, dp', t);
    CountUpdate(nodes[dp := dp'], ip, ip', t);
    ClearedRest(nodes[dp], k, nodes[dp].nlink - 1, t);
    RefsSplit(nodes[ip], ip, t);
    EmptyRefs(Rest(nodes[ip]), t);
  }
}
