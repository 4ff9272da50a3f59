/** kernel/sysfile.c: the operations that change links, and what they do to link counts. */
module LinkOps {
  import opened Basics
  import opened DirTree
  import opened Links

  datatype Created = Made(inum: nat) | Found(inum: nat) | Refused | Panic

  predicate Matches(e: Dirent, name: string) {
    e.inum != 0 && e.name == name
  }

  // ------------------------------------------------- entries made in a directory out of the tree

  lemma DeadFile(nodes: seq<Node>, dp: nat, es: seq<Dirent>, q: nat, qn: Node)
    requires Inv(nodes) && dp < |nodes| && !Live(nodes[dp]) && 0 < q < |nodes| && q != dp && !Live(nodes[q])
      && !Live(qn) && qn.nlink == More(nodes[q].nlink)
    ensures !LinksOk(nodes[q := qn][dp := nodes[dp].(entries := es)])
  {
    var nodes' := nodes[q := qn][dp := nodes[dp].(entries := es)];
    CountUpdate(nodes, q, qn, q);
    CountUpdate(nodes[q := qn], dp, nodes[dp].(entries := es), q);
    assert nodes[q].nlink == Count(nodes, q);
    assert nodes'[q].nlink != Count(nodes', q);
  }

  lemma DeadDir(nodes: seq<Node>, dp: nat, es: seq<Dirent>, e: Dirent)
    requires Inv(nodes) && dp < |nodes| && nodes[dp].kind.Dir? && nodes[dp].nlink == 0
      && Inserted(nodes[dp].entries, e, es)
    requires 0 < e.inum < |nodes| && nodes[e.inum].kind.Free? && e.name != "."
    ensures !LinksOk(WithDir(nodes, dp, es, e.inum))
  {
    var q, u := e.inum, Up(nodes[dp]);
    var nodes' := WithDir(nodes, dp, es, q);
    assert Barren(nodes[dp], dp) && u < |nodes|;
    var made, dp' := Node(Dir, 1, [Dirent(q, "."), Dirent(dp, "..")]), Node(nodes[dp].kind, More(nodes[dp].nlink), es);
    CountUpdate(nodes, q, made, u);
    CountUpdate(nodes[q := made], dp, dp', u);
    NewDirRefs(q, dp, u);
    InsertedRefs(nodes[dp].entries, e, es, u);
    RefsSplit(nodes[dp], dp, u);
    assert nodes[u].nlink == Count(nodes, u);
    assert nodes'[u].nlink < Count(nodes', u);
  }

  /** The entry is in the first place that was free, or at the end. */
  predicate PlacedAt(es: seq<Dirent>, e: Dirent, k: nat, es': seq<Dirent>) {
    && k <= |es| && (forall j | 0 <= j < k :: es[j].inum != 0)
    && (if k < |es| then es[k].inum == 0 && es' == es[k := e] else es' == es + [e])
  }

  ghost predicate FirstPlace(es: seq<Dirent>, e: Dirent, es': seq<Dirent>) {
    exists k :: PlacedAt(es, e, k, es')
  }

  ghost predicate Taken(es: seq<Dirent>, name: string) {
    exists k | 0 <= k < |es| :: Matches(es[k], name)
  }

  /** Entry k is the one that dirlookup() finds. */
  ghost predicate FirstMatch(es: seq<Dirent>, name: string, k: nat) {
    k < |es| && Matches(es[k], name) && forall j | 0 <= j < k :: !Matches(es[j], name)
  }

  /** Directories go only when they are empty. */
  ghost predicate MayGo(nodes: seq<Node>, ip: nat) {
    ip < |nodes| && (nodes[ip].kind.Dir? ==> Empty(nodes[ip].entries))
  }

  class FileTree {
    var nodes: seq<Node>

    /** dirlookup(): the first entry with that name. */
    method Dirlookup(dp: nat, name: string) returns (r: Option<nat>)
      requires dp < |nodes|
      ensures r.None? <==> forall k | 0 <= k < |nodes[dp].entries| :: !Matches(nodes[dp].entries[k], name)
      ensures r.Some? ==> r.value < |nodes[dp].entries| && Matches(nodes[dp].entries[r.value], name)
      ensures r.Some? ==> forall k | 0 <= k < r.value :: !Matches(nodes[dp].entries[k], name)
    {
      var es := nodes[dp].entries;
      for off := 0 to |es|
        invariant forall k | 0 <= k < off :: !Matches(es[k], name)
      {
        if es[off].inum != 0 && es[off].name == name { return Some(off); }
      }
      return None;
    }

    /** dirlink(): a new entry, unless the name is taken. */
    method Dirlink(dp: nat, name: string, inum: nat) returns (ok: bool)
      requires dp < |nodes|
      modifies this
      ensures ok <==> forall k | 0 <= k < |old(nodes)[dp].entries| :: !Matches(old(nodes)[dp].entries[k], name)
      ensures !ok ==> nodes == old(nodes)
      ensures |nodes| == |old(nodes)|
      ensures ok ==> Inserted(old(nodes)[dp].entries, Dirent(inum, name), nodes[dp].entries)
      ensures ok ==> FirstPlace(old(nodes)[dp].entries, Dirent(inum, name), nodes[dp].entries)
      ensures ok ==> nodes == old(nodes)[dp := old(nodes)[dp].(entries := nodes[dp].entries)]
    {
      var there := Dirlookup(dp, name);
      if there.Some? { return false; }
      var es := nodes[dp].entries;
      var off := 0;
      while off < |es| && es[off].inum != 0
        invariant off <= |es| && forall k | 0 <= k < off :: es[k].inum != 0
      {
        off := off + 1;
      }
      var e := Dirent(inum, name);
      assert PlacedAt(es, e, off, if off < |es| then es[off := e] else es + [e]);
      nodes := nodes[dp := nodes[dp].(entries := if off < |es| then es[off := e] else es + [e])];
      return true;
    }

    /** isdirempty() */
    method Isdirempty(dp: nat) returns (b: bool)
      requires dp < |nodes|
      ensures b <==> Empty(nodes[dp].entries)
    {
      var off := 2;
      while off < |nodes[dp].entries|
        invariant 2 <= off && forall k | 2 <= k < off && k < |nodes[dp].entries| :: nodes[dp].entries[k].inum == 0
      {
        if nodes[dp].entries[off].inum != 0 { return false; }
        off := off + 1;
      }
      return true;
    }

    /** sys_link(), after the two paths have been looked up; dp is None if the second does not resolve. */
    method Link(ip: nat, dp: Option<nat>, name: string) returns (ok: bool)
      requires Inv(nodes) && 0 < ip < |nodes| && !nodes[ip].kind.Free?
        && (dp.Some? ==> dp.value < |nodes| && nodes[dp.value].kind.Dir?)
      modifies this
      ensures |nodes| == |old(nodes)| && (!ok ==> nodes == old(nodes))
      ensures ok <==> !old(nodes)[ip].kind.Dir? && dp.Some? && !Taken(old(nodes)[dp.value].entries, name)
      ensures ok ==> Enters(old(nodes), ip, dp.value, name, nodes)
      ensures ok ==> var safe := Live(old(nodes)[dp.value]) && old(nodes)[ip].nlink < SHRT_MAX;
        (Inv(nodes) <==> safe) && (LinksOk(nodes) <==> safe)
    {
      hide Inv, Inserted, FirstPlace;
      if nodes[ip].kind.Dir? { return false; }
      nodes := nodes[ip := nodes[ip].(nlink := More(nodes[ip].nlink))];
      if dp.None? {
        nodes := nodes[ip := nodes[ip].(nlink := Less(nodes[ip].nlink))];
        assert nodes == old(nodes);
        return false;
      }
      ok := Dirlink(dp.value, name, ip);
      if !ok {
        nodes := nodes[ip := nodes[ip].(nlink := Less(nodes[ip].nlink))];
        assert nodes == old(nodes);
        return;
      }
      LinkResult(old(nodes), nodes, ip, dp.value, name);
    }

    /** sys_unlink(), after the path has been looked up. The check on nlink never fails. */
    method Unlink(dp: nat, name: string) returns (ok: bool, ghost panics: bool)
      requires Inv(nodes) && dp < |nodes| && nodes[dp].kind.Dir?
      modifies this
      ensures Inv(nodes) && !panics && |nodes| == |old(nodes)| && (!ok ==> nodes == old(nodes))
      ensures ok <==> name != "." && name != ".." && exists k: nat ::
        FirstMatch(old(nodes)[dp].entries, name, k) && MayGo(old(nodes), old(nodes)[dp].entries[k].inum)
      ensures ok ==> exists k: nat :: Removes(old(nodes), dp, name, k, nodes)
    {
      hide Inv, Empty;
      panics := false;
      if name == "." || name == ".." { return false, false; }
      var r := Dirlookup(dp, name);
      if r.None? { return false, false; }
      var k := r.value;
      OnlyFirst(nodes[dp].entries, name, k);
      var ip := nodes[dp].entries[k].inum;
      FoundEntry(nodes, dp, k, name);
      if nodes[ip].nlink < 1 { panics := true; return false, true; }
      ghost var expected :=
        nodes[dp := Cleared(nodes[dp], k, nodes[dp].nlink)][ip := nodes[ip].(nlink := nodes[ip].nlink - 1)];
      if nodes[ip].kind.Dir? {
        var empty := Isdirempty(ip);
        if !empty { return false, false; }
        DirLost(nodes, dp, k, ip);
        expected :=
          nodes[dp := Cleared(nodes[dp], k, nodes[dp].nlink - 1)][ip := nodes[ip].(nlink := nodes[ip].nlink - 1)];
      } else {
        FileLost(nodes, dp, k, ip);
      }
      nodes := nodes[dp := nodes[dp].(entries := nodes[dp].entries[k := Dirent(0, "")])];
      if nodes[ip].kind.Dir? {
        nodes := nodes[dp := nodes[dp].(nlink := Less(nodes[dp].nlink))];
      }
      nodes := nodes[ip := nodes[ip].(nlink := Less(nodes[ip].nlink))];
      assert nodes == expected;
      assert Removes(old(nodes), dp, name, k, nodes);
      return true, false;
    }

    /** ialloc(): the first free inode. */
    method Ialloc() returns (r: Option<nat>)
      ensures r.Some? ==> 0 < r.value < |nodes| && nodes[r.value].kind.Free? && forall i | 0 < i < r.value ::
        !nodes[i].kind.Free?
      ensures r.None? ==> forall i | 0 < i < |nodes| :: !nodes[i].kind.Free?
    {
      var inum := 1;
      while inum < |nodes|
        invariant 1 <= inum && forall i | 0 < i < inum && i < |nodes| :: !nodes[i].kind.Free?
      {
        if nodes[inum].kind.Free? { return Some(inum); }
        inum := inum + 1;
      }
      return None;
    }

    /** create(): link counts stay right exactly when the directory is still in the tree. */
    method Create(dp: nat, name: string, kind: Kind) returns (r: Created)
      requires Inv(nodes) && dp < |nodes| && nodes[dp].kind.Dir? && !kind.Free?
      modifies this
      ensures |nodes| == |old(nodes)| && (!r.Made? ==> nodes == old(nodes))
      ensures r.Found? || r.Refused? <==> Taken(old(nodes)[dp].entries, name)
      ensures r.Found? <==> kind.File? && exists k: nat ::
        FirstMatch(old(nodes)[dp].entries, name, k) && IsFile(nodes, nodes[dp].entries[k].inum)
      ensures r.Found? ==> exists k: nat ::
        FirstMatch(nodes[dp].entries, name, k) && nodes[dp].entries[k].inum == r.inum
      ensures r.Panic? ==> forall i | 0 < i < |nodes| :: !nodes[i].kind.Free?
      ensures r.Made? ==> Makes(old(nodes), dp, name, kind, r.inum, nodes)
      ensures r.Made? ==> var safe := Live(old(nodes)[dp]) && (kind.Dir? ==> old(nodes)[dp].nlink < SHRT_MAX);
        (Inv(nodes) <==> safe) && (LinksOk(nodes) <==> safe)
    {
      hide Inv, Inserted, FirstPlace, Taken;
      var there := Dirlookup(dp, name);
      TakenIs(nodes[dp].entries, name);
      if there.Some? {
        OnlyFirst(nodes[dp].entries, name, there.value);
        var ip := nodes[dp].entries[there.value].inum;
        if kind.File? && IsFile(nodes, ip) { return Found(ip); }
        return Refused;
      }
      NotDots(nodes, dp, name);
      var a := Ialloc();
      if a.None? { return Panic; }
      var q := a.value;
      nodes := nodes[q := Node(kind, 1, [])];
      if kind.Dir? {
        nodes := nodes[dp := nodes[dp].(nlink := More(nodes[dp].nlink))];
        Dots(q, dp);
      }
      var ok := Dirlink(dp, name, q);
      assert ok;
      CreateResult(old(nodes), nodes, dp, q, name, kind);
      return Made(q);
    }

    /** The entries "." and ".." of a new directory. */
    method Dots(q: nat, dp: nat)
      requires 0 < q < |nodes| && nodes[q].entries == []
      modifies this
      ensures nodes == old(nodes)[q := old(nodes)[q].(entries := [Dirent(q, "."), Dirent(dp, "..")])]
    {
      hide Inserted;
      var dot := Dirlink(q, ".", q);
      FirstOfTwo(nodes[q].entries, Dirent(q, "."));
      var dotdot := Dirlink(q, "..", dp);
      assert dot && dotdot;
      SecondOfTwo(Dirent(q, "."), Dirent(dp, ".."), nodes[q].entries, q);
    }

    /** iput() of the last reference to an inode without links. */
    method Release(ip: nat)
      requires Inv(nodes) && 0 < ip < |nodes| && nodes[ip].nlink == 0
      modifies this
      ensures Inv(nodes) && nodes == old(nodes)[ip := Node(Free, 0, [])]
    {
      ReleasedTree(nodes, ip);
      nodes := nodes[ip := Node(Free, 0, [])];
    }
  }

  /** create(): a free inode q gets one link and its name in dp. */
  ghost predicate Makes(nodes: seq<Node>, dp: nat, name: string, kind: Kind, q: nat, nodes': seq<Node>) {
    && dp < |nodes| == |nodes'| && nodes[dp].kind.Dir? && !kind.Free? && 0 < q < |nodes| && nodes[q].kind.Free?
    && !Taken(nodes[dp].entries, name) && FirstPlace(nodes[dp].entries, Dirent(q, name), nodes'[dp].entries)
    && nodes' == MadeIn(nodes, dp, nodes'[dp].entries, q, kind)
  }

  /** sys_link(): inode ip gets one link more and a name in dp. */
  ghost predicate Enters(nodes: seq<Node>, ip: nat, dp: nat, name: string, nodes': seq<Node>) {
    && dp < |nodes| == |nodes'| && nodes[dp].kind.Dir? && 0 < ip < |nodes| && !nodes[ip].kind.Free?
    && !nodes[ip].kind.Dir?
    && !Taken(nodes[dp].entries, name) && FirstPlace(nodes[dp].entries, Dirent(ip, name), nodes'[dp].entries)
    && nodes' ==
       nodes[ip := nodes[ip].(nlink := More(nodes[ip].nlink))][dp := nodes[dp].(entries := nodes'[dp].entries)]
  }

  /** sys_unlink(): entry k is cleared and its inode has one link less, and so has dp if that was a directory. */
  ghost predicate Removes(nodes: seq<Node>, dp: nat, name: string, k: nat, nodes': seq<Node>) {
    && dp < |nodes| && nodes[dp].kind.Dir? && name != "." && name != ".." && FirstMatch(nodes[dp].entries, name, k)
    && MayGo(nodes, nodes[dp].entries[k].inum)
    && var ip := nodes[dp].entries[k].inum;
      var cleared := Cleared(nodes[dp], k, if nodes[ip].kind.Dir? then Less(nodes[dp].nlink) else nodes[dp].nlink);
      nodes[ip].nlink >= 1 && nodes' == Unlinked(nodes[dp := cleared], ip)
  }

  function Unlinked(nodes: seq<Node>, ip: nat): seq<Node>
    requires ip < |nodes|
  {
    nodes[ip := nodes[ip].(nlink := Less(nodes[ip].nlink))]
  }

  predicate IsFile(nodes: seq<Node>, ip: nat) {
    ip < |nodes| && nodes[ip].kind.File?
  }

  /** A new inode q with one link, named by the entries es of dp. */
  ghost function MadeIn(nodes: seq<Node>, dp: nat, es: seq<Dirent>, q: nat, kind: Kind): seq<Node>
    requires dp < |nodes| && q < |nodes|
  {
    if kind.Dir? then WithDir(nodes, dp, es, q) else nodes[q := Node(kind, 1, [])][dp := nodes[dp].(entries := es)]
  }

  lemma OnlyFirst(es: seq<Dirent>, name: string, k: nat)
    requires k < |es| && Matches(es[k], name) && forall j | 0 <= j < k :: !Matches(es[j], name)
    ensures FirstMatch(es, name, k) && forall j: nat | FirstMatch(es, name, j) :: j == k
  { }

  lemma TakenIs(es: seq<Dirent>, name: string)
    ensures Taken(es, name) <==> exists k | 0 <= k < |es| :: Matches(es[k], name)
  { }

  lemma FirstOfTwo(es: seq<Dirent>, e: Dirent)
    requires FirstPlace([], e, es)
    ensures es == [e]
  { }

  lemma SecondOfTwo(e: Dirent, f: Dirent, es: seq<Dirent>, q: nat)
    requires FirstPlace([e], f, es) && e.inum != 0
    ensures es == [e, f]
  { }

  lemma NotNegative(nodes: seq<Node>, t: nat)
    requires Inv(nodes) && t < |nodes|
    ensures nodes[t].nlink >= 0
  {
    if t > 0 { assert nodes[t].nlink == Count(nodes, t); }
  }

  lemma FoundLive(nodes: seq<Node>, dp: nat, k: nat, name: string)
    requires Inv(nodes) && dp < |nodes| && nodes[dp].kind.Dir? && k < |nodes[dp].entries|
      && Matches(nodes[dp].entries[k], name) && name != "." && name != ".."
    ensures Live(nodes[dp]) && k >= 2
  {
    hide DirsOk, OnceOk, OutOk, LinksOk;
    NotNegative(nodes, dp);
    OutAt(nodes, dp);
    if nodes[dp].nlink > 0 { DirAt(nodes, dp); }
  }

  /** An entry other than "." and ".." is found in a live directory only, and names an inode with links. */
  lemma FoundEntry(nodes: seq<Node>, dp: nat, k: nat, name: string)
    requires Inv(nodes) && dp < |nodes| && nodes[dp].kind.Dir? && k < |nodes[dp].entries|
      && Matches(nodes[dp].entries[k], name) && name != "." && name != ".."
    ensures Live(nodes[dp]) && k >= 2 && 0 < nodes[dp].entries[k].inum < |nodes|
      && nodes[nodes[dp].entries[k].inum].nlink > 0
  {
    hide OnceOk, OutOk, Refs, Count;
    var ip := nodes[dp].entries[k].inum;
    FoundLive(nodes, dp, k, name);
    assert DirOk(nodes, dp);
    assert Rest(nodes[dp])[k - 2] == nodes[dp].entries[k];
    assert EntryOk(nodes, Rest(nodes[dp])[k - 2]);
    RefsAtLeast(nodes[dp].entries, k, ip);
    CountAtLeast(nodes, dp, ip);
    assert nodes[ip].nlink == Count(nodes, ip);
  }

  lemma OutAt(nodes: seq<Node>, d: nat)
    requires OutOk(nodes) && d < |nodes| && nodes[d].kind.Dir?
    ensures nodes[d].nlink == 0 ==> Barren(nodes[d], d)
  { }

  /** A name that is free in a directory is neither "." nor "..". */
  lemma NotDots(nodes: seq<Node>, dp: nat, name: string)
    requires Inv(nodes) && dp < |nodes| && nodes[dp].kind.Dir? && forall k | 0 <= k < |nodes[dp].entries| ::
      !Matches(nodes[dp].entries[k], name)
    ensures name != "." && name != ".."
  {
    if nodes[dp].nlink > 0 { DirAt(nodes, dp); } else { assert Barren(nodes[dp], dp); }
    assert !Matches(nodes[dp].entries[0], name) && !Matches(nodes[dp].entries[1], name);
  }

  lemma LinkResult(nodes: seq<Node>, nodes': seq<Node>, ip: nat, dp: nat, name: string)
    requires Inv(nodes) && 0 < ip < |nodes| && !nodes[ip].kind.Free? && !nodes[ip].kind.Dir?
      && dp < |nodes| == |nodes'| && nodes[dp].kind.Dir?
    requires forall k | 0 <= k < |nodes[dp].entries| :: !Matches(nodes[dp].entries[k], name)
    requires Inserted(nodes[dp].entries, Dirent(ip, name), nodes'[dp].entries)
    requires nodes' ==
      nodes[ip := nodes[ip].(nlink := More(nodes[ip].nlink))][dp := nodes[dp].(entries := nodes'[dp].entries)]
    ensures var safe := Live(nodes[dp]) && nodes[ip].nlink < SHRT_MAX;
      (Inv(nodes') <==> safe) && (LinksOk(nodes') <==> safe)
  {
    hide DirsOk, OnceOk, Inserted;
    var e, qn := Dirent(ip, name), nodes[ip].(nlink := More(nodes[ip].nlink));
    NotDots(nodes, dp, name);
    if nodes[ip].nlink == SHRT_MAX {
      assert nodes'[ip].nlink != Count(nodes', ip);
    } else if Live(nodes[dp]) {
      TreeGains(nodes, dp, nodes'[dp].entries, e, qn);
      forall t | 0 < t < |nodes'| ensures nodes'[t].nlink == Count(nodes', t) {
        LinksGain(nodes, dp, nodes'[dp].entries, e, qn, t);
        assert nodes[t].nlink == Count(nodes, t);
      }
    } else {
      DeadFile(nodes, dp, nodes'[dp].entries, ip, qn);
    }
  }

  lemma CreateResult(nodes: seq<Node>, nodes': seq<Node>, dp: nat, q: nat, name: string, kind: Kind)
    requires Inv(nodes) && 0 < q < |nodes| == |nodes'| && nodes[q].kind.Free? && dp < |nodes| && nodes[dp].kind.Dir?
      && name != "." && name != ".." && !kind.Free?
    requires Inserted(nodes[dp].entries, Dirent(q, name), nodes'[dp].entries)
    requires nodes' == if kind.Dir? then WithDir(nodes, dp, nodes'[dp].entries, q)
      else nodes[q := Node(kind, 1, [])][dp := nodes[dp].(entries := nodes'[dp].entries)]
    ensures var safe := Live(nodes[dp]) && (kind.Dir? ==> nodes[dp].nlink < SHRT_MAX);
      (Inv(nodes') <==> safe) && (LinksOk(nodes') <==> safe)
  {
    hide DirsOk, OnceOk, Inserted;
    var e, es := Dirent(q, name), nodes'[dp].entries;
    if kind.Dir? && nodes[dp].nlink == SHRT_MAX {
      assert nodes'[dp].nlink != Count(nodes', dp);
    } else if kind.Dir? && Live(nodes[dp]) {
      MkdirTree(nodes, dp, es, e);
      forall t | 0 < t < |nodes'| ensures nodes'[t].nlink == Count(nodes', t) {
        DirLinks(nodes, dp, es, e, t);
        assert nodes[t].nlink == Count(nodes, t);
      }
    } else if kind.Dir? {
      DeadDir(nodes, dp, es, e);
    } else if Live(nodes[dp]) {
      TreeGains(nodes, dp, es, e, Node(kind, 1, []));
      forall t | 0 < t < |nodes'| ensures nodes'[t].nlink == Count(nodes', t) {
        LinksGain(nodes, dp, es, e, Node(kind, 1, []), t);
        assert nodes[t].nlink == Count(nodes, t);
      }
    } else {
      DeadFile(nodes, dp, es, q, Node(kind, 1, []));
    }
  }

  lemma ReleasedLinks(nodes: seq<Node>, ip: nat)
    requires LinksOk(nodes) && 0 < ip < |nodes| && nodes[ip].nlink == 0
    ensures LinksOk(nodes[ip := Node(Free, 0, [])])
  {
    var nodes' := nodes[ip := Node(Free, 0, [])];
    forall t | 0 < t < |nodes'| ensures nodes'[t].nlink == Count(nodes', t) {
      CountUpdate(nodes, ip, Node(Free, 0, []), t);
      assert nodes[t].nlink == Count(nodes, t);
    }
  }

  lemma ReleasedDirs(nodes: seq<Node>, ip: nat)
    requires DirsOk(nodes) && 0 < ip < |nodes| && nodes[ip].nlink == 0
    ensures DirsOk(nodes[ip := Node(Free, 0, [])])
  {
    var nodes' := nodes[ip := Node(Free, 0, [])];
    hide Rest, Up, DotsOk;
    forall d | 0 <= d < |nodes'| && Live(nodes'[d]) ensures DirOk(nodes', d) { assert DirOk(nodes, d); }
  }

  lemma ReleasedOnce(nodes: seq<Node>, ip: nat)
    requires OnceOk(nodes) && 0 < ip < |nodes| && nodes[ip].nlink == 0
    ensures OnceOk(nodes[ip := Node(Free, 0, [])])
  {
    hide NamedOnce;
  }

  lemma ReleasedTree(nodes: seq<Node>, ip: nat)
    requires Inv(nodes) && 0 < ip < |nodes| && nodes[ip].nlink == 0
    ensures Inv(nodes[ip := Node(Free, 0, [])])
  {
    hide DirsOk, OnceOk, LinksOk;
    ReleasedLinks(nodes, ip);
    ReleasedDirs(nodes, ip);
    ReleasedOnce(nodes, ip);
  }
}
