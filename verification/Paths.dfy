/** kernel/fs.c: path names, the inode cache, and namex(). */
module Paths {
  import opened Basics
  import opened DirTree

  const ROOTDEV: nat := 1

  // ------------------------------------------------- path elements

  /** Length of the first element of a path that does not start with a slash. */
  function Len(s: string): (n: nat)
    ensures n <= |s| && (n < |s| ==> s[n] == '/') && '/' !in s[..n] && (s != "" && s[0] != '/' ==> n > 0)
  {
    if s == "" || s[0] == '/' then 0
    else
      var n := Len(s[1..]);
      assert s[..n + 1] == [s[0]] + s[1..][..n];
      n + 1
  }

  function Cut(e: string): string {
    if |e| >= DIRSIZ then e[..DIRSIZ] else e
  }

  /** The elements between the slashes, each cut to DIRSIZ bytes. */
  function Elements(s: string): seq<string>
    decreases |s|
  {
    if s == "" then []
    else if s[0] == '/' then Elements(s[1..])
    else [Cut(s[..Len(s)])] + Elements(s[Len(s)..])
  }

  /** skipelem(): the next element, and where the one after it starts. */
  method Skipelem(path: string, p0: nat) returns (r: Option<nat>, name: string)
    requires p0 <= |path|
    ensures r.None? <==> Elements(path[p0..]) == []
    ensures r.Some? ==> p0 < r.value <= |path| && Elements(path[p0..]) == [name] + Elements(path[r.value..])
    ensures r.Some? && r.value < |path| ==> path[r.value] != '/'
  {
    var p := Slashes(path, p0);
    if p == |path| { return None, ""; }
    var s := p;
    while p < |path| && path[p] != '/'
      invariant s <= p <= |path| && Len(path[s..]) == p - s + Len(path[p..])
    {
      assert path[p..][1..] == path[p + 1..];
      p := p + 1;
    }
    ElementsAt(path, s, p);
    hide Elements, Len;
    var len := p - s;
    name := if len >= DIRSIZ then path[s..s + DIRSIZ] else path[s..p];
    SameCut(path, s, p);
    p := Slashes(path, p);
    return Some(p), name;
  }

  lemma ElementsAt(path: string, s: nat, p: nat)
    requires s <= p <= |path| && s < |path| && path[s] != '/' && Len(path[s..]) == p - s
    ensures p > s && Elements(path[s..]) == [Cut(path[s..p])] + Elements(path[p..])
  {
    assert path[s..][..p - s] == path[s..p] && path[s..][p - s..] == path[p..];
  }

  lemma SameCut(path: string, s: nat, p: nat)
    requires s <= p <= |path|
    ensures Cut(path[s..p]) == if p - s >= DIRSIZ then path[s..s + DIRSIZ] else path[s..p]
  { }

  method Slashes(path: string, p0: nat) returns (p: nat)
    requires p0 <= |path|
    ensures p0 <= p <= |path| && Elements(path[p..]) == Elements(path[p0..]) && (p < |path| ==> path[p] != '/')
  {
    p := p0;
    while p < |path| && path[p] == '/'
      invariant p0 <= p <= |path| && Elements(path[p..]) == Elements(path[p0..])
    {
      assert path[p..][1..] == path[p + 1..];
      p := p + 1;
    }
  }

  // ------------------------------------------------- what a path means

  /** The inode that the first entry with that name names. */
  function Lookup(es: seq<Dirent>, name: string): Option<nat> {
    if |es| == 0 then None
    else if es[0].inum != 0 && es[0].name == name then Some(es[0].inum)
    else Lookup(es[1..], name)
  }

  /** Looking up one element after the other. */
  function Resolve(nodes: seq<Node>, at: nat, elems: seq<string>): Option<nat>
    decreases |elems|
  {
    if elems == [] then Some(at)
    else if at >= |nodes| || !nodes[at].kind.Dir? then None
    else
      match Lookup(nodes[at].entries, elems[0])
      case None => None
      case Some(next) => Resolve(nodes, next, elems[1..])
  }

  /** The directory of the last element. */
  function ResolveParent(nodes: seq<Node>, at: nat, elems: seq<string>): Option<nat> {
    if elems == [] then None
    else
      match Resolve(nodes, at, elems[..|elems| - 1])
      case None => None
      case Some(d) => if d < |nodes| && nodes[d].kind.Dir? then Some(d) else None
  }

  lemma ParentStep(nodes: seq<Node>, at: nat, elems: seq<string>)
    requires |elems| >= 2 && at < |nodes| && nodes[at].kind.Dir?
    ensures ResolveParent(nodes, at, elems) ==
      match Lookup(nodes[at].entries, elems[0])
        case None => None case Some(next) => ResolveParent(nodes, next, elems[1..])
  {
    assert elems[..|elems| - 1][0] == elems[0];
    assert elems[..|elems| - 1][1..] == elems[1..][..|elems[1..]| - 1];
  }

  // ------------------------------------------------- the inode cache

  datatype Slot = Slot(dev: nat, inum: nat, ref: nat, busy: bool, valid: bool)

  function One(s: Slot, dev: nat, inum: nat): nat {
    if s.dev == dev && s.inum == inum then s.ref else 0
  }

  /** References to an inode, over all entries of the cache. */
  function Ref(slots: seq<Slot>, dev: nat, inum: nat): nat {
    if |slots| == 0 then 0 else Ref(slots[..|slots| - 1], dev, inum) + One(slots[|slots| - 1], dev, inum)
  }

  lemma {:induction false} RefUpdate(slots: seq<Slot>, i: nat, s: Slot, dev: nat, inum: nat)
    requires i < |slots|
    ensures Ref(slots[i := s], dev, inum) == Ref(slots, dev, inum) - One(slots[i], dev, inum) + One(s, dev, inum)
    decreases |slots|
  {
    var last := |slots| - 1;
    if i == last {
      assert slots[i := s][..last] == slots[..last];
    } else {
      assert slots[i := s][..last] == slots[..last][i := s];
      RefUpdate(slots[..last], i, s, dev, inum);
    }
  }

  /** No inode has two entries in use. */
  ghost predicate Unique(slots: seq<Slot>) {
    forall i, j | 0 <= i < j < |slots| && slots[i].ref > 0 && slots[j].ref > 0 ::
      slots[i].dev != slots[j].dev || slots[i].inum != slots[j].inum
  }

  lemma {:induction false} RefZero(slots: seq<Slot>, dev: nat, inum: nat)
    requires forall i | 0 <= i < |slots| :: One(slots[i], dev, inum) == 0
    ensures Ref(slots, dev, inum) == 0
  {
    if |slots| > 0 { RefZero(slots[..|slots| - 1], dev, inum); }
  }

  /** All references are those of the entry in use. */
  lemma RefIs(slots: seq<Slot>, i: nat)
    requires Unique(slots) && i < |slots| && slots[i].ref > 0
    ensures Ref(slots, slots[i].dev, slots[i].inum) == slots[i].ref
  {
    var none := slots[i := slots[i].(ref := 0)];
    RefUpdate(slots, i, slots[i].(ref := 0), slots[i].dev, slots[i].inum);
    RefZero(none, slots[i].dev, slots[i].inum);
  }

  /** The counts of slots' are those of slots, with n more for one inode. */
  ghost predicate Counts(slots: seq<Slot>, slots': seq<Slot>, dev: nat, inum: nat, n: int) {
    forall d, i :: Ref(slots', d, i) == Ref(slots, d, i) + if d == dev && i == inum then n else 0
  }

  /** No entry in use is locked, and no inode that has been read in is a free one. */
  ghost predicate Quiet(slots: seq<Slot>, nodes: seq<Node>) {
    forall i | 0 <= i < |slots| && slots[i].ref > 0 :: !slots[i].busy && ReadIn(slots[i], nodes)
  }

  predicate ReadIn(s: Slot, nodes: seq<Node>) {
    s.valid && s.dev == ROOTDEV ==> s.inum < |nodes| && !nodes[s.inum].kind.Free?
  }

  /** An inode in use without links is in the cache: iput() frees it otherwise. */
  ghost predicate InCache(nodes: seq<Node>, slots: seq<Slot>) {
    forall t | 0 <= t < |nodes| && !nodes[t].kind.Free? && nodes[t].nlink == 0 :: Ref(slots, ROOTDEV, t) >= 1
  }

  /** Entries of directories are in range, and the root is there. */
  ghost predicate Walkable(nodes: seq<Node>, slots: seq<Slot>) {
    && ROOTINO < |nodes| && nodes[ROOTINO].kind.Dir? && nodes[ROOTINO].nlink > 0
    && (forall d, k | 0 <= d < |nodes| && nodes[d].kind.Dir? && 0 <= k < |nodes[d].entries| ::
       nodes[d].entries[k].inum < |nodes|)
    && InCache(nodes, slots)
  }

  lemma {:induction false} LookupInRange(nodes: seq<Node>, es: seq<Dirent>, name: string)
    requires forall k | 0 <= k < |es| :: es[k].inum < |nodes|
    ensures Lookup(es, name).Some? ==> Lookup(es, name).value < |nodes|
    decreases |es|
  {
    if |es| > 0 { LookupInRange(nodes, es[1..], name); }
  }

  /** The panic on an inode that nobody has a reference to, the sleep on one that is locked, the panic on one
      without a type. */
  datatype Locking = NoReference | Sleeps | Typeless | Locked

  class Inodes {
    var slots: seq<Slot>
    var nodes: seq<Node>

    /** iget(): the entry of the inode, or a free one; None is the panic when there is neither. */
    method Iget(dev: nat, inum: nat) returns (r: Option<nat>)
      requires Unique(slots)
      modifies this`slots
      ensures |slots| == |old(slots)| && Unique(slots)
      ensures r.Some? ==>
        r.value < |slots| && Counts(old(slots), slots, dev, inum, 1) && slots == old(slots)[r.value := slots[r.value]]
      ensures r.Some? ==>
        slots[r.value] == if old(slots)[r.value].ref > 0 then old(slots)[r.value].(ref := old(slots)[r.value].ref + 1)
        else Slot(dev, inum, 1, false, false)
      ensures r.Some? ==> slots[r.value].dev == dev && slots[r.value].inum == inum
      ensures r.None? ==> slots == old(slots) && forall i | 0 <= i < |slots| :: slots[i].ref > 0
    {
      var empty: Option<nat> := None;
      for i := 0 to |slots|
        invariant slots == old(slots) && (empty.Some? ==> empty.value < i && slots[empty.value].ref == 0)
        invariant empty.None? ==> forall j | 0 <= j < i :: slots[j].ref > 0
        invariant forall j | 0 <= j < i && slots[j].ref > 0 :: slots[j].dev != dev || slots[j].inum != inum
      {
        if slots[i].ref > 0 && slots[i].dev == dev && slots[i].inum == inum {
          CountsOne(slots, i, slots[i].(ref := slots[i].ref + 1), dev, inum, 1);
          slots := slots[i := slots[i].(ref := slots[i].ref + 1)];
          return Some(i);
        }
        if empty.None? && slots[i].ref == 0 { empty := Some(i); }
      }
      if empty.None? { return None; }
      CountsOne(slots, empty.value, Slot(dev, inum, 1, false, false), dev, inum, 1);
      slots := slots[empty.value := Slot(dev, inum, 1, false, false)];
      return empty;
    }

    /** idup() */
    method Idup(i: nat)
      requires Unique(slots) && i < |slots| && slots[i].ref > 0
      modifies this`slots
      ensures slots == old(slots)[i := old(slots)[i].(ref := old(slots)[i].ref + 1)]
      ensures Unique(slots) && Counts(old(slots), slots, slots[i].dev, slots[i].inum, 1)
    {
      CountsOne(slots, i, slots[i].(ref := slots[i].ref + 1), slots[i].dev, slots[i].inum, 1);
      slots := slots[i := slots[i].(ref := slots[i].ref + 1)];
    }

    /** ilock() */
    method Ilock(i: nat) returns (r: Locking)
      requires i < |slots| && slots[i].inum < |nodes|
      modifies this`slots
      ensures r.NoReference? <==> old(slots)[i].ref == 0
      ensures r.Sleeps? <==> old(slots)[i].ref > 0 && old(slots)[i].busy
      ensures r.Typeless? ==> !old(slots)[i].valid && nodes[old(slots)[i].inum].kind.Free?
      ensures r.Locked? ==> old(slots)[i].valid || !nodes[old(slots)[i].inum].kind.Free?
      ensures slots == if r.Locked? || r.Typeless?
        then old(slots)[i := old(slots)[i].(busy := true, valid := true)] else old(slots)
      ensures Counts(old(slots), slots, 0, 0, 0) && (Unique(old(slots)) ==> Unique(slots))
    {
      if slots[i].ref < 1 { return NoReference; }
      if slots[i].busy { return Sleeps; }
      SameCounts(slots, i, slots[i].(busy := true, valid := true));
      slots := slots[i := slots[i].(busy := true)];
      if !slots[i].valid {
        slots := slots[i := slots[i].(valid := true)];
        if nodes[slots[i].inum].kind.Free? { return Typeless; }
      }
      return Locked;
    }

    method Iunlock(i: nat)
      requires i < |slots| && slots[i].ref > 0 && slots[i].busy
      modifies this`slots
      ensures slots == old(slots)[i := old(slots)[i].(busy := false)] && Counts(old(slots), slots, 0, 0, 0)
      ensures Unique(old(slots)) ==> Unique(slots)
    {
      SameCounts(slots, i, slots[i].(busy := false));
      slots := slots[i := slots[i].(busy := false)];
    }

    /** iput(): the last reference to an inode without links frees the inode. */
    method Iput(i: nat)
      requires Unique(slots) && i < |slots| && slots[i].ref > 0 && slots[i].inum < |nodes|
      requires LastUse(slots[i], nodes) ==> !slots[i].busy
      modifies this`slots, this`nodes
      ensures var s, gone := old(slots)[i], LastUse(old(slots)[i], old(nodes));
        && slots == old(slots)[i := Slot(s.dev, s.inum, s.ref - 1, s.busy && !gone, s.valid && !gone)]
        && nodes == if gone then old(nodes)[s.inum := Node(Free, 0, [])] else old(nodes)
      ensures Unique(slots) && Counts(old(slots), slots, slots[i].dev, slots[i].inum, -1)
    {
      var gone := LastUse(slots[i], nodes);
      if gone {
        nodes := nodes[slots[i].inum := Node(Free, 0, [])];
        SameCounts(slots, i, slots[i].(busy := false, valid := false));
        slots := slots[i := slots[i].(busy := false, valid := false)];
      }
      ghost var mid := slots;
      CountsOne(slots, i, slots[i].(ref := slots[i].ref - 1), slots[i].dev, slots[i].inum, -1);
      slots := slots[i := slots[i].(ref := slots[i].ref - 1)];
      if gone { CountsAfter(old(slots), mid, slots, slots[i].dev, slots[i].inum, -1); }
    }

    /** The scan of dirlookup(). */
    method Find(inum: nat, name: string) returns (r: Option<nat>)
      requires inum < |nodes|
      ensures r == Lookup(nodes[inum].entries, name)
    {
      var es := nodes[inum].entries;
      var off := 0;
      assert es[0..] == es;
      while off < |es|
        invariant off <= |es| && Lookup(es, name) == Lookup(es[off..], name)
      {
        assert es[off..][1..] == es[off + 1..];
        if es[off].inum != 0 && es[off].name == name { return Some(es[off].inum); }
        off := off + 1;
      }
      return None;
    }

    /** The first reference of namex(): to the root, or to the current directory. */
    method Begin(path: string, cwd: nat) returns (r: Outcome)
      requires Unique(slots) && Quiet(slots, nodes) && Walkable(nodes, slots)
      requires path == "" || path[0] != '/' ==> cwd < |slots| && Held(slots[cwd], nodes)
      modifies this`slots
      ensures r.Panic? || r.Inode?
      ensures r.Panic? ==> |Active(old(slots))| >= |slots| - 1 && |slots| == |old(slots)|
      ensures r.Inode? ==>
        && Unique(slots) && Quiet(slots, nodes) && |slots| == |old(slots)|
        && r.slot < |slots| && Held(slots[r.slot], nodes) && Counts(old(slots), slots, ROOTDEV, slots[r.slot].inum, 1)
        && slots[r.slot].inum == Start(path, old(slots), cwd)
    {
      hide Unique, Counts, Active, Ref;
      if path != "" && path[0] == '/' {
        var root := Iget(ROOTDEV, ROOTINO);
        if root.None? {
          AllActive(slots);
          return Panic;
        }
        return Inode(root.value);
      }
      Idup(cwd);
      return Inode(cwd);
    }

    /** namex(): the element-by-element lookup. Every lock is given back, and every reference but the one
        returned. The cache runs out only if at most one entry was free, and ilock() panics exactly if the
        path leads through a free inode. */
    method Namex(path: string, parent: bool, cwd: nat) returns (r: Outcome, name: string)
      requires Unique(slots) && Quiet(slots, nodes) && Walkable(nodes, slots)
      requires path == "" || path[0] != '/' ==> cwd < |slots| && Held(slots[cwd], nodes)
      modifies this`slots, this`nodes
      ensures |slots| == |old(slots)| && nodes == old(nodes)
      ensures r.Panic? ==> |Active(old(slots))| >= |slots| - 1
      ensures !r.Panic? ==> (r.NoType? <==> Meets(nodes, parent, Start(path, old(slots), cwd), Elements(path)))
      ensures r.NotFound? || r.Inode? ==> Unique(slots) && Quiet(slots, nodes)
      ensures var want := Wanted(nodes, parent, Start(path, old(slots), cwd), Elements(path));
        && (r.NotFound? ==> want == None && Counts(old(slots), slots, 0, 0, 0))
        && (r.Inode? ==>
              && r.slot < |slots| && Held(slots[r.slot], nodes) && want == Some(slots[r.slot].inum)
              && Counts(old(slots), slots, ROOTDEV, slots[r.slot].inum, 1)
              && (parent ==> Elements(path) != [] && name == Elements(path)[|Elements(path)| - 1]))
    {
      hide Unique, Counts, Walkable, Wanted, Meets, Elements, Active, Start, SameLast, Lookup, Ref;
      name := "";
      var from := Begin(path, cwd);
      if from.Panic? { return Panic, name; }
      var ip: nat := from.slot;
      var p := 0;
      assert path[0..] == path;
      LastOfAll(Elements(path));
      while true
        invariant p <= |path| && Unique(slots) && Quiet(slots, nodes) && |slots| == |old(slots)| && nodes == old(nodes)
        invariant ip < |slots| && Held(slots[ip], nodes) && Counts(old(slots), slots, ROOTDEV, slots[ip].inum, 1)
        invariant Wanted(nodes, parent, slots[ip].inum, Elements(path[p..])) ==
          Wanted(nodes, parent, Start(path, old(slots), cwd), Elements(path))
        invariant Meets(nodes, parent, slots[ip].inum, Elements(path[p..])) ==
          Meets(nodes, parent, Start(path, old(slots), cwd), Elements(path))
        invariant parent ==> SameLast(Elements(path[p..]), Elements(path))
        decreases |path| - p
      {
        ghost var es, at := Elements(path[p..]), slots[ip].inum;
        var q, e := Skipelem(path, p);
        if q.None? {
          Ends(nodes, parent, at, es);
          if parent {
            NotLast(nodes, old(slots), slots, ip);
            Iput(ip);
            CountsBack(old(slots), slots, at);
            return NotFound, name;
          }
          return Inode(ip), name;
        }
        name := e;
        LastElement(path, q.value);
        if parent { StillLast(name, Elements(path[q.value..]), Elements(path)); }
        var out := Walk(ip, name, parent && q.value == |path|, old(slots));
        WalkMeans(nodes, at, es, parent, name, Elements(path[q.value..]));
        match out
        case Panic => return Panic, name;
        case NoType => return NoType, name;
        case NotFound => return NotFound, name;
        case Inode(next) =>
          if parent && q.value == |path| { return Inode(next), name; }
          ip := next;
        p := q.value;
      }
    }

    /** One turn of the loop of namex() after skipelem(); last asks to stop at ip. */
    method Walk(ip: nat, name: string, last: bool, ghost slots0: seq<Slot>) returns (r: Outcome)
      requires Unique(slots) && Quiet(slots, nodes) && Walkable(nodes, slots0) && ip < |slots| && Held(slots[ip], nodes)
      requires Counts(slots0, slots, ROOTDEV, slots[ip].inum, 1) && |slots0| == |slots|
      modifies this`slots, this`nodes
      ensures |slots| == |old(slots)| && nodes == old(nodes)
      ensures r.Panic? ==> |Active(slots0)| >= |slots0| - 1
      ensures r.NoType? <==> nodes[old(slots)[ip].inum].kind.Free?
      ensures r.NotFound? || r.Inode? ==> Unique(slots) && Quiet(slots, nodes)
      ensures !nodes[old(slots)[ip].inum].kind.Dir? ==> r.NoType? || r.NotFound?
      ensures r.NotFound? ==>
        && Counts(slots0, slots, 0, 0, 0)
        && (!nodes[old(slots)[ip].inum].kind.Dir? || (!last && Lookup(nodes[old(slots)[ip].inum].entries, name).None?))
      ensures r.Inode? ==>
        && r.slot < |slots| && Held(slots[r.slot], nodes) && Counts(slots0, slots, ROOTDEV, slots[r.slot].inum, 1)
        && nodes[old(slots)[ip].inum].kind.Dir?
        && (if last then slots[r.slot].inum == old(slots)[ip].inum
           else Lookup(nodes[old(slots)[ip].inum].entries, name) == Some(slots[r.slot].inum))
    {
      hide Unique, Counts, Walkable, Lookup, Active;
      var at := slots[ip].inum;
      var lock := Ilock(ip);
      if lock.Typeless? { return NoType; }
      CountsSame(slots0, old(slots), slots, ROOTDEV, at, 1);
      NotLast(nodes, slots0, slots, ip);
      if !nodes[at].kind.Dir? {
        Leave(ip, slots0);
        return NotFound;
      }
      if last {
        ghost var before := slots;
        Iunlock(ip);
        CountsSame(slots0, before, slots, ROOTDEV, at, 1);
        return Inode(ip);
      }
      var found := Find(at, name);
      if found.None? {
        Leave(ip, slots0);
        return NotFound;
      }
      LookupIn(nodes, slots0, at, name);
      ghost var before := slots;
      var next := Iget(ROOTDEV, found.value);
      if next.None? {
        OneFree(slots0, slots, at);
        return Panic;
      }
      ghost var mid := slots;
      Iunlock(ip);
      Iput(ip);
      CountsMove(slots0, before, mid, slots, at, found.value);
      return Inode(next.value);
    }

    /** iunlockput() on the way out. */
    method Leave(ip: nat, ghost slots0: seq<Slot>)
      requires Unique(slots) && ip < |slots| && slots[ip].ref > 0 && slots[ip].busy && slots[ip].dev == ROOTDEV
        && slots[ip].inum < |nodes|
      requires !LastUse(slots[ip], nodes) && ReadIn(slots[ip], nodes)
        && Counts(slots0, slots, ROOTDEV, slots[ip].inum, 1)
      requires forall i | 0 <= i < |slots| && i != ip && slots[i].ref > 0 :: !slots[i].busy && ReadIn(slots[i], nodes)
      modifies this`slots, this`nodes
      ensures Unique(slots) && Quiet(slots, nodes) && |slots| == |old(slots)| && Counts(slots0, slots, 0, 0, 0)
        && nodes == old(nodes)
    {
      hide Unique, Counts;
      Iunlock(ip);
      CountsSame(slots0, old(slots), slots, ROOTDEV, slots[ip].inum, 1);
      Iput(ip);
      CountsBack(slots0, slots, slots[ip].inum);
    }
  }

  predicate LastUse(s: Slot, nodes: seq<Node>)
    requires s.inum < |nodes|
  {
    s.ref == 1 && s.valid && nodes[s.inum].nlink == 0
  }

  /** Panic: no entry of the inode cache is free. NoType: ilock() of a free inode panics. */
  datatype Outcome = Panic | NoType | NotFound | Inode(slot: nat)

  /** An entry in use, for an inode of the root device. */
  predicate Held(s: Slot, nodes: seq<Node>) {
    s.ref > 0 && s.dev == ROOTDEV && s.inum < |nodes|
  }

  function Start(path: string, slots: seq<Slot>, cwd: nat): nat {
    if path != "" && path[0] == '/' then ROOTINO else if cwd < |slots| then slots[cwd].inum else 0
  }

  lemma CountsOne(slots: seq<Slot>, i: nat, s: Slot, dev: nat, inum: nat, n: int)
    requires i < |slots| && s.dev == dev && s.inum == inum
    requires if slots[i].ref == 0 then s.ref == n
      else slots[i].dev == dev && slots[i].inum == inum && s.ref == slots[i].ref + n
    ensures Counts(slots, slots[i := s], dev, inum, n)
  {
    forall d, k ensures Ref(slots[i := s], d, k) == Ref(slots, d, k) + if d == dev && k == inum then n else 0 {
      RefUpdate(slots, i, s, d, k);
    }
  }

  lemma SameCounts(slots: seq<Slot>, i: nat, s: Slot)
    requires i < |slots| && s.dev == slots[i].dev && s.inum == slots[i].inum && s.ref == slots[i].ref
    ensures Counts(slots, slots[i := s], 0, 0, 0) && (Unique(slots) ==> Unique(slots[i := s]))
  {
    forall d, k ensures Ref(slots[i := s], d, k) == Ref(slots, d, k) { RefUpdate(slots, i, s, d, k); }
  }

  lemma CountsSame(slots0: seq<Slot>, slots1: seq<Slot>, slots: seq<Slot>, dev: nat, inum: nat, n: int)
    requires Counts(slots0, slots1, dev, inum, n) && Counts(slots1, slots, 0, 0, 0)
    ensures Counts(slots0, slots, dev, inum, n)
  {
    hide Ref;
    forall d, i ensures Ref(slots, d, i) == Ref(slots0, d, i) + if d == dev && i == inum then n else 0 {
      assert Ref(slots1, d, i) == Ref(slots0, d, i) + if d == dev && i == inum then n else 0;
    }
  }

  lemma CountsAfter(slots0: seq<Slot>, slots1: seq<Slot>, slots: seq<Slot>, dev: nat, inum: nat, n: int)
    requires Counts(slots0, slots1, 0, 0, 0) && Counts(slots1, slots, dev, inum, n)
    ensures Counts(slots0, slots, dev, inum, n)
  {
    hide Ref;
    forall d, i ensures Ref(slots, d, i) == Ref(slots0, d, i) + if d == dev && i == inum then n else 0 {
      assert Ref(slots1, d, i) == Ref(slots0, d, i);
    }
  }

  lemma CountsBack(slots0: seq<Slot>, slots: seq<Slot>, inum: nat)
    requires exists slots1 :: Counts(slots0, slots1, ROOTDEV, inum, 1) && Counts(slots1, slots, ROOTDEV, inum, -1)
    ensures Counts(slots0, slots, 0, 0, 0)
  {
    hide Ref;
    var slots1 :| Counts(slots0, slots1, ROOTDEV, inum, 1) && Counts(slots1, slots, ROOTDEV, inum, -1);
    forall d, i ensures Ref(slots, d, i) == Ref(slots0, d, i) {
      assert Ref(slots1, d, i) == Ref(slots0, d, i) + if d == ROOTDEV && i == inum then 1 else 0;
    }
  }

  /** One reference given up for another. */
  lemma CountsMove(slots0: seq<Slot>, before: seq<Slot>, mid: seq<Slot>, slots: seq<Slot>, at: nat, next: nat)
    requires Counts(slots0, before, ROOTDEV, at, 1) && Counts(before, mid, ROOTDEV, next, 1)
    requires exists open :: Counts(mid, open, 0, 0, 0) && Counts(open, slots, ROOTDEV, at, -1)
    ensures Counts(slots0, slots, ROOTDEV, next, 1)
  {
    hide Ref;
    var open :| Counts(mid, open, 0, 0, 0) && Counts(open, slots, ROOTDEV, at, -1);
    forall d, i ensures Ref(slots, d, i) == Ref(slots0, d, i) + if d == ROOTDEV && i == next then 1 else 0 {
      assert Ref(before, d, i) == Ref(slots0, d, i) + if d == ROOTDEV && i == at then 1 else 0;
      assert Ref(mid, d, i) == Ref(before, d, i) + if d == ROOTDEV && i == next then 1 else 0;
      assert Ref(open, d, i) == Ref(mid, d, i);
    }
  }

  lemma LookupIn(nodes: seq<Node>, slots: seq<Slot>, d: nat, name: string)
    requires Walkable(nodes, slots) && d < |nodes| && nodes[d].kind.Dir?
    ensures Lookup(nodes[d].entries, name).Some? ==> Lookup(nodes[d].entries, name).value < |nodes|
  {
    LookupInRange(nodes, nodes[d].entries, name);
  }

  /** The reference held here is not the last one to an inode without links: somebody else holds one too. */
  lemma NotLast(nodes: seq<Node>, slots0: seq<Slot>, slots: seq<Slot>, ip: nat)
    requires Walkable(nodes, slots0) && Unique(slots) && ip < |slots| && Held(slots[ip], nodes)
      && ReadIn(slots[ip], nodes)
    requires Counts(slots0, slots, ROOTDEV, slots[ip].inum, 1)
    ensures !LastUse(slots[ip], nodes)
  {
    hide Unique;
    RefIs(slots, ip);
  }

  lemma Ends(nodes: seq<Node>, parent: bool, at: nat, es: seq<string>)
    requires es == []
    ensures Wanted(nodes, parent, at, es) == (if parent then None else Some(at)) && !Meets(nodes, parent, at, es)
  { }

  lemma LastElement(path: string, q: nat)
    requires q <= |path| && (q < |path| ==> path[q] != '/')
    ensures Elements(path[q..]) == [] <==> q == |path|
  { }

  /** What one turn of the loop means for the path. */
  lemma WalkMeans(nodes: seq<Node>, at: nat, es: seq<string>, parent: bool, name: string, rest: seq<string>)
    requires at < |nodes| && es == [name] + rest
    ensures Wanted(nodes, parent, at, es) ==
      if !nodes[at].kind.Dir? then None
      else if parent && rest == [] then Some(at)
      else match Lookup(nodes[at].entries, name) case None => None case Some(next) => Wanted(nodes, parent, next, rest)
    ensures Meets(nodes, parent, at, es) <==>
      nodes[at].kind.Free? || (nodes[at].kind.Dir? && !(parent && rest == [])
        && match Lookup(nodes[at].entries, name) case None => false case Some(next) => Meets(nodes, parent, next, rest))
  {
    hide Lookup;
    assert es[1..] == rest && es[0] == name;
    if rest == [] {
      assert es[..0] == [];
    } else {
      assert es[..|es| - 1] == [name] + rest[..|rest| - 1];
      assert es[..|es| - 1][1..] == rest[..|rest| - 1];
      if nodes[at].kind.Dir? { ParentStep(nodes, at, es); }
    }
  }

  /** What namex() is asked for. */
  function Wanted(nodes: seq<Node>, parent: bool, at: nat, elems: seq<string>): Option<nat> {
    if parent then ResolveParent(nodes, at, elems) else Resolve(nodes, at, elems)
  }

  /** The path leads through a free inode: only the ".." of a directory without links can name one. */
  predicate Meets(nodes: seq<Node>, parent: bool, at: nat, elems: seq<string>)
    decreases |elems|
  {
    && elems != [] && at < |nodes|
    && (nodes[at].kind.Free? ||
        (nodes[at].kind.Dir? && !(parent && |elems| == 1)
          && match Lookup(nodes[at].entries, elems[0])
             case None => false case Some(next) => Meets(nodes, parent, next, elems[1..])))
  }

  ghost predicate SameLast(es: seq<string>, elems: seq<string>) {
    es != [] ==> elems != [] && es[|es| - 1] == elems[|elems| - 1]
  }

  lemma LastOfAll(es: seq<string>)
    ensures SameLast(es, es)
  { }

  lemma StillLast(name: string, rest: seq<string>, elems: seq<string>)
    requires SameLast([name] + rest, elems)
    ensures SameLast(rest, elems) && elems != [] && (rest == [] ==> elems[|elems| - 1] == name)
  {
    if rest != [] { assert ([name] + rest)[|rest|] == rest[|rest| - 1]; }
  }

  // ------------------------------------------------- the entries in use

  /** The inodes that have an entry in use. */
  ghost function Active(slots: seq<Slot>): set<(nat, nat)> {
    set i | 0 <= i < |slots| && slots[i].ref > 0 :: (slots[i].dev, slots[i].inum)
  }

  lemma ActiveRef(slots: seq<Slot>, d: nat, n: nat)
    ensures (d, n) in Active(slots) <==> Ref(slots, d, n) > 0
  {
    if i :| 0 <= i < |slots| && One(slots[i], d, n) > 0 {
      RefUpdate(slots, i, slots[i].(ref := 0), d, n);
      assert (slots[i].dev, slots[i].inum) in Active(slots);
    } else {
      RefZero(slots, d, n);
    }
  }

  lemma {:induction false} AllActive(slots: seq<Slot>)
    requires Unique(slots) && forall i | 0 <= i < |slots| :: slots[i].ref > 0
    ensures |Active(slots)| == |slots|
  {
    if |slots| > 0 {
      var last, s := |slots| - 1, slots[|slots| - 1];
      AllActive(slots[..last]);
      assert Active(slots) == Active(slots[..last]) + {(s.dev, s.inum)};
      assert (s.dev, s.inum) !in Active(slots[..last]);
    }
  }

  /** A full cache that holds one reference more than before had at most one entry free before. */
  lemma OneFree(slots0: seq<Slot>, slots: seq<Slot>, at: nat)
    requires Unique(slots) && Counts(slots0, slots, ROOTDEV, at, 1) && forall i | 0 <= i < |slots| :: slots[i].ref > 0
    ensures |Active(slots0)| >= |slots| - 1
  {
    AllActive(slots);
    forall d, n | (d, n) in Active(slots) && (d, n) != (ROOTDEV, at) ensures (d, n) in Active(slots0) {
      ActiveRef(slots, d, n);
      ActiveRef(slots0, d, n);
    }
    hide Active, Ref;
    Smaller(Active(slots) - {(ROOTDEV, at)}, Active(slots0));
  }

  lemma {:induction false} Smaller(a: set<(nat, nat)>, b: set<(nat, nat)>)
    requires a <= b
    ensures |a| <= |b|
  {
    assert b == a + (b - a);
  }
}
