/**
 Directories and link counts of one device: what fs/namei.c and iput do to them. Inode 0 is no
 inode; an entry whose inode is 0 is free.
 */
module LinkCounts {

  const ROOT: nat := 1
  const NAME_LEN: nat := 14
  const DOT: string := "."
  const DOTDOT: string := ".."

  datatype Entry = Entry(ino: nat, name: string)

  /** links is i_nlinks, an unsigned char; count is i_count, the references in memory. */
  datatype Node = Node(used: bool, dir: bool, links: nat, count: nat, entries: seq<Entry>)

  type Tree = seq<Node>

  function Unused(): Node {
    Node(false, false, 0, 0, [])
  }

  /** The places of all entries that name inode i. */
  ghost function Refs(t: Tree, i: nat): set<(nat, nat)> {
    set d: nat, k: nat | d < |t| && k < |t[d].entries| && t[d].entries[k].ino == i :: (d, k)
  }

  /** The inode that entry k of directory d names. */
  function InoAt(t: Tree, d: nat, k: nat): nat {
    if d < |t| && k < |t[d].entries| then t[d].entries[k].ino else 0
  }

  predicate IsDir(t: Tree, i: nat) {
    i < |t| && t[i].dir
  }

  predicate IsUsed(t: Tree, i: nat) {
    i < |t| && t[i].used
  }

  // ---------------------------------------------------------------- the invariant

  /** A directory starts with "." and ".."; nothing else has entries. */
  ghost predicate DirOk(t: Tree, d: nat)
    requires d < |t|
  {
    var n := t[d];
    if n.dir then
      && n.used && |n.entries| >= 2 && n.entries[0] == Entry(d, DOT) && n.entries[1].name == DOTDOT
      && 0 < n.entries[1].ino < |t| && t[n.entries[1].ino].dir
    else n.entries == []
  }

  /** What ".." names. */
  function Parent(t: Tree, d: nat): nat {
    InoAt(t, d, 1)
  }

  /** The link count of a used inode is the number of entries that name it, and an unused one has
      no link; only an inode that is open may have none. */
  ghost predicate CountOk(t: Tree, i: nat)
    requires i < |t|
  {
    && (t[i].used ==> t[i].links == |Refs(t, i)|) && t[i].links < 256
    && (!t[i].used ==> t[i].count == 0 && Refs(t, i) == {})
    && (t[i].used && t[i].links == 0 ==> t[i].count > 0)
  }

  /** An entry names a used inode. A directory other than by "." and ".." is named in its parent. */
  ghost predicate EntryOk(t: Tree, d: nat, k: nat) {
    var x := InoAt(t, d, k);
    x != 0 ==> IsUsed(t, x) && (k >= 2 && IsDir(t, x) ==> x != ROOT && Parent(t, x) == d)
  }

  /** And it is named there once. */
  ghost predicate NamedOnce(t: Tree) {
    forall d: nat, k: nat, e: nat, j: nat |
      k >= 2 && j >= 2 && InoAt(t, d, k) != 0 && InoAt(t, d, k) == InoAt(t, e, j) && IsDir(t, InoAt(t, d, k)) ::
      d == e && k == j
  }

  /** Every directory but the root has a name in its parent. */
  ghost predicate Named(t: Tree, x: nat) {
    IsDir(t, x) && x != ROOT ==> exists k: nat :: k >= 2 && InoAt(t, Parent(t, x), k) == x
  }

  /** No two entries of a directory have the same name. */
  ghost predicate NamesDiffer(n: Node) {
    forall k: nat, j: nat |
      k < |n.entries| && j < |n.entries| && n.entries[k].ino != 0 && n.entries[j].ino != 0 && n.entries[k].name == n.entries[j].name ::
      k == j
  }

  ghost predicate Dirs(t: Tree) {
    && ROOT < |t| && t[ROOT].dir && !t[0].used
    && (forall d: nat | d < |t| :: DirOk(t, d))
    && Parent(t, ROOT) == ROOT
    && (forall d: nat | d < |t| :: NamesDiffer(t[d]))
  }

  ghost predicate Counts(t: Tree) {
    forall i: nat | 0 < i < |t| :: CountOk(t, i)
  }

  ghost predicate Entries(t: Tree) {
    (forall d: nat, k: nat :: EntryOk(t, d, k)) && NamedOnce(t) && forall x: nat :: Named(t, x)
  }

  ghost predicate Sound(t: Tree) {
    Dirs(t) && Counts(t) && Entries(t)
  }

  // ---------------------------------------------------------------- one entry

  /** Entry k of directory d becomes e; k may be one behind the end. */
  function Put(t: Tree, d: nat, k: nat, e: Entry): Tree
    requires d < |t| && k <= |t[d].entries|
  {
    t[d := t[d].(entries := if k < |t[d].entries| then t[d].entries[k := e] else t[d].entries + [e])]
  }

  lemma PutRefs(t: Tree, d: nat, k: nat, e: Entry, i: nat)
    requires d < |t| && k <= |t[d].entries|
    ensures Refs(Put(t, d, k, e), i) == if e.ino == i then Refs(t, i) + {(d, k)} else Refs(t, i) - {(d, k)}
  {
    var u := Put(t, d, k, e);
    forall x: nat, y: nat
      ensures (x, y) in Refs(u, i) <==> (x, y) in if e.ino == i then Refs(t, i) + {(d, k)} else Refs(t, i) - {(d, k)}
    {}
  }

  /** Only entries matter for references. */
  lemma SameRefs(t: Tree, u: Tree, i: nat)
    requires |t| == |u| && forall d: nat | d < |t| :: u[d].entries == t[d].entries
    ensures Refs(u, i) == Refs(t, i)
  {}

  // ---------------------------------------------------------------- names

  /** A name as an entry holds it: cut to 14 characters. */
  function Cut(name: string): string {
    if |name| > NAME_LEN then name[..NAME_LEN] else name
  }

  /** The first free entry, or the end. */
  function FreeEntry(es: seq<Entry>): (k: nat)
    ensures k <= |es| && (k < |es| ==> es[k].ino == 0) && forall j: nat | j < k :: es[j].ino != 0
  {
    if es == [] || es[0].ino == 0 then 0 else 1 + FreeEntry(es[1..])
  }

  predicate Holds(es: seq<Entry>, name: string, k: nat) {
    k < |es| && es[k].ino != 0 && es[k].name == name
  }

  // ---------------------------------------------------------------- steps

  function SetLinks(t: Tree, i: nat, n: nat): Tree
    requires i < |t|
  {
    t[i := t[i].(links := n)]
  }

  /** i_nlinks++ on an unsigned char. */
  function Inc(n: nat): nat {
    (n + 1) % 256
  }

  /** The end of iput: the last reference of an inode without links frees it and its contents. */
  function Put0(t: Tree, i: nat): Tree
    requires i < |t|
  {
    if t[i].count == 0 && t[i].links == 0 then t[i := Unused()] else t
  }

  /** sys_link of inode x, which nobody else holds, under a new name. */
  function Linked(t: Tree, d: nat, k: nat, name: string, x: nat): Tree
    requires d < |t| && k <= |t[d].entries| && x < |t|
  {
    var u := Put(t, d, k, Entry(x, name));
    Put0(SetLinks(u, x, Inc(u[x].links)), x)
  }

  /** A new file. */
  function Created(t: Tree, d: nat, k: nat, name: string, x: nat, count: nat): Tree
    requires d < |t| && k <= |t[d].entries| && x < |t| && x != d
  {
    Put(t, d, k, Entry(x, name))[x := Node(true, false, 1, count, [])]
  }

  ghost predicate CanName(t: Tree, d: nat, k: nat, name: string) {
    && d < |t| && t[d].dir && k == FreeEntry(t[d].entries)
    && forall j: nat :: !Holds(t[d].entries, name, j)
  }

  /** A new name is not "." or "..", and its place is behind them. */
  lemma PlaceBehind(t: Tree, d: nat, k: nat, name: string)
    requires Dirs(t) && CanName(t, d, k, name)
    ensures k >= 2 && name != DOT && name != DOTDOT && k <= |t[d].entries|
    ensures k < |t[d].entries| ==> t[d].entries[k].ino == 0
  {
    assert DirOk(t, d);
    assert !Holds(t[d].entries, name, 0) && !Holds(t[d].entries, name, 1);
  }

  lemma PutNamesDiffer(n: Node, k: nat, e: Entry)
    requires NamesDiffer(n) && k == FreeEntry(n.entries) && forall j: nat :: !Holds(n.entries, e.name, j)
    ensures NamesDiffer(n.(entries := if k < |n.entries| then n.entries[k := e] else n.entries + [e]))
  {
    var m := n.(entries := if k < |n.entries| then n.entries[k := e] else n.entries + [e]);
    forall a: nat, b: nat |
      a < |m.entries| && b < |m.entries| && m.entries[a].ino != 0 && m.entries[b].ino != 0 && m.entries[a].name == m.entries[b].name
      ensures a == b
    {
      assert a == k || Holds(n.entries, m.entries[a].name, a);
      assert b == k || Holds(n.entries, m.entries[b].name, b);
    }
  }

  lemma AddedCard<T>(s: set<T>, x: T)
    ensures |s + {x}| == |s| + if x in s then 0 else 1
  {
    if x in s {
      assert s + {x} == s;
    }
  }

  lemma RemovedCard<T>(s: set<T>, x: T)
    ensures |s - {x}| == |s| - if x in s then 1 else 0
  {
    if x in s {
      assert s == (s - {x}) + {x};
    } else {
      assert s == s - {x};
    }
  }

  /** A free place names nothing. */
  lemma FreePlace(t: Tree, d: nat, k: nat, i: nat)
    requires d < |t| && k <= |t[d].entries| && (k < |t[d].entries| ==> t[d].entries[k].ino == 0) && i > 0
    ensures (d, k) !in Refs(t, i)
  {}

  // ---------------------------------------------------------------- sys_link

  lemma NamedRefs(t: Tree, d: nat, k: nat, name: string, x: nat, i: nat)
    requires d < |t| && k <= |t[d].entries| && (k < |t[d].entries| ==> t[d].entries[k].ino == 0) && i > 0
    ensures |Refs(Put(t, d, k, Entry(x, name)), i)| == |Refs(t, i)| + if i == x then 1 else 0
    ensures i != x ==> Refs(Put(t, d, k, Entry(x, name)), i) == Refs(t, i)
  {
    PutRefs(t, d, k, Entry(x, name), i);
    FreePlace(t, d, k, i);
    AddedCard(Refs(t, i), (d, k));
    assert i != x ==> Refs(t, i) - {(d, k)} == Refs(t, i);
  }

  lemma LinkedRefs(t: Tree, d: nat, k: nat, name: string, x: nat, i: nat)
    requires Dirs(t) && CanName(t, d, k, name) && k <= |t[d].entries| && x < |t| && i > 0 && t[x].entries == []
    ensures |Refs(Linked(t, d, k, name, x), i)| == |Refs(t, i)| + if i == x then 1 else 0
    ensures i != x ==> Refs(Linked(t, d, k, name, x), i) == Refs(t, i)
  {
    PlaceBehind(t, d, k, name);
    assert DirOk(t, d);
    NamedRefs(t, d, k, name, x, i);
    SameRefs(Put(t, d, k, Entry(x, name)), Linked(t, d, k, name, x), i);
  }

  lemma LinkedDirs(t: Tree, d: nat, k: nat, name: string, x: nat)
    requires Dirs(t) && CanName(t, d, k, name) && x < |t| && t[x].used && !t[x].dir && 0 < x
    ensures k <= |t[d].entries| && Dirs(Linked(t, d, k, name, x))
  {
    PlaceBehind(t, d, k, name);
    var u := Linked(t, d, k, name, x);
    PutNamesDiffer(t[d], k, Entry(x, name));
    forall e: nat | e < |u| ensures DirOk(u, e) {
      assert DirOk(t, e);
    }
    assert DirOk(t, x) && DirOk(t, d);
    forall e: nat | e < |u| ensures NamesDiffer(u[e]) {
      assert NamesDiffer(t[e]);
    }
  }

  /** One more entry for something that is not a directory. */
  lemma EntriesAdd(t: Tree, u: Tree, d: nat, k: nat, x: nat)
    requires Entries(t) && IsUsed(u, x) && !IsDir(u, x) && InoAt(t, d, k) == 0
    requires forall e: nat, j: nat :: InoAt(u, e, j) == if e == d && j == k then x else InoAt(t, e, j)
    requires forall i: nat :: IsDir(u, i) == IsDir(t, i) && (IsUsed(t, i) ==> IsUsed(u, i))
    requires forall i: nat :: IsDir(t, i) ==> InoAt(t, i, 1) != 0 && i > 0
    ensures Entries(u)
  {
    forall e: nat, j: nat ensures EntryOk(u, e, j) {
      assert EntryOk(t, e, j);
    }
    forall y: nat ensures Named(u, y) {
      assert Named(t, y);
      if IsDir(u, y) && y != ROOT {
        var j: nat :| j >= 2 && InoAt(t, Parent(t, y), j) == y;
        assert InoAt(u, Parent(u, y), j) == y;
      }
    }
  }

  /** The same names, and what they name is still used. */
  lemma EntriesSame(t: Tree, u: Tree)
    requires Entries(t)
    requires forall e: nat, j: nat :: InoAt(u, e, j) == InoAt(t, e, j)
    requires forall i: nat :: IsDir(u, i) == IsDir(t, i)
    requires forall e: nat, j: nat :: InoAt(t, e, j) != 0 ==> IsUsed(u, InoAt(t, e, j))
    ensures Entries(u)
  {
    forall e: nat, j: nat ensures EntryOk(u, e, j) {
      assert EntryOk(t, e, j);
    }
    forall y: nat ensures Named(u, y) {
      assert Named(t, y);
      if IsDir(u, y) && y != ROOT {
        var j: nat :| j >= 2 && InoAt(t, Parent(t, y), j) == y;
        assert InoAt(u, Parent(u, y), j) == y;
      }
    }
  }

  /** A directory names itself. */
  lemma DirNamed(t: Tree, d: nat)
    requires Dirs(t) && IsDir(t, d)
    ensures (d, 0) in Refs(t, d)
  {
    assert DirOk(t, d);
  }

  /** A directory's ".." is there. */
  lemma DotDot(t: Tree, d: nat)
    requires Dirs(t) && IsDir(t, d)
    ensures InoAt(t, d, 1) != 0 && IsDir(t, InoAt(t, d, 1)) && InoAt(t, d, 0) == d && d > 0
  {
    assert DirOk(t, d);
  }

  lemma PutIno(t: Tree, d: nat, k: nat, x: Entry, e: nat, j: nat)
    requires d < |t| && k <= |t[d].entries|
    ensures InoAt(Put(t, d, k, x), e, j) == if e == d && j == k then x.ino else InoAt(t, e, j)
  {}

  lemma LinkedIno(t: Tree, d: nat, k: nat, name: string, x: nat, e: nat, j: nat)
    requires d < |t| && k <= |t[d].entries| && x < |t| && t[x].used && t[x].links < 255
    ensures InoAt(Linked(t, d, k, name, x), e, j) == if e == d && j == k then x else InoAt(t, e, j)
  {
    PutIno(t, d, k, Entry(x, name), e, j);
  }

  lemma LinkedKinds(t: Tree, d: nat, k: nat, name: string, x: nat, i: nat)
    requires d < |t| && k <= |t[d].entries| && x < |t| && t[x].used && t[x].links < 255
    ensures IsDir(Linked(t, d, k, name, x), i) == IsDir(t, i) && IsUsed(Linked(t, d, k, name, x), i) == IsUsed(t, i)
  {}

  lemma LinkedEntries(t: Tree, d: nat, k: nat, name: string, x: nat)
    requires Dirs(t) && Entries(t) && CanName(t, d, k, name) && x < |t| && t[x].used && !t[x].dir && 0 < x
    requires t[x].links < 255
    ensures k <= |t[d].entries| && Entries(Linked(t, d, k, name, x))
  {
    PlaceBehind(t, d, k, name);
    var u := Linked(t, d, k, name, x);
    forall i: nat | IsDir(t, i) ensures InoAt(t, i, 1) != 0 && i > 0 {
      DotDot(t, i);
    }
    assert DirOk(t, x);
    forall e: nat, j: nat ensures InoAt(u, e, j) == if e == d && j == k then x else InoAt(t, e, j) {
      LinkedIno(t, d, k, name, x, e, j);
    }
    forall i: nat ensures IsDir(u, i) == IsDir(t, i) && IsUsed(u, i) == IsUsed(t, i) {
      LinkedKinds(t, d, k, name, x, i);
    }
    hide InoAt;
    hide Entries;
    hide Linked;
    EntriesAdd(t, u, d, k, x);
  }

  lemma LinkedCounts(t: Tree, d: nat, k: nat, name: string, x: nat)
    requires Sound(t) && CanName(t, d, k, name) && x < |t| && t[x].used && !t[x].dir && 0 < x && t[x].links < 255
    ensures k <= |t[d].entries| && Counts(Linked(t, d, k, name, x))
  {
    PlaceBehind(t, d, k, name);
    var u := Linked(t, d, k, name, x);
    assert DirOk(t, x) && DirOk(t, d);
    forall i: nat | 0 < i < |u| ensures CountOk(u, i) {
      assert CountOk(t, i);
      LinkedRefs(t, d, k, name, x, i);
    }
  }

  /** sys_link keeps the link counts right if and only if the file has fewer than 255 links; the
      256th makes the count zero. */
  lemma LinkSound(t: Tree, d: nat, k: nat, name: string, x: nat)
    requires Sound(t) && CanName(t, d, k, name) && x < |t| && t[x].used && !t[x].dir && 0 < x
    ensures k <= |t[d].entries|
    ensures Sound(Linked(t, d, k, name, x)) <==> t[x].links < 255
  {
    PlaceBehind(t, d, k, name);
    if t[x].links < 255 {
      LinkedDirs(t, d, k, name, x);
      LinkedEntries(t, d, k, name, x);
      LinkedCounts(t, d, k, name, x);
    } else {
      assert CountOk(t, x) && DirOk(t, x) && DirOk(t, d);
      LinkedRefs(t, d, k, name, x, x);
      assert !CountOk(Linked(t, d, k, name, x), x);
    }
  }

  /** Then, if nobody else holds the file, it is freed while 256 entries name it. */
  lemma LinkOverflow(t: Tree, d: nat, k: nat, name: string, x: nat)
    requires Sound(t) && CanName(t, d, k, name) && x < |t| && t[x].used && !t[x].dir && 0 < x
    requires t[x].links == 255 && t[x].count == 0
    ensures k <= |t[d].entries|
    ensures var u := Linked(t, d, k, name, x); !u[x].used && |Refs(u, x)| == 256
  {
    PlaceBehind(t, d, k, name);
    assert CountOk(t, x) && DirOk(t, x) && DirOk(t, d);
    LinkedRefs(t, d, k, name, x, x);
  }

  // ---------------------------------------------------------------- creating a file

  lemma CreatedRefs(t: Tree, d: nat, k: nat, name: string, x: nat, count: nat, i: nat)
    requires Dirs(t) && CanName(t, d, k, name) && 0 < x < |t| && !t[x].used && i > 0
    ensures k <= |t[d].entries| && x != d
    ensures Refs(Created(t, d, k, name, x, count), i) == if i == x then Refs(t, i) + {(d, k)} else Refs(t, i)
  {
    PlaceBehind(t, d, k, name);
    assert DirOk(t, x) && DirOk(t, d);
    PutRefs(t, d, k, Entry(x, name), i);
    FreePlace(t, d, k, i);
    SameRefs(Put(t, d, k, Entry(x, name)), Created(t, d, k, name, x, count), i);
    assert i != x ==> Refs(t, i) - {(d, k)} == Refs(t, i);
  }

  lemma CreatedDirs(t: Tree, d: nat, k: nat, name: string, x: nat, count: nat)
    requires Dirs(t) && CanName(t, d, k, name) && 0 < x < |t| && !t[x].used
    ensures k <= |t[d].entries| && x != d && Dirs(Created(t, d, k, name, x, count))
  {
    PlaceBehind(t, d, k, name);
    var u := Created(t, d, k, name, x, count);
    assert DirOk(t, x) && DirOk(t, d) && DirOk(t, ROOT);
    PutNamesDiffer(t[d], k, Entry(x, name));
    forall e: nat | e < |u| ensures DirOk(u, e) {
      assert DirOk(t, e);
    }
    forall e: nat | e < |u| ensures NamesDiffer(u[e]) {
      assert NamesDiffer(t[e]);
    }
  }

  lemma CreatedEntries(t: Tree, d: nat, k: nat, name: string, x: nat, count: nat)
    requires Dirs(t) && Entries(t) && CanName(t, d, k, name) && 0 < x < |t| && !t[x].used
    ensures k <= |t[d].entries| && x != d && Entries(Created(t, d, k, name, x, count))
  {
    PlaceBehind(t, d, k, name);
    assert DirOk(t, x) && DirOk(t, d);
    forall i: nat | IsDir(t, i) ensures InoAt(t, i, 1) != 0 && i > 0 {
      DotDot(t, i);
    }
    EntriesAdd(t, Created(t, d, k, name, x, count), d, k, x);
  }

  /** open_namei and sys_mknod: the new file has its one link. */
  lemma CreateSound(t: Tree, d: nat, k: nat, name: string, x: nat, count: nat)
    requires Sound(t) && CanName(t, d, k, name) && 0 < x < |t| && !t[x].used
    ensures k <= |t[d].entries| && x != d && Sound(Created(t, d, k, name, x, count))
  {
    CreatedDirs(t, d, k, name, x, count);
    CreatedEntries(t, d, k, name, x, count);
    var u := Created(t, d, k, name, x, count);
    assert DirOk(t, x) && DirOk(t, d);
    forall i: nat | 0 < i < |u| ensures CountOk(u, i) {
      assert CountOk(t, i);
      CreatedRefs(t, d, k, name, x, count, i);
    }
  }

  // ---------------------------------------------------------------- opening and closing

  function Opened(t: Tree, i: nat): Tree
    requires i < |t|
  {
    t[i := t[i].(count := t[i].count + 1)]
  }

  /** iput */
  function Closed(t: Tree, i: nat): Tree
    requires i < |t| && t[i].count > 0
  {
    Put0(t[i := t[i].(count := t[i].count - 1)], i)
  }

  lemma FreeFileDirs(t: Tree, i: nat)
    requires Dirs(t) && 0 < i < |t| && !t[i].dir
    ensures Dirs(t[i := Unused()])
  {
    var u := t[i := Unused()];
    assert DirOk(t, i);
    forall e: nat | e < |u| ensures DirOk(u, e) && NamesDiffer(u[e]) {
      assert DirOk(t, e) && NamesDiffer(t[e]);
    }
  }

  lemma Unreferenced(t: Tree, i: nat, e: nat, j: nat)
    requires Refs(t, i) == {} && i > 0
    ensures InoAt(t, e, j) != i
  {
    assert (e, j) !in Refs(t, i);
  }

  lemma FreeFileSound(t: Tree, i: nat)
    requires Dirs(t) && Entries(t) && 0 < i < |t| && t[i].used && !t[i].dir && Refs(t, i) == {} && t[i].count == 0
    requires forall j: nat | 0 < j < |t| && j != i :: CountOk(t, j)
    ensures Sound(t[i := Unused()])
  {
    var u := t[i := Unused()];
    assert DirOk(t, i);
    FreeFileDirs(t, i);
    assert forall e: nat, j: nat :: InoAt(u, e, j) == InoAt(t, e, j);
    forall e: nat, j: nat | InoAt(t, e, j) != 0 ensures IsUsed(u, InoAt(t, e, j)) {
      assert EntryOk(t, e, j);
      Unreferenced(t, i, e, j);
    }
    EntriesSame(t, u);
    forall j: nat | 0 < j < |u| ensures CountOk(u, j) {
      if j != i {
        assert CountOk(t, j);
      }
      SameRefs(t, u, j);
    }
  }

  /** Opening an inode and dropping a reference to it keep everything; the inode goes with the last
      reference exactly when it has no link. */
  lemma CloseSound(t: Tree, i: nat)
    requires Sound(t) && 0 < i < |t| && t[i].count > 0
    ensures Sound(Closed(t, i))
    ensures Closed(t, i)[i].used <==> t[i].count > 1 || Refs(t, i) != {}
  {
    var m := t[i := t[i].(count := t[i].count - 1)];
    assert CountOk(t, i) && DirOk(t, i);
    OnlyCount(t, m, i);
    if t[i].dir {
      DirNamed(t, i);
    }
    if m[i].count == 0 && m[i].links == 0 {
      SameRefs(t, m, i);
      FreeFileSound(m, i);
    }
  }

  lemma OpenSound(t: Tree, i: nat)
    requires Sound(t) && 0 < i < |t| && t[i].used
    ensures Sound(Opened(t, i))
  {
    OnlyCount(t, Opened(t, i), i);
  }

  lemma OnlyCountDirs(t: Tree, u: Tree, i: nat)
    requires Dirs(t) && i < |t| == |u| && t[i].used && u == t[i := t[i].(count := u[i].count)]
    ensures Dirs(u)
  {
    forall e: nat | e < |u| ensures DirOk(u, e) && NamesDiffer(u[e]) {
      assert DirOk(t, e) && NamesDiffer(t[e]);
    }
  }

  lemma OnlyCount(t: Tree, u: Tree, i: nat)
    requires Sound(t) && 0 < i < |t| == |u| && t[i].used && u == t[i := t[i].(count := u[i].count)]
    ensures Dirs(u) && Entries(u) && Refs(u, i) == Refs(t, i)
    ensures forall j: nat | 0 < j < |u| && j != i :: CountOk(u, j)
    ensures u[i].count > 0 || u[i].links > 0 ==> CountOk(u, i)
  {
    OnlyCountDirs(t, u, i);
    assert forall e: nat, j: nat :: InoAt(u, e, j) == InoAt(t, e, j);
    forall e: nat, j: nat | InoAt(t, e, j) != 0 ensures IsUsed(u, InoAt(t, e, j)) {
      assert EntryOk(t, e, j);
    }
    EntriesSame(t, u);
    SameRefs(t, u, i);
    assert CountOk(t, i);
    forall j: nat | 0 < j < |u| && j != i ensures CountOk(u, j) {
      assert CountOk(t, j);
      SameRefs(t, u, j);
    }
  }

  // ---------------------------------------------------------------- sys_unlink

  /** Entry k of d is freed, and what it named loses a link. */
  function Unlinked(t: Tree, d: nat, k: nat): Tree
    requires d < |t| && k < |t[d].entries| && 0 < t[d].entries[k].ino < |t| && t[t[d].entries[k].ino].links > 0
  {
    var x := t[d].entries[k].ino;
    var u := Put(t, d, k, Entry(0, t[d].entries[k].name));
    Put0(SetLinks(u, x, u[x].links - 1), x)
  }

  lemma ZeroedDirs(t: Tree, d: nat, k: nat, name: string)
    requires Dirs(t) && d < |t| && 2 <= k < |t[d].entries|
    ensures Dirs(Put(t, d, k, Entry(0, name)))
  {
    var u := Put(t, d, k, Entry(0, name));
    assert DirOk(t, d);
    forall e: nat | e < |u| ensures DirOk(u, e) && NamesDiffer(u[e]) {
      assert DirOk(t, e) && NamesDiffer(t[e]);
    }
  }

  /** One entry less, for something that is not a directory. */
  lemma EntriesRemove(t: Tree, u: Tree, d: nat, k: nat)
    requires Entries(t) && k >= 2 && !IsDir(t, InoAt(t, d, k))
    requires forall e: nat, j: nat :: InoAt(u, e, j) == if e == d && j == k then 0 else InoAt(t, e, j)
    requires forall i: nat :: IsDir(u, i) == IsDir(t, i) && IsUsed(u, i) == IsUsed(t, i)
    ensures Entries(u)
  {
    forall e: nat, j: nat ensures EntryOk(u, e, j) {
      assert EntryOk(t, e, j);
    }
    forall y: nat ensures Named(u, y) {
      assert Named(t, y);
      if IsDir(u, y) && y != ROOT {
        var j: nat :| j >= 2 && InoAt(t, Parent(t, y), j) == y;
        assert InoAt(u, Parent(u, y), j) == y;
      }
    }
  }

  lemma ZeroedRefs(t: Tree, d: nat, k: nat, name: string, i: nat)
    requires d < |t| && k < |t[d].entries| && i > 0
    ensures |Refs(Put(t, d, k, Entry(0, name)), i)| == |Refs(t, i)| - if t[d].entries[k].ino == i then 1 else 0
    ensures t[d].entries[k].ino != i ==> Refs(Put(t, d, k, Entry(0, name)), i) == Refs(t, i)
  {
    PutRefs(t, d, k, Entry(0, name), i);
    RemovedCard(Refs(t, i), (d, k));
    assert t[d].entries[k].ino != i ==> Refs(t, i) - {(d, k)} == Refs(t, i);
  }

  /** The middle of sys_unlink: one entry and one link fewer, all else in order. */
  lemma UnlinkMiddle(t: Tree, d: nat, k: nat)
    requires Sound(t) && d < |t| && 2 <= k < |t[d].entries| && t[d].entries[k].ino != 0 && !IsDir(t, t[d].entries[k].ino)
    ensures var x := t[d].entries[k].ino; 0 < x < |t| && t[x].used && t[x].links > 0
    ensures
      var x := t[d].entries[k].ino;
      var m := SetLinks(Put(t, d, k, Entry(0, t[d].entries[k].name)), x, t[x].links - 1);
      && Dirs(m) && Entries(m) && (forall i: nat | 0 < i < |m| && i != x :: CountOk(m, i))
      && m[x].links == |Refs(m, x)| && m[x].links < 256
  {
    var x := t[d].entries[k].ino;
    assert InoAt(t, d, k) == x && EntryOk(t, d, k) && CountOk(t, x);
    assert (d, k) in Refs(t, x);
    var name := t[d].entries[k].name;
    var u := Put(t, d, k, Entry(0, name));
    var m := SetLinks(u, x, t[x].links - 1);
    assert DirOk(t, x) && DirOk(t, d);
    ZeroedDirs(t, d, k, name);
    OnlyLinksDirs(u, x, t[x].links - 1);
    forall e: nat, j: nat ensures InoAt(m, e, j) == if e == d && j == k then 0 else InoAt(t, e, j) {
      PutIno(t, d, k, Entry(0, name), e, j);
    }
    EntriesRemove(t, m, d, k);
    forall i: nat | 0 < i < |m|
      ensures i != x ==> CountOk(m, i)
      ensures |Refs(m, i)| == |Refs(t, i)| - if i == x then 1 else 0
    {
      assert CountOk(t, i);
      ZeroedRefs(t, d, k, name, i);
      SameRefs(u, m, i);
    }
  }

  lemma OnlyLinksDirs(t: Tree, i: nat, n: nat)
    requires Dirs(t) && i < |t|
    ensures Dirs(SetLinks(t, i, n))
  {
    var u := SetLinks(t, i, n);
    forall e: nat | e < |u| ensures DirOk(u, e) && NamesDiffer(u[e]) {
      assert DirOk(t, e) && NamesDiffer(t[e]);
    }
  }

  /** sys_unlink keeps the counts; the file is freed exactly with its last link, if nobody holds it. */
  lemma UnlinkSound(t: Tree, d: nat, k: nat)
    requires Sound(t) && d < |t| && 2 <= k < |t[d].entries| && t[d].entries[k].ino != 0 && !IsDir(t, t[d].entries[k].ino)
    ensures var x := t[d].entries[k].ino; 0 < x < |t| && t[x].used && t[x].links > 0
    ensures Sound(Unlinked(t, d, k))
    ensures
      var x := t[d].entries[k].ino;
      Unlinked(t, d, k)[x].used <==> t[x].count > 0 || Refs(t, x) != {(d, k)}
  {
    UnlinkMiddle(t, d, k);
    var x := t[d].entries[k].ino;
    var m := SetLinks(Put(t, d, k, Entry(0, t[d].entries[k].name)), x, t[x].links - 1);
    assert (d, k) in Refs(t, x) && CountOk(t, x) && DirOk(t, x) && DirOk(t, d);
    RemovedCard(Refs(t, x), (d, k));
    if m[x].count == 0 && m[x].links == 0 {
      FreeFileSound(m, x);
    } else {
      assert CountOk(m, x);
    }
    if Refs(t, x) == {(d, k)} {
      assert |Refs(t, x)| == 1;
    } else if t[x].links == 1 {
      assert Refs(t, x) - {(d, k)} == {};
    }
  }

  // ---------------------------------------------------------------- sys_mkdir

  function NewDir(x: nat, d: nat): Node {
    Node(true, true, 2, 0, [Entry(x, DOT), Entry(d, DOTDOT)])
  }

  /** The new directory and its name in d, before d's count is changed. */
  function Placed(t: Tree, d: nat, k: nat, name: string, x: nat): Tree
    requires d < |t| && k <= |t[d].entries| && x < |t|
  {
    Put(t, d, k, Entry(x, name))[x := NewDir(x, d)]
  }

  function MadeDir(t: Tree, d: nat, k: nat, name: string, x: nat): Tree
    requires d < |t| && k <= |t[d].entries| && x < |t|
  {
    var u := Placed(t, d, k, name, x);
    Put0(SetLinks(u, d, Inc(u[d].links)), d)
  }

  /** The names after a new directory x has appeared at place k of d. */
  function InoPlaced(t: Tree, d: nat, k: nat, x: nat, e: nat, j: nat): nat {
    if e == d && j == k then x
    else if e == x && j == 0 then x
    else if e == x && j == 1 then d
    else InoAt(t, e, j)
  }

  lemma PlacedIno(t: Tree, d: nat, k: nat, name: string, x: nat, e: nat, j: nat)
    requires d < |t| && k <= |t[d].entries| && x < |t| && x != d && t[x].entries == []
    ensures InoAt(Placed(t, d, k, name, x), e, j) == InoPlaced(t, d, k, x, e, j)
  {}

  lemma PlacedRefs(t: Tree, d: nat, k: nat, name: string, x: nat, i: nat)
    requires d < |t| && k <= |t[d].entries| && x < |t| && x != d && t[x].entries == [] && i > 0
    requires (k < |t[d].entries| ==> t[d].entries[k].ino == 0) && Refs(t, x) == {}
    ensures |Refs(Placed(t, d, k, name, x), i)| == |Refs(t, i)| + if i == x then 2 else if i == d then 1 else 0
    ensures i != x && i != d ==> Refs(Placed(t, d, k, name, x), i) == Refs(t, i)
  {
    var u := Placed(t, d, k, name, x);
    forall e: nat, j: nat
      ensures (e, j) in Refs(u, i) <==> InoAt(u, e, j) == i
      ensures (e, j) in Refs(t, i) <==> InoAt(t, e, j) == i
    {}
    forall e: nat, j: nat ensures InoAt(u, e, j) == InoPlaced(t, d, k, x, e, j) {
      PlacedIno(t, d, k, name, x, e, j);
    }
    if i == x {
      assert Refs(u, i) == {(d, k), (x, 0)};
    } else if i == d {
      assert Refs(u, i) == Refs(t, i) + {(x, 1)};
      AddedCard(Refs(t, i), (x, 1));
      assert (x, 1) !in Refs(t, i);
    } else {
      assert Refs(u, i) == Refs(t, i);
    }
  }

  lemma PlacedDirs(t: Tree, d: nat, k: nat, name: string, x: nat)
    requires Dirs(t) && CanName(t, d, k, name) && 0 < x < |t| && !t[x].used
    ensures k <= |t[d].entries| && x != d && Dirs(Placed(t, d, k, name, x))
  {
    PlaceBehind(t, d, k, name);
    var u := Placed(t, d, k, name, x);
    assert DirOk(t, x) && DirOk(t, d) && DirOk(t, ROOT);
    PutNamesDiffer(t[d], k, Entry(x, name));
    assert DOT != DOTDOT;
    forall e: nat | e < |u| ensures DirOk(u, e) {
      assert DirOk(t, e);
    }
    forall e: nat | e < |u| ensures NamesDiffer(u[e]) {
      assert NamesDiffer(t[e]);
    }
  }

  lemma NotNamed(t: Tree, x: nat, e: nat, j: nat)
    requires Entries(t) && x > 0 && !IsUsed(t, x)
    ensures InoAt(t, e, j) != x
  {
    assert EntryOk(t, e, j);
  }

  lemma EntriesPlace(t: Tree, u: Tree, d: nat, k: nat, x: nat)
    requires Entries(t) && IsDir(t, d) && d != x && k >= 2 && x != ROOT && x > 0 && InoAt(t, d, k) == 0
    requires !IsUsed(t, x) && !IsDir(t, x)
    requires forall e: nat, j: nat :: InoAt(u, e, j) == InoPlaced(t, d, k, x, e, j)
    requires forall i: nat :: IsDir(u, i) == (IsDir(t, i) || i == x) && IsUsed(u, i) == (IsUsed(t, i) || i == x)
    requires forall i: nat :: IsDir(t, i) ==> InoAt(t, i, 1) != 0 && i > 0 && IsUsed(t, i)
    requires forall j: nat :: InoAt(t, x, j) == 0
    ensures Entries(u)
  {
    forall e: nat, j: nat ensures EntryOk(u, e, j) {
      assert EntryOk(t, e, j);
    }
    forall e: nat, j: nat ensures InoAt(t, e, j) != x {
      NotNamed(t, x, e, j);
    }
    forall y: nat ensures Named(u, y) {
      assert Named(t, y);
      if y == x {
        assert InoAt(u, Parent(u, x), k) == x;
      } else if IsDir(u, y) && y != ROOT {
        var j: nat :| j >= 2 && InoAt(t, Parent(t, y), j) == y;
        assert InoAt(u, Parent(u, y), j) == y;
      }
    }
  }

  lemma PlacedEntries(t: Tree, d: nat, k: nat, name: string, x: nat)
    requires Dirs(t) && Entries(t) && CanName(t, d, k, name) && 0 < x < |t| && !t[x].used
    ensures k <= |t[d].entries| && x != d && Entries(Placed(t, d, k, name, x))
  {
    PlaceBehind(t, d, k, name);
    var u := Placed(t, d, k, name, x);
    assert DirOk(t, x) && DirOk(t, d) && DirOk(t, ROOT);
    forall i: nat | IsDir(t, i) ensures InoAt(t, i, 1) != 0 && i > 0 && IsUsed(t, i) {
      DotDot(t, i);
      assert DirOk(t, i);
    }
    forall e: nat, j: nat ensures InoAt(u, e, j) == InoPlaced(t, d, k, x, e, j) {
      PlacedIno(t, d, k, name, x, e, j);
    }
    EntriesPlace(t, u, d, k, x);
  }

  /** mkdir before the parent's count: all is right but that count. */
  lemma MadeDirMiddle(t: Tree, d: nat, k: nat, name: string, x: nat)
    requires Sound(t) && CanName(t, d, k, name) && 0 < x < |t| && !t[x].used
    ensures k <= |t[d].entries| && x != d && d > 0
    ensures
      var u := Placed(t, d, k, name, x);
      && Dirs(u) && Entries(u) && u[d].links == t[d].links && u[d].used && u[d].dir
      && |Refs(u, d)| == t[d].links + 1 && t[d].links > 0
      && forall i: nat | 0 < i < |u| && i != d :: CountOk(u, i)
  {
    PlaceBehind(t, d, k, name);
    PlacedDirs(t, d, k, name, x);
    PlacedEntries(t, d, k, name, x);
    DotDot(t, d);
    var u := Placed(t, d, k, name, x);
    assert DirOk(t, x) && DirOk(t, d) && CountOk(t, x) && CountOk(t, d);
    DirNamed(t, d);
    PlacedRefs(t, d, k, name, x, d);
    forall i: nat | 0 < i < |u| && i != d ensures CountOk(u, i) {
      assert CountOk(t, i);
      PlacedRefs(t, d, k, name, x, i);
    }
  }

  /** The 256th link of the parent: its count is zero, and if nobody else holds it, it is freed. */
  lemma MkdirOverflow(t: Tree, d: nat, k: nat, name: string, x: nat)
    requires Sound(t) && CanName(t, d, k, name) && 0 < x < |t| && !t[x].used && t[d].links == 255
    ensures k <= |t[d].entries| && x != d && d > 0
    ensures var v := MadeDir(t, d, k, name, x); !CountOk(v, d) && (t[d].count == 0 ==> !v[d].used)
  {
    MadeDirMiddle(t, d, k, name, x);
    var u := Placed(t, d, k, name, x);
    var v := MadeDir(t, d, k, name, x);
    assert DirOk(t, x);
    if u[d].count == 0 {
      PlacedIno(t, d, k, name, x, x, 1);
      assert InoAt(v, x, 1) == d && (x, 1) in Refs(v, d);
    } else {
      SameRefs(u, v, d);
    }
  }

  lemma MkdirKeeps(t: Tree, d: nat, k: nat, name: string, x: nat)
    requires Sound(t) && CanName(t, d, k, name) && 0 < x < |t| && !t[x].used && t[d].links < 255
    ensures k <= |t[d].entries| && x != d && Sound(MadeDir(t, d, k, name, x))
  {
    MadeDirMiddle(t, d, k, name, x);
    var u := Placed(t, d, k, name, x);
    var n := t[d].links + 1;
    assert MadeDir(t, d, k, name, x) == SetLinks(u, d, n);
    hide Placed;
    hide MadeDir;
    LinksOnly(u, d, n);
  }

  /** sys_mkdir keeps the link counts right if and only if the parent has fewer than 255 links. */
  lemma MkdirSound(t: Tree, d: nat, k: nat, name: string, x: nat)
    requires Sound(t) && CanName(t, d, k, name) && 0 < x < |t| && !t[x].used
    ensures k <= |t[d].entries| && x != d && d > 0
    ensures Sound(MadeDir(t, d, k, name, x)) <==> t[d].links < 255
  {
    PlaceBehind(t, d, k, name);
    DotDot(t, d);
    assert CountOk(t, d) && DirOk(t, d);
    hide MadeDir;
    hide Dirs;
    hide Entries;
    if t[d].links < 255 {
      MkdirKeeps(t, d, k, name, x);
    } else {
      MkdirOverflow(t, d, k, name, x);
    }
  }

  /** Correcting one count. */
  lemma LinksOnly(u: Tree, d: nat, n: nat)
    requires Dirs(u) && Entries(u) && 0 < d < |u| && u[d].used && n == |Refs(u, d)| && 0 < n < 256
    requires forall i: nat | 0 < i < |u| && i != d :: CountOk(u, i)
    ensures Sound(SetLinks(u, d, n))
  {
    var v := SetLinks(u, d, n);
    OnlyLinksDirs(u, d, n);
    assert forall e: nat, j: nat :: InoAt(v, e, j) == InoAt(u, e, j);
    forall e: nat, j: nat | InoAt(u, e, j) != 0 ensures IsUsed(v, InoAt(u, e, j)) {
      assert EntryOk(u, e, j);
    }
    EntriesSame(u, v);
    forall i: nat | 0 < i < |v| ensures CountOk(v, i) {
      if i != d {
        assert CountOk(u, i);
      }
      SameRefs(u, v, i);
    }
  }

  // ---------------------------------------------------------------- sys_rmdir

  /** empty_dir: nothing behind "." and "..". */
  ghost predicate Empty(t: Tree, x: nat) {
    IsDir(t, x) && forall j: nat | j >= 2 :: InoAt(t, x, j) == 0
  }

  /** Entry k of d is freed and the directory that it named is gone. */
  function Gone(t: Tree, d: nat, k: nat): Tree
    requires d < |t| && k < |t[d].entries| && t[d].entries[k].ino < |t|
  {
    Put(t, d, k, Entry(0, t[d].entries[k].name))[t[d].entries[k].ino := Unused()]
  }

  function RemovedDir(t: Tree, d: nat, k: nat): Tree
    requires d < |t| && k < |t[d].entries| && t[d].entries[k].ino < |t| && t[d].links > 0
  {
    SetLinks(Gone(t, d, k), d, t[d].links - 1)
  }

  ghost predicate CanRemove(t: Tree, d: nat, k: nat, x: nat) {
    k >= 2 && InoAt(t, d, k) == x && x > 0 && Empty(t, x)
  }

  /** An empty directory is not the root, is named where its ".." leads, and is in no other ".." */
  lemma OnlyTwo(t: Tree, d: nat, k: nat, x: nat)
    requires Sound(t) && CanRemove(t, d, k, x)
    ensures d < |t| && k < |t[d].entries| && x < |t| && x != ROOT && x != d && Parent(t, x) == d && IsDir(t, d)
    ensures forall e: nat, j: nat :: InoAt(t, e, j) == x <==> (e == x && j == 0) || (e == d && j == k)
  {
    assert EntryOk(t, d, k);
    DotDot(t, x);
    forall e: nat, j: nat ensures InoAt(t, e, j) == x <==> (e == x && j == 0) || (e == d && j == k) {
      if InoAt(t, e, j) == x {
        assert DirOk(t, e);
        assert Named(t, e);
      }
    }
    assert d < |t| && DirOk(t, d);
  }

  lemma GoneIno(t: Tree, d: nat, k: nat, x: nat, e: nat, j: nat)
    requires d < |t| && k < |t[d].entries| && x < |t| && t[d].entries[k].ino == x && x != d
    ensures InoAt(Gone(t, d, k), e, j) == if e == x || (e == d && j == k) then 0 else InoAt(t, e, j)
  {}

  /** Its entries are gone; the parent has lost the ".." that named it. */
  lemma GoneRefs(t: Tree, d: nat, k: nat, x: nat, i: nat)
    requires Sound(t) && CanRemove(t, d, k, x) && i > 0
    ensures d < |t| && k < |t[d].entries| && x < |t| && x != d
    ensures i == x ==> Refs(Gone(t, d, k), i) == {}
    ensures i == d ==> |Refs(Gone(t, d, k), i)| == |Refs(t, i)| - 1
    ensures i != x && i != d ==> Refs(Gone(t, d, k), i) == Refs(t, i)
  {
    OnlyTwo(t, d, k, x);
    var u := Gone(t, d, k);
    DotDot(t, x);
    forall e: nat, j: nat ensures InoAt(u, e, j) == if e == x || (e == d && j == k) then 0 else InoAt(t, e, j) {
      GoneIno(t, d, k, x, e, j);
    }
    forall e: nat, j: nat
      ensures (e, j) in Refs(u, i) <==> InoAt(u, e, j) == i
      ensures (e, j) in Refs(t, i) <==> InoAt(t, e, j) == i
    {}
    hide InoAt;
    if i == d {
      assert Refs(u, i) == Refs(t, i) - {(x, 1)};
      RemovedCard(Refs(t, i), (x, 1));
    } else if i != x {
      assert Refs(u, i) == Refs(t, i);
    }
  }

  lemma GoneDirs(t: Tree, d: nat, k: nat, x: nat)
    requires Sound(t) && CanRemove(t, d, k, x)
    ensures d < |t| && k < |t[d].entries| && x < |t| && x != d && Dirs(Gone(t, d, k))
  {
    OnlyTwo(t, d, k, x);
    var u := Gone(t, d, k);
    var name := t[d].entries[k].name;
    ZeroedDirs(t, d, k, name);
    var m := Put(t, d, k, Entry(0, name));
    forall e: nat | e < |u| ensures DirOk(u, e) && NamesDiffer(u[e]) {
      assert DirOk(m, e) && NamesDiffer(m[e]) && InoAt(t, e, 1) == InoAt(m, e, 1);
    }
    assert DirOk(m, ROOT);
  }

  lemma EntriesGone(t: Tree, u: Tree, d: nat, k: nat, x: nat)
    requires Entries(t) && x != d && x > 0 && k >= 2
    requires forall e: nat, j: nat :: InoAt(t, e, j) == x <==> (e == x && j == 0) || (e == d && j == k)
    requires forall e: nat, j: nat :: InoAt(u, e, j) == if e == x || (e == d && j == k) then 0 else InoAt(t, e, j)
    requires forall i: nat :: IsDir(u, i) == (IsDir(t, i) && i != x) && (IsUsed(t, i) && i != x ==> IsUsed(u, i))
    requires forall j: nat | j >= 2 :: InoAt(t, x, j) == 0
    requires forall i: nat :: IsDir(t, i) ==> i > 0
    ensures Entries(u)
  {
    forall e: nat, j: nat ensures EntryOk(u, e, j) {
      assert EntryOk(t, e, j);
    }
    forall y: nat ensures Named(u, y) {
      assert Named(t, y);
      if IsDir(u, y) && y != ROOT {
        var j: nat :| j >= 2 && InoAt(t, Parent(t, y), j) == y;
        assert InoAt(u, Parent(u, y), j) == y;
      }
    }
  }

  /** sys_rmdir keeps the link counts, and removes exactly the directory. */
  lemma RmdirSound(t: Tree, d: nat, k: nat, x: nat)
    requires Sound(t) && CanRemove(t, d, k, x) && t[x].count == 0
    ensures d < |t| && k < |t[d].entries| && x < |t| && t[d].links > 1
    ensures Sound(RemovedDir(t, d, k)) && !RemovedDir(t, d, k)[x].used
    ensures t[x].links == 2
  {
    OnlyTwo(t, d, k, x);
    GoneDirs(t, d, k, x);
    var u := Gone(t, d, k);
    forall e: nat, j: nat ensures InoAt(u, e, j) == if e == x || (e == d && j == k) then 0 else InoAt(t, e, j) {
      GoneIno(t, d, k, x, e, j);
    }
    forall i: nat | IsDir(t, i) ensures i > 0 {
      DotDot(t, i);
    }
    EntriesGone(t, u, d, k, x);
    RmdirCounts(t, d, k, x);
    hide Gone;
    LinksOnly(u, d, t[d].links - 1);
  }

  lemma RmdirCounts(t: Tree, d: nat, k: nat, x: nat)
    requires Sound(t) && CanRemove(t, d, k, x) && t[x].count == 0
    ensures d < |t| && k < |t[d].entries| && x < |t| && x != d && d > 0 && t[d].links > 1 && t[x].links == 2
    ensures Gone(t, d, k)[d].used && t[d].links - 1 == |Refs(Gone(t, d, k), d)| && t[d].links <= 256
    ensures forall i: nat | 0 < i < |t| && i != d :: CountOk(Gone(t, d, k), i)
  {
    OnlyTwo(t, d, k, x);
    DotDot(t, d);
    DotDot(t, x);
    assert DirOk(t, d) && CountOk(t, d) && CountOk(t, x);
    GoneRefs(t, d, k, x, d);
    assert {(d, 0), (x, 1)} <= Refs(t, d);
    TwoElements((d, 0), (x, 1), Refs(t, d));
    forall e: nat, j: nat ensures (e, j) in Refs(t, x) <==> (e, j) in {(x, 0), (d, k)} {
      RefsIno(t, x, e, j);
    }
    assert Refs(t, x) == {(x, 0), (d, k)};
    forall i: nat | 0 < i < |t| && i != d ensures CountOk(Gone(t, d, k), i) {
      assert CountOk(t, i);
      GoneRefs(t, d, k, x, i);
    }
  }

  lemma RefsIno(t: Tree, i: nat, e: nat, j: nat)
    requires i > 0
    ensures (e, j) in Refs(t, i) <==> InoAt(t, e, j) == i
  {}

  lemma TwoElements<T>(a: T, b: T, s: set<T>)
    requires a != b && {a, b} <= s
    ensures |s| >= 2
  {
    assert s == {a, b} + (s - {a, b});
  }
}
