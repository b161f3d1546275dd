/**
 When each call of fs/namei.c refuses, and with what, in terms of the entries, the inodes and the
 arguments; and what O_EXCL is for.
 */
module CallAnswers {
  import opened LinkCounts
  import opened DirectoryCalls

  /** Entry k is in use and carries the first 14 characters of the name, or "." when the name is ".." in
      the root of the process. */
  ghost predicate Carries(n: Node, name: string, root: bool, k: nat) {
    && k < |n.entries| && n.entries[k].ino != 0
    && n.entries[k].name == if root && name == ".." then "." else if |name| <= 14 then name else name[..14]
  }

  ghost predicate Has(n: Node, name: string, root: bool) {
    exists k: nat :: Carries(n, name, root, k)
  }

  /** Some entry that carries the name names a directory. */
  ghost predicate HasDir(t: Tree, d: nat, name: string, root: bool)
    requires d < |t|
  {
    exists k: nat :: Carries(t[d], name, root, k) && IsDir(t, t[d].entries[k].ino)
  }

  /** No entry is free, and no block for one more. */
  ghost predicate NoRoom(n: Node, canGrow: bool) {
    !canGrow && forall k: nat | k < |n.entries| :: n.entries[k].ino != 0
  }

  ghost predicate NoInode(t: Tree) {
    forall i: nat | 0 < i < |t| :: t[i].used
  }

  lemma CarriesHolds(n: Node, name: string, root: bool, k: nat)
    ensures Carries(n, name, root, k) <==> Holds(n.entries, Wanted(name, root), k)
  {}

  lemma FoundIff(t: Tree, d: nat, name: string, root: bool)
    requires d < |t| && name != ""
    ensures Found(t, d, name, root) <==> Has(t[d], name, root)
  {
    var k := Lookup(t, d, name, root);
    CarriesHolds(t[d], name, root, k);
    if Has(t[d], name, root) {
      var j: nat :| Carries(t[d], name, root, j);
      CarriesHolds(t[d], name, root, j);
    }
  }

  /** Names differ, so what is found is the only one. */
  lemma OnlyEntry(t: Tree, d: nat, name: string, root: bool, k: nat)
    requires Dirs(t) && d < |t| && name != "" && Carries(t[d], name, root, k)
    ensures Lookup(t, d, name, root) == k && Target(t, d, name, root) == t[d].entries[k].ino
  {
    FoundIff(t, d, name, root);
    assert Has(t[d], name, root);
    CarriesHolds(t[d], name, root, k);
    assert NamesDiffer(t[d]);
  }

  lemma TargetDir(t: Tree, d: nat, name: string, root: bool)
    requires Dirs(t) && d < |t| && name != "" && Found(t, d, name, root)
    ensures Carries(t[d], name, root, Lookup(t, d, name, root))
    ensures IsDir(t, Target(t, d, name, root)) <==> HasDir(t, d, name, root)
  {
    CarriesHolds(t[d], name, root, Lookup(t, d, name, root));
    if HasDir(t, d, name, root) {
      var k: nat :| Carries(t[d], name, root, k) && IsDir(t, t[d].entries[k].ino);
      OnlyEntry(t, d, name, root, k);
    }
  }

  lemma NoRoomIff(t: Tree, d: nat, canGrow: bool)
    requires d < |t|
    ensures NoRoom(t[d], canGrow) <==> !HasRoom(t, d, canGrow)
    ensures NoInode(t) <==> LowestFree(t, 1) == 0
  {}

  // ---------------------------------------------------------------- the answers

  lemma OpenAnswers(
    t: Tree, d: nat, name: string, root: bool, writing: bool, create: bool, excl: bool, mayOpen: bool, mayWrite: bool,
    canGrow: bool)
    requires Sound(t) && IsDir(t, d)
    ensures
      var r := Answer(t, Open(d, name, root, writing, create, excl, mayOpen, mayWrite, canGrow));
      var has := Has(t[d], name, root);
      && (r == IsDirectory <==> name == "" && (writing || create))
      && (r == Exists <==> name != "" && has && excl)
      && (r == NotFound <==> name != "" && !has && !create)
      && (r == NotPermitted <==>
            || (name != "" && has && !excl && (!mayOpen || (writing && HasDir(t, d, name, root))))
            || (name != "" && !has && create && !mayWrite))
      && (r == NoSpace <==> name != "" && !has && create && mayWrite && (NoInode(t) || NoRoom(t[d], canGrow)))
      && (r == Ok || r == IsDirectory || r == Exists || r == NotFound || r == NotPermitted || r == NoSpace)
  {
    NoRoomIff(t, d, canGrow);
    if name != "" {
      FoundIff(t, d, name, root);
      if Found(t, d, name, root) {
        TargetDir(t, d, name, root);
      }
    }
  }

  lemma MknodAnswers(t: Tree, d: nat, name: string, root: bool, super: bool, mayWrite: bool, canGrow: bool, asDir: bool)
    requires Sound(t) && IsDir(t, d)
    ensures
      var r := Answer(t, Mknod(d, name, root, super, mayWrite, canGrow, asDir));
      var has := Has(t[d], name, root);
      && (r == NotPermitted <==> !super || (name != "" && !mayWrite))
      && (r == NotFound <==> super && name == "")
      && (r == Exists <==> super && name != "" && mayWrite && has)
      && (r == NoSpace <==> super && name != "" && mayWrite && !has && (NoInode(t) || NoRoom(t[d], canGrow)))
      && (r == Ok || r == NotPermitted || r == NotFound || r == Exists || r == NoSpace)
  {
    NoRoomIff(t, d, canGrow);
    if name != "" {
      FoundIff(t, d, name, root);
    }
  }

  lemma LinkAnswers(t: Tree, x: nat, d: nat, name: string, root: bool, mayWrite: bool, canGrow: bool)
    requires Sound(t) && IsDir(t, d) && 0 < x && IsUsed(t, x)
    ensures
      var r := Answer(t, Link(x, d, name, root, mayWrite, canGrow));
      var has := Has(t[d], name, root);
      && (r == NotPermitted <==> t[x].dir || name == "" || !mayWrite)
      && (r == Exists <==> !t[x].dir && name != "" && mayWrite && has)
      && (r == NoSpace <==> !t[x].dir && name != "" && mayWrite && !has && NoRoom(t[d], canGrow))
      && (r == Ok || r == NotPermitted || r == Exists || r == NoSpace)
  {
    NoRoomIff(t, d, canGrow);
    if name != "" {
      FoundIff(t, d, name, root);
    }
  }

  lemma UnlinkAnswers(t: Tree, d: nat, name: string, root: bool, mayWrite: bool, mayRemove: bool)
    requires Sound(t) && IsDir(t, d)
    ensures
      var r := Answer(t, Unlink(d, name, root, mayWrite, mayRemove));
      var has := Has(t[d], name, root);
      && (r == NotFound <==> name == "" || (mayWrite && !has))
      && (r == NotPermitted <==> name != "" && (!mayWrite || (has && (!mayRemove || HasDir(t, d, name, root)))))
      && (r == Ok || r == NotFound || r == NotPermitted)
  {
    if name != "" {
      FoundIff(t, d, name, root);
      if Found(t, d, name, root) {
        TargetDir(t, d, name, root);
      }
    }
  }

  lemma MkdirAnswers(
    t: Tree, d: nat, name: string, root: bool, super: bool, mayWrite: bool, hasBlock: bool, canGrow: bool)
    requires Sound(t) && IsDir(t, d)
    ensures
      var r := Answer(t, Mkdir(d, name, root, super, mayWrite, hasBlock, canGrow));
      var has := Has(t[d], name, root);
      && (r == NotPermitted <==> !super || (name != "" && !mayWrite))
      && (r == NotFound <==> super && name == "")
      && (r == Exists <==> super && name != "" && mayWrite && has)
      && (r == NoSpace <==> super && name != "" && mayWrite && !has && (NoInode(t) || !hasBlock))
      && (r == Panicked <==>
            super && name != "" && mayWrite && !has && !NoInode(t) && hasBlock && NoRoom(t[d], canGrow))
      && (r == Ok || r == NotPermitted || r == NotFound || r == Exists || r == NoSpace || r == Panicked)
  {
    NoRoomIff(t, d, canGrow);
    if name != "" {
      FoundIff(t, d, name, root);
    }
  }

  /** For a name that is there, with entry k. */
  lemma RmdirAnswers(
    t: Tree, d: nat, name: string, root: bool, super: bool, mayWrite: bool, mayRemove: bool, k: nat)
    requires Sound(t) && IsDir(t, d)
    ensures
      var r := Answer(t, Rmdir(d, name, root, super, mayWrite, mayRemove));
      var has := Has(t[d], name, root);
      && (r == NotFound <==> super && (name == "" || (mayWrite && !has)))
      && (!super || (name != "" && !mayWrite) ==> r == NotPermitted)
      && (super && name != "" && mayWrite && Carries(t[d], name, root, k) ==>
            var x := t[d].entries[k].ino;
            && x < |t|
            && (r == NotPermitted <==> !mayRemove || t[x].count > 0 || x == d)
            && (r == NotDirectory <==> mayRemove && t[x].count == 0 && x != d && !t[x].dir)
            && (r == NotEmpty <==>
                  && mayRemove && t[x].count == 0 && x != d && t[x].dir
                  && exists j: nat :: 2 <= j < |t[x].entries| && t[x].entries[j].ino != 0)
            && (r == Ok || r == NotPermitted || r == NotDirectory || r == NotEmpty))
  {
    if name != "" {
      FoundIff(t, d, name, root);
      if Carries(t[d], name, root, k) {
        OnlyEntry(t, d, name, root, k);
        FoundMeans(t, d, name, root);
        assert DirOk(t, t[d].entries[k].ino);
      }
    }
  }

  // ---------------------------------------------------------------- what a call that succeeds does

  /** Every inode but those in `xs` is as it was. */
  ghost predicate Only(t: Tree, u: Tree, xs: set<nat>) {
    |u| == |t| && forall i: nat | i < |t| && i !in xs :: u[i] == t[i]
  }

  /** Directory d has one entry more, with this name for inode x; it takes a free place if there is one. */
  ghost predicate Enters(t: Tree, u: Tree, d: nat, name: string, root: bool, x: nat) {
    d < |t| && d < |u| && exists k: nat ::
      && Carries(u[d], name, root, k) && u[d].entries[k].ino == x
      && (k == |t[d].entries| || (k < |t[d].entries| && t[d].entries[k].ino == 0))
      && |u[d].entries| == (if k == |t[d].entries| then k + 1 else |t[d].entries|)
      && forall j: nat | j < |t[d].entries| && j != k :: u[d].entries[j] == t[d].entries[j]
  }

  /** Entry k of directory d has been cleared. */
  ghost predicate Cleared(t: Tree, u: Tree, d: nat, k: nat) {
    && d < |t| && d < |u| && k < |t[d].entries| == |u[d].entries| && u[d].entries[k].ino == 0
    && forall j: nat | j < |t[d].entries| && j != k :: u[d].entries[j] == t[d].entries[j]
  }

  /** The kind, links and references of an inode. */
  function Counters(n: Node): (bool, bool, nat, nat) {
    (n.used, n.dir, n.links, n.count)
  }

  /** x is the lowest free inode of t, and only it and d have changed. */
  ghost predicate LowestUnused(t: Tree, u: Tree, d: nat, x: nat) {
    0 < x < |t| && !t[x].used && x != d && (forall i: nat | 0 < i < x :: t[i].used) && Only(t, u, {d, x})
  }

  lemma PutNames(t: Tree, u: Tree, d: nat, name: string, root: bool, x: nat)
    requires d < |t| && d < |u| && x != 0
    requires u[d].entries == Put(t, d, FreeEntry(t[d].entries), Entry(x, Wanted(name, root)))[d].entries
    ensures Enters(t, u, d, name, root, x)
  {
    var k := FreeEntry(t[d].entries);
    CarriesHolds(u[d], name, root, k);
    assert Carries(u[d], name, root, k) && u[d].entries[k].ino == x;
  }

  lemma CreatedShape(t: Tree, d: nat, name: string, root: bool, x: nat, count: nat, asDir: bool)
    requires d < |t| && 0 < x < |t| && x != d && !t[x].used
    ensures
      var k := FreeEntry(t[d].entries);
      var v := Created(t, d, k, Wanted(name, root), x, count);
      var u := if asDir then v[x := v[x].(dir := true)] else v;
      && Only(t, u, {d, x}) && u[x] == Node(true, asDir, 1, count, []) && Enters(t, u, d, name, root, x)
      && Counters(u[d]) == Counters(t[d])
  {
    var k := FreeEntry(t[d].entries);
    var v := Created(t, d, k, Wanted(name, root), x, count);
    var u := if asDir then v[x := v[x].(dir := true)] else v;
    assert u[d] == Put(t, d, k, Entry(x, Wanted(name, root)))[d];
    PutNames(t, u, d, name, root, x);
    hide Enters;
  }

  lemma MadeShape(t: Tree, d: nat, name: string, root: bool, x: nat)
    requires d < |t| && 0 < x < |t| && x != d && !t[x].used && t[d].links < 255
    ensures
      var u := MadeDir(t, d, FreeEntry(t[d].entries), Wanted(name, root), x);
      && Only(t, u, {d, x}) && u[x] == Node(true, true, 2, 0, [Entry(x, "."), Entry(d, "..")])
      && Enters(t, u, d, name, root, x) && Counters(u[d]) == Counters(t[d].(links := t[d].links + 1))
  {
    var k := FreeEntry(t[d].entries);
    var u := MadeDir(t, d, k, Wanted(name, root), x);
    assert u[d].entries == Put(t, d, k, Entry(x, Wanted(name, root)))[d].entries;
    PutNames(t, u, d, name, root, x);
    hide Enters;
  }

  lemma LinkedShape(t: Tree, d: nat, name: string, root: bool, x: nat)
    requires d < |t| && 0 < x < |t| && x != d && t[x].links < 256 && t[x].entries == [] && t[x].used && !t[x].dir
    ensures
      var u := Linked(t, d, FreeEntry(t[d].entries), Wanted(name, root), x);
      && Only(t, u, {d, x}) && Enters(t, u, d, name, root, x) && Counters(u[d]) == Counters(t[d])
      && (t[x].links < 255 ==> u[x] == t[x].(links := t[x].links + 1))
      && (t[x].links == 255 && t[x].count > 0 ==> u[x] == t[x].(links := 0))
      && (t[x].links == 255 && t[x].count == 0 ==> u[x] == Node(false, false, 0, 0, []))
  {
    var k := FreeEntry(t[d].entries);
    var u := Linked(t, d, k, Wanted(name, root), x);
    assert u[d] == Put(t, d, k, Entry(x, Wanted(name, root)))[d];
    PutNames(t, u, d, name, root, x);
    hide Enters;
  }

  /** mknod: a free inode, not held, with one link. */
  lemma AfterMknod(t: Tree, d: nat, name: string, root: bool, super: bool, mayWrite: bool, canGrow: bool, asDir: bool, u: Tree)
    requires
      var c := Mknod(d, name, root, super, mayWrite, canGrow, asDir);
      Sound(t) && Possible(t, c) && Effect(t, c, u) && Answer(t, c) == Ok
    ensures exists x: nat ::
      LowestUnused(t, u, d, x) && u[x] == Node(true, asDir, 1, 0, []) && Enters(t, u, d, name, root, x) && Counters(u[d]) == Counters(t[d])
  {
    var x := LowestFree(t, 1);
    NotFoundMeans(t, d, name, root);
    assert DirOk(t, x) && DirOk(t, d);
    hide Sound, Enters, Dirs, Created;
    CreatedShape(t, d, name, root, x, 0, asDir);
    assert LowestUnused(t, u, d, x);
  }

  /** open of a name that is there, or of the directory itself: one more reference, nothing else. */
  lemma AfterOpen(t: Tree, c: Call, u: Tree, k: nat)
    requires Sound(t) && Possible(t, c) && c.Open? && Effect(t, c, u) && Answer(t, c) == Ok
    requires c.name == "" || Carries(t[c.d], c.name, c.root, k)
    ensures
      var x := if c.name == "" then c.d else t[c.d].entries[k].ino;
      x < |t| && Only(t, u, {x}) && u[x] == t[x].(count := t[x].count + 1)
  {
    if c.name != "" {
      OnlyEntry(t, c.d, c.name, c.root, k);
      FoundIff(t, c.d, c.name, c.root);
      FoundMeans(t, c.d, c.name, c.root);
    }
  }

  /** link: the name, and one link more, in eight bits. */
  lemma AfterLink(t: Tree, x: nat, d: nat, name: string, root: bool, mayWrite: bool, canGrow: bool, u: Tree)
    requires
      var c := Link(x, d, name, root, mayWrite, canGrow);
      Sound(t) && Possible(t, c) && Effect(t, c, u) && Answer(t, c) == Ok
    ensures Only(t, u, {d, x}) && Enters(t, u, d, name, root, x) && Counters(u[d]) == Counters(t[d]) && x < |t|
    ensures t[x].links < 255 ==> u[x] == t[x].(links := t[x].links + 1)
    ensures t[x].links == 255 && t[x].count > 0 ==> u[x] == t[x].(links := 0)
    ensures t[x].links == 255 && t[x].count == 0 ==> u[x] == Node(false, false, 0, 0, [])
  {
    NotFoundMeans(t, d, name, root);
    assert CountOk(t, x) && DirOk(t, x);
    hide Sound, Enters, Dirs, Linked;
    LinkedShape(t, d, name, root, x);
  }

  /** unlink: the entry is cleared, and the file has a link less; without links and references it is
      free. */
  lemma AfterUnlink(t: Tree, d: nat, name: string, root: bool, mayWrite: bool, mayRemove: bool, k: nat, u: Tree)
    requires
      var c := Unlink(d, name, root, mayWrite, mayRemove);
      Sound(t) && Possible(t, c) && Effect(t, c, u) && Answer(t, c) == Ok
    requires Carries(t[d], name, root, k)
    ensures
      var x := t[d].entries[k].ino;
      && 0 < x < |t| && x != d && t[x].links > 0 && Only(t, u, {d, x}) && Cleared(t, u, d, k) && Counters(u[d]) == Counters(t[d])
      && u[x] == if t[x].links == 1 && t[x].count == 0 then Node(false, false, 0, 0, []) else t[x].(links := t[x].links - 1)
  {
    OnlyEntry(t, d, name, root, k);
    FoundIff(t, d, name, root);
    FoundMeans(t, d, name, root);
    assert DirOk(t, t[d].entries[k].ino);
  }

  /** mkdir: a free inode becomes a directory with its two dots, and the parent has a link more. */
  lemma AfterMkdir(
    t: Tree, d: nat, name: string, root: bool, super: bool, mayWrite: bool, hasBlock: bool, canGrow: bool, u: Tree)
    requires
      var c := Mkdir(d, name, root, super, mayWrite, hasBlock, canGrow);
      Sound(t) && Possible(t, c) && Effect(t, c, u) && Answer(t, c) == Ok && t[d].links < 255
    ensures exists x: nat ::
      && LowestUnused(t, u, d, x) && u[x] == Node(true, true, 2, 0, [Entry(x, "."), Entry(d, "..")])
      && Enters(t, u, d, name, root, x) && Counters(u[d]) == Counters(t[d].(links := t[d].links + 1))
  {
    var x := LowestFree(t, 1);
    NotFoundMeans(t, d, name, root);
    assert DirOk(t, x) && DirOk(t, d);
    hide Sound, Enters, Dirs, MadeDir;
    MadeShape(t, d, name, root, x);
    assert LowestUnused(t, u, d, x);
  }

  /** rmdir: the entry is cleared, the directory is free, and the parent has a link less. */
  lemma AfterRmdir(t: Tree, d: nat, name: string, root: bool, super: bool, mayWrite: bool, mayRemove: bool, k: nat, u: Tree)
    requires
      var c := Rmdir(d, name, root, super, mayWrite, mayRemove);
      Sound(t) && Possible(t, c) && Effect(t, c, u) && Answer(t, c) == Ok
    requires Carries(t[d], name, root, k)
    ensures
      var x := t[d].entries[k].ino;
      && 0 < x < |t| && x != d && t[d].links > 0 && Only(t, u, {d, x}) && Cleared(t, u, d, k)
      && u[x] == Node(false, false, 0, 0, []) && Counters(u[d]) == Counters(t[d].(links := t[d].links - 1))
  {
    OnlyEntry(t, d, name, root, k);
    FoundIff(t, d, name, root);
    FoundMeans(t, d, name, root);
  }

  // ---------------------------------------------------------------- exclusive creation

  /** Entry k of directory d carries the name in u, and names a file that somebody holds now and that was
      a free inode in t. */
  ghost predicate NewFile(t: Tree, u: Tree, d: nat, name: string, root: bool, k: nat) {
    && d < |u| && Carries(u[d], name, root, k) && k >= 2
    && var x := u[d].entries[k].ino;
    x < |t| && x < |u| && !t[x].used && u[x].used && !u[x].dir && u[x].count == 1
  }

  /** An exclusive create that succeeds has found no entry with the name, and opens an inode that was
      free: the name's now. */
  lemma ExclusiveIsNew(t: Tree, c: Call, u: Tree)
    requires Sound(t) && Possible(t, c) && c.Open? && c.name != "" && c.create && c.excl
    requires Answer(t, c) == Ok && Effect(t, c, u)
    ensures !Has(t[c.d], c.name, c.root)
    ensures |u| == |t| && exists k: nat :: NewFile(t, u, c.d, c.name, c.root, k)
  {
    FoundIff(t, c.d, c.name, c.root);
    NotFoundMeans(t, c.d, c.name, c.root);
    PlaceBehind(t, c.d, FreeEntry(t[c.d].entries), Wanted(c.name, c.root));
    CarriesHolds(u[c.d], c.name, c.root, FreeEntry(t[c.d].entries));
    assert NewFile(t, u, c.d, c.name, c.root, FreeEntry(t[c.d].entries));
  }

  /** Entry k of directory d carries the name and names a file. */
  ghost predicate FileAt(t: Tree, d: nat, name: string, root: bool, k: nat) {
    IsDir(t, d) && Carries(t[d], name, root, k) && k >= 2 && !IsDir(t, t[d].entries[k].ino)
  }

  /** From t to u the entry has stayed, and what it names has not become a directory. */
  ghost predicate Untouched(t: Tree, u: Tree, d: nat, k: nat) {
    && IsDir(t, d) && IsDir(u, d) && k < |t[d].entries| && k < |u[d].entries| && u[d].entries[k] == t[d].entries[k]
    && !IsDir(u, t[d].entries[k].ino)
  }

  /** The call is an unlink of this name in directory d. */
  predicate UnlinksName(c: Call, d: nat, name: string, root: bool) {
    c.Unlink? && c.d == d && Wanted(c.name, c.root) == Wanted(name, root)
  }

  /** The inode of the entry is in use, other than d, and has a link. */
  lemma FileFacts(t: Tree, d: nat, name: string, root: bool, k: nat)
    requires Sound(t) && FileAt(t, d, name, root, k)
    ensures
      var x := t[d].entries[k].ino;
      && 0 < x < |t| && x != d && d > 0 && t[x].used && t[x].links > 0 && t[x].entries == []
      && t[d].used && t[d].links > 0 && (d, k) in Refs(t, x)
  {
    var x := t[d].entries[k].ino;
    assert EntryOk(t, d, k) && InoAt(t, d, k) == x;
    DotDot(t, d);
    assert DirOk(t, d) && DirOk(t, x);
    RefsIno(t, x, d, k);
    RefsIno(t, d, d, 0);
    assert CountOk(t, x) && CountOk(t, d);
  }

  lemma CreateLeaves(t: Tree, d: nat, k: nat, e: nat, j: nat, name: string, y: nat, count: nat)
    requires IsDir(t, d) && k < |t[d].entries| && t[d].entries[k].ino != 0 && !IsDir(t, t[d].entries[k].ino) && t[d].used
    requires e < |t| && j <= |t[e].entries| && (j < |t[e].entries| ==> t[e].entries[j].ino == 0) && y < |t| && !t[y].used && y != e
    ensures Untouched(t, Created(t, e, j, name, y, count), d, k)
  {}

  lemma MkdirLeaves(t: Tree, d: nat, k: nat, e: nat, j: nat, name: string, y: nat)
    requires IsDir(t, d) && k < |t[d].entries| && t[d].entries[k].ino != 0 && !IsDir(t, t[d].entries[k].ino) && t[d].used
    requires IsUsed(t, t[d].entries[k].ino)
    requires e < |t| && j <= |t[e].entries| && (j < |t[e].entries| ==> t[e].entries[j].ino == 0) && y < |t| && !t[y].used && y != e
    requires t[e].links < 255
    ensures Untouched(t, MadeDir(t, e, j, name, y), d, k)
  {}

  lemma LinkLeaves(t: Tree, d: nat, k: nat, e: nat, j: nat, name: string, y: nat)
    requires IsDir(t, d) && k < |t[d].entries| && t[d].entries[k].ino != 0 && !IsDir(t, t[d].entries[k].ino)
    requires e < |t| && j <= |t[e].entries| && (j < |t[e].entries| ==> t[e].entries[j].ino == 0)
    requires y < |t| && t[y].links < 255
    ensures Untouched(t, Linked(t, e, j, name, y), d, k)
  {}

  lemma UnlinkLeaves(t: Tree, d: nat, k: nat, e: nat, j: nat)
    requires IsDir(t, d) && k < |t[d].entries| && t[d].entries[k].ino != 0 && !IsDir(t, t[d].entries[k].ino)
    requires e < |t| && j < |t[e].entries| && 0 < t[e].entries[j].ino < |t| && t[t[e].entries[j].ino].links > 0
    requires (e, j) != (d, k) && t[e].entries[j].ino != d
    ensures Untouched(t, Unlinked(t, e, j), d, k)
  {}

  lemma RmdirLeaves(t: Tree, d: nat, k: nat, e: nat, j: nat)
    requires IsDir(t, d) && k < |t[d].entries| && t[d].entries[k].ino != 0 && !IsDir(t, t[d].entries[k].ino)
    requires e < |t| && j < |t[e].entries| && t[e].entries[j].ino < |t| && t[e].links > 0
    requires t[e].entries[j].ino != d && (e, j) != (d, k) && e != t[e].entries[j].ino
    ensures Untouched(t, RemovedDir(t, e, j), d, k)
  {}

  lemma UntouchedFile(t: Tree, u: Tree, d: nat, name: string, root: bool, k: nat)
    requires FileAt(t, d, name, root, k) && Untouched(t, u, d, k)
    ensures FileAt(u, d, name, root, k)
  {}

  lemma MadeStays(t: Tree, e: nat, n: string, r: bool, count: nat, u: Tree, d: nat, name: string, root: bool, k: nat)
    requires Sound(t) && FileAt(t, d, name, root, k) && IsDir(t, e) && n != "" && !Found(t, e, n, r)
    requires Makes(t, e, Wanted(n, r), count, false, u)
    ensures Untouched(t, u, d, k)
  {
    FileFacts(t, d, name, root, k);
    NotFoundMeans(t, e, n, r);
    hide Found;
    CreateLeaves(t, d, k, e, FreeEntry(t[e].entries), Wanted(n, r), LowestFree(t, 1), count);
  }

  lemma CloseStays(t: Tree, x: nat, d: nat, name: string, root: bool, k: nat)
    requires Sound(t) && FileAt(t, d, name, root, k) && 0 < x < |t| && t[x].count > 0
    ensures Untouched(t, Closed(t, x), d, k)
  {
    FileFacts(t, d, name, root, k);
  }

  lemma UnlinkStays(t: Tree, e: nat, n: string, r: bool, d: nat, name: string, root: bool, k: nat)
    requires Sound(t) && FileAt(t, d, name, root, k) && IsDir(t, e) && n != "" && Found(t, e, n, r)
    requires !IsDir(t, Target(t, e, n, r)) && !(e == d && Wanted(n, r) == Wanted(name, root))
    ensures
      var j := Lookup(t, e, n, r);
      && j < |t[e].entries| && 0 < t[e].entries[j].ino < |t| && t[t[e].entries[j].ino].links > 0
      && Untouched(t, Unlinked(t, e, j), d, k)
  {
    FileFacts(t, d, name, root, k);
    FoundMeans(t, e, n, r);
    CarriesHolds(t[d], name, root, k);
    hide Sound;
    UnlinkLeaves(t, d, k, e, Lookup(t, e, n, r));
  }

  lemma RmdirStays(t: Tree, e: nat, n: string, r: bool, d: nat, name: string, root: bool, k: nat)
    requires Sound(t) && FileAt(t, d, name, root, k) && IsDir(t, e) && n != "" && Found(t, e, n, r)
    requires var x := Target(t, e, n, r); x != e && IsDir(t, x) && Bare(t[x].entries)
    ensures
      var j := Lookup(t, e, n, r);
      && j < |t[e].entries| && t[e].entries[j].ino < |t| && t[e].links > 0
      && Untouched(t, RemovedDir(t, e, j), d, k)
  {
    FileFacts(t, d, name, root, k);
    FoundMeans(t, e, n, r);
    DirLinks(t, e);
    hide Sound;
    RmdirLeaves(t, d, k, e, Lookup(t, e, n, r));
  }

  lemma DirLinks(t: Tree, e: nat)
    requires Sound(t) && IsDir(t, e)
    ensures t[e].links > 0
  {
    DotDot(t, e);
    RefsIno(t, e, e, 0);
    assert CountOk(t, e) && DirOk(t, e);
  }

  lemma MkdirStays(t: Tree, e: nat, n: string, r: bool, d: nat, name: string, root: bool, k: nat)
    requires Sound(t) && FileAt(t, d, name, root, k) && IsDir(t, e) && n != "" && !Found(t, e, n, r)
    requires LowestFree(t, 1) != 0 && t[e].links < 255
    ensures FreeEntry(t[e].entries) <= |t[e].entries|
    ensures Untouched(t, MadeDir(t, e, FreeEntry(t[e].entries), Wanted(n, r), LowestFree(t, 1)), d, k)
  {
    FileFacts(t, d, name, root, k);
    assert DirOk(t, e);
    hide Sound;
    MkdirLeaves(t, d, k, e, FreeEntry(t[e].entries), Wanted(n, r), LowestFree(t, 1));
  }

  lemma LinkStays(t: Tree, y: nat, e: nat, n: string, r: bool, d: nat, name: string, root: bool, k: nat)
    requires Sound(t) && FileAt(t, d, name, root, k) && IsDir(t, e) && y < |t| && t[y].links < 255
    ensures FreeEntry(t[e].entries) <= |t[e].entries|
    ensures Untouched(t, Linked(t, e, FreeEntry(t[e].entries), Wanted(n, r), y), d, k)
  {
    hide Sound;
    LinkLeaves(t, d, k, e, FreeEntry(t[e].entries), Wanted(n, r), y);
  }

  /** Every safe call but an unlink of the name leaves a file its name. */
  lemma NameStays(t: Tree, c: Call, u: Tree, d: nat, name: string, root: bool, k: nat)
    requires Sound(t) && Possible(t, c) && Effect(t, c, u) && Safe(t, c) && FileAt(t, d, name, root, k)
    requires !(UnlinksName(c, d, name, root) && Answer(t, c) == Ok)
    ensures FileAt(u, d, name, root, k)
  {
    hide Sound, Makes, Created, Linked, Unlinked, MadeDir, RemovedDir, Closed, Found, FileAt, Bare;
    if Answer(t, c) == Ok {
      match c {
        case Mknod(e, n, r, _, _, _, _) => MadeStays(t, e, n, r, 0, u, d, name, root, k);
        case Open(e, n, r, _, _, _, _, _, _) =>
          if n != "" && !Found(t, e, n, r) {
            MadeStays(t, e, n, r, 1, u, d, name, root, k);
          } else {
            assert Untouched(t, u, d, k) by { OpenStays(t, if n == "" then e else Target(t, e, n, r), d, name, root, k); }
          }
        case Close(x) => CloseStays(t, x, d, name, root, k);
        case Link(y, e, n, r, _, _) => LinkStays(t, y, e, n, r, d, name, root, k);
        case Unlink(e, n, r, _, _) => UnlinkStays(t, e, n, r, d, name, root, k);
        case Mkdir(e, n, r, _, _, _, _) => MkdirStays(t, e, n, r, d, name, root, k);
        case Rmdir(e, n, r, _, _, _) => RmdirStays(t, e, n, r, d, name, root, k);
      }
      UntouchedFile(t, u, d, name, root, k);
    }
  }

  lemma OpenStays(t: Tree, x: nat, d: nat, name: string, root: bool, k: nat)
    requires x < |t| && FileAt(t, d, name, root, k)
    ensures Untouched(t, Opened(t, x), d, k)
  {}

  /** Between the calls i and j of a run an unlink of the name in d has succeeded. */
  ghost predicate UnlinkedBetween(states: seq<Tree>, calls: seq<Call>, i: nat, j: nat, d: nat, name: string, root: bool)
    requires Run(states, calls) && j <= |calls|
  {
    exists k: nat :: i <= k < j && UnlinksName(calls[k], d, name, root) && Answer(states[k], calls[k]) == Ok
  }

  lemma {:induction false} NameStaysInRun(
    states: seq<Tree>, calls: seq<Call>, i: nat, j: nat, d: nat, name: string, root: bool, k: nat)
    requires Run(states, calls) && Sound(states[0]) && AllSafe(states, calls) && i <= j <= |calls|
    requires FileAt(states[i], d, name, root, k) && !UnlinkedBetween(states, calls, i, j, d, name, root)
    ensures FileAt(states[j], d, name, root, k)
  {
    hide Possible, Answer, Effect, Safe, Sound, FileAt, UnlinksName;
    if i < j {
      NameStaysInRun(states, calls, i, j - 1, d, name, root, k);
      SafeRunSound(states, calls, j - 1);
      NameStays(states[j - 1], calls[j - 1], states[j], d, name, root, k);
    }
  }

  /** An exclusive create of the name in d. */
  predicate Creates(c: Call, d: nat, name: string, root: bool) {
    c.Open? && c.d == d && c.name == name && c.root == root && c.create && c.excl
  }

  /** Of two exclusive creates of one name, without an unlink of it between them, one fails. */
  lemma ExclusiveOnce(states: seq<Tree>, calls: seq<Call>, i: nat, j: nat, d: nat, name: string, root: bool)
    requires Run(states, calls) && Sound(states[0]) && AllSafe(states, calls) && i < j < |calls| && name != ""
    requires Creates(calls[i], d, name, root) && Creates(calls[j], d, name, root)
    requires !UnlinkedBetween(states, calls, i + 1, j, d, name, root)
    ensures Answer(states[i], calls[i]) != Ok || Answer(states[j], calls[j]) == Exists
  {
    if Answer(states[i], calls[i]) == Ok {
      SafeRunSound(states, calls, i);
      ExclusiveIsNew(states[i], calls[i], states[i + 1]);
      var k: nat :| NewFile(states[i], states[i + 1], d, name, root, k);
      SafeRunSound(states, calls, i + 1);
      assert DirOk(states[i + 1], d);
      assert FileAt(states[i + 1], d, name, root, k);
      NameStaysInRun(states, calls, i + 1, j, d, name, root, k);
      FoundIff(states[j], d, name, root);
      assert Has(states[j][d], name, root);
    }
  }
}
