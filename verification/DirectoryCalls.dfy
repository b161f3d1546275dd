/**
 What the system calls of fs/namei.c answer and do, below path resolution and on one device: each
 gets the directory that the path leads to and the last part of the name. Whether the caller is the
 superuser and may write or remove is given, and so is whether a block is free. In an open, `writing`
 stands for an access mode that writes, which O_TRUNC implies.
 */
module DirectoryCalls {
  import opened LinkCounts

  datatype Result =
    Ok | Exists | NotFound | NotPermitted | IsDirectory | NotDirectory | NotEmpty | NoSpace | Panicked

  datatype Call =
    | Mknod(d: nat, name: string, root: bool, super: bool, mayWrite: bool, canGrow: bool, asDir: bool)
    | Open(
        d: nat, name: string, root: bool, writing: bool, create: bool, excl: bool, mayOpen: bool, mayWrite: bool,
        canGrow: bool)
    | Close(x: nat)
    | Link(x: nat, d: nat, name: string, root: bool, mayWrite: bool, canGrow: bool)
    | Unlink(d: nat, name: string, root: bool, mayWrite: bool, mayRemove: bool)
    | Mkdir(d: nat, name: string, root: bool, super: bool, mayWrite: bool, hasBlock: bool, canGrow: bool)
    | Rmdir(d: nat, name: string, root: bool, super: bool, mayWrite: bool, mayRemove: bool)

  // ---------------------------------------------------------------- lookups

  /** The first entry with this name, or the number of entries. */
  function Find(es: seq<Entry>, name: string): (k: nat)
    ensures k <= |es| && (k < |es| ==> Holds(es, name, k)) && forall j: nat | j < k :: !Holds(es, name, j)
  {
    if es == [] || Holds(es, name, 0) then 0
    else
      assert forall j: nat | 0 < j < |es| :: Holds(es, name, j) == Holds(es[1..], name, j - 1);
      1 + Find(es[1..], name)
  }

  /** The name that is looked for: cut, and "." for ".." in the root of the process. */
  function Wanted(name: string, root: bool): string {
    Cut(if root && name == DOTDOT then DOT else name)
  }

  function Lookup(t: Tree, d: nat, name: string, root: bool): (k: nat)
    requires d < |t|
    ensures k <= |t[d].entries|
  {
    if name == "" then |t[d].entries| else Find(t[d].entries, Wanted(name, root))
  }

  predicate Found(t: Tree, d: nat, name: string, root: bool)
    requires d < |t|
  {
    Lookup(t, d, name, root) < |t[d].entries|
  }

  /** What the entry names. */
  function Target(t: Tree, d: nat, name: string, root: bool): nat
    requires d < |t|
  {
    InoAt(t, d, Lookup(t, d, name, root))
  }

  /** The lowest free inode from i on, 0 when there is none. */
  function LowestFree(t: Tree, i: nat): (x: nat)
    requires i > 0
    ensures x == 0 || (i <= x < |t| && !t[x].used)
    ensures forall j: nat | i <= j < |t| && (x == 0 || j < x) :: t[j].used
    decreases |t| - i
  {
    if i >= |t| then 0 else if !t[i].used then i else LowestFree(t, i + 1)
  }

  predicate HasRoom(t: Tree, d: nat, canGrow: bool)
    requires d < |t|
  {
    FreeEntry(t[d].entries) < |t[d].entries| || canGrow
  }

  // ---------------------------------------------------------------- answers

  /** What the answer of a creating call depends on once it may write and has a name. */
  function CreateAnswer(t: Tree, d: nat, canGrow: bool): Result
    requires d < |t|
  {
    if LowestFree(t, 1) == 0 || !HasRoom(t, d, canGrow) then NoSpace else Ok
  }

  ghost predicate Possible(t: Tree, c: Call) {
    match c
    case Close(x) => 0 < x < |t| && t[x].count > 0
    case Link(x, d, _, _, _, _) => IsDir(t, d) && 0 < x && IsUsed(t, x)
    case _ => IsDir(t, c.d)
  }

  function Answer(t: Tree, c: Call): Result
    requires Possible(t, c)
  {
    match c
    case Mknod(d, name, root, super, mayWrite, canGrow, _) =>
      if !super then NotPermitted
      else if name == "" then NotFound
      else if !mayWrite then NotPermitted
      else if Found(t, d, name, root) then Exists
      else CreateAnswer(t, d, canGrow)
    case Open(d, name, root, writing, create, excl, mayOpen, mayWrite, canGrow) =>
      if name == "" then (if writing || create then IsDirectory else Ok)
      else if Found(t, d, name, root) then
        (if excl then Exists
         else if (IsDir(t, Target(t, d, name, root)) && writing) || !mayOpen then NotPermitted
         else Ok)
      else if !create then NotFound
      else if !mayWrite then NotPermitted
      else CreateAnswer(t, d, canGrow)
    case Close(_) => Ok
    case Link(x, d, name, root, mayWrite, canGrow) =>
      if t[x].dir || name == "" || !mayWrite then NotPermitted
      else if Found(t, d, name, root) then Exists
      else if !HasRoom(t, d, canGrow) then NoSpace
      else Ok
    case Unlink(d, name, root, mayWrite, mayRemove) =>
      if name == "" then NotFound
      else if !mayWrite then NotPermitted
      else if !Found(t, d, name, root) then NotFound
      else if !mayRemove || IsDir(t, Target(t, d, name, root)) then NotPermitted
      else Ok
    case Mkdir(d, name, root, super, mayWrite, hasBlock, canGrow) =>
      if !super then NotPermitted
      else if name == "" then NotFound
      else if !mayWrite then NotPermitted
      else if Found(t, d, name, root) then Exists
      else if LowestFree(t, 1) == 0 || !hasBlock then NoSpace
      else if !HasRoom(t, d, canGrow) then Panicked
      else Ok
    case Rmdir(d, name, root, super, mayWrite, mayRemove) =>
      if !super then NotPermitted
      else if name == "" then NotFound
      else if !mayWrite then NotPermitted
      else if !Found(t, d, name, root) then NotFound
      else
        var x := Target(t, d, name, root);
        if !mayRemove || x >= |t| || t[x].count > 0 || x == d then NotPermitted
        else if !t[x].dir then NotDirectory
        else if !Bare(t[x].entries) then NotEmpty
        else Ok
  }

  /** Only "." and ".." are left. */
  predicate Bare(es: seq<Entry>) {
    |es| >= 2 && forall j: nat | 2 <= j < |es| :: es[j].ino == 0
  }

  lemma BareIsEmpty(t: Tree, x: nat)
    requires Dirs(t) && IsDir(t, x)
    ensures Bare(t[x].entries) <==> Empty(t, x)
  {
    assert DirOk(t, x);
    if Empty(t, x) {
      assert forall j: nat | 2 <= j < |t[x].entries| :: t[x].entries[j].ino == InoAt(t, x, j);
    }
  }

  // ---------------------------------------------------------------- effects

  ghost predicate Effect(t: Tree, c: Call, u: Tree)
    requires Possible(t, c)
  {
    if Answer(t, c) != Ok then u == t else
    match c
    case Mknod(d, name, root, _, _, _, asDir) => Makes(t, d, Wanted(name, root), 0, asDir, u)
    case Open(d, name, root, _, _, _, _, _, _) =>
      if name == "" then u == Opened(t, d)
      else if Found(t, d, name, root) then
        var x := Target(t, d, name, root);
        x < |t| && u == Opened(t, x)
      else Makes(t, d, Wanted(name, root), 1, false, u)
    case Close(x) => u == Closed(t, x)
    case Link(x, d, name, root, _, _) => u == Linked(t, d, FreeEntry(t[d].entries), Wanted(name, root), x)
    case Unlink(d, name, root, _, _) =>
      var k := Lookup(t, d, name, root);
      var x := t[d].entries[k].ino;
      0 < x < |t| && t[x].links > 0 && u == Unlinked(t, d, k)
    case Mkdir(d, name, root, _, _, _, _) =>
      var x := LowestFree(t, 1);
      0 < x < |t| && u == MadeDir(t, d, FreeEntry(t[d].entries), Wanted(name, root), x)
    case Rmdir(d, name, root, _, _, _) =>
      var k := Lookup(t, d, name, root);
      t[d].entries[k].ino < |t| && t[d].links > 0 && u == RemovedDir(t, d, k)
  }

  /** A new file with the lowest free inode. mknod can be given the mode of a directory: then it is one
      that has no entries. */
  ghost predicate Makes(t: Tree, d: nat, name: string, count: nat, asDir: bool, u: Tree)
    requires d < |t|
  {
    var x := LowestFree(t, 1);
    0 < x < |t| && x != d &&
    var v := Created(t, d, FreeEntry(t[d].entries), name, x, count);
    u == if asDir then v[x := v[x].(dir := true)] else v
  }

  /** The link count that the call raises, if it raises one, is not at its largest value, and the call
      is not a mknod of a directory. */
  predicate Safe(t: Tree, c: Call)
    requires Possible(t, c)
  {
    Answer(t, c) == Ok ==>
      match c
      case Link(x, _, _, _, _, _) => t[x].links < 255
      case Mkdir(d, _, _, _, _, _, _) => t[d].links < 255
      case Mknod(_, _, _, _, _, _, asDir) => !asDir
      case _ => true
  }

  // ---------------------------------------------------------------- every call keeps the counts

  lemma NotFoundMeans(t: Tree, d: nat, name: string, root: bool)
    requires Dirs(t) && IsDir(t, d) && name != "" && !Found(t, d, name, root)
    ensures CanName(t, d, FreeEntry(t[d].entries), Wanted(name, root))
  {}

  /** What is found is used; and if it is not "." or "..", it is at place 2 or behind. */
  lemma FoundMeans(t: Tree, d: nat, name: string, root: bool)
    requires Sound(t) && IsDir(t, d) && name != "" && Found(t, d, name, root)
    ensures var x := Target(t, d, name, root); 0 < x < |t| && t[x].used && t[x].links > 0
    ensures Lookup(t, d, name, root) == 0 ==> Target(t, d, name, root) == d
    ensures Lookup(t, d, name, root) == 1 ==> Target(t, d, name, root) == Parent(t, d)
  {
    var k := Lookup(t, d, name, root);
    var x := Target(t, d, name, root);
    assert EntryOk(t, d, k);
    DotDot(t, d);
    assert CountOk(t, x);
    RefsIno(t, x, d, k);
  }

  /** sys_rmdir on "." or ".." never gets as far as removing. */
  lemma DotsStay(t: Tree, d: nat, name: string, root: bool)
    requires Sound(t) && IsDir(t, d) && name != "" && Found(t, d, name, root)
    requires Target(t, d, name, root) != d && Empty(t, Target(t, d, name, root))
    ensures Lookup(t, d, name, root) >= 2
  {
    FoundMeans(t, d, name, root);
    DotDot(t, d);
    assert Named(t, d);
  }

  lemma MakesSound(t: Tree, d: nat, name: string, root: bool, count: nat, u: Tree)
    requires Sound(t) && IsDir(t, d) && name != "" && !Found(t, d, name, root)
    requires Makes(t, d, Wanted(name, root), count, false, u)
    ensures Sound(u)
  {
    NotFoundMeans(t, d, name, root);
    CreateSound(t, d, FreeEntry(t[d].entries), Wanted(name, root), LowestFree(t, 1), count);
  }

  /** A call leaves every link count equal to the number of entries, and every directory with "." and
      "..", if and only if it does not raise a count of 255 and is not a mknod of a directory. */
  lemma CallSound(t: Tree, c: Call, u: Tree)
    requires Sound(t) && Possible(t, c) && Effect(t, c, u)
    ensures Sound(u) <==> Safe(t, c)
  {
    if Answer(t, c) == Ok {
      match c {
        case Mknod(d, name, root, _, _, _, asDir) =>
          if asDir {
            assert !DirOk(u, LowestFree(t, 1));
          } else {
            MakesSound(t, d, name, root, 0, u);
          }
        case Open(d, name, root, _, _, _, _, _, _) =>
          if name == "" {
            DotDot(t, d);
            assert DirOk(t, d);
            OpenSound(t, d);
          } else if Found(t, d, name, root) {
            FoundMeans(t, d, name, root);
            OpenSound(t, Target(t, d, name, root));
          } else {
            MakesSound(t, d, name, root, 1, u);
          }
        case Close(x) => CloseSound(t, x);
        case Link(x, d, name, root, _, _) =>
          NotFoundMeans(t, d, name, root);
          LinkSound(t, d, FreeEntry(t[d].entries), Wanted(name, root), x);
        case Unlink(d, name, root, _, _) =>
          FoundMeans(t, d, name, root);
          DotDot(t, d);
          UnlinkSound(t, d, Lookup(t, d, name, root));
        case Mkdir(d, name, root, _, _, _, _) =>
          NotFoundMeans(t, d, name, root);
          MkdirSound(t, d, FreeEntry(t[d].entries), Wanted(name, root), LowestFree(t, 1));
        case Rmdir(d, name, root, _, _, _) =>
          var x := Target(t, d, name, root);
          FoundMeans(t, d, name, root);
          BareIsEmpty(t, x);
          DotsStay(t, d, name, root);
          RmdirSound(t, d, Lookup(t, d, name, root), x);
      }
    }
  }

  lemma CreatedUsed(t: Tree, d: nat, k: nat, name: string, y: nat, count: nat, x: nat)
    requires d < |t| && k <= |t[d].entries| && y < |t| && y != d && IsUsed(t, x)
    ensures IsUsed(Created(t, d, k, name, y, count), x)
  {}

  lemma MadeDirUsed(t: Tree, d: nat, k: nat, name: string, y: nat, x: nat)
    requires d < |t| && k <= |t[d].entries| && y < |t| && y != d && t[d].links < 255 && IsUsed(t, x)
    ensures IsUsed(MadeDir(t, d, k, name, y), x)
  {}

  lemma UnlinkedUsed(t: Tree, d: nat, k: nat, x: nat)
    requires d < |t| && k < |t[d].entries| && 0 < t[d].entries[k].ino < |t| && t[t[d].entries[k].ino].links > 0
    requires IsUsed(t, x) && t[x].count > 0
    ensures IsUsed(Unlinked(t, d, k), x)
  {}

  lemma RemovedUsed(t: Tree, d: nat, k: nat, x: nat)
    requires d < |t| && k < |t[d].entries| && t[d].entries[k].ino < |t| && t[d].links > 0
    requires IsUsed(t, x) && x != t[d].entries[k].ino
    ensures IsUsed(RemovedDir(t, d, k), x)
  {}

  /** An inode that somebody holds survives every call but the one that drops its last reference. */
  lemma HeldSurvives(t: Tree, c: Call, u: Tree, x: nat)
    requires Sound(t) && Possible(t, c) && Effect(t, c, u) && Safe(t, c)
    requires IsUsed(t, x) && t[x].count > if c == Close(x) then 1 else 0
    ensures IsUsed(u, x)
  {
    if Answer(t, c) == Ok {
      match c {
        case Mknod(d, name, root, _, _, _, _) =>
          NotFoundMeans(t, d, name, root);
          CreatedUsed(t, d, FreeEntry(t[d].entries), Wanted(name, root), LowestFree(t, 1), 0, x);
        case Open(d, name, root, _, _, _, _, _, _) =>
          if name != "" && !Found(t, d, name, root) {
            NotFoundMeans(t, d, name, root);
            CreatedUsed(t, d, FreeEntry(t[d].entries), Wanted(name, root), LowestFree(t, 1), 1, x);
          }
        case Close(_) =>
        case Link(y, d, name, root, _, _) =>
          LinkedKinds(t, d, FreeEntry(t[d].entries), Wanted(name, root), y, x);
        case Unlink(d, name, root, _, _) => UnlinkedUsed(t, d, Lookup(t, d, name, root), x);
        case Mkdir(d, name, root, _, _, _, _) =>
          NotFoundMeans(t, d, name, root);
          MkdirSound(t, d, FreeEntry(t[d].entries), Wanted(name, root), LowestFree(t, 1));
          MadeDirUsed(t, d, FreeEntry(t[d].entries), Wanted(name, root), LowestFree(t, 1), x);
        case Rmdir(d, name, root, _, _, _) => RemovedUsed(t, d, Lookup(t, d, name, root), x);
      }
    }
  }

  /** In a sound tree an inode is in use exactly when an entry names it or somebody holds it. */
  lemma UsedIff(t: Tree, x: nat)
    requires Sound(t) && 0 < x < |t|
    ensures t[x].used <==> Refs(t, x) != {} || t[x].count > 0
  {
    assert CountOk(t, x);
  }

  // ---------------------------------------------------------------- whole runs

  /** Calls one after the other, none of which stops the kernel. */
  ghost predicate Run(states: seq<Tree>, calls: seq<Call>) {
    && |states| == |calls| + 1
    && forall k: nat | k < |calls| ::
         Possible(states[k], calls[k]) && Answer(states[k], calls[k]) != Panicked && Effect(states[k], calls[k], states[k + 1])
  }

  ghost predicate AllSound(states: seq<Tree>) {
    forall k: nat | k < |states| :: Sound(states[k])
  }

  ghost predicate AllSafe(states: seq<Tree>, calls: seq<Call>)
    requires Run(states, calls)
  {
    forall k: nat | k < |calls| :: Safe(states[k], calls[k])
  }

  lemma {:induction false} SafeRunSound(states: seq<Tree>, calls: seq<Call>, n: nat)
    requires Run(states, calls) && Sound(states[0]) && AllSafe(states, calls) && n < |states|
    ensures Sound(states[n])
  {
    if n > 0 {
      SafeRunSound(states, calls, n - 1);
      CallSound(states[n - 1], calls[n - 1], states[n]);
    }
  }

  /** Every run of create, open, close, link, unlink, mkdir, rmdir and mknod keeps every link count
      equal to the number of entries that name the inode, with "." and "..", if and only if no link
      and no mkdir in it raises a count of 255 and no mknod makes a directory. */
  lemma RunSound(states: seq<Tree>, calls: seq<Call>)
    requires Run(states, calls) && Sound(states[0])
    ensures AllSound(states) <==> AllSafe(states, calls)
  {
    if AllSafe(states, calls) {
      forall n: nat | n < |states| ensures Sound(states[n]) {
        SafeRunSound(states, calls, n);
      }
    }
    if AllSound(states) {
      forall k: nat | k < |calls| ensures Safe(states[k], calls[k]) {
        assert Sound(states[k]) && Sound(states[k + 1]);
        CallSound(states[k], calls[k], states[k + 1]);
      }
    }
  }

  /** In such a run an inode is freed only when no entry names it and nobody holds it: a reference
      other than the one that the call drops would have kept it. */
  lemma RunFrees(states: seq<Tree>, calls: seq<Call>, k: nat, x: nat)
    requires Run(states, calls) && Sound(states[0]) && AllSafe(states, calls) && k < |calls|
    requires 0 < x < |states[k]| && x < |states[k + 1]| && states[k][x].used && !states[k + 1][x].used
    ensures Refs(states[k + 1], x) == {} && states[k][x].count <= if calls[k] == Close(x) then 1 else 0
  {
    SafeRunSound(states, calls, k);
    SafeRunSound(states, calls, k + 1);
    UsedIff(states[k + 1], x);
    if states[k][x].count > if calls[k] == Close(x) then 1 else 0 {
      HeldSurvives(states[k], calls[k], states[k + 1], x);
    }
  }
}
