/**
 The system calls of fs/namei.c on an array of inodes, step by step as the code does them. The
 superuser and permission tests, and whether a block is free, are given.
 */
module Namei {
  import opened LinkCounts
  import opened DirectoryCalls

  class Directories {
    const nodes: array<Node>

    ghost function State(): Tree
      reads nodes
    {
      nodes[..]
    }

    constructor (ns: array<Node>)
      ensures nodes == ns
    {
      nodes := ns;
    }

    /** find_entry: the place of the entry, or the number of entries when there is none. */
    method FindEntry(d: nat, name: string, root: bool) returns (k: nat)
      requires d < nodes.Length
      ensures k == Lookup(State(), d, name, root)
    {
      var es := nodes[d].entries;
      if |name| == 0 {
        return |es|;
      }
      var n := Cut(if root && name == DOTDOT then DOT else name);
      k := 0;
      while k < |es| && !(es[k].ino != 0 && es[k].name == n)
        invariant k <= |es| && forall j: nat | j < k :: !Holds(es, n, j)
      {
        k := k + 1;
      }
      FindIs(es, n, k);
    }

    /** add_entry: the first free place, or a new one at the end, for which a block may be needed. */
    method AddEntry(d: nat, canGrow: bool) returns (k: nat, ok: bool)
      requires d < nodes.Length
      ensures k == FreeEntry(nodes[d].entries) && (ok <==> HasRoom(State(), d, canGrow))
    {
      var es := nodes[d].entries;
      k := 0;
      while k < |es| && es[k].ino != 0
        invariant k <= |es| && forall j: nat | j < k :: es[j].ino != 0
      {
        k := k + 1;
      }
      FreeEntryIs(es, k);
      ok := k < |es| || canGrow;
    }

    /** empty_dir, for a directory in order. */
    method EmptyDir(x: nat) returns (b: bool)
      requires x < nodes.Length && nodes[x].dir && Dirs(State())
      ensures b <==> Bare(nodes[x].entries)
    {
      assert DirOk(State(), x);
      var es := nodes[x].entries;
      if |es| < 2 || es[0].ino != x || es[1].ino == 0 || es[0].name != DOT || es[1].name != DOTDOT {
        return false;
      }
      var nr := 2;
      while nr < |es|
        invariant 2 <= nr <= |es| && forall j: nat | 2 <= j < nr :: es[j].ino == 0
      {
        if es[nr].ino != 0 {
          return false;
        }
        nr := nr + 1;
      }
      b := true;
    }

    /** new_inode: the lowest free one, or 0. */
    method NewInode() returns (x: nat)
      ensures x == LowestFree(State(), 1)
    {
      x := 1;
      while x < nodes.Length
        invariant 1 <= x && LowestFree(State(), 1) == LowestFree(State(), x)
      {
        if !nodes[x].used {
          return;
        }
        x := x + 1;
      }
      x := 0;
    }

    /** The end of iput for an inode that nobody else holds. */
    method Release(i: nat)
      requires i < nodes.Length
      modifies nodes
      ensures State() == Put0(old(State()), i)
    {
      if nodes[i].count == 0 && nodes[i].links == 0 {
        nodes[i] := Unused();
      }
      assert State() == Put0(old(State()), i);
    }

    method WriteEntry(d: nat, k: nat, e: Entry)
      requires d < nodes.Length && k <= |nodes[d].entries|
      modifies nodes
      ensures State() == Put(old(State()), d, k, e)
    {
      var es := nodes[d].entries;
      nodes[d] := nodes[d].(entries := if k < |es| then es[k := e] else es + [e]);
      assert State() == Put(old(State()), d, k, e);
    }

    /** iput of an open inode. */
    method Iput(x: nat)
      requires Sound(State()) && Possible(State(), Close(x))
      modifies nodes
      ensures Sound(State()) && State() == Closed(old(State()), x)
      ensures nodes[x].used <==> old(nodes[x].count) > 1 || old(Refs(State(), x)) != {}
    {
      ghost var t := State();
      CloseSound(t, x);
      nodes[x] := nodes[x].(count := nodes[x].count - 1);
      assert State() == t[x := t[x].(count := t[x].count - 1)];
      Release(x);
    }

    /** What open_namei and sys_mknod do to create: new_inode, add_entry and the entry. */
    method Make(d: nat, name: string, root: bool, canGrow: bool, count: nat, asDir: bool) returns (r: Result)
      requires Sound(State()) && IsDir(State(), d) && name != "" && !Found(State(), d, name, root)
      modifies nodes
      ensures r == CreateAnswer(old(State()), d, canGrow)
      ensures if r == Ok then Makes(old(State()), d, Wanted(name, root), count, asDir, State()) else State() == old(State())
    {
      ghost var t := State();
      var x := NewInode();
      if x == 0 {
        return NoSpace;
      }
      var k, ok := AddEntry(d, canGrow);
      if !ok {
        return NoSpace;
      }
      var n := Cut(if root && name == DOTDOT then DOT else name);
      assert DirOk(t, d);
      WriteEntry(d, k, Entry(x, n));
      nodes[x] := Node(true, asDir, 1, count, []);
      ghost var v := Created(t, d, k, n, x, count);
      assert State() == if asDir then v[x := v[x].(dir := true)] else v;
      r := Ok;
    }

    /** sys_mknod; asDir says that the mode is that of a directory. */
    method SysMknod(d: nat, name: string, root: bool, super: bool, mayWrite: bool, canGrow: bool, asDir: bool)
      returns (r: Result)
      requires Sound(State()) && IsDir(State(), d)
      modifies nodes
      ensures r == Answer(old(State()), Mknod(d, name, root, super, mayWrite, canGrow, asDir))
      ensures Effect(old(State()), Mknod(d, name, root, super, mayWrite, canGrow, asDir), State())
    {
      if !super {
        return NotPermitted;
      }
      if |name| == 0 {
        return NotFound;
      }
      if !mayWrite {
        return NotPermitted;
      }
      var k := FindEntry(d, name, root);
      if k < |nodes[d].entries| {
        return Exists;
      }
      r := Make(d, name, root, canGrow, 0, asDir);
    }

    /** open_namei, but for what O_TRUNC does to the contents. The inode stays held. */
    method OpenNamei(
      d: nat, name: string, root: bool, writing: bool, create: bool, excl: bool, mayOpen: bool, mayWrite: bool, canGrow: bool)
      returns (r: Result)
      requires Sound(State()) && IsDir(State(), d)
      modifies nodes
      ensures r == Answer(old(State()), Open(d, name, root, writing, create, excl, mayOpen, mayWrite, canGrow))
      ensures Effect(old(State()), Open(d, name, root, writing, create, excl, mayOpen, mayWrite, canGrow), State())
    {
      ghost var t := State();
      if |name| == 0 {
        if writing || create {
          return IsDirectory;
        }
        nodes[d] := nodes[d].(count := nodes[d].count + 1);
        assert State() == Opened(t, d);
        return Ok;
      }
      var k := FindEntry(d, name, root);
      if k == |nodes[d].entries| {
        if !create {
          return NotFound;
        }
        if !mayWrite {
          return NotPermitted;
        }
        r := Make(d, name, root, canGrow, 1, false);
        return;
      }
      if excl {
        return Exists;
      }
      FoundMeans(t, d, name, root);
      var x := nodes[d].entries[k].ino;
      if (nodes[x].dir && writing) || !mayOpen {
        return NotPermitted;
      }
      nodes[x] := nodes[x].(count := nodes[x].count + 1);
      assert State() == Opened(t, x);
      r := Ok;
    }

    /** sys_link for the inode that the old name leads to. */
    method SysLink(x: nat, d: nat, name: string, root: bool, mayWrite: bool, canGrow: bool) returns (r: Result)
      requires Sound(State()) && Possible(State(), Link(x, d, name, root, mayWrite, canGrow))
      modifies nodes
      ensures r == Answer(old(State()), Link(x, d, name, root, mayWrite, canGrow))
      ensures Effect(old(State()), Link(x, d, name, root, mayWrite, canGrow), State())
    {
      ghost var t := State();
      if nodes[x].dir {
        return NotPermitted;
      }
      if |name| == 0 || !mayWrite {
        return NotPermitted;
      }
      var k := FindEntry(d, name, root);
      if k < |nodes[d].entries| {
        return Exists;
      }
      var p, ok := AddEntry(d, canGrow);
      if !ok {
        return NoSpace;
      }
      var n := Cut(if root && name == DOTDOT then DOT else name);
      assert CountOk(t, x);
      WriteEntry(d, p, Entry(x, n));
      ghost var u := State();
      nodes[x] := nodes[x].(links := (nodes[x].links + 1) % 256);
      assert State() == SetLinks(u, x, Inc(u[x].links));
      Release(x);
      r := Ok;
    }

    method SysUnlink(d: nat, name: string, root: bool, mayWrite: bool, mayRemove: bool) returns (r: Result)
      requires Sound(State()) && IsDir(State(), d)
      modifies nodes
      ensures r == Answer(old(State()), Unlink(d, name, root, mayWrite, mayRemove))
      ensures Effect(old(State()), Unlink(d, name, root, mayWrite, mayRemove), State())
    {
      ghost var t := State();
      if |name| == 0 {
        return NotFound;
      }
      if !mayWrite {
        return NotPermitted;
      }
      var k := FindEntry(d, name, root);
      if k == |nodes[d].entries| {
        return NotFound;
      }
      FoundMeans(t, d, name, root);
      var x := nodes[d].entries[k].ino;
      if !mayRemove || nodes[x].dir {
        return NotPermitted;
      }
      var links := if nodes[x].links == 0 then 1 else nodes[x].links;
      WriteEntry(d, k, Entry(0, nodes[d].entries[k].name));
      ghost var u := State();
      nodes[x] := nodes[x].(links := links - 1);
      assert State() == SetLinks(u, x, u[x].links - 1);
      Release(x);
      r := Ok;
    }

    /** sys_mkdir. When the parent cannot grow, free_block is called twice for the new block, and
        the second call panics: FileSystem.Volume.MkdirBlocks has the blocks. */
    method SysMkdir(d: nat, name: string, root: bool, super: bool, mayWrite: bool, hasBlock: bool, canGrow: bool)
      returns (r: Result)
      requires Sound(State()) && IsDir(State(), d)
      modifies nodes
      ensures r == Answer(old(State()), Mkdir(d, name, root, super, mayWrite, hasBlock, canGrow))
      ensures Effect(old(State()), Mkdir(d, name, root, super, mayWrite, hasBlock, canGrow), State())
    {
      ghost var t := State();
      if !super {
        return NotPermitted;
      }
      if |name| == 0 {
        return NotFound;
      }
      if !mayWrite {
        return NotPermitted;
      }
      var k := FindEntry(d, name, root);
      if k < |nodes[d].entries| {
        return Exists;
      }
      var x := NewInode();
      if x == 0 || !hasBlock {
        return NoSpace;
      }
      var p, ok := AddEntry(d, canGrow);
      if !ok {
        return Panicked;
      }
      var n := Cut(if root && name == DOTDOT then DOT else name);
      assert DirOk(t, d) && DirOk(t, x);
      WriteEntry(d, p, Entry(x, n));
      nodes[x] := Node(true, true, 2, 0, [Entry(x, DOT), Entry(d, DOTDOT)]);
      assert State() == Placed(t, d, p, n, x);
      ghost var u := State();
      nodes[d] := nodes[d].(links := (nodes[d].links + 1) % 256);
      assert State() == SetLinks(u, d, Inc(u[d].links));
      Release(d);
      r := Ok;
    }

    /** The end of sys_rmdir: the entry goes, the directory loses its links and its parent one. */
    method Detach(d: nat, k: nat, x: nat)
      requires d < nodes.Length && x < nodes.Length && d != x && k < |nodes[d].entries| && nodes[d].entries[k].ino == x
      requires nodes[d].links > 1 && nodes[x].count == 0
      modifies nodes
      ensures State() == RemovedDir(old(State()), d, k)
    {
      ghost var t := State();
      WriteEntry(d, k, Entry(0, nodes[d].entries[k].name));
      nodes[x] := nodes[x].(links := 0);
      nodes[d] := nodes[d].(links := nodes[d].links - 1);
      Release(d);
      Release(x);
      assert State() == RemovedDir(t, d, k);
    }

    /** sys_rmdir. iget has counted the directory once more, so a count above 1 means that somebody
        else holds it. */
    method SysRmdir(d: nat, name: string, root: bool, super: bool, mayWrite: bool, mayRemove: bool) returns (r: Result)
      requires Sound(State()) && IsDir(State(), d)
      modifies nodes
      ensures r == Answer(old(State()), Rmdir(d, name, root, super, mayWrite, mayRemove))
      ensures Effect(old(State()), Rmdir(d, name, root, super, mayWrite, mayRemove), State())
    {
      ghost var t := State();
      if !super {
        return NotPermitted;
      }
      if |name| == 0 {
        return NotFound;
      }
      if !mayWrite {
        return NotPermitted;
      }
      var k := FindEntry(d, name, root);
      if k == |nodes[d].entries| {
        return NotFound;
      }
      FoundMeans(t, d, name, root);
      var x := nodes[d].entries[k].ino;
      if !mayRemove {
        return NotPermitted;
      }
      if nodes[x].count + 1 > 1 {
        return NotPermitted;
      }
      if x == d {
        return NotPermitted;
      }
      if !nodes[x].dir {
        return NotDirectory;
      }
      var empty := EmptyDir(x);
      if !empty {
        return NotEmpty;
      }
      BareIsEmpty(t, x);
      DotsStay(t, d, name, root);
      RmdirSound(t, d, k, x);
      Detach(d, k, x);
      r := Ok;
    }
  }

  lemma FindIs(es: seq<Entry>, name: string, k: nat)
    requires k <= |es| && (forall j: nat | j < k :: !Holds(es, name, j)) && (k < |es| ==> Holds(es, name, k))
    ensures Find(es, name) == k
  {
    var f := Find(es, name);
    assert f < |es| ==> Holds(es, name, f);
  }

  lemma FreeEntryIs(es: seq<Entry>, k: nat)
    requires k <= |es| && (forall j: nat | j < k :: es[j].ino != 0) && (k < |es| ==> es[k].ino == 0)
    ensures FreeEntry(es) == k
  {
    var f := FreeEntry(es);
    assert f < |es| ==> es[f].ino == 0;
  }
}
