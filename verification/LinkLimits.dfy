/**
 Two trees at the limit of the link count: a file with 255 links, and a directory with 253
 subdirectories. Both grow from an empty root by the calls themselves. And a directory made by mknod.
 */
module LinkLimits {
  import opened LinkCounts
  import opened DirectoryCalls

  /** The name of the k-th entry that is made. */
  function Name(k: nat): string
    requires k < 256
  {
    [(k + 100) as char]
  }

  /** A root with nothing in it, and n inodes in all. */
  function EmptyRoot(n: nat): (t: Tree)
    ensures |t| == n && forall i: nat | i < n :: t[i] == if i == ROOT then NewDir(ROOT, ROOT) else Unused()
  {
    seq(n, (i: nat) => if i == ROOT then NewDir(ROOT, ROOT) else Unused())
  }

  lemma EmptySound(n: nat)
    requires n >= 2
    ensures Sound(EmptyRoot(n))
  {
    var t := EmptyRoot(n);
    assert Refs(t, ROOT) == {(ROOT, 0), (ROOT, 1)};
    forall i: nat | 0 < i < n && i != ROOT ensures Refs(t, i) == {} {}
    assert forall d: nat, k: nat :: InoAt(t, d, k) == if d == ROOT && k < 2 then ROOT else 0;
  }

  /** What the k-th name stands for: a directory of its own, or inode 2. */
  function Meaning(dirs: bool, k: nat): nat {
    if dirs then k + 2 else 2
  }

  /** The entries of a root with n names. */
  function Names(n: nat, dirs: bool): (es: seq<Entry>)
    requires n <= 256
    ensures |es| == n + 2 && es[0] == Entry(ROOT, DOT) && es[1] == Entry(ROOT, DOTDOT)
    ensures forall k: nat | 2 <= k < n + 2 :: es[k] == Entry(Meaning(dirs, k - 2), Name(k - 2))
  {
    [Entry(ROOT, DOT), Entry(ROOT, DOTDOT)] + seq(n, k requires 0 <= k < n => Entry(Meaning(dirs, k), Name(k)))
  }

  lemma NamesOn(n: nat, dirs: bool)
    requires n < 256
    ensures Names(n + 1, dirs) == Names(n, dirs) + [Entry(Meaning(dirs, n), Name(n))]
    ensures FreeEntry(Names(n, dirs)) == n + 2
    ensures forall k: nat :: !Holds(Names(n, dirs), Name(n), k)
  {
    hide FreeEntry;
    var es := Names(n, dirs);
    forall k: nat | k < n + 2 ensures es[k].ino != 0 && es[k].name != Name(n) {
      if k >= 2 {
        assert Name(k - 2)[0] != Name(n)[0];
      }
    }
  }

  // ---------------------------------------------------------------- links

  /** Inode 2 is a file with n links, all in the root. */
  function LinkTree(n: nat): Tree
    requires n <= 256
  {
    [Unused(), NewDir(ROOT, ROOT).(entries := Names(n, false)), Node(true, false, n, 0, [])]
  }

  lemma FirstLink()
    ensures Sound(LinkTree(1))
  {
    var t := EmptyRoot(3);
    EmptySound(3);
    NamesOn(0, false);
    assert t[ROOT].entries == Names(0, false);
    CreateSound(t, ROOT, 2, Name(0), 2, 0);
    assert LinkTree(1)[ROOT].entries == Created(t, ROOT, 2, Name(0), 2, 0)[ROOT].entries;
    assert LinkTree(1) == Created(t, ROOT, 2, Name(0), 2, 0);
  }

  lemma NextLink(n: nat)
    requires 0 < n < 255
    ensures LinkTree(n + 1) == Linked(LinkTree(n), ROOT, n + 2, Name(n), 2)
  {
    NamesOn(n, false);
  }

  lemma LinkTreeCanName(n: nat)
    requires n <= 255
    ensures CanName(LinkTree(n), ROOT, n + 2, Name(n))
  {
    NamesOn(n, false);
  }

  /** The first is made by mknod, the others by link. */
  lemma {:induction false} LinkTreeSound(n: nat)
    requires 0 < n <= 255
    ensures Sound(LinkTree(n))
  {
    if n == 1 {
      FirstLink();
    } else {
      LinkTreeSound(n - 1);
      hide Sound, CanName, Linked;
      LinkTreeCanName(n - 1);
      NextLink(n - 1);
      LinkSound(LinkTree(n - 1), ROOT, n + 1, Name(n - 1), 2);
    }
  }

  /** So link, called 255 times after mknod, frees the file while all its 256 names are there. */
  lemma LastLink()
    ensures
      var t := LinkTree(255);
      Sound(t) && CanName(t, ROOT, 257, Name(255)) &&
      var u := Linked(t, ROOT, 257, Name(255), 2);
      !u[2].used && |Refs(u, 2)| == 256
  {
    LinkTreeSound(255);
    LinkTreeCanName(255);
    hide Sound, CanName, Linked, Refs;
    LinkOverflow(LinkTree(255), ROOT, 257, Name(255), 2);
  }

  // ---------------------------------------------------------------- subdirectories

  /** 256 inodes; n directories in the root. */
  function DirTree(n: nat): (t: Tree)
    requires n <= 254
    ensures |t| == 256 && t[ROOT] == NewDir(ROOT, ROOT).(links := n + 2, entries := Names(n, true))
    ensures forall i: nat | i < 256 && i != ROOT :: t[i] == if 2 <= i < n + 2 then NewDir(i, ROOT) else Unused()
  {
    seq(256, (i: nat) =>
      if i == ROOT then NewDir(ROOT, ROOT).(links := n + 2, entries := Names(n, true))
      else if 2 <= i < n + 2 then NewDir(i, ROOT)
      else Unused())
  }

  lemma {:induction false} DirTreeSound(n: nat)
    requires n <= 253
    ensures Sound(DirTree(n)) && CanName(DirTree(n), ROOT, n + 2, Name(n))
  {
    NamesOn(n, true);
    if n == 0 {
      EmptySound(256);
      assert Names(0, true) == NewDir(ROOT, ROOT).entries;
      assert DirTree(0) == EmptyRoot(256);
    } else {
      DirTreeSound(n - 1);
      NamesOn(n - 1, true);
      MkdirSound(DirTree(n - 1), ROOT, n + 1, Name(n - 1), n + 1);
      assert DirTree(n) == MadeDir(DirTree(n - 1), ROOT, n + 1, Name(n - 1), n + 1);
    }
  }

  /** So mkdir, called 254 times in an empty root that nobody holds, frees the root. */
  lemma LastDirectory()
    ensures
      var t := DirTree(253);
      Sound(t) && CanName(t, ROOT, 255, Name(253)) && !MadeDir(t, ROOT, 255, Name(253), 255)[ROOT].used
  {
    DirTreeSound(253);
    MkdirOverflow(DirTree(253), ROOT, 255, Name(253), 255);
  }

  // ---------------------------------------------------------------- mknod

  /** mknod with the mode of a directory, in an empty root: the directory has neither "." nor "..". */
  lemma DirectoryByMknod(u: Tree)
    requires Effect(EmptyRoot(3), Mknod(ROOT, Name(0), false, true, true, true, true), u)
    ensures Sound(EmptyRoot(3)) && u[ROOT].entries == Names(1, false) && u[2] == Node(true, true, 1, 0, [])
    ensures !Sound(u)
  {
    var t := EmptyRoot(3);
    EmptySound(3);
    NamesOn(0, false);
    assert t[ROOT].entries == Names(0, false);
    assert LowestFree(t, 3) == 0;
    assert LowestFree(t, 1) == LowestFree(t, 2) == 2;
    CallSound(t, Mknod(ROOT, Name(0), false, true, true, true, true), u);
  }
}
