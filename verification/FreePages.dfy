/**
 How many pages are free, and what the routines of mm/memory.c do to that number: when they run
 out of memory, exactly.
 */
module FreePages {
  import opened Frames
  import opened FrameSteps
  import opened PageTables

  /** The places of mem_map that are zero. */
  ghost function Zeros(m: Machine): set<nat> {
    set i: nat | i < PAGING_PAGES && m.counts[i] == 0
  }

  /** The number of free pages. */
  ghost function Free(m: Machine): nat {
    |Zeros(m)|
  }

  /** get_free_page fails exactly when no page is free. */
  lemma FreeZero(m: Machine)
    ensures FreePageOf(m) == 0 <==> Free(m) == 0
  {
    TopFreeExact(m.counts, PAGING_PAGES);
    if Free(m) == 0 {
      assert Zeros(m) == {};
      forall j | 0 <= j < PAGING_PAGES ensures m.counts[j] != 0 {
        assert j !in Zeros(m);
      }
    } else if FreePageOf(m) != 0 {
      assert FreePageOf(m) - LOW in Zeros(m);
    }
  }

  lemma CountPut(m: Machine, n: Machine, i: nat, c: nat)
    requires i < PAGING_PAGES && n.counts == m.counts[i := c]
    ensures Zeros(n) == if c == 0 then Zeros(m) + {i} else Zeros(m) - {i}
  {}

  /** And otherwise uses one up. */
  lemma GrabFrees(m: Machine, p: nat)
    requires p != 0 && p == FreePageOf(m)
    ensures Zeros(Grab(m, p)) == Zeros(m) - {p - LOW} && Free(Grab(m, p)) == Free(m) - 1
  {
    CountPut(m, Grab(m, p), p - LOW, 1);
    RemoveCard(Zeros(m), p - LOW);
    assert p - LOW in Zeros(m);
    hide Zeros;
  }

  /** free_page never makes a free page used. */
  lemma DropFrees(m: Machine, f: nat)
    ensures Zeros(m) <= Zeros(DropCount(m, f))
  {}

  lemma MoreFree(m: Machine, n: Machine)
    requires Zeros(m) <= Zeros(n)
    ensures Free(m) <= Free(n)
  {
    SubsetCard(Zeros(m), Zeros(n));
  }

  lemma SubsetCard<T>(a: set<T>, b: set<T>)
    requires a <= b
    ensures |a| <= |b|
  {
    assert b == a + (b - a);
  }

  lemma ClearEntryFrees(m: Machine, v: Vpage)
    requires v.i < WORDS
    ensures Zeros(m) <= Zeros(PageTables.ClearEntry(m, v))
  {
    if Reachable(m, v.d) && Pte(m, v).present {
      DropFrees(m, Pte(m, v).frame);
    }
  }

  /** The count of a mapped frame is between 1 and 63. */
  lemma CountBounds(m: Machine, v: Vpage)
    requires Sound(m) && Present(m, v) && LOW <= Pte(m, v).frame
    ensures Pte(m, v).frame < FRAMES && 0 < m.counts[Pte(m, v).frame - LOW] < NR_TASKS
  {
    Open(m);
    PresentCounted(m, v);
    CountAtMost63(m, v);
  }

  lemma PutCountFrees(m: Machine, f: nat, c: nat)
    requires LOW <= f < FRAMES && m.counts[f - LOW] != 0 && c != 0
    ensures Zeros(PutCount(m, f, c)) == Zeros(m)
  {}

  /** Sharing a page uses no page up. */
  lemma ShareFrees(m: Machine, from: Vpage, to: Vpage)
    requires Sound(m) && Present(m, from) && to.i < WORDS && LOW <= Pte(m, from).frame < FRAMES
    requires HasTable(Protect(m, from), to.d) && HasTable(Protect(m, from), from.d)
    requires Pte(Protect(m, from), from).frame == Pte(m, from).frame
    ensures Zeros(AddShare(Protect(m, from), from, to)) == Zeros(m)
  {
    CountBounds(m, from);
    var f := Pte(m, from).frame;
    PutCountFrees(m, f, (m.counts[f - LOW] + 1) % 256);
  }

  /** Nor does dropping one of several owners. */
  lemma DecFrees(m: Machine, v: Vpage)
    requires Sound(m) && Present(m, v) && Pte(m, v).frame < FRAMES
    requires LOW <= Pte(m, v).frame ==> m.counts[Pte(m, v).frame - LOW] != 1
    ensures Zeros(DecCount(m, Pte(m, v).frame)) == Zeros(m)
  {
    var f := Pte(m, v).frame;
    if LOW <= f {
      CountBounds(m, v);
      PutCountFrees(m, f, (m.counts[f - LOW] + 255) % 256);
    }
  }

  /** Copying a shared page uses one page up. */
  lemma CowFrees(m: Machine, v: Vpage, p: nat)
    requires p != 0 && p == FreePageOf(m) && Sound(Grab(m, p)) && Present(Grab(m, p), v)
    requires var w := Pte(Grab(m, p), v); w.frame < FRAMES && (LOW <= w.frame ==> Grab(m, p).counts[w.frame - LOW] != 1)
    ensures Free(CowCopy(Grab(m, p), v, p)) == Free(m) - 1
  {
    var g := Grab(m, p);
    GrabFrees(m, p);
    DecFrees(g, v);
    assert CowCopy(g, v, p).counts == DecCount(g, Pte(g, v).frame).counts;
    assert Zeros(CowCopy(g, v, p)) == Zeros(g);
  }

  lemma SourceCounted(m: Machine, from: Vpage, to: Vpage)
    requires Sound(m) && CopyReady(m, from, to) && HasTable(m, from.d) && Pte(m, from).present
    requires LOW <= Pte(m, from).frame
    ensures Pte(m, from).frame < FRAMES && 0 < m.counts[Pte(m, from).frame - LOW] < NR_TASKS
  {
    Open(m);
    assert UserDir(from.d);
    CountBounds(m, from);
  }

  /** Copying a table entry uses no page up. */
  lemma CopyEntryFrees(m: Machine, from: Vpage, to: Vpage)
    requires Sound(m) && CopyReady(m, from, to) && HasTable(m, from.d)
    ensures Zeros(PageTables.CopyEntry(m, from, to)) == Zeros(m)
  {
    if Pte(m, from).present && LOW <= Pte(m, from).frame {
      SourceCounted(m, from, to);
      var f := Pte(m, from).frame;
      PutCountFrees(m, f, (m.counts[f - LOW] + 1) % 256);
    }
  }

  lemma UnhangFrees(m: Machine, d: nat)
    requires d < WORDS
    ensures Zeros(m) <= Zeros(UnhangTable(m, d))
  {
    DropFrees(m, Dir(m, d).frame);
  }

  // ---------------------------------------------------------------- fork

  /** How many of the n page tables from directory entry f on exist. */
  function Tables(m: Machine, f: nat, n: nat): nat {
    if n == 0 then 0
    else Tables(m, f, n - 1) + if f + n - 1 < WORDS && Dir(m, f + n - 1).present then 1 else 0
  }

  lemma {:induction false} TablesGrow(m: Machine, f: nat, k: nat, n: nat)
    requires k <= n
    ensures Tables(m, f, k) <= Tables(m, f, n) <= n
    decreases n
  {
    if k < n {
      TablesGrow(m, f, k, n - 1);
    } else if n > 0 {
      TablesGrow(m, f, n - 1, n - 1);
    }
  }

  lemma {:induction false} TablesSame(m: Machine, x: Machine, f: nat, n: nat)
    requires forall d: nat | f <= d < f + n && d < WORDS :: Dir(x, d) == Dir(m, d)
    ensures Tables(x, f, n) == Tables(m, f, n)
  {
    if n > 0 {
      TablesSame(m, x, f, n - 1);
    }
  }

  /** The page tables that fork has to copy. */
  function TablesOf(m: Machine, t: nat): nat
    requires t < NR_TASKS
  {
    Tables(m, t * TASK_DIRS, Dirs(m.task[t].dataLimit))
  }

  /** fork needs a page for the task and one for every page table of the parent. */
  ghost predicate ForkFits(m: Machine, parent: nat)
    requires parent < NR_TASKS
  {
    Free(m) > TablesOf(m, parent)
  }

  lemma RowNextFrees(m: Machine, x: Machine, a: map<Vpage, Page>, f: nat, t: nat, n: nat, src: nat, d: nat, nr: nat, k: nat)
    requires RowContext(m, a, f, t, n, src, d, nr) && k < nr && nr <= WORDS && d < WORDS && RowAt(m, x, a, f, t, d, k)
    ensures Zeros(PageTables.CopyEntry(x, Vpage(src, k), Vpage(d, k))) == Zeros(x)
  {
    assert Seal(m, 0) && Seal(x, 0);
    CopyStepReady(x, a, f, t, n, d, k);
    SourceTable(x, src);
    hide CopyRange, CopyAt;
    CopyEntryFrees(x, Vpage(src, k), Vpage(d, k));
  }

  lemma SourceTable(m: Machine, d: nat)
    requires Sound(m) && d < WORDS && Dir(m, d).present && (UserDir(d) || d == 0)
    ensures HasTable(m, d)
  {
    Open(m);
    if UserDir(d) {
      TableOwned(m, d);
    }
  }

  lemma HangFrees(m: Machine, d: nat, p: nat)
    requires d < WORDS && p != 0 && p == FreePageOf(m)
    ensures Zeros(HangTable(Grab(m, p), d, p)) == Zeros(m) - {p - LOW}
    ensures Free(HangTable(Grab(m, p), d, p)) == Free(m) - 1
  {
    GrabFrees(m, p);
    assert Zeros(HangTable(Grab(m, p), d, p)) == Zeros(Grab(m, p));
  }

  /** Directory entries outside the copy's target are those of the start. */
  lemma SourceDirs(m: Machine, x: Machine, a: map<Vpage, Page>, f: nat, t: nat, n: nat, k: nat)
    requires CopyRange(a, f, t, n) && DirsAt(m, x, a, f, t, n, k)
    ensures forall d: nat | f <= d < f + n :: Dir(x, d) == Dir(m, d)
  {
    DirsOpen(m, x, a, f, t, n, k);
  }

  /** With the child's task page taken, the tables to copy are as before. */
  lemma ForkTables(m: Machine, p: nat, parent: nat, child: nat)
    requires Sound(m) && p != 0 && p == FreePageOf(m)
    requires parent < NR_TASKS && 1 <= child < NR_TASKS && parent != child && m.task[child].page == 0
    ensures
      var k := PutTask(Grab(m, p), child, ChildOf(m.task[parent], p));
      Free(k) == Free(m) - 1 && Tables(k, parent * TASK_DIRS, Dirs(m.task[parent].dataLimit)) == TablesOf(m, parent)
  {
    var k := PutTask(Grab(m, p), child, ChildOf(m.task[parent], p));
    GrabFrees(m, p);
    assert Zeros(k) == Zeros(Grab(m, p));
    TablesSame(m, k, parent * TASK_DIRS, Dirs(m.task[parent].dataLimit));
  }
}
