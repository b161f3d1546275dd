/**
 Which user pages the processor has marked as written to, and what the routines of mm/memory.c do to
 the marks: try_to_share goes by them.
 */
module DirtyPages {
  import opened Frames
  import opened FrameSteps
  import opened PageTables
  import opened PageFaults
  import opened FreePages

  /** The pages in main memory whose entry is dirty. */
  ghost function Dirty(m: Machine): (s: set<Vpage>)
    ensures forall u :: u in s <==> Mapped(m, u) && Pte(m, u).dirty
  {
    set u | u in AllPages() && Mapped(m, u) && Pte(m, u).dirty
  }

  /** All dirty pages stay dirty but those of directory entries lo..hi. */
  ghost predicate KeepsBut(m: Machine, n: Machine, lo: nat, hi: nat) {
    forall u | u in Dirty(m) && !(lo <= u.d < hi) :: u in Dirty(n)
  }

  lemma KeepsTwice(m: Machine, x: Machine, n: Machine, lo: nat, hi: nat)
    requires KeepsBut(m, x, lo, hi) && KeepsBut(x, n, lo, hi)
    ensures KeepsBut(m, n, lo, hi)
  {}

  lemma KeepsWider(m: Machine, n: Machine, lo: nat, hi: nat, from: nat, to: nat)
    requires KeepsBut(m, n, lo, hi) && (lo < hi ==> from <= lo && hi <= to)
    ensures KeepsBut(m, n, from, to)
  {}

  /** All dirty pages stay dirty, in the same frames. */
  ghost predicate Stay(m: Machine, n: Machine) {
    forall u | u in Dirty(m) :: u in Dirty(n) && Pte(n, u).frame == Pte(m, u).frame
  }

  /** Only memory matters. */
  lemma SameMemory(m: Machine, n: Machine)
    requires n.mem == m.mem
    ensures Dirty(n) == Dirty(m) && Stay(m, n)
  {}

  lemma GrabDirty(m: Machine, p: nat)
    requires Sound(m) && p != 0 && p == FreePageOf(m)
    ensures Dirty(Grab(m, p)) == Dirty(m) && Stay(m, Grab(m, p))
  {
    GrabElse(m, p);
    var g := Grab(m, p);
    assert forall u: Vpage | ValidPage(u) && Dir(m, u.d).present :: Pte(g, u) == Pte(m, u);
  }

  lemma HangDirty(m: Machine, d: nat, p: nat)
    requires Sound(m) && UserDir(d) && !Dir(m, d).present && p != 0 && p == FreePageOf(m)
    ensures Stay(m, HangTable(Grab(m, p), d, p))
  {
    HangElse(m, d, p);
  }

  // ---------------------------------------------------------------- freeing

  lemma PteChangedDirty(m: Machine, n: Machine, v: Vpage, w: Word)
    requires ValidPage(v) && HasTable(m, v.d) && PteChanged(m, n, v, w)
    ensures Dirty(n) - {v} == Dirty(m) - {v}
    ensures v in Dirty(n) <==> w.present && LOW <= w.frame < FRAMES && w.dirty
    ensures forall u | u != v && u in Dirty(m) :: Pte(n, u).frame == Pte(m, u).frame
  {
    PteChangedMapped(m, n, v, w);
  }

  lemma ClearEntryDirty(x: Machine, v: Vpage)
    requires Sound(x) && ValidPage(v) && HasTable(x, v.d)
    ensures Dirty(x) - {v} <= Dirty(ClearEntry(x, v))
  {
    Open(x);
    TableOwned(x, v.d);
    hide Inv;
    var n := PutPte(x, v, ZERO_WORD);
    PutPteChanges(x, v, ZERO_WORD);
    PteChangedDirty(x, n, v, ZERO_WORD);
    hide PteChanged, OwnTable;
    var y := if Pte(x, v).present then DropCount(x, Pte(x, v).frame) else x;
    assert y.mem == x.mem && PutPte(y, v, ZERO_WORD).mem == n.mem;
    SameMemory(n, ClearEntry(x, v));
  }

  lemma ClearDirty(m: Machine, x: Machine, d: nat, k: nat)
    requires RowCleared(m, x, d, k) && UserDir(d) && k < WORDS && KeepsBut(m, x, d, d + 1)
    ensures KeepsBut(m, ClearEntry(x, Vpage(d, k)), d, d + 1)
  {
    assert Sound(x) && HasTable(x, d) by { assert Seal(x, 0); }
    hide RowCleared, ClearEntry;
    ClearEntryDirty(x, Vpage(d, k));
  }

  lemma UnhangEntry(x: Machine, d: nat, u: Vpage)
    requires Sound(x) && UserDir(d) && u in Dirty(x) && u.d != d
    ensures u in Dirty(UnhangTable(x, d))
  {
    TableBounds(x, u.d);
    var n := UnhangTable(x, d);
    assert n.mem[Dir(x, u.d).frame] == x.mem[Dir(x, u.d).frame];
    assert Dir(n, u.d) == Dir(x, u.d);
  }

  lemma UnhangDirty(m: Machine, x: Machine, d: nat)
    requires RowCleared(m, x, d, WORDS) && UserDir(d) && KeepsBut(m, x, d, d + 1)
    ensures KeepsBut(m, UnhangTable(x, d), d, d + 1)
  {
    assert Sound(x) by { assert Seal(x, 0); }
    hide RowCleared, UnhangTable;
    forall u | u in Dirty(x) && u.d != d ensures u in Dirty(UnhangTable(x, d)) {
      UnhangEntry(x, d, u);
    }
  }

  /** n is m with the tables lo..d freed, on the way to hi (sealed). */
  ghost predicate Freeing(m: Machine, n: Machine, lo: nat, d: nat, hi: nat) {
    forall j: nat {:trigger Seal(n, j)} :: Seal(n, j) ==>
      DirsFreed(m, n, lo, d) && Zeros(m) <= Zeros(n) && KeepsBut(m, n, lo, hi)
  }

  lemma FreeingStart(m: Machine, lo: nat, hi: nat)
    requires Sound(m)
    ensures Freeing(m, m, lo, lo, hi)
  {
    DirsFreedStart(m, lo);
  }

  lemma FreeingOpen(m: Machine, n: Machine, lo: nat, d: nat, hi: nat)
    requires Freeing(m, n, lo, d, hi)
    ensures DirsFreed(m, n, lo, d) && Zeros(m) <= Zeros(n) && KeepsBut(m, n, lo, hi) && Sound(n)
  {
    assert Seal(n, 0);
    DirsFreedSound(m, n, lo, d);
  }

  lemma FreeingStep(m: Machine, x: Machine, n: Machine, lo: nat, d: nat, hi: nat)
    requires Freeing(m, x, lo, d, hi) && DirFreed(x, n, d) && lo <= d < hi <= WORDS
    requires Zeros(x) <= Zeros(n) && KeepsBut(x, n, d, d + 1)
    ensures Freeing(m, n, lo, d + 1, hi)
  {
    FreeingOpen(m, x, lo, d, hi);
    hide Freeing, Zeros;
    DirsFreedStep(m, x, n, lo, d);
    KeepsWider(x, n, d, d + 1, lo, hi);
    KeepsTwice(m, x, n, lo, hi);
    hide KeepsBut, DirsFreed, DirFreed;
  }

  // ---------------------------------------------------------------- fork

  /** u shows the frame of v. */
  ghost predicate DirtyTwin(n: Machine, v: Vpage, u: Vpage) {
    v in Dirty(n) && u in Dirty(n) && Pte(n, u).frame == Pte(n, v).frame
  }

  /** A copied entry is dirty if the original is, which stays so, and they share the frame. */
  lemma CopyEntryDirty(m: Machine, from: Vpage, to: Vpage)
    requires Sound(m) && CopyReady(m, from, to)
    ensures Stay(m, CopyEntry(m, from, to))
    ensures from in Dirty(m) ==> DirtyTwin(CopyEntry(m, from, to), from, to)
  {
    Open(m);
    TableOwned(m, to.d);
    assert to !in Dirty(m);
    if UserDir(from.d) {
      TableOwned(m, from.d);
    }
    if Pte(m, from).present {
      if LOW <= Pte(m, from).frame {
        DistinctTables(m, to.d, from.d);
        PresentCounted(m, from);
        CopyEntrySplit(m, from, to);
        hide Inv;
        CopySharedDirty(m, from, to);
      } else {
        assert CopyEntry(m, from, to) == AddShare(m, from, to);
        hide Inv;
        PutPteChanges(m, to, Pte(m, from).(rw := false));
        PteChangedDirty(m, AddShare(m, from, to), to, Pte(m, from).(rw := false));
      }
    }
  }

  lemma CopySharedDirty(m: Machine, from: Vpage, to: Vpage)
    requires Mapped(m, from) && OwnTable(m, from.d) && OwnTable(m, to.d) && to.i < WORDS && !Present(m, to)
    requires from.d != to.d && HasTable(Protect(m, from), from.d) && HasTable(Protect(m, from), to.d)
    ensures Stay(m, AddShare(Protect(m, from), from, to))
    ensures from in Dirty(m) ==> DirtyTwin(AddShare(Protect(m, from), from, to), from, to)
  {
    var w, k := Pte(m, from).(rw := false), Protect(m, from);
    PutPteChanges(m, from, w);
    PteChangedDirty(m, k, from, w);
    assert Pte(k, from) == w;
    var f, g := Dir(m, to.d).frame, Dir(m, from.d).frame;
    assert f != g by {
      assert Hits(m, DirRef(from.d), g);
      assert DirRef(from.d) !in RefSet(m, f);
    }
    var n := AddShare(k, from, to);
    var x := PutPte(k, to, w);
    SameMemory(x, n);
    forall u | u in Dirty(k) && u != to ensures u in Dirty(x) && Pte(x, u) == Pte(k, u) {
      assert Hits(m, DirRef(u.d), Dir(m, u.d).frame);
      assert u.d != to.d ==> DirRef(u.d) !in RefSet(m, f);
    }
    assert Pte(x, to) == w;
  }

  /** The first k entries of table d are dirty if those of table src are in m. */
  ghost predicate RowDirty(m: Machine, n: Machine, src: nat, d: nat, k: nat) {
    Stay(m, n) && forall i: nat | i < k && Vpage(src, i) in Dirty(m) :: DirtyTwin(n, Vpage(src, i), Vpage(d, i))
  }

  lemma RowNextDirty(m: Machine, x: Machine, a: map<Vpage, Page>, f: nat, t: nat, n: nat, src: nat, d: nat, nr: nat, k: nat)
    requires RowContext(m, a, f, t, n, src, d, nr) && k < nr && nr <= WORDS && d < WORDS && RowAt(m, x, a, f, t, d, k)
    requires RowDirty(m, x, src, d, k)
    ensures RowDirty(m, CopyEntry(x, Vpage(src, k), Vpage(d, k)), src, d, k + 1)
  {
    hide RowDirty, Stay, DirtyTwin, CopyEntry;
    assert Seal(m, 0) && Seal(x, 0);
    CopyStepReady(x, a, f, t, n, d, k);
    hide CopyRange, CopyAt;
    CopyEntryDirty(x, Vpage(src, k), Vpage(d, k));
    hide CopyReady, RowContext, RowAt;
    RowStepDirty(m, x, CopyEntry(x, Vpage(src, k), Vpage(d, k)), src, d, k);
  }

  lemma RowStepDirty(m: Machine, x: Machine, n: Machine, src: nat, d: nat, k: nat)
    requires RowDirty(m, x, src, d, k) && Stay(x, n)
    requires Vpage(src, k) in Dirty(x) ==> DirtyTwin(n, Vpage(src, k), Vpage(d, k))
    ensures RowDirty(m, n, src, d, k + 1)
  {}

  /** The same for k tables, from directory entries f on to t on. */
  ghost predicate TablesDirty(m: Machine, n: Machine, f: nat, t: nat, k: nat) {
    && Stay(m, n)
    && forall v | v in Dirty(m) && f <= v.d < f + k :: DirtyTwin(n, v, Vpage(v.d - f + t, v.i))
  }

  lemma NoTableClean(m: Machine, d: nat)
    requires d < WORDS && !Dir(m, d).present
    ensures forall v | v in Dirty(m) :: v.d != d
  {}

  lemma TablesNextDirty(m: Machine, x: Machine, n: Machine, f: nat, t: nat, k: nat)
    requires TablesDirty(m, x, f, t, k) && RowDirty(x, n, f + k, t + k, WORDS)
    ensures TablesDirty(m, n, f, t, k + 1)
  {
    forall v | v in Dirty(m) && f <= v.d < f + (k + 1) ensures DirtyTwin(n, v, Vpage(v.d - f + t, v.i)) {
      if v.d == f + k {
        assert v in Dirty(x) && v == Vpage(f + k, v.i);
      } else {
        assert DirtyTwin(x, v, Vpage(v.d - f + t, v.i));
      }
    }
  }

  lemma RowAllDirty(m: Machine, n: Machine, src: nat, d: nat, nr: nat)
    requires RowDirty(m, n, src, d, nr) && (nr == WORDS || !UserDir(src))
    ensures RowDirty(m, n, src, d, WORDS)
  {}

  lemma RowFromDirty(m: Machine, k: Machine, n: Machine, src: nat, d: nat)
    requires Stay(m, k) && RowDirty(k, n, src, d, WORDS)
    ensures RowDirty(m, n, src, d, WORDS)
  {}

  /** A free slot has no dirty pages. */
  lemma EmptySlotClean(m: Machine, t: nat)
    requires Sound(m) && 1 <= t < NR_TASKS && m.task[t].page == 0
    ensures forall v | v in Dirty(m) :: v.d / TASK_DIRS != t
  {
    Open(m);
    EmptySlot(m, t);
    hide Inv;
    Look(m);
  }

  /** Every dirty page of the parent is dirty in the child too, and they share the frame. */
  ghost predicate ChildDirty(m: Machine, n: Machine, parent: nat, child: nat) {
    forall v | v in Dirty(m) && v.d / TASK_DIRS == parent ::
      DirtyTwin(n, v, Vpage(child * TASK_DIRS + v.d % TASK_DIRS, v.i))
  }

  lemma TablesAreChild(m: Machine, n: Machine, parent: nat, child: nat)
    requires Sound(m) && parent < NR_TASKS
    requires TablesDirty(m, n, parent * TASK_DIRS, child * TASK_DIRS, Dirs(m.task[parent].dataLimit))
    ensures ChildDirty(m, n, parent, child)
  {
    Open(m);
    ParentWithin(m, parent);
    hide Inv;
    Look(m);
    forall v | v in Dirty(m) && v.d / TASK_DIRS == parent
      ensures DirtyTwin(n, v, Vpage(child * TASK_DIRS + v.d % TASK_DIRS, v.i))
    {
      assert v in Spaces(m);
      assert v.d == parent * TASK_DIRS + v.d % TASK_DIRS;
    }
  }

  lemma UndoDirty(m: Machine, x: Machine, n: Machine, child: nat, hi: nat)
    requires Sound(m) && 1 <= child < NR_TASKS && m.task[child].page == 0 && hi <= TASK_DIRS
    requires Dirty(m) <= Dirty(x) && KeepsBut(x, n, child * TASK_DIRS, child * TASK_DIRS + hi)
    ensures Dirty(m) <= Dirty(n)
  {
    EmptySlotClean(m, child);
  }

  // ---------------------------------------------------------------- faults

  lemma FillDirty(m: Machine, f: nat, page: Page)
    requires Sound(m) && f in m.held && f < FRAMES
    ensures Dirty(Fill(m, f, page)) == Dirty(m)
  {
    FillHeld(m, f, page);
    var n := Fill(m, f, page);
    Look(m);
    Look(n);
    assert forall u :: Mapped(n, u) <==> Mapped(m, u);
    assert forall u: Vpage | ValidPage(u) && HasTable(m, u.d) :: Pte(n, u) == Pte(m, u);
  }

  /** un_wp_page for the only owner leaves the mark. */
  lemma OwnerDirty(m: Machine, v: Vpage)
    requires Sound(m) && Present(m, v) && LOW <= Pte(m, v).frame < FRAMES && m.counts[Pte(m, v).frame - LOW] == 1
    ensures DirtyBut(m, SetWritable(m, v), v) && (v in Dirty(SetWritable(m, v)) <==> v in Dirty(m))
  {
    OwnerUnshared(m, v);
    ElseDirty(m, m, SetWritable(m, v), v, m.mem[Pte(m, v).frame]);
    TableBounds(m, v.d);
  }

  /** The entry of a copied page is a fresh one. */
  lemma CopyClean(m: Machine, v: Vpage, p: nat)
    requires Sound(m) && Present(m, v) && p != 0 && p == FreePageOf(m)
    ensures Present(Grab(m, p), v) && Pte(Grab(m, p), v).frame < FRAMES
    ensures var n := CowCopy(Grab(m, p), v, p); DirtyBut(m, n, v) && v !in Dirty(n)
  {
    CopyUnshared(m, v, p);
    ElseDirty(m, m, CowCopy(Grab(m, p), v, p), v, m.mem[Pte(m, v).frame]);
    CopyEntryFresh(m, v, p);
  }

  lemma CopyEntryFresh(m: Machine, v: Vpage, p: nat)
    requires Sound(m) && Present(m, v) && p != 0 && p == FreePageOf(m)
    requires Present(Grab(m, p), v) && Pte(Grab(m, p), v).frame < FRAMES
    ensures v !in Dirty(CowCopy(Grab(m, p), v, p))
  {
    TableBounds(m, v.d);
    GrabElse(m, p);
    TableBounds(Grab(m, p), v.d);
    HeldIsNoTable(Grab(m, p), v.d, p);
  }

  lemma HeldIsNoTable(m: Machine, d: nat, f: nat)
    requires Sound(m) && f in m.held && UserDir(d) && Dir(m, d).present
    ensures Dir(m, d).frame != f
  {
    Open(m);
    assert Hits(m, DirRef(d), Dir(m, d).frame);
  }

  lemma DirtyButTwice(m: Machine, x: Machine, n: Machine, v: Vpage)
    requires DirtyBut(m, x, v) && DirtyBut(x, n, v)
    ensures DirtyBut(m, n, v)
  {}

  /** Only the entry of v may have become clean, and none but it has become dirty. */
  ghost predicate DirtyBut(m: Machine, n: Machine, v: Vpage) {
    forall u | u != v :: u in Dirty(m) <==> u in Dirty(n)
  }

  lemma ElseDirty(m: Machine, h: Machine, n: Machine, v: Vpage, page: Page)
    requires Else(h, n, v) && h.mem == m.mem && Spaces(n) == Spaces(m)[v := page]
    ensures DirtyBut(m, n, v)
  {
    Look(m);
    Look(n);
    SameMemory(m, h);
    forall u | u != v ensures u in Dirty(m) <==> u in Dirty(n) {
      assert Mapped(n, u) <==> Mapped(m, u);
      assert Mapped(m, u) ==> Present(h, u) && Pte(n, u).dirty == Pte(h, u).dirty;
    }
  }

  lemma PresenceDirty(m: Machine, n: Machine, v: Vpage, page: Page)
    requires SamePresence(m, n, v) && Spaces(n) == Spaces(m)[v := page]
    ensures DirtyBut(m, n, v)
  {
    Look(m);
    Look(n);
    forall u | u != v ensures u in Dirty(m) <==> u in Dirty(n) {
      assert Mapped(n, u) <==> Mapped(m, u);
    }
  }

  lemma DataDirty(m: Machine, n: Machine)
    requires DataChanged(m, n)
    ensures Dirty(n) == Dirty(m)
  {
    assert forall u :: Mapped(n, u) <==> Mapped(m, u);
  }

  lemma StoreIsData(x: Machine, v: Vpage, k: nat, w: Word)
    requires Inv(x) && Mapped(x, v) && k < WORDS
    ensures DataChanged(x, PutWord(x, Pte(x, v).frame, k, w))
  {
    var f := Pte(x, v).frame;
    assert Hits(x, PteRef(v), f);
    SharersAlike(x, v);
    NoTableIn(x, f);
    StoreData(x, f, k, w);
  }

  /** A store marks the page. */
  lemma StoreDirty(m: Machine, v: Vpage, k: nat, w: Word)
    requires Sound(m) && Mapped(m, v) && k < WORDS
    ensures Dirty(Store(m, v, k, w)) == Dirty(m) + {v}
  {
    var x := Dirtied(m, v);
    Open(m);
    DirtiedKeeps(m, v);
    PteChangedDirty(m, x, v, Pte(m, v).(dirty := true));
    StoreIsData(x, v, k, w);
    hide Inv, DataChanged, PteChanged;
    DataDirty(x, Store(m, v, k, w));
    assert v in Dirty(x);
  }
}
