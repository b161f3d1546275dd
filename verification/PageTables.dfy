/**
 The routines of mm/memory.c as functions on a Machine: what each leaves behind, panics and wild
 accesses included (`halted`), and the proof that none of those happens from a sound state.
 */
module PageTables {
  import opened Frames
  import opened FrameSteps
  import opened EagerSpaces

  // ---------------------------------------------------------------- get_free_page

  /** The highest free frame below index k of mem_map, 0 when there is none. */
  function TopFree(counts: seq<nat>, k: nat): (f: nat)
    requires k <= |counts|
    ensures f == 0 || (LOW <= f < LOW + k && counts[f - LOW] == 0)
  {
    if k == 0 then 0 else if counts[k - 1] == 0 then LOW + k - 1 else TopFree(counts, k - 1)
  }

  lemma {:induction false} TopFreeExact(counts: seq<nat>, k: nat)
    requires k <= |counts|
    ensures TopFree(counts, k) == 0 <==> forall j | 0 <= j < k :: counts[j] != 0
    ensures TopFree(counts, k) != 0 ==> forall j | TopFree(counts, k) - LOW < j < k :: counts[j] != 0
  {
    if k > 0 {
      TopFreeExact(counts, k - 1);
    }
  }

  function FreePageOf(m: Machine): (f: nat)
    ensures f == 0 || (LOW <= f < FRAMES && m.counts[f - LOW] == 0)
  {
    TopFree(m.counts, PAGING_PAGES)
  }

  // ---------------------------------------------------------------- free_page_tables

  /** The directory entry leads to a table in memory other than the directory itself. */
  predicate Reachable(m: Machine, d: nat) {
    d < WORDS && Dir(m, d).present && 0 < Dir(m, d).frame < FRAMES
  }

  /** Body of the inner loop: free the page when present, then a zero word. */
  function ClearEntry(m: Machine, v: Vpage): Machine
    requires v.i < WORDS
  {
    if !Reachable(m, v.d) then Halt(m)
    else PutPte(if Pte(m, v).present then DropCount(m, Pte(m, v).frame) else m, v, ZERO_WORD)
  }

  /** n has m's task table, held pages and directory, except possibly for entry d. */
  ghost predicate DirsExcept(m: Machine, n: Machine, d: nat) {
    && n.task == m.task && n.held == m.held && n.lo == m.lo && n.high == m.high
    && forall e: nat | e < WORDS && e != d :: Dir(n, e) == Dir(m, e)
  }

  /** The first k entries of table d are absent. */
  ghost predicate CleanUpto(m: Machine, d: nat, k: nat) {
    HasTable(m, d) && k <= WORDS && forall i | 0 <= i < k :: !m.mem[Dir(m, d).frame][i].present
  }

  lemma ClearAbsent(m: Machine, v: Vpage)
    requires Inv(m) && ValidPage(v) && Dir(m, v.d).present && HasTable(m, v.d) && !Pte(m, v).present
    ensures Inv(PutPte(m, v, ZERO_WORD)) && Spaces(PutPte(m, v, ZERO_WORD)) == Spaces(m) - {v}
  {
    var n := PutPte(m, v, ZERO_WORD);
    TablesHoldNoData(m, v.d);
    PutPteChanges(m, v, ZERO_WORD);
    assert !Present(m, v);
    assert CountsFollow(m, n, v, ZERO_WORD);
    PteStepKeeps(m, n, v, ZERO_WORD);
  }

  lemma ClearEntryKeeps(m: Machine, v: Vpage)
    requires Sound(m) && ValidPage(v) && Dir(m, v.d).present
    ensures var n := ClearEntry(m, v);
      && Sound(n) && Spaces(n) == Spaces(m) - {v} && DirsExcept(m, n, WORDS)
      && (CleanUpto(m, v.d, v.i) ==> CleanUpto(n, v.d, v.i + 1))
  {
    Open(m);
    TableOwned(m, v.d);
    PutPteChanges(m, v, ZERO_WORD);
    if Pte(m, v).present {
      UnmapKeeps(m, v);
      assert ClearEntry(m, v) == Unmap(m, v);
      assert Unmap(m, v).mem == PutPte(m, v, ZERO_WORD).mem;
    } else {
      ClearAbsent(m, v);
    }
  }

  /** x is m with the first k entries of table d freed (sealed). */
  ghost predicate RowCleared(m: Machine, x: Machine, d: nat, k: nat) {
    forall j: nat {:trigger Seal(x, j)} :: Seal(x, j) ==>
      Sound(x) && DirsExcept(m, x, WORDS) && CleanUpto(x, d, k) && Spaces(x) == Without(Spaces(m), d, d, k)
  }

  lemma RowClearedStart(m: Machine, d: nat)
    requires Sound(m) && UserDir(d) && Dir(m, d).present
    ensures RowCleared(m, m, d, 0)
  {
    Open(m);
    TableOwned(m, d);
    assert Without(Spaces(m), d, d, 0) == Spaces(m);
  }

  lemma RowClearedStep(m: Machine, x: Machine, d: nat, k: nat)
    requires RowCleared(m, x, d, k) && UserDir(d) && k < WORDS
    ensures RowCleared(m, ClearEntry(x, Vpage(d, k)), d, k + 1)
  {
    assert Seal(x, 0);
    ClearEntryKeeps(x, Vpage(d, k));
    WithoutStep(Spaces(m), d, d, k);
    hide ClearEntry, Without;
  }

  /** n is m with directory entry d and all its pages freed (sealed). */
  ghost predicate DirFreed(m: Machine, n: Machine, d: nat) {
    forall j: nat {:trigger Seal(n, j)} :: Seal(n, j) ==>
      Sound(n) && DirsExcept(m, n, d) && d < WORDS && !Dir(n, d).present && Spaces(n) == Without(Spaces(m), d, d, WORDS)
  }

  lemma RowClearedEnd(m: Machine, x: Machine, d: nat)
    requires RowCleared(m, x, d, WORDS) && UserDir(d)
    ensures DirFreed(m, UnhangTable(x, d), d)
  {
    assert Seal(x, 0);
    Open(x);
    UnhangTableKeeps(x, d);
    UnhangTableDirs(x, d);
  }

  lemma DirAbsent(m: Machine, d: nat)
    requires Sound(m) && UserDir(d) && !Dir(m, d).present
    ensures DirFreed(m, m, d)
  {
    NoTableNoPages(m, d);
    WithoutNothing(Spaces(m), d);
  }

  lemma UnhangTableDirs(m: Machine, d: nat)
    requires UserDir(d)
    ensures DirsExcept(m, UnhangTable(m, d), d) && !Dir(UnhangTable(m, d), d).present
  {}

  lemma NoTableNoPages(m: Machine, d: nat)
    requires d < WORDS && !Dir(m, d).present
    ensures forall v | v in Spaces(m) :: ValidPage(v) && v.d != d
  {
    Look(m);
  }

  lemma SpacesValid(m: Machine)
    ensures forall v | v in Spaces(m) :: ValidPage(v)
  {
    Look(m);
  }

  /** Directory entries lo..hi are absent in n, all others are as in m. */
  ghost predicate DirsCleared(m: Machine, n: Machine, lo: nat, hi: nat) {
    && n.task == m.task && n.held == m.held && n.lo == m.lo && n.high == m.high
    && forall e: nat | e < WORDS :: if lo <= e < hi then !Dir(n, e).present else Dir(n, e) == Dir(m, e)
  }

  /** n is m with the tables lo..d freed (sealed). */
  ghost predicate DirsFreed(m: Machine, n: Machine, lo: nat, d: nat) {
    forall j: nat {:trigger Seal(n, j)} :: Seal(n, j) ==>
      Sound(n) && DirsCleared(m, n, lo, d) && Spaces(n) == Without(Spaces(m), lo, d, 0)
  }

  lemma DirsFreedStart(m: Machine, lo: nat)
    requires Sound(m)
    ensures DirsFreed(m, m, lo, lo)
  {
    assert Without(Spaces(m), lo, lo, 0) == Spaces(m);
  }

  lemma DirsFreedSound(m: Machine, x: Machine, lo: nat, d: nat)
    requires DirsFreed(m, x, lo, d)
    ensures Sound(x)
  {
    assert Seal(x, 0);
  }

  lemma DirsFreedStep(m: Machine, x: Machine, n: Machine, lo: nat, d: nat)
    requires DirsFreed(m, x, lo, d) && DirFreed(x, n, d) && lo <= d < WORDS
    ensures DirsFreed(m, n, lo, d + 1)
  {
    assert Seal(x, 0) && Seal(n, 0);
    SpacesValid(m);
    WithoutSplit(Spaces(m), lo, d);
    hide Without;
  }

  // ---------------------------------------------------------------- copy_page_tables

  /** Body of the inner loop. A source page below 1 MB is copied read-only but not counted. */
  function CopyEntry(m: Machine, from: Vpage, to: Vpage): Machine
    requires from.i < WORDS && to.i < WORDS
  {
    if !Reachable(m, from.d) || !Reachable(m, to.d) then Halt(m)
    else if !Pte(m, from).present then m
    else
      var w := Pte(m, from).(rw := false);
      var n := PutPte(m, to, w);
      if w.frame < LOW then n
      else if w.frame >= FRAMES || !HasTable(n, from.d) then Halt(n)
      else PutCount(PutPte(n, from, w), w.frame, (m.counts[w.frame - LOW] + 1) % 256)
  }

  /** Source f is a user table, or task 0's first table as far as fork copies it. */
  predicate SourceDir(f: nat, nr: nat) {
    UserDir(f) || (f == 0 && nr <= KERNEL_PAGES)
  }

  lemma PutTwice(m: Machine, f: nat, j: nat, g: nat, k: nat, w: Word)
    requires f < FRAMES && g < FRAMES && f != g && j < WORDS && k < WORDS
    ensures PutWord(PutWord(m, f, j, w), g, k, w) == PutWord(PutWord(m, g, k, w), f, j, w)
  {
    var x := m.mem[f := m.mem[f][j := w]];
    var y := m.mem[g := m.mem[g][k := w]];
    assert x[g := x[g][k := w]] == y[f := y[f][j := w]];
  }

  lemma CopyEntrySplit(m: Machine, from: Vpage, to: Vpage)
    requires from.i < WORDS && to.i < WORDS && Reachable(m, from.d) && Reachable(m, to.d)
    requires Dir(m, from.d).frame != Dir(m, to.d).frame
    requires Pte(m, from).present && LOW <= Pte(m, from).frame < FRAMES
    ensures CopyEntry(m, from, to) == AddShare(Protect(m, from), from, to)
  {
    var w := Pte(m, from).(rw := false);
    PutTwice(m, Dir(m, from.d).frame, from.i, Dir(m, to.d).frame, to.i, w);
    var n := PutPte(m, to, w);
    assert HasTable(n, from.d) && Dir(n, from.d) == Dir(m, from.d);
    var k := Protect(m, from);
    assert HasTable(k, from.d) && HasTable(k, to.d) && Dir(k, to.d) == Dir(m, to.d) && Pte(k, from) == w;
  }

  lemma DistinctTables(m: Machine, d: nat, e: nat)
    requires Inv(m) && UserDir(d) && Dir(m, d).present && Reachable(m, e) && d != e && (UserDir(e) || Dir(m, e).frame < LOW)
    ensures Dir(m, d).frame != Dir(m, e).frame
  {
    TableOwned(m, d);
    assert UserDir(e) ==> Hits(m, DirRef(e), Dir(m, e).frame);
  }

  /** The entries of table d from i on are absent. */
  ghost predicate FreshFrom(m: Machine, d: nat, i: nat) {
    HasTable(m, d) && forall j | i <= j < WORDS :: !m.mem[Dir(m, d).frame][j].present
  }

  ghost predicate CopyReady(m: Machine, from: Vpage, to: Vpage) {
    && ValidPage(to) && to.d != from.d && to.i == from.i && Dir(m, to.d).present && FreshFrom(m, to.d, to.i)
    && SourceDir(from.d, from.i + 1) && Dir(m, from.d).present
    && (UserDir(from.d) ==> to.d % TASK_DIRS == from.d % TASK_DIRS)
  }

  /** What one round of the copy loop does to the address spaces, for a user source and for a
      page below 1 MB. */
  lemma CopyEntryShares(m: Machine, from: Vpage, to: Vpage)
    requires Inv(m) && CopyReady(m, from, to) && HasTable(m, from.d) && Pte(m, from).present
    requires LOW <= Pte(m, from).frame
    ensures var n := CopyEntry(m, from, to);
      && Inv(n) && Spaces(n) == Spaces(m)[to := m.mem[Pte(m, from).frame]]
      && DirsExcept(m, n, WORDS) && FreshFrom(n, to.d, to.i + 1)
  {
    assert UserDir(from.d);
    TableOwned(m, to.d);
    TableOwned(m, from.d);
    DistinctTables(m, to.d, from.d);
    PresentCounted(m, from);
    CopyEntrySplit(m, from, to);
    var w, k := Pte(m, from).(rw := false), Protect(m, from);
    ProtectKeeps(m, from);
    PutPteChanges(m, from, w);
    TableOwned(k, to.d);
    AddShareKeeps(k, from, to);
    PutPteChanges(k, to, w);
    assert Mapped(k, from);
    SharedDirs(k, from, to);
    TablesHoldNoData(m, from.d);
    assert Mapped(m, from) && k.mem[w.frame] == m.mem[w.frame];
  }

  lemma SharedDirs(m: Machine, from: Vpage, to: Vpage)
    requires HasTable(m, from.d) && from.i < WORDS && to.i < WORDS && OwnTable(m, to.d) && FreshFrom(m, to.d, to.i)
    ensures DirsExcept(m, AddShare(m, from, to), WORDS) && FreshFrom(AddShare(m, from, to), to.d, to.i + 1)
  {}

  lemma CopyEntryLow(m: Machine, from: Vpage, to: Vpage)
    requires Inv(m) && CopyReady(m, from, to) && HasTable(m, from.d) && Pte(m, from).present
    requires Pte(m, from).frame < LOW
    ensures var n := CopyEntry(m, from, to);
      && Inv(n) && Spaces(n) == Spaces(m) && DirsExcept(m, n, WORDS) && FreshFrom(n, to.d, to.i + 1)
  {
    TableOwned(m, to.d);
    if UserDir(from.d) { TableOwned(m, from.d); }
    assert Reachable(m, from.d);
    assert CopyEntry(m, from, to) == AddShare(m, from, to);
    AddShareKeeps(m, from, to);
    SharedDirs(m, from, to);
  }

  lemma CopyEntryKeeps(m: Machine, from: Vpage, to: Vpage)
    requires Sound(m) && CopyReady(m, from, to)
    ensures var n := CopyEntry(m, from, to);
      && Sound(n) && DirsExcept(m, n, WORDS) && FreshFrom(n, to.d, to.i + 1)
      && Spaces(n) == if from in Spaces(m) then Spaces(m)[to := Spaces(m)[from]] else Spaces(m)
  {
    Open(m);
    Look(m);
    TableOwned(m, to.d);
    if UserDir(from.d) { TableOwned(m, from.d); }
    assert HasTable(m, from.d);
    if Pte(m, from).present {
      if LOW <= Pte(m, from).frame {
        CopyEntryShares(m, from, to);
        PresentCounted(m, from);
        assert Mapped(m, from);
      } else {
        CopyEntryLow(m, from, to);
        assert !Mapped(m, from);
      }
    } else {
      assert !Mapped(m, from);
    }
  }

  /** Tables f.. of one task slot are copied to tables t.. of another, n of them. */
  ghost predicate CopyRange(a: SpaceMap, f: nat, t: nat, n: nat) {
    && CopyOk(a, f, t, n) && f % TASK_DIRS == t % TASK_DIRS == 0 && n <= TASK_DIRS
    && UserDir(t) && t + n <= WORDS && f + n <= WORDS && (UserDir(f) || (f == 0 && n <= 1))
  }

  lemma CopyStepReady(m: Machine, a: SpaceMap, f: nat, t: nat, n: nat, d: nat, i: nat)
    requires CopyRange(a, f, t, n) && t <= d < t + n && i < WORDS && (f == 0 ==> i < KERNEL_PAGES)
    requires Dir(m, d).present && Dir(m, f + (d - t)).present && FreshFrom(m, d, i)
    ensures CopyReady(m, Vpage(f + (d - t), i), Vpage(d, i))
  {
    SlotOffset(f / TASK_DIRS, d - t);
    SlotOffset(t / TASK_DIRS, d - t);
  }

  lemma SlotOffset(q: nat, o: nat)
    ensures (TASK_DIRS * q + o) % TASK_DIRS == o % TASK_DIRS
  {}

  /** The address spaces of m are a with the copy loop at entry i of d (sealed). */
  ghost predicate CopyAt(m: Machine, a: SpaceMap, f: nat, t: nat, d: nat, i: nat) {
    forall k: nat {:trigger Seal(m, k)} :: Seal(m, k) ==> Spaces(m) == CopyPart(a, f, t, d, i)
  }

  lemma CopyEntryAdvances(m: Machine, a: SpaceMap, f: nat, t: nat, n: nat, d: nat, i: nat)
    requires CopyRange(a, f, t, n) && t <= d < t + n && i < WORDS
    requires Sound(m) && CopyReady(m, Vpage(f + (d - t), i), Vpage(d, i)) && CopyAt(m, a, f, t, d, i)
    ensures var x := CopyEntry(m, Vpage(f + (d - t), i), Vpage(d, i));
      Sound(x) && DirsExcept(m, x, WORDS) && FreshFrom(x, d, i + 1) && CopyAt(x, a, f, t, d, i + 1)
  {
    assert Seal(m, 0);
    CopyEntryKeeps(m, Vpage(f + (d - t), i), Vpage(d, i));
    CopySourceKept(a, f, t, n, d, i);
    CopyStep(a, f, t, n, d, i);
  }

  /** x is m with k entries of table d filled in (sealed). */
  ghost predicate RowAt(m: Machine, x: Machine, a: SpaceMap, f: nat, t: nat, d: nat, k: nat) {
    forall j: nat {:trigger Seal(x, j)} :: Seal(x, j) ==>
      Sound(x) && CopyAt(x, a, f, t, d, k) && DirsExcept(m, x, WORDS) && FreshFrom(x, d, k)
  }

  lemma RowStep(m: Machine, x: Machine, a: SpaceMap, f: nat, t: nat, n: nat, d: nat, k: nat)
    requires CopyRange(a, f, t, n) && t <= d < t + n && k < WORDS && (f == 0 ==> k < KERNEL_PAGES)
    requires Dir(m, d).present && Dir(m, f + (d - t)).present && RowAt(m, x, a, f, t, d, k)
    ensures RowAt(m, CopyEntry(x, Vpage(f + (d - t), k), Vpage(d, k)), a, f, t, d, k + 1)
  {
    assert Seal(x, 0);
    CopyStepReady(x, a, f, t, n, d, k);
    hide CopyReady, CopyRange, CopyPart, CopyOk;
    CopyEntryAdvances(x, a, f, t, n, d, k);
  }

  /** Copying `nr` entries of table src into the empty table d of m may start (sealed). */
  ghost predicate RowContext(m: Machine, a: SpaceMap, f: nat, t: nat, n: nat, src: nat, d: nat, nr: nat) {
    forall j: nat {:trigger Seal(m, j)} :: Seal(m, j) ==>
      && CopyRange(a, f, t, n) && t <= d < t + n && src == f + (d - t) && nr <= WORDS
      && (f == 0 ==> nr <= KERNEL_PAGES) && Dir(m, d).present && Dir(m, src).present
      && RowAt(m, m, a, f, t, d, 0)
  }

  lemma RowFirst(m: Machine, a: SpaceMap, f: nat, t: nat, n: nat, src: nat, d: nat, nr: nat)
    requires RowContext(m, a, f, t, n, src, d, nr)
    ensures RowAt(m, m, a, f, t, d, 0)
  {
    assert Seal(m, 0);
  }

  lemma RowNext(m: Machine, x: Machine, a: SpaceMap, f: nat, t: nat, n: nat, src: nat, d: nat, nr: nat, k: nat)
    requires RowContext(m, a, f, t, n, src, d, nr) && k < nr && nr <= WORDS && d < WORDS && RowAt(m, x, a, f, t, d, k)
    ensures RowAt(m, CopyEntry(x, Vpage(src, k), Vpage(d, k)), a, f, t, d, k + 1)
  {
    assert Seal(m, 0);
    RowStep(m, x, a, f, t, n, d, k);
  }

  /** The child's slot is live, and its tables from d on are still absent. */
  ghost predicate SlotReady(m: Machine, t: nat, n: nat, d: nat) {
    && t < WORDS && m.task[t / TASK_DIRS].Live() && n <= Dirs(m.task[t / TASK_DIRS].dataLimit)
    && forall e: nat | d <= e < t + n && e < WORDS :: !Dir(m, e).present
  }

  lemma CopyEmptySource(m: Machine, a: SpaceMap, f: nat, t: nat, n: nat, d: nat)
    requires CopyRange(a, f, t, n) && t <= d < t + n && !Dir(m, f + (d - t)).present
    requires CopyAt(m, a, f, t, d, 0)
    ensures CopyAt(m, a, f, t, d + 1, 0)
  {
    assert Seal(m, 0);
    var s := f + (d - t);
    NoTableNoPages(m, s);
    forall v | v in a ensures v.d == s ==> v in Spaces(m) {}
    CopyEmptyRow(a, f, t, d, 0);
  }

  lemma CopyRowEnds(m: Machine, a: SpaceMap, f: nat, t: nat, n: nat, d: nat, nr: nat)
    requires CopyRange(a, f, t, n) && t <= d < t + n && nr == if f == 0 then KERNEL_PAGES else WORDS
    requires CopyAt(m, a, f, t, d, nr)
    ensures CopyAt(m, a, f, t, d + 1, 0)
  {
    assert Seal(m, 0);
    if f == 0 {
      CopyEmptyRow(a, f, t, d, nr);
    } else {
      EagerSpaces.CopyRow(a, f, t, d);
    }
  }

  lemma GrabFree(m: Machine, p: nat)
    requires Sound(m) && p != 0 && p == FreePageOf(m)
    ensures var g := Grab(m, p);
      && Sound(g) && Spaces(g) == Spaces(m) && p in g.held && p !in m.held && EmptyTable(g, p)
      && DirsExcept(m, Drop(g, p), WORDS) && g.task == m.task
  {
    Open(m);
    GrabKeeps(m, p);
    FreeUnowned(m, p);
  }

  lemma HangNew(m: Machine, d: nat, p: nat)
    requires Sound(m) && UserDir(d) && !Dir(m, d).present && p in m.held && EmptyTable(m, p)
    requires m.task[d / TASK_DIRS].Live() && d % TASK_DIRS < Dirs(m.task[d / TASK_DIRS].dataLimit)
    ensures var k := HangTable(m, d, p);
      && Sound(k) && Spaces(k) == Spaces(m) && Dir(k, d).present && FreshFrom(k, d, 0)
  {
    Open(m);
    HangTableKeeps(m, d, p);
    assert HeldRef(p) in RefSet(m, p);
  }

  lemma NewTable(m: Machine, d: nat, p: nat, t: nat, n: nat)
    requires Sound(m) && UserDir(d) && !Dir(m, d).present && p != 0 && p == FreePageOf(m)
    requires t % TASK_DIRS == 0 && n <= TASK_DIRS && t <= d < t + n && SlotReady(m, t, n, d)
    ensures var k := HangTable(Grab(m, p), d, p);
      && Sound(k) && Spaces(k) == Spaces(m) && DirsExcept(m, k, d)
      && Dir(k, d).present && FreshFrom(k, d, 0) && SlotReady(k, t, n, d + 1)
  {
    var g := Grab(m, p);
    GrabFree(m, p);
    assert Dir(g, d) == Dir(m, d);
    assert d / TASK_DIRS == t / TASK_DIRS && d % TASK_DIRS == d - t;
    HangNew(g, d, p);
    assert g.held - {p} == m.held;
  }

  /** Directory entry d done: r is x with the pages of one more table (sealed). */
  ghost predicate DirCopied(x: Machine, r: Machine, a: SpaceMap, f: nat, t: nat, n: nat, d: nat) {
    forall j: nat {:trigger Seal(r, j)} :: Seal(r, j) ==>
      Sound(r) && CopyAt(r, a, f, t, d + 1, 0) && SlotReady(r, t, n, d + 1) && DirsExcept(x, r, d)
  }

  lemma SourceAbsent(m: Machine, a: SpaceMap, f: nat, t: nat, n: nat, d: nat)
    requires CopyRange(a, f, t, n) && t <= d < t + n && !Dir(m, f + (d - t)).present
    requires Sound(m) && CopyAt(m, a, f, t, d, 0) && SlotReady(m, t, n, d)
    ensures DirCopied(m, m, a, f, t, n, d)
  {
    CopyEmptySource(m, a, f, t, n, d);
  }

  /** The new, empty table of directory entry d is ready for the row loop. */
  lemma RowStart(m: Machine, a: SpaceMap, f: nat, t: nat, n: nat, d: nat, p: nat)
    requires CopyRange(a, f, t, n) && t <= d < t + n
    requires Sound(m) && CopyAt(m, a, f, t, d, 0) && SlotReady(m, t, n, d) && p != 0 && p == FreePageOf(m)
    ensures var k := HangTable(Grab(m, p), d, p);
      && RowAt(k, k, a, f, t, d, 0) && DirsExcept(m, k, d) && SlotReady(k, t, n, d + 1)
      && Dir(k, d).present && Dir(k, f + (d - t)) == Dir(m, f + (d - t))
  {
    var k := HangTable(Grab(m, p), d, p);
    NewTable(m, d, p, t, n);
    assert CopyAt(k, a, f, t, d, 0) by { assert Seal(m, 0); }
  }

  lemma RowEnd(m: Machine, k: Machine, x: Machine, a: SpaceMap, f: nat, t: nat, n: nat, d: nat, nr: nat)
    requires CopyRange(a, f, t, n) && t <= d < t + n && nr == if f == 0 then KERNEL_PAGES else WORDS
    requires DirsExcept(m, k, d) && SlotReady(k, t, n, d + 1) && RowAt(k, x, a, f, t, d, nr)
    ensures DirCopied(m, x, a, f, t, n, d)
  {
    assert Seal(x, 0);
    CopyRowEnds(x, a, f, t, n, d, nr);
    hide CopyRange, CopyAt;
  }

  /** x has m's task table and held pages, and m's directory except for entries t..t + n. */
  ghost predicate SameOutside(m: Machine, x: Machine, t: nat, n: nat) {
    && x.task == m.task && x.held == m.held && x.lo == m.lo && x.high == m.high
    && forall e: nat | e < WORDS && !(t <= e < t + n) :: Dir(x, e) == Dir(m, e)
  }

  /** x is m with k tables copied (sealed). */
  ghost predicate DirsAt(m: Machine, x: Machine, a: SpaceMap, f: nat, t: nat, n: nat, k: nat) {
    forall j: nat {:trigger Seal(x, j)} :: Seal(x, j) ==>
      Sound(x) && SlotReady(x, t, n, t + k) && CopyAt(x, a, f, t, t + k, 0) && SameOutside(m, x, t, n)
  }

  lemma DirsStep(m: Machine, x: Machine, r: Machine, a: SpaceMap, f: nat, t: nat, n: nat, k: nat)
    requires k < n && DirsAt(m, x, a, f, t, n, k) && DirCopied(x, r, a, f, t, n, t + k)
    ensures DirsAt(m, r, a, f, t, n, k + 1)
  {
    assert Seal(x, 0) && Seal(r, 0);
    hide CopyAt;
  }

  lemma DirsOpen(m: Machine, x: Machine, a: SpaceMap, f: nat, t: nat, n: nat, k: nat)
    requires DirsAt(m, x, a, f, t, n, k)
    ensures Sound(x) && SlotReady(x, t, n, t + k) && CopyAt(x, a, f, t, t + k, 0)
    ensures SameOutside(m, x, t, n)
  {
    assert Seal(x, 0);
  }

  lemma DirsNext(m: Machine, x: Machine, a: SpaceMap, f: nat, t: nat, n: nat, k: nat)
    requires DirsAt(m, x, a, f, t, n, k) && k < n && t + n <= WORDS
    ensures Sound(x) && CopyAt(x, a, f, t, t + k, 0) && SlotReady(x, t, n, t + k) && !Dir(x, t + k).present
  {
    assert Seal(x, 0);
  }

  // ---------------------------------------------------------------- fork and exit

  /** What fork promises: on success the child's space is a full copy of the parent's and its
      task entry a copy with its own page; on failure no space changes and the slot is free. */
  ghost predicate Forked(m: Machine, n: Machine, parent: nat, child: nat, ok: bool)
    requires parent < NR_TASKS && child < NR_TASKS
  {
    && Sound(n) && n.held == m.held
    && Spaces(n) == (if ok then EagerFork(Spaces(m), parent, child) else Spaces(m))
    && (forall t | 0 <= t < NR_TASKS && t != child :: n.task[t] == m.task[t])
    && (if ok then n.task[child].page != 0 && n.task[child] == ChildOf(m.task[parent], n.task[child].page)
        else n.task[child].page == 0)
  }

  /** The tables of the other tasks are the same. */
  ghost predicate SameTables(m: Machine, n: Machine, t: nat) {
    forall d: nat | UserDir(d) && d / TASK_DIRS != t :: Dir(n, d) == Dir(m, d)
  }

  /** What exit promises. */
  ghost predicate Exited(m: Machine, n: Machine, t: nat) {
    && t < NR_TASKS && Sound(n) && SameTables(m, n, t) && n.held == m.held && NoTables(n, t) && Spaces(n) == EagerExit(Spaces(m), t)
    && n.task == m.task[t := m.task[t].(zombie := true)]
  }

  /** The slot of t is empty. */
  ghost predicate Emptied(m: Machine, n: Machine, t: nat) {
    && Sound(n) && n.held == m.held && n.task == m.task && NoTables(n, t) && Spaces(n) == EagerExit(Spaces(m), t)
    && SameTables(m, n, t)
  }

  lemma EmptiedRetask(m: Machine, n: Machine, t: nat, task: Task)
    requires Emptied(m, n, t) && 1 <= t < NR_TASKS
    requires task.page == m.task[t].page && task.codeLimit <= task.dataLimit <= MAX_LIMIT
    ensures var z := Retask(n, t, task);
      && Sound(z) && z.held == m.held && Spaces(z) == EagerExit(Spaces(m), t)
      && NoTables(z, t) && z.task == m.task[t := task] && SameTables(m, z, t)
  {
    Open(n);
    RetaskKeeps(n, t, task);
  }

  lemma ForkSucceeds(m: Machine, p: nat, x: Machine, parent: nat, child: nat)
    requires Sound(m) && p != 0 && p == FreePageOf(m)
    requires parent < NR_TASKS && 1 <= child < NR_TASKS && parent != child && m.task[child].page == 0
    requires DirsAt(PutTask(Grab(m, p), child, ChildOf(m.task[parent], p)), x, Spaces(m),
                    parent * TASK_DIRS, child * TASK_DIRS,
                    Dirs(m.task[parent].dataLimit), Dirs(m.task[parent].dataLimit))
    ensures Forked(m, x, parent, child, true) && SameTables(m, x, child)
  {
    var k := PutTask(Grab(m, p), child, ChildOf(m.task[parent], p));
    ForkStart(m, p, parent, child);
    ForkDone(m, k, x, parent, child);
    ForkTablesSame(m, p, x, parent, child, Dirs(m.task[parent].dataLimit));
  }

  lemma ForkTablesSame(m: Machine, p: nat, x: Machine, parent: nat, child: nat, n: nat)
    requires LOW <= p < FRAMES && 1 <= child < NR_TASKS && parent < NR_TASKS && n <= TASK_DIRS
    requires DirsAt(PutTask(Grab(m, p), child, ChildOf(m.task[parent], p)), x, Spaces(m),
                    parent * TASK_DIRS, child * TASK_DIRS, n, n)
    ensures SameTables(m, x, child)
  {
    var k := PutTask(Grab(m, p), child, ChildOf(m.task[parent], p));
    DirsOpen(k, x, Spaces(m), parent * TASK_DIRS, child * TASK_DIRS, n, n);
    assert k.mem[0] == m.mem[0];
  }

  lemma ForkFails(m: Machine, p: nat, x: Machine, y: Machine, parent: nat, child: nat, j: nat)
    requires Sound(m) && p != 0 && p == FreePageOf(m)
    requires parent < NR_TASKS && 1 <= child < NR_TASKS && parent != child && m.task[child].page == 0
    requires var n := Dirs(m.task[parent].dataLimit);
      && j <= n && DirsAt(PutTask(Grab(m, p), child, ChildOf(m.task[parent], p)), x, Spaces(m),
                          parent * TASK_DIRS, child * TASK_DIRS, n, j)
      && DirsFreed(x, y, child * TASK_DIRS, child * TASK_DIRS + n)
    ensures y.task[child].page == p && Forked(m, ReleaseTask(y, child), parent, child, false)
  {
    var n := Dirs(m.task[parent].dataLimit);
    var k := PutTask(Grab(m, p), child, ChildOf(m.task[parent], p));
    ForkStart(m, p, parent, child);
    ForkUndone(m, k, x, y, parent, child, j);
    hide ReleaseTask, CopyRange, DirsAt, DirsFreed;
  }

  lemma ForkLimit(m: Machine, p: nat, x: Machine, parent: nat, child: nat, j: nat)
    requires Sound(m) && p != 0 && p == FreePageOf(m)
    requires parent < NR_TASKS && 1 <= child < NR_TASKS && parent != child && m.task[child].page == 0
    requires DirsAt(PutTask(Grab(m, p), child, ChildOf(m.task[parent], p)), x, Spaces(m),
                    parent * TASK_DIRS, child * TASK_DIRS, Dirs(m.task[parent].dataLimit), j)
    ensures Sound(x) && x.task[child].dataLimit == m.task[parent].dataLimit && Dirs(m.task[parent].dataLimit) <= TASK_DIRS
  {
    assert Seal(x, 0);
    ForkStart(m, p, parent, child);
  }

  /** Before the copy loop: the child's task page is in place, its slot is still empty. */
  lemma ForkStart(m: Machine, p: nat, parent: nat, child: nat)
    requires Sound(m) && p != 0 && p == FreePageOf(m)
    requires parent < NR_TASKS && 1 <= child < NR_TASKS && parent != child && m.task[child].page == 0
    ensures var k := PutTask(Grab(m, p), child, ChildOf(m.task[parent], p));
      var n := Dirs(m.task[parent].dataLimit);
      && Sound(k) && Spaces(k) == Spaces(m) && k.held == m.held
      && n <= TASK_DIRS && CopyRange(Spaces(m), parent * TASK_DIRS, child * TASK_DIRS, n)
      && DirsAt(k, k, Spaces(m), parent * TASK_DIRS, child * TASK_DIRS, n, 0)
  {
    var g, task := Grab(m, p), ChildOf(m.task[parent], p);
    var n := Dirs(m.task[parent].dataLimit);
    var k := PutTask(g, child, task);
    GrabFree(m, p);
    Open(m);
    Open(g);
    assert task.codeLimit <= task.dataLimit <= MAX_LIMIT;
    PutTaskKeeps(g, child, task);
    assert g.held - {p} == m.held;
    EmptySlot(m, child);
    ForkRange(m, parent, child);
    assert CopyAt(k, Spaces(m), parent * TASK_DIRS, child * TASK_DIRS, child * TASK_DIRS, 0) by {
      CopyNothing(Spaces(m), parent * TASK_DIRS, child * TASK_DIRS);
    }
    assert SlotReady(k, child * TASK_DIRS, n, child * TASK_DIRS);
  }

  lemma EmptySlot(m: Machine, t: nat)
    requires Inv(m) && 1 <= t < NR_TASKS && m.task[t].page == 0
    ensures forall d: nat | t * TASK_DIRS <= d < t * TASK_DIRS + TASK_DIRS :: !Dir(m, d).present
    ensures forall v | v in Spaces(m) :: ValidPage(v) && v.d / TASK_DIRS != t
  {
    Look(m);
    forall d: nat | t * TASK_DIRS <= d < t * TASK_DIRS + TASK_DIRS ensures !Dir(m, d).present {
      assert d / TASK_DIRS == t;
    }
  }

  lemma ForkRange(m: Machine, parent: nat, child: nat)
    requires Inv(m) && parent < NR_TASKS && 1 <= child < NR_TASKS && parent != child
    requires forall v | v in Spaces(m) :: ValidPage(v) && v.d / TASK_DIRS != child
    ensures var n := Dirs(m.task[parent].dataLimit);
      n <= TASK_DIRS && CopyRange(Spaces(m), parent * TASK_DIRS, child * TASK_DIRS, n)
  {}

  lemma CopyNothing(a: SpaceMap, f: nat, t: nat)
    requires forall v | v in a :: ValidPage(v)
    ensures CopyPart(a, f, t, t, 0) == a
  {}

  lemma ParentWithin(m: Machine, t: nat)
    requires Inv(m) && t < NR_TASKS
    ensures forall v | v in Spaces(m) && v.d / TASK_DIRS == t :: v.d % TASK_DIRS < Dirs(m.task[t].dataLimit)
  {
    Look(m);
  }

  lemma CopyPartFork(m: Machine, parent: nat, child: nat)
    requires Sound(m) && parent < NR_TASKS && 1 <= child < NR_TASKS && parent != child && m.task[child].page == 0
    ensures var n := Dirs(m.task[parent].dataLimit); var f, t := parent * TASK_DIRS, child * TASK_DIRS;
      CopyPart(Spaces(m), f, t, t + n, 0) == EagerFork(Spaces(m), parent, child)
  {
    Open(m);
    EmptySlot(m, child);
    ForkRange(m, parent, child);
    ParentWithin(m, parent);
    hide Inv;
    CopyIsFork(Spaces(m), parent, child, Dirs(m.task[parent].dataLimit));
  }

  lemma CopyAtSpaces(m: Machine, a: SpaceMap, f: nat, t: nat, d: nat, i: nat)
    requires CopyAt(m, a, f, t, d, i)
    ensures Spaces(m) == CopyPart(a, f, t, d, i)
  {
    assert Seal(m, 0);
  }

  /** The finished copy loop is the eager fork. */
  lemma ForkDone(m: Machine, k: Machine, x: Machine, parent: nat, child: nat)
    requires Sound(m) && parent < NR_TASKS && 1 <= child < NR_TASKS && parent != child && m.task[child].page == 0
    requires DirsAt(k, x, Spaces(m), parent * TASK_DIRS, child * TASK_DIRS,
                    Dirs(m.task[parent].dataLimit), Dirs(m.task[parent].dataLimit))
    ensures Sound(x) && x.task == k.task && x.held == k.held && Spaces(x) == EagerFork(Spaces(m), parent, child)
  {
    var n := Dirs(m.task[parent].dataLimit);
    var f, t := parent * TASK_DIRS, child * TASK_DIRS;
    DirsOpen(k, x, Spaces(m), f, t, n, n);
    CopyPartFork(m, parent, child);
    CopyAtSpaces(x, Spaces(m), f, t, t + n, 0);
  }

  lemma UndoSpaces(x: Machine, a: SpaceMap, f: nat, t: nat, n: nat, j: nat)
    requires j <= n && CopyRange(a, f, t, n) && CopyAt(x, a, f, t, t + j, 0)
    ensures Without(Spaces(x), t, t + n, 0) == a
  {
    CopyAtSpaces(x, a, f, t, t + j, 0);
    CopyUndone(a, f, t, n, t + j);
  }

  lemma DirsFreedOpen(m: Machine, n: Machine, lo: nat, d: nat)
    requires DirsFreed(m, n, lo, d)
    ensures Sound(n) && DirsCleared(m, n, lo, d) && Spaces(n) == Without(Spaces(m), lo, d, 0)
  {
    assert Seal(n, 0);
  }


  /** A fork that ran out of memory leaves the address spaces as they were. */
  lemma ForkUndone(m: Machine, k: Machine, x: Machine, y: Machine, parent: nat, child: nat, j: nat)
    requires parent < NR_TASKS && 1 <= child < NR_TASKS && k.task[child].page != 0
    requires var n := Dirs(k.task[child].dataLimit);
      && j <= n <= TASK_DIRS && CopyRange(Spaces(m), parent * TASK_DIRS, child * TASK_DIRS, n)
      && DirsAt(k, x, Spaces(m), parent * TASK_DIRS, child * TASK_DIRS, n, j)
      && DirsFreed(x, y, child * TASK_DIRS, child * TASK_DIRS + n)
    ensures y.task == k.task
    ensures var z := ReleaseTask(y, child);
      Sound(z) && Spaces(z) == Spaces(m) && z.held == k.held && z.task == k.task[child := k.task[child].(page := 0)]
  {
    var n := Dirs(k.task[child].dataLimit);
    var f, t := parent * TASK_DIRS, child * TASK_DIRS;
    DirsOpen(k, x, Spaces(m), f, t, n, j);
    DirsFreedOpen(x, y, t, t + n);
    UndoSpaces(x, Spaces(m), f, t, n, j);
    hide CopyRange, CopyAt, Without;
    Released(y, child);
  }

  lemma Released(y: Machine, t: nat)
    requires Sound(y) && 1 <= t < NR_TASKS && y.task[t].page != 0
    requires forall d: nat | t * TASK_DIRS <= d < t * TASK_DIRS + Dirs(y.task[t].dataLimit) && d < WORDS :: !Dir(y, d).present
    ensures var z := ReleaseTask(y, t);
      Sound(z) && Spaces(z) == Spaces(y) && z.held == y.held && z.task == y.task[t := y.task[t].(page := 0)]
  {
    SlotFreed(y, t, Dirs(y.task[t].dataLimit));
    Open(y);
    ReleaseTaskKeeps(y, t);
    ReleaseTaskRest(y, t);
  }

  lemma SlotFreed(m: Machine, t: nat, n: nat)
    requires Sound(m) && 1 <= t < NR_TASKS && n == Dirs(m.task[t].dataLimit)
    requires forall d: nat | t * TASK_DIRS <= d < t * TASK_DIRS + n && d < WORDS :: !Dir(m, d).present
    ensures NoTables(m, t)
  {
    Open(m);
    forall d | UserDir(d) && d / TASK_DIRS == t ensures !Dir(m, d).present {
      assert d == t * TASK_DIRS + d % TASK_DIRS;
    }
  }

  lemma ReleaseTaskRest(m: Machine, t: nat)
    requires Inv(m) && 1 <= t < NR_TASKS && m.task[t].page != 0
    ensures var z := ReleaseTask(m, t);
      z.held == m.held && z.task == m.task[t := m.task[t].(page := 0)]
  {}

  /** do_exit frees the code range, then the data range: together the whole slot. */
  lemma ExitDone(m: Machine, x: Machine, y: Machine, t: nat)
    requires Sound(m) && 1 <= t < NR_TASKS
    requires var c, n := Dirs(m.task[t].codeLimit), Dirs(m.task[t].dataLimit);
      DirsFreed(m, x, t * TASK_DIRS, t * TASK_DIRS + c) && DirsFreed(x, y, t * TASK_DIRS, t * TASK_DIRS + n)
    ensures Emptied(m, y, t)
  {
    var c, n := Dirs(m.task[t].codeLimit), Dirs(m.task[t].dataLimit);
    assert Seal(x, 0) && Seal(y, 0);
    SlotFreed(y, t, n);
    Open(m);
    assert c <= n <= TASK_DIRS;
    ParentWithin(m, t);
    hide Inv;
    WithoutTwice(Spaces(m), t * TASK_DIRS, t * TASK_DIRS + c, t * TASK_DIRS + n);
    WithoutIsExit(Spaces(m), t, n);
  }

  lemma SlotAddress(t: nat)
    ensures t * MAX_LIMIT / 0x400000 == t * TASK_DIRS && t * MAX_LIMIT % 0x400000 == 0
  {}

  lemma ExitRanges(m: Machine, t: nat)
    requires Sound(m) && 1 <= t < NR_TASKS
    ensures m.task[t].codeLimit <= m.task[t].dataLimit <= MAX_LIMIT
    ensures Dirs(m.task[t].codeLimit) <= Dirs(m.task[t].dataLimit) <= TASK_DIRS
  {
    Open(m);
  }

  /** Only one slot has a given task page, and a zombie's slot is empty. */
  lemma Reaped(m: Machine, t: nat)
    requires Sound(m) && 1 <= t < NR_TASKS && m.task[t].page != 0 && m.task[t].zombie
    ensures forall u | 1 <= u < NR_TASKS && m.task[u].page == m.task[t].page :: u == t
    ensures var z := ReleaseTask(m, t);
      Sound(z) && Spaces(z) == Spaces(m) && z.held == m.held && z.task == m.task[t := m.task[t].(page := 0)]
  {
    Open(m);
    ReleaseTaskKeeps(m, t);
    ReleaseTaskRest(m, t);
    forall u | 1 <= u < NR_TASKS && m.task[u].page == m.task[t].page ensures u == t {
      assert TaskRef(u) in RefSet(m, m.task[t].page) && TaskRef(t) in RefSet(m, m.task[t].page);
    }
  }

  lemma WithoutTwice(a: SpaceMap, t: nat, c: nat, n: nat)
    requires c <= n
    ensures Without(Without(a, t, c, 0), t, n, 0) == Without(a, t, n, 0)
  {}
}
