/**
 What the page-level routines of mm/memory.c (write protection, demand-zero, sharing) do to a
 sound machine.
 */
module PageFaults {
  import opened Frames
  import opened FrameSteps
  import opened EagerSpaces
  import opened PageTables

  /** n agrees with m outside address-space contents: tasks, held pages, and every entry but v's. */
  ghost predicate Else(m: Machine, n: Machine, v: Vpage) {
    && n.task == m.task && n.held == m.held && n.lo == m.lo && n.high == m.high
    && (forall u: Vpage | u != v && ValidPage(u) ::
          (Present(n, u) <==> Present(m, u))
          && (Present(m, u) ==> Pte(n, u).rw == Pte(m, u).rw && Pte(n, u).dirty == Pte(m, u).dirty))
  }

  /** The page of v may now be written: it is v's alone and shows what v showed before. */
  ghost predicate Unshared(m: Machine, n: Machine, v: Vpage) {
    && Present(m, v) && Pte(m, v).frame < FRAMES
    && Sound(n) && Else(m, n, v) && Present(n, v) && Pte(n, v).rw
    && Spaces(n) == Spaces(m)[v := m.mem[Pte(m, v).frame]]
  }

  lemma PteChangedElse(m: Machine, n: Machine, v: Vpage, w: Word)
    requires PteChanged(m, n, v, w) && n.held == m.held && ValidPage(v) && HasTable(m, v.d)
    ensures Else(m, n, v) && (Present(n, v) <==> w.present) && HasTable(n, v.d) && Pte(n, v) == w
  {}

  /** un_wp_page, only owner. */
  lemma OwnerUnshared(m: Machine, v: Vpage)
    requires Sound(m) && Present(m, v) && LOW <= Pte(m, v).frame < FRAMES && m.counts[Pte(m, v).frame - LOW] == 1
    ensures Unshared(m, SetWritable(m, v), v)
  {
    Open(m);
    TableOwned(m, v.d);
    SetWritableKeeps(m, v);
    PutPteChanges(m, v, Pte(m, v).(rw := true));
    PteChangedElse(m, SetWritable(m, v), v, Pte(m, v).(rw := true));
    Look(m);
    assert Mapped(m, v);
    SameUpdate(Spaces(m), v, m.mem[Pte(m, v).frame]);
  }

  /** get_free_page leaves every entry and every other page alone. */
  lemma GrabElse(m: Machine, p: nat)
    requires Sound(m) && p != 0 && p == FreePageOf(m)
    ensures var g := Grab(m, p);
      && Sound(g) && Spaces(g) == Spaces(m) && g.mem[p] == ZeroPage() && g.task == m.task
      && p in g.held && p !in m.held && g.held - {p} == m.held && g.lo == m.lo && g.high == m.high
      && (forall d: nat | d < WORDS :: Dir(g, d) == Dir(m, d))
      && (forall u: Vpage | ValidPage(u) && Dir(m, u.d).present :: HasTable(m, u.d) && Pte(g, u) == Pte(m, u))
      && (forall u: Vpage | Present(m, u) ::
            Pte(m, u).frame < FRAMES && g.mem[Pte(m, u).frame] == m.mem[Pte(m, u).frame])
      && (forall f: nat | f in m.held :: f < FRAMES && f != p && g.mem[f] == m.mem[f])
  {
    Open(m);
    GrabFree(m, p);
    FreeUnowned(m, p);
    forall u: Vpage | Present(m, u) ensures Pte(m, u).frame != p && Pte(m, u).frame < FRAMES {
      assert Hits(m, PteRef(u), Pte(m, u).frame);
    }
    assert forall d: nat | UserDir(d) && Dir(m, d).present :: HasTable(m, d);
  }

  lemma CowCopyElse(g: Machine, v: Vpage, p: nat)
    requires Inv(g) && Present(g, v) && p in g.held
    ensures var n := CowCopy(g, v, p); Else(g.(held := g.held - {p}), n, v) && Present(n, v) && Pte(n, v).rw
  {
    CowCopyLegal(g, v, p);
    PteChangedElse(g.(held := g.held - {p}), CowCopy(g, v, p), v, Entry(p));
  }

  /** un_wp_page, shared page or page below 1 MB. */
  lemma CopyUnshared(m: Machine, v: Vpage, p: nat)
    requires Sound(m) && Present(m, v) && p != 0 && p == FreePageOf(m)
    ensures Present(Grab(m, p), v) && Pte(Grab(m, p), v).frame < FRAMES
    ensures Unshared(m, CowCopy(Grab(m, p), v, p), v)
  {
    var g := Grab(m, p);
    GrabElse(m, p);
    assert Present(g, v) && Pte(g, v) == Pte(m, v);
    Open(g);
    CowCopyKeeps(g, v, p);
    CowCopyElse(g, v, p);
    assert forall u: Vpage | ValidPage(u) :: Present(g, u) <==> Present(m, u);
    hide Inv;
  }

  lemma TableBounds(m: Machine, d: nat)
    requires Sound(m) && UserDir(d) && Dir(m, d).present
    ensures HasTable(m, d) && 0 < Dir(m, d).frame
  {
    Open(m);
    TableOwned(m, d);
  }

  lemma PresentBounds(m: Machine, v: Vpage)
    requires Sound(m) && Present(m, v)
    ensures Pte(m, v).frame < FRAMES && Dir(m, v.d).frame != 0
  {
    Open(m);
    TableOwned(m, v.d);
  }

  lemma PresentBelow(m: Machine, v: Vpage)
    requires Sound(m) && Present(m, v)
    ensures Pte(m, v).frame < m.high
  {
    Open(m);
  }

  // ---------------------------------------------------------------- put_page

  /** v may be mapped by its task: the task is live and v lies within its limit. */
  ghost predicate Within(m: Machine, v: Vpage) {
    && ValidPage(v) && m.task[v.d / TASK_DIRS].Live()
    && v.d % TASK_DIRS < Dirs(m.task[v.d / TASK_DIRS].dataLimit)
  }

  /** n is m with the held page f mapped at v. */
  ghost predicate Placed(m: Machine, n: Machine, v: Vpage, f: nat) {
    && f < FRAMES && Sound(n) && Present(n, v) && Pte(n, v) == Entry(f) && Spaces(n) == Spaces(m)[v := m.mem[f]]
    && Else(m.(held := m.held - {f}), n, v)
  }

  lemma PlaceInTable(m: Machine, v: Vpage, f: nat)
    requires Sound(m) && Within(m, v) && Dir(m, v.d).present && !Present(m, v) && f in m.held
    ensures HasTable(m, v.d) && Placed(m, MapHeld(m, v, f), v, f)
  {
    Open(m);
    TableOwned(m, v.d);
    MapHeldKeeps(m, v, f);
    MapHeldStep(m, v, f);
    PteChangedElse(m.(held := m.held - {f}), MapHeld(m, v, f), v, Entry(f));
  }

  /** put_page when the page table has to be allocated first. */
  lemma PlaceWithTable(m: Machine, v: Vpage, f: nat, p: nat)
    requires Sound(m) && Within(m, v) && !Dir(m, v.d).present && f in m.held && p != 0 && p == FreePageOf(m)
    ensures var k := HangTable(Grab(m, p), v.d, p);
      && Dir(k, v.d).present && HasTable(k, v.d) && Placed(m, MapHeld(k, v, f), v, f)
  {
    var g := Grab(m, p);
    GrabElse(m, p);
    assert EmptyTable(g, p);
    HangNew(g, v.d, p);
    var k := HangTable(g, v.d, p);
    HangElse(m, v.d, p);
    PlaceInTable(k, v, f);
    assert k.mem[f] == m.mem[f];
  }

  lemma HangElse(m: Machine, d: nat, p: nat)
    requires Sound(m) && UserDir(d) && !Dir(m, d).present && p != 0 && p == FreePageOf(m)
    ensures var k := HangTable(Grab(m, p), d, p);
      && k.task == m.task && k.held == m.held && k.lo == m.lo && k.high == m.high && Dir(k, d).present
      && (forall u: Vpage | ValidPage(u) :: (Present(k, u) <==> Present(m, u)) && (Present(m, u) ==> Pte(k, u) == Pte(m, u)))
      && (forall f: nat | f in m.held :: f < FRAMES && k.mem[f] == m.mem[f])
  {
    GrabElse(m, p);
    Open(m);
    assert forall f | f in m.held :: f != 0;
  }

  // ---------------------------------------------------------------- try_to_share

  /** The pages that show frame f. */
  ghost function Sharers(m: Machine, f: nat): (s: set<Vpage>)
    ensures forall u :: u in s <==> Mapped(m, u) && Pte(m, u).frame == f
  {
    set u | u in AllPages() && Mapped(m, u) && Pte(m, u).frame == f
  }

  /** Every page other than v is present in n exactly if it is in m, and dirty if it is there. */
  ghost predicate SamePresence(m: Machine, n: Machine, v: Vpage) {
    forall u: Vpage | u != v && ValidPage(u) ::
      (Present(n, u) <==> Present(m, u)) && (Present(m, u) ==> Pte(n, u).dirty == Pte(m, u).dirty)
  }

  /** The same entries of m and k map pages in main memory, with the same contents. */
  ghost predicate SameMapped(m: Machine, k: Machine) {
    forall u: Vpage :: (Mapped(k, u) <==> Mapped(m, u)) &&
      (Mapped(k, u) && Mapped(m, u) ==> Pte(k, u) == Pte(m, u) && k.mem[Pte(k, u).frame] == m.mem[Pte(m, u).frame])
  }

  /** In n, v has joined the pages that show the frame of `from` in m. */
  ghost predicate Joined(m: Machine, n: Machine, from: Vpage, v: Vpage) {
    && Mapped(m, from) && Mapped(n, v) && Pte(n, v).frame == Pte(m, from).frame
    && Sharers(n, Pte(m, from).frame) == Sharers(m, Pte(m, from).frame) + {v}
  }

  /** n is m with the page of `from` also mapped, read-only, at v. */
  ghost predicate Shared(m: Machine, n: Machine, from: Vpage, v: Vpage) {
    && Mapped(m, from) && Sound(n) && Present(n, v) && Spaces(n) == Spaces(m)[v := m.mem[Pte(m, from).frame]]
    && n.task == m.task && n.held == m.held && n.lo == m.lo && n.high == m.high && Joined(m, n, from, v)
    && SamePresence(m, n, v)
  }

  lemma ShareInTable(m: Machine, from: Vpage, v: Vpage)
    requires Sound(m) && Present(m, from) && LOW <= Pte(m, from).frame < FRAMES
    requires ValidPage(v) && Dir(m, v.d).present && !Present(m, v) && v.d != from.d
    requires v.d % TASK_DIRS == from.d % TASK_DIRS && v.i == from.i
    ensures HasTable(m, v.d) && HasTable(Protect(m, from), v.d) && HasTable(Protect(m, from), from.d)
    ensures Shared(m, AddShare(Protect(m, from), from, v), from, v)
  {
    ProtectPresence(m, from);
    Open(m);
    TableOwned(m, v.d);
    TableOwned(m, from.d);
    var k, w := Protect(m, from), Pte(m, from).(rw := false);
    ProtectKeeps(m, from);
    PutPteChanges(m, from, w);
    assert Mapped(m, from) && Pte(k, from) == w;
    TablesHoldNoData(m, from.d);
    assert k.mem[w.frame] == m.mem[w.frame];
    TableOwned(k, v.d);
    AddShareKeeps(k, from, v);
    SharedElse(k, from, v);
    PteChangedSharers(m, k, from, w);
  }

  /** Write-protecting an entry changes no presence. */
  lemma ProtectPresence(m: Machine, from: Vpage)
    requires Sound(m) && Present(m, from)
    ensures forall u: Vpage | ValidPage(u) ::
      (Present(Protect(m, from), u) <==> Present(m, u))
      && (Present(m, u) ==> Pte(Protect(m, from), u).dirty == Pte(m, u).dirty)
  {
    Open(m);
    TableOwned(m, from.d);
    var w := Pte(m, from).(rw := false);
    PutPteChanges(m, from, w);
    PteChangedElse(m, Protect(m, from), from, w);
    hide Inv;
  }

  lemma SharedElse(k: Machine, from: Vpage, v: Vpage)
    requires Mapped(k, from) && ValidPage(v) && OwnTable(k, v.d) && v != from
    ensures var n := AddShare(k, from, v);
      && n.task == k.task && n.held == k.held && n.lo == k.lo && n.high == k.high
      && Present(n, v) && Joined(k, n, from, v) && SamePresence(k, n, v)
  {
    var w := Pte(k, from).(rw := false);
    PutPteChanges(k, v, w);
    PteChangedElse(k, PutPte(k, v, w), v, w);
    var n := AddShare(k, from, v);
    assert n.mem == PutPte(k, v, w).mem;
    PteChangedMapped(k, PutPte(k, v, w), v, w);
    assert Sharers(n, w.frame) == Sharers(k, w.frame) + {v};
  }

  /** Changing the flags of an entry changes no frame's sharers. */
  lemma PteChangedSharers(m: Machine, n: Machine, v: Vpage, w: Word)
    requires Mapped(m, v) && PteChanged(m, n, v, w) && w.present && w.frame == Pte(m, v).frame
    ensures Mapped(n, v) && Sharers(n, w.frame) == Sharers(m, w.frame)
  {
    PteChangedMapped(m, n, v, w);
  }

  /** A table that was allocated for the sharing task changes no address space. */
  lemma TableForShare(m: Machine, v: Vpage, p: nat)
    requires Sound(m) && Within(m, v) && !Dir(m, v.d).present && p != 0 && p == FreePageOf(m)
    ensures var k := HangTable(Grab(m, p), v.d, p);
      && Sound(k) && Spaces(k) == Spaces(m) && Dir(k, v.d).present && !Present(k, v)
      && k.task == m.task && k.held == m.held && SamePresence(m, k, v)
      && SameMapped(m, k)
  {
    GrabElse(m, p);
    assert EmptyTable(Grab(m, p), p);
    HangNew(Grab(m, p), v.d, p);
    HangElse(m, v.d, p);
    Open(m);
    assert forall u: Vpage | Present(m, u) :: Pte(m, u).frame < FRAMES;
  }

  // ---------------------------------------------------------------- stores

  lemma StoreDone(m: Machine, v: Vpage, k: nat, w: Word)
    requires Sound(m) && Present(m, v) && Pte(m, v).rw && k < WORDS
    ensures LOW <= Pte(m, v).frame < FRAMES && v in Spaces(m)
    ensures var n := Store(m, v, k, w);
      Sound(n) && Spaces(n) == Spaces(m)[v := Spaces(m)[v][k := w]] && n.task == m.task && n.held == m.held
  {
    Open(m);
    StoreKeeps(m, v, k, w);
    Look(m);
  }

  // ---------------------------------------------------------------- do_no_page

  /** n is m with the absent page v now mapped, private and showing `page`. */
  ghost predicate Mapping(m: Machine, n: Machine, v: Vpage, page: Page) {
    && Sound(n) && Present(n, v) && Spaces(n) == Spaces(m)[v := page] && n.task == m.task && n.held == m.held
    && SamePresence(m, n, v)
  }

  /** n differs from m in no address space, no task and no held page. */
  ghost predicate SameSpaces(m: Machine, n: Machine) {
    Sound(n) && Spaces(n) == Spaces(m) && n.task == m.task && n.held == m.held
  }

  /** A held page is filled, as bread_page does. */
  function Fill(m: Machine, f: nat, page: Page): Machine
    requires f < FRAMES
  {
    m.(mem := m.mem[f := page])
  }

  lemma FillHeld(m: Machine, f: nat, page: Page)
    requires Sound(m) && f in m.held && f < FRAMES
    ensures var n := Fill(m, f, page);
      && Sound(n) && Spaces(n) == Spaces(m) && n.task == m.task && n.held == m.held
      && (forall d: nat | d < WORDS :: Dir(n, d) == Dir(m, d))
      && (forall u: Vpage | ValidPage(u) && HasTable(m, u.d) :: Pte(n, u) == Pte(m, u))
  {
    var n := Fill(m, f, page);
    Open(m);
    assert HeldRef(f) in RefSet(m, f);
    NoTableIn(m, f);
    forall u | Present(m, u) ensures Pte(m, u).frame != f {
      assert Hits(m, PteRef(u), Pte(m, u).frame);
    }
    DataChangedKeeps(m, n);
    Look(m);
    Look(n);
    assert forall u :: Mapped(n, u) <==> Mapped(m, u);
    MapsEqual(Spaces(m), Spaces(n));
  }

  /** The page obtained for a fault is given back when it cannot be mapped. */
  lemma GiveBack(m: Machine, f: nat)
    requires Sound(m) && f in m.held
    ensures Sound(Drop(m, f)) && Spaces(Drop(m, f)) == Spaces(m) && Drop(m, f).task == m.task
    ensures Drop(m, f).held == m.held - {f}
  {
    Open(m);
    DropStep(m, f);
    DropKeeps(m, f);
  }

  lemma SharedVia(m: Machine, k: Machine, n: Machine, from: Vpage, v: Vpage)
    requires Spaces(k) == Spaces(m) && k.task == m.task && k.held == m.held && SamePresence(m, k, v)
    requires SameMapped(m, k)
    requires Shared(k, n, from, v)
    ensures Joined(m, n, from, v) && Mapping(m, n, v, m.mem[Pte(m, from).frame])
  {
    assert Sharers(k, Pte(m, from).frame) == Sharers(m, Pte(m, from).frame);
  }

  // ---------------------------------------------------------------- whole traps

  /** n is m after one trap with effect e. */
  ghost predicate Refines(m: Machine, n: Machine, e: Effect) {
    Legal(e) && Sound(n) && n.held == m.held && Spaces(n) == EagerStep(Spaces(m), e)
  }

  /** y shows m's address spaces, with v mapped privately to what it shows, or to `base`. */
  ghost predicate Ready(m: Machine, y: Machine, v: Vpage, base: Page) {
    && Sound(y) && Present(y, v) && Pte(y, v).rw && y.held == m.held && y.task == m.task
    && Spaces(y) == Spaces(m)[v := if v in Spaces(m) then Spaces(m)[v] else base]
  }

  /** The page was absent, and do_no_page mapped it privately. */
  lemma ReadyFresh(m: Machine, x: Machine, v: Vpage, base: Page)
    requires !Present(m, v) && Mapping(m, x, v, base) && Pte(x, v).rw
    ensures Ready(m, x, v, base)
  {
    Look(m);
  }

  /** The page was absent, do_no_page mapped a shared one, and the write fault copied it. */
  lemma ReadyShared(m: Machine, x: Machine, y: Machine, v: Vpage, base: Page)
    requires !Present(m, v) && Mapping(m, x, v, base) && Unshared(x, y, v)
    ensures Ready(m, y, v, base)
  {
    Look(m);
    Look(x);
    assert v in Spaces(x);
    SameUpdate(Spaces(x), v, x.mem[Pte(x, v).frame]);
  }

  /** The page was already private. */
  lemma ReadyOwn(m: Machine, v: Vpage)
    requires Sound(m) && Present(m, v) && Pte(m, v).rw
    ensures Pte(m, v).frame < FRAMES && Ready(m, m, v, m.mem[Pte(m, v).frame])
  {
    Open(m);
    Look(m);
    assert Mapped(m, v);
    SameUpdate(Spaces(m), v, Spaces(m)[v]);
  }

  /** The page was write-protected, and the write fault unprotected or copied it. */
  lemma ReadyCopied(m: Machine, y: Machine, v: Vpage)
    requires Unshared(m, y, v)
    ensures Ready(m, y, v, m.mem[Pte(m, v).frame])
  {
    Look(m);
  }

  lemma StoreRefines(m: Machine, y: Machine, v: Vpage, k: nat, w: Word, base: Page)
    requires Ready(m, y, v, base) && k < WORDS
    ensures Dir(y, v.d).frame < FRAMES && LOW <= Pte(y, v).frame < FRAMES
    ensures Refines(m, Store(y, v, k, w), Stores(v, k, w, base)) && Store(y, v, k, w).task == m.task
  {
    StoreDone(y, v, k, w);
    var page := if v in Spaces(m) then Spaces(m)[v] else base;
    assert Spaces(m)[v := page][v := page[k := w]] == Spaces(m)[v := page[k := w]];
  }

  /** x is m, or m with the absent page v already mapped, when a fault ran out of memory. */
  ghost predicate HalfDone(m: Machine, x: Machine, v: Vpage, base: Page) {
    && Sound(x) && x.held == m.held && x.task == m.task
    && (Spaces(x) == Spaces(m) || Spaces(x) == Spaces(m)[v := base])
  }

  /** A fault for a store that ran out of memory ends the task. */
  lemma KillRefines(m: Machine, x: Machine, y: Machine, v: Vpage, base: Page)
    requires ValidPage(v) && HalfDone(m, x, v, base) && Exited(x, y, v.d / TASK_DIRS)
    ensures Refines(m, y, Ends(v.d / TASK_DIRS))
  {
    var t := v.d / TASK_DIRS;
    assert EagerExit(Spaces(m)[v := base], t) == EagerExit(Spaces(m), t);
  }

  // ---------------------------------------------------------------- a store without a write fault

  /** In kernel mode the processor ignores the read-only bit: the word changes for every sharer. */
  lemma RawStore(m: Machine, v: Vpage, k: nat, w: Word)
    requires Sound(m) && Mapped(m, v) && k < WORDS
    ensures var n := Store(m, v, k, w);
      && Sound(n) && n.task == m.task && n.held == m.held
      && Spaces(n) == SpillStore(Spaces(m), Sharers(m, Pte(m, v).frame), k, w)
  {
    var x, n, f := Dirtied(m, v), Store(m, v, k, w), Pte(m, v).frame;
    Open(m);
    DirtiedKeeps(m, v);
    PteChangedSharers(m, x, v, Pte(m, v).(dirty := true));
    assert Hits(x, PteRef(v), f);
    SharersAlike(x, v);
    NoTableIn(x, f);
    StoreData(x, f, k, w);
    hide Inv;
    SpillShown(x, n, f, k, w);
  }

  lemma SpillShown(m: Machine, n: Machine, f: nat, k: nat, w: Word)
    requires LOW <= f < FRAMES && k < WORDS && n == PutWord(m, f, k, w) && DataChanged(m, n)
    ensures Spaces(n) == SpillStore(Spaces(m), Sharers(m, f), k, w)
  {
    Look(m);
    Look(n);
    assert forall u :: Mapped(n, u) <==> Mapped(m, u);
    MapsEqual(SpillStore(Spaces(m), Sharers(m, f), k, w), Spaces(n));
  }

  // ---------------------------------------------------------------- verify_area

  /** The n-th page of the linear address space. */
  function PageNr(n: nat): Vpage {
    Vpage(n / WORDS, n % WORDS)
  }

  /** Every present page lo..hi is private. */
  ghost predicate PrivateRange(x: Machine, lo: nat, hi: nat) {
    forall k: nat | lo <= k < hi && Present(x, PageNr(k)) :: Pte(x, PageNr(k)).rw
  }

  /** Every page still shows what it showed. */
  ghost predicate SpacesKept(m: Machine, x: Machine) {
    forall u | u in Spaces(m) :: u in Spaces(x) && Spaces(x)[u] == Spaces(m)[u]
  }

  /** x is m after write_verify on pages lo..hi (sealed). */
  ghost predicate Verified(m: Machine, x: Machine, lo: nat, hi: nat) {
    forall j: nat {:trigger Seal(x, j)} :: Seal(x, j) ==>
      && Sound(x) && x.task == m.task && x.held == m.held
      && PrivateRange(x, lo, hi) && SpacesKept(m, x)
  }

  lemma VerifiedStart(m: Machine, lo: nat)
    requires Sound(m)
    ensures Verified(m, m, lo, lo)
  {}

  lemma PrivateMore(x: Machine, y: Machine, lo: nat, k: nat)
    requires PrivateRange(x, lo, k) && ValidPage(PageNr(k)) && Unshared(x, y, PageNr(k))
    requires forall j: nat | lo <= j < k :: ValidPage(PageNr(j))
    ensures PrivateRange(y, lo, k + 1)
  {
    UnsharedShows(x, y, PageNr(k));
    forall j: nat | lo <= j < k + 1 && Present(y, PageNr(j)) ensures Pte(y, PageNr(j)).rw {
      PageNrInjective(j, k);
    }
  }

  lemma KeptMore(m: Machine, x: Machine, y: Machine, v: Vpage)
    requires SpacesKept(m, x) && Unshared(x, y, v)
    ensures SpacesKept(m, y)
  {
    UnsharedShows(x, y, v);
  }

  lemma VerifiedStep(m: Machine, x: Machine, y: Machine, lo: nat, k: nat)
    requires Verified(m, x, lo, k) && TASK_DIRS * WORDS <= lo <= k < WORDS * WORDS
    requires var v := PageNr(k); if Present(x, v) && !Pte(x, v).rw then Unshared(x, y, v) else y == x
    ensures Verified(m, y, lo, k + 1)
  {
    VerifiedEnd(m, x, lo, k);
    if Present(x, PageNr(k)) && !Pte(x, PageNr(k)).rw {
      PrivateMore(x, y, lo, k);
      KeptMore(m, x, y, PageNr(k));
      UnsharedShows(x, y, PageNr(k));
    } else {
      PrivateAlready(x, lo, k);
    }
    hide PrivateRange, SpacesKept, Present;
  }

  lemma PrivateAlready(x: Machine, lo: nat, k: nat)
    requires PrivateRange(x, lo, k) && !(Present(x, PageNr(k)) && !Pte(x, PageNr(k)).rw)
    ensures PrivateRange(x, lo, k + 1)
  {}

  lemma PageNrInjective(j: nat, k: nat)
    ensures PageNr(j) == PageNr(k) ==> j == k
  {}

  lemma UnsharedShows(x: Machine, y: Machine, v: Vpage)
    requires Unshared(x, y, v)
    ensures y.task == x.task && y.held == x.held
    ensures forall u: Vpage | ValidPage(u) :: Present(y, u) <==> Present(x, u)
    ensures forall u: Vpage | ValidPage(u) && u != v && Present(x, u) :: Pte(y, u).rw == Pte(x, u).rw
    ensures forall u | u in Spaces(x) :: u in Spaces(y) && Spaces(y)[u] == Spaces(x)[u]
  {
    Look(x);
  }

  lemma VerifiedEnd(m: Machine, x: Machine, lo: nat, hi: nat)
    requires Verified(m, x, lo, hi)
    ensures Sound(x) && x.task == m.task && x.held == m.held && PrivateRange(x, lo, hi) && SpacesKept(m, x)
  {
    assert Seal(x, 0);
  }

  // ---------------------------------------------------------------- boot

  function IdentityTable(t: nat): (p: Page)
    ensures forall i | 0 <= i < WORDS :: p[i] == Entry(t * WORDS + i)
  {
    var p := seq(WORDS, (i: nat) => Entry(t * WORDS + i));
    assert |p| == WORDS;
    p
  }

  /** Page directory, four identity tables, nothing else. */
  function BootPage(f: nat): Page {
    if f == 0 then seq(WORDS, (i: nat) => if i < 4 then Entry(i + 1) else ZERO_WORD)
    else if f <= 4 then IdentityTable(f - 1)
    else ZeroPage()
  }

  function BootTask(t: nat): Task {
    if t == 0 then Task(0, false, KERNEL_PAGES * 4096, KERNEL_PAGES * 4096) else Task(0, false, 0, 0)
  }

  ghost function Boot(lo: nat, high: nat): (m: Machine)
    requires LOW <= lo <= high <= FRAMES
  {
    Machine(seq(PAGING_PAGES, (i: nat) => if lo <= LOW + i < high then 0 else USED),
            seq(FRAMES, (f: nat) => BootPage(f)), seq(NR_TASKS, (t: nat) => BootTask(t)),
            {}, false, lo, high)
  }

  /** The machine as head.s, mem_init and sched_init leave it is sound. */
  lemma BootSound(lo: nat, high: nat)
    requires LOW <= lo <= high <= FRAMES
    ensures Sound(Boot(lo, high))
  {
    var m := Boot(lo, high);
    forall r, f ensures !Hits(m, r, f) {
      match r {
        case PteRef(u) =>
        case DirRef(d) =>
        case TaskRef(t) =>
        case HeldRef(h) =>
      }
    }
    assert forall f: nat :: RefSet(m, f) == {};
    assert CountsExact(m);
    assert Exclusive(m);
    assert EntriesSafe(m);
    assert SameOffset(m);
    assert SlotsBounded(m);
    assert m.mem[0] == BootPage(0) && m.mem[1] == BootPage(1);
    assert Dir(m, 0) == Entry(1);
    assert KernelLow(m);
  }
}
