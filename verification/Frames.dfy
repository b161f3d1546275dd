/**
 Physical memory, the page directory, the page tables and the frame counts of
 mm/memory.c as one value, with the elementary updates the code performs on them.

 A 32-bit word is viewed by its x86 page-entry fields, so that one store serves as page
 directory, page table or user data, exactly as physical memory does.
 */
module Frames {

  const LOW := 256                 // LOW_MEM >> 12
  const PAGING_PAGES := 3840       // 15 MB of 4 KB pages
  const FRAMES := 4096             // LOW + PAGING_PAGES
  const WORDS := 1024              // words in a page, entries in a table
  const NR_TASKS := 64
  const TASK_DIRS := 16            // directory entries in a 64 MB task slot
  const KERNEL_PAGES := 160        // 0xA0: what fork copies from task 0
  const USED := 100
  const MAX_LIMIT := 0x4000000     // 64 MB

  /** A 32-bit word: `frame << 12 | rest | dirty << 6 | user << 2 | rw << 1 | present`. */
  datatype Word = Word(frame: nat, present: bool, rw: bool, user: bool, dirty: bool, rest: nat)

  const ZERO_WORD := Word(0, false, false, false, false, 0)
  type Page = s: seq<Word> | |s| == WORDS witness seq(WORDS, _ => ZERO_WORD)

  function ZeroPage(): Page {
    seq(WORDS, _ => ZERO_WORD)
  }

  /** `address | 7`: present, writable, user. */
  function Entry(f: nat): Word {
    Word(f, true, true, true, false, 0)
  }

  /** A task slot. `page` is the frame of its task_struct, 0 for NULL; limits are in bytes. */
  datatype Task = Task(page: nat, zombie: bool, codeLimit: nat, dataLimit: nat) {
    predicate Live() {
      page != 0 && !zombie
    }
  }

  /** `*p = *current; p->state = ...`: the child's entry, with its own page. */
  function ChildOf(parent: Task, page: nat): Task {
    Task(page, false, parent.codeLimit, parent.dataLimit)
  }

  /** `halted` records that the kernel panicked or touched memory that does not exist.
      `counts` is mem_map, `held` the frames handed out by get_free_page to a kernel caller
      that has not yet stored them in an entry or in task[]. Main memory is [lo, high). */
  datatype RawMachine = Machine(
    counts: seq<nat>,
    mem: seq<Page>,
    task: seq<Task>,
    held: set<nat>,
    halted: bool,
    lo: nat,
    high: nat)

  type Machine = m: RawMachine |
    && |m.counts| == PAGING_PAGES && |m.mem| == FRAMES && |m.task| == NR_TASKS
    && LOW <= m.lo <= m.high <= FRAMES
    witness Machine(seq(PAGING_PAGES, _ => 0), seq(FRAMES, _ => ZeroPage()),
                    seq(NR_TASKS, _ => Task(0, false, 0, 0)), {}, false, LOW, FRAMES)

  /** A user page: directory entry and table entry. */
  datatype Vpage = Vpage(d: nat, i: nat)

  predicate UserDir(d: int) {
    TASK_DIRS <= d < WORDS
  }

  predicate ValidPage(v: Vpage) {
    UserDir(v.d) && v.i < WORDS
  }

  predicate Managed(m: Machine, f: nat) {
    m.lo <= f < m.high
  }

  /** The page directory is physical page 0. */
  function Dir(m: Machine, d: nat): Word
    requires d < WORDS
  {
    m.mem[0][d]
  }

  predicate HasTable(m: Machine, d: nat) {
    d < WORDS && Dir(m, d).present && Dir(m, d).frame < FRAMES
  }

  function Pte(m: Machine, v: Vpage): Word
    requires HasTable(m, v.d) && v.i < WORDS
  {
    m.mem[Dir(m, v.d).frame][v.i]
  }

  ghost predicate Present(m: Machine, v: Vpage) {
    ValidPage(v) && HasTable(m, v.d) && Pte(m, v).present
  }

  // ---------------------------------------------------------------- references

  /** Everything that can own a share of a frame. */
  datatype Ref = PteRef(v: Vpage) | DirRef(d: nat) | TaskRef(t: nat) | HeldRef(f: nat)

  ghost predicate Hits(m: Machine, r: Ref, f: nat) {
    match r
    case PteRef(v) => Present(m, v) && Pte(m, v).frame == f
    case DirRef(d) => UserDir(d) && Dir(m, d).present && Dir(m, d).frame == f
    case TaskRef(t) => 1 <= t < NR_TASKS && m.task[t].page == f && f != 0
    case HeldRef(g) => g == f && f in m.held
  }

  ghost function AllPages(): (s: set<Vpage>)
    ensures forall v :: v in s <==> ValidPage(v)
  {
    set d: nat, i: nat | TASK_DIRS <= d < WORDS && i < WORDS :: Vpage(d, i)
  }

  ghost function AllRefs(f: nat): (s: set<Ref>)
    ensures forall m: Machine, r :: Hits(m, r, f) ==> r in s
  {
    (set v | v in AllPages() :: PteRef(v))
    + (set d: nat | d < WORDS :: DirRef(d))
    + (set t: nat | t < NR_TASKS :: TaskRef(t))
    + {HeldRef(f)}
  }

  /** The owners of frame f. */
  ghost function RefSet(m: Machine, f: nat): (s: set<Ref>)
    ensures forall r :: r in s <==> Hits(m, r, f)
  {
    set r | r in AllRefs(f) && Hits(m, r, f)
  }

  // ---------------------------------------------------------------- user address spaces

  ghost predicate Mapped(m: Machine, v: Vpage) {
    Present(m, v) && LOW <= Pte(m, v).frame < FRAMES
  }

  ghost predicate Shows(m: Machine, a: map<Vpage, Page>) {
    && (forall v :: v in a <==> Mapped(m, v))
    && (forall v | v in a :: a[v] == m.mem[Pte(m, v).frame])
  }

  /** A definition is unfolded only where a seal of m is broken, so that proofs that merely carry
      a large definition along stay small. */
  ghost predicate Seal(m: Machine, k: nat) {
    true
  }

  ghost predicate ShowsSealed(m: Machine, a: map<Vpage, Page>) {
    forall k: nat {:trigger Seal(m, k)} :: Seal(m, k) ==> Shows(m, a)
  }

  lemma ShowsExists(m: Machine)
    ensures exists a :: ShowsSealed(m, a)
  {
    var a := map v | v in AllPages() && Mapped(m, v) :: m.mem[Pte(m, v).frame];
    assert Shows(m, a);
    assert ShowsSealed(m, a);
  }

  /** The contents of every user page that lies in main memory. */
  ghost function Spaces(m: Machine): map<Vpage, Page> {
    ShowsExists(m);
    var a :| ShowsSealed(m, a);
    a
  }

  lemma Look(m: Machine)
    ensures Shows(m, Spaces(m))
  {
    ShowsExists(m);
    assert ShowsSealed(m, Spaces(m));
    assert Seal(m, 0);
  }

  // ---------------------------------------------------------------- invariant

  ghost predicate CountsExact(m: Machine) {
    && (forall f: nat | Managed(m, f) :: m.counts[f - LOW] == |RefSet(m, f)|)
    && (forall f: nat | LOW <= f < FRAMES && !Managed(m, f) :: m.counts[f - LOW] == USED && RefSet(m, f) == {})
  }

  /** Page tables, task pages and held pages have exactly one owner. */
  ghost predicate Exclusive(m: Machine) {
    && (forall d | UserDir(d) && Dir(m, d).present ::
          Managed(m, Dir(m, d).frame) && RefSet(m, Dir(m, d).frame) == {DirRef(d)})
    && (forall t | 1 <= t < NR_TASKS && m.task[t].page != 0 ::
          Managed(m, m.task[t].page) && RefSet(m, m.task[t].page) == {TaskRef(t)})
    && (forall f | f in m.held :: Managed(m, f) && RefSet(m, f) == {HeldRef(f)})
  }

  /** Present entries name existing memory; low memory is write-protected; a writable entry
      is the only owner of its frame. */
  ghost predicate EntriesSafe(m: Machine) {
    forall v | Present(m, v) ::
      var w := Pte(m, v);
      && w.frame < m.high
      && (w.frame < LOW ==> !w.rw)
      && (LOW <= w.frame ==> m.lo <= w.frame)
      && (w.rw ==> RefSet(m, w.frame) == {PteRef(v)})
  }

  /** All mappings of a main-memory frame sit at the same offset of their task slots. */
  ghost predicate SameOffset(m: Machine) {
    forall v, v' | Present(m, v) && Present(m, v') && LOW <= Pte(m, v).frame == Pte(m, v').frame ::
      v.d % TASK_DIRS == v'.d % TASK_DIRS && v.i == v'.i
  }

  /** Number of directory entries covering `size` bytes. */
  function Dirs(size: nat): nat {
    (size + 0x3fffff) / 0x400000
  }

  /** Tables exist only inside the limit of a live task. */
  ghost predicate SlotsBounded(m: Machine) {
    && (forall t | 0 <= t < NR_TASKS :: m.task[t].codeLimit <= m.task[t].dataLimit <= MAX_LIMIT)
    && (forall d | UserDir(d) && Dir(m, d).present ::
          m.task[d / TASK_DIRS].Live() && d % TASK_DIRS < Dirs(m.task[d / TASK_DIRS].dataLimit))
  }

  /** Task 0: its first table and the pages fork copies from it lie below 1 MB. */
  ghost predicate KernelLow(m: Machine) {
    && m.task[0].dataLimit == KERNEL_PAGES * 4096
    && Dir(m, 0).present && 0 < Dir(m, 0).frame < LOW
    && (forall i | 0 <= i < KERNEL_PAGES :: Pte(m, Vpage(0, i)).present ==> Pte(m, Vpage(0, i)).frame < LOW)
  }

  ghost predicate Inv(m: Machine) {
    !m.halted && CountsExact(m) && Exclusive(m) && EntriesSafe(m) && SameOffset(m) && SlotsBounded(m) && KernelLow(m)
  }

  /** Inv, sealed. */
  ghost predicate Sound(m: Machine) {
    forall k: nat {:trigger Seal(m, k)} :: Seal(m, k) ==> Inv(m)
  }

  lemma Open(m: Machine)
    requires Sound(m)
    ensures Inv(m)
  {
    assert Seal(m, 0);
  }
}
