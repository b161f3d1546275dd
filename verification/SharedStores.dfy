/**
 Two runs from boot in which a store that the kernel makes for one task changes what another task
 sees: reachable states where the exception to isolation happens.
 */
module SharedStores {
  import opened Frames
  import opened FrameSteps
  import opened EagerSpaces
  import opened PageTables
  import opened FreePages
  import opened PageFaults
  import opened Traps
  import opened Isolation
  import opened Paging

  const FIRST := Vpage(TASK_DIRS, 0)
  const SECOND := Vpage(2 * TASK_DIRS, 0)

  /** Both tasks run file 1, which is open twice; the page lies inside its data. */
  function OneFile(image: Page): FaultEnv {
    FaultEnv(false, seq(NR_TASKS, _ => 1), 2, image)
  }

  ghost function Range(lo: nat, hi: nat): (s: set<nat>)
    requires lo <= hi
    ensures |s| == hi - lo && forall i: nat :: i in s <==> lo <= i < hi
    decreases hi
  {
    if lo == hi then {} else Range(lo, hi - 1) + {hi - 1}
  }

  /** At boot all of main memory is free. */
  lemma BootFree(lo: nat, high: nat)
    requires LOW <= lo <= high <= FRAMES
    ensures Free(Boot(lo, high)) == high - lo
  {
    assert Zeros(Boot(lo, high)) == Range(lo - LOW, high - LOW);
  }

  /** Task 0 has one page table. */
  lemma SmallFork(m: Machine)
    requires m.task[0].dataLimit == KERNEL_PAGES * 4096
    ensures TablesOf(m, 0) <= 1
  {
    TablesGrow(m, 0, 0, 1);
  }

  /** One more step of a run that starts at boot. */
  ghost predicate Trail(lo: nat, high: nat, es: seq<Event>, ms: seq<Machine>, fs: seq<Effect>, m: Machine)
    requires LOW <= lo <= high <= FRAMES
  {
    History(es, ms, fs) && ms[0] == Boot(lo, high) && ms[|es|] == m
  }

  lemma TrailMore(lo: nat, high: nat, es: seq<Event>, ms: seq<Machine>, fs: seq<Effect>, m: Machine, e: Event, n: Machine)
    requires LOW <= lo <= high <= FRAMES && Trail(lo, high, es, ms, fs, m)
    requires Sound(m) && Possible(m, e) && Refines(m, n, Outcome(m, e)) && Tasked(m, n, e) && Marked(m, n, e)
    ensures Trail(lo, high, es + [e], ms + [n], fs + [EffectOf(m, e)], n)
  {
    HistoryMore(es, ms, fs, e, n);
  }

  /** Two tasks without page tables, forked from task 0, and n free pages. */
  ghost predicate TwoTasks(m: Machine, n: int) {
    && Sound(m) && m.task[1].Live() && m.task[2].Live() && (forall t | 3 <= t < NR_TASKS :: m.task[t].page == 0)
    && NoTables(m, 1) && NoTables(m, 2) && Free(m) >= n
    && m.task[1].dataLimit == MAX_LIMIT && m.task[2].dataLimit == MAX_LIMIT
  }

  /** Tasks 1 and 2 forked from task 0. */
  ghost predicate TwoForked(m: Machine, n: int) {
    && Sound(m) && m.task[1].Live() && m.task[2].Live() && (forall t | 3 <= t < NR_TASKS :: m.task[t].page == 0)
    && Free(m) >= n
  }

  method ForkTwo(lo: nat, high: nat) returns (m: Memory, ghost es: seq<Event>, ghost ms: seq<Machine>, ghost fs: seq<Effect>)
    requires LOW <= lo && lo + 8 <= high <= FRAMES
    ensures fresh(m) && fresh(m.memMap) && fresh(m.mem) && fresh(m.task) && m.Valid()
    ensures Trail(lo, high, es, ms, fs, m.s) && TwoForked(m.s, high - lo - 4)
  {
    m := new Memory(lo, high);
    BootFree(lo, high);
    ghost var b := m.s;
    es, ms, fs := [], [b], [];
    SmallFork(b);
    var ok := m.CopyProcess(1, 0);
    ghost var x := m.s;
    ForkMarked(b, x, Fork(0, 1));
    TrailMore(lo, high, es, ms, fs, b, Fork(0, 1), x);
    es, ms, fs := es + [Fork(0, 1)], ms + [x], fs + [EffectOf(b, Fork(0, 1))];
    SmallFork(x);
    ok := m.CopyProcess(2, 0);
    ForkMarked(x, m.s, Fork(0, 2));
    TrailMore(lo, high, es, ms, fs, x, Fork(0, 2), m.s);
    es, ms, fs := es + [Fork(0, 2)], ms + [m.s], fs + [EffectOf(x, Fork(0, 2))];
    hide Trail;
  }

  method Start(lo: nat, high: nat) returns (m: Memory, ghost es: seq<Event>, ghost ms: seq<Machine>, ghost fs: seq<Effect>)
    requires LOW <= lo && lo + 8 <= high <= FRAMES
    ensures fresh(m) && fresh(m.memMap) && fresh(m.mem) && fresh(m.task) && m.Valid()
    ensures Trail(lo, high, es, ms, fs, m.s) && TwoTasks(m.s, high - lo - 4)
  {
    m, es, ms, fs := ForkTwo(lo, high);
    ghost var y := m.s;
    m.DoExecve(1, 0);
    ghost var z := m.s;
    ExitMarked(y, z, Exec(1, 0), 1);
    TrailMore(lo, high, es, ms, fs, y, Exec(1, 0), z);
    es, ms, fs := es + [Exec(1, 0)], ms + [z], fs + [EffectOf(y, Exec(1, 0))];
    m.DoExecve(2, 0);
    ExitMarked(z, m.s, Exec(2, 0), 2);
    TrailMore(lo, high, es, ms, fs, z, Exec(2, 0), m.s);
    es, ms, fs := es + [Exec(2, 0)], ms + [m.s], fs + [EffectOf(z, Exec(2, 0))];
    MoreFree(y, z);
    MoreFree(z, m.s);
    hide Trail;
  }

  /** Task 1 has read a page of the file, task 2 has not. */
  ghost predicate OneReader(m: Machine, image: Page) {
    && Sound(m) && m.task[1].Live() && m.task[2].Live() && (forall t | 3 <= t < NR_TASKS :: m.task[t].page == 0)
    && m.task[1].dataLimit == MAX_LIMIT && m.task[2].dataLimit == MAX_LIMIT
    && Mapped(m, FIRST) && Pte(m, FIRST).rw && !Pte(m, FIRST).dirty && Content(m, FIRST) == image
    && !Present(m, SECOND) && Free(m) >= 1
  }

  lemma NobodyHas(m: Machine, v: Vpage, env: FaultEnv)
    requires TwoTasks(m, 4) && ValidPage(v) && |env.exe| == NR_TASKS
    ensures ShareWith(m, v, env) == 0
  {
    forall p: nat | p < NR_TASKS ensures !Candidate(m, v, env, p) {
      assert (p == 1 || p == 2) && UserDir(Counterpart(v, p).d) ==> !Dir(m, Counterpart(v, p).d).present;
    }
  }

  method ReadFirst(lo: nat, high: nat, image: Page)
    returns (m: Memory, ghost es: seq<Event>, ghost ms: seq<Machine>, ghost fs: seq<Effect>)
    requires LOW <= lo && lo + 8 <= high <= FRAMES
    ensures fresh(m) && fresh(m.memMap) && fresh(m.mem) && fresh(m.task) && m.Valid()
    ensures Trail(lo, high, es, ms, fs, m.s) && OneReader(m.s, image)
  {
    m, es, ms, fs := Start(lo, high);
    var env := OneFile(image);
    ghost var x := m.s;
    NobodyHas(x, FIRST, env);
    TouchWithin(x, FIRST);
    var f := m.DoNoPage(FIRST, env);
    FetchRefines(x, m.s, FIRST, image);
    PlainMarked(x, m.s, ReadFault(FIRST, env), FIRST);
    TrailMore(lo, high, es, ms, fs, x, ReadFault(FIRST, env), m.s);
    es, ms, fs := es + [ReadFault(FIRST, env)], ms + [m.s], fs + [EffectOf(x, ReadFault(FIRST, env))];
    Look(m.s);
  }

  lemma FirstShares(m: Machine, image: Page)
    requires OneReader(m, image)
    ensures FaultOf(m, SECOND, OneFile(image)) == SharedWith(FIRST)
  {
    var env := OneFile(image);
    assert Counterpart(SECOND, 1) == FIRST;
    assert Candidate(m, SECOND, env, 1);
    SomeShares(m, SECOND, env);
  }

  /** The second task asks the kernel to store to the page before it has it (write_verify passes over
      absent pages): the fault gives it the first task's page, and the store changes that. */
  method StoreToAbsent(lo: nat, high: nat, image: Page, k: nat, w: Word)
    returns (m: Memory, ghost es: seq<Event>, ghost ms: seq<Machine>, ghost fs: seq<Effect>)
    requires LOW <= lo && lo + 8 <= high <= FRAMES && k < WORDS && w != image[k]
    ensures m.Valid() && Trail(lo, high, es, ms, fs, m.s) && |es| > 0 && es[|es| - 1] == KernelWrite(SECOND, k, w, OneFile(image))
    ensures !SameFor(Spaces(ms[|es| - 1]), Spaces(m.s), 1)
  {
    m, es, ms, fs := ReadFirst(lo, high, image);
    var env := OneFile(image);
    ghost var x := m.s;
    assert |ms| == |es| + 1 && ms[|es|] == x;
    hide Trail, Marked, Tasked;
    ghost var e := KernelWrite(SECOND, k, w, env);
    FirstShares(x, image);
    assert Possible(x, e);
    m.KernelStore(SECOND, k, w, env);
    TrailMore(lo, high, es, ms, fs, x, e, m.s);
    es, ms, fs := es + [e], ms + [m.s], fs + [EffectOf(x, e)];
    assert Strikes(x, SECOND, env, FIRST);
    assert Hurts(x, e, 1);
    StepKeepsIff(x, m.s, e, 1);
  }

  /** The first task's page was verified for a store, and while the kernel waited for the data the
      second task faulted and was given the same page. */
  method ShareVerified(lo: nat, high: nat, image: Page)
    returns (m: Memory, ghost es: seq<Event>, ghost ms: seq<Machine>, ghost fs: seq<Effect>)
    requires LOW <= lo && lo + 8 <= high <= FRAMES
    ensures fresh(m) && fresh(m.memMap) && fresh(m.mem) && fresh(m.task) && m.Valid()
    ensures Trail(lo, high, es, ms, fs, m.s) && |es| >= 2 && es[|es| - 2..] == [Verify(FIRST), ReadFault(SECOND, OneFile(image))]
    ensures m.s.task[1].Live() && m.s.task[1].dataLimit == MAX_LIMIT && Sound(m.s)
    ensures SameFrame(m.s, SECOND, FIRST) && Content(m.s, SECOND) == image
  {
    hide Trail, Marked;
    m, es, ms, fs := ReadFirst(lo, high, image);
    var env := OneFile(image);
    ghost var x := m.s;
    var ok := m.WriteVerify(FIRST);
    VerifyMarked(x, x, FIRST);
    TrailMore(lo, high, es, ms, fs, x, Verify(FIRST), x);
    es, ms, fs := es + [Verify(FIRST)], ms + [x], fs + [Nothing];
    FirstShares(x, image);
    TouchWithin(x, SECOND);
    var f := m.DoNoPage(SECOND, env);
    ghost var y := m.s;
    FetchRefines(x, y, SECOND, image);
    PlainMarked(x, y, ReadFault(SECOND, env), SECOND);
    TrailMore(lo, high, es, ms, fs, x, ReadFault(SECOND, env), y);
    es, ms, fs := es + [ReadFault(SECOND, env)], ms + [y], fs + [EffectOf(x, ReadFault(SECOND, env))];
    BothShow(x, y, image);
  }

  /** The first task's store then changes what the second sees. */
  method StoreAfterVerify(lo: nat, high: nat, image: Page, k: nat, w: Word)
    returns (m: Memory, ghost es: seq<Event>, ghost ms: seq<Machine>, ghost fs: seq<Effect>)
    requires LOW <= lo && lo + 8 <= high <= FRAMES && k < WORDS && w != image[k]
    ensures m.Valid() && Trail(lo, high, es, ms, fs, m.s) && |es| >= 3
    ensures es[|es| - 3..] == [Verify(FIRST), ReadFault(SECOND, OneFile(image)), KernelWrite(FIRST, k, w, OneFile(image))]
    ensures !SameFor(Spaces(ms[|es| - 1]), Spaces(m.s), 2)
  {
    m, es, ms, fs := ShareVerified(lo, high, image);
    var env := OneFile(image);
    ghost var y := m.s;
    ghost var e := KernelWrite(FIRST, k, w, env);
    assert Possible(y, e);
    m.KernelStore(FIRST, k, w, env);
    TrailMore(lo, high, es, ms, fs, y, e, m.s);
    ghost var old_es := es;
    es, ms, fs := es + [e], ms + [m.s], fs + [EffectOf(y, e)];
    assert es[|es| - 3..] == old_es[|old_es| - 2..] + [e];
    assert Strikes(y, FIRST, env, SECOND);
    assert Hurts(y, e, 2);
    StepKeepsIff(y, m.s, e, 2);
  }

  /** After the second fault both pages show the frame of the first. */
  lemma BothShow(x: Machine, y: Machine, image: Page)
    requires OneReader(x, image) && Joined(x, y, FIRST, SECOND) && Mapping(x, y, SECOND, image)
    ensures SameFrame(y, SECOND, FIRST) && Content(y, SECOND) == image
  {
    assert FIRST in Sharers(x, Pte(x, FIRST).frame);
    assert FIRST in Sharers(y, Pte(x, FIRST).frame);
    Look(y);
  }
}
