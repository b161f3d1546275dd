/**
 What try_to_share is careful about: a page that a task has stored to is not given to another task
 that runs the same file. It holds as long as the entry stays dirty, which write_verify can end.
 */
module ModifiedPages {
  import opened Frames
  import opened FrameSteps
  import opened EagerSpaces
  import opened PageTables
  import opened FreePages
  import opened PageFaults
  import opened DirtyPages
  import opened Traps
  import opened Isolation
  import opened Paging
  import opened SharedStores

  /** A fault does not share a dirty page. */
  lemma DirtyNotShared(m: Machine, u: Vpage, v: Vpage, env: FaultEnv)
    requires |env.exe| == NR_TASKS && ValidPage(v) && u in Dirty(m)
    ensures FaultOf(m, v, env) != SharedWith(u)
  {
    var p := Sharer(m, v, env, NR_TASKS);
    assert p != 0 ==> Candidate(m, v, env, p);
  }

  /** One of the steps i..j of a run makes the entry of u clean or takes it away. */
  ghost predicate Cleaned(es: seq<Event>, ms: seq<Machine>, i: nat, j: nat, u: Vpage)
    requires |ms| == |es| + 1 && j <= |es|
  {
    exists k: nat :: i <= k < j && Possible(ms[k], es[k]) && Cleans(ms[k], es[k], u)
  }

  lemma {:induction false} StaysDirty(es: seq<Event>, ms: seq<Machine>, fs: seq<Effect>, i: nat, j: nat, u: Vpage)
    requires History(es, ms, fs) && i <= j <= |es| && u in Dirty(ms[i]) && !Cleaned(es, ms, i, j, u)
    ensures u in Dirty(ms[j])
  {
    if i < j {
      StaysDirty(es, ms, fs, i, j - 1, u);
      assert Step(ms[j - 1], ms[j], es[j - 1], fs[j - 1]);
    }
  }

  /** Over any run: after a task has stored to a page, no fault of another task is given that page
      until the entry has been made clean or taken away. */
  lemma ModifiedNotShared(
    es: seq<Event>, ms: seq<Machine>, fs: seq<Effect>, i: nat, j: nat, u: Vpage, v: Vpage, env: FaultEnv)
    requires History(es, ms, fs) && i < j <= |es| && |env.exe| == NR_TASKS && ValidPage(v)
    requires Possible(ms[i], es[i]) && StoresTo(ms[i], es[i], u) && !Cleaned(es, ms, i + 1, j, u)
    ensures FaultOf(ms[j], v, env) != SharedWith(u)
  {
    assert Step(ms[i], ms[i + 1], es[i], fs[i]);
    StaysDirty(es, ms, fs, i + 1, j, u);
    DirtyNotShared(ms[j], u, v, env);
  }

  /** And a step makes it clean or takes it away if and only if it ends its task, for want of memory
      or by exit or exec, or is a write_verify that copies it. */
  lemma CleanedIff(m: Machine, n: Machine, e: Event, f: Effect, u: Vpage)
    requires Step(m, n, e, f) && u in Dirty(m)
    ensures u !in Dirty(n) <==>
      || (f.Ends? && f.t == u.d / TASK_DIRS)
      || (e == Verify(u) && Possible(m, e) && !Pte(m, u).rw && m.counts[Pte(m, u).frame - LOW] != 1)
  {}

  // ---------------------------------------------------------------- an input

  const THIRD := Vpage(3 * TASK_DIRS, 0)

  /** Only task 1 runs the file. */
  function Alone(image: Page): FaultEnv {
    FaultEnv(false, seq(NR_TASKS, t => if t == 1 then 1 else 0), 1, image)
  }

  /** Task 1 has the page and has stored to it. */
  ghost predicate Modified(m: Machine, page: Page, n: int) {
    && Sound(m) && m.task[1].Live() && m.task[2].Live() && (forall t | 3 <= t < NR_TASKS :: m.task[t].page == 0)
    && Free(m) >= n && m.task[1].dataLimit == MAX_LIMIT && m.task[2].dataLimit == MAX_LIMIT
    && FIRST in Spaces(m) && Spaces(m)[FIRST] == page && FIRST in Dirty(m)
  }

  /** The first task stores to a page of its file. */
  method StoreFirst(lo: nat, high: nat, image: Page, k: nat, w: Word)
    returns (m: Memory, ghost es: seq<Event>, ghost ms: seq<Machine>, ghost fs: seq<Effect>)
    requires LOW <= lo && lo + 32 <= high <= FRAMES && k < WORDS
    ensures fresh(m) && fresh(m.memMap) && fresh(m.mem) && fresh(m.task) && m.Valid()
    ensures Trail(lo, high, es, ms, fs, m.s) && Modified(m.s, image[k := w], 26)
    ensures |es| > 0 && es[|es| - 1] == UserWrite(FIRST, k, w, Alone(image))
  {
    hide Trail, Marked;
    m, es, ms, fs := Start(lo, high);
    hide TwoTasks, Modified, Refines;
    var env := Alone(image);
    ghost var x, e := m.s, UserWrite(FIRST, k, w, Alone(image));
    FirstFault(x, env, k, w);
    var f := m.DoNoPage(FIRST, env);
    ghost var y := m.s;
    StoredFirst(x, y, image, k, w);
    m.StoreWord(FIRST, k, w);
    TrailMore(lo, high, es, ms, fs, x, e, m.s);
    es, ms, fs := es + [e], ms + [m.s], fs + [EffectOf(x, e)];
  }

  lemma FirstFault(x: Machine, env: FaultEnv, k: nat, w: Word)
    requires TwoTasks(x, 28) && env == Alone(env.image) && k < WORDS
    ensures Sound(x) && Within(x, FIRST) && !Present(x, FIRST) && Possible(x, UserWrite(FIRST, k, w, env))
    ensures Free(x) >= 28 && FaultOf(x, FIRST, env) == Fresh(env.image)
  {
    TouchWithin(x, FIRST);
  }

  lemma StoredFirst(x: Machine, y: Machine, image: Page, k: nat, w: Word)
    requires TwoTasks(x, 28) && k < WORDS && Mapping(x, y, FIRST, image) && DirtyBut(x, y, FIRST)
    requires Pte(y, FIRST).rw && Free(y) >= 26
    ensures HasTable(y, FIRST.d) && Pte(y, FIRST).frame < FRAMES
    ensures
      var n, e := Store(y, FIRST, k, w), UserWrite(FIRST, k, w, Alone(image));
      Possible(x, e) && Refines(x, n, Outcome(x, e)) && Tasked(x, n, e) && Marked(x, n, e) && Modified(n, image[k := w], 26)
  {
    FirstFault(x, Alone(image), k, w);
    ReadyFresh(x, y, FIRST, image);
    StoreRefines(x, y, FIRST, k, w, image);
    StoreDirty(y, FIRST, k, w);
    Look(x);
    PlainMarked(x, Store(y, FIRST, k, w), UserWrite(FIRST, k, w, Alone(image)), FIRST);
    assert Zeros(Store(y, FIRST, k, w)) == Zeros(y);
  }

  /** The second task executes the file too. */
  method ExecSecond(lo: nat, high: nat, image: Page, k: nat, w: Word)
    returns (m: Memory, ghost es: seq<Event>, ghost ms: seq<Machine>, ghost fs: seq<Effect>)
    requires LOW <= lo && lo + 32 <= high <= FRAMES && k < WORDS
    ensures fresh(m) && fresh(m.memMap) && fresh(m.mem) && fresh(m.task) && m.Valid()
    ensures Trail(lo, high, es, ms, fs, m.s) && Modified(m.s, image[k := w], 26) && NoTables(m.s, 2)
    ensures |es| >= 2 && es[|es| - 2..] == [UserWrite(FIRST, k, w, Alone(image)), Exec(2, 0)]
  {
    hide Trail, Marked, Tasked;
    m, es, ms, fs := StoreFirst(lo, high, image, k, w);
    ghost var x := m.s;
    m.DoExecve(2, 0);
    ghost var y := m.s;
    ExecModified(x, y, image[k := w]);
    ExitMarked(x, y, Exec(2, 0), 2);
    TrailMore(lo, high, es, ms, fs, x, Exec(2, 0), y);
    es, ms, fs := es + [Exec(2, 0)], ms + [y], fs + [EffectOf(x, Exec(2, 0))];
    hide Trail, Modified;
  }

  lemma ExecModified(x: Machine, y: Machine, page: Page)
    requires Modified(x, page, 26) && Sound(y) && Spaces(y) == EagerExit(Spaces(x), 2) && Zeros(x) <= Zeros(y)
    requires KeepsBut(x, y, 2 * TASK_DIRS, 2 * TASK_DIRS + TASK_DIRS)
    requires y.task == x.task[2 := x.task[2].(codeLimit := 0).(dataLimit := MAX_LIMIT)]
    ensures Modified(y, page, 26)
  {
    MoreFree(x, y);
  }

  /** And the first forks. */
  method ForkModified(lo: nat, high: nat, image: Page, k: nat, w: Word)
    returns (m: Memory, ghost es: seq<Event>, ghost ms: seq<Machine>, ghost fs: seq<Effect>)
    requires LOW <= lo && lo + 32 <= high <= FRAMES && k < WORDS
    ensures fresh(m) && fresh(m.memMap) && fresh(m.mem) && fresh(m.task) && m.Valid()
    ensures Trail(lo, high, es, ms, fs, m.s) && TwoHave(m.s, image[k := w])
    ensures |es| >= 3 && es[|es| - 3..] == [UserWrite(FIRST, k, w, Alone(image)), Exec(2, 0), Fork(1, 3)]
  {
    m, es, ms, fs := ExecSecond(lo, high, image, k, w);
    ghost var y := m.s;
    assert Modified(y, image[k := w], 26);
    var ok := m.CopyProcess(3, 1);
    ForkFitsTwice(y);
    ForkMarked(y, m.s, Fork(1, 3));
    TrailMore(lo, high, es, ms, fs, y, Fork(1, 3), m.s);
    ghost var before := es;
    es, ms, fs := es + [Fork(1, 3)], ms + [m.s], fs + [EffectOf(y, Fork(1, 3))];
    assert es[|es| - 3..] == before[|before| - 2..] + [Fork(1, 3)];
    hide Trail, Marked;
    ForkShared(y, m.s, image[k := w]);
  }

  lemma ForkFitsTwice(y: Machine)
    requires Free(y) >= 26 && y.task[1].dataLimit == MAX_LIMIT
    ensures ForkFits(y, 1) && Free(y) - 1 - TablesOf(y, 1) >= 9
  {
    TablesGrow(y, TASK_DIRS, 0, Dirs(MAX_LIMIT));
  }

  /** Task 1 and its child, task 3, share the page; task 2 has no tables. */
  ghost predicate TwoHave(m: Machine, page: Page) {
    && Sound(m) && m.task[1].Live() && m.task[2].Live() && (forall t | 4 <= t < NR_TASKS :: m.task[t].page == 0)
    && NoTables(m, 2) && Free(m) >= 2 && m.task[1].dataLimit == MAX_LIMIT && m.task[2].dataLimit == MAX_LIMIT
    && FIRST in Spaces(m) && Spaces(m)[FIRST] == page && FIRST in Dirty(m) && THIRD in Dirty(m)
    && !Pte(m, FIRST).rw && !Sole(m, FIRST)
  }

  lemma ForkShared(y: Machine, z: Machine, page: Page)
    requires Modified(y, page, 26) && NoTables(y, 2) && Forked(y, z, 1, 3, true) && SameTables(y, z, 3)
    requires ChildDirty(y, z, 1, 3) && Free(z) >= 2
    ensures TwoHave(z, page)
  {
    assert DirtyTwin(z, FIRST, THIRD);
    TwoOwners(z, THIRD, FIRST);
    assert NoTables(z, 2);
  }

  /** write_verify gives the first task a copy, whose entry is clean. */
  method VerifyModified(lo: nat, high: nat, image: Page, k: nat, w: Word)
    returns (m: Memory, ghost es: seq<Event>, ghost ms: seq<Machine>, ghost fs: seq<Effect>)
    requires LOW <= lo && lo + 32 <= high <= FRAMES && k < WORDS
    ensures fresh(m) && fresh(m.memMap) && fresh(m.mem) && fresh(m.task) && m.Valid()
    ensures Trail(lo, high, es, ms, fs, m.s) && OneClean(m.s, image[k := w])
    ensures |es| >= 4 &&
      es[|es| - 4..] == [UserWrite(FIRST, k, w, Alone(image)), Exec(2, 0), Fork(1, 3), Verify(FIRST)]
  {
    m, es, ms, fs := ForkModified(lo, high, image, k, w);
    ghost var z := m.s;
    assert TwoHave(z, image[k := w]);
    var ok := m.WriteVerify(FIRST);
    VerifyRefines(z, m.s, FIRST);
    VerifyMarked(z, m.s, FIRST);
    TrailMore(lo, high, es, ms, fs, z, Verify(FIRST), m.s);
    ghost var before := es;
    es, ms, fs := es + [Verify(FIRST)], ms + [m.s], fs + [EffectOf(z, Verify(FIRST))];
    assert es[|es| - 4..] == before[|before| - 3..] + [Verify(FIRST)];
    hide Trail, Marked;
    VerifiedClean(z, m.s, image[k := w]);
  }

  /** Task 1 has the page, clean; its child has it, dirty; task 2 does not have it. */
  ghost predicate OneClean(m: Machine, page: Page) {
    && Sound(m) && m.task[1].Live() && m.task[2].Live() && (forall t | 4 <= t < NR_TASKS :: m.task[t].page == 0)
    && Free(m) >= 1 && m.task[2].dataLimit == MAX_LIMIT && !Present(m, SECOND)
    && FIRST in Spaces(m) && Spaces(m)[FIRST] == page && FIRST !in Dirty(m) && THIRD in Dirty(m)
  }

  lemma VerifiedClean(z: Machine, a: Machine, page: Page)
    requires TwoHave(z, page) && Unshared(z, a, FIRST) && DirtyBut(z, a, FIRST) && FIRST !in Dirty(a) && Free(a) >= 1
    ensures OneClean(a, page)
  {
    Look(z);
    assert THIRD in Dirty(a);
    assert Present(a, SECOND) <==> Present(z, SECOND);
  }

  lemma FirstIsShared(m: Machine, page: Page, image: Page)
    requires OneClean(m, page)
    ensures FaultOf(m, SECOND, OneFile(image)) == SharedWith(FIRST)
  {
    var env := OneFile(image);
    Look(m);
    assert EntryOf(m, SECOND, 1) == Pte(m, FIRST);
    assert EntryOf(m, SECOND, 3) == Pte(m, THIRD);
    assert RunsToo(m, SECOND, env, 1);
    SharesIff(m, SECOND, env, 1);
  }

  /** So the second task, which reads the page of its executable for the first time, sees the word that
      the first task has stored. */
  method ShareModified(lo: nat, high: nat, image: Page, k: nat, w: Word)
    returns (m: Memory, ghost es: seq<Event>, ghost ms: seq<Machine>, ghost fs: seq<Effect>)
    requires LOW <= lo && lo + 32 <= high <= FRAMES && k < WORDS && w != image[k]
    ensures m.Valid() && Trail(lo, high, es, ms, fs, m.s) && |es| >= 5
    ensures es[|es| - 5..] ==
      [UserWrite(FIRST, k, w, Alone(image)), Exec(2, 0), Fork(1, 3), Verify(FIRST), ReadFault(SECOND, OneFile(image))]
    ensures SECOND in Spaces(m.s) && Spaces(m.s)[SECOND] == image[k := w]
  {
    hide Trail, Marked;
    m, es, ms, fs := VerifyModified(lo, high, image, k, w);
    var env := OneFile(image);
    ghost var a, e := m.s, ReadFault(SECOND, OneFile(image));
    SecondFault(a, image[k := w], image);
    hide OneClean, Refines;
    var f := m.DoNoPage(SECOND, env);
    SecondSees(a, m.s, image[k := w], image);
    TrailMore(lo, high, es, ms, fs, a, e, m.s);
    ghost var before := es;
    es, ms, fs := es + [e], ms + [m.s], fs + [EffectOf(a, e)];
    assert es[|es| - 5..] == before[|before| - 4..] + [e];
  }

  lemma SecondFault(a: Machine, page: Page, image: Page)
    requires OneClean(a, page)
    ensures Sound(a) && Within(a, SECOND) && !Present(a, SECOND) && Possible(a, ReadFault(SECOND, OneFile(image)))
    ensures FaultOf(a, SECOND, OneFile(image)) == SharedWith(FIRST) && Content(a, FIRST) == page
  {
    FirstIsShared(a, page, image);
    Look(a);
    TouchWithin(a, SECOND);
  }

  lemma SecondSees(a: Machine, b: Machine, page: Page, image: Page)
    requires OneClean(a, page) && Mapping(a, b, SECOND, page) && DirtyBut(a, b, SECOND)
    ensures
      var e := ReadFault(SECOND, OneFile(image));
      Possible(a, e) && Refines(a, b, Outcome(a, e)) && Tasked(a, b, e) && Marked(a, b, e)
    ensures SECOND in Spaces(b) && Spaces(b)[SECOND] == page
  {
    SecondFault(a, page, image);
    FetchRefines(a, b, SECOND, page);
    PlainMarked(a, b, ReadFault(SECOND, OneFile(image)), SECOND);
  }
}
