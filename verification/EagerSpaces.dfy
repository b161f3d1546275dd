/**
 What fork, exit and stores would do to the user address spaces if every fork copied every
 page at once: the reference that copy-on-write has to refine.
 */
module EagerSpaces {
  import opened Frames

  type SpaceMap = map<Vpage, Page>

  /** v comes before entry i of directory entry d. */
  predicate Before(v: Vpage, d: nat, i: nat) {
    v.d < d || (v.d == d && v.i < i)
  }

  /** The pages of directory entries d0.. up to entry i of d are gone. */
  function Without(a: SpaceMap, d0: nat, d: nat, i: nat): SpaceMap {
    map v | v in a && !(d0 <= v.d && Before(v, d, i)) :: a[v]
  }

  /** Where a page of the copied range comes from. */
  function Source(f: nat, t: nat, v: Vpage): Vpage
    requires t <= v.d
  {
    Vpage(f + (v.d - t), v.i)
  }

  predicate Copied(a: SpaceMap, f: nat, t: nat, d: nat, i: nat, v: Vpage) {
    t <= v.d && Before(v, d, i) && Source(f, t, v) in a
  }

  /** Directory entries t.. have received the pages of f.., up to entry i of d. */
  ghost function CopyPart(a: SpaceMap, f: nat, t: nat, d: nat, i: nat): SpaceMap {
    map v | v in AllPages() && (Copied(a, f, t, d, i, v) || v in a) ::
      if Copied(a, f, t, d, i, v) then a[Source(f, t, v)] else a[v]
  }

  /** fork, eagerly: the child's slot becomes a copy of the parent's. */
  ghost function EagerFork(a: SpaceMap, parent: nat, child: nat): SpaceMap {
    map v | v in AllPages() && ForkSource(v, parent, child) in a :: a[ForkSource(v, parent, child)]
  }

  function ForkSource(v: Vpage, parent: nat, child: nat): Vpage {
    if v.d / TASK_DIRS == child then Vpage(parent * TASK_DIRS + v.d % TASK_DIRS, v.i) else v
  }

  /** exit: the slot of task t is emptied. */
  function EagerExit(a: SpaceMap, t: nat): SpaceMap {
    map v | v in a && v.d / TASK_DIRS != t :: a[v]
  }

  // ---------------------------------------------------------------- progress of the copy and free loops

  lemma WithoutStep(a: SpaceMap, d0: nat, d: nat, i: nat)
    requires d0 <= d
    ensures Without(a, d0, d, i + 1) == Without(a, d0, d, i) - {Vpage(d, i)}
  {}

  /** Freeing table d after the tables d0..d. */
  lemma WithoutSplit(a: SpaceMap, d0: nat, d: nat)
    requires d0 <= d && forall v | v in a :: ValidPage(v)
    ensures Without(Without(a, d0, d, 0), d, d, WORDS) == Without(a, d0, d + 1, 0)
  {}

  lemma WithoutNothing(a: SpaceMap, d: nat)
    requires forall v | v in a :: v.d != d
    ensures Without(a, d, d, WORDS) == a
  {}

  ghost predicate CopyOk(a: SpaceMap, f: nat, t: nat, n: nat) {
    && (f + n <= t || t + n <= f)
    && (forall v | v in a :: ValidPage(v) && !(t <= v.d < t + n))
  }

  lemma CopyStep(a: SpaceMap, f: nat, t: nat, n: nat, d: nat, i: nat)
    requires CopyOk(a, f, t, n) && t <= d < t + n && UserDir(d) && i < WORDS
    ensures var s := Vpage(f + (d - t), i);
      CopyPart(a, f, t, d, i + 1) == if s in a then CopyPart(a, f, t, d, i)[Vpage(d, i) := a[s]] else CopyPart(a, f, t, d, i)
  {
    var x, y := CopyPart(a, f, t, d, i), CopyPart(a, f, t, d, i + 1);
    forall v | v != Vpage(d, i) ensures Copied(a, f, t, d, i + 1, v) <==> Copied(a, f, t, d, i, v) {}
    assert Source(f, t, Vpage(d, i)) == Vpage(f + (d - t), i);
    assert forall v | v != Vpage(d, i) :: v in y <==> v in x;
  }

  lemma CopyRow(a: SpaceMap, f: nat, t: nat, d: nat)
    ensures CopyPart(a, f, t, d, WORDS) == CopyPart(a, f, t, d + 1, 0)
  {
    forall v | ValidPage(v) ensures Copied(a, f, t, d, WORDS, v) <==> Copied(a, f, t, d + 1, 0, v) {}
    assert CopyPart(a, f, t, d, WORDS).Keys == CopyPart(a, f, t, d + 1, 0).Keys;
  }

  lemma CopyEmptyRow(a: SpaceMap, f: nat, t: nat, d: nat, i: nat)
    requires t <= d && forall v | v in a :: v.d != f + (d - t)
    ensures CopyPart(a, f, t, d, i) == CopyPart(a, f, t, d + 1, 0)
  {
    forall v | ValidPage(v) ensures Copied(a, f, t, d, i, v) <==> Copied(a, f, t, d + 1, 0, v) {}
    assert CopyPart(a, f, t, d, i).Keys == CopyPart(a, f, t, d + 1, 0).Keys;
  }

  /** The pages still to be copied are untouched so far. */
  lemma CopySourceKept(a: SpaceMap, f: nat, t: nat, n: nat, d: nat, i: nat)
    requires CopyOk(a, f, t, n) && t <= d < t + n && i < WORDS
    ensures var s := Vpage(f + (d - t), i);
      (s in CopyPart(a, f, t, d, i) <==> s in a) && (s in a ==> CopyPart(a, f, t, d, i)[s] == a[s])
  {}

  /** Whatever the copy loop has done so far is undone by freeing the target tables. */
  lemma CopyUndone(a: SpaceMap, f: nat, t: nat, n: nat, d: nat)
    requires CopyOk(a, f, t, n) && t <= d <= t + n
    ensures Without(CopyPart(a, f, t, d, 0), t, t + n, 0) == a
  {}

  /** Freeing every table of a slot is exit. */
  lemma WithoutIsExit(a: SpaceMap, t: nat, n: nat)
    requires forall v | v in a && v.d / TASK_DIRS == t :: v.d % TASK_DIRS < n
    requires n <= TASK_DIRS
    ensures Without(a, t * TASK_DIRS, t * TASK_DIRS + n, 0) == EagerExit(a, t)
  {}

  /** The copy loop over a whole slot is the eager fork. */
  lemma CopyIsFork(a: SpaceMap, parent: nat, child: nat, n: nat)
    requires parent != child && n <= TASK_DIRS
    requires forall v | v in a :: ValidPage(v) && v.d / TASK_DIRS != child
    requires forall v | v in a && v.d / TASK_DIRS == parent :: v.d % TASK_DIRS < n
    ensures CopyPart(a, parent * TASK_DIRS, child * TASK_DIRS, child * TASK_DIRS + n, 0) == EagerFork(a, parent, child)
  {
    var f, t := parent * TASK_DIRS, child * TASK_DIRS;
    var x, y := CopyPart(a, f, t, t + n, 0), EagerFork(a, parent, child);
    forall v | ValidPage(v) ensures v in x <==> v in y
                            ensures v in x ==> x[v] == y[v]
    {
      if v.d / TASK_DIRS == child {
        assert Source(f, t, v) == ForkSource(v, parent, child);
      } else {
        assert !Copied(a, f, t, t + n, 0, v);
      }
    }
  }

  // ---------------------------------------------------------------- the reference as a whole

  /** What happened at one trap, as far as address spaces are concerned. `base` is what the page
      shows first when it was not yet in main memory: zeroes, file contents, another task's
      page of the same file, or the low-memory page below it. Spills is a kernel store that
      reaches every page of `sharers`, v showing what `from` shows. */
  datatype Effect =
    | Nothing
    | Forks(parent: nat, child: nat)
    | Ends(t: nat)
    | Maps(v: Vpage, base: Page)
    | Stores(v: Vpage, k: nat, w: Word, base: Page)
    | Spills(v: Vpage, from: Vpage, sharers: set<Vpage>, k: nat, w: Word)

  function EagerStore(a: SpaceMap, v: Vpage, k: nat, w: Word, base: Page): SpaceMap
    requires k < WORDS
  {
    var page := if v in a then a[v] else base;
    a[v := page[k := w]]
  }

  predicate Legal(e: Effect) {
    match e
    case Nothing => true
    case Forks(p, c) => p < NR_TASKS && 1 <= c < NR_TASKS && p != c
    case Ends(t) => 1 <= t < NR_TASKS
    case Maps(v, base) => ValidPage(v)
    case Stores(v, k, w, base) => ValidPage(v) && k < WORDS
    case Spills(v, from, sharers, k, w) => ValidPage(v) && v in sharers && from in sharers && k < WORDS
  }

  ghost function EagerStep(a: SpaceMap, e: Effect): SpaceMap
    requires Legal(e)
  {
    match e
    case Nothing => a
    case Forks(p, c) => EagerFork(a, p, c)
    case Ends(t) => EagerExit(a, t)
    case Maps(v, base) => if v in a then a else a[v := base]
    case Stores(v, k, w, base) => EagerStore(a, v, k, w, base)
    case Spills(v, from, sharers, k, w) => if from in a then SpillStore(a[v := a[from]], sharers, k, w) else a
  }

  /** The same word changes in every page of `sharers`. */
  function SpillStore(a: SpaceMap, sharers: set<Vpage>, k: nat, w: Word): SpaceMap
    requires k < WORDS
  {
    map u | u in a :: if u in sharers then a[u][k := w] else a[u]
  }

  /** Every fork copies, every store goes to one page: no sharing anywhere. */
  ghost function EagerRun(a: SpaceMap, es: seq<Effect>): SpaceMap
    requires forall e | e in es :: Legal(e)
  {
    if es == [] then a else EagerStep(EagerRun(a, es[..|es| - 1]), es[|es| - 1])
  }

  /** e is an action of task t, or creates it. */
  predicate Concerns(e: Effect, t: nat) {
    match e
    case Nothing => false
    case Forks(p, c) => c == t
    case Ends(u) => u == t
    case Maps(v, base) => v.d / TASK_DIRS == t
    case Stores(v, k, w, base) => v.d / TASK_DIRS == t
    case Spills(v, from, sharers, k, w) => exists u | u in sharers :: u.d / TASK_DIRS == t
  }

  /** Task t's memory is the same in a and b. */
  ghost predicate SameFor(a: SpaceMap, b: SpaceMap, t: nat) {
    forall v | ValidPage(v) && v.d / TASK_DIRS == t :: (v in a <==> v in b) && (v in a ==> a[v] == b[v])
  }

  lemma StepIsolated(a: SpaceMap, e: Effect, t: nat)
    requires Legal(e) && !Concerns(e, t)
    ensures SameFor(a, EagerStep(a, e), t)
  {}

  /** No action of other tasks changes a byte that task t sees. */
  lemma {:induction false} Isolation(a: SpaceMap, es: seq<Effect>, t: nat)
    requires forall e | e in es :: Legal(e) && !Concerns(e, t)
    ensures SameFor(a, EagerRun(a, es), t)
  {
    if es != [] {
      Isolation(a, es[..|es| - 1], t);
      StepIsolated(EagerRun(a, es[..|es| - 1]), es[|es| - 1], t);
    }
  }

  /** One more trap at the end of a run. */
  lemma RunMore(a: SpaceMap, es: seq<Effect>, e: Effect)
    requires (forall x | x in es :: Legal(x)) && Legal(e)
    ensures forall x | x in es + [e] :: Legal(x)
    ensures EagerRun(a, es + [e]) == EagerStep(EagerRun(a, es), e)
  {
    assert (es + [e])[..|es|] == es;
  }

  /** A fork is a snapshot: whatever other tasks do afterwards, the child's memory is what the
      parent's was at the fork. */
  lemma ForkSnapshot(a: SpaceMap, parent: nat, child: nat, es: seq<Effect>, o: nat, i: nat)
    requires 1 <= parent < NR_TASKS && 1 <= child < NR_TASKS && parent != child && o < TASK_DIRS && i < WORDS
    requires forall v | v in a :: ValidPage(v)
    requires forall e | e in es :: Legal(e) && !Concerns(e, child)
    ensures var p, c := Vpage(parent * TASK_DIRS + o, i), Vpage(child * TASK_DIRS + o, i);
      var b := EagerRun(EagerFork(a, parent, child), es);
      (c in b <==> p in a) && (p in a ==> b[c] == a[p])
  {
    var c := Vpage(child * TASK_DIRS + o, i);
    assert c.d / TASK_DIRS == child && c.d % TASK_DIRS == o;
    Isolation(EagerFork(a, parent, child), es, child);
  }
}
