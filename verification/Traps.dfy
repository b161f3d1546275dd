/**
 What a trap does to the address spaces, as a function of the state before it: which faults find a
 page to share, when memory runs out, and where a store goes.
 */
module Traps {
  import opened Frames
  import opened FrameSteps
  import opened EagerSpaces
  import opened PageTables
  import opened FreePages
  import opened PageFaults
  import opened DirtyPages

  /** What a page fault depends on besides memory: whether the address lies behind the executable's
      data, which executable each task runs (0 for none) and its i_count, and the page on disk. */
  datatype FaultEnv = FaultEnv(beyond: bool, exe: seq<nat>, users: nat, image: Page)

  datatype Fault = Failed | Fresh(page: Page) | SharedWith(from: Vpage)

  function Owner(v: Vpage): nat {
    v.d / TASK_DIRS
  }

  /** The page at the offset of v in the slot of task p. */
  function Counterpart(v: Vpage, p: nat): Vpage {
    Vpage(p * TASK_DIRS + v.d % TASK_DIRS, v.i)
  }

  /** The segment limit lets the task address v. */
  predicate MayTouch(task: Task, v: Vpage) {
    task.Live() && v.d % TASK_DIRS * 0x400000 + v.i * 4096 < task.dataLimit
  }

  // ---------------------------------------------------------------- page faults

  /** The fault is for a zeroed page: the task runs no file, or the address is behind its data. */
  predicate Anonymous(v: Vpage, env: FaultEnv)
    requires |env.exe| == NR_TASKS && ValidPage(v)
  {
    env.exe[Owner(v)] == 0 || env.beyond
  }

  /** try_to_share takes this page: it is there, clean and in main memory. */
  ghost predicate Sharable(m: Machine, from: Vpage) {
    Present(m, from) && !Pte(m, from).dirty && LOW <= Pte(m, from).frame
  }

  /** Task p runs the same file and has the page. */
  ghost predicate Candidate(m: Machine, v: Vpage, env: FaultEnv, p: nat)
    requires |env.exe| == NR_TASKS && ValidPage(v) && p < NR_TASKS
  {
    && p != 0 && p != Owner(v) && m.task[p].page != 0 && env.exe[p] == env.exe[Owner(v)]
    && Sharable(m, Counterpart(v, p))
  }

  /** The first candidate below slot i, from the top; 0 when there is none. */
  ghost function Sharer(m: Machine, v: Vpage, env: FaultEnv, i: nat): (p: nat)
    requires |env.exe| == NR_TASKS && ValidPage(v) && i <= NR_TASKS
    ensures p < NR_TASKS && (p != 0 ==> Candidate(m, v, env, p) && p < i)
    ensures forall q: nat | p < q < i :: !Candidate(m, v, env, q)
  {
    if i <= 1 then 0 else if Candidate(m, v, env, i - 1) then i - 1 else Sharer(m, v, env, i - 1)
  }

  /** share_page's choice. */
  ghost function ShareWith(m: Machine, v: Vpage, env: FaultEnv): (p: nat)
    requires |env.exe| == NR_TASKS && ValidPage(v)
    ensures p < NR_TASKS
  {
    if env.exe[Owner(v)] == 0 || env.users < 2 then 0 else Sharer(m, v, env, NR_TASKS)
  }

  /** Pages that mapping a new page takes: one, and one for the table if it is missing. */
  function Cost(m: Machine, v: Vpage): nat
    requires ValidPage(v)
  {
    if Dir(m, v.d).present then 1 else 2
  }

  /** do_no_page for the absent page v. */
  ghost function FaultOf(m: Machine, v: Vpage, env: FaultEnv): Fault
    requires |env.exe| == NR_TASKS && ValidPage(v)
  {
    var p := if Anonymous(v, env) then 0 else ShareWith(m, v, env);
    if p != 0 then (if Free(m) + 1 >= Cost(m, v) then SharedWith(Counterpart(v, p)) else Failed)
    else if Free(m) >= Cost(m, v) then Fresh(if Anonymous(v, env) then ZeroPage() else env.image)
    else Failed
  }

  /** The entry of task p for the page at the offset of v, zero without a table. */
  function EntryOf(m: Machine, v: Vpage, p: nat): Word {
    var d := p * TASK_DIRS + v.d % TASK_DIRS;
    if HasTable(m, d) && v.i < WORDS then Pte(m, Vpage(d, v.i)) else ZERO_WORD
  }

  /** Task p, which is neither task 0 nor v's own, runs the same file. */
  predicate RunsToo(m: Machine, v: Vpage, env: FaultEnv, p: nat)
    requires |env.exe| == NR_TASKS && ValidPage(v)
  {
    1 <= p < NR_TASKS && p != Owner(v) && m.task[p].page != 0 && env.exe[p] == env.exe[Owner(v)]
  }

  /** A fault shares the page of task p exactly if the page belongs to the executable, the file is in
      use twice, a page is free for a missing table, and p is the highest slot that runs the file and
      has an entry for the page that is present, not dirty and in main memory. */
  lemma SharesIff(m: Machine, v: Vpage, env: FaultEnv, p: nat)
    requires |env.exe| == NR_TASKS && ValidPage(v) && p < NR_TASKS
    ensures FaultOf(m, v, env) == SharedWith(Vpage(p * TASK_DIRS + v.d % TASK_DIRS, v.i)) <==>
      && env.exe[Owner(v)] != 0 && !env.beyond && env.users >= 2 && (Dir(m, v.d).present || Free(m) > 0)
      && RunsToo(m, v, env, p)
      && EntryOf(m, v, p).present && !EntryOf(m, v, p).dirty && LOW <= EntryOf(m, v, p).frame
      && forall q: nat | p < q < NR_TASKS && RunsToo(m, v, env, q) ::
           !EntryOf(m, v, q).present || EntryOf(m, v, q).dirty || EntryOf(m, v, q).frame < LOW
  {
    forall q: nat | q < NR_TASKS
      ensures Candidate(m, v, env, q) <==>
        && RunsToo(m, v, env, q)
        && EntryOf(m, v, q).present && !EntryOf(m, v, q).dirty && LOW <= EntryOf(m, v, q).frame
    {
      CandidateIff(m, v, env, q);
    }
    var q := Sharer(m, v, env, NR_TASKS);
    assert q != 0 ==> Candidate(m, v, env, q);
    assert Counterpart(v, p) == Counterpart(v, q) ==> p == q;
  }

  lemma CandidateIff(m: Machine, v: Vpage, env: FaultEnv, p: nat)
    requires |env.exe| == NR_TASKS && ValidPage(v) && p < NR_TASKS
    ensures Candidate(m, v, env, p) <==>
      && RunsToo(m, v, env, p)
      && EntryOf(m, v, p).present && !EntryOf(m, v, p).dirty && LOW <= EntryOf(m, v, p).frame
  {
    assert p != 0 ==> ValidPage(Counterpart(v, p));
  }

  /** A fault shares some page exactly if there is a candidate. */
  lemma SomeShares(m: Machine, v: Vpage, env: FaultEnv)
    requires |env.exe| == NR_TASKS && ValidPage(v)
    ensures FaultOf(m, v, env).SharedWith? <==>
      && !Anonymous(v, env) && env.users >= 2 && (Dir(m, v.d).present || Free(m) > 0)
      && exists p: nat :: p < NR_TASKS && Candidate(m, v, env, p)
  {
    if p: nat :| p < NR_TASKS && Candidate(m, v, env, p) {
      assert Sharer(m, v, env, NR_TASKS) != 0;
    }
  }

  /** And otherwise maps a fresh page, if the pages for it and for a missing table are free: of zeroes
      without a file or behind its data, else the file's. */
  lemma FreshIff(m: Machine, v: Vpage, env: FaultEnv)
    requires |env.exe| == NR_TASKS && ValidPage(v) && !FaultOf(m, v, env).SharedWith?
    ensures
      var pages := if Dir(m, v.d).present then 1 else 2;
      var anonymous := env.exe[Owner(v)] == 0 || env.beyond;
      FaultOf(m, v, env) ==
        (if Free(m) < pages then Failed else Fresh(if anonymous then ZeroPage() else env.image))
  {}

  /** un_wp_page needs no copy. */
  ghost predicate Sole(m: Machine, v: Vpage)
    requires Present(m, v)
  {
    LOW <= Pte(m, v).frame < FRAMES && m.counts[Pte(m, v).frame - LOW] == 1
  }

  /** What is in the page of v. */
  ghost function Content(m: Machine, v: Vpage): Page {
    if Present(m, v) && Pte(m, v).frame < FRAMES then m.mem[Pte(m, v).frame] else ZeroPage()
  }

  /** What a fault maps. */
  ghost function PageFor(m: Machine, f: Fault): Page {
    match f
    case Failed => ZeroPage()
    case Fresh(page) => page
    case SharedWith(from) => Content(m, from)
  }

  /** The page v shows before a store of its task changes it. */
  ghost function BaseOf(m: Machine, v: Vpage, env: FaultEnv): Page
    requires |env.exe| == NR_TASKS && ValidPage(v)
  {
    if Present(m, v) then Content(m, v) else PageFor(m, FaultOf(m, v, env))
  }

  /** A write fault on the present page v finds the page it needs. */
  ghost predicate CopyFits(m: Machine, v: Vpage) {
    Present(m, v) && (Pte(m, v).rw || Sole(m, v) || Free(m) > 0)
  }

  /** The faults of a user store find the pages they need. */
  ghost predicate StoreFits(m: Machine, v: Vpage, env: FaultEnv)
    requires |env.exe| == NR_TASKS && ValidPage(v)
  {
    if Present(m, v) then CopyFits(m, v)
    else
      match FaultOf(m, v, env)
      case Failed => false
      case Fresh(_) => true
      case SharedWith(_) => Free(m) >= Cost(m, v)
  }

  // ---------------------------------------------------------------- traps

  /** A store of the kernel on behalf of a task is two events: write_verify for the page, and later
      the store itself. Whatever runs in between runs in between. */
  datatype Event =
    | Fork(current: nat, nr: nat)
    | Exit(t: nat)
    | Exec(t: nat, text: nat)
    | Reap(t: nat)
    | ReadFault(v: Vpage, env: FaultEnv)
    | UserWrite(v: Vpage, k: nat, w: Word, env: FaultEnv)
    | Verify(v: Vpage)
    | KernelWrite(v: Vpage, k: nat, w: Word, env: FaultEnv)

  /** The event can happen: its task exists and may address the page; fork has a free slot. A page
      below 1 MB is stored to by the kernel only after write_verify has copied it. */
  ghost predicate Possible(m: Machine, e: Event) {
    match e
    case Fork(c, n) => 1 <= n < NR_TASKS && c < NR_TASKS && c != n && m.task[n].page == 0 && (c == 0 || m.task[c].Live())
    case Exit(t) => 1 <= t < NR_TASKS && m.task[t].Live()
    case Exec(t, text) => 1 <= t < NR_TASKS && m.task[t].Live() && text <= 0x3000000
    case Reap(t) => 1 <= t < NR_TASKS && m.task[t].page != 0 && m.task[t].zombie
    case ReadFault(v, env) => ValidPage(v) && MayTouch(m.task[Owner(v)], v) && |env.exe| == NR_TASKS && !Present(m, v)
    case UserWrite(v, k, w, env) => ValidPage(v) && MayTouch(m.task[Owner(v)], v) && k < WORDS && |env.exe| == NR_TASKS
    case Verify(v) => ValidPage(v) && MayTouch(m.task[Owner(v)], v)
    case KernelWrite(v, k, w, env) =>
      && ValidPage(v) && MayTouch(m.task[Owner(v)], v) && k < WORDS && |env.exe| == NR_TASKS
      && (Present(m, v) ==> LOW <= Pte(m, v).frame)
  }

  /** What the event does, out-of-memory conditions included. */
  ghost function Outcome(m: Machine, e: Event): (f: Effect)
    requires Possible(m, e)
    ensures Legal(f)
  {
    match e
    case Fork(c, n) => if ForkFits(m, c) then Forks(c, n) else Nothing
    case Exit(t) => Ends(t)
    case Exec(t, _) => Ends(t)
    case Reap(_) => Nothing
    case ReadFault(v, env) =>
      var f := FaultOf(m, v, env);
      if f.Failed? then Ends(Owner(v)) else Maps(v, PageFor(m, f))
    case UserWrite(v, k, w, env) =>
      if StoreFits(m, v, env) then Stores(v, k, w, BaseOf(m, v, env)) else Ends(Owner(v))
    case Verify(v) =>
      if !Present(m, v) || Pte(m, v).rw then Nothing
      else if !CopyFits(m, v) then Ends(Owner(v))
      else if Pte(m, v).frame < LOW then Maps(v, Content(m, v))
      else Nothing
    case KernelWrite(v, k, w, env) =>
      if Present(m, v) then Spills(v, v, Sharers(m, Pte(m, v).frame) + {v}, k, w)
      else
        match FaultOf(m, v, env)
        case Failed => Ends(Owner(v))
        case Fresh(page) => Stores(v, k, w, page)
        case SharedWith(from) =>
          Spills(v, from, (if Present(m, from) then Sharers(m, Pte(m, from).frame) else {}) + {v, from}, k, w)
  }

  /** e is an action of task t, or creates it. */
  predicate By(e: Event, t: nat) {
    match e
    case Fork(_, n) => n == t
    case Exit(u) => u == t
    case Exec(u, _) => u == t
    case Reap(u) => u == t
    case ReadFault(v, _) => Owner(v) == t
    case UserWrite(v, _, _, _) => Owner(v) == t
    case Verify(v) => Owner(v) == t
    case KernelWrite(v, _, _, _) => Owner(v) == t
  }

  /** The effect of e on m: nothing if the kernel refuses it or the processor faults on it. */
  ghost function EffectOf(m: Machine, e: Event): (f: Effect)
    ensures Legal(f)
  {
    if Possible(m, e) then Outcome(m, e) else Nothing
  }

  /** What e does to the task table; a fault that runs out of memory leaves its task a zombie. */
  ghost predicate Tasked(m: Machine, n: Machine, e: Event)
    requires Possible(m, e)
  {
    match e
    case Fork(c, t) =>
      && (forall u | 0 <= u < NR_TASKS && u != t :: n.task[u] == m.task[u])
      && if ForkFits(m, c) then n.task[t].page != 0 && n.task[t] == ChildOf(m.task[c], n.task[t].page)
         else n.task[t].page == 0
    case Exec(t, text) =>
      n.task == m.task[t := m.task[t].(codeLimit := (text + 4095) / 4096 * 4096).(dataLimit := MAX_LIMIT)]
    case Reap(t) => n.task == m.task[t := m.task[t].(page := 0)]
    case _ =>
      var f := Outcome(m, e);
      n.task == if f.Ends? then m.task[f.t := m.task[f.t].(zombie := true)] else m.task
  }

  /** write_verify copies the page: the entry of the copy is a fresh one. */
  ghost predicate Copies(m: Machine, e: Event) {
    e.Verify? && Present(m, e.v) && !Pte(m, e.v).rw && !Sole(m, e.v)
  }

  /** e takes the entry of u away or makes it clean. */
  ghost predicate Cleans(m: Machine, e: Event, u: Vpage)
    requires Possible(m, e)
  {
    var f := Outcome(m, e);
    (f.Ends? && f.t == Owner(u)) || (Copies(m, e) && e.v == u)
  }

  /** e stores to v, and has not ended its task instead. */
  ghost predicate StoresTo(m: Machine, e: Event, v: Vpage)
    requires Possible(m, e)
  {
    (e.UserWrite? || e.KernelWrite?) && e.v == v && !Outcome(m, e).Ends?
  }

  /** What e does to the dirty pages: exactly those that it cleans are no longer so, a store makes its
      page dirty, and a child has the parent's. */
  ghost predicate Marked(m: Machine, n: Machine, e: Event)
    requires Possible(m, e)
  {
    && (forall u | u in Dirty(m) :: u in Dirty(n) <==> !Cleans(m, e, u))
    && (forall v | StoresTo(m, e, v) :: v in Dirty(n))
    && (e.Fork? && ForkFits(m, e.current) ==> ChildDirty(m, n, e.current, e.nr))
  }

  /** n is m after e with effect f; an impossible event changes nothing. */
  ghost predicate Step(m: Machine, n: Machine, e: Event, f: Effect) {
    && Sound(m) && f == EffectOf(m, e) && Refines(m, n, f)
    && if Possible(m, e) then Tasked(m, n, e) && Marked(m, n, e) else n == m
  }

  /** The states ms and effects fs of a run of es. */
  ghost predicate History(es: seq<Event>, ms: seq<Machine>, fs: seq<Effect>) {
    && |ms| == |es| + 1 && |fs| == |es|
    && forall i | 0 <= i < |es| :: Step(ms[i], ms[i + 1], es[i], fs[i])
  }

  lemma HistoryMore(es: seq<Event>, ms: seq<Machine>, fs: seq<Effect>, e: Event, n: Machine)
    requires History(es, ms, fs) && Step(ms[|es|], n, e, EffectOf(ms[|es|], e))
    ensures History(es + [e], ms + [n], fs + [EffectOf(ms[|es|], e)])
  {}

  // ---------------------------------------------------------------- the routines have these outcomes

  /** An ended task has no dirty pages, and the others have theirs. */
  lemma EndsMarked(m: Machine, x: Machine, n: Machine, e: Event, v: Vpage)
    requires Possible(m, e) && DirtyBut(m, x, v) && Outcome(m, e) == Ends(Owner(v)) && Refines(m, n, Ends(Owner(v)))
    requires KeepsBut(x, n, Owner(v) * TASK_DIRS, Owner(v) * TASK_DIRS + TASK_DIRS)
    ensures Marked(m, n, e)
  {
    Look(n);
    forall u | u in Dirty(m) ensures u in Dirty(n) <==> !Cleans(m, e, u) {
      if Owner(u) != Owner(v) {
        assert u in Dirty(x);
        SlotRange(u.d, Owner(v));
      } else {
        assert u !in Spaces(n);
      }
    }
  }

  lemma SlotRange(d: nat, t: nat)
    ensures t * TASK_DIRS <= d < t * TASK_DIRS + TASK_DIRS <==> d / TASK_DIRS == t
  {}

  /** Exit and exec. */
  lemma ExitMarked(m: Machine, n: Machine, e: Event, t: nat)
    requires Possible(m, e) && Outcome(m, e) == Ends(t) && Refines(m, n, Ends(t))
    requires KeepsBut(m, n, t * TASK_DIRS, t * TASK_DIRS + TASK_DIRS)
    ensures Marked(m, n, e)
  {
    EndsMarked(m, m, n, e, Vpage(t * TASK_DIRS, 0));
  }

  lemma ForkMarked(m: Machine, n: Machine, e: Event)
    requires Possible(m, e) && e.Fork? && Dirty(m) <= Dirty(n)
    requires ForkFits(m, e.current) ==> ChildDirty(m, n, e.current, e.nr)
    ensures Marked(m, n, e)
  {}

  lemma VerifyMarked(m: Machine, n: Machine, v: Vpage)
    requires Possible(m, Verify(v)) && DirtyBut(m, n, v) && (Present(m, v) ==> CopyFits(m, v))
    requires v in Dirty(n) <==> v in Dirty(m) && (Pte(m, v).rw || Sole(m, v))
    ensures Marked(m, n, Verify(v))
  {}

  /** A trap that ends nobody and copies nothing. */
  lemma PlainMarked(m: Machine, n: Machine, e: Event, v: Vpage)
    requires Possible(m, e) && DirtyBut(m, n, v) && !Outcome(m, e).Ends? && !Copies(m, e) && !e.Fork?
    requires v in Dirty(m) ==> v in Dirty(n)
    requires e.UserWrite? || e.KernelWrite? ==> e.v in Dirty(n)
    ensures Marked(m, n, e)
  {}


  lemma TouchWithin(m: Machine, v: Vpage)
    requires ValidPage(v) && MayTouch(m.task[Owner(v)], v)
    ensures Within(m, v)
  {}

  lemma CopyCounts(m: Machine, v: Vpage, p: nat)
    requires Sound(m) && Present(m, v) && !Sole(m, v) && p != 0 && p == FreePageOf(m)
    ensures Present(Grab(m, p), v) && Pte(Grab(m, p), v).frame < FRAMES
    ensures Free(CowCopy(Grab(m, p), v, p)) == Free(m) - 1
  {
    var g := Grab(m, p);
    GrabElse(m, p);
    assert Pte(g, v) == Pte(m, v);
    if LOW <= Pte(m, v).frame { GrabOthers(m, v, p); }
    CowFrees(m, v, p);
  }

  lemma SameEntry(m: Machine, v: Vpage, p: nat)
    requires Sound(m) && Present(m, v) && p != 0 && p == FreePageOf(m)
    ensures var g := Grab(m, p); Dir(g, v.d) == Dir(m, v.d) && Present(g, v) && Pte(g, v) == Pte(m, v)
  {
    GrabElse(m, p);
  }

  lemma GrabOthers(m: Machine, v: Vpage, p: nat)
    requires Sound(m) && Present(m, v) && p != 0 && p == FreePageOf(m) && LOW <= Pte(m, v).frame
    ensures Pte(m, v).frame < FRAMES && Grab(m, p).counts[Pte(m, v).frame - LOW] == m.counts[Pte(m, v).frame - LOW]
  {
    CountBounds(m, v);
  }

  /** A page that v has just joined is not v's alone. */
  lemma NotSole(m: Machine, x: Machine, from: Vpage, v: Vpage)
    requires Sound(x) && Joined(m, x, from, v) && from != v
    ensures !Sole(x, v) && !Pte(x, v).rw
  {
    var f := Pte(x, v).frame;
    assert from in Sharers(m, f) && from in Sharers(x, f);
    TwoOwners(x, from, v);
  }

  lemma TwoOwners(x: Machine, u: Vpage, v: Vpage)
    requires Sound(x) && Mapped(x, u) && Mapped(x, v) && Pte(x, u).frame == Pte(x, v).frame && u != v
    ensures !Sole(x, v) && !Pte(x, v).rw
  {
    Open(x);
    if Pte(x, v).rw {
      WritableAlone(x, v);
    }
    assert Hits(x, PteRef(u), Pte(x, v).frame);
    if Sole(x, v) {
      OnlyOwner(x, v);
    }
    hide Inv;
  }

  lemma FetchRefines(m: Machine, x: Machine, v: Vpage, base: Page)
    requires ValidPage(v) && !Present(m, v) && Mapping(m, x, v, base)
    ensures Refines(m, x, Maps(v, base)) && x.task == m.task
  {
    Look(m);
  }

  lemma VerifyRefines(m: Machine, x: Machine, v: Vpage)
    requires Unshared(m, x, v)
    ensures Refines(m, x, if Pte(m, v).frame < LOW then Maps(v, Content(m, v)) else Nothing) && x.task == m.task
  {
    Look(m);
    if LOW <= Pte(m, v).frame {
      assert Mapped(m, v);
      SameUpdate(Spaces(m), v, Content(m, v));
    }
  }

  /** A kernel store to a present page. */
  lemma RawRefines(m: Machine, v: Vpage, k: nat, w: Word)
    requires Sound(m) && Mapped(m, v) && k < WORDS
    ensures Refines(m, Store(m, v, k, w), Spills(v, v, Sharers(m, Pte(m, v).frame) + {v}, k, w))
    ensures Store(m, v, k, w).task == m.task
  {
    var sharers := Sharers(m, Pte(m, v).frame);
    RawStore(m, v, k, w);
    Look(m);
    assert sharers + {v} == sharers;
    SameUpdate(Spaces(m), v, Spaces(m)[v]);
  }

  /** A kernel store to a page that the fault has just shared. */
  lemma SpillRefines(m: Machine, x: Machine, from: Vpage, v: Vpage, k: nat, w: Word)
    requires ValidPage(v) && k < WORDS && Joined(m, x, from, v) && Mapping(m, x, v, Content(m, from))
    ensures Refines(m, Store(x, v, k, w), Spills(v, from, Sharers(m, Pte(m, from).frame) + {v, from}, k, w))
    ensures Store(x, v, k, w).task == m.task
  {
    var sharers := Sharers(m, Pte(m, from).frame);
    RawStore(x, v, k, w);
    Look(m);
    assert sharers + {v, from} == sharers + {v};
  }
}
