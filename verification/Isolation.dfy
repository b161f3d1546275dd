/**
 Who can change what a task sees. Copy-on-write keeps tasks apart except in one case: a store that
 the kernel makes on behalf of a task goes to whatever frame the page's entry names, read-only or
 not. Here is exactly when that reaches another task.
 */
module Isolation {
  import opened Frames
  import opened FrameSteps
  import opened EagerSpaces
  import opened PageTables
  import opened FreePages
  import opened PageFaults
  import opened Traps

  ghost predicate SameFrame(m: Machine, u: Vpage, x: Vpage) {
    Mapped(m, u) && Mapped(m, x) && Pte(m, u).frame == Pte(m, x).frame
  }

  /** A kernel store to v lands in the page that u shows. */
  ghost predicate Strikes(m: Machine, v: Vpage, env: FaultEnv, u: Vpage)
    requires |env.exe| == NR_TASKS && ValidPage(v)
  {
    if Present(m, v) then SameFrame(m, u, v)
    else FaultOf(m, v, env).SharedWith? && SameFrame(m, u, FaultOf(m, v, env).from)
  }

  /** e is a kernel store that changes a word of a page of task t. */
  ghost predicate Hurts(m: Machine, e: Event, t: nat) {
    && Possible(m, e) && e.KernelWrite?
    && exists u: Vpage :: Owner(u) == t && Strikes(m, e.v, e.env, u) && Content(m, u)[e.k] != e.w
  }

  // ---------------------------------------------------------------- one trap

  /** A page that is found for sharing. */
  lemma SourceMapped(m: Machine, v: Vpage, env: FaultEnv)
    requires Sound(m) && ValidPage(v) && |env.exe| == NR_TASKS && FaultOf(m, v, env).SharedWith?
    ensures var from := FaultOf(m, v, env).from;
      Mapped(m, from) && Owner(from) != v.d / TASK_DIRS && from == Counterpart(v, ShareWith(m, v, env))
  {
    PresentBounds(m, Counterpart(v, ShareWith(m, v, env)));
  }

  /** What a spill changes in a task other than the one that stores. */
  lemma SpillIff(a: SpaceMap, v: Vpage, from: Vpage, sharers: set<Vpage>, k: nat, w: Word, t: nat)
    requires Legal(Spills(v, from, sharers, k, w)) && from in a && Owner(v) != t
    requires forall u | u in a :: ValidPage(u)
    ensures SameFor(a, EagerStep(a, Spills(v, from, sharers, k, w)), t)
       <==> forall u | u in a && u in sharers && Owner(u) == t :: a[u][k] == w
  {
    var b := EagerStep(a, Spills(v, from, sharers, k, w));
    assert forall u | Owner(u) == t :: u in b <==> u in a;
    forall u | u in a && Owner(u) == t ensures b[u] == a[u] <==> (u in sharers ==> a[u][k] == w) {
      if u in sharers {
        assert b[u] == a[u][k := w];
        assert a[u][k] == w ==> a[u][k := w] == a[u];
        assert a[u][k] != w ==> b[u][k] != a[u][k];
      }
    }
  }

  lemma SpillHurts(m: Machine, v: Vpage, from: Vpage, sharers: set<Vpage>, k: nat, w: Word, t: nat)
    requires ValidPage(v) && Mapped(m, from) && k < WORDS && Owner(v) != t
    requires sharers == Sharers(m, Pte(m, from).frame) + {v, from}
    ensures SameFor(Spaces(m), EagerStep(Spaces(m), Spills(v, from, sharers, k, w)), t)
       <==> !exists u: Vpage :: Owner(u) == t && SameFrame(m, u, from) && Content(m, u)[k] != w
  {
    Look(m);
    SpillIff(Spaces(m), v, from, sharers, k, w, t);
    forall u | Owner(u) == t
      ensures u in Spaces(m) && u in sharers <==> SameFrame(m, u, from)
      ensures u in Spaces(m) ==> Content(m, u) == Spaces(m)[u] {}
  }

  /** A trap of another task leaves t's memory alone exactly when it is not a kernel store that hits
      a page of t with a new word. */
  lemma StepKeepsIff(m: Machine, n: Machine, e: Event, t: nat)
    requires Sound(m) && Refines(m, n, EffectOf(m, e)) && !By(e, t)
    ensures SameFor(Spaces(m), Spaces(n), t) <==> !Hurts(m, e, t)
  {
    var f := EffectOf(m, e);
    if f.Spills? {
      var v, env := e.v, e.env;
      if Present(m, v) {
        PresentBounds(m, v);
        assert Sharers(m, Pte(m, v).frame) + {v, v} == Sharers(m, Pte(m, v).frame) + {v};
        SpillHurts(m, v, v, f.sharers, e.k, e.w, t);
      } else {
        SourceMapped(m, v, env);
        SpillHurts(m, v, f.from, f.sharers, e.k, e.w, t);
      }
    } else {
      assert !Concerns(f, t);
      StepIsolated(Spaces(m), f, t);
    }
  }

  /** Every other sharer of a page belongs to another task. */
  lemma SharersApart(m: Machine, u: Vpage, v: Vpage)
    requires Sound(m) && SameFrame(m, u, v) && u != v
    ensures Owner(u) != Owner(v)
  {
    Open(m);
  }

  /** Whom a kernel store to a present page reaches. */
  ghost predicate AloneOrSame(m: Machine, v: Vpage, k: nat, w: Word)
    requires Present(m, v) && k < WORDS
  {
    Sharers(m, Pte(m, v).frame) == {v} || Content(m, v)[k] == w
  }

  /** No page is found to share, or it has the word already. */
  ghost predicate UnsharedOrSame(m: Machine, v: Vpage, k: nat, w: Word, env: FaultEnv)
    requires ValidPage(v) && |env.exe| == NR_TASKS && k < WORDS
  {
    || Anonymous(v, env) || env.users < 2 || (!Dir(m, v.d).present && Free(m) == 0)
    || (forall p: nat | p < NR_TASKS :: !Candidate(m, v, env, p))
    || Content(m, Counterpart(v, ShareWith(m, v, env)))[k] == w
  }

  /** A kernel store leaves the memory of every other task alone exactly when the page is present
      and nobody else's, or absent and not satisfied with another task's page; or when it stores
      what is there. */
  lemma KernelStoreIff(m: Machine, n: Machine, v: Vpage, k: nat, w: Word, env: FaultEnv)
    requires Sound(m) && Possible(m, KernelWrite(v, k, w, env))
    requires Refines(m, n, Outcome(m, KernelWrite(v, k, w, env)))
    ensures (forall t: nat | t != Owner(v) :: SameFor(Spaces(m), Spaces(n), t))
       <==> if Present(m, v) then AloneOrSame(m, v, k, w) else UnsharedOrSame(m, v, k, w, env)
  {
    var e := KernelWrite(v, k, w, env);
    forall t: nat | t != Owner(v) ensures SameFor(Spaces(m), Spaces(n), t) <==> !Hurts(m, e, t) {
      StepKeepsIff(m, n, e, t);
    }
    if Present(m, v) {
      PresentHurts(m, v, k, w, env);
    } else {
      AbsentHurts(m, v, k, w, env);
    }
  }

  lemma PresentHurts(m: Machine, v: Vpage, k: nat, w: Word, env: FaultEnv)
    requires Sound(m) && Possible(m, KernelWrite(v, k, w, env)) && Present(m, v)
    ensures (forall t: nat | t != Owner(v) :: !Hurts(m, KernelWrite(v, k, w, env), t)) <==> AloneOrSame(m, v, k, w)
  {
    PresentBounds(m, v);
    var e, sharers := KernelWrite(v, k, w, env), Sharers(m, Pte(m, v).frame);
    forall u | SameFrame(m, u, v) ensures Content(m, u) == Content(m, v) {}
    if !AloneOrSame(m, v, k, w) {
      assert v in sharers;
      var u :| u in sharers && u != v;
      SharersApart(m, u, v);
      assert Strikes(m, v, env, u) && Hurts(m, e, Owner(u));
    }
  }

  lemma AbsentHurts(m: Machine, v: Vpage, k: nat, w: Word, env: FaultEnv)
    requires Sound(m) && Possible(m, KernelWrite(v, k, w, env)) && !Present(m, v)
    ensures (forall t: nat | t != Owner(v) :: !Hurts(m, KernelWrite(v, k, w, env), t)) <==> UnsharedOrSame(m, v, k, w, env)
  {
    var e := KernelWrite(v, k, w, env);
    SomeShares(m, v, env);
    if FaultOf(m, v, env).SharedWith? {
      SourceMapped(m, v, env);
      var from := FaultOf(m, v, env).from;
      forall u | SameFrame(m, u, from) ensures Content(m, u) == Content(m, from) {}
      if Content(m, from)[k] != w {
        assert Strikes(m, v, env, from) && Hurts(m, e, Owner(from));
      }
    }
  }

  /** After write_verify, as long as the entry stays writable, the store is the task's own. */
  lemma WritableStoreKeeps(m: Machine, v: Vpage, k: nat, w: Word, env: FaultEnv, t: nat)
    requires Sound(m) && Possible(m, KernelWrite(v, k, w, env)) && Present(m, v) && Pte(m, v).rw && t != Owner(v)
    ensures !Hurts(m, KernelWrite(v, k, w, env), t)
  {
    Open(m);
    WritableAlone(m, v);
  }

  // ---------------------------------------------------------------- whole runs

  /** Step i of a run leaves the memory of task t alone. */
  ghost predicate KeepsFor(ms: seq<Machine>, i: nat, t: nat)
    requires i + 1 < |ms|
  {
    SameFor(Spaces(ms[i]), Spaces(ms[i + 1]), t)
  }

  /** Over any run in which task t takes no step, no step changes its memory exactly when no step is
      a kernel store that hits one of its pages with a new word. */
  lemma RunKeepsIff(es: seq<Event>, ms: seq<Machine>, fs: seq<Effect>, t: nat)
    requires History(es, ms, fs) && forall i | 0 <= i < |es| :: !By(es[i], t)
    ensures (forall i | 0 <= i < |es| :: KeepsFor(ms, i, t)) <==> (forall i | 0 <= i < |es| :: !Hurts(ms[i], es[i], t))
  {
    forall i | 0 <= i < |es| ensures KeepsFor(ms, i, t) <==> !Hurts(ms[i], es[i], t) {
      assert Step(ms[i], ms[i + 1], es[i], fs[i]);
      StepKeepsIff(ms[i], ms[i + 1], es[i], t);
    }
  }

  /** So without such a store task t sees at the end what it saw at the beginning. */
  lemma {:induction false} RunIsolated(es: seq<Event>, ms: seq<Machine>, fs: seq<Effect>, t: nat, lo: nat, hi: nat)
    requires History(es, ms, fs) && lo <= hi <= |es|
    requires forall i | lo <= i < hi :: !By(es[i], t) && !Hurts(ms[i], es[i], t)
    ensures SameFor(Spaces(ms[lo]), Spaces(ms[hi]), t)
    decreases hi
  {
    if lo < hi {
      RunIsolated(es, ms, fs, t, lo, hi - 1);
      assert Step(ms[hi - 1], ms[hi], es[hi - 1], fs[hi - 1]);
      StepKeepsIff(ms[hi - 1], ms[hi], es[hi - 1], t);
    }
  }

  /** A fork is a snapshot: whatever the parent and all other tasks do afterwards, short of such a
      store, the child finds in every page what the parent had there when it forked. */
  lemma ForkSnapshot(es: seq<Event>, ms: seq<Machine>, fs: seq<Effect>, parent: nat, child: nat, v: Vpage)
    requires History(es, ms, fs) && es != [] && es[0] == Fork(parent, child) && parent != 0
    requires Possible(ms[0], es[0]) && ForkFits(ms[0], parent)
    requires forall i | 1 <= i < |es| :: !By(es[i], child) && !Hurts(ms[i], es[i], child)
    requires ValidPage(v) && Owner(v) == parent
    ensures var c, a, b := Counterpart(v, child), Spaces(ms[0]), Spaces(ms[|es|]);
      (c in b <==> v in a) && (v in a ==> b[c] == a[v])
  {
    var c := Counterpart(v, child);
    assert Step(ms[0], ms[1], es[0], fs[0]);
    RunIsolated(es, ms, fs, child, 1, |es|);
    assert ValidPage(c) && ForkSource(c, parent, child) == v;
  }
}
