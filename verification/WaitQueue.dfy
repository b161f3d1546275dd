/**
 sleep_on and wake_up of kernel/sched.c. A wait queue is only a pointer; the rest of the list is in
 the variable `tmp` on the kernel stack of every sleeper. sleep_on is two steps, before and after
 its call of schedule, and anything may happen in between.
 */
module WaitQueue {

  const NULL: int := -1

  datatype Status =
    | Awake                 // not in sleep_on
    | Asleep                // TASK_UNINTERRUPTIBLE in sleep_on
    | Roused                // TASK_RUNNING, has still to return from schedule in sleep_on

  /** head is *p, saved[t] the variable tmp of task t. */
  datatype Queue = Queue(head: int, status: seq<Status>, saved: seq<int>)

  /** above[t] is the sleeper whose tmp is t, NULL if there is none; stamp[t] is when t fell asleep. */
  datatype Order = Order(above: seq<int>, stamp: seq<nat>, now: nat)

  /** What holds of task t. An asleep task is referenced exactly once: by the head, or by the tmp of
      one later sleeper. A roused task is referenced by nobody. */
  ghost predicate TaskOk(q: Queue, o: Order, t: nat)
    requires |q.saved| == |q.status| == |o.above| == |o.stamp| && t < |q.status|
  {
    && (q.status[t] != Awake ==> o.stamp[t] < o.now)
    && (q.status[t].Roused? ==> o.above[t] == NULL && q.head != t)
    && (q.status[t].Asleep? && o.above[t] == NULL ==> q.head == t)
    && (q.status[t].Asleep? && o.above[t] != NULL ==>
          0 <= o.above[t] < |q.status| && q.status[o.above[t]] != Awake && q.saved[o.above[t]] == t && q.head != t)
    && (q.status[t] != Awake && q.saved[t] != NULL ==>
          && 0 <= q.saved[t] < |q.status| && q.status[q.saved[t]].Asleep? && o.above[q.saved[t]] == t
          && o.stamp[q.saved[t]] < o.stamp[t])
  }

  ghost predicate Sound(q: Queue, o: Order) {
    && |q.saved| == |q.status| == |o.above| == |o.stamp|
    && (q.head != NULL ==> 0 <= q.head < |q.status| && q.status[q.head].Asleep? && o.above[q.head] == NULL)
    && forall t: nat | t < |q.status| :: TaskOk(q, o, t)
  }

  // ---------------------------------------------------------------- steps

  datatype Event =
    | Sleep(t: nat)       // sleep_on up to schedule
    | Return(t: nat)      // sleep_on from schedule on, for a roused task
    | WakeUp

  predicate Enabled(q: Queue, e: Event) {
    match e
    case Sleep(t) => 0 < t < |q.status| && |q.saved| == |q.status| && q.status[t].Awake?
    case Return(t) =>
      && t < |q.status| && |q.saved| == |q.status| && q.status[t].Roused?
      && (q.saved[t] == NULL || 0 <= q.saved[t] < |q.status|)
    case WakeUp => q.head == NULL || 0 <= q.head < |q.status|
  }

  function Next(q: Queue, e: Event): Queue
    requires Enabled(q, e)
  {
    match e
    case Sleep(t) => Queue(t, q.status[t := Asleep], q.saved[t := q.head])
    case Return(t) =>
      var s := q.status[t := Awake];
      q.(status := if q.saved[t] == NULL then s else s[q.saved[t] := Roused])
    case WakeUp => if q.head == NULL then q else q.(head := NULL, status := q.status[q.head := Roused])
  }

  function OrderNext(q: Queue, o: Order, e: Event): Order
    requires Enabled(q, e) && |o.above| == |o.stamp| == |q.status|
  {
    match e
    case Sleep(t) =>
      var b := o.above[t := NULL];
      Order(if q.head != NULL && 0 <= q.head < |b| then b[q.head := t] else b, o.stamp[t := o.now], o.now + 1)
    case Return(t) => if q.saved[t] == NULL then o else o.(above := o.above[q.saved[t] := NULL])
    case WakeUp => o
  }

  lemma SleepTask(q: Queue, o: Order, x: nat, t: nat)
    requires Sound(q, o) && Enabled(q, Sleep(x)) && t < |q.status|
    ensures TaskOk(Next(q, Sleep(x)), OrderNext(q, o, Sleep(x)), t)
  {
    assert TaskOk(q, o, t);
    if q.head != NULL {
      assert TaskOk(q, o, q.head);
    }
    if q.status[t] != Awake && q.saved[t] != NULL {
      assert TaskOk(q, o, q.saved[t]);
    }
  }

  lemma ReturnTask(q: Queue, o: Order, x: nat, t: nat)
    requires Sound(q, o) && Enabled(q, Return(x)) && t < |q.status|
    ensures TaskOk(Next(q, Return(x)), OrderNext(q, o, Return(x)), t)
  {
    assert TaskOk(q, o, t) && TaskOk(q, o, x);
    if q.status[t] != Awake && q.saved[t] != NULL {
      assert TaskOk(q, o, q.saved[t]);
    }
  }

  lemma WakeTask(q: Queue, o: Order, t: nat)
    requires Sound(q, o) && Enabled(q, WakeUp) && t < |q.status|
    ensures TaskOk(Next(q, WakeUp), o, t)
  {
    assert TaskOk(q, o, t);
    if q.status[t].Asleep? && o.above[t] != NULL {
      assert TaskOk(q, o, o.above[t]);
    }
  }

  /** No sleeper is lost: every step keeps each one referenced exactly once. */
  lemma StepKeeps(q: Queue, o: Order, e: Event)
    requires Sound(q, o) && Enabled(q, e)
    ensures Sound(Next(q, e), OrderNext(q, o, e))
  {
    forall t: nat | t < |q.status| ensures TaskOk(Next(q, e), OrderNext(q, o, e), t) {
      match e
      case Sleep(x) => SleepTask(q, o, x, t);
      case Return(x) => ReturnTask(q, o, x, t);
      case WakeUp => WakeTask(q, o, t);
    }
    if e.Return? {
      assert TaskOk(q, o, e.t);
    }
  }

  /** The steps of the code are always possible: a roused task's tmp is a task or NULL. */
  lemma AlwaysEnabled(q: Queue, o: Order, t: nat)
    requires Sound(q, o) && t < |q.status|
    ensures Enabled(q, WakeUp) && (q.status[t].Roused? ==> Enabled(q, Return(t)))
  {
    assert TaskOk(q, o, t);
  }

  // ---------------------------------------------------------------- chains

  /** The first task of the chain that t is in. */
  ghost function Top(q: Queue, o: Order, t: nat): (r: nat)
    requires Sound(q, o) && t < |q.status| && q.status[t] != Awake
    ensures r < |q.status| && q.status[r] != Awake && o.above[r] == NULL
    decreases o.now - o.stamp[t]
  {
    assert TaskOk(q, o, t);
    if o.above[t] == NULL then t
    else
      assert TaskOk(q, o, o.above[t]);
      Top(q, o, o.above[t])
  }

  /** How many sleepers are before t in its chain. */
  ghost function Depth(q: Queue, o: Order, t: nat): (n: nat)
    requires Sound(q, o) && t < |q.status| && q.status[t] != Awake
    ensures n == 0 <==> o.above[t] == NULL
    decreases o.now - o.stamp[t]
  {
    assert TaskOk(q, o, t);
    if o.above[t] == NULL then 0
    else
      assert TaskOk(q, o, o.above[t]);
      1 + Depth(q, o, o.above[t])
  }

  /** Somebody has been told to wake up this sleeper, directly or through others. */
  ghost predicate Coming(q: Queue, o: Order, t: nat)
    requires Sound(q, o) && t < |q.status| && q.status[t] != Awake
  {
    q.status[Top(q, o, t)].Roused?
  }

  /** wake_up reaches every task that sleeps at that moment. */
  lemma {:induction false} WakeReachesAll(q: Queue, o: Order, t: nat)
    requires Sound(q, o) && t < |q.status| && q.status[t] != Awake
    ensures Enabled(q, WakeUp) && Sound(Next(q, WakeUp), o)
    ensures Next(q, WakeUp).status[t] != Awake && Coming(Next(q, WakeUp), o, t)
    decreases o.now - o.stamp[t]
  {
    StepKeeps(q, o, WakeUp);
    assert TaskOk(q, o, t) && TaskOk(Next(q, WakeUp), o, t);
    if o.above[t] != NULL {
      assert TaskOk(q, o, o.above[t]);
      WakeReachesAll(q, o, o.above[t]);
    }
  }

  /** What a step does to a sleeper that is coming: when the first of its chain returns, one fewer
      is before it; nothing else, and no new sleeper, changes how many are. */
  lemma {:induction false} DepthStep(q: Queue, o: Order, e: Event, t: nat)
    requires Sound(q, o) && Enabled(q, e) && t < |q.status| && q.status[t] != Awake && Coming(q, o, t)
    requires e != Return(t)
    ensures
      var n, p := Next(q, e), OrderNext(q, o, e);
      && Sound(n, p) && n.status[t] != Awake && Coming(n, p, t)
      && Depth(n, p, t) == Depth(q, o, t) - if e == Return(Top(q, o, t)) then 1 else 0
    decreases o.now - o.stamp[t]
  {
    var n, p := Next(q, e), OrderNext(q, o, e);
    StepKeeps(q, o, e);
    assert TaskOk(q, o, t) && TaskOk(n, p, t);
    if o.above[t] != NULL {
      var b := o.above[t];
      assert TaskOk(q, o, b);
      if e == Return(b) {
        assert Depth(q, o, b) == 0 && Depth(q, o, t) == 1;
        assert Top(q, o, b) == b && Top(q, o, t) == b;
      } else {
        DepthStep(q, o, e, b);
        if e.Return? {
          assert TaskOk(q, o, e.t);
        }
        assert p.above[t] == b;
        assert Top(q, o, t) == Top(q, o, b) && Depth(n, p, t) == 1 + Depth(n, p, b);
      }
    }
  }

  // ---------------------------------------------------------------- whole runs

  ghost predicate Possible(q: Queue, o: Order, es: seq<Event>)
    requires Sound(q, o)
    decreases |es|
  {
    es == [] || (
      Enabled(q, es[0]) &&
      (StepKeeps(q, o, es[0]); Possible(Next(q, es[0]), OrderNext(q, o, es[0]), es[1..])))
  }

  ghost function After(q: Queue, o: Order, es: seq<Event>): (r: (Queue, Order))
    requires Sound(q, o) && Possible(q, o, es)
    ensures Sound(r.0, r.1) && |r.0.status| == |q.status|
    decreases |es|
  {
    if es == [] then (q, o)
    else
      StepKeeps(q, o, es[0]);
      After(Next(q, es[0]), OrderNext(q, o, es[0]), es[1..])
  }

  /** t itself does not return in the run. */
  ghost predicate NotYet(es: seq<Event>, t: nat) {
    forall i: nat | i < |es| :: es[i] != Return(t)
  }

  /** How often, in a run, the task that returns is the first of t's chain. */
  ghost function Progress(q: Queue, o: Order, es: seq<Event>, t: nat): nat
    requires Sound(q, o) && Possible(q, o, es) && t < |q.status| && q.status[t] != Awake && Coming(q, o, t)
    requires NotYet(es, t)
    decreases |es|
  {
    if es == [] then 0
    else
      assert NotYet(es[1..], t);
      DepthStep(q, o, es[0], t);
      StepKeeps(q, o, es[0]);
      (if es[0] == Return(Top(q, o, t)) then 1 else 0) +
      Progress(Next(q, es[0]), OrderNext(q, o, es[0]), es[1..], t)
  }

  /** Whatever happens after a wake_up, a sleeper it reached has before it exactly as many tasks as
      at first, less those of its chain that have returned. */
  lemma {:induction false} RunProgress(q: Queue, o: Order, es: seq<Event>, t: nat)
    requires Sound(q, o) && Possible(q, o, es) && t < |q.status| && q.status[t] != Awake && Coming(q, o, t)
    requires NotYet(es, t)
    ensures
      var (n, p) := After(q, o, es);
      && n.status[t] != Awake && Coming(n, p, t)
      && Depth(n, p, t) + Progress(q, o, es, t) == Depth(q, o, t)
    decreases |es|
  {
    if es != [] {
      assert NotYet(es[1..], t);
      DepthStep(q, o, es[0], t);
      StepKeeps(q, o, es[0]);
      RunProgress(Next(q, es[0]), OrderNext(q, o, es[0]), es[1..], t);
    }
  }

  /** So it is runnable after that many returns, and until then the first of its chain is. */
  lemma RousedInTime(q: Queue, o: Order, es: seq<Event>, t: nat)
    requires Sound(q, o) && Possible(q, o, es) && t < |q.status| && q.status[t] != Awake && Coming(q, o, t)
    requires NotYet(es, t)
    ensures Progress(q, o, es, t) <= Depth(q, o, t)
    ensures
      var (n, p) := After(q, o, es);
      n.status[t] != Awake && n.status[Top(n, p, t)].Roused?
      && (n.status[t].Roused? <==> Progress(q, o, es, t) == Depth(q, o, t))
  {
    RunProgress(q, o, es, t);
    var (n, p) := After(q, o, es);
    assert TaskOk(n, p, t);
  }

  // ---------------------------------------------------------------- how long a task sleeps

  /** A task that has called sleep_on is asleep, and nobody has been told to wake it. */
  lemma FallsAsleep(q: Queue, o: Order, t: nat)
    requires Sound(q, o) && Enabled(q, Sleep(t))
    ensures
      var n, p := Next(q, Sleep(t)), OrderNext(q, o, Sleep(t));
      Sound(n, p) && n.status[t].Asleep? && !Coming(n, p, t)
  {
    StepKeeps(q, o, Sleep(t));
  }

  /** Only a wake_up changes that. */
  lemma {:induction false} NotComingStep(q: Queue, o: Order, e: Event, t: nat)
    requires Sound(q, o) && Enabled(q, e) && t < |q.status| && q.status[t] != Awake && !Coming(q, o, t)
    requires e != WakeUp
    ensures
      var n, p := Next(q, e), OrderNext(q, o, e);
      Sound(n, p) && n.status[t].Asleep? && !Coming(n, p, t)
    decreases o.now - o.stamp[t]
  {
    var n, p := Next(q, e), OrderNext(q, o, e);
    StepKeeps(q, o, e);
    assert TaskOk(q, o, t) && TaskOk(n, p, t);
    if e.Return? {
      assert TaskOk(q, o, e.t);
    }
    if o.above[t] != NULL {
      var b := o.above[t];
      assert TaskOk(q, o, b);
      NotComingStep(q, o, e, b);
      assert p.above[t] == b && Top(n, p, t) == Top(n, p, b);
    } else if e.Sleep? {
      assert p.above[t] == e.t && TaskOk(n, p, e.t) && Top(n, p, e.t) == e.t && Top(n, p, t) == e.t;
    } else {
      assert p.above[t] == NULL && Top(n, p, t) == t;
    }
  }

  /** In the run a wake_up has come, and since then as many of t's chain have returned as were before
      it. */
  ghost predicate Woken(q: Queue, o: Order, es: seq<Event>, t: nat)
    requires Sound(q, o) && Possible(q, o, es) && t < |q.status| && q.status[t] != Awake && NotYet(es, t)
    decreases |es|
  {
    if Coming(q, o, t) then Progress(q, o, es, t) == Depth(q, o, t)
    else
      es != [] && (
        assert NotYet(es[1..], t);
        SleeperStep(q, o, es[0], t);
        Woken(Next(q, es[0]), OrderNext(q, o, es[0]), es[1..], t))
  }

  lemma SleeperStep(q: Queue, o: Order, e: Event, t: nat)
    requires Sound(q, o) && Enabled(q, e) && t < |q.status| && q.status[t] != Awake && !Coming(q, o, t)
    ensures Sound(Next(q, e), OrderNext(q, o, e)) && Next(q, e).status[t] != Awake
    ensures Coming(Next(q, e), OrderNext(q, o, e), t) <==> e == WakeUp
  {
    if e == WakeUp {
      WakeReachesAll(q, o, t);
    } else {
      NotComingStep(q, o, e, t);
    }
  }

  /** A task in sleep_on is runnable again if and only if a wake_up has come and its chain has returned
      down to it; without a wake_up it stays asleep whatever happens. */
  lemma {:induction false} SleepsUntilWoken(q: Queue, o: Order, es: seq<Event>, t: nat)
    requires Sound(q, o) && Possible(q, o, es) && t < |q.status| && q.status[t] != Awake && NotYet(es, t)
    ensures After(q, o, es).0.status[t].Roused? <==> Woken(q, o, es, t)
    ensures After(q, o, es).0.status[t] != Awake
    ensures !Coming(q, o, t) && (forall i: nat | i < |es| :: es[i] != WakeUp) ==>
      !Woken(q, o, es, t) && After(q, o, es).0.status[t].Asleep?
    decreases |es|
  {
    if Coming(q, o, t) {
      RousedInTime(q, o, es, t);
    } else if es == [] {
      assert TaskOk(q, o, t);
    } else {
      assert NotYet(es[1..], t);
      SleeperStep(q, o, es[0], t);
      SleepsUntilWoken(Next(q, es[0]), OrderNext(q, o, es[0]), es[1..], t);
    }
  }

  // ---------------------------------------------------------------- the code

  class Waiters {
    var head: int
    const status: array<Status>
    const saved: array<int>
    ghost var order: Order

    ghost function State(): Queue
      reads this, status, saved
    {
      Queue(head, status[..], saved[..])
    }

    ghost predicate Valid()
      reads this, status, saved
    {
      status != saved as object && Sound(State(), order)
    }

    constructor (n: nat)
      ensures Valid() && fresh(status) && fresh(saved) && status.Length == n && head == NULL
      ensures forall t: nat | t < n :: status[t] == Awake
    {
      head := NULL;
      status := new Status[n](_ => Awake);
      saved := new int[n](_ => NULL);
      order := Order(seq(n, (_: nat) => NULL), seq(n, (_: nat) => 0), 0);
    }

    /** sleep_on before its call of schedule. The idle task must not sleep. */
    method SleepStart(current: nat) returns (panicked: bool)
      requires Valid() && current < status.Length && status[current].Awake?
      modifies this, status, saved
      ensures panicked <==> current == 0
      ensures Valid() && State() == if panicked then old(State()) else Next(old(State()), Sleep(current))
      ensures order == if panicked then old(order) else OrderNext(old(State()), old(order), Sleep(current))
      ensures !panicked ==>
        && status[..] == old(status[..])[current := Asleep] && head == current
        && saved[..] == old(saved[..])[current := old(head)] && !Coming(State(), order, current)
    {
      if current == 0 {
        return true;
      }
      panicked := false;
      ghost var q := State();
      FallsAsleep(q, order, current);
      order := OrderNext(q, order, Sleep(current));
      var tmp := head;
      saved[current] := tmp;
      head := current;
      status[current] := Asleep;
      assert State() == Next(q, Sleep(current));
    }

    /** sleep_on after schedule has returned. */
    method SleepEnd(current: nat)
      requires Valid() && current < status.Length && status[current].Roused?
      modifies this`order, status
      ensures Valid() && Enabled(old(State()), Return(current)) && State() == Next(old(State()), Return(current))
      ensures order == OrderNext(old(State()), old(order), Return(current))
      ensures head == old(head) && saved[..] == old(saved[..]) && NULL <= saved[current] < status.Length
      ensures
        var left := old(status[..])[current := Awake];
        status[..] == if saved[current] == NULL then left else left[saved[current] := Roused]
    {
      ghost var q := State();
      AlwaysEnabled(q, order, current);
      StepKeeps(q, order, Return(current));
      order := OrderNext(q, order, Return(current));
      var tmp := saved[current];
      status[current] := Awake;
      if tmp != NULL {
        status[tmp] := Roused;
      }
      assert State() == Next(q, Return(current));
    }

    /** wake_up */
    method Wake()
      requires Valid()
      modifies this, status
      ensures Valid() && Enabled(old(State()), WakeUp) && State() == Next(old(State()), WakeUp) && order == old(order)
      ensures head == NULL && saved[..] == old(saved[..]) && NULL <= old(head) < status.Length
      ensures status[..] == if old(head) == NULL then old(status[..]) else old(status[..])[old(head) := Roused]
    {
      ghost var q := State();
      StepKeeps(q, order, WakeUp);
      if head != NULL {
        status[head] := Roused;
        head := NULL;
      }
      assert State() == Next(q, WakeUp);
    }
  }
}
