/**
 kernel/sched.c: schedule, the clock tick and nice. A slot of the task table is empty or holds a
 task; slot 0 is the idle task.
 */
module Scheduler {

  const NR_TASKS: nat := 64
  const SIGKILL: nat := 9
  const SIGALRM: nat := 14
  const SIGSTOP: nat := 19

  datatype TaskState = Running | Interruptible | Uninterruptible | Zombie | Stopped

  datatype Task = Task(state: TaskState, counter: int, priority: int, alarm: int, signal: set<nat>, blocked: set<nat>)

  datatype Slot = Free | Used(t: Task)

  // ---------------------------------------------------------------- alarms and signals

  /** A pending signal that is not blocked; SIGKILL and SIGSTOP cannot be blocked. */
  predicate Signalled(t: Task) {
    t.signal - (t.blocked - {SIGKILL, SIGSTOP}) != {}
  }

  function Alarmed(t: Task, jiffies: int): Task {
    if t.alarm != 0 && t.alarm < jiffies then t.(signal := t.signal + {SIGALRM}, alarm := 0) else t
  }

  /** The first pass of schedule over one task. */
  function Noticed(t: Task, jiffies: int): Task {
    var u := Alarmed(t, jiffies);
    if Signalled(u) && u.state.Interruptible? then u.(state := Running) else u
  }

  /** The first pass leaves the idle task alone. */
  ghost predicate Awake(s: seq<Slot>, r: seq<Slot>, jiffies: int) {
    && |r| == |s| && (|s| > 0 ==> r[0] == s[0])
    && forall i: nat | 0 < i < |s| :: r[i] == if s[i].Used? then Used(Noticed(s[i].t, jiffies)) else Free
  }

  // ---------------------------------------------------------------- the choice

  predicate Runnable(s: seq<Slot>, i: int) {
    0 < i < |s| && s[i].Used? && s[i].t.state.Running?
  }

  /** Task `next` may be run: it has the greatest counter, and of those the highest slot; when
      nothing is runnable it is the idle task. */
  ghost predicate Best(s: seq<Slot>, next: nat) {
    if next == 0 then forall i: nat :: !Runnable(s, i)
    else
      && Runnable(s, next)
      && forall i: nat | Runnable(s, i) :: s[i].t.counter <= s[next].t.counter && (i > next ==> s[i].t.counter < s[next].t.counter)
  }

  function Recharge(t: Task): Task {
    t.(counter := t.counter / 2 + t.priority)
  }

  /** n recharges, while the task does not run. */
  function Recharges(t: Task, n: nat): Task {
    if n == 0 then t else Recharge(Recharges(t, n - 1))
  }

  function Pow2(n: nat): (r: nat)
    ensures r > 0
  {
    if n == 0 then 1 else 2 * Pow2(n - 1)
  }

  /** What a waiting task gains: each recharge halves, rounding up, what its counter lacks to twice its
      priority. A recharge changes nothing else. */
  lemma {:induction false} RechargesHalve(t: Task, n: nat)
    requires 0 <= t.counter <= 2 * t.priority
    ensures
      var r := Recharges(t, n);
      && r == t.(counter := r.counter) && 0 <= r.counter <= 2 * t.priority
      && Pow2(n) * (2 * t.priority - r.counter - 1) < 2 * t.priority - t.counter <= Pow2(n) * (2 * t.priority - r.counter)
  {
    if n > 0 {
      RechargesHalve(t, n - 1);
      var u := Recharges(t, n - 1);
      var h := 2 * t.priority - Recharge(u).counter;
      Halved(Pow2(n - 1), 2 * t.priority - u.counter, h, 2 * t.priority - t.counter);
    }
  }

  lemma Halved(k: nat, g: int, h: int, d: int)
    requires 2 * h - 1 <= g <= 2 * h && k * (g - 1) < d <= k * g
    ensures 2 * k * (h - 1) < d <= 2 * k * h
  {
    Scale(k, 2 * h - 2, g - 1);
    Scale(k, g, 2 * h);
    assert k * (2 * h - 2) == 2 * k * (h - 1) && k * (2 * h) == 2 * k * h;
  }

  lemma Scale(k: nat, a: int, b: int)
    requires a <= b
    ensures k * a <= k * b
  {}

  /** So of two tasks of one priority the one with more time left keeps it, and keeps an advantage of
      at least half. */
  lemma RechargeFair(s: seq<Slot>, r: seq<Slot>, i: nat, j: nat)
    requires Recharged(s, r) && 0 < i < |s| && 0 < j < |s| && s[i].Used? && s[j].Used?
    requires s[i].t.priority == s[j].t.priority && s[i].t.counter <= s[j].t.counter
    ensures r[i].Used? && r[j].Used? && r[i].t.counter <= r[j].t.counter
    ensures 2 * (r[j].t.counter - r[i].t.counter) >= s[j].t.counter - s[i].t.counter - 1
    ensures s[i].t.counter == 0 ==> r[i].t.counter == s[i].t.priority
  {}

  /** Every task but the idle one gets a new time slice on top of half its old one. */
  ghost predicate Recharged(s: seq<Slot>, r: seq<Slot>) {
    && |r| == |s| && (|s| > 0 ==> r[0] == s[0])
    && forall i: nat | 0 < i < |s| :: r[i] == if s[i].Used? then Used(Recharge(s[i].t)) else Free
  }

  /** Somebody is runnable but all who are have used up their time. */
  ghost predicate Exhausted(s: seq<Slot>) {
    && (exists i: nat :: Runnable(s, i))
    && forall i: nat | Runnable(s, i) :: s[i].t.counter == 0
  }

  /** Counters are never negative, and priorities positive and at most p. */
  ghost predicate Tame(s: seq<Slot>, p: int) {
    && |s| == NR_TASKS && p >= 1
    && forall i: nat | i < |s| && s[i].Used? :: 0 <= s[i].t.counter <= 2 * p - 1 && 0 < s[i].t.priority <= p
  }

  /** What schedule does: at most one recharge, and then the best choice, which has time left if it
      is not the idle task. */
  ghost predicate Scheduled(s: seq<Slot>, r: seq<Slot>, jiffies: int, next: nat) {
    && (exists m: seq<Slot> :: Awake(s, m, jiffies) && if Exhausted(m) then Recharged(m, r) else r == m)
    && Best(r, next) && next < |r| && (next > 0 ==> r[next].t.counter > 0)
  }

  /** Which sleepers schedule makes runnable: those in an interruptible sleep to whom a signal has come
      that they do not block, or cannot, being SIGKILL or SIGSTOP; an alarm that has expired is SIGALRM.
      Nobody else's state changes. */
  lemma WakesIff(s: seq<Slot>, r: seq<Slot>, jiffies: int, next: nat, i: nat)
    requires Scheduled(s, r, jiffies, next) && 0 < i < |s| && s[i].Used?
    ensures
      var t, rings := s[i].t, s[i].t.alarm != 0 && s[i].t.alarm < jiffies;
      var woken :=
        && t.state == Interruptible
        && ((exists n: nat :: n in t.signal && (n !in t.blocked || n == 9 || n == 19)) || (rings && 14 !in t.blocked));
      && i < |r| && r[i].Used? && r[i].t.state == (if woken then Running else t.state)
      && r[i].t.alarm == (if rings then 0 else t.alarm)
      && r[i].t.signal == (if rings then t.signal + {14} else t.signal)
      && r[i].t.blocked == t.blocked && r[i].t.priority == t.priority
  {
    var u := Alarmed(s[i].t, jiffies);
    var rings := s[i].t.alarm != 0 && s[i].t.alarm < jiffies;
    var pending := u.signal - (u.blocked - {SIGKILL, SIGSTOP});
    if n: nat :| n in s[i].t.signal && (n !in s[i].t.blocked || n == 9 || n == 19) {
      assert n in pending;
    } else if rings && 14 !in s[i].t.blocked {
      assert 14 in pending;
    } else {
      assert pending == {};
    }
  }

  lemma NoticedTame(s: seq<Slot>, r: seq<Slot>, jiffies: int, p: int)
    requires Tame(s, p) && Awake(s, r, jiffies)
    ensures Tame(r, p)
  {}

  /** Half a counter and a priority: the bound 2p - 1 is kept, since (2p - 1) / 2 + p is 2p - 1. */
  lemma RechargeTame(s: seq<Slot>, r: seq<Slot>, p: int)
    requires Tame(s, p) && Recharged(s, r)
    ensures Tame(r, p)
    ensures forall i: nat | 0 < i < |r| && r[i].Used? :: r[i].t.counter > 0
  {}

  lemma ScheduledTame(s: seq<Slot>, r: seq<Slot>, jiffies: int, next: nat, p: int)
    requires Tame(s, p) && Scheduled(s, r, jiffies, next)
    ensures Tame(r, p)
  {
    var m: seq<Slot> :| Awake(s, m, jiffies) && if Exhausted(m) then Recharged(m, r) else r == m;
    NoticedTame(s, m, jiffies, p);
    if Exhausted(m) {
      RechargeTame(m, r, p);
    }
  }

  class Processes {
    const task: array<Slot>
    var current: nat
    var jiffies: int

    constructor (table: array<Slot>)
      requires table.Length == NR_TASKS
      ensures task == table && current == 0 && jiffies == 0
    {
      task, current, jiffies := table, 0, 0;
    }

    /** The pass over alarms and signals. */
    method CheckSignals()
      requires task.Length == NR_TASKS
      modifies task
      ensures Awake(old(task[..]), task[..], jiffies)
    {
      var p: nat := NR_TASKS - 1;
      while p > 0
        invariant p < NR_TASKS
        invariant forall i: nat | i <= p :: task[i] == old(task[i])
        invariant forall i: nat | p < i < NR_TASKS ::
          task[i] == if old(task[i]).Used? then Used(Noticed(old(task[i]).t, jiffies)) else Free
      {
        if task[p].Used? {
          if task[p].t.alarm != 0 && task[p].t.alarm < jiffies {
            task[p] := Used(task[p].t.(signal := task[p].t.signal + {SIGALRM}));
            task[p] := Used(task[p].t.(alarm := 0));
          }
          if Signalled(task[p].t) && task[p].t.state == Interruptible {
            task[p] := Used(task[p].t.(state := Running));
          }
        }
        p := p - 1;
      }
    }

    /** One search: c is the greatest counter of a runnable task, -1 if there is none. */
    method Search() returns (c: int, next: nat)
      requires task.Length == NR_TASKS && forall i: nat | Runnable(task[..], i) :: task[i].t.counter >= 0
      ensures Best(task[..], next) && next < NR_TASKS
      ensures c == if next == 0 then -1 else task[next].t.counter
    {
      ghost var s := task[..];
      c, next := -1, 0;
      var i: nat := NR_TASKS - 1;
      while i > 0
        invariant i < NR_TASKS
        invariant next == 0 ==> c == -1 && forall j: nat | j > i :: !Runnable(s, j)
        invariant next > 0 ==> next > i && Runnable(s, next) && c == s[next].t.counter
        invariant next > 0 ==>
          forall j: nat | j > i && Runnable(s, j) :: s[j].t.counter <= c && (j > next ==> s[j].t.counter < c)
      {
        if task[i].Used? {
          if task[i].t.state == Running && task[i].t.counter > c {
            c, next := task[i].t.counter, i;
          }
        }
        i := i - 1;
      }
    }

    /** New time slices. */
    method RechargeAll()
      requires task.Length == NR_TASKS
      modifies task
      ensures Recharged(old(task[..]), task[..])
    {
      var p: nat := NR_TASKS - 1;
      while p > 0
        invariant p < NR_TASKS
        invariant forall i: nat | i <= p :: task[i] == old(task[i])
        invariant forall i: nat | p < i < NR_TASKS ::
          task[i] == if old(task[i]).Used? then Used(Recharge(old(task[i]).t)) else Free
      {
        if task[p].Used? {
          task[p] := Used(task[p].t.(counter := task[p].t.counter / 2 + task[p].t.priority));
        }
        p := p - 1;
      }
    }

    /** schedule: the loop ends within two rounds. */
    method Schedule(ghost p: int)
      requires Tame(task[..], p)
      modifies this`current, task
      ensures Tame(task[..], p) && Scheduled(old(task[..]), task[..], jiffies, current)
    {
      CheckSignals();
      ghost var m := task[..];
      NoticedTame(old(task[..]), m, jiffies, p);
      ghost var rounds := 0;
      var c, next := 0, 0;
      while true
        invariant rounds <= 1 && Tame(task[..], p)
        invariant rounds == 0 ==> task[..] == m
        invariant rounds == 1 ==> Exhausted(m) && Recharged(m, task[..])
        decreases 1 - rounds
      {
        if rounds == 1 {
          RechargeTame(m, task[..], p);
        }
        c, next := Search();
        if c != 0 {
          break;
        }
        RechargeAll();
        RechargeTame(m, task[..], p);
        rounds := rounds + 1;
      }
      current := next;
      assert rounds == 0 ==> !Exhausted(m);
    }

    /** do_timer's part in scheduling; cpl is 0 when the tick interrupts the kernel. */
    method DoTimer(cpl: nat, ghost p: int)
      requires Tame(task[..], p) && current < NR_TASKS && task[current].Used?
      modifies this, task
      ensures Tame(task[..], p) && jiffies == old(jiffies) + 1
      ensures Ticked(old(task[..]), old(current), task[..], current, jiffies, cpl != 0)
    {
      jiffies := jiffies + 1;
      ghost var s := task[..];
      task[current] := Used(task[current].t.(counter := task[current].t.counter - 1));
      if task[current].t.counter > 0 {
        assert task[..] == Spent(s, current);
        return;
      }
      task[current] := Used(task[current].t.(counter := 0));
      assert task[..] == Spent(s, current);
      if cpl == 0 {
        return;
      }
      Schedule(p);
    }

    /** sys_nice: the priority stays positive; it may become the largest so far. */
    method Nice(increment: int, ghost p: int)
      requires Tame(task[..], p) && current < NR_TASKS && task[current].Used?
      modifies task
      ensures var q := old(task[current].t.priority) - increment; Tame(task[..], if q > p then q else p)
      ensures task[..] == old(task[..])[current := task[current]] && task[current].Used?
      ensures
        var q := old(task[current].t.priority) - increment;
        task[current].t == old(task[current].t).(priority := if q > 0 then q else old(task[current].t.priority))
    {
      if task[current].t.priority - increment > 0 {
        task[current] := Used(task[current].t.(priority := task[current].t.priority - increment));
      }
    }
  }

  // ---------------------------------------------------------------- ticks

  /** The running task has used one tick; its counter stops at zero. */
  function Spent(s: seq<Slot>, c: nat): seq<Slot>
    requires c < |s| && s[c].Used?
  {
    s[c := Used(s[c].t.(counter := if s[c].t.counter > 1 then s[c].t.counter - 1 else 0))]
  }

  /** A clock tick: in user mode a task without time left gives way. */
  ghost predicate Ticked(s: seq<Slot>, c: nat, r: seq<Slot>, next: nat, jiffies: int, user: bool) {
    && c < |s| && s[c].Used?
    && if s[c].t.counter > 1 || !user then r == Spent(s, c) && next == c
       else Scheduled(Spent(s, c), r, jiffies, next)
  }

  datatype Sys = Sys(slots: seq<Slot>, current: nat, jiffies: int)

  datatype Event = UserTick | KernelTick | Yield | Other

  /** Anything else that the running task or an interrupt does: tasks fall asleep, wake up, get
      signals, alarms and priorities, or disappear, but none is created and no counter changes. */
  ghost predicate Quiet(s: Sys, r: Sys) {
    && r.current == s.current && r.jiffies == s.jiffies && |r.slots| == |s.slots|
    && s.current < |s.slots| && r.slots[r.current].Used?
    && forall i: nat | i < |r.slots| && r.slots[i].Used? :: s.slots[i].Used? && r.slots[i].t.counter == s.slots[i].t.counter
  }

  ghost predicate Next(s: Sys, e: Event, r: Sys) {
    match e
    case UserTick => r.jiffies == s.jiffies + 1 && Ticked(s.slots, s.current, r.slots, r.current, r.jiffies, true)
    case KernelTick => r.jiffies == s.jiffies + 1 && Ticked(s.slots, s.current, r.slots, r.current, r.jiffies, false)
    case Yield => r.jiffies == s.jiffies && Scheduled(s.slots, r.slots, s.jiffies, r.current)
    case Other => Quiet(s, r)
  }

  /** The counters of all tasks but t. */
  function Sum(s: seq<Slot>, t: nat, n: nat): int
    requires n <= |s|
  {
    if n == 0 then 0
    else Sum(s, t, n - 1) + if s[n - 1].Used? && n - 1 != t then s[n - 1].t.counter else 0
  }

  predicate OutOfTime(s: Sys) {
    !(s.current < |s.slots| && s.slots[s.current].Used? && s.slots[s.current].t.counter > 0)
  }

  /** How many user ticks the others can have before t is run. */
  function Potential(s: Sys, t: nat): int {
    Sum(s.slots, t, |s.slots|) + if OutOfTime(s) then 1 else 0
  }

  lemma {:induction false} SumLess(s: seq<Slot>, r: seq<Slot>, t: nat, n: nat)
    requires n <= |s| == |r|
    requires forall i: nat | i < n && r[i].Used? && i != t :: s[i].Used? && r[i].t.counter <= s[i].t.counter
    requires forall i: nat | i < n && s[i].Used? :: s[i].t.counter >= 0
    ensures Sum(r, t, n) <= Sum(s, t, n)
  {
    if n > 0 {
      SumLess(s, r, t, n - 1);
    }
  }

  lemma {:induction false} SumNonnegative(s: seq<Slot>, t: nat, n: nat)
    requires n <= |s| && forall i: nat | i < n && s[i].Used? :: s[i].t.counter >= 0
    ensures Sum(s, t, n) >= 0
  {
    if n > 0 {
      SumNonnegative(s, t, n - 1);
    }
  }

  lemma {:induction false} SumSpent(s: seq<Slot>, c: nat, t: nat, n: nat)
    requires n <= |s| && c < |s| && s[c].Used? && c != t && s[c].t.counter >= 0
    ensures Sum(Spent(s, c), t, n) == Sum(s, t, n) - if c < n && s[c].t.counter > 0 then 1 else 0
  {
    if n > 0 {
      SumSpent(s, c, t, n - 1);
    }
  }

  /** While t is runnable and has time left, scheduling recharges nobody and runs a task with time left. */
  lemma ScheduledKeeps(s: seq<Slot>, r: seq<Slot>, jiffies: int, next: nat, t: nat)
    requires Scheduled(s, r, jiffies, next) && Runnable(s, t) && s[t].t.counter > 0 && |s| == NR_TASKS
    ensures |r| == |s| && next > 0 && r[next].t.counter > 0 && r[next].Used?
    ensures forall i: nat | i < |r| :: r[i].Used? == s[i].Used? && (s[i].Used? ==> r[i].t.counter == s[i].t.counter)
  {
    var m: seq<Slot> :| Awake(s, m, jiffies) && if Exhausted(m) then Recharged(m, r) else r == m;
    assert m[t] == Used(Noticed(s[t].t, jiffies));
    assert Runnable(m, t) && m[t].t.counter > 0;
    assert Runnable(r, t);
  }

  /** No event gives the others more time, and every user tick takes some. */
  lemma PotentialStep(s: Sys, e: Event, r: Sys, t: nat, p: int)
    requires Tame(s.slots, p) && Next(s, e, r) && Runnable(s.slots, t) && s.slots[t].t.counter > 0 && s.current != t
    requires Runnable(r.slots, t)
    ensures Potential(r, t) <= Potential(s, t) - if e.UserTick? then 1 else 0
    ensures r.slots[t].t.counter == s.slots[t].t.counter
  {
    match e {
      case Other => SumLess(s.slots, r.slots, t, |s.slots|);
      case Yield =>
        ScheduledKeeps(s.slots, r.slots, s.jiffies, r.current, t);
        SumLess(s.slots, r.slots, t, |s.slots|);
      case KernelTick => SumSpent(s.slots, s.current, t, |s.slots|);
      case UserTick =>
        SumSpent(s.slots, s.current, t, |s.slots|);
        if s.slots[s.current].t.counter <= 1 {
          var m := Spent(s.slots, s.current);
          ScheduledKeeps(m, r.slots, r.jiffies, r.current, t);
          SumLess(m, r.slots, t, |s.slots|);
        }
    }
  }

  // ---------------------------------------------------------------- whole runs

  /** A run: a state before every event and one at the end. */
  ghost predicate Run(states: seq<Sys>, events: seq<Event>, p: int) {
    && |states| == |events| + 1
    && (forall k: nat | k < |states| :: Tame(states[k].slots, p))
    && forall k: nat | k < |events| :: Next(states[k], events[k], states[k + 1])
  }

  function UserTicks(events: seq<Event>): nat {
    if events == [] then 0 else UserTicks(events[..|events| - 1]) + if events[|events| - 1].UserTick? then 1 else 0
  }

  /** t could run all the time but does not. */
  ghost predicate Waits(states: seq<Sys>, t: nat) {
    forall k: nat | k < |states| :: Runnable(states[k].slots, t) && states[k].current != t
  }

  lemma {:induction false} WaitingLowers(states: seq<Sys>, events: seq<Event>, t: nat, p: int)
    requires Run(states, events, p) && Waits(states, t) && states[0].slots[t].t.counter > 0
    ensures UserTicks(events) + Potential(states[|events|], t) <= Potential(states[0], t)
    ensures states[|events|].slots[t].t.counter == states[0].slots[t].t.counter
    decreases |events|
  {
    if events != [] {
      var n := |events| - 1;
      WaitingLowers(states[..n + 1], events[..n], t, p);
      assert states[..n + 1][n] == states[n];
      PotentialStep(states[n], events[n], states[n + 1], t, p);
    }
  }

  /** A runnable task with time left is run before the others have had as many user ticks as their
      counters add up to, and one more if the running task's counter is zero. */
  lemma DispatchedInTime(states: seq<Sys>, events: seq<Event>, t: nat, p: int)
    requires Run(states, events, p) && Waits(states, t) && states[0].slots[t].t.counter > 0
    ensures UserTicks(events) <= Potential(states[0], t)
  {
    WaitingLowers(states, events, t, p);
    SumNonnegative(states[|events|].slots, t, |states[|events|].slots|);
  }

  /** The counters together are at most 64 (2p - 1). */
  lemma {:induction false} PotentialBounded(s: seq<Slot>, t: nat, n: nat, p: int)
    requires Tame(s, p) && n <= |s|
    ensures Sum(s, t, n) <= n * (2 * p - 1)
  {
    if n > 0 {
      PotentialBounded(s, t, n - 1, p);
      assert n * (2 * p - 1) == (n - 1) * (2 * p - 1) + (2 * p - 1);
    }
  }

  /** Ticks and scheduling keep every counter between 0 and 2p - 1. */
  lemma EventTame(s: Sys, e: Event, r: Sys, p: int)
    requires Tame(s.slots, p) && Next(s, e, r) && !e.Other?
    ensures Tame(r.slots, p)
  {
    if e.Yield? {
      ScheduledTame(s.slots, r.slots, s.jiffies, r.current, p);
    } else {
      var m := Spent(s.slots, s.current);
      assert Tame(m, p);
      if e.UserTick? && s.slots[s.current].t.counter <= 1 {
        ScheduledTame(m, r.slots, r.jiffies, r.current, p);
      }
    }
  }

  /** copy_process gives the child a full time slice and its parent's priority. */
  lemma ForkTame(s: seq<Slot>, parent: nat, child: nat, p: int)
    requires Tame(s, p) && parent < |s| && child < |s| && s[parent].Used?
    ensures Tame(s[child := Used(Task(Uninterruptible, s[parent].t.priority, s[parent].t.priority, 0, {}, s[parent].t.blocked))], p)
  {
    var c := Used(Task(Uninterruptible, s[parent].t.priority, s[parent].t.priority, 0, {}, s[parent].t.blocked));
    assert forall i: nat | i < |s| :: s[child := c][i] == if i == child then c else s[i];
  }
}
