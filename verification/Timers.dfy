/**
 add_timer and do_timer of kernel/sched.c: a list of timers in which each holds the ticks after the
 one before it. The list runs through 64 slots; fn is 0 in a free one. A callback adds no timer.
 */
module Timers {
  import opened IndexLists

  const TIME_REQUESTS: nat := 64

  datatype Timer = Timer(delta: int, fn: nat)

  // ---------------------------------------------------------------- the list

  /** add_timer. The timers behind the new one keep their deltas. */
  function Insert(q: seq<Timer>, ticks: int, fn: nat): seq<Timer> {
    if q != [] && q[0].delta < ticks then [q[0]] + Insert(q[1..], ticks - q[0].delta, fn)
    else [Timer(ticks, fn)] + q
  }

  /** The place that add_timer finds. */
  function Place(q: seq<Timer>, ticks: int): (p: nat)
    ensures p <= |q|
  {
    if q != [] && q[0].delta < ticks then 1 + Place(q[1..], ticks - q[0].delta) else 0
  }

  /** The ticks after which timer k would run. */
  function Due(q: seq<Timer>, k: nat): int
    requires k < |q|
  {
    q[0].delta + if k == 0 then 0 else Due(q[1..], k - 1)
  }

  /** Every delta is positive: no two timers run at the same tick. */
  ghost predicate Positive(q: seq<Timer>) {
    forall k: nat | k < |q| :: q[k].delta > 0
  }

  /** By how much a new timer delays those behind it. */
  function Delay(q: seq<Timer>, ticks: int): int {
    if q != [] && q[0].delta < ticks then Delay(q[1..], ticks - q[0].delta) else ticks
  }

  /** The new timer stands at its place with what is left of its ticks; the others are as before. */
  lemma {:induction false} InsertShape(q: seq<Timer>, ticks: int, fn: nat)
    requires Positive(q) && ticks > 0
    ensures |Insert(q, ticks, fn)| == |q| + 1 && Positive(Insert(q, ticks, fn)) && 0 < Delay(q, ticks) <= ticks
    ensures
      var p := Place(q, ticks);
      Insert(q, ticks, fn) == q[..p] + [Timer(Delay(q, ticks), fn)] + q[p..]
    decreases |q|
  {
    if q != [] && q[0].delta < ticks {
      var p := Place(q, ticks);
      InsertShape(q[1..], ticks - q[0].delta, fn);
      assert q[..p] == [q[0]] + q[1..][..p - 1] && q[p..] == q[1..][p - 1..];
    }
  }

  /** The new timer is due when it was asked to be. The timers before it are due earlier than it and
      keep their time; those behind are not due before it, and all become later by the same
      positive number of ticks. */
  lemma {:induction false} InsertDue(q: seq<Timer>, ticks: int, fn: nat, k: nat)
    requires Positive(q) && ticks > 0 && k <= |q|
    ensures |Insert(q, ticks, fn)| == |q| + 1 && Positive(Insert(q, ticks, fn)) && 0 < Delay(q, ticks) <= ticks
    ensures
      var p, n := Place(q, ticks), Insert(q, ticks, fn);
      && (k < p ==> Due(q, k) < ticks && Due(n, k) == Due(q, k))
      && (k == p ==> Due(n, k) == ticks)
      && (k > p ==> Due(q, k - 1) >= ticks && Due(n, k) == Due(q, k - 1) + Delay(q, ticks))
    decreases |q|
  {
    InsertShape(q, ticks, fn);
    var n := Insert(q, ticks, fn);
    if q != [] && q[0].delta < ticks {
      var t := ticks - q[0].delta;
      InsertDue(q[1..], t, fn, if k == 0 then 0 else k - 1);
      assert n[1..] == Insert(q[1..], t, fn);
    } else {
      assert n[1..] == q;
      if k > 0 {
        DueGrows(q, k - 1);
      }
    }
  }

  lemma {:induction false} DueGrows(q: seq<Timer>, k: nat)
    requires Positive(q) && k < |q|
    ensures Due(q, k) >= q[0].delta && Due(q, k) > k
  {
    if k > 0 {
      DueGrows(q[1..], k - 1);
    }
  }

  /** do_timer's part: at most one timer runs. */
  function Tick(q: seq<Timer>): seq<Timer> {
    if q == [] then []
    else if q[0].delta > 1 then [q[0].(delta := q[0].delta - 1)] + q[1..]
    else q[1..]
  }

  predicate Fires(q: seq<Timer>) {
    q != [] && q[0].delta <= 1
  }

  lemma TickDue(q: seq<Timer>, k: nat)
    requires Positive(q) && k < |q| && (Fires(q) ==> k > 0)
    ensures Positive(Tick(q))
    ensures var j := if Fires(q) then k - 1 else k; j < |Tick(q)| && Due(Tick(q), j) == Due(q, k) - 1 && Due(q, k) > 1
  {
    DueGrows(q, k);
    if !Fires(q) {
      assert Tick(q)[1..] == q[1..];
    }
  }

  // ---------------------------------------------------------------- whole runs

  datatype Event = Add(ticks: int, fn: nat) | Clock

  function After(q: seq<Timer>, e: Event): seq<Timer> {
    match e
    case Add(ticks, fn) => if ticks > 0 then Insert(q, ticks, fn) else q
    case Clock => Tick(q)
  }

  /** Where the timer at place k is after an event; -1 when it has run. */
  function Then(q: seq<Timer>, e: Event, k: nat): int {
    match e
    case Add(ticks, _) => if ticks > 0 && Place(q, ticks) <= k then k + 1 else k
    case Clock => if Fires(q) then k - 1 else k
  }

  /** The timer at place k has not run after the events. */
  predicate Pending(q: seq<Timer>, es: seq<Event>, k: nat)
    decreases |es|
  {
    es == [] || (Then(q, es[0], k) >= 0 && Pending(After(q, es[0]), es[1..], Then(q, es[0], k)))
  }

  function Clocks(es: seq<Event>): nat {
    if es == [] then 0 else (if es[0].Clock? then 1 else 0) + Clocks(es[1..])
  }

  /** By how much the timers added in a run delay the one at place k. */
  function Delays(q: seq<Timer>, es: seq<Event>, k: nat): int
    requires Pending(q, es, k)
    decreases |es|
  {
    if es == [] then 0
    else
      (if es[0].Add? && es[0].ticks > 0 && Place(q, es[0].ticks) <= k then Delay(q, es[0].ticks) else 0) +
      Delays(After(q, es[0]), es[1..], Then(q, es[0], k))
  }

  lemma EventDue(q: seq<Timer>, e: Event, k: nat)
    requires Positive(q) && k < |q| && Then(q, e, k) >= 0
    ensures Positive(After(q, e)) && Then(q, e, k) < |After(q, e)|
    ensures
      Due(After(q, e), Then(q, e, k)) == Due(q, k)
        - (if e.Clock? then 1 else 0)
        + (if e.Add? && e.ticks > 0 && Place(q, e.ticks) <= k then Delay(q, e.ticks) else 0)
    ensures e.Add? && e.ticks > 0 ==> Delay(q, e.ticks) > 0
  {
    match e
    case Add(ticks, fn) =>
      if ticks > 0 {
        InsertDue(q, ticks, fn, if Place(q, ticks) <= k then k + 1 else k);
      }
    case Clock => TickDue(q, k);
  }

  /** A timer never runs before its time, and it is late by exactly the delays that timers put in
      front of it cause: as long as it is pending, fewer clock ticks have passed than it asked for
      and those delays. */
  lemma {:induction false} NeverEarly(q: seq<Timer>, es: seq<Event>, k: nat)
    requires Positive(q) && k < |q| && Pending(q, es, k)
    ensures Clocks(es) < Due(q, k) + Delays(q, es, k)
    ensures Delays(q, es, k) >= 0
    decreases |es|
  {
    if es == [] {
      DueGrows(q, k);
    } else {
      EventDue(q, es[0], k);
      NeverEarly(After(q, es[0]), es[1..], Then(q, es[0], k));
    }
  }

  /** The tick at which it does run: exactly its time and the delays. */
  lemma {:induction false} RunsOnTime(q: seq<Timer>, es: seq<Event>, k: nat)
    requires Positive(q) && k < |q| && es != [] && Pending(q, es[..|es| - 1], k) && !Pending(q, es, k)
    ensures es[|es| - 1].Clock?
    ensures Clocks(es) == Due(q, k) + Delays(q, es[..|es| - 1], k)
    decreases |es|
  {
    var init := es[..|es| - 1];
    if |es| == 1 {
      assert init == [];
      assert Then(q, es[0], k) < 0;
    } else {
      assert init[0] == es[0] && init[1..] == es[1..][..|es[1..]| - 1];
      EventDue(q, es[0], k);
      RunsOnTime(After(q, es[0]), es[1..], Then(q, es[0], k));
    }
  }

  /** No timer is put in front of the one at place k. */
  predicate Unpassed(q: seq<Timer>, es: seq<Event>, k: nat)
    requires Pending(q, es, k)
    decreases |es|
  {
    es == [] || (
      !(es[0].Add? && es[0].ticks > 0 && Place(q, es[0].ticks) <= k) &&
      Unpassed(After(q, es[0]), es[1..], Then(q, es[0], k)))
  }

  /** A timer is exact if and only if no timer was put in front of it while it was pending. */
  lemma {:induction false} ExactIff(q: seq<Timer>, es: seq<Event>, k: nat)
    requires Positive(q) && k < |q| && Pending(q, es, k)
    ensures Delays(q, es, k) == 0 <==> Unpassed(q, es, k)
    decreases |es|
  {
    if es != [] {
      EventDue(q, es[0], k);
      NeverEarly(After(q, es[0]), es[1..], Then(q, es[0], k));
      ExactIff(After(q, es[0]), es[1..], Then(q, es[0], k));
    }
  }

  /** A timer for two ticks, and then one for one tick in front of it: it runs at the third tick. */
  lemma LateTimer()
    ensures
      var q, es := [Timer(2, 1)], [Add(1, 2), Clock, Clock];
      Positive(q) && Due(q, 0) == Clocks(es) == 2 && Pending(q, es, 0) && !Pending(q, es + [Clock], 0)
  {
    var q, es := [Timer(2, 1)], [Add(1, 2), Clock, Clock];
    var q1 := After(q, es[0]);
    assert Place(q, 1) == 0;
    assert q1 == [Timer(1, 2), Timer(2, 1)];
    assert After(q1, Clock) == [Timer(2, 1)];
    assert After([Timer(2, 1)], Clock) == [Timer(1, 1)];
    assert es[1..] == [Clock, Clock] && es[1..][1..] == [Clock];
    assert Clocks([Clock]) == 1 && Clocks([Clock, Clock]) == 2;
    assert Pending([Timer(1, 1)], [], 0) && Pending([Timer(2, 1)], [Clock], 0) && Pending(q1, [Clock, Clock], 1);
    assert (es + [Clock])[1..] == [Clock, Clock, Clock] && [Clock, Clock, Clock][1..] == [Clock, Clock];
    assert [Clock, Clock][1..] == [Clock];
    assert !Pending([Timer(1, 1)], [Clock], 0);
    assert !Pending([Timer(2, 1)], [Clock, Clock], 0);
    assert !Pending(q1, [Clock, Clock, Clock], 1);
  }

  // ---------------------------------------------------------------- the code

  datatype Entry = Entry(jiffies: int, fn: nat, next: int)

  ghost predicate Link(es: seq<Entry>, c: seq<int>, i: nat)
    requires Within(es, c) && i < |c|
  {
    es[c[i]].next == At(c, i + 1) && es[c[i]].fn != 0
  }

  /** A used slot is in the list. */
  ghost predicate UsedIn(es: seq<Entry>, c: seq<int>, s: nat)
    requires s < |es|
  {
    es[s].fn != 0 ==> s in c
  }

  /** The list at `first` runs through the slots c, which are the used ones. */
  ghost predicate Linked(es: seq<Entry>, first: int, c: seq<int>) {
    && Within(es, c) && Distinct(c) && first == At(c, 0)
    && (forall i: nat | i < |c| :: Link(es, c, i))
    && forall s: nat | s < |es| :: UsedIn(es, c, s)
  }

  ghost function TimerAt(es: seq<Entry>, c: seq<int>, i: nat): Timer
    requires Within(es, c) && i < |c|
  {
    Timer(es[c[i]].jiffies, es[c[i]].fn)
  }

  /** The timers in the slots c. */
  ghost function List(es: seq<Entry>, c: seq<int>): (q: seq<Timer>)
    requires Within(es, c)
    ensures |q| == |c| && forall i: nat | i < |c| :: q[i] == TimerAt(es, c, i)
  {
    if c == [] then [] else [Timer(es[c[0]].jiffies, es[c[0]].fn)] + List(es, c[1..])
  }

  /** add_timer's loop has moved the new timer to place i: before it is the start of q, behind it
      the rest, and the search goes on with what is left of its ticks. */
  ghost predicate Moved(q: seq<Timer>, n: seq<Timer>, i: nat, left: int, ticks: int, fn: nat) {
    && i <= |q| && n == q[..i] + [Timer(left, fn)] + q[i..]
    && Insert(q, ticks, fn) == q[..i] + Insert(q[i..], left, fn)
  }

  lemma MovedStart(q: seq<Timer>, ticks: int, fn: nat)
    ensures Moved(q, [Timer(ticks, fn)] + q, 0, ticks, ticks, fn)
  {
    assert q[..0] == [] && q[0..] == q;
  }

  lemma MovedAt(q: seq<Timer>, n: seq<Timer>, i: nat, left: int, ticks: int, fn: nat)
    requires Moved(q, n, i, left, ticks, fn)
    ensures i < |n| == |q| + 1 && n[i] == Timer(left, fn) && (i < |q| ==> n[i + 1] == q[i])
  {}

  lemma MovedOn(q: seq<Timer>, n: seq<Timer>, i: nat, left: int, ticks: int, fn: nat)
    requires Moved(q, n, i, left, ticks, fn) && i < |q| && q[i].delta < left
    ensures i + 1 < |n| && Moved(q, Swapped(n, i), i + 1, left - q[i].delta, ticks, fn)
  {
    assert q[i..][1..] == q[i + 1..] && q[i..][0] == q[i];
    assert q[..i + 1] == q[..i] + [q[i]];
    assert q[..i] + ([q[i]] + Insert(q[i + 1..], left - q[i].delta, fn)) == q[..i + 1] + Insert(q[i + 1..], left - q[i].delta, fn);
  }

  lemma MovedDone(q: seq<Timer>, n: seq<Timer>, i: nat, left: int, ticks: int, fn: nat)
    requires Moved(q, n, i, left, ticks, fn) && (i == |q| || q[i].delta >= left)
    ensures n == Insert(q, ticks, fn)
  {
    assert i < |q| ==> q[i..][0] == q[i];
  }

  class TimerList {
    const slots: array<Entry>
    var nextTimer: int
    ghost var order: seq<int>

    ghost predicate Valid()
      reads this, slots
    {
      Linked(slots[..], nextTimer, order) && Positive(List(slots[..], order))
    }

    ghost function Timers(): seq<Timer>
      requires Valid()
      reads this, slots
    {
      List(slots[..], order)
    }

    constructor ()
      ensures Valid() && fresh(slots) && slots.Length == TIME_REQUESTS && Timers() == []
    {
      slots := new Entry[TIME_REQUESTS](_ => Entry(0, 0, NULL));
      nextTimer, order := NULL, [];
    }

    /** The first free slot, or the end of the array. */
    method FindSlot() returns (p: nat)
      ensures p <= slots.Length && (p < slots.Length ==> slots[p].fn == 0)
      ensures p == slots.Length ==> forall i: nat | i < slots.Length :: slots[i].fn != 0
    {
      p := 0;
      while p < slots.Length && slots[p].fn != 0
        invariant p <= slots.Length && forall i: nat | i < p :: slots[i].fn != 0
      {
        p := p + 1;
      }
    }

    /** The swap of the new timer at place i with the next one. */
    method Swap(p: nat, ghost i: nat)
      requires Linked(slots[..], nextTimer, order) && i + 1 < |order| && p == order[i]
      modifies slots
      ensures Linked(slots[..], nextTimer, order)
      ensures List(slots[..], order) == Swapped(old(List(slots[..], order)), i)
    {
      ghost var es := slots[..];
      SwapOk(es, nextTimer, order, i);
      var next := slots[p].next;
      slots[p] := slots[p].(jiffies := slots[p].jiffies - slots[next].jiffies);
      var fn := slots[p].fn;
      slots[p] := slots[p].(fn := slots[next].fn);
      slots[next] := slots[next].(fn := fn);
      var jiffies := slots[p].jiffies;
      slots[p] := slots[p].(jiffies := slots[next].jiffies);
      slots[next] := slots[next].(jiffies := jiffies);
      assert slots[..] == SwapSlots(es, p);
    }

    /** add_timer. It panics exactly when all slots are used; a timer for now runs at once. */
    method AddTimer(jiffies: int, fn: nat) returns (panicked: bool, ran: bool)
      requires Valid()
      modifies this, slots
      ensures panicked <==> fn != 0 && jiffies > 0 && forall i: nat | i < slots.Length :: old(slots[i].fn) != 0
      ensures ran <==> fn != 0 && jiffies <= 0
      ensures Valid()
      ensures Timers() == if fn != 0 && jiffies > 0 && !panicked then Insert(old(Timers()), jiffies, fn) else old(Timers())
    {
      panicked, ran := false, false;
      if fn == 0 {
        return;
      }
      if jiffies <= 0 {
        ran := true;
        return;
      }
      var p := FindSlot();
      if p >= slots.Length {
        panicked := true;
        return;
      }
      ghost var q := Timers();
      Insertion(p, jiffies, fn);
    }

    /** The new timer goes to the front of the list. */
    method Prepend(p: nat, jiffies: int, fn: nat)
      requires Linked(slots[..], nextTimer, order) && p < slots.Length && slots[p].fn == 0 && fn != 0
      modifies this, slots
      ensures Linked(slots[..], nextTimer, order) && order == [p] + old(order)
      ensures List(slots[..], order) == [Timer(jiffies, fn)] + old(List(slots[..], order))
    {
      ghost var es := slots[..];
      slots[p] := slots[p].(fn := fn);
      slots[p] := slots[p].(jiffies := jiffies);
      slots[p] := slots[p].(next := nextTimer);
      nextTimer := p;
      Pushed(es, slots[..], order, p);
      order := [p] + order;
    }

    /** Whether the timer behind place i comes earlier than the one there. */
    method EarlierNext(p: nat, ghost i: nat) returns (b: bool)
      requires Linked(slots[..], nextTimer, order) && i < |order| && p == order[i]
      ensures b <==> i + 1 < |order| && List(slots[..], order)[i + 1].delta < List(slots[..], order)[i].delta
      ensures b ==> slots[p].next == order[i + 1]
    {
      assert Link(slots[..], order, i) && List(slots[..], order)[i] == TimerAt(slots[..], order, i);
      assert i + 1 < |order| ==> List(slots[..], order)[i + 1] == TimerAt(slots[..], order, i + 1);
      b := slots[p].next != NULL && slots[slots[p].next].jiffies < slots[p].jiffies;
    }

    /** One round: the new timer changes places with the next one. */
    method Pass(p: nat, ghost q: seq<Timer>, ghost i: nat, ghost left: int, ghost jiffies: int, ghost fn: nat) returns (next: nat)
      requires Linked(slots[..], nextTimer, order) && i < |q| && |order| == |q| + 1 && p == order[i]
      requires Moved(q, List(slots[..], order), i, left, jiffies, fn) && slots[p].next == order[i + 1]
      requires List(slots[..], order)[i + 1].delta < List(slots[..], order)[i].delta
      modifies slots
      ensures Linked(slots[..], nextTimer, order) && next == order[i + 1]
      ensures Moved(q, List(slots[..], order), i + 1, left - q[i].delta, jiffies, fn)
    {
      hide Moved, Insert, TimerAt;
      ghost var n := List(slots[..], order);
      MovedAt(q, n, i, left, jiffies, fn);
      MovedOn(q, n, i, left, jiffies, fn);
      next := slots[p].next;
      Swap(p, i);
    }

    method Insertion(slot: nat, jiffies: int, fn: nat)
      requires Valid() && slot < slots.Length && slots[slot].fn == 0 && jiffies > 0 && fn != 0
      modifies this, slots
      ensures Valid() && Timers() == Insert(old(Timers()), jiffies, fn)
    {
      hide Link;
      hide UsedIn;
      hide Distinct;
      hide Insert;
      hide Moved;
      hide TimerAt;
      ghost var q := Timers();
      var p := slot;
      Prepend(p, jiffies, fn);
      ghost var i: nat := 0;
      ghost var left := jiffies;
      MovedStart(q, jiffies, fn);
      var more := EarlierNext(p, 0);
      while more
        invariant i < |order| == |q| + 1 && p == order[i] && Linked(slots[..], nextTimer, order)
        invariant Moved(q, List(slots[..], order), i, left, jiffies, fn)
        invariant more <==> (i < |q| && List(slots[..], order)[i + 1].delta < List(slots[..], order)[i].delta)
        invariant more ==> slots[p].next == order[i + 1]
        decreases |q| - i
      {
        p := Pass(p, q, i, left, jiffies, fn);
        left := left - q[i].delta;
        i := i + 1;
        more := EarlierNext(p, i);
      }
      MovedAt(q, List(slots[..], order), i, left, jiffies, fn);
      MovedDone(q, List(slots[..], order), i, left, jiffies, fn);
      InsertDue(q, jiffies, fn, 0);
    }

    /** The first timer leaves the list. */
    method Fire() returns (fn: nat)
      requires Linked(slots[..], nextTimer, order) && nextTimer != NULL
      modifies this`nextTimer, this`order, slots
      ensures Linked(slots[..], nextTimer, order) && old(List(slots[..], order)) != []
      ensures List(slots[..], order) == old(List(slots[..], order))[1..] && fn == old(List(slots[..], order))[0].fn
    {
      ghost var es := slots[..];
      Popped(es, es[nextTimer := es[nextTimer].(fn := 0)], order);
      fn := slots[nextTimer].fn;
      slots[nextTimer] := slots[nextTimer].(fn := 0);
      assert slots[..] == es[nextTimer := es[nextTimer].(fn := 0)];
      nextTimer := slots[nextTimer].next;
      order := order[1..];
    }

    /** The first timer is one tick nearer. */
    method Decrement()
      requires Linked(slots[..], nextTimer, order) && nextTimer != NULL
      modifies slots
      ensures Linked(slots[..], nextTimer, order) && old(List(slots[..], order)) != []
      ensures List(slots[..], order) == Nearer(old(List(slots[..], order)))
    {
      ghost var es := slots[..];
      NearerOk(es, order);
      slots[nextTimer] := slots[nextTimer].(jiffies := slots[nextTimer].jiffies - 1);
      assert slots[..] == es[nextTimer := es[nextTimer].(jiffies := es[nextTimer].jiffies - 1)];
    }

    /** do_timer's part: the callbacks that run, never more than one. */
    method DoTimer() returns (ran: seq<nat>)
      requires Valid()
      modifies this`nextTimer, this`order, slots
      ensures Valid() && Timers() == Tick(old(Timers()))
      ensures ran == if Fires(old(Timers())) then [old(Timers())[0].fn] else []
    {
      ran := [];
      ghost var q := Timers();
      if nextTimer == NULL {
        return;
      }
      Decrement();
      ghost var first := true;
      while nextTimer != NULL && slots[nextTimer].jiffies <= 0
        invariant Linked(slots[..], nextTimer, order)
        invariant first ==> List(slots[..], order) == Nearer(q) && ran == []
        invariant !first ==> Fires(q) && List(slots[..], order) == q[1..] && ran == [q[0].fn]
        decreases if first then 1 else 0
      {
        assert List(slots[..], order)[0] == TimerAt(slots[..], order, 0);
        var fn := Fire();
        ran := ran + [fn];
        first := false;
      }
      assert nextTimer != NULL ==> List(slots[..], order)[0] == TimerAt(slots[..], order, 0);
    }
  }

  function Nearer(q: seq<Timer>): seq<Timer> {
    if q == [] then [] else q[0 := q[0].(delta := q[0].delta - 1)]
  }

  lemma NearerOk(es: seq<Entry>, c: seq<int>)
    requires c != [] && Linked(es, c[0], c)
    ensures var e2 := es[c[0] := es[c[0]].(jiffies := es[c[0]].jiffies - 1)];
      Linked(e2, c[0], c) && List(e2, c) == Nearer(List(es, c))
  {
    var e2 := es[c[0] := es[c[0]].(jiffies := es[c[0]].jiffies - 1)];
    forall i: nat | i < |c| ensures Link(e2, c, i) && List(e2, c)[i] == Nearer(List(es, c))[i] {
      assert Link(es, c, i) && List(es, c)[i] == TimerAt(es, c, i) && List(e2, c)[i] == TimerAt(e2, c, i);
    }
    forall s: nat | s < |e2| ensures UsedIn(e2, c, s) {
      assert UsedIn(es, c, s);
    }
  }

  function Swapped(n: seq<Timer>, i: nat): seq<Timer>
    requires i + 1 < |n|
  {
    n[i := n[i + 1]][i + 1 := Timer(n[i].delta - n[i + 1].delta, n[i].fn)]
  }

  function SwapSlots(es: seq<Entry>, p: nat): seq<Entry>
    requires p < |es| && 0 <= es[p].next < |es|
  {
    var x, y := es[p], es[es[p].next];
    es[p := x.(jiffies := y.jiffies, fn := y.fn)][x.next := y.(jiffies := x.jiffies - y.jiffies, fn := x.fn)]
  }

  lemma SwapOk(es: seq<Entry>, first: int, c: seq<int>, i: nat)
    requires Linked(es, first, c) && i + 1 < |c|
    ensures 0 <= c[i] < |es| && es[c[i]].next == c[i + 1] && 0 <= c[i + 1] < |es| && c[i] != c[i + 1]
    ensures Linked(SwapSlots(es, c[i]), first, c)
    ensures List(SwapSlots(es, c[i]), c) == Swapped(List(es, c), i)
  {
    assert Link(es, c, i) && Link(es, c, i + 1);
    var e2 := SwapSlots(es, c[i]);
    forall k: nat | k < |c| ensures Link(e2, c, k) && List(e2, c)[k] == Swapped(List(es, c), i)[k] {
      assert Link(es, c, k) && List(e2, c)[k] == TimerAt(e2, c, k) && List(es, c)[k] == TimerAt(es, c, k);
      assert List(es, c)[i] == TimerAt(es, c, i) && List(es, c)[i + 1] == TimerAt(es, c, i + 1);
    }
    forall s: nat | s < |e2| ensures UsedIn(e2, c, s) {
      assert UsedIn(es, c, s);
    }
  }

  lemma Pushed(es: seq<Entry>, e2: seq<Entry>, c: seq<int>, s: nat)
    requires s < |es| && es[s].fn == 0 && Linked(es, At(c, 0), c)
    requires |e2| == |es| && e2[s].fn != 0 && e2[s].next == At(c, 0) && forall i: nat | i < |es| && i != s :: e2[i] == es[i]
    ensures Linked(e2, s, [s] + c) && List(e2, [s] + c) == [Timer(e2[s].jiffies, e2[s].fn)] + List(es, c)
  {
    var d := [s] + c;
    forall i: nat | i < |c| ensures c[i] != s {
      assert Link(es, c, i);
    }
    assert Within(e2, d);
    forall i: nat | i < |d| ensures Link(e2, d, i) && (i > 0 ==> List(e2, d)[i] == List(es, c)[i - 1]) {
      assert List(e2, d)[i] == TimerAt(e2, d, i);
      if i > 0 {
        assert Link(es, c, i - 1) && List(es, c)[i - 1] == TimerAt(es, c, i - 1);
      }
    }
    forall k: nat | k < |e2| ensures UsedIn(e2, d, k) {
      assert d[0] == s && UsedIn(es, c, k);
    }
  }

  lemma Popped(es: seq<Entry>, e2: seq<Entry>, c: seq<int>)
    requires c != [] && Linked(es, c[0], c) && e2 == es[c[0] := es[c[0]].(fn := 0)]
    ensures Linked(e2, es[c[0]].next, c[1..]) && List(e2, c[1..]) == List(es, c)[1..]
  {
    var d := c[1..];
    assert Link(es, c, 0);
    forall i: nat | i < |d| ensures Link(e2, d, i) && List(e2, d)[i] == List(es, c)[i + 1] {
      assert Link(es, c, i + 1) && List(es, c)[i + 1] == TimerAt(es, c, i + 1) && List(e2, d)[i] == TimerAt(e2, d, i);
    }
    forall k: nat | k < |e2| ensures UsedIn(e2, d, k) {
      assert UsedIn(es, c, k);
    }
  }
}
