/**
 The elevator of kernel/blk_drv: where add_request puts a request, and how long a request can
 wait. A request is ordered by command, device and sector, so its key can be a number.
 */
module Elevator {
  import opened IndexLists

  const READ: nat := 0
  const WRITE: nat := 1

  /** The fields that IN_ORDER compares. */
  datatype Key = Key(cmd: nat, dev: nat, sector: nat)

  /** IN_ORDER */
  predicate InOrder(a: Key, b: Key) {
    a.cmd < b.cmd || (a.cmd == b.cmd && (a.dev < b.dev || (a.dev == b.dev && a.sector < b.sector)))
  }

  /** READ or WRITE, a 16-bit device and a 32-bit sector. */
  predicate Small(k: Key) {
    k.cmd <= WRITE && k.dev < 0x1_0000 && k.sector < 0x1_0000_0000
  }

  /** The place of a key among all keys. */
  function Number(k: Key): nat {
    (k.cmd * 0x1_0000 + k.dev) * 0x1_0000_0000 + k.sector
  }

  /** IN_ORDER is a total order: the order of the numbers. Every read goes before every write; commands
      of one kind for one device go by sector. */
  lemma NumberOrder(a: Key, b: Key)
    requires Small(a) && Small(b)
    ensures InOrder(a, b) <==> Number(a) < Number(b)
    ensures a == b <==> Number(a) == Number(b)
    ensures a.cmd == READ && b.cmd == WRITE ==> InOrder(a, b) && !InOrder(b, a)
    ensures a.cmd == b.cmd && a.dev < b.dev ==> InOrder(a, b) && !InOrder(b, a)
    ensures a.cmd == b.cmd && a.dev == b.dev ==> (InOrder(a, b) <==> a.sector < b.sector)
  {}

  // ---------------------------------------------------------------- the queue

  /** The search of add_request from position i: the new request r goes behind the result. */
  function Place(q: seq<int>, r: int, i: nat): (p: nat)
    requires i < |q|
    ensures i <= p < |q|
    decreases |q| - i
  {
    if i + 1 < |q| && !((q[i] < r || !(q[i] < q[i + 1])) && r < q[i + 1]) then Place(q, r, i + 1) else i
  }

  /** add_request */
  function Insert(q: seq<int>, r: int): seq<int> {
    if q == [] then [r] else
      var p := Place(q, r, 0);
      q[..p + 1] + [r] + q[p + 1..]
  }

  /** q ascends from place lo to place hi. */
  ghost predicate Ascends(q: seq<int>, lo: nat, hi: nat)
    requires hi <= |q|
  {
    forall i: nat, j: nat | lo <= i < j < hi :: q[i] < q[j]
  }

  /** The first run ends after d requests and what is left is one more run. */
  ghost predicate Runs(q: seq<int>, d: nat) {
    && 0 < d <= |q| && Ascends(q, 0, d) && Ascends(q, d, |q|)
    && (d < |q| ==> q[d] < q[d - 1])
  }

  /** At most one descent. */
  ghost predicate TwoRuns(q: seq<int>) {
    q == [] || exists d: nat :: Runs(q, d)
  }

  /** Where r stands in queues of one or two runs. */
  lemma {:induction false} PlaceIn(q: seq<int>, r: int, i: nat, d: nat)
    requires Runs(q, d) && r !in q && i < |q|
    requires i < d ==> r < q[0] || q[i] < r
    requires i >= d ==> q[d] < r && q[i] < r
    ensures var p := Place(q, r, i);
      && (p + 1 < d ==> q[p] < r < q[p + 1])
      && (p + 1 == d < |q| ==> r < q[d])
      && (p + 1 > d ==> q[p] < r && (p + 1 < |q| ==> r < q[p + 1]))
      && (p + 1 == d == |q| ==> r < q[0] || q[p] < r)
    decreases |q| - i
  {
    if i + 1 < |q| && !((q[i] < r || !(q[i] < q[i + 1])) && r < q[i + 1]) {
      PlaceIn(q, r, i + 1, d);
    }
  }

  /** The length of the first run after r joins. */
  ghost function RunAfter(q: seq<int>, r: int, d: nat): nat
    requires q != []
  {
    var p := Place(q, r, 0);
    if p + 1 < d || (p + 1 == |q| && d == |q| && q[p] < r) then d + 1 else d
  }

  lemma InsertAt(q: seq<int>, r: int, k: nat)
    requires q != [] && k <= |q|
    ensures var p := Place(q, r, 0);
      |Insert(q, r)| == |q| + 1
      && Insert(q, r)[k] == if k <= p then q[k] else if k == p + 1 then r else q[k - 1]
  {}

  ghost predicate Spliced(q: seq<int>, r: int, p: nat, n: seq<int>)
    requires p < |q|
  {
    |n| == |q| + 1 && forall k: nat | k < |n| :: n[k] == if k <= p then q[k] else if k == p + 1 then r else q[k - 1]
  }

  lemma SplicedAt(q: seq<int>, r: int, p: nat, n: seq<int>, k: nat)
    requires p < |q| && Spliced(q, r, p, n) && k < |n|
    ensures n[k] == if k <= p then q[k] else if k == p + 1 then r else q[k - 1]
  {}

  lemma InsertSplices(q: seq<int>, r: int)
    requires q != []
    ensures Spliced(q, r, Place(q, r, 0), Insert(q, r))
  {
    forall k: nat | k <= |q|
      ensures var p := Place(q, r, 0); Insert(q, r)[k] == if k <= p then q[k] else if k == p + 1 then r else q[k - 1]
    {
      InsertAt(q, r, k);
    }
  }

  /** A request spliced into the first run. */
  lemma SpliceFirst(q: seq<int>, r: int, p: nat, n: seq<int>, d: nat)
    requires Runs(q, d) && p < d && Spliced(q, r, p, n)
    requires q[p] < r && (p + 1 < d ==> r < q[p + 1])
    ensures Ascends(n, 0, d + 1) && Ascends(n, d + 1, |n|)
    ensures d < |q| && p + 1 < d ==> n[d + 1] < n[d]
  {
    forall i: nat, j: nat | i < j < d + 1 ensures n[i] < n[j] {
      SplicedAt(q, r, p, n, i);
      SplicedAt(q, r, p, n, j);
      assert p > 0 ==> q[0] < q[p];
    }
    forall i: nat, j: nat | d + 1 <= i < j < |n| ensures n[i] < n[j] {
      SplicedAt(q, r, p, n, i);
      SplicedAt(q, r, p, n, j);
    }
  }

  /** A request spliced into the second run, or behind the first. */
  lemma SpliceSecond(q: seq<int>, r: int, p: nat, n: seq<int>, d: nat)
    requires Runs(q, d) && d <= p + 1 && p < |q| && Spliced(q, r, p, n)
    requires p + 1 > d ==> q[p] < r
    requires p + 1 < |q| ==> r < q[p + 1]
    requires p + 1 == d == |q| ==> r < q[p]
    ensures Runs(n, d)
  {
    forall i: nat, j: nat | i < j < d ensures n[i] < n[j] {
      SplicedAt(q, r, p, n, i);
      SplicedAt(q, r, p, n, j);
    }
    forall i: nat, j: nat | d <= i < j < |n| ensures n[i] < n[j] {
      SplicedAt(q, r, p, n, i);
      SplicedAt(q, r, p, n, j);
    }
    SplicedAt(q, r, p, n, d - 1);
    SplicedAt(q, r, p, n, d);
  }

  /** The elevator keeps the queue in at most two runs. */
  lemma InsertRuns(q: seq<int>, r: int, d: nat)
    requires Runs(q, d) && r !in q
    ensures Runs(Insert(q, r), RunAfter(q, r, d))
  {
    var p := Place(q, r, 0);
    PlaceIn(q, r, 0, d);
    InsertSplices(q, r);
    assert q[p] in q;
    if RunAfter(q, r, d) == d + 1 {
      SpliceFirst(q, r, p, Insert(q, r), d);
    } else {
      SpliceSecond(q, r, p, Insert(q, r), d);
    }
  }

  lemma InsertDistinct(q: seq<int>, r: int)
    requires Distinct(q) && r !in q
    ensures Distinct(Insert(q, r))
  {
    if q != [] {
      InsertSplices(q, r);
    }
  }

  // ---------------------------------------------------------------- waiting

  /** How many keys can still be served before the request at place p: those between the head and
      it, or, if it is in the second run, those between the head and the end of the first run and
      those up to it. */
  ghost function Ahead(q: seq<int>, d: nat, p: nat): int
    requires d <= |q| && p < |q| && 0 < d
  {
    if p < d then q[p] - q[0] else q[d - 1] - q[0] + q[p] + 1
  }

  /** What happens to a queue: a request arrives, the driver moves to the next sector of the head,
      or the head is completed. */
  datatype Event = Arrive(r: int) | NextSector(key: int) | Complete

  /** Requests have distinct keys, and the head reaches no other request's key. */
  ghost predicate Legal(q: seq<int>, e: Event) {
    match e
    case Arrive(r) => r >= 0 && r !in q
    case NextSector(key) => q != [] && q[0] <= key && forall i: nat | 0 < i < |q| :: q[0] < q[i] ==> key < q[i]
    case Complete => q != []
  }

  function After(q: seq<int>, e: Event): seq<int>
    requires q == [] ==> e.Arrive?
  {
    match e
    case Arrive(r) => Insert(q, r)
    case NextSector(key) => q[0 := key]
    case Complete => q[1..]
  }

  /** The length of the first run after an event. */
  ghost function RunThen(q: seq<int>, e: Event, d: nat): nat
    requires Legal(q, e) && 0 < d <= |q|
  {
    match e
    case Arrive(r) => RunAfter(q, r, d)
    case NextSector(_) => d
    case Complete => if d > 1 then d - 1 else |q| - 1
  }

  /** The place, after an event, of the request at place p; the completed one has none. */
  function PlaceThen(q: seq<int>, e: Event, p: nat): int
    requires p < |q|
  {
    match e
    case Arrive(r) => if p <= Place(q, r, 0) then p else p + 1
    case NextSector(_) => p
    case Complete => p - 1
  }

  lemma EventRuns(q: seq<int>, e: Event, d: nat)
    requires Legal(q, e) && Runs(q, d) && After(q, e) != []
    ensures Runs(After(q, e), RunThen(q, e, d))
  {
    match e
    case Arrive(r) => InsertRuns(q, r, d);
    case NextSector(_) =>
    case Complete =>
  }

  /** A queue starts with one run. */
  lemma FirstRuns(r: int)
    ensures Runs(Insert([], r), 1)
  {}

  /** An arrival puts nothing in front of a request that was not possible before. */
  lemma ArriveAhead(q: seq<int>, r: int, d: nat, p: nat)
    requires Runs(q, d) && r !in q && p < |q|
    ensures
      var n := Insert(q, r);
      var t := PlaceThen(q, Arrive(r), p);
      var e := RunAfter(q, r, d);
      && t < |n| && 0 < e <= |n| && n[t] == q[p]
      && Ahead(n, e, t) == Ahead(q, d, p)
  {
    var b := Place(q, r, 0);
    InsertRuns(q, r, d);
    InsertSplices(q, r);
    PlaceIn(q, r, 0, d);
    SplicedAt(q, r, b, Insert(q, r), PlaceThen(q, Arrive(r), p));
    SplicedAt(q, r, b, Insert(q, r), 0);
    SplicedAt(q, r, b, Insert(q, r), RunAfter(q, r, d) - 1);
  }

  /** A completion uses one possibility up. */
  lemma CompleteAhead(q: seq<int>, d: nat, p: nat)
    requires Runs(q, d) && 0 < p < |q| && q[p] >= 0 && (d < |q| ==> q[d] >= 0)
    ensures Ahead(q[1..], RunThen(q, Complete, d), p - 1) < Ahead(q, d, p)
  {}

  lemma AheadBounded(q: seq<int>, d: nat, p: nat)
    requires Runs(q, d) && p < |q| && (forall i: nat | i < |q| :: q[i] >= 0)
    ensures Ahead(q, d, p) >= 0
  {}

  /** The keys of a queue, and that it has at most two runs. */
  ghost predicate Good(q: seq<int>) {
    TwoRuns(q) && Distinct(q) && forall i: nat | i < |q| :: q[i] >= 0
  }

  lemma EventTwoRuns(q: seq<int>, e: Event)
    requires TwoRuns(q) && Legal(q, e)
    ensures TwoRuns(After(q, e))
  {
    if q == [] {
      FirstRuns(e.r);
    } else if After(q, e) != [] {
      var d: nat :| Runs(q, d);
      EventRuns(q, e, d);
    }
  }

  lemma EventKeys(q: seq<int>, e: Event)
    requires Distinct(q) && (forall i: nat | i < |q| :: q[i] >= 0)
    requires Legal(q, e) && (e.NextSector? ==> Distinct(After(q, e)))
    ensures Distinct(After(q, e)) && forall i: nat | i < |After(q, e)| :: After(q, e)[i] >= 0
  {
    if e.Arrive? {
      InsertDistinct(q, e.r);
      if q != [] {
        InsertSplices(q, e.r);
      }
    }
  }

  /** Every event keeps the queue in two runs of distinct keys. */
  lemma EventGood(q: seq<int>, e: Event)
    requires Good(q) && Legal(q, e) && (e.NextSector? ==> Distinct(After(q, e)))
    ensures Good(After(q, e))
  {
    EventTwoRuns(q, e);
    EventKeys(q, e);
  }

  // ---------------------------------------------------------------- no starvation

  ghost predicate Possible(q: seq<int>, es: seq<Event>)
    decreases |es|
  {
    es == [] || (Legal(q, es[0]) && (es[0].NextSector? ==> Distinct(After(q, es[0]))) && Possible(After(q, es[0]), es[1..]))
  }

  function Completions(es: seq<Event>): nat {
    if es == [] then 0 else (if es[0].Complete? then 1 else 0) + Completions(es[1..])
  }

  /** The request at place p is still in the queue after the events. */
  ghost predicate StillWaits(q: seq<int>, es: seq<Event>, p: nat)
    requires Possible(q, es) && p < |q|
    decreases |es|
  {
    es == [] || (PlaceThen(q, es[0], p) >= 0 && PlaceThen(q, es[0], p) < |After(q, es[0])|
                 && StillWaits(After(q, es[0]), es[1..], PlaceThen(q, es[0], p)))
  }

  /** Whatever arrives, a request outlasts at most as many completions as there are keys ahead of it. */
  lemma {:induction false} NoStarvation(q: seq<int>, es: seq<Event>, d: nat, p: nat)
    requires Good(q) && Runs(q, d) && p < |q| && Possible(q, es) && StillWaits(q, es, p)
    ensures Completions(es) <= Ahead(q, d, p)
    decreases |es|
  {
    AheadBounded(q, d, p);
    if es != [] {
      var e := es[0];
      EventGood(q, e);
      EventRuns(q, e, d);
      match e {
        case Arrive(r) => ArriveAhead(q, r, d, p);
        case NextSector(_) =>
        case Complete => CompleteAhead(q, d, p);
      }
      NoStarvation(After(q, e), es[1..], RunThen(q, e, d), PlaceThen(q, e, p));
    }
  }
}
