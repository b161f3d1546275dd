/**
 kernel/blk_drv/ll_rw_blk.c and blk.h: the 32 request slots, threaded into one queue for each
 major device. Pointers to slots are indices, NULL is -1.
 */
module RequestQueue {
  import opened IndexLists
  import opened Elevator

  const NR_REQUEST: nat := 32
  const NR_BLK_DEV: nat := 7

  /** A slot; dev is -1 when it is free. */
  datatype Request = Request(dev: int, cmd: nat, sector: nat, bh: nat, next: int)

  /** What a request needs to know of a buffer head. */
  datatype Buf = Buf(dev: nat, block: nat, lock: bool, dirt: bool, uptodate: bool)

  function Major(dev: int): int {
    dev / 256
  }

  /** The highest slot a write may use is below this. */
  const WRITE_SLOTS: nat := NR_REQUEST * 2 / 3

  function KeyOf(r: Request): Key
    requires r.dev >= 0
  {
    Key(r.cmd, r.dev, r.sector)
  }

  // ---------------------------------------------------------------- one list

  ghost predicate Link(ss: seq<Request>, q: seq<int>, i: nat)
    requires Within(ss, q) && i < |q|
  {
    ss[q[i]].next == At(q, i + 1)
  }

  /** The list at `first` is q. */
  ghost predicate Linked(ss: seq<Request>, first: int, q: seq<int>) {
    Within(ss, q) && Distinct(q) && first == At(q, 0) && forall i: nat | i < |q| :: Link(ss, q, i)
  }

  function SpliceAt(q: seq<int>, p: nat, b: int): (r: seq<int>)
    requires p < |q|
    ensures |r| == |q| + 1
  {
    q[..p + 1] + [b] + q[p + 1..]
  }

  /** The last two stores of add_request. */
  lemma LinkedSpliced(ss: seq<Request>, first: int, q: seq<int>, p: nat, b: int)
    requires Linked(ss, first, q) && p < |q| && 0 <= b < |ss| && b !in q
    ensures 0 <= q[p] < |ss|
    ensures
      var s1 := ss[b := ss[b].(next := ss[q[p]].next)];
      Linked(s1[q[p] := s1[q[p]].(next := b)], first, SpliceAt(q, p, b))
  {
    var s1 := ss[b := ss[b].(next := ss[q[p]].next)];
    var s2 := s1[q[p] := s1[q[p]].(next := b)];
    var n := SpliceAt(q, p, b);
    assert Link(ss, q, p);
    assert Within(s2, n);
    forall i: nat | i < |n| ensures Link(s2, n, i) {
      if i <= p {
        assert n[i] == q[i] && Link(ss, q, i);
      } else if i > p + 1 {
        assert n[i] == q[i - 1] && Link(ss, q, i - 1);
      }
    }
  }

  /** A list keeps its links when its members do. */
  lemma LinkedElsewhere(ss: seq<Request>, s2: seq<Request>, first: int, q: seq<int>)
    requires Linked(ss, first, q) && |s2| == |ss|
    requires forall i: nat | i < |q| && 0 <= q[i] < |ss| :: s2[q[i]].next == ss[q[i]].next
    ensures Linked(s2, first, q)
  {
    forall i: nat | i < |q| ensures Link(s2, q, i) {
      assert Link(ss, q, i);
    }
  }

  lemma LinkedPopped(ss: seq<Request>, first: int, q: seq<int>)
    requires Linked(ss, first, q) && q != []
    ensures 0 <= first < |ss| && Linked(ss, ss[first].next, q[1..])
  {
    assert Link(ss, q, 0);
    forall i: nat | i < |q[1..]| ensures Link(ss, q[1..], i) {
      assert Link(ss, q, i + 1);
    }
  }

  ghost predicate BusyAll(ss: seq<Request>, q: seq<int>) {
    Within(ss, q) && forall i: nat | i < |q| :: ss[q[i]].dev >= 0 && Small(KeyOf(ss[q[i]]))
  }

  /** The keys of a list, as numbers. */
  ghost function Keys(ss: seq<Request>, q: seq<int>): (ks: seq<int>)
    requires BusyAll(ss, q)
    ensures |ks| == |q| && forall i: nat | i < |q| :: ks[i] == Number(KeyOf(ss[q[i]]))
  {
    if q == [] then [] else [Number(KeyOf(ss[q[0]]))] + Keys(ss, q[1..])
  }

  /** Only command, device and sector matter for the keys. */
  lemma KeysSame(ss: seq<Request>, s2: seq<Request>, q: seq<int>)
    requires BusyAll(ss, q) && |s2| == |ss|
    requires forall i: nat | i < |q| ::
      s2[q[i]].dev == ss[q[i]].dev && s2[q[i]].cmd == ss[q[i]].cmd && s2[q[i]].sector == ss[q[i]].sector
    ensures BusyAll(s2, q) && Keys(s2, q) == Keys(ss, q)
  {
    forall i: nat | i < |q| ensures Keys(s2, q)[i] == Keys(ss, q)[i] {}
  }

  lemma BusySpliced(ss: seq<Request>, q: seq<int>, p: nat, b: int)
    requires BusyAll(ss, q) && p < |q| && 0 <= b < |ss| && ss[b].dev >= 0 && Small(KeyOf(ss[b]))
    ensures BusyAll(ss, SpliceAt(q, p, b))
  {
    var n := SpliceAt(q, p, b);
    forall i: nat | i < |n| ensures 0 <= n[i] < |ss| && ss[n[i]].dev >= 0 && Small(KeyOf(ss[n[i]])) {
      assert n[i] == if i <= p then q[i] else if i == p + 1 then b else q[i - 1];
    }
  }

  lemma KeySpliced(ss: seq<Request>, q: seq<int>, p: nat, b: int, i: nat)
    requires BusyAll(ss, q) && p < |q| && 0 <= b < |ss| && ss[b].dev >= 0 && Small(KeyOf(ss[b])) && i <= |q|
    ensures BusyAll(ss, SpliceAt(q, p, b))
    ensures Keys(ss, SpliceAt(q, p, b))[i] ==
      if i <= p then Keys(ss, q)[i] else if i == p + 1 then Number(KeyOf(ss[b])) else Keys(ss, q)[i - 1]
  {
    hide Number;
    hide Small;
    BusySpliced(ss, q, p, b);
    assert SpliceAt(q, p, b)[i] == if i <= p then q[i] else if i == p + 1 then b else q[i - 1];
  }

  lemma KeysSpliced(ss: seq<Request>, q: seq<int>, b: int)
    requires BusyAll(ss, q) && 0 <= b < |ss| && ss[b].dev >= 0 && Small(KeyOf(ss[b])) && q != []
    ensures
      var r := Number(KeyOf(ss[b]));
      var n := SpliceAt(q, Place(Keys(ss, q), r, 0), b);
      BusyAll(ss, n) && Keys(ss, n) == Insert(Keys(ss, q), r)
  {
    hide Number;
    hide BusyAll;
    var ks, r := Keys(ss, q), Number(KeyOf(ss[b]));
    var p := Place(ks, r, 0);
    BusySpliced(ss, q, p, b);
    var n := Keys(ss, SpliceAt(q, p, b));
    forall i: nat | i < |n| ensures n[i] == Insert(ks, r)[i] {
      InsertAt(ks, r, i);
      KeySpliced(ss, q, p, b, i);
    }
    assert |Insert(ks, r)| == |ks| + 1;
  }

  // ---------------------------------------------------------------- all lists

  /** Slot i is in use: it has a command for a block of a device that its locked buffer carries,
      and a write does not use the slots kept for reads. */
  predicate SlotOk(ss: seq<Request>, bs: seq<Buf>, i: nat)
    requires i < |ss|
  {
    var r := ss[i];
    r.dev >= 0 ==>
      && Major(r.dev) < NR_BLK_DEV && Small(KeyOf(r)) && r.bh < |bs|
      && bs[r.bh].lock && bs[r.bh].dev == r.dev && r.sector / 2 == bs[r.bh].block
      && (r.cmd == WRITE ==> i < WRITE_SLOTS) && (r.cmd == READ ==> !bs[r.bh].uptodate)
  }

  ghost predicate SlotsOk(ss: seq<Request>, bs: seq<Buf>) {
    |ss| == NR_REQUEST && forall i: nat | i < |ss| :: SlotOk(ss, bs, i)
  }

  /** A buffer has at most one request. */
  ghost predicate OneEach(ss: seq<Request>) {
    forall i: nat, j: nat | i < |ss| && j < |ss| && ss[i].dev >= 0 && ss[j].dev >= 0 && ss[i].bh == ss[j].bh :: i == j
  }

  /** No two buffers carry the same block, which the buffer cache guarantees. */
  ghost predicate Unique(bs: seq<Buf>) {
    forall a: nat, b: nat | a < |bs| && b < |bs| && bs[a].dev != 0 && bs[a].dev == bs[b].dev && bs[a].block == bs[b].block :: a == b
  }

  /** The queue of major device m: a list of busy slots in two runs. Only its head may have moved
      on inside its block. */
  ghost predicate QueueOk(ss: seq<Request>, first: int, q: seq<int>, m: nat) {
    && Linked(ss, first, q)
    && BusyAll(ss, q)
    && (forall i: nat | i < |q| :: Major(ss[q[i]].dev) == m && (i > 0 ==> ss[q[i]].sector % 2 == 0))
    && TwoRuns(Keys(ss, q))
  }

  ghost predicate QueuesOk(ss: seq<Request>, cur: seq<int>, qs: seq<seq<int>>) {
    && |cur| == NR_BLK_DEV && |qs| == NR_BLK_DEV
    && forall m: nat | m < NR_BLK_DEV :: QueueOk(ss, cur[m], qs[m], m)
  }

  /** Every busy slot but `out` is in the queue of its device. */
  ghost predicate Filed(ss: seq<Request>, qs: seq<seq<int>>, out: int)
    requires |qs| == NR_BLK_DEV
  {
    forall i: nat | i < |ss| && ss[i].dev >= 0 && Major(ss[i].dev) < NR_BLK_DEV ::
      (i in qs[Major(ss[i].dev)] <==> i != out)
  }

  /** Queued requests have distinct keys: their buffers carry distinct blocks. */
  lemma KeysDistinct(ss: seq<Request>, bs: seq<Buf>, q: seq<int>, i: nat, j: nat)
    requires SlotsOk(ss, bs) && OneEach(ss) && Unique(bs) && i < |ss| && j < |ss|
    requires ss[i].dev > 0 && ss[j].dev > 0
    requires ss[i].dev == ss[j].dev && ss[i].sector / 2 == ss[j].sector / 2
    ensures i == j
  {
    assert SlotOk(ss, bs, i) && SlotOk(ss, bs, j);
  }

  lemma QueueDistinct(ss: seq<Request>, bs: seq<Buf>, first: int, q: seq<int>, m: nat)
    requires SlotsOk(ss, bs) && OneEach(ss) && Unique(bs) && QueueOk(ss, first, q, m) && m > 0
    ensures Distinct(Keys(ss, q))
  {
    var ks := Keys(ss, q);
    forall i: nat, j: nat | i < |q| && j < |q| && ks[i] == ks[j] ensures i == j {
      NumberOrder(KeyOf(ss[q[i]]), KeyOf(ss[q[j]]));
      KeysDistinct(ss, bs, q, q[i], q[j]);
    }
  }

  /** A queue keeps its shape when its members do. */
  lemma QueueKept(ss: seq<Request>, s2: seq<Request>, first: int, q: seq<int>, m: nat)
    requires QueueOk(ss, first, q, m) && |s2| == |ss|
    requires forall i: nat | i < |q| && 0 <= q[i] < |ss| :: s2[q[i]] == ss[q[i]]
    ensures QueueOk(s2, first, q, m)
  {
    LinkedElsewhere(ss, s2, first, q);
    KeysSame(ss, s2, q);
  }

  /** add_request's links, where a list was. */
  function Relinked(ss: seq<Request>, t: int, b: int): seq<Request>
    requires 0 <= t < |ss| && 0 <= b < |ss|
  {
    var s1 := ss[b := ss[b].(next := ss[t].next)];
    s1[t := s1[t].(next := b)]
  }

  lemma SplicedFields(ss: seq<Request>, t: nat, b: nat)
    requires t < |ss| && b < |ss|
    ensures var s2 := Relinked(ss, t, b);
      |s2| == |ss| && forall i: nat | i < |ss| :: s2[i] == ss[i].(next := s2[i].next) && (s2[i] == ss[i] || i == b || i == t)
  {}

  lemma DevicesSpliced(ss: seq<Request>, q: seq<int>, m: nat, p: nat, b: nat)
    requires Within(ss, q) && p < |q| && b < |ss| && Major(ss[b].dev) == m && ss[b].sector % 2 == 0
    requires forall i: nat | i < |q| :: Major(ss[q[i]].dev) == m && (i > 0 ==> ss[q[i]].sector % 2 == 0)
    ensures var n := SpliceAt(q, p, b);
      Within(ss, n) && forall i: nat | i < |n| :: Major(ss[n[i]].dev) == m && (i > 0 ==> ss[n[i]].sector % 2 == 0)
  {
    hide Major;
    var n := SpliceAt(q, p, b);
    forall i: nat | i < |n|
      ensures 0 <= n[i] < |ss| && Major(ss[n[i]].dev) == m && (i > 0 ==> ss[n[i]].sector % 2 == 0)
    {
      assert n[i] == if i <= p then q[i] else if i == p + 1 then b else q[i - 1];
    }
  }

  /** add_request puts the request where the elevator wants it. */
  lemma QueueSpliced(ss: seq<Request>, first: int, q: seq<int>, m: nat, b: nat)
    requires QueueOk(ss, first, q, m) && q != [] && b < |ss| && b !in q && ss[b].dev >= 0 && Small(KeyOf(ss[b]))
    requires Major(ss[b].dev) == m && ss[b].sector % 2 == 0 && Number(KeyOf(ss[b])) !in Keys(ss, q)
    ensures
      var p := Place(Keys(ss, q), Number(KeyOf(ss[b])), 0);
      && 0 <= q[p] < |ss|
      && QueueOk(Relinked(ss, q[p], b), first, SpliceAt(q, p, b), m)
      && Keys(Relinked(ss, q[p], b), SpliceAt(q, p, b)) == Insert(Keys(ss, q), Number(KeyOf(ss[b])))
  {
    hide Number;
    hide Small;
    hide Major;
    hide Insert;
    hide Place;
    hide TwoRuns;
    var r := Number(KeyOf(ss[b]));
    var p := Place(Keys(ss, q), r, 0);
    var n := SpliceAt(q, p, b);
    LinkedSpliced(ss, first, q, p, b);
    KeysSpliced(ss, q, b);
    DevicesSpliced(ss, q, m, p, b);
    EventTwoRuns(Keys(ss, q), Arrive(r));
    SplicedFields(ss, q[p], b);
    KeysSame(ss, Relinked(ss, q[p], b), n);
  }

  /** end_request frees the head. */
  lemma QueuePopped(ss: seq<Request>, first: int, q: seq<int>, m: nat)
    requires QueueOk(ss, first, q, m) && q != []
    ensures 0 <= first < |ss|
    ensures
      var s2 := ss[first := ss[first].(dev := -1)];
      QueueOk(s2, ss[first].next, q[1..], m) && Keys(s2, q[1..]) == Keys(ss, q)[1..]
  {
    var s2 := ss[first := ss[first].(dev := -1)];
    LinkedPopped(ss, first, q);
    LinkedElsewhere(ss, s2, ss[first].next, q[1..]);
    assert BusyAll(ss, q[1..]);
    KeysSame(ss, s2, q[1..]);
    assert Keys(ss, q[1..]) == Keys(ss, q)[1..];
    EventTwoRuns(Keys(ss, q), Complete);
  }

  /** Everything that holds between operations; `out` is a filled slot not yet in its queue. */
  ghost predicate Sound(ss: seq<Request>, cur: seq<int>, bs: seq<Buf>, qs: seq<seq<int>>, out: int) {
    SlotsOk(ss, bs) && OneEach(ss) && Unique(bs) && QueuesOk(ss, cur, qs) && Filed(ss, qs, out)
  }

  /** No request is for buffer x. */
  ghost predicate Unasked(ss: seq<Request>, x: nat) {
    forall i: nat | i < |ss| && ss[i].dev >= 0 :: ss[i].bh != x
  }

  /** An unlocked buffer has no request. */
  lemma UnlockedUnasked(ss: seq<Request>, bs: seq<Buf>, x: nat)
    requires SlotsOk(ss, bs) && x < |bs| && !bs[x].lock
    ensures Unasked(ss, x)
  {
    forall i: nat | i < |ss| && ss[i].dev >= 0 ensures ss[i].bh != x {
      assert SlotOk(ss, bs, i);
    }
  }

  /** The flags of a buffer without a request may change. */
  lemma SoundBuf(ss: seq<Request>, cur: seq<int>, bs: seq<Buf>, qs: seq<seq<int>>, out: int, x: nat, y: Buf)
    requires Sound(ss, cur, bs, qs, out) && x < |bs| && Unasked(ss, x)
    requires y.dev == bs[x].dev && y.block == bs[x].block
    ensures Sound(ss, cur, bs[x := y], qs, out)
  {
    var b2 := bs[x := y];
    forall i: nat | i < |ss| ensures SlotOk(ss, b2, i) {
      assert SlotOk(ss, bs, i);
    }
  }

  /** A queue has no free slot and no slot of another device. */
  lemma NotQueued(ss: seq<Request>, cur: seq<int>, qs: seq<seq<int>>, m: nat, b: nat)
    requires QueuesOk(ss, cur, qs) && m < NR_BLK_DEV && b < |ss| && (ss[b].dev < 0 || Major(ss[b].dev) != m)
    ensures b !in qs[m]
  {
    assert QueueOk(ss, cur[m], qs[m], m);
  }

  lemma SoundFill(ss: seq<Request>, cur: seq<int>, bs: seq<Buf>, qs: seq<seq<int>>, b: nat, r: Request)
    requires Sound(ss, cur, bs, qs, NULL) && b < |ss| && ss[b].dev < 0 && r.dev >= 0
    requires Unasked(ss, r.bh) && SlotOk(ss[b := r], bs, b)
    ensures Sound(ss[b := r], cur, bs, qs, b)
  {
    var s2 := ss[b := r];
    forall i: nat | i < |s2| ensures SlotOk(s2, bs, i) {
      assert SlotOk(ss, bs, i);
    }
    forall m: nat | m < NR_BLK_DEV ensures QueueOk(s2, cur[m], qs[m], m) && b !in qs[m] {
      assert QueueOk(ss, cur[m], qs[m], m);
      NotQueued(ss, cur, qs, m, b);
      QueueKept(ss, s2, cur[m], qs[m], m);
    }
  }

  /** The key of the new request differs from all keys of its queue. */
  lemma FreshKey(ss: seq<Request>, cur: seq<int>, bs: seq<Buf>, qs: seq<seq<int>>, b: nat)
    requires Sound(ss, cur, bs, qs, b) && b < |ss| && ss[b].dev > 0
    ensures Major(ss[b].dev) < NR_BLK_DEV && Small(KeyOf(ss[b]))
    ensures var q := qs[Major(ss[b].dev)];
      BusyAll(ss, q) && b !in q && Number(KeyOf(ss[b])) !in Keys(ss, q)
  {
    assert SlotOk(ss, bs, b);
    var m := Major(ss[b].dev);
    var q := qs[m];
    assert QueueOk(ss, cur[m], q, m);
    forall i: nat | i < |q| ensures Keys(ss, q)[i] != Number(KeyOf(ss[b])) {
      NumberOrder(KeyOf(ss[q[i]]), KeyOf(ss[b]));
      if KeyOf(ss[q[i]]) == KeyOf(ss[b]) {
        KeysDistinct(ss, bs, q, q[i], b);
      }
    }
  }

  /** Queues whose slots do not change stay as they are. */
  lemma OthersKept(ss: seq<Request>, s2: seq<Request>, cur: seq<int>, qs: seq<seq<int>>, m: nat, k: nat)
    requires QueuesOk(ss, cur, qs) && k < NR_BLK_DEV && k != m && |s2| == |ss|
    requires forall i: nat | i < |ss| && s2[i] != ss[i] :: Major(ss[i].dev) == m
    ensures QueueOk(s2, cur[k], qs[k], k)
  {
    assert QueueOk(ss, cur[k], qs[k], k);
    QueueKept(ss, s2, cur[k], qs[k], k);
  }

  lemma SpliceFiled(ss: seq<Request>, s2: seq<Request>, qs: seq<seq<int>>, m: nat, p: nat, b: nat)
    requires |qs| == NR_BLK_DEV && m < NR_BLK_DEV && p < |qs[m]| && b < |ss| && |s2| == |ss|
    requires Filed(ss, qs, b) && Major(ss[b].dev) == m
    requires forall i: nat | i < |ss| :: s2[i].dev == ss[i].dev
    ensures Filed(s2, qs[m := SpliceAt(qs[m], p, b)], NULL)
  {
    SplicedMembers(qs[m], p, b);
  }

  /** add_request behind place p of a queue that is not empty keeps everything, if its own queue is well. */
  lemma SoundSplice(ss: seq<Request>, cur: seq<int>, bs: seq<Buf>, qs: seq<seq<int>>, b: nat, m: nat, p: nat)
    requires Sound(ss, cur, bs, qs, b) && b < |ss| && ss[b].dev >= 0 && Major(ss[b].dev) == m < NR_BLK_DEV
    requires p < |qs[m]| && 0 <= qs[m][p] < |ss|
    requires QueueOk(Relinked(ss, qs[m][p], b), cur[m], SpliceAt(qs[m], p, b), m)
    ensures Sound(Relinked(ss, qs[m][p], b), cur, bs, qs[m := SpliceAt(qs[m], p, b)], NULL)
  {
    assert QueueOk(ss, cur[m], qs[m], m);
    var t := qs[m][p];
    SplicedFields(ss, t, b);
    var s2 := Relinked(ss, t, b);
    forall k: nat | k < NR_BLK_DEV && k != m ensures QueueOk(s2, cur[k], qs[k], k) {
      OthersKept(ss, s2, cur, qs, m, k);
    }
    SlotsRelinked(ss, s2, bs);
    SpliceFiled(ss, s2, qs, m, p, b);
  }

  /** Links do not matter to the slots. */
  lemma SlotsRelinked(ss: seq<Request>, s2: seq<Request>, bs: seq<Buf>)
    requires SlotsOk(ss, bs) && OneEach(ss) && |s2| == |ss|
    requires forall i: nat | i < |ss| :: s2[i] == ss[i].(next := s2[i].next)
    ensures SlotsOk(s2, bs) && OneEach(s2)
  {
    forall i: nat | i < |s2| ensures SlotOk(s2, bs, i) {
      assert SlotOk(ss, bs, i);
    }
  }

  lemma SplicedMembers(q: seq<int>, p: nat, b: int)
    requires p < |q|
    ensures forall x :: x in SpliceAt(q, p, b) <==> x in q || x == b
  {
    var n := SpliceAt(q, p, b);
    assert n[p + 1] == b;
    forall x | x in q ensures x in n {
      var i: nat :| i < |q| && q[i] == x;
      assert n[if i <= p then i else i + 1] == x;
    }
  }

  lemma FirstKeys(ss: seq<Request>, b: nat)
    requires b < |ss| && ss[b].dev >= 0 && Small(KeyOf(ss[b]))
    ensures BusyAll(ss, [b]) && Keys(ss, [b]) == [Number(KeyOf(ss[b]))] && TwoRuns(Keys(ss, [b]))
  {
    assert BusyAll(ss, [b]);
    FirstRuns(Number(KeyOf(ss[b])));
    assert Keys(ss, [b]) == Insert([], Number(KeyOf(ss[b])));
  }

  lemma SoundFirst(ss: seq<Request>, cur: seq<int>, bs: seq<Buf>, qs: seq<seq<int>>, b: nat)
    requires Sound(ss, cur, bs, qs, b) && b < |ss| && ss[b].dev > 0 && ss[b].next == NULL
    requires Major(ss[b].dev) < NR_BLK_DEV && qs[Major(ss[b].dev)] == []
    ensures
      var m := Major(ss[b].dev);
      Sound(ss, cur[m := b], bs, qs[m := [b]], NULL) && BusyAll(ss, [b]) && Keys(ss, [b]) == [Number(KeyOf(ss[b]))]
  {
    hide Number, TwoRuns;
    var m := Major(ss[b].dev);
    assert SlotOk(ss, bs, b);
    FirstKeys(ss, b);
    assert Link(ss, [b], 0) && Within(ss, [b]);
    assert QueueOk(ss, b, [b], m);
    forall k: nat | k < NR_BLK_DEV && k != m ensures QueueOk(ss, cur[k], qs[k], k) {}
  }

  lemma PopFiled(ss: seq<Request>, s2: seq<Request>, first: int, qs: seq<seq<int>>, m: nat)
    requires |qs| == NR_BLK_DEV && m < NR_BLK_DEV && qs[m] != [] && Linked(ss, first, qs[m]) && Filed(ss, qs, NULL)
    requires 0 <= first < |ss| && s2 == ss[first := ss[first].(dev := -1)]
    ensures Filed(s2, qs[m := qs[m][1..]], NULL)
  {
    forall i: nat | i < |s2| && s2[i].dev >= 0 && Major(s2[i].dev) < NR_BLK_DEV
      ensures i in qs[m := qs[m][1..]][Major(s2[i].dev)]
    {
      assert i in qs[Major(ss[i].dev)];
    }
  }

  lemma PopSlots(ss: seq<Request>, bs: seq<Buf>, h: nat)
    requires SlotsOk(ss, bs) && OneEach(ss) && h < |ss| && ss[h].dev >= 0
    ensures var s2 := ss[h := ss[h].(dev := -1)]; SlotsOk(s2, bs) && OneEach(s2) && Unasked(s2, ss[h].bh)
  {
    var s2 := ss[h := ss[h].(dev := -1)];
    forall i: nat | i < |s2| ensures SlotOk(s2, bs, i) {
      assert SlotOk(ss, bs, i);
    }
  }

  /** end_request: the queue loses its head, and the head's buffer is free for a new request. */
  lemma SoundPop(ss: seq<Request>, cur: seq<int>, bs: seq<Buf>, qs: seq<seq<int>>, m: nat, y: Buf)
    requires Sound(ss, cur, bs, qs, NULL) && m < NR_BLK_DEV && qs[m] != []
    requires 0 <= cur[m] < |ss| && ss[cur[m]].bh < |bs|
    requires y.dev == bs[ss[cur[m]].bh].dev && y.block == bs[ss[cur[m]].bh].block
    ensures
      var s2 := ss[cur[m] := ss[cur[m]].(dev := -1)];
      && Sound(s2, cur[m := ss[cur[m]].next], bs[ss[cur[m]].bh := y], qs[m := qs[m][1..]], NULL)
      && BusyAll(ss, qs[m]) && BusyAll(s2, qs[m][1..]) && Keys(s2, qs[m][1..]) == Keys(ss, qs[m])[1..]
      && Unasked(s2, ss[cur[m]].bh)
  {
    var h := cur[m];
    var s2 := ss[h := ss[h].(dev := -1)];
    assert QueueOk(ss, cur[m], qs[m], m);
    QueuePopped(ss, cur[m], qs[m], m);
    assert h == qs[m][0] && ss[qs[m][0]].dev >= 0 && Major(ss[qs[m][0]].dev) == m;
    forall k: nat | k < NR_BLK_DEV && k != m ensures QueueOk(s2, cur[k], qs[k], k) {
      OthersKept(ss, s2, cur, qs, m, k);
    }
    PopSlots(ss, bs, h);
    PopFiled(ss, s2, h, qs, m);
    SoundBuf(s2, cur[m := ss[h].next], bs, qs[m := qs[m][1..]], NULL, ss[h].bh, y);
  }

  // ---------------------------------------------------------------- the driver moves on inside a block

  lemma NextKey(k: Key)
    requires Small(k) && k.sector % 2 == 0
    ensures var n := Key(k.cmd, k.dev, k.sector + 1); Small(n) && Number(n) == Number(k) + 1
    ensures Number(k) % 2 == 0
  {}

  lemma EvenKeys(k: Key)
    ensures Number(k) % 2 == k.sector % 2
  {}

  function Advanced(ss: seq<Request>, h: nat): seq<Request>
    requires h < |ss|
  {
    ss[h := ss[h].(sector := ss[h].sector + 1)]
  }

  lemma KeysAdvanced(ss: seq<Request>, q: seq<int>)
    requires BusyAll(ss, q) && Distinct(q) && q != [] && ss[q[0]].sector % 2 == 0
    ensures BusyAll(Advanced(ss, q[0]), q) && Keys(Advanced(ss, q[0]), q) == Keys(ss, q)[0 := Keys(ss, q)[0] + 1]
  {
    hide Number;
    hide Small;
    var s2 := Advanced(ss, q[0]);
    NextKey(KeyOf(ss[q[0]]));
    assert s2[q[0]] == ss[q[0]].(sector := ss[q[0]].sector + 1);
    assert forall i: nat | 0 < i < |q| :: s2[q[i]] == ss[q[i]];
    assert BusyAll(s2, q);
    forall i: nat | i < |q| ensures Keys(s2, q)[i] == Keys(ss, q)[0 := Keys(ss, q)[0] + 1][i] {}
  }

  lemma LegalAdvanced(ss: seq<Request>, q: seq<int>)
    requires BusyAll(ss, q) && q != [] && forall i: nat | i < |q| :: ss[q[i]].sector % 2 == 0
    ensures Legal(Keys(ss, q), NextSector(Keys(ss, q)[0] + 1))
  {
    hide Number;
    hide Small;
    EvenKeys(KeyOf(ss[q[0]]));
    forall i: nat | i < |q| ensures Keys(ss, q)[i] % 2 == 0 {
      EvenKeys(KeyOf(ss[q[i]]));
    }
  }

  /** The head is at the first sector of its block and goes to the second. */
  lemma RunsAdvanced(ss: seq<Request>, q: seq<int>)
    requires BusyAll(ss, q) && Distinct(q) && q != [] && TwoRuns(Keys(ss, q))
    requires forall i: nat | i < |q| :: ss[q[i]].sector % 2 == 0
    ensures BusyAll(Advanced(ss, q[0]), q) && TwoRuns(Keys(Advanced(ss, q[0]), q))
  {
    hide Number;
    hide Small;
    hide TwoRuns;
    KeysAdvanced(ss, q);
    LegalAdvanced(ss, q);
    hide Legal;
    hide BusyAll;
    EventTwoRuns(Keys(ss, q), NextSector(Keys(ss, q)[0] + 1));
  }

  lemma QueueAdvanced(ss: seq<Request>, first: int, q: seq<int>, m: nat)
    requires QueueOk(ss, first, q, m) && q != []
    requires 0 <= first < |ss| && ss[first].sector % 2 == 0
    ensures QueueOk(Advanced(ss, first), first, q, m)
  {
    hide Number;
    hide Small;
    hide TwoRuns;
    LinkedElsewhere(ss, Advanced(ss, first), first, q);
    hide Link;
    RunsAdvanced(ss, q);
    hide BusyAll;
    hide Distinct;
  }

  lemma SlotsAdvanced(ss: seq<Request>, bs: seq<Buf>, h: nat)
    requires SlotsOk(ss, bs) && OneEach(ss) && h < |ss| && ss[h].sector % 2 == 0
    ensures SlotsOk(Advanced(ss, h), bs) && OneEach(Advanced(ss, h))
  {
    forall i: nat | i < |ss| ensures SlotOk(Advanced(ss, h), bs, i) {
      assert SlotOk(ss, bs, i);
    }
  }

  lemma SoundAdvance(ss: seq<Request>, cur: seq<int>, bs: seq<Buf>, qs: seq<seq<int>>, m: nat)
    requires Sound(ss, cur, bs, qs, NULL) && m < NR_BLK_DEV && qs[m] != []
    requires 0 <= cur[m] < |ss| && ss[cur[m]].sector % 2 == 0
    ensures Sound(Advanced(ss, cur[m]), cur, bs, qs, NULL)
  {
    hide Number;
    hide Small;
    hide TwoRuns;
    hide SlotOk;
    var h := cur[m];
    var s2 := Advanced(ss, h);
    assert QueueOk(ss, h, qs[m], m);
    QueueAdvanced(ss, h, qs[m], m);
    assert h == qs[m][0] && Major(ss[qs[m][0]].dev) == m;
    forall k: nat | k < NR_BLK_DEV && k != m ensures QueueOk(s2, cur[k], qs[k], k) {
      OthersKept(ss, s2, cur, qs, m, k);
    }
    SlotsAdvanced(ss, bs, h);
  }

  // ---------------------------------------------------------------- the operations

  /** What a call of make_request comes to. */
  datatype Outcome =
    | Ignored           // read-ahead or write-ahead of a locked buffer
    | Panicked          // a bad command
    | SleepsOnBuffer    // lock_buffer waits
    | NotNeeded         // nothing to write, or already valid
    | SleepsOnSlots     // the buffer is locked and no slot is free: try again at `repeat`
    | GaveUp            // the same for read-ahead and write-ahead: the buffer is unlocked again
    | Queued(slot: nat)

  /** READ, WRITE and their ahead variants. */
  const READA: nat := 2
  const WRITEA: nat := 3

  class Requests {
    const slots: array<Request>
    const current: array<int>
    const bufs: array<Buf>
    ghost var queues: seq<seq<int>>

    ghost predicate ValidBut(out: int)
      reads this, slots, current, bufs
    {
      && slots != current as object && slots != bufs as object && current != bufs as object
      && Sound(slots[..], current[..], bufs[..], queues, out)
    }

    ghost predicate Valid()
      reads this, slots, current, bufs
    {
      ValidBut(NULL)
    }

    /** The keys of the queue of a device, head first. */
    ghost function KeysOf(m: nat): seq<int>
      requires m < NR_BLK_DEV && m < |queues| && BusyAll(slots[..], queues[m])
      reads this, slots
    {
      Keys(slots[..], queues[m])
    }

    /** blk_dev_init, for buffers that are all unlocked. */
    constructor (bs: array<Buf>)
      requires Unique(bs[..]) && forall b: nat | b < bs.Length :: !bs[b].lock
      ensures Valid() && fresh(slots) && fresh(current) && bufs == bs
      ensures forall i: nat | i < NR_REQUEST :: slots[i].dev == -1
    {
      var ss := new Request[NR_REQUEST];
      var cur := new int[NR_BLK_DEV](_ => NULL);
      slots, current, bufs := ss, cur, bs;
      queues := seq(NR_BLK_DEV, (_: nat) => []);
      new;
      var i := 0;
      while i < NR_REQUEST
        modifies ss
        invariant 0 <= i <= NR_REQUEST && forall j: nat | j < i :: ss[j].dev == -1
      {
        ss[i] := ss[i].(dev := -1);
        ss[i] := ss[i].(next := NULL);
        i := i + 1;
      }
      assert forall m: nat | m < NR_BLK_DEV :: QueueOk(ss[..], cur[..][m], queues[m], m);
    }

    /** The search for an empty slot, from the top; writes start lower. */
    method FindSlot(write: bool) returns (i: int)
      requires Valid()
      ensures -1 <= i < if write then WRITE_SLOTS else NR_REQUEST
      ensures i >= 0 ==> slots[i].dev < 0
      ensures forall j: nat | i < j < if write then WRITE_SLOTS else NR_REQUEST :: slots[j].dev >= 0
    {
      i := if write then WRITE_SLOTS else NR_REQUEST;
      i := i - 1;
      while i >= 0
        invariant -1 <= i < if write then WRITE_SLOTS else NR_REQUEST
        invariant forall j: nat | i < j < if write then WRITE_SLOTS else NR_REQUEST :: slots[j].dev >= 0
      {
        if slots[i].dev < 0 {
          break;
        }
        i := i - 1;
      }
    }

    /** The search loop of add_request. */
    method FindPlace(m: nat, b: nat) returns (tmp: nat, ghost p: nat)
      requires b < slots.Length && m < NR_BLK_DEV && m < current.Length
      requires m < |queues| && queues[m] != [] && Linked(slots[..], current[m], queues[m])
      requires BusyAll(slots[..], queues[m]) && slots[b].dev >= 0 && Small(KeyOf(slots[b]))
      ensures p == Place(KeysOf(m), Number(KeyOf(slots[b])), 0) && tmp == queues[m][p]
    {
      ghost var ss, q := slots[..], queues[m];
      ghost var ks, r := Keys(ss, q), Number(KeyOf(slots[b]));
      tmp, p := current[m], 0;
      while slots[tmp].next != NULL
        invariant p < |q| && tmp == q[p] && Place(ks, r, p) == Place(ks, r, 0)
        decreases |q| - p
      {
        assert Link(ss, q, p);
        var next := slots[tmp].next;
        Order(ss, q, p, b);
        if (InOrder(KeyOf(slots[tmp]), KeyOf(slots[b])) || !InOrder(KeyOf(slots[tmp]), KeyOf(slots[next])))
          && InOrder(KeyOf(slots[b]), KeyOf(slots[next])) {
          break;
        }
        tmp, p := next, p + 1;
      }
      assert Link(ss, q, p);
    }
  
    /** add_request, the queue. The request goes where the elevator wants it. */
    method Enqueue(m: nat, b: nat)
      requires b < slots.Length && m < NR_BLK_DEV && ValidBut(b)
      requires slots[b].dev > 0 && m == Major(slots[b].dev) && slots[b].sector % 2 == 0 && slots[b].next == NULL
      modifies this`queues, slots, current
      ensures Valid() && Joined(old(slots[..]), slots[..], old(queues), queues, m, b)
    {
      hide Number, Small, Place, Insert, SpliceAt, Joined;
      ghost var ss, cur := slots[..], current[..];
      assert QueueOk(ss, cur[m], queues[m], m);
      if current[m] == NULL {
        current[m] := b;
        JoinFirst(ss, cur, bufs[..], queues, m, b);
        queues := queues[m := [b]];
      } else {
        FreshKey(ss, cur, bufs[..], queues, b);
        var tmp, p := FindPlace(m, b);
        JoinBehind(ss, cur, bufs[..], queues, m, b, p);
        slots[b] := slots[b].(next := slots[tmp].next);
        slots[tmp] := slots[tmp].(next := b);
        queues := queues[m := SpliceAt(queues[m], p, b)];
        assert slots[..] == Relinked(ss, tmp, b);
      }
    }

    /** add_request for the filled slot b. */
    method AddRequest(m: nat, b: nat)
      requires b < slots.Length && m < NR_BLK_DEV && ValidBut(b)
      requires slots[b].dev > 0 && m == Major(slots[b].dev) && slots[b].sector % 2 == 0 && slots[b].bh < bufs.Length
      modifies this`queues, slots, current, bufs
      ensures Valid() && Joined(old(slots[..]), slots[..], old(queues), queues, m, b)
      ensures bufs[..] == old(bufs[..])[old(slots[b].bh) := old(bufs[slots[b].bh]).(dirt := false)]
    {
      ghost var ss, bs := slots[..], bufs[..];
      slots[b] := slots[b].(next := NULL);
      AddStart(ss, slots[..], current[..], bs, queues, b);
      bufs[slots[b].bh] := bufs[slots[b].bh].(dirt := false);
      SoundDirt(slots[..], current[..], bs, queues, b, slots[b].bh, false);
      ghost var s1, q1 := slots[..], queues;
      Enqueue(m, b);
      JoinedStart(ss, s1, slots[..], q1, queues, m, b);
    }
  
    /** A locked buffer of a block device that no request is for: what lock_buffer leaves. */
    ghost predicate Ready(bh: nat)
      reads this, slots, bufs
    {
      && bh < bufs.Length && bufs[bh].lock && Unasked(slots[..], bh)
      && 0 < bufs[bh].dev < NR_BLK_DEV * 256 && bufs[bh].block < 0x8000_0000
    }

    method Submit(i: nat, rw: nat, bh: nat)
      requires Valid() && Ready(bh) && rw <= WRITE && (rw == READ ==> !bufs[bh].uptodate)
      requires i < slots.Length && slots[i].dev < 0 && (rw == WRITE ==> i < WRITE_SLOTS)
      modifies this`queues, slots, current, bufs
      ensures Valid()
      ensures Entered(old(slots[..]), slots[..], old(queues), queues, Major(old(bufs[bh].dev)),
                      Number(Key(rw, old(bufs[bh].dev), 2 * old(bufs[bh].block))))
      ensures bufs[..] == old(bufs[..])[bh := old(bufs[bh]).(dirt := false)]
    {
      hide Number;
      hide Insert;
      hide Sound;
      ghost var ss, cur, qs := slots[..], current[..], queues;
      SoundQueues(ss, cur, bufs[..], qs);
      var r := Request(bufs[bh].dev, rw, 2 * bufs[bh].block, bh, NULL);
      Fill(ss, current[..], bufs[..], queues, i, r);
      slots[i] := r;
      assert slots[..] == ss[i := r];
      AddRequest(Major(r.dev), i);
      JoinedEntered(ss, cur, slots[..], qs, queues, Major(r.dev), i, r);
    }

    /** make_request from `repeat` on. A request waits for a slot only when all slots it may use
        are taken. */
    method PlaceRequest(rw: nat, bh: nat, ahead: bool) returns (out: Outcome)
      requires Valid() && Ready(bh) && rw <= WRITE && (rw == READ ==> !bufs[bh].uptodate)
      modifies this`queues, slots, current, bufs
      ensures Valid()
      ensures out.SleepsOnSlots? || out.GaveUp? || out.Queued?
      ensures !out.Queued? ==>
        && (forall i: nat | i < if rw == WRITE then WRITE_SLOTS else NR_REQUEST :: old(slots[i].dev) >= 0)
        && slots[..] == old(slots[..]) && queues == old(queues) && out.GaveUp? == ahead
      ensures out.SleepsOnSlots? ==> bufs[..] == old(bufs[..])
      ensures out.GaveUp? ==> bufs[..] == old(bufs[..])[bh := old(bufs[bh]).(lock := false)]
      ensures out.Queued? ==>
        && Entered(old(slots[..]), slots[..], old(queues), queues, Major(old(bufs[bh].dev)),
                   Number(Key(rw, old(bufs[bh].dev), 2 * old(bufs[bh].block))))
        && bufs[..] == old(bufs[..])[bh := old(bufs[bh]).(dirt := false)]
    {
      var i := FindSlot(rw == WRITE);
      if i >= 0 {
        Submit(i, rw, bh);
        return Queued(i);
      }
      if ahead {
        SoundBuf(slots[..], current[..], bufs[..], queues, NULL, bh, bufs[bh].(lock := false));
        bufs[bh] := bufs[bh].(lock := false);
        return GaveUp;
      }
      return SleepsOnSlots;
    }

    /** make_request up to `repeat`, for one of the four commands; lock_buffer may have to sleep. */
    method MakeRequest(rw: nat, bh: nat) returns (out: Outcome)
      requires Valid() && bh < bufs.Length && 0 < bufs[bh].dev < NR_BLK_DEV * 256 && bufs[bh].block < 0x8000_0000
      modifies this`queues, slots, current, bufs
      ensures Valid()
      ensures out.Panicked? <==> rw > WRITEA
      ensures out.Ignored? <==> rw in {READA, WRITEA} && old(bufs[bh].lock)
      ensures out.SleepsOnBuffer? <==> rw <= WRITE && old(bufs[bh].lock)
      ensures out.NotNeeded? <==>
        (rw <= WRITEA && !old(bufs[bh].lock)
         && if rw % 2 == WRITE then !old(bufs[bh].dirt) else old(bufs[bh].uptodate))
      ensures out.Ignored? || out.SleepsOnBuffer? || out.NotNeeded? || out.Panicked? || out.GaveUp? ==>
        bufs[..] == old(bufs[..]) && queues == old(queues)
      ensures out.SleepsOnSlots? ==> Ready(bh) && rw <= WRITE && queues == old(queues) && slots[..] == old(slots[..])
      ensures out.GaveUp? ==> rw in {READA, WRITEA} && slots[..] == old(slots[..])
      ensures out.SleepsOnSlots? || out.GaveUp? ==>
        forall i: nat | i < if rw % 2 == WRITE then WRITE_SLOTS else NR_REQUEST :: old(slots[i].dev) >= 0
      ensures out.Queued? ==>
        && Entered(old(slots[..]), slots[..], old(queues), queues, Major(old(bufs[bh].dev)),
                   Number(Key(rw % 2, old(bufs[bh].dev), 2 * old(bufs[bh].block))))
        && bufs[bh] == old(bufs[bh]).(lock := true, dirt := false)
      ensures forall b: nat | b < bufs.Length && b != bh :: bufs[b] == old(bufs[b])
    {
      hide Number, Small, Major, Entered, Ready, ValidBut;
      var cmd := rw;
      var ahead := rw == READA || rw == WRITEA;
      if ahead {
        if bufs[bh].lock {
          return Ignored;
        }
        cmd := if rw == READA then READ else WRITE;
      }
      if cmd != READ && cmd != WRITE {
        return Panicked;
      }
      if bufs[bh].lock {
        return SleepsOnBuffer;
      }
      out := LockAndPlace(cmd, bh, ahead);
    }

    /** make_request from lock_buffer on. */
    method LockAndPlace(rw: nat, bh: nat, ahead: bool) returns (out: Outcome)
      requires Valid() && rw <= WRITE && bh < bufs.Length && !bufs[bh].lock
      requires 0 < bufs[bh].dev < NR_BLK_DEV * 256 && bufs[bh].block < 0x8000_0000
      modifies this`queues, slots, current, bufs
      ensures Valid() && (out.NotNeeded? || out.SleepsOnSlots? || out.GaveUp? || out.Queued?)
      ensures out.NotNeeded? <==> if rw == WRITE then !old(bufs[bh].dirt) else old(bufs[bh].uptodate)
      ensures !out.Queued? ==> slots[..] == old(slots[..]) && queues == old(queues)
      ensures out.NotNeeded? || out.GaveUp? ==> bufs[..] == old(bufs[..])
      ensures out.SleepsOnSlots? || out.GaveUp? ==> out.GaveUp? == ahead
      ensures out.SleepsOnSlots? || out.GaveUp? ==>
        forall i: nat | i < if rw == WRITE then WRITE_SLOTS else NR_REQUEST :: old(slots[i].dev) >= 0
      ensures out.SleepsOnSlots? ==> Ready(bh) && bufs[..] == old(bufs[..])[bh := old(bufs[bh]).(lock := true)]
      ensures out.Queued? ==>
        && Entered(old(slots[..]), slots[..], old(queues), queues, Major(old(bufs[bh].dev)),
                   Number(Key(rw, old(bufs[bh].dev), 2 * old(bufs[bh].block))))
        && bufs[..] == old(bufs[..])[bh := old(bufs[bh]).(lock := true, dirt := false)]
    {
      ghost var bs := bufs[..];
      UnlockedUnasked(slots[..], bs, bh);
      SoundBuf(slots[..], current[..], bs, queues, NULL, bh, bs[bh].(lock := true));
      bufs[bh] := bufs[bh].(lock := true);
      if (rw == WRITE && !bufs[bh].dirt) || (rw == READ && bufs[bh].uptodate) {
        SoundBuf(slots[..], current[..], bufs[..], queues, NULL, bh, bufs[bh].(lock := false));
        bufs[bh] := bufs[bh].(lock := false);
        assert bs[bh := bs[bh]] == bs && bufs[..] == bs;
        return NotNeeded;
      }
      out := PlaceRequest(rw, bh, ahead);
      assert out.GaveUp? ==> bs[bh := bs[bh]] == bs && bufs[..] == bs;
    }

    /** end_request for the head of a queue. */
    method EndRequest(m: nat, uptodate: bool)
      requires Valid() && m < NR_BLK_DEV && current[m] != NULL
      modifies this`queues, slots, current, bufs
      ensures Valid() && Popped(old(slots[..]), slots[..], old(queues), queues, m, old(current[m]))
      ensures
        var bh := old(slots[current[m]].bh);
        && bh < bufs.Length && old(bufs[bh].lock)
        && bufs[..] == old(bufs[..])[bh := old(bufs[bh]).(uptodate := uptodate, lock := false)]
    {
      hide Number, Small;
      ghost var ss, cur, bs := slots[..], current[..], bufs[..];
      var h := current[m];
      HeadOk(ss, cur, bs, queues, m);
      var bh := slots[h].bh;
      SoundPop(ss, cur, bs, queues, m, bs[bh].(uptodate := uptodate, lock := false));
      bufs[bh] := bufs[bh].(uptodate := uptodate);
      bufs[bh] := bufs[bh].(lock := false);
      slots[h] := slots[h].(dev := -1);
      current[m] := slots[h].next;
      queues := queues[m := queues[m][1..]];
      assert bufs[..] == bs[bh := bs[bh].(uptodate := uptodate, lock := false)];
      assert slots[..] == ss[h := ss[h].(dev := -1)];
      OthersUntouched(ss, slots[..], cur, old(queues), queues, m);
    }

    /** The driver has transferred the first sector of the head's block. */
    method NextSector(m: nat)
      requires Valid() && m < NR_BLK_DEV && current[m] != NULL && 0 <= current[m] < slots.Length
      requires slots[current[m]].sector % 2 == 0
      modifies slots
      ensures Valid() && Moved(old(slots[..]), slots[..], queues, m)
    {
      ghost var ss, cur := slots[..], current[..];
      var h := current[m];
      HeadOk(ss, cur, bufs[..], queues, m);
      SoundAdvance(ss, cur, bufs[..], queues, m);
      HeadMoved(ss, cur, bufs[..], queues, m);
      slots[h] := slots[h].(sector := slots[h].sector + 1);
      assert slots[..] == Advanced(ss, h);
    }
  }

  lemma HeadOk(ss: seq<Request>, cur: seq<int>, bs: seq<Buf>, qs: seq<seq<int>>, m: nat)
    requires Sound(ss, cur, bs, qs, NULL) && m < NR_BLK_DEV && cur[m] != NULL
    ensures qs[m] != [] && 0 <= cur[m] < |ss| && cur[m] == qs[m][0]
    ensures ss[cur[m]].dev >= 0 && ss[cur[m]].bh < |bs| && bs[ss[cur[m]].bh].lock
  {
    assert QueueOk(ss, cur[m], qs[m], m);
    assert SlotOk(ss, bs, cur[m]);
  }

  /** A request with this key has entered the queue of major device m; other queues are the same. */
  ghost predicate Entered(ss: seq<Request>, s2: seq<Request>, qs: seq<seq<int>>, qs2: seq<seq<int>>, m: int, key: int) {
    && 0 <= m < |qs| && |qs2| == |qs| && BusyAll(ss, qs[m]) && BusyAll(s2, qs2[m])
    && Legal(Keys(ss, qs[m]), Arrive(key)) && Keys(s2, qs2[m]) == Insert(Keys(ss, qs[m]), key)
    && OthersSame(ss, s2, qs, qs2, m)
  }

  /** The queues of the other devices hold the same requests. */
  ghost predicate OthersSame(ss: seq<Request>, s2: seq<Request>, qs: seq<seq<int>>, qs2: seq<seq<int>>, m: int) {
    |qs2| == |qs| && forall k: nat | k < |qs| && k != m ::
      qs2[k] == qs[k] && BusyAll(ss, qs[k]) && BusyAll(s2, qs[k]) && Keys(s2, qs[k]) == Keys(ss, qs[k])
  }

  predicate SameRequest(x: Request, y: Request) {
    x.dev == y.dev && x.cmd == y.cmd && x.sector == y.sector
  }

  lemma OthersUntouched(ss: seq<Request>, s2: seq<Request>, cur: seq<int>, qs: seq<seq<int>>, qs2: seq<seq<int>>, m: nat)
    requires QueuesOk(ss, cur, qs) && |s2| == |ss| && |qs2| == |qs|
    requires forall k: nat | k < |qs| && k != m :: qs2[k] == qs[k]
    requires forall i: nat | i < |ss| && !SameRequest(ss[i], s2[i]) :: ss[i].dev < 0 || Major(ss[i].dev) == m
    ensures OthersSame(ss, s2, qs, qs2, m)
  {
    forall k: nat | k < |qs| && k != m
      ensures BusyAll(ss, qs[k]) && BusyAll(s2, qs[k]) && Keys(s2, qs[k]) == Keys(ss, qs[k])
    {
      assert QueueOk(ss, cur[k], qs[k], k);
      forall i: nat | i < |qs[k]| ensures SameRequest(ss[qs[k][i]], s2[qs[k][i]]) {
        assert 0 <= qs[k][i] < |ss| && Major(ss[qs[k][i]].dev) == k && ss[qs[k][i]].dev >= 0;
      }
      KeysSame(ss, s2, qs[k]);
    }
  }

  lemma JoinedEntered(ss: seq<Request>, cur: seq<int>, s2: seq<Request>, qs: seq<seq<int>>, qs2: seq<seq<int>>, m: nat, b: nat, r: Request)
    requires QueuesOk(ss, cur, qs) && b < |ss| && ss[b].dev < 0 && r.dev >= 0 && Joined(ss[b := r], s2, qs, qs2, m, b)
    requires BusyAll(ss, qs[m]) && Keys(ss[b := r], qs[m]) == Keys(ss, qs[m])
    ensures Entered(ss, s2, qs, qs2, m, Number(KeyOf(r)))
  {
    assert ss[b := r][b] == r;
    OthersUntouched(ss, s2, cur, qs, qs2, m);
  }

  /** The head has left the queue of major device m and its slot h is free; other queues are the same. */
  ghost predicate Popped(ss: seq<Request>, s2: seq<Request>, qs: seq<seq<int>>, qs2: seq<seq<int>>, m: nat, h: int) {
    && m < |qs| && qs[m] != [] && BusyAll(ss, qs[m]) && h == qs[m][0] && s2 == ss[h := ss[h].(dev := -1)]
    && qs2 == qs[m := qs[m][1..]] && OthersSame(ss, s2, qs, qs2, m) && BusyAll(s2, qs2[m]) && Keys(s2, qs2[m]) == Keys(ss, qs[m])[1..]
  }

  /** The head of the queue of major device m has moved to the next sector, short of the next request. */
  ghost predicate Moved(ss: seq<Request>, s2: seq<Request>, qs: seq<seq<int>>, m: nat) {
    && m < |qs| && qs[m] != [] && BusyAll(ss, qs[m]) && BusyAll(s2, qs[m]) && OthersSame(ss, s2, qs, qs, m)
    && Keys(s2, qs[m]) == Keys(ss, qs[m])[0 := Keys(ss, qs[m])[0] + 1]
    && Legal(Keys(ss, qs[m]), NextSector(Keys(ss, qs[m])[0] + 1))
  }

  lemma HeadMoved(ss: seq<Request>, cur: seq<int>, bs: seq<Buf>, qs: seq<seq<int>>, m: nat)
    requires Sound(ss, cur, bs, qs, NULL) && m < NR_BLK_DEV && qs[m] != []
    requires 0 <= cur[m] < |ss| && ss[cur[m]].sector % 2 == 0
    ensures Moved(ss, Advanced(ss, cur[m]), qs, m)
  {
    hide Number;
    hide Small;
    hide TwoRuns;
    assert QueueOk(ss, cur[m], qs[m], m);
    KeysAdvanced(ss, qs[m]);
    LegalAdvanced(ss, qs[m]);
    OthersUntouched(ss, Advanced(ss, cur[m]), cur, qs, qs, m);
  }

  // ---------------------------------------------------------------- how long a request waits

  /** What the arrays and queues hold between two operations. */
  datatype Snapshot = Snapshot(ss: seq<Request>, cur: seq<int>, bs: seq<Buf>, qs: seq<seq<int>>)

  ghost predicate SoundAt(x: Snapshot) {
    Sound(x.ss, x.cur, x.bs, x.qs, NULL)
  }

  /** The keys of the queue of major device m. */
  ghost function KeysAt(x: Snapshot, m: nat): seq<int> {
    if m < |x.qs| && BusyAll(x.ss, x.qs[m]) then Keys(x.ss, x.qs[m]) else []
  }

  /** An operation on the queue of major device m, as the elevator sees it. */
  ghost predicate Does(x: Snapshot, y: Snapshot, m: nat, e: Event) {
    match e
    case Arrive(key) => Entered(x.ss, y.ss, x.qs, y.qs, m, key)
    case NextSector(key) => y.qs == x.qs && Moved(x.ss, y.ss, x.qs, m) && key == KeysAt(x, m)[0] + 1
    case Complete => m < |x.cur| && Popped(x.ss, y.ss, x.qs, y.qs, m, x.cur[m])
  }

  /** es are the operations on the queue of m in the history ts; all others leave it as it is. */
  ghost predicate Happens(ts: seq<Snapshot>, es: seq<Event>, m: nat)
    decreases |ts|
  {
    && ts != [] && SoundAt(ts[0])
    && if |ts| == 1 then es == [] else
         || (KeysAt(ts[1], m) == KeysAt(ts[0], m) && Happens(ts[1..], es, m))
         || (es != [] && Does(ts[0], ts[1], m, es[0]) && Happens(ts[1..], es[1..], m))
  }

  /** In a sound state the queue of a device is one the elevator can have made. */
  lemma QueueGood(x: Snapshot, m: nat)
    requires SoundAt(x) && 0 < m < NR_BLK_DEV
    ensures Good(KeysAt(x, m)) && KeysAt(x, m) == Keys(x.ss, x.qs[m])
  {
    assert QueueOk(x.ss, x.cur[m], x.qs[m], m);
    QueueDistinct(x.ss, x.bs, x.cur[m], x.qs[m], m);
  }

  /** An operation is a legal event of the elevator. */
  lemma DoesEvent(x: Snapshot, y: Snapshot, m: nat, e: Event)
    requires SoundAt(x) && SoundAt(y) && 0 < m < NR_BLK_DEV && Does(x, y, m, e)
    ensures Legal(KeysAt(x, m), e) && KeysAt(y, m) == After(KeysAt(x, m), e) && Distinct(KeysAt(y, m))
  {
    hide Number, Small, Insert, TwoRuns, SoundAt, OthersSame, QueueOk;
    QueueGood(x, m);
    QueueGood(y, m);
  }

  lemma {:induction false} HappensPossible(ts: seq<Snapshot>, es: seq<Event>, m: nat)
    requires Happens(ts, es, m) && 0 < m < NR_BLK_DEV
    ensures Possible(KeysAt(ts[0], m), es)
    decreases |ts|
  {
    if |ts| > 1 {
      if KeysAt(ts[1], m) == KeysAt(ts[0], m) && Happens(ts[1..], es, m) {
        HappensPossible(ts[1..], es, m);
      } else {
        DoesEvent(ts[0], ts[1], m, es[0]);
        HappensPossible(ts[1..], es[1..], m);
      }
    }
  }

  /** However many requests arrive, one at place p of a device's queue sees at most so many others
      completed as there are keys between the head and it, around the turn of the elevator. */
  lemma RequestWaits(ts: seq<Snapshot>, es: seq<Event>, m: nat, d: nat, p: nat)
    requires Happens(ts, es, m) && 0 < m < NR_BLK_DEV
    requires p < |KeysAt(ts[0], m)| && Runs(KeysAt(ts[0], m), d)
    requires (HappensPossible(ts, es, m); StillWaits(KeysAt(ts[0], m), es, p))
    ensures Completions(es) <= Ahead(KeysAt(ts[0], m), d, p)
  {
    QueueGood(ts[0], m);
    HappensPossible(ts, es, m);
    NoStarvation(KeysAt(ts[0], m), es, d, p);
  }

  /** Writes leave eleven slots to reads: when a read finds no slot, at least eleven reads are queued. */
  lemma ReadsKeepSlots(ss: seq<Request>, bs: seq<Buf>)
    requires SlotsOk(ss, bs) && forall i: nat | i < NR_REQUEST :: ss[i].dev >= 0
    ensures forall i: nat | WRITE_SLOTS <= i < NR_REQUEST :: ss[i].dev >= 0 && ss[i].cmd == READ
    ensures NR_REQUEST - WRITE_SLOTS == 11
  {
    forall i: nat | WRITE_SLOTS <= i < NR_REQUEST ensures ss[i].cmd == READ {
      assert SlotOk(ss, bs, i);
    }
  }

  /** Filling a free slot changes no queue. */
  lemma Fill(ss: seq<Request>, cur: seq<int>, bs: seq<Buf>, qs: seq<seq<int>>, b: nat, r: Request)
    requires Sound(ss, cur, bs, qs, NULL) && b < |ss| && ss[b].dev < 0 && 0 < r.dev < NR_BLK_DEV * 256
    requires Unasked(ss, r.bh) && r.bh < |bs| && bs[r.bh].lock && bs[r.bh].dev == r.dev
    requires r.sector == 2 * bs[r.bh].block && bs[r.bh].block < 0x8000_0000 && r.cmd <= WRITE
    requires (r.cmd == WRITE ==> b < WRITE_SLOTS) && (r.cmd == READ ==> !bs[r.bh].uptodate)
    ensures Sound(ss[b := r], cur, bs, qs, b)
    ensures var q := qs[Major(r.dev)];
      BusyAll(ss, q) && BusyAll(ss[b := r], q) && Keys(ss[b := r], q) == Keys(ss, q)
  {
    var s2 := ss[b := r];
    assert SlotOk(s2, bs, b);
    SoundFill(ss, cur, bs, qs, b, r);
    var m := Major(r.dev);
    assert QueueOk(ss, cur[m], qs[m], m);
    NotQueued(ss, cur, qs, m, b);
    KeysSame(ss, s2, qs[m]);
  }

  lemma SoundQueues(ss: seq<Request>, cur: seq<int>, bs: seq<Buf>, qs: seq<seq<int>>)
    requires Sound(ss, cur, bs, qs, NULL)
    ensures QueuesOk(ss, cur, qs)
  {}

  /** Slot b has joined the queue of major device m at the place that the elevator gives it. */
  ghost predicate Joined(ss: seq<Request>, s2: seq<Request>, qs: seq<seq<int>>, qs2: seq<seq<int>>, m: nat, b: nat) {
    && m < |qs| && |qs2| == |qs| && b < |ss| == |s2| && ss[b].dev >= 0
    && (forall i: nat | i < |ss| :: s2[i] == ss[i].(next := s2[i].next))
    && (forall k: nat | k < |qs| && k != m :: qs2[k] == qs[k])
    && BusyAll(ss, qs[m]) && BusyAll(s2, qs2[m])
    && Keys(s2, qs2[m]) == Insert(Keys(ss, qs[m]), Number(KeyOf(ss[b])))
    && Number(KeyOf(ss[b])) !in Keys(ss, qs[m])
    && qs2[m] == if qs[m] == [] then [b] else SpliceAt(qs[m], Place(Keys(ss, qs[m]), Number(KeyOf(ss[b])), 0), b)
  }

  lemma JoinFirst(ss: seq<Request>, cur: seq<int>, bs: seq<Buf>, qs: seq<seq<int>>, m: nat, b: nat)
    requires Sound(ss, cur, bs, qs, b) && b < |ss| && ss[b].dev > 0 && ss[b].next == NULL
    requires m == Major(ss[b].dev) && m < NR_BLK_DEV && cur[m] == NULL
    ensures Sound(ss, cur[m := b], bs, qs[m := [b]], NULL) && Joined(ss, ss, qs, qs[m := [b]], m, b)
  {
    hide Number;
    hide Small;
    assert QueueOk(ss, cur[m], qs[m], m);
    SoundFirst(ss, cur, bs, qs, b);
  }

  lemma JoinBehind(ss: seq<Request>, cur: seq<int>, bs: seq<Buf>, qs: seq<seq<int>>, m: nat, b: nat, p: nat)
    requires Sound(ss, cur, bs, qs, b) && b < |ss| && ss[b].dev > 0 && ss[b].sector % 2 == 0
    requires m == Major(ss[b].dev) && m < NR_BLK_DEV && cur[m] != NULL
    requires BusyAll(ss, qs[m]) && qs[m] != [] && p == Place(Keys(ss, qs[m]), Number(KeyOf(ss[b])), 0)
    ensures 0 <= qs[m][p] < |ss|
    ensures Sound(Relinked(ss, qs[m][p], b), cur, bs, qs[m := SpliceAt(qs[m], p, b)], NULL)
    ensures Joined(ss, Relinked(ss, qs[m][p], b), qs, qs[m := SpliceAt(qs[m], p, b)], m, b)
  {
    hide Number;
    hide Small;
    assert QueueOk(ss, cur[m], qs[m], m);
    hide SlotOk;
    FreshKey(ss, cur, bs, qs, b);
    hide TwoRuns;
    hide Link;
    QueueSpliced(ss, cur[m], qs[m], m, b);
    SoundSplice(ss, cur, bs, qs, b, m, p);
    SplicedFields(ss, qs[m][p], b);
  }

  lemma JoinedStart(ss: seq<Request>, s1: seq<Request>, s2: seq<Request>, qs: seq<seq<int>>, qs2: seq<seq<int>>, m: nat, b: nat)
    requires b < |ss| && s1 == ss[b := ss[b].(next := NULL)] && Joined(s1, s2, qs, qs2, m, b)
    ensures Joined(ss, s2, qs, qs2, m, b)
  {
    hide Number;
    hide Small;
    hide Insert;
    KeysSame(s1, ss, qs[m]);
  }

  /** The next field of the new slot does not matter yet. */
  lemma AddStart(ss: seq<Request>, s2: seq<Request>, cur: seq<int>, bs: seq<Buf>, qs: seq<seq<int>>, b: nat)
    requires Sound(ss, cur, bs, qs, b) && b < |ss| && s2 == ss[b := ss[b].(next := NULL)]
    requires ss[b].dev >= 0 && Major(ss[b].dev) < NR_BLK_DEV
    ensures Sound(s2, cur, bs, qs, b)
  {
    SlotsRelinked(ss, s2, bs);
    forall k: nat | k < NR_BLK_DEV ensures QueueOk(s2, cur[k], qs[k], k) {
      assert QueueOk(ss, cur[k], qs[k], k);
      assert b !in qs[k];
      QueueKept(ss, s2, cur[k], qs[k], k);
    }
  }

  /** b_dirt does not matter to the queues. */
  lemma SoundDirt(ss: seq<Request>, cur: seq<int>, bs: seq<Buf>, qs: seq<seq<int>>, out: int, x: nat, d: bool)
    requires Sound(ss, cur, bs, qs, out) && x < |bs|
    ensures Sound(ss, cur, bs[x := bs[x].(dirt := d)], qs, out)
  {
    var b2 := bs[x := bs[x].(dirt := d)];
    forall i: nat | i < |ss| ensures SlotOk(ss, b2, i) {
      assert SlotOk(ss, bs, i);
    }
  }

  /** IN_ORDER on slots is the order of their keys. */
  lemma Order(ss: seq<Request>, q: seq<int>, p: nat, b: nat)
    requires BusyAll(ss, q) && p + 1 < |q| && b < |ss| && ss[b].dev >= 0 && Small(KeyOf(ss[b]))
    ensures
      var ks := Keys(ss, q);
      var r := Number(KeyOf(ss[b]));
      && (InOrder(KeyOf(ss[q[p]]), KeyOf(ss[b])) <==> ks[p] < r)
      && (InOrder(KeyOf(ss[q[p]]), KeyOf(ss[q[p + 1]])) <==> ks[p] < ks[p + 1])
      && (InOrder(KeyOf(ss[b]), KeyOf(ss[q[p + 1]])) <==> r < ks[p + 1])
  {
    NumberOrder(KeyOf(ss[q[p]]), KeyOf(ss[b]));
    NumberOrder(KeyOf(ss[q[p]]), KeyOf(ss[q[p + 1]]));
    NumberOrder(KeyOf(ss[b]), KeyOf(ss[q[p + 1]]));
  }

  // ---------------------------------------------------------------- reads go before writes

  /** In every queue of a sound state the requests stand in one or two runs, and in a run all reads stand
      before all writes, devices ascend within a command, and sectors within a device. */
  lemma ReadsBeforeWrites(ss: seq<Request>, cur: seq<int>, bs: seq<Buf>, qs: seq<seq<int>>, out: int, m: nat)
    requires Sound(ss, cur, bs, qs, out) && m < NR_BLK_DEV && qs[m] != []
    ensures Within(ss, qs[m]) && exists d: nat :: 0 < d <= |qs[m]| && FieldRuns(ss, qs[m], d)
  {
    hide Number;
    assert QueueOk(ss, cur[m], qs[m], m);
    var d: nat :| Runs(Keys(ss, qs[m]), d);
    RunFields(ss, qs[m], d);
  }

  /** Places i and j belong to one run when the second starts at place d. */
  predicate OneRun(d: nat, i: nat, j: nat) {
    i < j && (j < d || d <= i)
  }

  ghost predicate FieldRuns(ss: seq<Request>, q: seq<int>, d: nat)
    requires Within(ss, q)
  {
    forall i: nat, j: nat | OneRun(d, i, j) && j < |q| ::
      var a, b := ss[q[i]], ss[q[j]];
      && !(a.cmd == WRITE && b.cmd == READ)
      && (a.cmd == b.cmd ==> a.dev <= b.dev && (a.dev == b.dev ==> a.sector < b.sector))
  }

  lemma RunFields(ss: seq<Request>, q: seq<int>, d: nat)
    requires BusyAll(ss, q) && Runs(Keys(ss, q), d)
    ensures FieldRuns(ss, q, d)
  {
    hide Number;
    forall i: nat, j: nat | OneRun(d, i, j) && j < |q|
      ensures
        var a, b := ss[q[i]], ss[q[j]];
        && !(a.cmd == WRITE && b.cmd == READ)
        && (a.cmd == b.cmd ==> a.dev <= b.dev && (a.dev == b.dev ==> a.sector < b.sector))
    {
      assert Keys(ss, q)[i] < Keys(ss, q)[j];
      NumberOrder(KeyOf(ss[q[i]]), KeyOf(ss[q[j]]));
    }
  }

  /** A read that joins a queue goes before every write, unless the elevator has to turn for it, being
      behind the head: then it lets exactly the writes of the first run pass. */
  lemma ReadJoins(ss: seq<Request>, s2: seq<Request>, qs: seq<seq<int>>, qs2: seq<seq<int>>, m: nat, b: nat, d: nat)
    requires Joined(ss, s2, qs, qs2, m, b) && qs[m] != [] && Runs(Keys(ss, qs[m]), d)
    requires ss[b].cmd == READ && Small(KeyOf(ss[b]))
    ensures exists p: nat ::
      && p < |qs[m]| && qs2[m] == SpliceAt(qs[m], p, b)
      && forall k: nat | k < |qs[m]| && ss[qs[m][k]].cmd == WRITE ::
           k <= p <==>
             var head := ss[qs[m][0]];
             && k < d
             && (head.cmd == READ ==>
                   ss[b].dev < head.dev || (ss[b].dev == head.dev && ss[b].sector < head.sector))
  {
    hide Number, Small;
    var q, r := qs[m], Number(KeyOf(ss[b]));
    var p := Place(Keys(ss, q), r, 0);
    HeadOrder(ss, q, b);
    forall k: nat | k < |q| && ss[q[k]].cmd == WRITE ensures k <= p <==> k < d && r < Keys(ss, q)[0] {
      NumberOrder(KeyOf(ss[b]), KeyOf(ss[q[k]]));
      ReadPlace(Keys(ss, q), r, d, p, k);
    }
    hide Runs, Place, Insert;
    assert qs2[m] == SpliceAt(q, p, b);
  }

  /** Whether a read is behind the head. */
  lemma HeadOrder(ss: seq<Request>, q: seq<int>, b: nat)
    requires BusyAll(ss, q) && q != [] && b < |ss| && ss[b].dev >= 0 && ss[b].cmd == READ && Small(KeyOf(ss[b]))
    ensures
      var head := ss[q[0]];
      Number(KeyOf(ss[b])) < Keys(ss, q)[0] <==>
        (head.cmd == READ ==> ss[b].dev < head.dev || (ss[b].dev == head.dev && ss[b].sector < head.sector))
  {
    hide Number;
    NumberOrder(KeyOf(ss[b]), KeyOf(ss[q[0]]));
  }

  /** Where a key stands to a greater one. */
  lemma ReadPlace(ks: seq<int>, r: int, d: nat, p: nat, k: nat)
    requires Runs(ks, d) && r !in ks && p == Place(ks, r, 0) && k < |ks| && r < ks[k]
    ensures k <= p <==> k < d && r < ks[0]
  {
    assert ks[0] in ks;
    PlaceIn(ks, r, 0, d);
    if k < d && ks[0] < r {
      PlaceFirst(ks, r, 0, d);
    }
    assert ks[p] in ks;
  }

  /** What belongs into the first run is put there. */
  lemma {:induction false} PlaceFirst(ks: seq<int>, r: int, i: nat, d: nat)
    requires Runs(ks, d) && r !in ks && i < d && ks[i] < r < ks[d - 1]
    ensures Place(ks, r, i) + 1 < d
    decreases d - i
  {
    assert ks[i + 1] in ks;
    if ks[i + 1] < r {
      PlaceFirst(ks, r, i + 1, d);
    }
  }
}
