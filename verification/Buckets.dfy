/**
 The data of lib/malloc.c: bucket descriptors in chains, and in every bucket page a list of free
 objects that runs through the objects themselves. An address is a number, NULL is 0; a pointer to
 a descriptor is an index, NULL is -1.
 */
module Buckets {
  import opened IndexLists

  const PAGE_SIZE: nat := 4096
  const BUCKETS: nat := 9
  const DESCS_PER_PAGE: nat := 256

  datatype Desc = Desc(page: nat, next: int, freeptr: nat, refcnt: nat, size: nat)

  /** bucket_dir's sizes. */
  function SizeOf(b: nat): nat
    requires b < BUCKETS
  {
    [16, 32, 64, 128, 256, 512, 1024, 2048, 4096][b]
  }

  predicate IsSize(n: nat) {
    n in {16, 32, 64, 128, 256, 512, 1024, 2048, 4096}
  }

  /** Objects in a page. */
  function Slots(size: nat): nat
    requires size > 0
  {
    PAGE_SIZE / size
  }

  /** The k-th object of a bucket page. */
  function Addr(d: Desc, k: nat): nat {
    d.page + k * d.size
  }

  predicate PageOk(d: Desc, words: nat) {
    IsSize(d.size) && d.page > 0 && d.page % PAGE_SIZE == 0 && d.page + PAGE_SIZE <= 4 * words
  }

  /** Objects lie inside their page, on word boundaries. */
  lemma AddrInside(d: Desc, words: nat, k: nat)
    requires PageOk(d, words) && k < Slots(d.size)
    ensures d.page <= Addr(d, k) && Addr(d, k) + d.size <= d.page + PAGE_SIZE
    ensures Addr(d, k) % 4 == 0 && Addr(d, k) / 4 < words && Addr(d, k) / PAGE_SIZE == d.page / PAGE_SIZE
  {}

  /** Two objects of a page do not overlap. */
  lemma AddrApart(d: Desc, j: nat, k: nat)
    requires j < k && IsSize(d.size)
    ensures Addr(d, j) + d.size <= Addr(d, k)
  {
    var n := d.size;
    if n == 16 {
    } else if n == 32 {
    } else if n == 64 {
    } else if n == 128 {
    } else if n == 256 {
    } else if n == 512 {
    } else if n == 1024 {
    } else if n == 2048 {
    }
  }

  // ---------------------------------------------------------------- the free objects of one page

  function FreeAt(d: Desc, fl: seq<nat>, i: nat): nat {
    if i < |fl| then Addr(d, fl[i]) else 0
  }

  ghost predicate FreeLink(mem: seq<nat>, d: Desc, fl: seq<nat>, i: nat)
    requires i < |fl|
  {
    Addr(d, fl[i]) / 4 < |mem| && mem[Addr(d, fl[i]) / 4] == FreeAt(d, fl, i + 1)
  }

  /** The free objects of the page are fl, in that order, and the list ends. */
  ghost predicate FreeList(mem: seq<nat>, d: Desc, fl: seq<nat>) {
    && d.freeptr == FreeAt(d, fl, 0) && Distinct(fl)
    && forall i: nat | i < |fl| :: IsSize(d.size) && fl[i] < Slots(d.size) && FreeLink(mem, d, fl, i)
  }

  /** A descriptor of a page in use: what is handed out and what is free make up the page. */
  ghost predicate DescOk(mem: seq<nat>, d: Desc, fl: seq<nat>) {
    PageOk(d, |mem|) && FreeList(mem, d, fl) && d.refcnt + |fl| == Slots(d.size)
  }

  /** An object is handed out. */
  predicate LiveSlot(d: Desc, fl: seq<nat>, k: nat) {
    d.size > 0 && k < Slots(d.size) && k !in fl
  }

  lemma OtherWord(d: Desc, words: nat, j: nat, k: nat)
    requires PageOk(d, words) && j < Slots(d.size) && k < Slots(d.size) && j != k
    ensures Addr(d, j) / 4 != Addr(d, k) / 4
  {
    AddrInside(d, words, j);
    AddrInside(d, words, k);
    AddrApart(d, if j < k then j else k, if j < k then k else j);
  }

  /** malloc takes the first free object. */
  lemma PopOk(mem: seq<nat>, d: Desc, fl: seq<nat>)
    requires DescOk(mem, d, fl) && d.freeptr != 0
    ensures fl != [] && d.freeptr == Addr(d, fl[0]) && d.freeptr / 4 < |mem|
    ensures DescOk(mem, d.(freeptr := mem[d.freeptr / 4], refcnt := d.refcnt + 1), fl[1..])
    ensures LiveSlot(d, fl[1..], fl[0]) && !LiveSlot(d, fl, fl[0])
  {
    var e := d.(freeptr := mem[d.freeptr / 4], refcnt := d.refcnt + 1);
    assert FreeLink(mem, d, fl, 0);
    forall i: nat | i < |fl[1..]| ensures FreeLink(mem, e, fl[1..], i) {
      assert FreeLink(mem, d, fl, i + 1);
    }
  }

  /** Writing a word that is not the link of a free object leaves the list alone. */
  lemma WordOk(mem: seq<nat>, d: Desc, fl: seq<nat>, w: nat, v: nat)
    requires DescOk(mem, d, fl) && w < |mem| && forall i: nat | i < |fl| :: Addr(d, fl[i]) / 4 != w
    ensures DescOk(mem[w := v], d, fl)
  {
    var m2 := mem[w := v];
    forall i: nat | i < |fl| ensures FreeLink(m2, d, fl, i) {
      assert FreeLink(mem, d, fl, i);
    }
  }

  lemma FreeElsewhere(mem: seq<nat>, d: Desc, fl: seq<nat>, k: nat)
    requires DescOk(mem, d, fl) && LiveSlot(d, fl, k)
    ensures Addr(d, k) / 4 < |mem| && d.refcnt > 0
    ensures forall i: nat | i < |fl| :: Addr(d, fl[i]) / 4 != Addr(d, k) / 4
  {
    AddrInside(d, |mem|, k);
    hide Addr;
    forall i: nat | i < |fl| ensures Addr(d, fl[i]) / 4 != Addr(d, k) / 4 {
      OtherWord(d, |mem|, fl[i], k);
    }
    hide Slots;
    assert Distinct(fl + [k]);
    Counted(fl + [k], Slots(d.size));
  }

  /** free_s puts an object in front. */
  lemma PushOk(mem: seq<nat>, d: Desc, fl: seq<nat>, k: nat)
    requires DescOk(mem, d, fl) && LiveSlot(d, fl, k)
    ensures d.refcnt > 0 && Addr(d, k) / 4 < |mem|
    ensures DescOk(mem[Addr(d, k) / 4 := d.freeptr], d.(freeptr := Addr(d, k), refcnt := d.refcnt - 1), [k] + fl)
  {
    FreeElsewhere(mem, d, fl, k);
    var w := Addr(d, k) / 4;
    var e := d.(freeptr := Addr(d, k), refcnt := d.refcnt - 1);
    WordOk(mem, d, fl, w, d.freeptr);
    var m2 := mem[w := d.freeptr];
    assert forall j: nat :: Addr(e, j) == Addr(d, j);
    hide Addr;
    hide Slots;
    forall i: nat | i < |[k] + fl| ensures FreeLink(m2, e, [k] + fl, i) {
      if i > 0 {
        assert FreeLink(m2, d, fl, i - 1);
      }
    }
  }

  /** Different numbers below n are at most n. */
  lemma {:induction false} Counted(c: seq<nat>, n: nat)
    requires Distinct(c) && forall i: nat | i < |c| :: c[i] < n
    ensures |c| <= n
    decreases n
  {
    if c != [] {
      assert c[0] < n;
      if n - 1 in c {
        var p: nat :| p < |c| && c[p] == n - 1;
        Counted(c[..p] + c[p + 1..], n - 1);
      } else {
        Counted(c, n - 1);
      }
    }
  }

  // ---------------------------------------------------------------- lists of descriptors

  ghost predicate Link(ds: seq<Desc>, c: seq<int>, i: nat)
    requires Within(ds, c) && i < |c|
  {
    ds[c[i]].next == At(c, i + 1)
  }

  ghost predicate Linked(ds: seq<Desc>, first: int, c: seq<int>) {
    Within(ds, c) && Distinct(c) && first == At(c, 0) && forall i: nat | i < |c| :: Link(ds, c, i)
  }

  lemma LinkedElsewhere(ds: seq<Desc>, d2: seq<Desc>, first: int, c: seq<int>)
    requires Linked(ds, first, c) && |d2| >= |ds|
    requires forall i: nat | i < |c| && 0 <= c[i] < |ds| :: d2[c[i]].next == ds[c[i]].next
    ensures Linked(d2, first, c)
  {
    forall i: nat | i < |c| ensures Link(d2, c, i) {
      assert Link(ds, c, i);
    }
  }

  lemma LinkedTail(ds: seq<Desc>, first: int, c: seq<int>)
    requires Linked(ds, first, c) && c != []
    ensures 0 <= first < |ds| && Linked(ds, ds[first].next, c[1..]) && first !in c[1..]
  {
    assert Link(ds, c, 0);
    forall i: nat | i < |c[1..]| ensures Link(ds, c[1..], i) {
      assert Link(ds, c, i + 1);
    }
  }

  lemma LinkedPush(ds: seq<Desc>, first: int, c: seq<int>, d: nat, x: Desc)
    requires Linked(ds, first, c) && d < |ds| && d !in c && x.next == first
    ensures Linked(ds[d := x], d, [d] + c)
  {
    var d2 := ds[d := x];
    assert Within(d2, [d] + c);
    forall i: nat | i < |[d] + c| ensures Link(d2, [d] + c, i) {
      if i > 0 {
        assert Link(ds, c, i - 1);
      }
    }
  }

  /** Unlinking behind a predecessor. */
  lemma LinkedUnlink(ds: seq<Desc>, first: int, c: seq<int>, p: nat)
    requires Linked(ds, first, c) && 0 < p < |c|
    ensures 0 <= c[p - 1] < |ds| && 0 <= c[p] < |ds|
    ensures Linked(ds[c[p - 1] := ds[c[p - 1]].(next := ds[c[p]].next)], first, Drop(c, p))
  {
    var d2 := ds[c[p - 1] := ds[c[p - 1]].(next := ds[c[p]].next)];
    var r := Drop(c, p);
    assert Link(ds, c, p) && Link(ds, c, p - 1);
    assert Within(d2, r);
    forall i: nat | i < |r| ensures Link(d2, r, i) {
      assert Link(ds, c, if i < p then i else i + 1);
    }
  }

  // ---------------------------------------------------------------- the heap

  /** Where a descriptor is: on the list of unused ones, or in the chain of a bucket. */
  const UNUSED: int := -1

  /** Every descriptor is in exactly the list that `where` says. */
  ghost predicate Filed(n: nat, where: seq<int>, chains: seq<seq<int>>, free: seq<int>) {
    && |where| == n && |chains| == BUCKETS
    && (forall d: nat | d < n :: UNUSED <= where[d] < BUCKETS)
    && (forall d: nat | d < n :: d in free <==> where[d] == UNUSED)
    && (forall d: nat, b: nat | d < n && b < BUCKETS :: d in chains[b] <==> where[d] == b)
  }

  ghost predicate Chained(ds: seq<Desc>, chain: seq<int>, freeDesc: int, chains: seq<seq<int>>, free: seq<int>) {
    && |chain| == |chains| == BUCKETS && Linked(ds, freeDesc, free)
    && forall b: nat | b < BUCKETS :: Linked(ds, chain[b], chains[b])
  }

  /** A descriptor in a chain has a page of its bucket's size; all but `out` have an object
      handed out. */
  ghost predicate UsedOk(ds: seq<Desc>, mem: seq<nat>, where: seq<int>, lists: seq<seq<nat>>, out: int, d: nat)
    requires d < |ds| && |where| == |ds| && |lists| == |ds|
  {
    0 <= where[d] < BUCKETS ==>
      DescOk(mem, ds[d], lists[d]) && ds[d].size == SizeOf(where[d]) && (d != out ==> ds[d].refcnt > 0)
  }

  ghost predicate OwnPages(ds: seq<Desc>, where: seq<int>)
    requires |where| == |ds|
  {
    forall d: nat, e: nat | d < |ds| && e < |ds| && where[d] >= 0 && where[e] >= 0 && ds[d].page == ds[e].page :: d == e
  }

  ghost predicate Pages(ds: seq<Desc>, mem: seq<nat>, where: seq<int>, lists: seq<seq<nat>>, out: int) {
    && |where| == |ds| && |lists| == |ds| && OwnPages(ds, where)
    && (forall d: nat | d < |ds| :: where[d] < BUCKETS)
    && forall d: nat | d < |ds| :: UsedOk(ds, mem, where, lists, out, d)
  }

  /** What the program has, and the lists that its pointers form. */
  datatype Heap = Heap(descs: seq<Desc>, chain: seq<int>, freeDesc: int, mem: seq<nat>)
  datatype Lists = Lists(chains: seq<seq<int>>, free: seq<int>, where: seq<int>, objects: seq<seq<nat>>)

  ghost predicate SoundBut(h: Heap, g: Lists, out: int) {
    && Filed(|h.descs|, g.where, g.chains, g.free)
    && Chained(h.descs, h.chain, h.freeDesc, g.chains, g.free)
    && Pages(h.descs, h.mem, g.where, g.objects, out)
  }

  ghost predicate Sound(h: Heap, g: Lists) {
    SoundBut(h, g, NULL)
  }

  /** Object k of descriptor d is handed out. */
  ghost predicate LiveObject(h: Heap, g: Lists, d: nat, k: nat) {
    && d < |h.descs| && |g.where| == |h.descs| && |g.objects| == |h.descs|
    && g.where[d] >= 0 && LiveSlot(h.descs[d], g.objects[d], k)
  }

  /** a is the address of an object of n bytes that is handed out. */
  ghost predicate Live(h: Heap, g: Lists, a: int, n: nat) {
    exists d: nat, k: nat :: LiveObject(h, g, d, k) && a == Addr(h.descs[d], k) && n == h.descs[d].size
  }

  /** Objects that are handed out do not overlap. */
  lemma LiveApart(h: Heap, g: Lists, a: int, n: nat, b: int, m: nat)
    requires Sound(h, g) && Live(h, g, a, n) && Live(h, g, b, m)
    ensures a > 0 && n > 0
    ensures (a == b && n == m) || a + n <= b || b + m <= a
  {
    var d: nat, k: nat :| LiveObject(h, g, d, k) && a == Addr(h.descs[d], k) && n == h.descs[d].size;
    var e: nat, j: nat :| LiveObject(h, g, e, j) && b == Addr(h.descs[e], j) && m == h.descs[e].size;
    assert UsedOk(h.descs, h.mem, g.where, g.objects, NULL, d) && UsedOk(h.descs, h.mem, g.where, g.objects, NULL, e);
    AddrInside(h.descs[d], |h.mem|, k);
    AddrInside(h.descs[e], |h.mem|, j);
    if d == e {
      if k != j {
        AddrApart(h.descs[d], if k < j then k else j, if k < j then j else k);
      }
    } else {
      PagesApart(h.descs[d].page, h.descs[e].page);
    }
  }

  lemma PagesApart(p: nat, q: nat)
    requires p % PAGE_SIZE == 0 && q % PAGE_SIZE == 0 && p != q
    ensures p + PAGE_SIZE <= q || q + PAGE_SIZE <= p
  {}

  // ---------------------------------------------------------------- steps

  /** The free list of a page does not see words of other pages. */
  lemma OtherPage(mem: seq<nat>, m2: seq<nat>, d: Desc, fl: seq<nat>)
    requires DescOk(mem, d, fl) && |m2| == |mem|
    requires forall w: nat | w < |mem| && w / 1024 == d.page / PAGE_SIZE :: m2[w] == mem[w]
    ensures DescOk(m2, d, fl)
  {
    forall i: nat | i < |fl| ensures FreeLink(m2, d, fl, i) {
      assert FreeLink(mem, d, fl, i);
      AddrInside(d, |mem|, fl[i]);
    }
  }

  /** The list of descriptor d and its words change, nothing else. */
  lemma PagesStep(h: Heap, g: Lists, out: int, d: nat, x: Desc, m2: seq<nat>, fl: seq<nat>, newOut: int)
    requires Pages(h.descs, h.mem, g.where, g.objects, out) && d < |h.descs| && g.where[d] >= 0
    requires x.page == h.descs[d].page && x.size == h.descs[d].size && DescOk(m2, x, fl)
    requires |m2| == |h.mem| && out in {NULL, d} && newOut in {NULL, d} && (newOut == NULL ==> x.refcnt > 0)
    requires forall w: nat | w < |m2| && w / 1024 != x.page / PAGE_SIZE :: m2[w] == h.mem[w]
    ensures Pages(h.descs[d := x], m2, g.where, g.objects[d := fl], newOut)
  {
    var ds := h.descs[d := x];
    var lists := g.objects[d := fl];
    assert UsedOk(h.descs, h.mem, g.where, g.objects, out, d);
    forall e: nat | e < |ds| ensures UsedOk(ds, m2, g.where, lists, newOut, e) {
      assert UsedOk(h.descs, h.mem, g.where, g.objects, out, e);
      if e != d && g.where[e] >= 0 {
        OtherPageNumber(h.descs[e].page, h.descs[d].page);
        OtherPage(h.mem, m2, h.descs[e], g.objects[e]);
      }
    }
  }

  lemma OtherPageNumber(p: nat, q: nat)
    requires p % PAGE_SIZE == 0 && q % PAGE_SIZE == 0 && p != q
    ensures p / PAGE_SIZE != q / PAGE_SIZE
  {}

  lemma ChainedStep(h: Heap, g: Lists, d: nat, x: Desc)
    requires Chained(h.descs, h.chain, h.freeDesc, g.chains, g.free) && d < |h.descs| && x.next == h.descs[d].next
    ensures Chained(h.descs[d := x], h.chain, h.freeDesc, g.chains, g.free)
  {
    LinkedElsewhere(h.descs, h.descs[d := x], h.freeDesc, g.free);
    forall b: nat | b < BUCKETS ensures Linked(h.descs[d := x], h.chain[b], g.chains[b]) {
      LinkedElsewhere(h.descs, h.descs[d := x], h.chain[b], g.chains[b]);
    }
  }

  /** Taking the first free object of descriptor d. */
  function Popped(h: Heap, d: nat): Heap
    requires d < |h.descs| && h.descs[d].freeptr / 4 < |h.mem|
  {
    var x := h.descs[d];
    h.(descs := h.descs[d := x.(freeptr := h.mem[x.freeptr / 4], refcnt := x.refcnt + 1)])
  }

  lemma PopSound(h: Heap, g: Lists, out: int, d: nat)
    requires SoundBut(h, g, out) && d < |h.descs| && g.where[d] >= 0 && h.descs[d].freeptr != 0 && out in {NULL, d}
    ensures g.objects[d] != [] && h.descs[d].freeptr / 4 < |h.mem|
    ensures Sound(Popped(h, d), g.(objects := g.objects[d := g.objects[d][1..]]))
  {
    assert UsedOk(h.descs, h.mem, g.where, g.objects, out, d);
    PopOk(h.mem, h.descs[d], g.objects[d]);
    var x := h.descs[d].(freeptr := h.mem[h.descs[d].freeptr / 4], refcnt := h.descs[d].refcnt + 1);
    PagesStep(h, g, out, d, x, h.mem, g.objects[d][1..], NULL);
    ChainedStep(h, g, d, x);
  }

  /** Then exactly one more object is handed out, and it was free. */
  lemma PopLive(h: Heap, g: Lists, out: int, d: nat, a: int, n: nat)
    requires SoundBut(h, g, out) && d < |h.descs| && g.where[d] >= 0 && h.descs[d].freeptr != 0
    requires g.objects[d] != [] && h.descs[d].freeptr / 4 < |h.mem|
    ensures
      var h2, g2 := Popped(h, d), g.(objects := g.objects[d := g.objects[d][1..]]);
      Live(h2, g2, a, n) <==> Live(h, g, a, n) || (a == h.descs[d].freeptr && n == h.descs[d].size)
  {
    var h2, g2 := Popped(h, d), g.(objects := g.objects[d := g.objects[d][1..]]);
    assert UsedOk(h.descs, h.mem, g.where, g.objects, out, d);
    PopOk(h.mem, h.descs[d], g.objects[d]);
    var k := g.objects[d][0];
    assert LiveObject(h2, g2, d, k);
    assert forall e: nat, j: nat :: e < |h.descs| ==> Addr(h2.descs[e], j) == Addr(h.descs[e], j);
    hide Addr;
    forall e: nat, j: nat ensures LiveObject(h2, g2, e, j) <==> LiveObject(h, g, e, j) || (e == d && j == k) {
      if e == d {
        assert g.objects[d] == [k] + g.objects[d][1..];
      }
    }
    if Live(h, g, a, n) {
      var e: nat, j: nat :| LiveObject(h, g, e, j) && a == Addr(h.descs[e], j) && n == h.descs[e].size;
      assert LiveObject(h2, g2, e, j);
    }
  }

  lemma PopWasFree(h: Heap, g: Lists, out: int, d: nat, n: nat)
    requires SoundBut(h, g, out) && d < |h.descs| && g.where[d] >= 0 && h.descs[d].freeptr != 0
    ensures !Live(h, g, h.descs[d].freeptr, n)
  {
    assert UsedOk(h.descs, h.mem, g.where, g.objects, out, d);
    PopOk(h.mem, h.descs[d], g.objects[d]);
    var k := g.objects[d][0];
    if Live(h, g, h.descs[d].freeptr, n) {
      var e: nat, j: nat :| LiveObject(h, g, e, j) && h.descs[d].freeptr == Addr(h.descs[e], j) && n == h.descs[e].size;
      assert UsedOk(h.descs, h.mem, g.where, g.objects, out, e);
      AddrInside(h.descs[d], |h.mem|, k);
      AddrInside(h.descs[e], |h.mem|, j);
      if e != d {
        OtherPageNumber(h.descs[e].page, h.descs[d].page);
      } else if j != k {
        AddrApart(h.descs[d], if k < j then k else j, if k < j then j else k);
      }
      assert false;
    }
  }

  // ---------------------------------------------------------------- a fresh page

  function Upto(n: nat): (c: seq<nat>)
    ensures |c| == n && forall i: nat | i < n :: c[i] == i
  {
    if n == 0 then [] else Upto(n - 1) + [n - 1]
  }

  ghost predicate ThreadAt(mem: seq<nat>, d: Desc, k: nat)
    requires d.size > 0
  {
    Addr(d, k) / 4 < |mem| && mem[Addr(d, k) / 4] == if k + 1 < Slots(d.size) then Addr(d, k + 1) else 0
  }

  /** The links that malloc writes into a fresh page of d. */
  ghost predicate Threaded(mem: seq<nat>, d: Desc) {
    PageOk(d, |mem|) && forall k: nat | k < Slots(d.size) :: ThreadAt(mem, d, k)
  }

  lemma ThreadedOk(mem: seq<nat>, d: Desc)
    requires Threaded(mem, d) && d.freeptr == d.page && d.refcnt == 0
    ensures DescOk(mem, d, Upto(Slots(d.size))) && d.freeptr != 0
  {
    var n := Slots(d.size);
    var fl := Upto(n);
    assert n > 0 && Addr(d, 0) == d.page;
    forall i: nat | i < |fl| ensures FreeLink(mem, d, fl, i) {
      assert fl[i] == i && ThreadAt(mem, d, i);
    }
  }

  /** No page in a chain is this one: what get_free_page returns. */
  ghost predicate Fresh(h: Heap, g: Lists, page: nat) {
    && page > 0 && page % PAGE_SIZE == 0 && page + PAGE_SIZE <= 4 * |h.mem| && |g.where| == |h.descs|
    && forall d: nat | d < |h.descs| && g.where[d] >= 0 :: h.descs[d].page != page
  }

  /** The first unused descriptor d goes to bucket b with the page of x, whose words are now m2. */
  function Bucketed(h: Heap, d: nat, b: nat, x: Desc, m2: seq<nat>): Heap
    requires d < |h.descs| && b < |h.chain|
  {
    Heap(h.descs[d := x], h.chain[b := d], h.descs[d].next, m2)
  }

  function BucketedLists(g: Lists, d: nat, b: nat, n: nat): Lists
    requires d < |g.where| && d < |g.objects| && b < |g.chains| && g.free != []
  {
    Lists(g.chains[b := [d] + g.chains[b]], g.free[1..], g.where[d := b], g.objects[d := Upto(n)])
  }

  lemma BucketedFiled(h: Heap, g: Lists, d: nat, b: nat, n: nat)
    requires Filed(|h.descs|, g.where, g.chains, g.free) && Distinct(g.free) && |g.objects| == |h.descs|
    requires g.free != [] && g.free[0] == d && d < |h.descs| && b < BUCKETS
    ensures var g2 := BucketedLists(g, d, b, n); Filed(|h.descs|, g2.where, g2.chains, g2.free)
  {
    var g2 := BucketedLists(g, d, b, n);
    forall e: nat | e < |h.descs| ensures e in g2.free <==> g2.where[e] == UNUSED {
      assert g.free == [d] + g.free[1..];
    }
    forall e: nat, c: nat | e < |h.descs| && c < BUCKETS ensures e in g2.chains[c] <==> g2.where[e] == c {}
  }

  lemma BucketedChained(h: Heap, g: Lists, d: nat, b: nat, x: Desc, m2: seq<nat>)
    requires Chained(h.descs, h.chain, h.freeDesc, g.chains, g.free) && Filed(|h.descs|, g.where, g.chains, g.free)
    requires |g.objects| == |h.descs| && g.free != [] && g.free[0] == d && d < |h.descs| && b < BUCKETS
    requires x.next == h.chain[b]
    ensures var h2, g2 := Bucketed(h, d, b, x, m2), BucketedLists(g, d, b, 0);
      Chained(h2.descs, h2.chain, h2.freeDesc, g2.chains, g2.free)
  {
    LinkedTail(h.descs, h.freeDesc, g.free);
    LinkedElsewhere(h.descs, h.descs[d := x], h.descs[d].next, g.free[1..]);
    assert d in g.free && g.where[d] == UNUSED;
    LinkedPush(h.descs, h.chain[b], g.chains[b], d, x);
    forall c: nat | c < BUCKETS && c != b ensures Linked(h.descs[d := x], h.chain[c], g.chains[c]) {
      LinkedElsewhere(h.descs, h.descs[d := x], h.chain[c], g.chains[c]);
    }
  }

  lemma BucketedPages(h: Heap, g: Lists, d: nat, b: nat, x: Desc, m2: seq<nat>)
    requires Pages(h.descs, h.mem, g.where, g.objects, NULL) && d < |h.descs| && b < BUCKETS && g.where[d] < 0
    requires Fresh(h, g, x.page) && x.size == SizeOf(b) && x.refcnt == 0 && x.freeptr == x.page
    requires |m2| == |h.mem| && Threaded(m2, x)
    requires forall w: nat | w < |m2| && w / 1024 != x.page / PAGE_SIZE :: m2[w] == h.mem[w]
    ensures Pages(h.descs[d := x], m2, g.where[d := b], g.objects[d := Upto(Slots(x.size))], d)
  {
    var ds, where, lists := h.descs[d := x], g.where[d := b], g.objects[d := Upto(Slots(x.size))];
    ThreadedOk(m2, x);
    forall e: nat | e < |ds| ensures UsedOk(ds, m2, where, lists, d, e) {
      assert UsedOk(h.descs, h.mem, g.where, g.objects, NULL, e);
      if e != d && where[e] >= 0 {
        OtherPageNumber(h.descs[e].page, x.page);
        OtherPage(h.mem, m2, h.descs[e], g.objects[e]);
      }
    }
  }

  lemma BucketedSound(h: Heap, g: Lists, d: nat, b: nat, x: Desc, m2: seq<nat>)
    requires Sound(h, g) && g.free != [] && g.free[0] == d && d < |h.descs| && b < BUCKETS
    requires Fresh(h, g, x.page) && x.size == SizeOf(b) && x.refcnt == 0 && x.freeptr == x.page && x.next == h.chain[b]
    requires |m2| == |h.mem| && Threaded(m2, x)
    requires forall w: nat | w < |m2| && w / 1024 != x.page / PAGE_SIZE :: m2[w] == h.mem[w]
    ensures SoundBut(Bucketed(h, d, b, x, m2), BucketedLists(g, d, b, Slots(x.size)), d)
  {
    BucketedFiled(h, g, d, b, Slots(x.size));
    BucketedChained(h, g, d, b, x, m2);
    assert g.where[d] == UNUSED;
    BucketedPages(h, g, d, b, x, m2);
  }

  /** A fresh page holds no object that is handed out, and no other object is in it. */
  lemma BucketedLive(h: Heap, g: Lists, d: nat, b: nat, x: Desc, m2: seq<nat>, a: int, n: nat)
    requires Sound(h, g) && g.free != [] && g.free[0] == d && d < |h.descs| && b < BUCKETS && x.size > 0
    ensures Live(Bucketed(h, d, b, x, m2), BucketedLists(g, d, b, Slots(x.size)), a, n) <==> Live(h, g, a, n)
  {
    var h2, g2 := Bucketed(h, d, b, x, m2), BucketedLists(g, d, b, Slots(x.size));
    assert g.where[d] == UNUSED by {
      assert d in g.free;
    }
    assert forall e: nat, j: nat :: e < |h.descs| && e != d ==> Addr(h2.descs[e], j) == Addr(h.descs[e], j);
    hide Addr;
    hide Slots;
    forall e: nat, j: nat ensures LiveObject(h2, g2, e, j) <==> LiveObject(h, g, e, j) {
      if e == d && j < Slots(x.size) {
        assert Upto(Slots(x.size))[j] == j;
      }
    }
    if Live(h, g, a, n) {
      var e: nat, j: nat :| LiveObject(h, g, e, j) && a == Addr(h.descs[e], j) && n == h.descs[e].size;
      assert LiveObject(h2, g2, e, j);
    }
  }

  /** The words of an object that is handed out are not in a fresh page. */
  lemma LiveNotFresh(h: Heap, g: Lists, page: nat, a: int, n: nat, w: nat)
    requires Sound(h, g) && Fresh(h, g, page) && Live(h, g, a, n) && a <= 4 * w < a + n
    ensures w < |h.mem| && w / 1024 != page / PAGE_SIZE
  {
    var d: nat, k: nat :| LiveObject(h, g, d, k) && a == Addr(h.descs[d], k) && n == h.descs[d].size;
    assert UsedOk(h.descs, h.mem, g.where, g.objects, NULL, d);
    AddrInside(h.descs[d], |h.mem|, k);
    OtherPageNumber(h.descs[d].page, page);
  }

  // ---------------------------------------------------------------- giving an object back

  /** Object k of descriptor d is put in front of its free list. */
  function Pushed(h: Heap, d: nat, k: nat): Heap
    requires d < |h.descs| && Addr(h.descs[d], k) / 4 < |h.mem| && h.descs[d].refcnt > 0
  {
    var x := h.descs[d];
    h.(descs := h.descs[d := x.(freeptr := Addr(x, k), refcnt := x.refcnt - 1)],
       mem := h.mem[Addr(x, k) / 4 := x.freeptr])
  }

  function PushedLists(g: Lists, d: nat, k: nat): Lists
    requires d < |g.objects|
  {
    g.(objects := g.objects[d := [k] + g.objects[d]])
  }

  lemma PushSound(h: Heap, g: Lists, d: nat, k: nat)
    requires Sound(h, g) && LiveObject(h, g, d, k)
    ensures h.descs[d].refcnt > 0 && Addr(h.descs[d], k) / 4 < |h.mem|
    ensures SoundBut(Pushed(h, d, k), PushedLists(g, d, k), if h.descs[d].refcnt == 1 then d else NULL)
  {
    assert UsedOk(h.descs, h.mem, g.where, g.objects, NULL, d);
    PushOk(h.mem, h.descs[d], g.objects[d], k);
    AddrInside(h.descs[d], |h.mem|, k);
    var y := h.descs[d];
    var x := y.(freeptr := Addr(y, k), refcnt := y.refcnt - 1);
    var m2 := h.mem[Addr(y, k) / 4 := y.freeptr];
    hide Addr;
    PagesStep(h, g, NULL, d, x, m2, [k] + g.objects[d], if y.refcnt == 1 then d else NULL);
    ChainedStep(h, g, d, x);
  }

  /** Then exactly that object is no longer handed out. */
  lemma PushLive(h: Heap, g: Lists, d: nat, k: nat, a: int, n: nat)
    requires Sound(h, g) && LiveObject(h, g, d, k)
    requires h.descs[d].refcnt > 0 && Addr(h.descs[d], k) / 4 < |h.mem|
    ensures Live(Pushed(h, d, k), PushedLists(g, d, k), a, n) <==> Live(h, g, a, n) && a != Addr(h.descs[d], k)
  {
    var h2, g2 := Pushed(h, d, k), PushedLists(g, d, k);
    assert forall e: nat, j: nat :: e < |h.descs| ==> Addr(h2.descs[e], j) == Addr(h.descs[e], j);
    forall e: nat, j: nat | LiveObject(h, g, e, j) && (e != d || j != k)
      ensures Addr(h.descs[e], j) != Addr(h.descs[d], k)
    {
      DifferentObjects(h, g, d, k, e, j);
    }
    hide Addr;
    forall e: nat, j: nat ensures LiveObject(h2, g2, e, j) <==> LiveObject(h, g, e, j) && (e != d || j != k) {}
    if Live(h, g, a, n) && a != Addr(h.descs[d], k) {
      var e: nat, j: nat :| LiveObject(h, g, e, j) && a == Addr(h.descs[e], j) && n == h.descs[e].size;
      assert LiveObject(h2, g2, e, j);
    }
  }

  lemma DifferentObjects(h: Heap, g: Lists, d: nat, k: nat, e: nat, j: nat)
    requires Sound(h, g) && LiveObject(h, g, d, k) && LiveObject(h, g, e, j) && (e != d || j != k)
    ensures Addr(h.descs[e], j) != Addr(h.descs[d], k)
    ensures Addr(h.descs[e], j) + h.descs[e].size <= Addr(h.descs[d], k)
         || Addr(h.descs[d], k) + h.descs[d].size <= Addr(h.descs[e], j)
  {
    assert UsedOk(h.descs, h.mem, g.where, g.objects, NULL, d) && UsedOk(h.descs, h.mem, g.where, g.objects, NULL, e);
    AddrInside(h.descs[d], |h.mem|, k);
    AddrInside(h.descs[e], |h.mem|, j);
    if e != d {
      PagesApart(h.descs[e].page, h.descs[d].page);
    } else {
      AddrApart(h.descs[d], if k < j then k else j, if k < j then j else k);
    }
  }

  /** The link that free_s writes is in no other object. */
  lemma PushWords(h: Heap, g: Lists, d: nat, k: nat, a: int, n: nat, w: nat)
    requires Sound(h, g) && LiveObject(h, g, d, k) && Live(h, g, a, n) && a != Addr(h.descs[d], k) && a <= 4 * w < a + n
    ensures w != Addr(h.descs[d], k) / 4
  {
    var e: nat, j: nat :| LiveObject(h, g, e, j) && a == Addr(h.descs[e], j) && n == h.descs[e].size;
    assert UsedOk(h.descs, h.mem, g.where, g.objects, NULL, d);
    AddrInside(h.descs[d], |h.mem|, k);
    DifferentObjects(h, g, d, k, e, j);
  }

  // ---------------------------------------------------------------- giving a page back

  /** Descriptor d leaves the chain of its bucket b for the list of unused ones. */
  function Dropped(h: Heap, d: nat, b: nat, prev: int): Heap
    requires d < |h.descs| && b < |h.chain| && NULL <= prev < |h.descs|
  {
    var next := h.descs[d].next;
    var ds := if prev >= 0 then h.descs[prev := h.descs[prev].(next := next)] else h.descs;
    Heap(ds[d := ds[d].(next := h.freeDesc)], if prev >= 0 then h.chain else h.chain[b := next], d, h.mem)
  }

  function DroppedLists(g: Lists, d: nat, b: nat, p: nat): Lists
    requires d < |g.where| && b < |g.chains| && p < |g.chains[b]|
  {
    Lists(g.chains[b := Drop(g.chains[b], p)], [d] + g.free, g.where[d := UNUSED], g.objects)
  }

  /** prev stands before d, at place p of its chain, or is NULL when d is first. */
  predicate PrevOf(g: Lists, b: nat, p: nat, d: int, prev: int) {
    b < |g.chains| && p < |g.chains[b]| && g.chains[b][p] == d && prev == At(g.chains[b], p - 1)
  }

  lemma DropMembers(c: seq<int>, p: nat, x: int)
    requires p < |c| && Distinct(c)
    ensures x in Drop(c, p) <==> x in c && x != c[p]
  {
    if x in c && x != c[p] {
      var i: nat :| i < |c| && c[i] == x;
      assert Drop(c, p)[if i < p then i else i - 1] == x;
    }
  }

  lemma DroppedFiled(h: Heap, g: Lists, d: nat, b: nat, p: nat)
    requires Filed(|h.descs|, g.where, g.chains, g.free) && d < |h.descs| && b < BUCKETS && p < |g.chains[b]|
    requires g.chains[b][p] == d && Distinct(g.chains[b])
    ensures var g2 := DroppedLists(g, d, b, p); Filed(|h.descs|, g2.where, g2.chains, g2.free)
  {
    var g2 := DroppedLists(g, d, b, p);
    assert g.where[d] == b;
    forall e: nat, c: nat | e < |h.descs| && c < BUCKETS ensures e in g2.chains[c] <==> g2.where[e] == c {
      DropMembers(g.chains[b], p, e);
    }
  }

  lemma DroppedChain(h: Heap, g: Lists, d: nat, b: nat, p: nat, prev: int)
    requires Chained(h.descs, h.chain, h.freeDesc, g.chains, g.free) && d < |h.descs| && b < BUCKETS
    requires PrevOf(g, b, p, d, prev) && NULL <= prev < |h.descs| && d !in g.free
    ensures Linked(Dropped(h, d, b, prev).descs, Dropped(h, d, b, prev).chain[b], Drop(g.chains[b], p))
  {
    var c := g.chains[b];
    var h2 := Dropped(h, d, b, prev);
    if p == 0 {
      LinkedTail(h.descs, h.chain[b], c);
      assert Drop(c, 0) == c[1..] && prev == NULL;
      LinkedElsewhere(h.descs, h2.descs, h.descs[d].next, c[1..]);
    } else {
      LinkedUnlink(h.descs, h.chain[b], c, p);
      var ds := h.descs[prev := h.descs[prev].(next := h.descs[d].next)];
      forall i: nat | i < |Drop(c, p)| ensures Drop(c, p)[i] != d {
        DropMembers(c, p, d);
      }
      LinkedElsewhere(ds, h2.descs, h.chain[b], Drop(c, p));
    }
  }

  lemma DroppedChained(h: Heap, g: Lists, d: nat, b: nat, p: nat, prev: int)
    requires Chained(h.descs, h.chain, h.freeDesc, g.chains, g.free) && Filed(|h.descs|, g.where, g.chains, g.free)
    requires d < |h.descs| && b < BUCKETS && PrevOf(g, b, p, d, prev) && NULL <= prev < |h.descs|
    ensures var h2, g2 := Dropped(h, d, b, prev), DroppedLists(g, d, b, p);
      Chained(h2.descs, h2.chain, h2.freeDesc, g2.chains, g2.free)
  {
    var h2 := Dropped(h, d, b, prev);
    assert d in g.chains[b] && g.where[d] == b;
    if prev >= 0 {
      assert g.chains[b][p - 1] == prev && prev in g.chains[b] && g.where[prev] == b;
    }
    DroppedChain(h, g, d, b, p, prev);
    var ds := if prev >= 0 then h.descs[prev := h.descs[prev].(next := h.descs[d].next)] else h.descs;
    LinkedElsewhere(h.descs, ds, h.freeDesc, g.free);
    LinkedPush(ds, h.freeDesc, g.free, d, ds[d].(next := h.freeDesc));
    forall c: nat | c < BUCKETS && c != b ensures Linked(h2.descs, h2.chain[c], g.chains[c]) {
      LinkedElsewhere(h.descs, h2.descs, h.chain[c], g.chains[c]);
    }
  }

  lemma DroppedPages(h: Heap, g: Lists, d: nat, b: nat, p: nat, prev: int)
    requires Pages(h.descs, h.mem, g.where, g.objects, d) && d < |h.descs| && b < |h.chain| && NULL <= prev < |h.descs|
    requires b < |g.chains| && p < |g.chains[b]|
    ensures Pages(Dropped(h, d, b, prev).descs, h.mem, DroppedLists(g, d, b, p).where, g.objects, NULL)
  {
    var ds, where := Dropped(h, d, b, prev).descs, g.where[d := UNUSED];
    forall e: nat | e < |ds| ensures UsedOk(ds, h.mem, where, g.objects, NULL, e) {
      assert UsedOk(h.descs, h.mem, g.where, g.objects, d, e);
      NextFree(h.mem, h.descs[e], ds[e], g.objects[e]);
    }
  }

  /** The next field of a descriptor says nothing about its page. */
  lemma NextFree(mem: seq<nat>, d: Desc, e: Desc, fl: seq<nat>)
    requires e == d.(next := e.next)
    ensures DescOk(mem, e, fl) == DescOk(mem, d, fl)
    ensures forall k: nat :: Addr(e, k) == Addr(d, k)
  {
    assert forall k: nat :: Addr(e, k) == Addr(d, k);
    assert forall i: nat | i < |fl| :: FreeLink(mem, e, fl, i) == FreeLink(mem, d, fl, i);
  }

  /** free_s gives a page back only when nothing in it is handed out. */
  lemma DroppedSound(h: Heap, g: Lists, d: nat, b: nat, p: nat, prev: int)
    requires SoundBut(h, g, d) && d < |h.descs| && b < BUCKETS && PrevOf(g, b, p, d, prev) && NULL <= prev < |h.descs|
    ensures Sound(Dropped(h, d, b, prev), DroppedLists(g, d, b, p))
  {
    DroppedFiled(h, g, d, b, p);
    DroppedChained(h, g, d, b, p, prev);
    DroppedPages(h, g, d, b, p, prev);
  }

  lemma DroppedLive(h: Heap, g: Lists, d: nat, b: nat, p: nat, prev: int, a: int, n: nat)
    requires SoundBut(h, g, d) && d < |h.descs| && b < BUCKETS && PrevOf(g, b, p, d, prev) && NULL <= prev < |h.descs|
    requires h.descs[d].refcnt == 0
    ensures Live(Dropped(h, d, b, prev), DroppedLists(g, d, b, p), a, n) <==> Live(h, g, a, n)
  {
    var h2, g2 := Dropped(h, d, b, prev), DroppedLists(g, d, b, p);
    assert d in g.chains[b] && g.where[d] == b;
    assert UsedOk(h.descs, h.mem, g.where, g.objects, d, d);
    forall e: nat, j: nat ensures LiveObject(h2, g2, e, j) <==> LiveObject(h, g, e, j) {
      if e == d && LiveObject(h, g, d, j) {
        NothingLeft(h.mem, h.descs[d], g.objects[d], j);
      }
    }
    assert forall e: nat, j: nat :: e < |h.descs| ==> Addr(h2.descs[e], j) == Addr(h.descs[e], j);
    hide Addr;
    if Live(h, g, a, n) {
      var e: nat, j: nat :| LiveObject(h, g, e, j) && a == Addr(h.descs[e], j) && n == h.descs[e].size;
      assert LiveObject(h2, g2, e, j);
    }
  }

  /** When the count is zero, every object of the page is free. */
  lemma NothingLeft(mem: seq<nat>, d: Desc, fl: seq<nat>, j: nat)
    requires DescOk(mem, d, fl) && d.refcnt == 0
    ensures !LiveSlot(d, fl, j)
  {
    if LiveSlot(d, fl, j) {
      FreeElsewhere(mem, d, fl, j);
    }
  }

  // ---------------------------------------------------------------- a new page of descriptors

  /** n, n + 1, ..., n + k - 1 */
  function Range(n: nat, k: nat): (c: seq<int>)
    ensures |c| == k && forall i: nat | i < k :: c[i] == n + i
  {
    if k == 0 then [] else Range(n, k - 1) + [n + k - 1]
  }

  /** init_bucket_desc: the new descriptors lead to each other and the last to the old list. */
  ghost predicate NewDescs(h: Heap, ds: seq<Desc>) {
    && |ds| == |h.descs| + DESCS_PER_PAGE && ds[..|h.descs|] == h.descs
    && forall i: nat | |h.descs| <= i < |ds| :: ds[i].next == if i + 1 < |ds| then i + 1 else h.freeDesc
  }

  function AddedLists(g: Lists, n: nat): Lists {
    Lists(g.chains, Range(n, DESCS_PER_PAGE) + g.free,
          g.where + seq(DESCS_PER_PAGE, (_: nat) => UNUSED), g.objects + seq(DESCS_PER_PAGE, (_: nat) => []))
  }

  lemma AddedFree(h: Heap, g: Lists, ds: seq<Desc>)
    requires Linked(h.descs, h.freeDesc, g.free) && NewDescs(h, ds)
    ensures Linked(ds, |h.descs|, Range(|h.descs|, DESCS_PER_PAGE) + g.free)
  {
    var n := |h.descs|;
    var c := Range(n, DESCS_PER_PAGE) + g.free;
    assert forall i: nat | i < n :: ds[i] == h.descs[i];
    assert Within(ds, c);
    forall i: nat | i < |c| ensures Link(ds, c, i) {
      if i >= DESCS_PER_PAGE {
        assert Link(h.descs, g.free, i - DESCS_PER_PAGE);
      }
    }
  }

  lemma AddedSound(h: Heap, g: Lists, ds: seq<Desc>)
    requires Sound(h, g) && NewDescs(h, ds)
    ensures Sound(h.(descs := ds, freeDesc := |h.descs|), AddedLists(g, |h.descs|))
  {
    var n := |h.descs|;
    var g2 := AddedLists(g, n);
    AddedFree(h, g, ds);
    assert forall i: nat | i < n :: ds[i] == h.descs[i];
    forall b: nat | b < BUCKETS ensures Linked(ds, h.chain[b], g.chains[b]) {
      LinkedElsewhere(h.descs, ds, h.chain[b], g.chains[b]);
    }
    AddedFiled(h, g);
    forall d: nat | d < |ds| ensures UsedOk(ds, h.mem, g2.where, g2.objects, NULL, d) {
      if d < n {
        assert UsedOk(h.descs, h.mem, g.where, g.objects, NULL, d);
      }
    }
  }

  lemma AddedFiled(h: Heap, g: Lists)
    requires Filed(|h.descs|, g.where, g.chains, g.free)
    requires Within(h.descs, g.free) && forall b: nat | b < BUCKETS :: Within(h.descs, g.chains[b])
    ensures
      var g2 := AddedLists(g, |h.descs|);
      Filed(|h.descs| + DESCS_PER_PAGE, g2.where, g2.chains, g2.free)
  {
    var n := |h.descs|;
    var g2 := AddedLists(g, n);
    forall d: nat | d < n + DESCS_PER_PAGE ensures d in g2.free <==> g2.where[d] == UNUSED {
      if d >= n {
        assert g2.free[d - n] == d;
      }
    }
    forall d: nat, b: nat | d < n + DESCS_PER_PAGE && b < BUCKETS ensures d in g2.chains[b] <==> g2.where[d] == b {}
  }

  lemma AddedLive(h: Heap, g: Lists, ds: seq<Desc>, a: int, n: nat)
    requires Sound(h, g) && NewDescs(h, ds)
    ensures Live(h.(descs := ds, freeDesc := |h.descs|), AddedLists(g, |h.descs|), a, n) <==> Live(h, g, a, n)
  {
    var h2, g2 := h.(descs := ds, freeDesc := |h.descs|), AddedLists(g, |h.descs|);
    assert forall i: nat | i < |h.descs| :: ds[i] == h.descs[i];
    forall e: nat, j: nat ensures LiveObject(h2, g2, e, j) <==> LiveObject(h, g, e, j) {}
    if Live(h, g, a, n) {
      var e: nat, j: nat :| LiveObject(h, g, e, j) && a == Addr(h.descs[e], j) && n == h.descs[e].size;
      assert LiveObject(h2, g2, e, j);
    }
  }
}
