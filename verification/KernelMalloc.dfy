/**
 lib/malloc.c: malloc and free_s. Pages come from get_free_page: a call is given the pages it may
 take, 0 meaning that there is none left. Each call runs to its end.
 */
module KernelMalloc {
  import opened IndexLists
  import opened Buckets

  /** Word w lies in an object that is handed out. */
  ghost predicate InObject(h: Heap, g: Lists, w: nat) {
    exists a: int, n: nat :: Live(h, g, a, n) && a <= 4 * w < a + n
  }

  /** Words inside objects that are handed out keep their values. */
  ghost predicate KeepsObjects(h: Heap, g: Lists, mem: seq<nat>) {
    |mem| == |h.mem| && forall w: nat | InObject(h, g, w) :: w < |mem| && mem[w] == h.mem[w]
  }

  /** No page of bucket b has a free object. */
  ghost predicate NoneFree(descs: seq<Desc>, g: Lists, b: int) {
    forall d: nat | d < |descs| && d < |g.where| && g.where[d] == b :: descs[d].freeptr == 0
  }

  lemma NoneFreeInChain(h: Heap, g: Lists, b: nat)
    requires Sound(h, g) && b < BUCKETS && forall i: nat | i < |g.chains[b]| :: h.descs[g.chains[b][i]].freeptr == 0
    ensures NoneFree(h.descs, g, b)
  {
    forall d: nat | d < |h.descs| && d < |g.where| && g.where[d] == b ensures h.descs[d].freeptr == 0 {
      assert d in g.chains[b];
    }
  }

  class Malloc {
    var descs: seq<Desc>
    const chain: array<int>
    var freeDesc: int
    const mem: array<nat>
    ghost var g: Lists

    ghost function State(): Heap
      reads this, chain, mem
    {
      Heap(descs, chain[..], freeDesc, mem[..])
    }

    ghost predicate Valid()
      reads this, chain, mem
    {
      chain != mem as object && Sound(State(), g)
    }

    /** The empty bucket directory. */
    constructor (memory: array<nat>)
      ensures Valid() && mem == memory && fresh(chain) && forall a: int, n: nat :: !Live(State(), g, a, n)
    {
      descs, freeDesc, mem := [], NULL, memory;
      chain := new int[BUCKETS](_ => NULL);
      g := Lists(seq(BUCKETS, (_: nat) => []), [], [], []);
    }

    /** init_bucket_desc */
    method InitBucketDesc(page: nat) returns (panicked: bool)
      requires Valid()
      modifies this`descs, this`freeDesc, this`g
      ensures panicked <==> page == 0
      ensures !panicked ==>
        && Valid() && NewDescs(old(State()), descs) && g == AddedLists(old(g), |old(descs)|)
        && State() == old(State()).(descs := descs, freeDesc := |old(descs)|)
    {
      if page == 0 {
        return true;
      }
      panicked := false;
      ghost var h := State();
      var first := |descs|;
      var ds := descs + seq(DESCS_PER_PAGE, (_: nat) => Desc(0, NULL, 0, 0, 0));
      var bdesc := first;
      while bdesc + 1 < first + DESCS_PER_PAGE
        invariant first <= bdesc < first + DESCS_PER_PAGE && |ds| == first + DESCS_PER_PAGE
        invariant ds[..first] == h.descs
        invariant forall i: nat | first <= i < bdesc :: ds[i].next == i + 1
      {
        ds := ds[bdesc := ds[bdesc].(next := bdesc + 1)];
        bdesc := bdesc + 1;
      }
      ds := ds[bdesc := ds[bdesc].(next := freeDesc)];
      descs := ds;
      freeDesc := first;
      AddedSound(h, g, ds);
      g := AddedLists(g, first);
    }

    /** The search for a descriptor with a free object. */
    method FindFree(b: nat) returns (bdesc: int)
      requires Valid() && b < BUCKETS
      ensures bdesc == NULL <==> NoneFree(descs, g, b)
      ensures bdesc != NULL ==> 0 <= bdesc < |descs| && g.where[bdesc] == b && descs[bdesc].freeptr != 0
    {
      ghost var c := g.chains[b];
      assert Linked(descs, chain[..][b], c);
      bdesc := chain[b];
      ghost var i: nat := 0;
      while bdesc != NULL
        invariant i <= |c| && bdesc == At(c, i)
        invariant forall j: nat | j < i :: descs[c[j]].freeptr == 0
        decreases |c| - i
      {
        assert c[i] in c;
        if descs[bdesc].freeptr != 0 {
          return;
        }
        assert Link(descs, c, i);
        bdesc := descs[bdesc].next;
        i := i + 1;
      }
      NoneFreeInChain(State(), g, b);
    }

    /** One link of the chain of free objects. */
    method WriteLink(cp: nat, v: nat, ghost d: Desc, ghost k: nat, ghost m0: seq<nat>)
      requires PageOk(d, mem.Length) && k < Slots(d.size) && cp == Addr(d, k)
      requires v == if k + 1 < Slots(d.size) then Addr(d, k + 1) else 0
      requires Threading(mem[..], d, k) && SameElsewhere(m0, mem[..], d.page)
      modifies mem
      ensures Threading(mem[..], d, k + 1) && SameElsewhere(m0, mem[..], d.page)
    {
      ghost var m := mem[..];
      AddrInside(d, mem.Length, k);
      mem[cp / 4] := v;
      ThreadStep(m, mem[..], d, k, v);
      assert mem[..] == m[cp / 4 := v];
    }

    /** The chain of free objects in a fresh page. */
    method ThreadPage(page: nat, size: nat)
      requires IsSize(size) && page > 0 && page % PAGE_SIZE == 0 && page + PAGE_SIZE <= 4 * mem.Length
      modifies mem
      ensures Threaded(mem[..], Desc(page, NULL, page, 0, size)) && SameElsewhere(old(mem[..]), mem[..], page)
    {
      ghost var d := Desc(page, NULL, page, 0, size);
      ghost var m0 := mem[..];
      ghost var k: nat := 0;
      var cp := page;
      var i := PAGE_SIZE / size;
      while i > 1
        invariant 1 <= i && k + i == Slots(size) && cp == Addr(d, k)
        invariant Threading(mem[..], d, k) && SameElsewhere(m0, mem[..], page)
      {
        NextAddr(d, k);
        WriteLink(cp, cp + size, d, k, m0);
        cp := cp + size;
        i := i - 1;
        k := k + 1;
      }
      WriteLink(cp, 0, d, k, m0);
    }
  
    /** Bucket b gets a fresh page: its descriptor is the first unused one. */
    method NewBucket(b: nat, page: nat) returns (bdesc: nat)
      requires Valid() && b < BUCKETS && freeDesc != NULL && Fresh(State(), g, page)
      modifies this`descs, this`freeDesc, this`g, chain, mem
      ensures bdesc < |descs| && chain != mem as object && SoundBut(State(), g, bdesc) && g.where[bdesc] == b
      ensures descs[bdesc].freeptr != 0 && descs[bdesc].page == page
      ensures SameLive(old(State()), old(g), State(), g) && KeepsObjects(old(State()), old(g), mem[..])
    {
      ghost var h, g0 := State(), g;
      LinkedTail(descs, freeDesc, g.free);
      bdesc := freeDesc;
      freeDesc := descs[bdesc].next;
      ThreadPage(page, SizeOf(b));
      var x := Desc(page, chain[b], page, 0, SizeOf(b));
      ThreadedSame(mem[..], Desc(page, NULL, page, 0, SizeOf(b)), x);
      ThreadedOk(mem[..], x);
      descs := descs[bdesc := x];
      chain[b] := bdesc;
      BucketedSound(h, g0, bdesc, b, x, mem[..]);
      g := BucketedLists(g0, bdesc, b, Slots(x.size));
      assert State() == Bucketed(h, bdesc, b, x, mem[..]);
      BucketedSame(h, g0, bdesc, b, x, mem[..]);
      FreshKeeps(h, g0, page, mem[..]);
    }

    /** The first free object of a descriptor is handed out. */
    method Take(bdesc: nat) returns (r: nat)
      requires chain != mem as object && bdesc < |descs| && SoundBut(State(), g, bdesc) && g.where[bdesc] >= 0
      requires descs[bdesc].freeptr != 0
      modifies this`descs, this`g
      ensures Valid() && r == old(descs[bdesc].freeptr)
      ensures OneMore(old(State()), old(g), State(), g, r, SizeOf(old(g.where[bdesc])))
    {
      ghost var h, g0 := State(), g;
      PopSound(h, g0, bdesc, bdesc);
      r := descs[bdesc].freeptr;
      descs := descs[bdesc := descs[bdesc].(freeptr := mem[r / 4])];
      descs := descs[bdesc := descs[bdesc].(refcnt := descs[bdesc].refcnt + 1)];
      g := g0.(objects := g0.objects[bdesc := g0.objects[bdesc][1..]]);
      assert State() == Popped(h, bdesc);
      PopOne(h, g0, bdesc);
    }

    /** malloc. `descPage` and `page` are what get_free_page would return for descriptors and for
        objects. The result was free, is big enough, and is now handed out besides all that was; it
        panics exactly if no bucket is big enough, or no object is free and a page is missing. */
    method Allocate(len: nat, descPage: nat, page: nat) returns (panicked: bool, r: nat, ghost b: nat)
      requires Valid() && (page != 0 ==> Fresh(State(), g, page))
      modifies this`descs, this`freeDesc, this`g, chain, mem
      ensures len <= PAGE_SIZE ==> b < BUCKETS && len <= SizeOf(b) && (b > 0 ==> SizeOf(b - 1) < len)
      ensures panicked <==>
        || len > PAGE_SIZE
        || (NoneFree(old(descs), old(g), b) && (page == 0 || (old(freeDesc) == NULL && descPage == 0)))
      ensures !panicked ==> Valid()
      ensures !panicked ==> OneMore(old(State()), old(g), State(), g, r, SizeOf(b))
      ensures !panicked ==> KeepsObjects(old(State()), old(g), mem[..])
    {
      ghost var h, g0 := State(), g;
      panicked, r, b := false, 0, 0;
      var bdir: nat := 0;
      while bdir < BUCKETS && SizeOf(bdir) < len
        modifies {}
        invariant bdir <= BUCKETS && (bdir > 0 ==> SizeOf(bdir - 1) < len)
      {
        bdir := bdir + 1;
      }
      if bdir == BUCKETS {
        return true, 0, 0;
      }
      b := bdir;
      var bdesc := FindFree(bdir);
      if bdesc == NULL {
        if freeDesc == NULL {
          panicked := InitBucketDesc(descPage);
          if panicked {
            return;
          }
          AddedKeeps(h, g0, descs, page);
        }
        ghost var h1, g1 := State(), g;
        if page == 0 {
          panicked := true;
          return;
        }
        bdesc := NewBucket(bdir, page);
        SameLiveTwice(h, g0, h1, g1, State(), g);
        KeepsTwice(h, g0, h1, g1, mem[..]);
      } else {
        SoundWeaker(h, g0, bdesc);
      }
      ghost var h2, g2 := State(), g;
      r := Take(bdesc);
      SameThenOne(h, g0, h2, g2, State(), g, r, SizeOf(b));
    }

    /** The search of one chain for the descriptor of a page. */
    method FindInChain(b: nat, page: nat) returns (bdesc: int, prev: int)
      requires Valid() && b < BUCKETS
      ensures bdesc == NULL ==> forall i: nat | i < |g.chains[b]| :: descs[g.chains[b][i]].page != page
      ensures bdesc != NULL ==> 0 <= bdesc < |descs| && g.where[bdesc] == b && descs[bdesc].page == page
      ensures NULL <= prev < |descs|
    {
      ghost var c := g.chains[b];
      assert Linked(descs, chain[..][b], c);
      prev := NULL;
      bdesc := chain[b];
      ghost var i: nat := 0;
      while bdesc != NULL
        invariant i <= |c| && bdesc == At(c, i) && NULL <= prev < |descs|
        invariant forall j: nat | j < i :: descs[c[j]].page != page
        decreases |c| - i
      {
        assert c[i] in c;
        if descs[bdesc].page == page {
          return;
        }
        assert Link(descs, c, i);
        prev := bdesc;
        bdesc := descs[bdesc].next;
        i := i + 1;
      }
    }

    /** The search of free_s: the descriptor of the page, in a bucket of at least the given size. */
    method FindPage(page: nat, size: int) returns (bdir: nat, bdesc: int, prev: int)
      requires Valid()
      ensures bdesc == NULL ==>
        forall d: nat | d < |descs| && g.where[d] >= 0 && descs[d].page == page :: SizeOf(g.where[d]) < size
      ensures bdesc != NULL ==>
        && 0 <= bdesc < |descs| && bdir < BUCKETS && g.where[bdesc] == bdir && descs[bdesc].page == page
        && size <= SizeOf(bdir)
      ensures NULL <= prev < |descs|
    {
      bdesc, prev, bdir := NULL, NULL, 0;
      while bdir < BUCKETS
        modifies {}
        invariant bdir <= BUCKETS && bdesc == NULL && NULL <= prev < |descs|
        invariant forall d: nat | d < |descs| && 0 <= g.where[d] < bdir && descs[d].page == page :: SizeOf(g.where[d]) < size
      {
        prev := NULL;
        if SizeOf(bdir) >= size {
          bdesc, prev := FindInChain(bdir, page);
          if bdesc != NULL {
            return;
          }
          NotInChain(State(), g, bdir, page);
        }
        bdir := bdir + 1;
      }
    }

    /** The predecessor of a descriptor in its chain; what the search found may be out of date. */
    method FindPrev(b: nat, bdesc: nat, guess: int, ghost p: nat) returns (prev: int)
      requires chain != mem as object && SoundBut(State(), g, bdesc) && b < BUCKETS && bdesc < |descs| && NULL <= guess < |descs|
      requires p < |g.chains[b]| && g.chains[b][p] == bdesc
      ensures NULL <= prev < |descs| && PrevOf(g, b, p, bdesc, prev)
    {
      ghost var c := g.chains[b];
      assert Linked(descs, chain[..][b], c);
      prev := guess;
      if (prev != NULL && descs[prev].next != bdesc) || (prev == NULL && chain[b] != bdesc) {
        prev := chain[b];
        ghost var i: nat := 0;
        while prev != NULL
          invariant i <= |c| && prev == At(c, i) && forall j: nat | j < i :: descs[c[j]].next != bdesc
          decreases |c| - i
        {
          if descs[prev].next == bdesc {
            break;
          }
          assert Link(descs, c, i);
          prev := descs[prev].next;
          i := i + 1;
        }
      }
      if prev != NULL {
        NextUnique(State(), g, b, p, bdesc, prev);
      } else if p > 0 {
        assert Link(descs, c, p - 1);
      }
    }

    /** A page without objects goes back to get_free_page's pool, its descriptor to the unused ones. */
    method ReturnPage(b: nat, bdesc: nat, guess: int) returns (panicked: bool, page: nat)
      requires chain != mem as object && SoundBut(State(), g, bdesc) && b < BUCKETS && bdesc < |descs| && NULL <= guess < |descs|
      requires g.where[bdesc] == b && descs[bdesc].refcnt == 0
      modifies this`descs, this`freeDesc, this`g, chain
      ensures !panicked && Valid() && page == old(descs[bdesc].page)
      ensures SameLive(old(State()), old(g), State(), g)
      ensures page > 0 && Fresh(State(), g, page)
    {
      ghost var h, g0 := State(), g;
      panicked, page := false, descs[bdesc].page;
      assert bdesc in g.chains[b];
      ghost var p: nat :| p < |g.chains[b]| && g.chains[b][p] == bdesc;
      var prev := FindPrev(b, bdesc, guess, p);
      assert Linked(descs, chain[..][b], g.chains[b]);
      if prev != NULL {
        assert g.chains[b][p - 1] == prev;
        descs := descs[prev := descs[prev].(next := descs[bdesc].next)];
      } else {
        if chain[b] != bdesc {
          panicked := true;
          return;
        }
        chain[b] := descs[bdesc].next;
      }
      descs := descs[bdesc := descs[bdesc].(next := freeDesc)];
      freeDesc := bdesc;
      g := DroppedLists(g0, bdesc, b, p);
      assert State() == Dropped(h, bdesc, b, prev);
      DroppedSound(h, g0, bdesc, b, p, prev);
      DroppedSame(h, g0, bdesc, b, p, prev);
    }

    /** The object goes in front of the free list of its page. */
    method Push(bdesc: nat, obj: nat, ghost k: nat)
      requires Valid() && LiveObject(State(), g, bdesc, k) && obj == Addr(descs[bdesc], k)
      modifies this`descs, this`g, mem
      ensures chain != mem as object && bdesc < |descs| == |old(descs)| && g.where == old(g.where)
      ensures descs[bdesc].page == old(descs[bdesc].page)
      ensures SoundBut(State(), g, if descs[bdesc].refcnt == 0 then bdesc else NULL)
      ensures OneLess(old(State()), old(g), State(), g, obj) && KeepsOthers(old(State()), old(g), obj, mem[..])
    {
      ghost var h, g0 := State(), g;
      PushSound(h, g0, bdesc, k);
      mem[obj / 4] := descs[bdesc].freeptr;
      descs := descs[bdesc := descs[bdesc].(freeptr := obj)];
      descs := descs[bdesc := descs[bdesc].(refcnt := descs[bdesc].refcnt - 1)];
      g := PushedLists(g0, bdesc, k);
      assert State() == Pushed(h, bdesc, k);
      PushOne(h, g0, bdesc, k);
    }

    /** free_s for object k of descriptor d, which is handed out, with a hint of its size or 0. It
        panics exactly when the hint is too big. The page goes back exactly with its last object. */
    method FreeS(obj: nat, size: int, ghost d: nat, ghost k: nat) returns (panicked: bool, page: nat)
      requires Valid() && LiveObject(State(), g, d, k) && obj == Addr(descs[d], k)
      modifies this`descs, this`freeDesc, this`g, chain, mem
      ensures panicked <==> size > old(descs[d].size)
      ensures panicked ==> State() == old(State())
      ensures !panicked ==> Valid() && OneLess(old(State()), old(g), State(), g, obj)
      ensures !panicked ==> KeepsOthers(old(State()), old(g), obj, mem[..])
      ensures page != 0 ==> page == obj - obj % PAGE_SIZE && Fresh(State(), g, page)
      ensures !panicked && page == 0 ==>
        exists e: nat :: e < |descs| && g.where[e] >= 0 && descs[e].page == obj - obj % PAGE_SIZE && descs[e].refcnt > 0
    {
      assert UsedOk(descs, mem[..], g.where, g.objects, NULL, d);
      AddrInside(descs[d], mem.Length, k);
      PageOf(descs[d].page, obj);
      var bdir, bdesc, prev := FindPage(obj - obj % PAGE_SIZE, size);
      if bdesc == NULL {
        return true, 0;
      }
      assert bdesc == d;
      panicked, page := false, 0;
      Push(bdesc, obj, k);
      if descs[bdesc].refcnt == 0 {
        ghost var h1, g1 := State(), g;
        panicked, page := ReturnPage(bdir, bdesc, prev);
      }
    }
  }

  /** The same objects are handed out. */
  ghost predicate SameLive(h: Heap, g: Lists, h2: Heap, g2: Lists) {
    forall a: int, n: nat :: Live(h2, g2, a, n) <==> Live(h, g, a, n)
  }

  /** The object of n bytes at r is handed out besides those that were, and was not before. */
  ghost predicate OneMore(h: Heap, g: Lists, h2: Heap, g2: Lists, r: nat, n: nat) {
    && (forall m: nat :: !Live(h, g, r, m))
    && forall a: int, m: nat :: Live(h2, g2, a, m) <==> Live(h, g, a, m) || (a == r && m == n)
  }

  lemma ThreadedSame(mem: seq<nat>, d: Desc, x: Desc)
    requires Threaded(mem, d) && x == d.(next := x.next)
    ensures Threaded(mem, x)
  {
    forall k: nat | k < Slots(x.size) ensures ThreadAt(mem, x, k) {
      assert ThreadAt(mem, d, k);
    }
  }

  lemma BucketedSame(h: Heap, g: Lists, d: nat, b: nat, x: Desc, m2: seq<nat>)
    requires Sound(h, g) && g.free != [] && g.free[0] == d && d < |h.descs| && b < BUCKETS && x.size > 0
    ensures SameLive(h, g, Bucketed(h, d, b, x, m2), BucketedLists(g, d, b, Slots(x.size)))
  {
    var h2, g2 := Bucketed(h, d, b, x, m2), BucketedLists(g, d, b, Slots(x.size));
    hide Live;
    forall a: int, n: nat ensures Live(h2, g2, a, n) <==> Live(h, g, a, n) {
      BucketedLive(h, g, d, b, x, m2, a, n);
    }
  }

  lemma FreshKeeps(h: Heap, g: Lists, page: nat, m2: seq<nat>)
    requires Sound(h, g) && Fresh(h, g, page) && SameElsewhere(h.mem, m2, page)
    ensures KeepsObjects(h, g, m2)
  {
    hide Sound;
    hide Live;
    hide Fresh;
    forall w: nat | InObject(h, g, w) ensures w < |m2| && m2[w] == h.mem[w] {
      var a: int, n: nat :| Live(h, g, a, n) && a <= 4 * w < a + n;
      LiveNotFresh(h, g, page, a, n, w);
    }
  }

  lemma PopOne(h: Heap, g: Lists, d: nat)
    requires SoundBut(h, g, d) && d < |h.descs| && g.where[d] >= 0 && h.descs[d].freeptr != 0
    requires g.objects[d] != [] && h.descs[d].freeptr / 4 < |h.mem|
    ensures OneMore(h, g, Popped(h, d), g.(objects := g.objects[d := g.objects[d][1..]]),
                    h.descs[d].freeptr, SizeOf(g.where[d]))
  {
    var h2, g2 := Popped(h, d), g.(objects := g.objects[d := g.objects[d][1..]]);
    assert UsedOk(h.descs, h.mem, g.where, g.objects, d, d);
    forall m: nat ensures !Live(h, g, h.descs[d].freeptr, m) {
      PopWasFree(h, g, d, d, m);
    }
    forall a: int, m: nat
      ensures Live(h2, g2, a, m) <==> Live(h, g, a, m) || (a == h.descs[d].freeptr && m == h.descs[d].size)
    {
      PopLive(h, g, d, d, a, m);
    }
  }

  /** New descriptors change no object and no page. */
  lemma AddedKeeps(h: Heap, g: Lists, ds: seq<Desc>, page: nat)
    requires Sound(h, g) && NewDescs(h, ds) && (page != 0 ==> Fresh(h, g, page))
    ensures var h2, g2 := h.(descs := ds, freeDesc := |h.descs|), AddedLists(g, |h.descs|);
      SameLive(h, g, h2, g2) && (page != 0 ==> Fresh(h2, g2, page))
    ensures KeepsObjects(h, g, h.mem)
  {
    var h2, g2 := h.(descs := ds, freeDesc := |h.descs|), AddedLists(g, |h.descs|);
    forall a: int, n: nat ensures Live(h2, g2, a, n) <==> Live(h, g, a, n) {
      AddedLive(h, g, ds, a, n);
    }
    assert forall i: nat | i < |h.descs| :: ds[i] == h.descs[i];
    LiveInMemory(h, g);
  }

  lemma LiveInMemory(h: Heap, g: Lists)
    requires Sound(h, g)
    ensures KeepsObjects(h, g, h.mem)
  {
    forall w: nat | InObject(h, g, w) ensures w < |h.mem| && h.mem[w] == h.mem[w] {
      var a: int, n: nat :| Live(h, g, a, n) && a <= 4 * w < a + n;
      var d: nat, k: nat :| LiveObject(h, g, d, k) && a == Addr(h.descs[d], k) && n == h.descs[d].size;
      assert UsedOk(h.descs, h.mem, g.where, g.objects, NULL, d);
      AddrInside(h.descs[d], |h.mem|, k);
    }
  }

  lemma SoundWeaker(h: Heap, g: Lists, d: int)
    requires Sound(h, g)
    ensures SoundBut(h, g, d) && SameLive(h, g, h, g) && KeepsObjects(h, g, h.mem)
  {
    forall e: nat | e < |h.descs| ensures UsedOk(h.descs, h.mem, g.where, g.objects, d, e) {
      assert UsedOk(h.descs, h.mem, g.where, g.objects, NULL, e);
    }
    LiveInMemory(h, g);
  }

  lemma SameLiveTwice(h: Heap, g: Lists, h1: Heap, g1: Lists, h2: Heap, g2: Lists)
    requires SameLive(h, g, h1, g1) && SameLive(h1, g1, h2, g2)
    ensures SameLive(h, g, h2, g2)
  {}

  lemma KeepsTwice(h: Heap, g: Lists, h1: Heap, g1: Lists, mem: seq<nat>)
    requires SameLive(h, g, h1, g1) && h1.mem == h.mem && KeepsObjects(h1, g1, mem)
    ensures KeepsObjects(h, g, mem)
  {
    forall w: nat | InObject(h, g, w) ensures InObject(h1, g1, w) {
      var a: int, n: nat :| Live(h, g, a, n) && a <= 4 * w < a + n;
      assert Live(h1, g1, a, n);
    }
  }

  lemma SameThenOne(h: Heap, g: Lists, h1: Heap, g1: Lists, h2: Heap, g2: Lists, r: nat, n: nat)
    requires SameLive(h, g, h1, g1) && OneMore(h1, g1, h2, g2, r, n)
    ensures OneMore(h, g, h2, g2, r, n)
  {
  }

  /** The object at r is no longer handed out, all others are. */
  ghost predicate OneLess(h: Heap, g: Lists, h2: Heap, g2: Lists, r: nat) {
    forall a: int, m: nat :: Live(h2, g2, a, m) <==> Live(h, g, a, m) && a != r
  }

  /** Words of objects other than the one at r keep their values. */
  ghost predicate KeepsOthers(h: Heap, g: Lists, r: nat, mem: seq<nat>) {
    |mem| == |h.mem| && forall w: nat | InOther(h, g, r, w) :: w < |mem| && mem[w] == h.mem[w]
  }

  ghost predicate InOther(h: Heap, g: Lists, r: nat, w: nat) {
    exists a: int, n: nat :: Live(h, g, a, n) && a != r && a <= 4 * w < a + n
  }

  lemma PageOf(page: nat, obj: nat)
    requires page % PAGE_SIZE == 0 && obj / PAGE_SIZE == page / PAGE_SIZE
    ensures obj - obj % PAGE_SIZE == page
  {}

  lemma NotInChain(h: Heap, g: Lists, b: nat, page: nat)
    requires Sound(h, g) && b < BUCKETS && forall i: nat | i < |g.chains[b]| && 0 <= g.chains[b][i] < |h.descs| ::
      h.descs[g.chains[b][i]].page != page
    ensures forall d: nat | d < |h.descs| && g.where[d] == b :: h.descs[d].page != page
  {
    forall d: nat | d < |h.descs| && g.where[d] == b ensures h.descs[d].page != page {
      assert d in g.chains[b];
    }
  }

  /** Only the predecessor in its own chain leads to a descriptor. */
  lemma NextUnique(h: Heap, g: Lists, b: nat, p: nat, d: nat, prev: nat)
    requires Filed(|h.descs|, g.where, g.chains, g.free) && Chained(h.descs, h.chain, h.freeDesc, g.chains, g.free)
    requires b < BUCKETS && p < |g.chains[b]| && g.chains[b][p] == d && d < |h.descs|
    requires prev < |h.descs| && h.descs[prev].next == d
    ensures PrevOf(g, b, p, d, prev)
  {
    assert d in g.chains[b] && g.where[d] == b;
    if g.where[prev] == UNUSED {
      assert prev in g.free;
      NextIn(h.descs, h.freeDesc, g.free, prev);
    } else {
      var c := g.chains[g.where[prev]];
      assert prev in c;
      assert Linked(h.descs, h.chain[g.where[prev]], c);
      NextIn(h.descs, h.chain[g.where[prev]], c, prev);
      var i: nat :| i < |c| && c[i] == prev && h.descs[prev].next == At(c, i + 1);
    }
  }

  lemma NextIn(ds: seq<Desc>, first: int, c: seq<int>, x: nat)
    requires Linked(ds, first, c) && x in c && x < |ds| && ds[x].next != NULL
    ensures ds[x].next in c
    ensures exists i: nat :: i < |c| && c[i] == x && ds[x].next == At(c, i + 1)
  {
    var i: nat :| i < |c| && c[i] == x;
    assert Link(ds, c, i);
  }

  lemma DroppedSame(h: Heap, g: Lists, d: nat, b: nat, p: nat, prev: int)
    requires SoundBut(h, g, d) && d < |h.descs| && b < BUCKETS && PrevOf(g, b, p, d, prev) && NULL <= prev < |h.descs|
    requires h.descs[d].refcnt == 0 && g.where[d] == b
    ensures SameLive(h, g, Dropped(h, d, b, prev), DroppedLists(g, d, b, p))
    ensures h.descs[d].page > 0 && Fresh(Dropped(h, d, b, prev), DroppedLists(g, d, b, p), h.descs[d].page)
  {
    assert UsedOk(h.descs, h.mem, g.where, g.objects, d, d);
    var h2, g2 := Dropped(h, d, b, prev), DroppedLists(g, d, b, p);
    forall a: int, n: nat ensures Live(h2, g2, a, n) <==> Live(h, g, a, n) {
      DroppedLive(h, g, d, b, p, prev, a, n);
    }
    assert forall e: nat | e < |h.descs| :: h2.descs[e].page == h.descs[e].page;
  }

  lemma PushOne(h: Heap, g: Lists, d: nat, k: nat)
    requires Sound(h, g) && LiveObject(h, g, d, k)
    requires h.descs[d].refcnt > 0 && Addr(h.descs[d], k) / 4 < |h.mem|
    ensures OneLess(h, g, Pushed(h, d, k), PushedLists(g, d, k), Addr(h.descs[d], k))
    ensures KeepsOthers(h, g, Addr(h.descs[d], k), Pushed(h, d, k).mem)
  {
    var r := Addr(h.descs[d], k);
    var h2, g2 := Pushed(h, d, k), PushedLists(g, d, k);
    forall a: int, m: nat ensures Live(h2, g2, a, m) <==> Live(h, g, a, m) && a != r {
      PushLive(h, g, d, k, a, m);
    }
    LiveInMemory(h, g);
    forall w: nat | InOther(h, g, r, w) ensures w < |h2.mem| && h2.mem[w] == h.mem[w] {
      var a: int, n: nat :| Live(h, g, a, n) && a != r && a <= 4 * w < a + n;
      assert InObject(h, g, w);
      PushWords(h, g, d, k, a, n, w);
    }
  }

  /** The first k links are written. */
  ghost predicate Threading(mem: seq<nat>, d: Desc, k: nat)
    requires d.size > 0
  {
    forall j: nat | j < k :: ThreadAt(mem, d, j)
  }

  /** Only words of this page differ. */
  ghost predicate SameElsewhere(m: seq<nat>, m2: seq<nat>, page: nat) {
    |m2| == |m| && forall w: nat | w < |m| && w / 1024 != page / PAGE_SIZE :: m2[w] == m[w]
  }

  lemma ThreadStep(mem: seq<nat>, m2: seq<nat>, d: Desc, k: nat, v: nat)
    requires PageOk(d, |mem|) && k < Slots(d.size) && v == (if k + 1 < Slots(d.size) then Addr(d, k + 1) else 0)
    requires Threading(mem, d, k) && Addr(d, k) / 4 < |mem| && m2 == mem[Addr(d, k) / 4 := v]
    ensures Addr(d, k) / 4 / 1024 == d.page / PAGE_SIZE && Threading(m2, d, k + 1)
  {
    AddrInside(d, |mem|, k);
    forall j: nat | j < k ensures ThreadAt(m2, d, j) {
      assert ThreadAt(mem, d, j);
      OtherWord(d, |mem|, j, k);
    }
  }

  lemma NextAddr(d: Desc, k: nat)
    ensures Addr(d, k) + d.size == Addr(d, k + 1)
  {}
}
