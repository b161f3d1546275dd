/**
 The buffer heads of fs/buffer.c: one array threaded through a circular free list and 307 hash
 chains. Pointers are indices into the array, NULL is -1.
 */
module BufferQueues {
  import opened IndexLists
  import M = BufferMachine

  const NR_HASH: nat := 307

  datatype Head = Head(dev: nat, block: nat, count: nat, dirt: bool, lock: bool, uptodate: bool,
                       next: int, prev: int, nextFree: int, prevFree: int)

  /** Bitwise exclusive or. */
  function Xor(a: nat, b: nat): nat
    decreases a + b
  {
    if a == 0 && b == 0 then 0 else (a + b) % 2 + 2 * Xor(a / 2, b / 2)
  }

  /** _hashfn */
  function Hash(dev: nat, block: nat): nat
  {
    Xor(dev, block) % NR_HASH
  }

  function HashOf(h: Head): nat
  {
    Hash(h.dev, h.block)
  }

  /** BADNESS */
  function Badness(h: Head): nat
  {
    (if h.dirt then 2 else 0) + (if h.lock then 1 else 0)
  }

  function Succ(i: nat, n: nat): nat
    requires i < n
  {
    if i + 1 == n then 0 else i + 1
  }

  // ---------------------------------------------------------------- the free list

  ghost predicate RingLink(hs: seq<Head>, ring: seq<int>, i: nat)
    requires Within(hs, ring) && i < |ring|
  {
    var j := Succ(i, |ring|);
    hs[ring[i]].nextFree == ring[j] && hs[ring[j]].prevFree == ring[i]
  }

  /** The free list runs through `ring` and back; b_next_free and b_prev_free are inverse. */
  ghost predicate Ring(hs: seq<Head>, ring: seq<int>)
  {
    && Within(hs, ring) && Distinct(ring)
    && forall i: nat | i < |ring| :: RingLink(hs, ring, i)
  }

  /** The two stores of remove_from_queues into the free list. */
  ghost predicate FreeUnlinked(hs: seq<Head>, hs2: seq<Head>, b: int)
    requires 0 <= b < |hs|
  {
    && |hs2| == |hs|
    && forall i: nat | i < |hs| ::
         && hs2[i].nextFree == (if i == hs[b].prevFree then hs[b].nextFree else hs[i].nextFree)
         && hs2[i].prevFree == (if i == hs[b].nextFree then hs[b].prevFree else hs[i].prevFree)
  }

  lemma DropAt(c: seq<int>, p: nat, i: nat)
    requires p < |c| && i < |c| - 1
    ensures Drop(c, p)[i] == if i < p then c[i] else c[i + 1]
  {}

  lemma DropDistinct(c: seq<int>, p: nat)
    requires Distinct(c) && p < |c|
    ensures Distinct(Drop(c, p)) && c[p] !in Drop(c, p)
    ensures forall x | x in c && x != c[p] :: x in Drop(c, p)
  {
    forall x | x in c && x != c[p] ensures x in Drop(c, p) {
      var i: nat :| i < |c| && c[i] == x;
      assert Drop(c, p)[if i < p then i else i - 1] == x;
    }
  }

  /** The neighbours of the head at p. */
  lemma RingNeighbours(hs: seq<Head>, ring: seq<int>, p: nat)
    requires Ring(hs, ring) && p < |ring|
    ensures hs[ring[p]].nextFree == ring[Succ(p, |ring|)]
    ensures hs[ring[p]].prevFree == ring[if p == 0 then |ring| - 1 else p - 1]
  {
    var q := if p == 0 then |ring| - 1 else p - 1;
    assert RingLink(hs, ring, p) && RingLink(hs, ring, q) && Succ(q, |ring|) == p;
  }

  /** b_next_free leads back to the first head only from the last. */
  lemma RingWraps(hs: seq<Head>, ring: seq<int>, p: nat)
    requires Ring(hs, ring) && p < |ring|
    ensures hs[ring[p]].nextFree == ring[0] <==> p == |ring| - 1
    ensures p < |ring| - 1 ==> hs[ring[p]].nextFree == ring[p + 1]
  {
    assert RingLink(hs, ring, p);
  }

  lemma RingLinkRemoved(hs: seq<Head>, hs2: seq<Head>, ring: seq<int>, p: nat, o: nat)
    requires Ring(hs, ring) && p < |ring| && |ring| >= 2 && o < |ring| && o != p
    requires FreeUnlinked(hs, hs2, ring[p])
    ensures
      var k := if Succ(o, |ring|) == p then Succ(p, |ring|) else Succ(o, |ring|);
      hs2[ring[o]].nextFree == ring[k] && hs2[ring[k]].prevFree == ring[o]
  {
    RingNeighbours(hs, ring, p);
    assert RingLink(hs, ring, o);
  }

  lemma RingRemoved(hs: seq<Head>, hs2: seq<Head>, ring: seq<int>, p: nat)
    requires Ring(hs, ring) && p < |ring| && |ring| >= 2
    requires FreeUnlinked(hs, hs2, ring[p])
    ensures Ring(hs2, Drop(ring, p))
  {
    var r := Drop(ring, p);
    DropDistinct(ring, p);
    assert Within(hs2, r);
    forall i: nat | i < |r| ensures RingLink(hs2, r, i) {
      RingLinkRemoved(hs, hs2, ring, p, if i < p then i else i + 1);
      DropAt(ring, p, i);
      DropAt(ring, p, Succ(i, |r|));
    }
  }

  /** The four stores of insert_into_queues into the free list, `first` being its head. */
  ghost predicate FreeLinked(hs: seq<Head>, hs2: seq<Head>, first: int, b: int)
    requires 0 <= b < |hs| && 0 <= first < |hs|
  {
    && |hs2| == |hs|
    && forall i: nat | i < |hs| ::
         && hs2[i].nextFree == (if i == b then first else if i == hs[first].prevFree then b else hs[i].nextFree)
         && hs2[i].prevFree == (if i == b then hs[first].prevFree else if i == first then b else hs[i].prevFree)
  }

  lemma RingInserted(hs: seq<Head>, hs2: seq<Head>, ring: seq<int>, b: int)
    requires Ring(hs, ring) && ring != [] && 0 <= b < |hs| && b !in ring
    requires FreeLinked(hs, hs2, ring[0], b)
    ensures Ring(hs2, ring + [b])
  {
    var r := ring + [b];
    RingNeighbours(hs, ring, 0);
    assert Within(hs2, r);
    forall i: nat | i < |r| ensures RingLink(hs2, r, i) {
      if i < |ring| {
        assert RingLink(hs, ring, i);
      }
    }
  }

  // ---------------------------------------------------------------- the hash chains

  ghost predicate ChainLink(hs: seq<Head>, c: seq<int>, i: nat)
    requires Within(hs, c) && i < |c|
  {
    hs[c[i]].next == At(c, i + 1) && hs[c[i]].prev == At(c, i - 1)
  }

  ghost predicate Chain(hs: seq<Head>, first: int, c: seq<int>)
  {
    && Within(hs, c) && Distinct(c) && first == At(c, 0)
    && forall i: nat | i < |c| :: ChainLink(hs, c, i)
  }

  /** The three conditional stores of remove_from_queues into the chain of b. */
  ghost predicate HashUnlinked(hs: seq<Head>, hs2: seq<Head>, b: int)
    requires 0 <= b < |hs|
  {
    && |hs2| == |hs|
    && forall i: nat | i < |hs| ::
         && hs2[i].next == (if i == hs[b].prev then hs[b].next else hs[i].next)
         && hs2[i].prev == (if i == hs[b].next then hs[b].prev else hs[i].prev)
  }

  lemma ChainLinkRemoved(hs: seq<Head>, hs2: seq<Head>, first: int, c: seq<int>, p: nat, o: nat)
    requires Chain(hs, first, c) && p < |c| && o < |c| && o != p
    requires HashUnlinked(hs, hs2, c[p])
    ensures hs2[c[o]].next == (if o + 1 == p then At(c, p + 1) else At(c, o + 1))
    ensures hs2[c[o]].prev == (if o == p + 1 then At(c, p - 1) else At(c, o - 1))
  {
    assert ChainLink(hs, c, o) && ChainLink(hs, c, p);
  }

  lemma ChainRemoved(hs: seq<Head>, hs2: seq<Head>, first: int, c: seq<int>, p: nat)
    requires Chain(hs, first, c) && p < |c|
    requires HashUnlinked(hs, hs2, c[p])
    ensures Chain(hs2, if first == c[p] then hs[c[p]].next else first, Drop(c, p))
  {
    var r := Drop(c, p);
    DropDistinct(c, p);
    assert ChainLink(hs, c, p);
    assert Within(hs2, r);
    forall i: nat | i < |r| ensures ChainLink(hs2, r, i) {
      ChainLinkRemoved(hs, hs2, first, c, p, if i < p then i else i + 1);
    }
  }

  /** A chain that b is not on keeps its links. */
  lemma ChainElsewhere(hs: seq<Head>, hs2: seq<Head>, first: int, c: seq<int>, b: int)
    requires Chain(hs, first, c) && 0 <= b < |hs| && HashUnlinked(hs, hs2, b)
    requires hs[b].next !in c && hs[b].prev !in c
    ensures Chain(hs2, first, c)
  {
    forall i: nat | i < |c| ensures ChainLink(hs2, c, i) {
      assert ChainLink(hs, c, i);
    }
  }

  /** The stores of insert_into_queues into the chain that b joins. */
  ghost predicate HashLinked(hs: seq<Head>, hs2: seq<Head>, first: int, b: int)
  {
    && |hs2| == |hs|
    && forall i: nat | i < |hs| ::
         && hs2[i].next == (if i == b then first else hs[i].next)
         && hs2[i].prev == (if i == b then NULL else if i == first then b else hs[i].prev)
  }

  lemma ChainInserted(hs: seq<Head>, hs2: seq<Head>, first: int, c: seq<int>, b: int)
    requires Chain(hs, first, c) && 0 <= b < |hs| && b !in c && HashLinked(hs, hs2, first, b)
    ensures Chain(hs2, b, [b] + c)
  {
    var r := [b] + c;
    assert Within(hs2, r);
    forall i: nat | i < |r| ensures ChainLink(hs2, r, i) {
      if i > 0 {
        assert ChainLink(hs, c, i - 1);
      }
    }
  }

  lemma ChainUntouched(hs: seq<Head>, hs2: seq<Head>, first: int, c: seq<int>, head: int, b: int)
    requires Chain(hs, first, c) && HashLinked(hs, hs2, head, b) && b !in c && head !in c
    ensures Chain(hs2, first, c)
  {
    forall i: nat | i < |c| ensures ChainLink(hs2, c, i) {
      assert ChainLink(hs, c, i);
    }
  }

  // ---------------------------------------------------------------- the whole structure

  /** What the queues do not touch. */
  predicate SameButLinks(x: Head, y: Head)
  {
    x.dev == y.dev && x.block == y.block && x.count == y.count
    && x.dirt == y.dirt && x.lock == y.lock && x.uptodate == y.uptodate
  }

  /** The heads on chain h have a device and hash to h. */
  ghost predicate RightChain(hs: seq<Head>, c: seq<int>, h: nat)
    requires Within(hs, c)
  {
    forall i: nat | i < |c| :: hs[c[i]].dev != 0 && HashOf(hs[c[i]]) == h
  }

  ghost predicate Chains(hs: seq<Head>, table: seq<int>, cs: seq<seq<int>>)
  {
    && |table| == NR_HASH && |cs| == NR_HASH
    && forall h: nat | h < NR_HASH :: Chain(hs, table[h], cs[h]) && RightChain(hs, cs[h], h)
  }

  /** Every head but `out` is on the free list, and on the chain of its hash if it has a device. */
  ghost predicate Filed(hs: seq<Head>, ring: seq<int>, cs: seq<seq<int>>, out: int)
    requires |cs| == NR_HASH
  {
    && out !in ring && (forall h: nat | h < NR_HASH :: out !in cs[h])
    && forall b: nat | b < |hs| && b != out ::
         && b in ring
         && (hs[b].dev != 0 ==> b in cs[HashOf(hs[b])])
         && (hs[b].dev == 0 ==> hs[b].next == NULL && hs[b].prev == NULL)
  }

  ghost predicate Structure(hs: seq<Head>, table: seq<int>, freeList: int, ring: seq<int>, cs: seq<seq<int>>, out: int)
  {
    && Ring(hs, ring) && ring != [] && freeList == ring[0]
    && Chains(hs, table, cs) && Filed(hs, ring, cs, out)
  }

  ghost function IndexOf(c: seq<int>, b: int): (p: nat)
    requires b in c
    ensures p < |c| && c[p] == b
  {
    var p: nat :| p < |c| && c[p] == b;
    p
  }

  /** c without b. */
  ghost function Without(c: seq<int>, b: int): seq<int>
  {
    if b in c then Drop(c, IndexOf(c, b)) else c
  }

  lemma OnOneChain(hs: seq<Head>, table: seq<int>, cs: seq<seq<int>>, b: int, g: nat, h: nat)
    requires Chains(hs, table, cs) && g < NR_HASH && h < NR_HASH && b in cs[g] && b in cs[h]
    ensures g == h
  {
    var i: nat :| i < |cs[g]| && cs[g][i] == b;
    var j: nat :| j < |cs[h]| && cs[h][j] == b;
    assert RightChain(hs, cs[g], g) && RightChain(hs, cs[h], h);
  }

  lemma ChainMembers(hs: seq<Head>, first: int, c: seq<int>, b: int)
    requires Chain(hs, first, c) && b in c
    ensures 0 <= b < |hs|
    ensures hs[b].next == NULL || hs[b].next in c
    ensures hs[b].prev == NULL || hs[b].prev in c
    ensures first == b <==> hs[b].prev == NULL
  {
    var i: nat :| i < |c| && c[i] == b;
    assert ChainLink(hs, c, i);
  }

  /** The links of a head lead nowhere or along its own chain. */
  lemma LinksLocal(hs: seq<Head>, table: seq<int>, ring: seq<int>, cs: seq<seq<int>>, b: nat, h: nat)
    requires Chains(hs, table, cs) && Filed(hs, ring, cs, NULL) && b < |hs| && h < NR_HASH && b !in cs[h]
    ensures hs[b].next !in cs[h] && hs[b].prev !in cs[h] && table[h] != b
  {
    assert Chain(hs, table[h], cs[h]);
    if hs[b].dev != 0 {
      var g := HashOf(hs[b]);
      assert Chain(hs, table[g], cs[g]);
      ChainMembers(hs, table[g], cs[g], b);
      if hs[b].next in cs[h] {
        OnOneChain(hs, table, cs, hs[b].next, g, h);
      }
      if hs[b].prev in cs[h] {
        OnOneChain(hs, table, cs, hs[b].prev, g, h);
      }
    }
  }

  /** remove_from_queues as one relation between two states. */
  ghost predicate Unqueued(hs: seq<Head>, hs2: seq<Head>, table: seq<int>, table2: seq<int>, b: nat)
  {
    && b < |hs| && HashUnlinked(hs, hs2, b) && FreeUnlinked(hs, hs2, b)
    && (forall i: nat | i < |hs| :: SameButLinks(hs[i], hs2[i]))
    && |table| == |table2| == NR_HASH
    && forall h: nat | h < NR_HASH ::
         table2[h] == if h == HashOf(hs[b]) && table[h] == b then hs[b].next else table[h]
  }

  ghost function ChainsWithout(cs: seq<seq<int>>, b: int): (r: seq<seq<int>>)
    ensures |r| == |cs|
  {
    seq(|cs|, (h: nat) => if h < |cs| then Without(cs[h], b) else [])
  }

  lemma ChainUnqueued(hs: seq<Head>, hs2: seq<Head>, table: seq<int>, table2: seq<int>,
                      ring: seq<int>, cs: seq<seq<int>>, b: nat, h: nat)
    requires Chains(hs, table, cs) && Filed(hs, ring, cs, NULL) && Unqueued(hs, hs2, table, table2, b) && h < NR_HASH
    ensures var c := Without(cs[h], b); Chain(hs2, table2[h], c) && RightChain(hs2, c, h) && b !in c
    ensures forall x | x in cs[h] && x != b :: x in Without(cs[h], b)
  {
    assert Chain(hs, table[h], cs[h]) && RightChain(hs, cs[h], h);
    if b in cs[h] {
      ChainMembers(hs, table[h], cs[h], b);
      ChainRemoved(hs, hs2, table[h], cs[h], IndexOf(cs[h], b));
      DropDistinct(cs[h], IndexOf(cs[h], b));
    } else {
      LinksLocal(hs, table, ring, cs, b, h);
      ChainElsewhere(hs, hs2, table[h], cs[h], b);
    }
  }

  /** Two heads on the free list take two places. */
  lemma TwoOnRing(hs: seq<Head>, ring: seq<int>, cs: seq<seq<int>>)
    requires |cs| == NR_HASH && Filed(hs, ring, cs, NULL) && |hs| >= 2
    ensures |ring| >= 2
  {
    assert 0 in ring && 1 in ring;
    assert ring[IndexOf(ring, 0)] != ring[IndexOf(ring, 1)];
  }

  lemma RemovedRing(hs: seq<Head>, hs2: seq<Head>, ring: seq<int>, b: nat)
    requires Ring(hs, ring) && |ring| >= 2 && b < |hs| && b in ring && FreeUnlinked(hs, hs2, b)
    ensures var r := Without(ring, b);
      Ring(hs2, r) && r != [] && r[0] == (if ring[0] == b then hs[b].nextFree else ring[0]) && b !in r
    ensures forall x | x in ring && x != b :: x in Without(ring, b)
  {
    var p := IndexOf(ring, b);
    RingNeighbours(hs, ring, p);
    RingRemoved(hs, hs2, ring, p);
    DropDistinct(ring, p);
  }

  /** A head without a device is no neighbour of b. */
  lemma OtherUnhashed(hs: seq<Head>, hs2: seq<Head>, table: seq<int>, ring: seq<int>, cs: seq<seq<int>>, b: nat, x: nat)
    requires Chains(hs, table, cs) && Filed(hs, ring, cs, NULL) && b < |hs| && HashUnlinked(hs, hs2, b)
    requires x < |hs| && x != b && hs[x].dev == 0
    ensures hs2[x].next == NULL && hs2[x].prev == NULL
  {
    if hs[b].dev != 0 {
      var g := HashOf(hs[b]);
      assert Chain(hs, table[g], cs[g]) && RightChain(hs, cs[g], g);
      ChainMembers(hs, table[g], cs[g], b);
      assert x !in cs[g];
    }
  }

  lemma RemovedFiled(hs: seq<Head>, hs2: seq<Head>, table: seq<int>, table2: seq<int>,
                     ring: seq<int>, cs: seq<seq<int>>, b: nat)
    requires Chains(hs, table, cs) && Filed(hs, ring, cs, NULL) && Unqueued(hs, hs2, table, table2, b)
    requires b !in Without(ring, b) && forall x | x in ring && x != b :: x in Without(ring, b)
    ensures Chains(hs2, table2, ChainsWithout(cs, b)) && Filed(hs2, Without(ring, b), ChainsWithout(cs, b), b)
  {
    forall h: nat | h < NR_HASH
      ensures var c := ChainsWithout(cs, b)[h];
        Chain(hs2, table2[h], c) && RightChain(hs2, c, h) && b !in c
      ensures forall x | x in cs[h] && x != b :: x in ChainsWithout(cs, b)[h]
    {
      ChainUnqueued(hs, hs2, table, table2, ring, cs, b, h);
    }
    forall x: nat | x < |hs2| && x != b && hs2[x].dev == 0 ensures hs2[x].next == NULL && hs2[x].prev == NULL {
      OtherUnhashed(hs, hs2, table, ring, cs, b, x);
    }
  }

  /** After remove_from_queues the rest of the structure stands. */
  lemma Removed(hs: seq<Head>, hs2: seq<Head>, table: seq<int>, table2: seq<int>,
                ring: seq<int>, cs: seq<seq<int>>, b: nat)
    requires ring != [] && Structure(hs, table, ring[0], ring, cs, NULL)
    requires Unqueued(hs, hs2, table, table2, b) && |hs| >= 2
    ensures Structure(hs2, table2, if ring[0] == b then hs[b].nextFree else ring[0],
                      Without(ring, b), ChainsWithout(cs, b), b)
  {
    TwoOnRing(hs, ring, cs);
    RemovedRing(hs, hs2, ring, b);
    RemovedFiled(hs, hs2, table, table2, ring, cs, b);
  }

  /** insert_into_queues as one relation between two states. The store through b_next is left out
      when the chain was empty. */
  ghost predicate Queued(hs: seq<Head>, hs2: seq<Head>, table: seq<int>, table2: seq<int>, freeList: int, b: nat)
  {
    && b < |hs| && 0 <= freeList < |hs| && FreeLinked(hs, hs2, freeList, b)
    && (forall i: nat | i < |hs| :: SameButLinks(hs[i], hs2[i]))
    && |table| == |table2| == NR_HASH
    && (if hs[b].dev == 0
        then table2 == table && HashLinked(hs, hs2, NULL, b)
        else HashLinked(hs, hs2, table[HashOf(hs[b])], b) && table2 == table[HashOf(hs[b]) := b])
  }

  ghost function ChainsWith(hs: seq<Head>, cs: seq<seq<int>>, b: nat): seq<seq<int>>
    requires b < |hs| && |cs| == NR_HASH
  {
    if hs[b].dev == 0 then cs else cs[HashOf(hs[b]) := [b] + cs[HashOf(hs[b])]]
  }

  lemma FirstElsewhere(hs: seq<Head>, table: seq<int>, cs: seq<seq<int>>, g: nat, h: nat)
    requires Chains(hs, table, cs) && g < NR_HASH && h < NR_HASH && g != h
    ensures table[g] !in cs[h]
  {
    assert Chain(hs, table[g], cs[g]) && RightChain(hs, cs[g], g);
    assert Chain(hs, table[h], cs[h]) && RightChain(hs, cs[h], h);
  }

  lemma ChainQueued(hs: seq<Head>, hs2: seq<Head>, table: seq<int>, table2: seq<int>, freeList: int,
                    ring: seq<int>, cs: seq<seq<int>>, b: nat, h: nat)
    requires Chains(hs, table, cs) && Filed(hs, ring, cs, b) && Queued(hs, hs2, table, table2, freeList, b)
    requires h < NR_HASH
    ensures var c := ChainsWith(hs, cs, b)[h]; Chain(hs2, table2[h], c) && RightChain(hs2, c, h)
  {
    assert Chain(hs, table[h], cs[h]) && RightChain(hs, cs[h], h);
    var g := HashOf(hs[b]);
    if hs[b].dev == 0 {
      ChainUntouched(hs, hs2, table[h], cs[h], NULL, b);
    } else if h == g {
      ChainInserted(hs, hs2, table[h], cs[h], b);
    } else {
      FirstElsewhere(hs, table, cs, g, h);
      ChainUntouched(hs, hs2, table[h], cs[h], table[g], b);
    }
  }

  lemma InsertedMember(hs: seq<Head>, hs2: seq<Head>, table: seq<int>, table2: seq<int>, freeList: int,
                       ring: seq<int>, cs: seq<seq<int>>, b: nat, x: nat)
    requires Chains(hs, table, cs) && Filed(hs, ring, cs, b) && Queued(hs, hs2, table, table2, freeList, b)
    requires x < |hs2|
    ensures hs2[x].dev != 0 ==> x in ChainsWith(hs, cs, b)[HashOf(hs2[x])]
    ensures hs2[x].dev == 0 ==> hs2[x].next == NULL && hs2[x].prev == NULL
  {
    var g := HashOf(hs[b]);
    assert Chain(hs, table[g], cs[g]) && RightChain(hs, cs[g], g);
    assert SameButLinks(hs[x], hs2[x]) && HashOf(hs[x]) == HashOf(hs2[x]);
  }

  lemma InsertedFiled(hs: seq<Head>, hs2: seq<Head>, table: seq<int>, table2: seq<int>, freeList: int,
                      ring: seq<int>, cs: seq<seq<int>>, b: nat)
    requires Chains(hs, table, cs) && Filed(hs, ring, cs, b) && Queued(hs, hs2, table, table2, freeList, b)
    requires Within(hs, ring)
    ensures Filed(hs2, ring + [b], ChainsWith(hs, cs, b), NULL)
  {
    forall h: nat | h < NR_HASH ensures NULL !in ChainsWith(hs, cs, b)[h] {
      assert Chain(hs, table[h], cs[h]);
    }
    forall x: nat | x < |hs2|
      ensures x in ring + [b]
      ensures hs2[x].dev != 0 ==> x in ChainsWith(hs, cs, b)[HashOf(hs2[x])]
      ensures hs2[x].dev == 0 ==> hs2[x].next == NULL && hs2[x].prev == NULL
    {
      InsertedMember(hs, hs2, table, table2, freeList, ring, cs, b, x);
      if x != b {
        assert x in ring;
      }
    }
  }

  /** insert_into_queues puts the head back: last on the free list, first on its chain. */
  lemma Inserted(hs: seq<Head>, hs2: seq<Head>, table: seq<int>, table2: seq<int>,
                 ring: seq<int>, cs: seq<seq<int>>, b: nat)
    requires ring != [] && Structure(hs, table, ring[0], ring, cs, b)
    requires Queued(hs, hs2, table, table2, ring[0], b)
    ensures Structure(hs2, table2, ring[0], ring + [b], ChainsWith(hs, cs, b), NULL)
  {
    RingInserted(hs, hs2, ring, b);
    InsertedFiled(hs, hs2, table, table2, ring[0], ring, cs, b);
    forall h: nat | h < NR_HASH
      ensures var c := ChainsWith(hs, cs, b)[h]; Chain(hs2, table2[h], c) && RightChain(hs2, c, h)
    {
      ChainQueued(hs, hs2, table, table2, ring[0], ring, cs, b, h);
    }
  }

  // ---------------------------------------------------------------- pointer stores

  predicate SameFree(x: Head, y: Head)
  {
    x.nextFree == y.nextFree && x.prevFree == y.prevFree
  }

  predicate SameHash(x: Head, y: Head)
  {
    x.next == y.next && x.prev == y.prev
  }

  ghost predicate OnlyHash(hs: seq<Head>, hs2: seq<Head>)
  {
    |hs2| == |hs| && forall i: nat | i < |hs| :: SameButLinks(hs[i], hs2[i]) && SameFree(hs[i], hs2[i])
  }

  ghost predicate OnlyFree(hs: seq<Head>, hs2: seq<Head>)
  {
    |hs2| == |hs| && forall i: nat | i < |hs| :: SameButLinks(hs[i], hs2[i]) && SameHash(hs[i], hs2[i])
  }

  lemma UnqueuedInTwo(hs: seq<Head>, hm: seq<Head>, hs2: seq<Head>, table: seq<int>, table2: seq<int>, b: nat)
    requires b < |hs| && HashUnlinked(hs, hm, b) && OnlyHash(hs, hm)
    requires FreeUnlinked(hm, hs2, b) && OnlyFree(hm, hs2)
    requires |table| == |table2| == NR_HASH
    requires forall h: nat | h < NR_HASH ::
      table2[h] == if h == HashOf(hs[b]) && table[h] == b then hs[b].next else table[h]
    ensures Unqueued(hs, hs2, table, table2, b)
  {
    forall i: nat | i < |hs|
      ensures SameButLinks(hs[i], hs2[i])
      ensures hs2[i].next == (if i == hs[b].prev then hs[b].next else hs[i].next)
      ensures hs2[i].prev == (if i == hs[b].next then hs[b].prev else hs[i].prev)
      ensures hs2[i].nextFree == (if i == hs[b].prevFree then hs[b].nextFree else hs[i].nextFree)
      ensures hs2[i].prevFree == (if i == hs[b].nextFree then hs[b].prevFree else hs[i].prevFree)
    {
      assert SameFree(hs[b], hm[b]) && SameFree(hs[i], hm[i]) && SameHash(hm[i], hs2[i]);
    }
  }

  lemma QueuedInTwo(hs: seq<Head>, hm: seq<Head>, hs2: seq<Head>, table: seq<int>, table2: seq<int>, first: int, b: nat)
    requires b < |hs| && 0 <= first < |hs| && FreeLinked(hs, hm, first, b) && OnlyFree(hs, hm)
    requires OnlyHash(hm, hs2) && |table| == |table2| == NR_HASH
    requires
      if hs[b].dev == 0
      then table2 == table && HashLinked(hm, hs2, NULL, b)
      else HashLinked(hm, hs2, table[HashOf(hs[b])], b) && table2 == table[HashOf(hs[b]) := b]
    ensures Queued(hs, hs2, table, table2, first, b)
  {
    var g := if hs[b].dev == 0 then NULL else table[HashOf(hs[b])];
    forall i: nat | i < |hs|
      ensures SameButLinks(hs[i], hs2[i])
      ensures hs2[i].nextFree == (if i == b then first else if i == hs[first].prevFree then b else hs[i].nextFree)
      ensures hs2[i].prevFree == (if i == b then hs[first].prevFree else if i == first then b else hs[i].prevFree)
      ensures hs2[i].next == (if i == b then g else hs[i].next)
      ensures hs2[i].prev == (if i == b then NULL else if i == g then b else hs[i].prev)
    {
      assert SameHash(hs[i], hm[i]) && SameFree(hm[i], hs2[i]);
    }
  }

  // ---------------------------------------------------------------- the operations

  /** Head b carries the block. */
  predicate Carries(hs: seq<Head>, b: int, dev: nat, block: nat)
  {
    0 <= b < |hs| && hs[b].dev == dev && hs[b].block == block
  }

  ghost predicate NoneCarries(hs: seq<Head>, dev: nat, block: nat)
  {
    forall b: nat | b < |hs| :: !Carries(hs, b, dev, block)
  }

  /** Position p is what getblk's scan of the first n places of the free list ends with: the head
      is unused, nothing unused before it is as good, and nothing unused after it is better. */
  ghost predicate Best(hs: seq<Head>, ring: seq<int>, n: nat, p: nat)
    requires Within(hs, ring) && n <= |ring|
  {
    && p < n && hs[ring[p]].count == 0
    && (forall q: nat | q < p && hs[ring[q]].count == 0 :: Badness(hs[ring[q]]) > Badness(hs[ring[p]]))
    && (forall q: nat | p < q < n && hs[ring[q]].count == 0 :: Badness(hs[ring[q]]) >= Badness(hs[ring[p]]))
  }

  /** The scan has seen n places and its candidate is bh. */
  ghost predicate Scanned(hs: seq<Head>, ring: seq<int>, n: nat, bh: int)
    requires Within(hs, ring) && n <= |ring|
  {
    if bh == NULL then forall q: nat | q < n :: hs[ring[q]].count > 0
    else exists p: nat :: p < n && ring[p] == bh && Best(hs, ring, n, p)
  }

  lemma ScanNext(hs: seq<Head>, ring: seq<int>, n: nat, bh: int)
    requires Within(hs, ring) && n < |ring| && Scanned(hs, ring, n, bh)
    ensures
      var x := hs[ring[n]];
      Scanned(hs, ring, n + 1,
        if x.count == 0 && (bh == NULL || Badness(x) < Badness(hs[bh])) then ring[n] else bh)
  {
    var x := hs[ring[n]];
    if x.count == 0 && bh == NULL {
      assert Best(hs, ring, n + 1, n);
    } else if bh != NULL {
      var p: nat :| p < n && ring[p] == bh && Best(hs, ring, n, p);
      assert Best(hs, ring, n + 1, if x.count == 0 && Badness(x) < Badness(hs[bh]) then n else p);
    }
  }

  /** Nothing is better than a clean unlocked head: the scan may stop. */
  lemma ScanStop(hs: seq<Head>, ring: seq<int>, n: nat, bh: int)
    requires Within(hs, ring) && n <= |ring| && bh != NULL && Scanned(hs, ring, n, bh) && Badness(hs[bh]) == 0
    ensures Scanned(hs, ring, |ring|, bh)
  {
    var p: nat :| p < n && ring[p] == bh && Best(hs, ring, n, p);
    assert Best(hs, ring, |ring|, p);
  }

  lemma ScannedAll(hs: seq<Head>, ring: seq<int>, cs: seq<seq<int>>, bh: int)
    requires Within(hs, ring) && |cs| == NR_HASH && Filed(hs, ring, cs, NULL) && Scanned(hs, ring, |ring|, bh)
    ensures bh == NULL <==> forall b: nat | b < |hs| :: hs[b].count > 0
    ensures bh != NULL ==>
      && 0 <= bh < |hs| && hs[bh].count == 0
      && (forall b: nat | b < |hs| && hs[b].count == 0 && hs[bh].dirt :: hs[b].dirt)
      && forall b: nat | b < |hs| && hs[b].count == 0 && hs[b].dirt == hs[bh].dirt && hs[bh].lock :: hs[b].lock
  {
    if bh == NULL {
      forall b: nat | b < |hs| ensures hs[b].count > 0 {
        assert b in ring;
        assert hs[ring[IndexOf(ring, b)]].count > 0;
      }
    } else {
      var p: nat :| p < |ring| && ring[p] == bh && Best(hs, ring, |ring|, p);
      forall b: nat | b < |hs| && hs[b].count == 0 ensures Badness(hs[bh]) <= Badness(hs[b]) {
        assert b in ring;
        var q := IndexOf(ring, b);
        assert q < p || q == p || q > p;
      }
    }
  }

  /** start_buffer, hash_table and free_list. `strays` counts the stores through a NULL b_next that
      insert_into_queues makes; their effect on other memory is not modelled. */
  class Queues {
    const heads: array<Head>
    const hashTable: array<int>
    var freeList: int
    ghost var strays: nat
    ghost var ring: seq<int>
    ghost var chains: seq<seq<int>>

    ghost predicate ValidBut(out: int)
      reads this, heads, hashTable
    {
      && heads != hashTable as object
      && Structure(heads[..], hashTable[..], freeList, ring, chains, out)
    }

    ghost predicate Valid()
      reads this, heads, hashTable
    {
      ValidBut(NULL)
    }

    /** find_buffer */
    method FindBuffer(dev: nat, block: nat) returns (r: int)
      requires Valid()
      ensures r == NULL <==> dev == 0 || NoneCarries(heads[..], dev, block)
      ensures r != NULL ==> Carries(heads[..], r, dev, block)
    {
      ghost var h := Hash(dev, block);
      ghost var c := chains[h];
      ghost var i: nat := 0;
      assert Chain(heads[..], hashTable[..][h], c) && RightChain(heads[..], c, h);
      assert forall b: nat | dev != 0 && Carries(heads[..], b, dev, block) :: b in c;
      r := hashTable[Hash(dev, block)];
      while r != NULL
        invariant i <= |c| && r == At(c, i)
        invariant forall j: nat | j < i :: !Carries(heads[..], c[j], dev, block)
        decreases |c| - i
      {
        if heads[r].dev == dev && heads[r].block == block {
          assert heads[..][c[i]].dev != 0 && Carries(heads[..], r, dev, block);
          return;
        }
        assert ChainLink(heads[..], c, i);
        r := heads[r].next;
        i := i + 1;
      }
    }

    /** One head of the scan; `done` when nothing can be better. */
    method Consider(tmp: int, bh: int, ghost hs: seq<Head>, ghost ring: seq<int>, ghost i: nat) returns (r: int, done: bool)
      requires hs == heads[..] && Within(hs, ring) && i < |ring| && tmp == ring[i] && Scanned(hs, ring, i, bh)
      ensures Scanned(hs, ring, i + 1, r) && (done ==> 0 <= r < |hs| && Badness(hs[r]) == 0)
    {
      ScanNext(hs, ring, i, bh);
      if heads[tmp].count == 0 && (bh == NULL || Badness(heads[tmp]) < Badness(heads[bh])) {
        return tmp, Badness(heads[tmp]) == 0;
      }
      return bh, false;
    }

    /** The scan of the free list in getblk. */
    method PickVictim() returns (bh: int)
      requires Valid()
      ensures Scanned(heads[..], ring, |ring|, bh)
      ensures bh == NULL <==> forall b: nat | b < heads.Length :: heads[b].count > 0
      ensures bh != NULL ==>
        && 0 <= bh < heads.Length && heads[bh].count == 0
        && (forall b: nat | b < heads.Length && heads[b].count == 0 && heads[bh].dirt :: heads[b].dirt)
        && forall b: nat | b < heads.Length && heads[b].count == 0 && heads[b].dirt == heads[bh].dirt && heads[bh].lock ::
             heads[b].lock
    {
      ghost var hs := heads[..];
      bh := NULL;
      assert Scanned(hs, ring, 0, bh);
      hide Scanned, Badness;
      var tmp := freeList;
      ghost var i: nat := 0;
      while true
        invariant i < |ring| && tmp == ring[i] && Scanned(hs, ring, i, bh)
        decreases |ring| - i
      {
        var done;
        bh, done := Consider(tmp, bh, hs, ring, i);
        i := i + 1;
        if done {
          ScanStop(hs, ring, i, bh);
          break;
        }
        RingWraps(hs, ring, i - 1);
        tmp := heads[tmp].nextFree;
        if tmp == freeList {
          break;
        }
      }
      ScannedAll(hs, ring, chains, bh);
    }

    /** remove_from_queues, the hash queue. */
    method UnlinkHash(bh: nat)
      requires bh < heads.Length && hashTable.Length == NR_HASH && heads != hashTable as object
      requires -1 <= heads[bh].next < heads.Length && -1 <= heads[bh].prev < heads.Length && heads[bh].next != bh
      modifies heads, hashTable
      ensures HashUnlinked(old(heads[..]), heads[..], bh) && OnlyHash(old(heads[..]), heads[..])
      ensures forall h: nat | h < NR_HASH ::
        hashTable[h] == if h == old(HashOf(heads[bh])) && old(hashTable[h]) == bh then old(heads[bh].next) else old(hashTable[h])
    {
      if heads[bh].next != NULL {
        heads[heads[bh].next] := heads[heads[bh].next].(prev := heads[bh].prev);
      }
      if heads[bh].prev != NULL {
        heads[heads[bh].prev] := heads[heads[bh].prev].(next := heads[bh].next);
      }
      var h := Hash(heads[bh].dev, heads[bh].block);
      if hashTable[h] == bh {
        hashTable[h] := heads[bh].next;
      }
    }

    /** remove_from_queues, the free list. */
    method UnlinkFree(bh: nat) returns (panicked: bool)
      requires bh < heads.Length && heads[bh].prevFree != bh && heads[bh].nextFree != bh
      requires -1 <= heads[bh].nextFree < heads.Length && -1 <= heads[bh].prevFree < heads.Length
      modifies this`freeList, heads
      ensures panicked <==> old(heads[bh].nextFree) == NULL || old(heads[bh].prevFree) == NULL
      ensures !panicked ==> FreeUnlinked(old(heads[..]), heads[..], bh) && OnlyFree(old(heads[..]), heads[..])
      ensures !panicked ==> freeList == if old(freeList) == bh then old(heads[bh].nextFree) else old(freeList)
    {
      if heads[bh].prevFree == NULL || heads[bh].nextFree == NULL {
        return true;
      }
      heads[heads[bh].prevFree] := heads[heads[bh].prevFree].(nextFree := heads[bh].nextFree);
      heads[heads[bh].nextFree] := heads[heads[bh].nextFree].(prevFree := heads[bh].prevFree);
      if freeList == bh {
        freeList := heads[bh].nextFree;
      }
      panicked := false;
    }

    /** remove_from_queues. It never finds the free list corrupted. */
    method RemoveFromQueues(bh: nat) returns (panicked: bool)
      requires Valid() && bh < heads.Length && heads.Length >= 2
      modifies this`freeList, this`ring, this`chains, heads, hashTable
      ensures !panicked && ValidBut(bh)
      ensures ring == Without(old(ring), bh) && chains == ChainsWithout(old(chains), bh)
      ensures forall i: nat | i < heads.Length :: SameButLinks(old(heads[i]), heads[i])
    {
      ghost var hs, table := heads[..], hashTable[..];
      LinksInRange(hs, table, freeList, ring, chains, bh);
      UnlinkHash(bh);
      ghost var hm := heads[..];
      assert SameFree(hs[bh], hm[bh]);
      panicked := UnlinkFree(bh);
      UnqueuedInTwo(hs, hm, heads[..], table, hashTable[..], bh);
      Removed(hs, heads[..], table, hashTable[..], ring, chains, bh);
      ring, chains := Without(ring, bh), ChainsWithout(chains, bh);
    }

    /** insert_into_queues, the free list. */
    method LinkFree(bh: nat)
      requires bh < heads.Length && 0 <= freeList < heads.Length && freeList != bh
      requires 0 <= heads[freeList].prevFree < heads.Length && heads[freeList].prevFree != bh
      modifies heads
      ensures FreeLinked(old(heads[..]), heads[..], freeList, bh) && OnlyFree(old(heads[..]), heads[..])
    {
      heads[bh] := heads[bh].(nextFree := freeList);
      heads[bh] := heads[bh].(prevFree := heads[freeList].prevFree);
      heads[heads[freeList].prevFree] := heads[heads[freeList].prevFree].(nextFree := bh);
      heads[freeList] := heads[freeList].(prevFree := bh);
    }

    /** insert_into_queues, the hash queue. */
    method LinkHash(bh: nat)
      requires bh < heads.Length && hashTable.Length == NR_HASH && heads != hashTable as object
      requires var h := HashOf(heads[bh]); -1 <= hashTable[h] < heads.Length && hashTable[h] != bh
      modifies this`strays, heads, hashTable
      ensures OnlyHash(old(heads[..]), heads[..])
      ensures
        var h := old(HashOf(heads[bh]));
        if old(heads[bh].dev) == 0
        then hashTable[..] == old(hashTable[..]) && HashLinked(old(heads[..]), heads[..], NULL, bh)
        else HashLinked(old(heads[..]), heads[..], old(hashTable[h]), bh) && hashTable[..] == old(hashTable[..])[h := bh]
      ensures strays == old(strays) +
        if old(heads[bh].dev) != 0 && old(hashTable[HashOf(heads[bh])]) == NULL then 1 else 0
    {
      heads[bh] := heads[bh].(prev := NULL);
      heads[bh] := heads[bh].(next := NULL);
      if heads[bh].dev != 0 {
        var h := Hash(heads[bh].dev, heads[bh].block);
        heads[bh] := heads[bh].(next := hashTable[h]);
        hashTable[h] := bh;
        if heads[bh].next == NULL {
          strays := strays + 1;
        } else {
          heads[heads[bh].next] := heads[heads[bh].next].(prev := bh);
        }
      }
    }

    /** insert_into_queues. The last store goes through NULL exactly when the chain was empty. */
    method InsertIntoQueues(bh: nat)
      requires bh < heads.Length && ValidBut(bh)
      modifies this`ring, this`chains, this`strays, heads, hashTable
      ensures Valid() && ring == old(ring) + [bh] && chains == ChainsWith(old(heads[..]), old(chains), bh)
      ensures forall i: nat | i < heads.Length :: SameButLinks(old(heads[i]), heads[i])
      ensures strays == old(strays) +
        if heads[bh].dev != 0 && old(chains)[HashOf(heads[bh])] == [] then 1 else 0
    {
      ghost var hs, table := heads[..], hashTable[..];
      OutOfLinks(hs, table, freeList, ring, chains, bh);
      LinkFree(bh);
      ghost var hm := heads[..];
      assert SameButLinks(hs[bh], hm[bh]);
      LinkHash(bh);
      QueuedInTwo(hs, hm, heads[..], table, hashTable[..], freeList, bh);
      Inserted(hs, heads[..], table, hashTable[..], ring, chains, bh);
      ring, chains := ring + [bh], ChainsWith(hs, chains, bh);
    }
  
    /** The chosen buffer is taken into use, clean and with no valid data. */
    method Take(bh: nat)
      requires Valid() && bh < heads.Length
      modifies heads
      ensures Valid()
      ensures heads[bh] == old(heads[bh]).(count := 1, dirt := false, uptodate := false)
      ensures forall i: nat | i < heads.Length && i != bh :: heads[i] == old(heads[i])
    {
      ghost var hs := heads[..];
      heads[bh] := heads[bh].(count := 1);
      heads[bh] := heads[bh].(dirt := false);
      heads[bh] := heads[bh].(uptodate := false);
      StructureLinksOnly(hs, heads[..], hashTable[..], freeList, ring, chains, NULL, NULL);
    }

    method Rekey(bh: nat, dev: nat, block: nat)
      requires bh < heads.Length && ValidBut(bh)
      modifies heads
      ensures ValidBut(bh)
      ensures heads[bh] == old(heads[bh]).(dev := dev, block := block)
      ensures forall i: nat | i < heads.Length && i != bh :: heads[i] == old(heads[i])
    {
      ghost var hs := heads[..];
      heads[bh] := heads[bh].(dev := dev);
      heads[bh] := heads[bh].(block := block);
      StructureLinksOnly(hs, heads[..], hashTable[..], freeList, ring, chains, bh, bh);
    }

    /** The end of getblk: the buffer leaves its block and is filed under the new one. */
    method Claim(bh: nat, dev: nat, block: nat) returns (panicked: bool)
      requires Valid() && bh < heads.Length && heads.Length >= 2
      modifies this`freeList, this`ring, this`chains, this`strays, heads, hashTable
      ensures !panicked && Valid()
      ensures ring == Without(old(ring), bh) + [bh]
      ensures SameButLinks(heads[bh], Head(dev, block, 1, false, old(heads[bh].lock), false, NULL, NULL, 0, 0))
      ensures forall i: nat | i < heads.Length && i != bh :: SameButLinks(old(heads[i]), heads[i])
    {
      Take(bh);
      panicked := RemoveFromQueues(bh);
      Rekey(bh, dev, block);
      InsertIntoQueues(bh);
    }

    method SetCount(b: nat, count: nat)
      requires Valid() && b < heads.Length
      modifies heads
      ensures Valid() && heads[b] == old(heads[b]).(count := count)
      ensures forall i: nat | i < heads.Length && i != b :: heads[i] == old(heads[i])
    {
      ghost var hs := heads[..];
      heads[b] := heads[b].(count := count);
      StructureLinksOnly(hs, heads[..], hashTable[..], freeList, ring, chains, NULL, NULL);
    }

    /** getblk from `repeat` to where it sleeps or returns: one step of the machine, for call id. */
    method Repeat(dev: nat, block: nat, ghost s: M.State, ghost id: nat) returns (b: int, ghost a: M.Step)
      requires Valid() && heads.Length >= 2 && Matches(heads[..], s)
      requires dev != 0 && id in s.calls && s.calls[id] == M.Begin(M.Key(dev, block))
      modifies this`freeList, this`ring, this`chains, this`strays, heads, hashTable
      ensures Valid() && M.Enabled(s, a) && Matches(heads[..], M.Next(s, a))
      ensures if b == NULL then a == M.NoVictim(id) else b >= 0 && (a == M.Find(id, b) || a == M.Choose(id, b))
    {
      hide M.Victim, M.Next;
      ghost var hs := heads[..];
      b := FindBuffer(dev, block);
      FoundIsCached(hs, s, dev, block, b);
      if b != NULL {
        a := M.Find(id, b);
        SetCount(b, heads[b].count + 1);
        FoundHeld(hs, heads[..], s, id, dev, block, b);
        return;
      }
      b := PickVictim();
      if b == NULL {
        a := M.NoVictim(id);
        AllInUse(hs, s, id, dev, block);
        return;
      }
      ScanIsVictim(hs, ring, chains, b, s);
      a := M.Choose(id, b);
      if heads[b].lock || heads[b].count > 0 || heads[b].dirt {
        ChosenStays(hs, s, id, dev, block, b);
        return;
      }
      var panicked := Claim(b, dev, block);
      ChosenTaken(hs, heads[..], s, id, dev, block, b);
    }

    /** getblk back from wait_on_buffer for the buffer it chose, to where it sleeps again, starts
        over or returns. */
    method Settle(b: nat, dev: nat, block: nat, ghost s: M.State, ghost id: nat) returns (taken: bool)
      requires Valid() && heads.Length >= 2 && Matches(heads[..], s) && b < heads.Length && !heads[b].lock
      requires dev != 0 && id in s.calls
      requires s.calls[id] == M.WaitVictim(M.Key(dev, block), b) || s.calls[id] == M.WaitSynced(M.Key(dev, block), b)
      modifies this`freeList, this`ring, this`chains, this`strays, heads, hashTable
      ensures Valid() && M.Enabled(s, M.Resume(id)) && Matches(heads[..], M.Next(s, M.Resume(id)))
      ensures taken <==> M.Next(s, M.Resume(id)).calls[id] == M.Has(M.Key(dev, block), b)
    {
      ghost var hs := heads[..];
      if heads[b].count > 0 { return false; }
      if heads[b].dirt { return false; }
      var r := FindBuffer(dev, block);
      FoundIsCached(hs, s, dev, block, r);
      if r != NULL { return false; }
      var panicked := Claim(b, dev, block);
      MatchesMore(hs, heads[..], s, M.Next(s, M.Resume(id)), b);
      return true;
    }

    /** get_hash_table back from wait_on_buffer. */
    method Recheck(b: nat, dev: nat, block: nat, ghost s: M.State, ghost id: nat) returns (same: bool)
      requires Valid() && Matches(heads[..], s) && b < heads.Length && !heads[b].lock
      requires id in s.calls && s.calls[id] == M.WaitHash(M.Key(dev, block), b)
      modifies heads
      ensures Valid() && M.Enabled(s, M.Resume(id)) && Matches(heads[..], M.Next(s, M.Resume(id)))
      ensures same <==> M.Next(s, M.Resume(id)).calls[id] == M.Has(M.Key(dev, block), b)
    {
      ghost var hs := heads[..];
      if heads[b].dev == dev && heads[b].block == block { return true; }
      SetCount(b, if heads[b].count == 0 then 0 else heads[b].count - 1);
      MatchesMore(hs, heads[..], s, M.Next(s, M.Resume(id)), b);
      return false;
    }

    /** brelse back from wait_on_buffer; true when it panics. */
    method Brelse(b: nat, ghost s: M.State, ghost id: nat, ghost key: M.Key) returns (panicked: bool)
      requires Valid() && Matches(heads[..], s) && b < heads.Length && !heads[b].lock
      requires id in s.calls && s.calls[id] == M.Releasing(key, b)
      modifies heads
      ensures Valid() && M.Enabled(s, M.Resume(id)) && Matches(heads[..], M.Next(s, M.Resume(id)))
      ensures panicked <==> old(heads[b].count) == 0
      ensures M.Inv(s) ==> !panicked
    {
      ghost var hs := heads[..];
      panicked := heads[b].count == 0;
      if !panicked {
        SetCount(b, heads[b].count - 1);
        MatchesMore(hs, heads[..], s, M.Next(s, M.Resume(id)), b);
      }
      if M.Inv(s) { M.SleepersFindWhatTheyLeft(s, id); }
    }

    /** buffer_init for n buffers. */
    constructor (n: nat)
      requires n > 0
      ensures Valid() && fresh(heads) && fresh(hashTable) && heads.Length == n
      ensures strays == 0 && ring == Count(n)
      ensures forall i: nat | i < n ::
        SameButLinks(heads[i], Head(0, 0, 0, false, false, false, NULL, NULL, 0, 0))
    {
      var hs := new Head[n];
      var table := new int[NR_HASH];
      heads, hashTable := hs, table;
      freeList, strays, ring, chains := 0, 0, Count(n), seq(NR_HASH, (h: nat) => []);
      new;
      var h := 0;
      while h < n
        modifies hs
        invariant 0 <= h <= n
        invariant forall i: nat | i < h :: hs[i] == Head(0, 0, 0, false, false, false, NULL, NULL, i + 1, i - 1)
      {
        hs[h] := Head(0, 0, 0, false, false, false, NULL, NULL, h + 1, h - 1);
        h := h + 1;
      }
      h := h - 1;
      hs[0] := hs[0].(prevFree := h);
      hs[h] := hs[h].(nextFree := 0);
      h := 0;
      while h < NR_HASH
        modifies table
        invariant 0 <= h <= NR_HASH && forall i: nat | i < h :: table[i] == NULL
      {
        table[h] := NULL;
        h := h + 1;
      }
      InitialStructure(hs[..], table[..], ring, chains);
    }
  }

  function Count(n: nat): (r: seq<int>)
    ensures |r| == n && forall i: nat | i < n :: r[i] == i
  {
    if n == 0 then [] else Count(n - 1) + [n - 1]
  }

  lemma InitialRing(hs: seq<Head>, ring: seq<int>)
    requires |hs| > 0 && ring == Count(|hs|)
    requires forall i: nat | i < |hs| ::
      hs[i].nextFree == (if i + 1 == |hs| then 0 else i + 1) && hs[i].prevFree == (if i == 0 then |hs| - 1 else i - 1)
    ensures Ring(hs, ring) && NULL !in ring && forall b: nat | b < |hs| :: b in ring
  {
    assert Within(hs, ring);
    forall i: nat | i < |ring| ensures RingLink(hs, ring, i) {}
    forall b: nat | b < |hs| ensures b in ring {
      assert ring[b] == b;
    }
  }

  lemma InitialStructure(hs: seq<Head>, table: seq<int>, ring: seq<int>, cs: seq<seq<int>>)
    requires |hs| > 0 && ring == Count(|hs|)
    requires forall i: nat | i < |hs| :: hs[i] == Head(0, 0, 0, false, false, false, NULL, NULL,
      if i + 1 == |hs| then 0 else i + 1, if i == 0 then |hs| - 1 else i - 1)
    requires |table| == NR_HASH && forall h: nat | h < NR_HASH :: table[h] == NULL
    requires |cs| == NR_HASH && forall h: nat | h < NR_HASH :: cs[h] == []
    ensures Structure(hs, table, 0, ring, cs, NULL)
  {
    InitialRing(hs, ring);
    assert forall h: nat | h < NR_HASH :: Chain(hs, table[h], cs[h]) && RightChain(hs, cs[h], h);
  }

  /** Fields other than links and, for a head that is out of the queues, its block, do not matter. */
  lemma StructureLinksOnly(hs: seq<Head>, hs2: seq<Head>, table: seq<int>, freeList: int,
                           ring: seq<int>, cs: seq<seq<int>>, out: int, rekeyed: int)
    requires Structure(hs, table, freeList, ring, cs, out) && |hs2| == |hs| && rekeyed in {NULL, out}
    requires forall i: nat | i < |hs| :: SameHash(hs[i], hs2[i]) && SameFree(hs[i], hs2[i])
    requires forall i: nat | i < |hs| && i != rekeyed :: hs[i].dev == hs2[i].dev && hs[i].block == hs2[i].block
    ensures Structure(hs2, table, freeList, ring, cs, out)
  {
    forall i: nat | i < |ring| ensures RingLink(hs2, ring, i) {
      assert RingLink(hs, ring, i);
    }
    forall h: nat | h < NR_HASH ensures Chain(hs2, table[h], cs[h]) && RightChain(hs2, cs[h], h) {
      ChainLinksOnly(hs, hs2, table[h], cs[h], h, out);
    }
    forall b: nat | b < |hs2| && b != out
      ensures hs2[b].dev != 0 ==> b in cs[HashOf(hs2[b])]
    {
      assert HashOf(hs2[b]) == HashOf(hs[b]);
    }
  }

  lemma ChainLinksOnly(hs: seq<Head>, hs2: seq<Head>, first: int, c: seq<int>, h: nat, out: int)
    requires Chain(hs, first, c) && RightChain(hs, c, h) && out !in c && |hs2| == |hs|
    requires forall i: nat | i < |hs| :: SameHash(hs[i], hs2[i])
    requires forall i: nat | i < |hs| && i != out :: hs[i].dev == hs2[i].dev && hs[i].block == hs2[i].block
    ensures Chain(hs2, first, c) && RightChain(hs2, c, h)
  {
    forall i: nat | i < |c| ensures ChainLink(hs2, c, i) && hs2[c[i]].dev != 0 && HashOf(hs2[c[i]]) == h {
      assert ChainLink(hs, c, i) && HashOf(hs2[c[i]]) == HashOf(hs[c[i]]);
    }
  }

  lemma LinksInRange(hs: seq<Head>, table: seq<int>, freeList: int, ring: seq<int>, cs: seq<seq<int>>, b: nat)
    requires Structure(hs, table, freeList, ring, cs, NULL) && b < |hs| && |hs| >= 2
    ensures -1 <= hs[b].next < |hs| && -1 <= hs[b].prev < |hs| && hs[b].next != b
    ensures 0 <= hs[b].nextFree < |hs| && 0 <= hs[b].prevFree < |hs| && hs[b].prevFree != b && hs[b].nextFree != b
  {
    TwoOnRing(hs, ring, cs);
    assert b in ring;
    var p := IndexOf(ring, b);
    RingNeighbours(hs, ring, p);
    if hs[b].dev != 0 {
      var g := HashOf(hs[b]);
      assert Chain(hs, table[g], cs[g]);
      ChainMembers(hs, table[g], cs[g], b);
      assert ChainLink(hs, cs[g], IndexOf(cs[g], b));
    }
  }

  lemma OutOfLinks(hs: seq<Head>, table: seq<int>, freeList: int, ring: seq<int>, cs: seq<seq<int>>, b: nat)
    requires Structure(hs, table, freeList, ring, cs, b) && b < |hs|
    ensures 0 <= freeList < |hs| && freeList != b
    ensures 0 <= hs[freeList].prevFree < |hs| && hs[freeList].prevFree != b
    ensures var h := HashOf(hs[b]); -1 <= table[h] < |hs| && table[h] != b && (table[h] == NULL <==> cs[h] == [])
  {
    RingNeighbours(hs, ring, 0);
    assert Chain(hs, table[HashOf(hs[b])], cs[HashOf(hs[b])]);
  }

  // ---------------------------------------------------------------- the queues and the machine

  /** The heads hold the same blocks and flags as a state of the cache. */
  ghost predicate Matches(hs: seq<Head>, s: M.State)
  {
    |hs| == |s.bufs| && forall b: nat | b < |hs| ::
      s.bufs[b].key == M.Key(hs[b].dev, hs[b].block) && s.bufs[b].count == hs[b].count
      && s.bufs[b].dirt == hs[b].dirt && s.bufs[b].lock == hs[b].lock && s.bufs[b].uptodate == hs[b].uptodate
  }

  /** What the scan of the free list ends with is a victim in the sense of the state machine. */
  lemma ScanIsVictim(hs: seq<Head>, ring: seq<int>, cs: seq<seq<int>>, bh: int, s: M.State)
    requires Ring(hs, ring) && |cs| == NR_HASH && Filed(hs, ring, cs, NULL) && Matches(hs, s)
    requires Scanned(hs, ring, |ring|, bh) && bh != NULL
    ensures bh >= 0 && M.Victim(s, bh)
  {
    var p: nat :| p < |ring| && ring[p] == bh && Best(hs, ring, |ring|, p);
    forall x: nat | x < |hs| && hs[x].count == 0 ensures Badness(hs[bh]) <= Badness(hs[x]) {
      assert x in ring;
      var q := IndexOf(ring, x);
      assert q < p || q == p || q > p;
    }
  }

  /** find_buffer decides whether the block is in the cache. */
  lemma FoundIsCached(hs: seq<Head>, s: M.State, dev: nat, block: nat, r: int)
    requires Matches(hs, s) && dev != 0
    requires r == NULL <==> NoneCarries(hs, dev, block)
    requires r != NULL ==> Carries(hs, r, dev, block)
    ensures r == NULL <==> M.Absent(s, M.Key(dev, block))
    ensures r != NULL ==> r >= 0 && M.Cached(s, M.Key(dev, block), r)
  {
    if r == NULL {
      forall b: nat ensures !M.Cached(s, M.Key(dev, block), b) {
        assert b < |hs| ==> !Carries(hs, b, dev, block);
      }
    } else {
      assert M.Cached(s, M.Key(dev, block), r);
    }
  }

  /** Only b changes, and to what the machine's buffer becomes. */
  lemma MatchesMore(hs: seq<Head>, hs2: seq<Head>, s: M.State, n: M.State, b: nat)
    requires Matches(hs, s) && b < |hs| == |hs2| == |n.bufs|
    requires forall i: nat | i < |hs| && i != b :: SameButLinks(hs[i], hs2[i]) && n.bufs[i] == s.bufs[i]
    requires n.bufs[b].key == M.Key(hs2[b].dev, hs2[b].block) && n.bufs[b].count == hs2[b].count
    requires n.bufs[b].dirt == hs2[b].dirt && n.bufs[b].lock == hs2[b].lock && n.bufs[b].uptodate == hs2[b].uptodate
    ensures Matches(hs2, n)
  {}

  /** The chosen head is locked or dirty: getblk sleeps and no head changes. */
  lemma ChosenStays(hs: seq<Head>, s: M.State, id: nat, dev: nat, block: nat, b: nat)
    requires Matches(hs, s) && id in s.calls && s.calls[id] == M.Begin(M.Key(dev, block))
    requires b < |hs| && M.Enabled(s, M.Choose(id, b)) && (hs[b].lock || hs[b].count > 0 || hs[b].dirt)
    ensures Matches(hs, M.Next(s, M.Choose(id, b)))
  {}

  /** The chosen head is free at once. */
  lemma ChosenTaken(hs: seq<Head>, hs2: seq<Head>, s: M.State, id: nat, dev: nat, block: nat, b: nat)
    requires Matches(hs, s) && id in s.calls && s.calls[id] == M.Begin(M.Key(dev, block))
    requires b < |hs| == |hs2| && M.Enabled(s, M.Choose(id, b)) && !hs[b].lock && hs[b].count == 0 && !hs[b].dirt
    requires SameButLinks(hs2[b], Head(dev, block, 1, false, hs[b].lock, false, NULL, NULL, 0, 0))
    requires forall i: nat | i < |hs| && i != b :: SameButLinks(hs[i], hs2[i])
    ensures Matches(hs2, M.Next(s, M.Choose(id, b)))
  {
    MatchesMore(hs, hs2, s, M.Next(s, M.Choose(id, b)), b);
  }

  lemma FoundHeld(hs: seq<Head>, hs2: seq<Head>, s: M.State, id: nat, dev: nat, block: nat, b: nat)
    requires Matches(hs, s) && id in s.calls && s.calls[id] == M.Begin(M.Key(dev, block))
    requires b < |hs| == |hs2| && M.Cached(s, M.Key(dev, block), b) && hs2[b] == hs[b].(count := hs[b].count + 1)
    requires forall i: nat | i < |hs| && i != b :: hs2[i] == hs[i]
    ensures M.Enabled(s, M.Find(id, b)) && Matches(hs2, M.Next(s, M.Find(id, b)))
  {}

  lemma AllInUse(hs: seq<Head>, s: M.State, id: nat, dev: nat, block: nat)
    requires Matches(hs, s) && id in s.calls && s.calls[id] == M.Begin(M.Key(dev, block))
    requires M.Absent(s, M.Key(dev, block)) && forall b: nat | b < |hs| :: hs[b].count > 0
    ensures M.Enabled(s, M.NoVictim(id)) && Matches(hs, M.Next(s, M.NoVictim(id)))
  {}
}
