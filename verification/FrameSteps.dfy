/**
 The elementary updates of mm/memory.c on a Machine, and the proof that each keeps Inv and
 changes the user address spaces in exactly one way.
 */
module FrameSteps {
  import opened Frames

  function PutWord(m: Machine, f: nat, k: nat, w: Word): Machine
    requires f < FRAMES && k < WORDS
  {
    m.(mem := m.mem[f := m.mem[f][k := w]])
  }

  function PutPte(m: Machine, v: Vpage, w: Word): Machine
    requires HasTable(m, v.d) && v.i < WORDS
  {
    PutWord(m, Dir(m, v.d).frame, v.i, w)
  }

  function PutCount(m: Machine, f: nat, c: nat): Machine
    requires LOW <= f < FRAMES
  {
    m.(counts := m.counts[f - LOW := c])
  }

  /** panic(). */
  function Halt(m: Machine): Machine {
    m.(halted := true)
  }

  /** free_page: one owner less; low memory is ignored, a page beyond memory or a free one panics. */
  function DropCount(m: Machine, f: nat): Machine {
    if f < LOW then m
    else if f >= m.high || m.counts[f - LOW] == 0 then Halt(m)
    else PutCount(m, f, m.counts[f - LOW] - 1)
  }

  /** The table of directory entry d is owned by nobody else and lies in main memory. */
  ghost predicate OwnTable(m: Machine, d: nat) {
    UserDir(d) && HasTable(m, d) && LOW <= Dir(m, d).frame && RefSet(m, Dir(m, d).frame) == {DirRef(d)}
  }

  lemma TableOwned(m: Machine, d: nat)
    requires Inv(m) && UserDir(d) && Dir(m, d).present
    ensures OwnTable(m, d)
  {}

  lemma PresentCounted(m: Machine, v: Vpage)
    requires Inv(m) && Present(m, v)
    ensures OwnTable(m, v.d)
    ensures var f := Pte(m, v).frame;
      LOW <= f ==> Managed(m, f) && PteRef(v) in RefSet(m, f) && m.counts[f - LOW] == |RefSet(m, f)| > 0
  {
    assert Hits(m, PteRef(v), Pte(m, v).frame);
  }

  /** No user page lies in the frame of a page table. */
  lemma TablesHoldNoData(m: Machine, d: nat)
    requires Inv(m) && UserDir(d) && Dir(m, d).present
    ensures OwnTable(m, d)
    ensures forall u | Mapped(m, u) :: Pte(m, u).frame != Dir(m, d).frame
  {
    forall u | Mapped(m, u) ensures Pte(m, u).frame != Dir(m, d).frame {
      assert Hits(m, PteRef(u), Pte(m, u).frame);
    }
  }

  /** A main-memory frame of a present entry is owned by entries only, all at the same offset
      of their slots, and by no other entry at all when one of them is writable. */
  lemma SharersAlike(m: Machine, v: Vpage)
    requires Inv(m) && Present(m, v) && LOW <= Pte(m, v).frame
    ensures forall r | r in RefSet(m, Pte(m, v).frame) ::
      r.PteRef? && Present(m, r.v) && Pte(m, r.v).frame == Pte(m, v).frame
      && r.v.d % TASK_DIRS == v.d % TASK_DIRS && r.v.i == v.i
      && (r.v != v ==> !Pte(m, r.v).rw)
  {
    var f := Pte(m, v).frame;
    assert Hits(m, PteRef(v), f);
    forall r | r in RefSet(m, f)
      ensures r.PteRef? && Present(m, r.v) && Pte(m, r.v).frame == f
      ensures r.PteRef? && r.v != v ==> !Pte(m, r.v).rw
    {
      assert Hits(m, r, f);
    }
  }

  // ---------------------------------------------------------------- one table entry changes

  /** From m to n the only directory or table word that changes is the entry of v, which
      becomes w. */
  ghost predicate PteChanged(m: Machine, n: Machine, v: Vpage, w: Word) {
    && n.task == m.task && n.lo == m.lo && n.high == m.high && n.halted == m.halted
    && (forall d: nat | d < WORDS :: Dir(n, d) == Dir(m, d))
    && (forall u: Vpage | HasTable(m, u.d) && u.i < WORDS && (UserDir(u.d) || Dir(m, u.d).frame < LOW) ::
          Pte(n, u) == if u == v then w else Pte(m, u))
  }

  lemma PutPteChanges(m: Machine, v: Vpage, w: Word)
    requires v.i < WORDS && OwnTable(m, v.d)
    ensures PteChanged(m, PutPte(m, v, w), v, w)
  {
    var n := PutPte(m, v, w);
    forall u: Vpage | HasTable(m, u.d) && u.i < WORDS && (UserDir(u.d) || Dir(m, u.d).frame < LOW)
      ensures Pte(n, u) == if u == v then w else Pte(m, u)
    {
      if u.d != v.d && UserDir(u.d) {
        assert Hits(m, DirRef(u.d), Dir(m, u.d).frame);
        assert DirRef(u.d) !in RefSet(m, Dir(m, v.d).frame);
      }
    }
  }

  lemma PteChangedRefs(m: Machine, n: Machine, v: Vpage, w: Word, f: nat)
    requires ValidPage(v) && HasTable(m, v.d) && PteChanged(m, n, v, w) && n.held <= m.held
    ensures RefSet(n, f) == RefSet(m, f) - {PteRef(v)} - (if f in m.held - n.held then {HeldRef(f)} else {})
                            + if w.present && w.frame == f then {PteRef(v)} else {}
  {
    forall r
      ensures Hits(n, r, f) <==> if r == PteRef(v) then w.present && w.frame == f
                                 else Hits(m, r, f) && (r == HeldRef(f) ==> f in n.held)
    {
      match r {
        case PteRef(u) =>
        case DirRef(d) =>
        case TaskRef(t) =>
        case HeldRef(g) =>
      }
    }
  }

  /** The new word w is a legal entry for v in n. */
  ghost predicate LegalEntry(n: Machine, v: Vpage, w: Word) {
    w.present ==>
      && w.frame < n.high && (LOW <= w.frame ==> Managed(n, w.frame)) && (w.frame < LOW ==> !w.rw)
      && (w.rw ==> RefSet(n, w.frame) == {PteRef(v)})
      && (LOW <= w.frame ==> forall r | r in RefSet(n, w.frame) ::
            r.PteRef? && r.v.d % TASK_DIRS == v.d % TASK_DIRS && r.v.i == v.i
            && (r.v != v ==> !Pte(n, r.v).rw))
  }

  /** n differs from m by the entry of v, and possibly by a held page that the entry took over. */
  ghost predicate PteStep(m: Machine, n: Machine, v: Vpage, w: Word) {
    && Inv(m) && ValidPage(v) && Dir(m, v.d).present
    && PteChanged(m, n, v, w)
    && n.held <= m.held && (forall f | f in m.held - n.held :: w.present && w.frame == f)
    && LegalEntry(n, v, w)
  }

  /** A frame that the entry neither leaves nor enters keeps its owners. */
  lemma PteStepOthers(m: Machine, n: Machine, v: Vpage, w: Word, f: nat)
    requires ValidPage(v) && HasTable(m, v.d) && PteChanged(m, n, v, w) && n.held <= m.held
    requires (f in m.held ==> f in n.held) && PteRef(v) !in RefSet(m, f) && !(w.present && w.frame == f)
    ensures RefSet(n, f) == RefSet(m, f)
  {
    PteChangedRefs(m, n, v, w, f);
  }

  /** The counts follow the owners: one less where the entry or the holder leaves, one more
      where the entry arrives. */
  ghost predicate CountsFollow(m: Machine, n: Machine, v: Vpage, w: Word) {
    forall f: nat | LOW <= f < FRAMES ::
      n.counts[f - LOW] + (if Hits(m, PteRef(v), f) then 1 else 0) + (if f in m.held - n.held then 1 else 0)
        == m.counts[f - LOW] + (if w.present && w.frame == f then 1 else 0)
  }

  lemma RemoveCard<T>(s: set<T>, x: T)
    ensures |s - {x}| == if x in s then |s| - 1 else |s|
  {
    if x in s {
      assert s == (s - {x}) + {x};
    } else {
      assert s == s - {x};
    }
  }

  lemma ReplaceCard<T>(s: set<T>, r: set<T>, x: T, y: T, drop: bool, add: bool)
    requires x != y && (drop ==> y in s)
    requires r == s - {x} - (if drop then {y} else {}) + (if add then {x} else {})
    ensures |r| + (if x in s then 1 else 0) + (if drop then 1 else 0) == |s| + (if add then 1 else 0)
  {
    RemoveCard(s, x);
    DropAddCard(s - {x}, r, x, y, drop, add);
  }

  lemma DropAddCard<T>(t: set<T>, r: set<T>, x: T, y: T, drop: bool, add: bool)
    requires x !in t && x != y && (drop ==> y in t)
    requires r == t - (if drop then {y} else {}) + (if add then {x} else {})
    ensures |r| + (if drop then 1 else 0) == |t| + (if add then 1 else 0)
  {
    RemoveCard(t, y);
    if drop && add {
      assert r == (t - {y}) + {x};
    } else if drop {
      assert r == t - {y};
    } else if add {
      assert r == t + {x};
    } else {
      assert r == t;
    }
  }

  lemma PteChangedCard(m: Machine, n: Machine, v: Vpage, w: Word, f: nat)
    requires ValidPage(v) && HasTable(m, v.d) && PteChanged(m, n, v, w) && n.held <= m.held
    ensures |RefSet(n, f)| + (if Hits(m, PteRef(v), f) then 1 else 0) + (if f in m.held - n.held then 1 else 0)
         == |RefSet(m, f)| + (if w.present && w.frame == f then 1 else 0)
  {
    PteChangedRefs(m, n, v, w, f);
    assert PteRef(v) in RefSet(m, f) <==> Hits(m, PteRef(v), f);
    assert HeldRef(f) in RefSet(m, f) <==> f in m.held;
    ReplaceCard(RefSet(m, f), RefSet(n, f), PteRef(v), HeldRef(f), f in m.held - n.held, w.present && w.frame == f);
  }

  lemma PteStepCounts(m: Machine, n: Machine, v: Vpage, w: Word)
    requires CountsExact(m) && ValidPage(v) && HasTable(m, v.d) && PteChanged(m, n, v, w) && n.held <= m.held
    requires CountsFollow(m, n, v, w)
    requires w.present && LOW <= w.frame < FRAMES ==> Managed(m, w.frame)
    ensures CountsExact(n)
  {
    forall f: nat | LOW <= f < FRAMES
      ensures Managed(n, f) ==> n.counts[f - LOW] == |RefSet(n, f)|
      ensures !Managed(n, f) ==> n.counts[f - LOW] == USED && RefSet(n, f) == {}
    {
      PteChangedCard(m, n, v, w, f);
      assert Managed(n, f) <==> Managed(m, f);
    }
  }

  lemma PteStepExclusive(m: Machine, n: Machine, v: Vpage, w: Word)
    requires PteStep(m, n, v, w)
    ensures Exclusive(n)
  {
    forall d | UserDir(d) && Dir(n, d).present
      ensures Managed(n, Dir(n, d).frame) && RefSet(n, Dir(n, d).frame) == {DirRef(d)}
    {
      assert Dir(m, d).present;
      assert Hits(n, DirRef(d), Dir(n, d).frame);
      PteStepOthers(m, n, v, w, Dir(n, d).frame);
    }
    forall t | 1 <= t < NR_TASKS && n.task[t].page != 0
      ensures Managed(n, n.task[t].page) && RefSet(n, n.task[t].page) == {TaskRef(t)}
    {
      assert Hits(n, TaskRef(t), n.task[t].page);
      PteStepOthers(m, n, v, w, n.task[t].page);
    }
    forall f | f in n.held ensures Managed(n, f) && RefSet(n, f) == {HeldRef(f)} {
      assert Hits(n, HeldRef(f), f);
      PteStepOthers(m, n, v, w, f);
    }
  }

  lemma PteStepEntries(m: Machine, n: Machine, v: Vpage, w: Word)
    requires PteStep(m, n, v, w)
    ensures EntriesSafe(n)
  {
    TableOwned(m, v.d);
    forall u | Present(n, u) && u != v
      ensures var x := Pte(n, u);
        && x.frame < n.high && (x.frame < LOW ==> !x.rw) && (LOW <= x.frame ==> n.lo <= x.frame)
        && (x.rw ==> RefSet(n, x.frame) == {PteRef(u)})
    {
      var x := Pte(n, u);
      assert Present(m, u) && Pte(m, u) == x;
      if x.rw {
        assert Hits(n, PteRef(u), x.frame);
        PteStepOthers(m, n, v, w, x.frame);
      }
    }
  }

  lemma PteStepOffsets(m: Machine, n: Machine, v: Vpage, w: Word)
    requires PteStep(m, n, v, w)
    ensures SameOffset(n)
  {
    TableOwned(m, v.d);
    forall u, x | Present(n, u) && Present(n, x) && LOW <= Pte(n, u).frame == Pte(n, x).frame
      ensures u.d % TASK_DIRS == x.d % TASK_DIRS && u.i == x.i
    {
      assert Hits(n, PteRef(u), Pte(n, u).frame);
      assert Hits(n, PteRef(x), Pte(n, u).frame);
      if u != v && x != v {
        assert Present(m, u) && Present(m, x);
      }
    }
  }

  lemma PteStepKeepsInv(m: Machine, n: Machine, v: Vpage, w: Word)
    requires PteStep(m, n, v, w) && CountsExact(n)
    ensures Inv(n)
  {
    PteStepExclusive(m, n, v, w);
    PteStepEntries(m, n, v, w);
    PteStepOffsets(m, n, v, w);
  }

  lemma PteChangedMapped(m: Machine, n: Machine, v: Vpage, w: Word)
    requires ValidPage(v) && HasTable(m, v.d) && PteChanged(m, n, v, w)
    ensures forall u | u != v && ValidPage(u) ::
      (Mapped(n, u) <==> Mapped(m, u)) && (Mapped(n, u) ==> Pte(n, u) == Pte(m, u))
    ensures Mapped(n, v) <==> w.present && LOW <= w.frame < FRAMES
    ensures HasTable(n, v.d) && Pte(n, v) == w
  {}

  lemma MapsDiffer<K(!new), V>(a: map<K, V>, b: map<K, V>, k: K)
    requires forall u | u != k :: (u in b <==> u in a) && (u in a && u in b ==> b[u] == a[u])
    ensures b == if k in b then a[k := b[k]] else a - {k}
  {}

  /** Two machines whose mapped pages agree except at v. */
  lemma SpacesDiffer(m: Machine, n: Machine, v: Vpage)
    requires forall u | u != v ::
      (Mapped(n, u) <==> Mapped(m, u)) && (Mapped(m, u) ==> n.mem[Pte(n, u).frame] == m.mem[Pte(m, u).frame])
    ensures Spaces(n) == if Mapped(n, v) then Spaces(m)[v := n.mem[Pte(n, v).frame]] else Spaces(m) - {v}
  {
    Look(m);
    Look(n);
    MapsDiffer(Spaces(m), Spaces(n), v);
  }

  lemma PteStepSpaces(m: Machine, n: Machine, v: Vpage, w: Word)
    requires ValidPage(v) && HasTable(m, v.d) && PteChanged(m, n, v, w)
    requires w.present ==> w.frame < FRAMES
    requires forall u | Mapped(m, u) && u != v :: n.mem[Pte(m, u).frame] == m.mem[Pte(m, u).frame]
    ensures Spaces(n) == if w.present && LOW <= w.frame then Spaces(m)[v := n.mem[w.frame]] else Spaces(m) - {v}
  {
    PteChangedMapped(m, n, v, w);
    SpacesDiffer(m, n, v);
  }

  /** What an entry update has to show, and what it then gets. */
  lemma PteStepKeeps(m: Machine, n: Machine, v: Vpage, w: Word)
    requires PteStep(m, n, v, w) && CountsFollow(m, n, v, w)
    requires forall u | Mapped(m, u) && u != v :: n.mem[Pte(m, u).frame] == m.mem[Pte(m, u).frame]
    ensures Inv(n)
    ensures Spaces(n) == if w.present && LOW <= w.frame then Spaces(m)[v := n.mem[w.frame]] else Spaces(m) - {v}
  {
    assert w.present ==> w.frame < FRAMES && (LOW <= w.frame ==> Managed(m, w.frame));
    hide LegalEntry, PteChanged, CountsFollow;
    PteStepCounts(m, n, v, w);
    PteStepKeepsInv(m, n, v, w);
    PteStepSpaces(m, n, v, w);
  }

  // ---------------------------------------------------------------- the entry updates of the source

  /** `free_page(0xfffff000 & *pg_table); *pg_table = 0`. */
  function Unmap(m: Machine, v: Vpage): Machine
    requires HasTable(m, v.d) && v.i < WORDS
  {
    PutPte(DropCount(m, Pte(m, v).frame), v, ZERO_WORD)
  }

  lemma UnmapStep(m: Machine, v: Vpage)
    requires Inv(m) && Present(m, v)
    ensures PteStep(m, Unmap(m, v), v, ZERO_WORD)
  {
    PresentCounted(m, v);
    PutPteChanges(m, v, ZERO_WORD);
    assert Unmap(m, v).mem == PutPte(m, v, ZERO_WORD).mem;
  }

  lemma UnmapFollows(m: Machine, v: Vpage)
    requires Present(m, v) && Pte(m, v).frame < m.high
    requires LOW <= Pte(m, v).frame ==> m.counts[Pte(m, v).frame - LOW] > 0
    ensures CountsFollow(m, Unmap(m, v), v, ZERO_WORD)
  {}

  lemma UnmapKeeps(m: Machine, v: Vpage)
    requires Inv(m) && Present(m, v)
    ensures Inv(Unmap(m, v)) && Spaces(Unmap(m, v)) == Spaces(m) - {v}
  {
    UnmapStep(m, v);
    PresentCounted(m, v);
    UnmapFollows(m, v);
    TablesHoldNoData(m, v.d);
    hide Inv, PteStep, CountsFollow;
    PteStepKeeps(m, Unmap(m, v), v, ZERO_WORD);
  }

  /** put_page: a held page becomes a fresh user page. */
  function MapHeld(m: Machine, v: Vpage, f: nat): Machine
    requires HasTable(m, v.d) && v.i < WORDS
  {
    PutPte(m, v, Entry(f)).(held := m.held - {f})
  }

  lemma MapHeldStep(m: Machine, v: Vpage, f: nat)
    requires Inv(m) && ValidPage(v) && HasTable(m, v.d) && f in m.held
    ensures PteStep(m, MapHeld(m, v, f), v, Entry(f))
    ensures f != Dir(m, v.d).frame
  {
    var n, w := MapHeld(m, v, f), Entry(f);
    TableOwned(m, v.d);
    PutPteChanges(m, v, w);
    assert PteChanged(m, n, v, w);
    PteChangedRefs(m, n, v, w, f);
    assert RefSet(n, f) == {PteRef(v)};
    assert HeldRef(f) in RefSet(m, f);
  }

  lemma MapHeldFollows(m: Machine, v: Vpage, f: nat)
    requires HasTable(m, v.d) && v.i < WORDS && !Present(m, v) && f in m.held
    ensures CountsFollow(m, MapHeld(m, v, f), v, Entry(f))
  {}

  lemma MapHeldKeeps(m: Machine, v: Vpage, f: nat)
    requires Inv(m) && ValidPage(v) && HasTable(m, v.d) && !Pte(m, v).present && f in m.held
    ensures Inv(MapHeld(m, v, f)) && Spaces(MapHeld(m, v, f)) == Spaces(m)[v := m.mem[f]]
  {
    MapHeldStep(m, v, f);
    MapHeldFollows(m, v, f);
    TablesHoldNoData(m, v.d);
    PteStepKeeps(m, MapHeld(m, v, f), v, Entry(f));
  }

  /** `this_page &= ~2; *from_page_table = this_page`. */
  function Protect(m: Machine, v: Vpage): Machine
    requires HasTable(m, v.d) && v.i < WORDS
  {
    PutPte(m, v, Pte(m, v).(rw := false))
  }

  lemma ProtectLegal(m: Machine, v: Vpage)
    requires Inv(m) && Present(m, v) && LOW <= Pte(m, v).frame
    ensures LegalEntry(Protect(m, v), v, Pte(m, v).(rw := false))
  {
    var n, w := Protect(m, v), Pte(m, v).(rw := false);
    TableOwned(m, v.d);
    PutPteChanges(m, v, w);
    PteChangedRefs(m, n, v, w, w.frame);
    SharersAlike(m, v);
  }

  lemma SameUpdate<K, V>(a: map<K, V>, k: K, v: V)
    requires k in a && a[k] == v
    ensures a[k := v] == a
  {}

  lemma AbsentRemoved<K, V>(a: map<K, V>, k: K)
    requires k !in a
    ensures a - {k} == a
  {}

  lemma RetagFollows(m: Machine, n: Machine, v: Vpage, w: Word)
    requires Present(m, v) && w.present && w.frame == Pte(m, v).frame
    requires n.counts == m.counts && n.held == m.held
    ensures CountsFollow(m, n, v, w)
  {}

  /** Changing the flags of a present entry changes no address space. */
  lemma RetagKeeps(m: Machine, v: Vpage, w: Word)
    requires Inv(m) && Present(m, v) && w.present && LOW <= w.frame == Pte(m, v).frame
    requires LegalEntry(PutPte(m, v, w), v, w)
    ensures Inv(PutPte(m, v, w)) && Spaces(PutPte(m, v, w)) == Spaces(m)
  {
    var n := PutPte(m, v, w);
    TablesHoldNoData(m, v.d);
    PutPteChanges(m, v, w);
    RetagFollows(m, n, v, w);
    assert Mapped(m, v) && n.mem[w.frame] == m.mem[w.frame];
    assert PteStep(m, n, v, w);
    PteStepKeeps(m, n, v, w);
    Look(m);
    SameUpdate(Spaces(m), v, n.mem[w.frame]);
  }

  lemma ProtectKeeps(m: Machine, v: Vpage)
    requires Inv(m) && Present(m, v) && LOW <= Pte(m, v).frame
    ensures Inv(Protect(m, v)) && Spaces(Protect(m, v)) == Spaces(m)
  {
    ProtectLegal(m, v);
    RetagKeeps(m, v, Pte(m, v).(rw := false));
  }

  /** un_wp_page, only owner: `*table_entry |= 2`. */
  function SetWritable(m: Machine, v: Vpage): Machine
    requires HasTable(m, v.d) && v.i < WORDS
  {
    PutPte(m, v, Pte(m, v).(rw := true))
  }

  lemma OnlyOwner(m: Machine, v: Vpage)
    requires Inv(m) && Present(m, v) && LOW <= Pte(m, v).frame && m.counts[Pte(m, v).frame - LOW] == 1
    ensures RefSet(m, Pte(m, v).frame) == {PteRef(v)}
  {
    PresentCounted(m, v);
    var s := RefSet(m, Pte(m, v).frame);
    assert |s - {PteRef(v)}| == 0;
    assert s == {PteRef(v)} + (s - {PteRef(v)});
  }

  lemma SetWritableKeeps(m: Machine, v: Vpage)
    requires Inv(m) && Present(m, v) && LOW <= Pte(m, v).frame && m.counts[Pte(m, v).frame - LOW] == 1
    ensures Inv(SetWritable(m, v)) && Spaces(SetWritable(m, v)) == Spaces(m)
  {
    var n, w := SetWritable(m, v), Pte(m, v).(rw := true);
    PresentCounted(m, v);
    OnlyOwner(m, v);
    PutPteChanges(m, v, w);
    PteChangedRefs(m, n, v, w, w.frame);
    assert LegalEntry(n, v, w);
    RetagKeeps(m, v, w);
  }

  // ---------------------------------------------------------------- sharing and copying

  lemma SlotCard(s: set<Ref>, k: nat, o: nat, i: nat)
    requires forall r | r in s :: r.PteRef? && r.v.d % TASK_DIRS == o && r.v.i == i && 1 <= r.v.d / TASK_DIRS <= k
    ensures |s| <= k
  {
    if k > 0 {
      var top := PteRef(Vpage(k * TASK_DIRS + o, i));
      SlotCard(s - {top}, k - 1, o, i);
      assert top in s ==> s == (s - {top}) + {top};
      assert top !in s ==> s == s - {top};
    } else {
      assert s == {};
    }
  }

  /** An 8-bit count is enough: a data frame has at most one owner in each of 63 task slots. */
  lemma CountAtMost63(m: Machine, v: Vpage)
    requires Inv(m) && Present(m, v) && LOW <= Pte(m, v).frame
    ensures m.counts[Pte(m, v).frame - LOW] <= NR_TASKS - 1
  {
    PresentCounted(m, v);
    SharersAlike(m, v);
    SlotCard(RefSet(m, Pte(m, v).frame), NR_TASKS - 1, v.d % TASK_DIRS, v.i);
  }

  /** `*to_page_table = this_page; mem_map[this_page]++` on an unsigned char count. */
  function AddShare(m: Machine, from: Vpage, to: Vpage): Machine
    requires HasTable(m, from.d) && from.i < WORDS && HasTable(m, to.d) && to.i < WORDS
  {
    var w := Pte(m, from).(rw := false);
    var n := if LOW <= w.frame < FRAMES then PutCount(m, w.frame, (m.counts[w.frame - LOW] + 1) % 256) else m;
    PutPte(n, to, w)
  }

  ghost predicate CanShare(m: Machine, from: Vpage, to: Vpage) {
    && Inv(m) && HasTable(m, from.d) && from.i < WORDS
    && ValidPage(to) && HasTable(m, to.d) && !Pte(m, to).present
    && Pte(m, from).present && Pte(m, from).frame < FRAMES
    && (LOW <= Pte(m, from).frame ==>
          UserDir(from.d) && !Pte(m, from).rw && to.d % TASK_DIRS == from.d % TASK_DIRS && to.i == from.i)
    && (Pte(m, from).frame < LOW ==> Pte(m, from).frame < m.high)
  }

  lemma AddShareLegal(m: Machine, from: Vpage, to: Vpage)
    requires CanShare(m, from, to)
    ensures PteStep(m, AddShare(m, from, to), to, Pte(m, from).(rw := false))
  {
    var n, w := AddShare(m, from, to), Pte(m, from).(rw := false);
    TableOwned(m, to.d);
    PutPteChanges(m, to, w);
    assert n.mem == PutPte(m, to, w).mem;
    PteChangedRefs(m, n, to, w, w.frame);
    if LOW <= w.frame {
      SharersAlike(m, from);
    }
  }

  lemma AddShareFollows(m: Machine, from: Vpage, to: Vpage)
    requires HasTable(m, from.d) && from.i < WORDS && HasTable(m, to.d) && to.i < WORDS && !Present(m, to)
    requires Pte(m, from).present && Pte(m, from).frame < FRAMES
    requires LOW <= Pte(m, from).frame ==> m.counts[Pte(m, from).frame - LOW] < 255
    ensures CountsFollow(m, AddShare(m, from, to), to, Pte(m, from).(rw := false))
  {}

  lemma AddShareKeeps(m: Machine, from: Vpage, to: Vpage)
    requires CanShare(m, from, to)
    ensures var n := AddShare(m, from, to);
      Inv(n) && Spaces(n) == if Mapped(m, from) then Spaces(m)[to := m.mem[Pte(m, from).frame]] else Spaces(m)
  {
    var n, w := AddShare(m, from, to), Pte(m, from).(rw := false);
    AddShareLegal(m, from, to);
    if LOW <= w.frame {
      CountAtMost63(m, from);
    }
    AddShareFollows(m, from, to);
    TablesHoldNoData(m, to.d);
    assert LOW <= w.frame <==> Mapped(m, from);
    assert n.mem[w.frame] == m.mem[w.frame] || w.frame < LOW;
    assert forall u | Mapped(m, u) :: n.mem[Pte(m, u).frame] == m.mem[Pte(m, u).frame];
    assert !Mapped(m, to);
    PteStepKeeps(m, n, to, w);
    Look(m);
    AbsentRemoved(Spaces(m), to);
  }

  /** `if (old_page >= LOW_MEM) mem_map[MAP_NR(old_page)]--` on an unsigned char. */
  function DecCount(m: Machine, f: nat): Machine
    requires f < FRAMES
  {
    if f < LOW then m else PutCount(m, f, (m.counts[f - LOW] + 255) % 256)
  }

  /** un_wp_page, shared page: drop the old frame, enter the held copy. */
  function CowCopy(m: Machine, v: Vpage, f: nat): Machine
    requires HasTable(m, v.d) && v.i < WORDS && Pte(m, v).frame < FRAMES && f < FRAMES
  {
    var n := PutPte(DecCount(m, Pte(m, v).frame), v, Entry(f)).(held := m.held - {f});
    n.(mem := n.mem[f := n.mem[Pte(m, v).frame]])
  }

  lemma CowCopyLegal(m: Machine, v: Vpage, f: nat)
    requires Inv(m) && Present(m, v) && f in m.held
    ensures PteStep(m, CowCopy(m, v, f), v, Entry(f))
    ensures CowCopy(m, v, f).mem[f] == m.mem[Pte(m, v).frame]
  {
    PresentCounted(m, v);
    var n, w := CowCopy(m, v, f), Entry(f);
    TablesHoldNoData(m, v.d);
    assert HeldRef(f) in RefSet(m, f);
    PutPteChanges(m, v, w);
    var k := PutPte(m, v, w);
    forall d: nat | UserDir(d) && Dir(m, d).present ensures Dir(m, d).frame != f {
      assert Hits(m, DirRef(d), Dir(m, d).frame);
    }
    assert PteChanged(m, n, v, w);
    PteChangedRefs(m, n, v, w, f);
    assert RefSet(n, f) == {PteRef(v)};
  }

  lemma CowCopyFollows(m: Machine, v: Vpage, f: nat)
    requires Present(m, v) && Pte(m, v).frame < FRAMES && f in m.held && f < FRAMES && f != Pte(m, v).frame
    requires LOW <= Pte(m, v).frame ==> 0 < m.counts[Pte(m, v).frame - LOW] < 256
    ensures CountsFollow(m, CowCopy(m, v, f), v, Entry(f))
  {}

  lemma CowCopyKeeps(m: Machine, v: Vpage, f: nat)
    requires Inv(m) && Present(m, v) && f in m.held
    ensures Inv(CowCopy(m, v, f))
    ensures Spaces(CowCopy(m, v, f)) == Spaces(m)[v := m.mem[Pte(m, v).frame]]
  {
    var n := CowCopy(m, v, f);
    CowCopyLegal(m, v, f);
    PresentCounted(m, v);
    assert HeldRef(f) in RefSet(m, f) && PteRef(v) in RefSet(m, Pte(m, v).frame);
    if LOW <= Pte(m, v).frame {
      CountAtMost63(m, v);
    }
    CowCopyFollows(m, v, f);
    TablesHoldNoData(m, v.d);
    forall u | Mapped(m, u) && u != v ensures n.mem[Pte(m, u).frame] == m.mem[Pte(m, u).frame] {
      assert Hits(m, PteRef(u), Pte(m, u).frame);
    }
    PteStepKeeps(m, n, v, Entry(f));
  }

  // ---------------------------------------------------------------- pages that are not entries

  /** The processor marks the entry of a page it stores to. */
  function Dirtied(m: Machine, v: Vpage): Machine
    requires HasTable(m, v.d) && v.i < WORDS
  {
    PutPte(m, v, Pte(m, v).(dirty := true))
  }

  lemma DirtiedKeeps(m: Machine, v: Vpage)
    requires Inv(m) && Mapped(m, v)
    ensures var n := Dirtied(m, v);
      && Inv(n) && Spaces(n) == Spaces(m) && PteChanged(m, n, v, Pte(m, v).(dirty := true))
      && Mapped(n, v) && Pte(n, v) == Pte(m, v).(dirty := true) && n.mem[Pte(n, v).frame] == m.mem[Pte(n, v).frame]
  {
    var n, w := Dirtied(m, v), Pte(m, v).(dirty := true);
    PresentCounted(m, v);
    PutPteChanges(m, v, w);
    DirtiedLegal(m, v);
    RetagKeeps(m, v, w);
    TablesHoldNoData(m, v.d);
    hide Inv, LegalEntry;
  }

  /** The owners of the frame of v, seen from its entry (what SharersAlike proves). */
  ghost predicate Alike(m: Machine, v: Vpage)
    requires Present(m, v)
  {
    forall r | r in RefSet(m, Pte(m, v).frame) ::
      r.PteRef? && Present(m, r.v) && r.v.d % TASK_DIRS == v.d % TASK_DIRS && r.v.i == v.i
      && (r.v != v ==> !Pte(m, r.v).rw)
  }

  lemma DirtiedLegal(m: Machine, v: Vpage)
    requires Inv(m) && Mapped(m, v)
    ensures LegalEntry(Dirtied(m, v), v, Pte(m, v).(dirty := true))
  {
    PresentCounted(m, v);
    SharersAlike(m, v);
    EntryBounds(m, v);
    hide Inv;
    AlikeLegal(m, v);
  }

  lemma AlikeLegal(m: Machine, v: Vpage)
    requires Mapped(m, v) && OwnTable(m, v.d) && Alike(m, v) && PteRef(v) in RefSet(m, Pte(m, v).frame)
    requires Managed(m, Pte(m, v).frame) && (Pte(m, v).rw ==> RefSet(m, Pte(m, v).frame) == {PteRef(v)})
    ensures LegalEntry(Dirtied(m, v), v, Pte(m, v).(dirty := true))
  {
    var n, w := Dirtied(m, v), Pte(m, v).(dirty := true);
    PutPteChanges(m, v, w);
    PteChangedRefs(m, n, v, w, w.frame);
    assert RefSet(n, w.frame) == RefSet(m, w.frame);
  }

  lemma EntryBounds(m: Machine, v: Vpage)
    requires Inv(m) && Present(m, v)
    ensures var w := Pte(m, v);
      && w.frame < m.high && (LOW <= w.frame ==> Managed(m, w.frame)) && (w.frame < LOW ==> !w.rw)
      && (w.rw ==> RefSet(m, w.frame) == {PteRef(v)})
  {}

  /** A store to the page of v: the entry is marked and user data changes, ownership does not. */
  function Store(m: Machine, v: Vpage, k: nat, w: Word): Machine
    requires HasTable(m, v.d) && v.i < WORDS && Pte(m, v).frame < FRAMES && k < WORDS
  {
    PutWord(Dirtied(m, v), Pte(m, v).frame, k, w)
  }

  /** Only the contents of frames that are no page table change. */
  ghost predicate DataChanged(m: Machine, n: Machine) {
    && n.counts == m.counts && n.task == m.task && n.held == m.held && n.lo == m.lo && n.high == m.high && n.halted == m.halted
    && (forall d: nat | d < WORDS :: Dir(n, d) == Dir(m, d))
    && (forall u: Vpage | HasTable(m, u.d) && u.i < WORDS && (UserDir(u.d) || Dir(m, u.d).frame < LOW) ::
          Pte(n, u) == Pte(m, u))
  }

  lemma DataChangedRefs(m: Machine, n: Machine, f: nat)
    requires DataChanged(m, n)
    ensures RefSet(n, f) == RefSet(m, f)
  {
    forall r ensures Hits(n, r, f) <==> Hits(m, r, f) {
      match r {
        case PteRef(u) =>
        case DirRef(d) =>
        case TaskRef(t) =>
        case HeldRef(g) =>
      }
    }
  }

  lemma DataChangedKeeps(m: Machine, n: Machine)
    requires Inv(m) && DataChanged(m, n)
    ensures Inv(n)
  {
    forall f: nat
      ensures RefSet(n, f) == RefSet(m, f)
      ensures Managed(n, f) <==> Managed(m, f)
    {
      DataChangedRefs(m, n, f);
    }
    assert forall u :: Present(n, u) <==> Present(m, u);
  }

  lemma StoreData(m: Machine, f: nat, k: nat, w: Word)
    requires Inv(m) && k < WORDS && LOW <= f < FRAMES && NoTable(m, f)
    ensures DataChanged(m, PutWord(m, f, k, w)) && Inv(PutWord(m, f, k, w))
  {
    DataChangedKeeps(m, PutWord(m, f, k, w));
  }

  /** No other page shows the frame of a writable one. */
  lemma WritableAlone(m: Machine, v: Vpage)
    requires Inv(m) && Present(m, v) && Pte(m, v).rw
    ensures Mapped(m, v) && forall u | Mapped(m, u) && u != v :: Pte(m, u).frame != Pte(m, v).frame
  {
    forall u | Mapped(m, u) && u != v ensures Pte(m, u).frame != Pte(m, v).frame {
      assert Hits(m, PteRef(u), Pte(m, u).frame);
    }
  }

  lemma StoreKeeps(m: Machine, v: Vpage, k: nat, w: Word)
    requires Inv(m) && Present(m, v) && Pte(m, v).rw && k < WORDS
    ensures Mapped(m, v) && Inv(Store(m, v, k, w))
    ensures Spaces(Store(m, v, k, w)) == Spaces(m)[v := m.mem[Pte(m, v).frame][k := w]]
  {
    var f, n := Pte(m, v).frame, Store(m, v, k, w);
    WritableAlone(m, v);
    DirtiedKeeps(m, v);
    var x := Dirtied(m, v);
    WritableAlone(x, v);
    assert Hits(x, PteRef(v), f);
    NoTableIn(x, f);
    StoreData(x, f, k, w);
    hide Inv;
    assert forall u :: Mapped(n, u) <==> Mapped(x, u);
    SpacesDiffer(x, n, v);
  }

  // ---------------------------------------------------------------- tables, task pages, held pages

  /** From m to n no user entry changes, and only frame f changes owner or count. */
  ghost predicate OwnerStep(m: Machine, n: Machine, f: nat) {
    && Managed(m, f) && n.lo == m.lo && n.high == m.high && n.halted == m.halted
    && (forall u :: (Present(n, u) <==> Present(m, u)) && (Present(m, u) ==> Pte(n, u) == Pte(m, u)))
    && (forall g: nat | g != f :: RefSet(n, g) == RefSet(m, g))
    && (forall r | r in RefSet(m, f) :: !r.PteRef?)
    && (forall r | r in RefSet(n, f) :: !r.PteRef?)
    && |RefSet(n, f)| <= 1
    && n.counts == m.counts[f - LOW := |RefSet(n, f)|]
  }

  lemma OwnerStepCounts(m: Machine, n: Machine, f: nat)
    requires CountsExact(m) && OwnerStep(m, n, f)
    ensures CountsExact(n)
  {
    forall g: nat | LOW <= g < FRAMES
      ensures Managed(n, g) ==> n.counts[g - LOW] == |RefSet(n, g)|
      ensures !Managed(n, g) ==> n.counts[g - LOW] == USED && RefSet(n, g) == {}
    {
      assert Managed(n, g) <==> Managed(m, g);
    }
  }

  lemma OnlyElement<T>(s: set<T>, x: T)
    requires x in s && |s| <= 1
    ensures s == {x}
  {
    assert |s - {x}| == 0;
    assert s == {x} + (s - {x});
  }

  lemma OwnerStepExclusive(m: Machine, n: Machine, f: nat)
    requires Exclusive(m) && OwnerStep(m, n, f)
    ensures Exclusive(n)
  {
    forall r, g: nat | Hits(n, r, g) && !r.PteRef? ensures Managed(n, g) && RefSet(n, g) == {r} {
      assert r in RefSet(n, g);
      if g == f {
        OnlyElement(RefSet(n, f), r);
      } else {
        assert Hits(m, r, g);
      }
    }
    assert forall d | UserDir(d) && Dir(n, d).present :: Hits(n, DirRef(d), Dir(n, d).frame);
    assert forall t | 1 <= t < NR_TASKS && n.task[t].page != 0 :: Hits(n, TaskRef(t), n.task[t].page);
    assert forall g | g in n.held :: Hits(n, HeldRef(g), g);
  }

  lemma OwnerStepEntries(m: Machine, n: Machine, f: nat)
    requires Inv(m) && OwnerStep(m, n, f)
    ensures EntriesSafe(n) && SameOffset(n)
    ensures forall u | Present(m, u) :: Pte(m, u).frame != f
  {
    forall u | Present(m, u) ensures Pte(m, u).frame != f {
      assert Hits(m, PteRef(u), Pte(m, u).frame);
    }
  }

  lemma OwnerStepKeeps(m: Machine, n: Machine, f: nat)
    requires Inv(m) && OwnerStep(m, n, f) && SlotsBounded(n) && KernelLow(n)
    requires forall g: nat | g < FRAMES && g != f && (forall d | UserDir(d) && Dir(m, d).present :: Dir(m, d).frame != g) && g != 0
               :: n.mem[g] == m.mem[g]
    ensures Inv(n) && Spaces(n) == Spaces(m)
  {
    OwnerStepCounts(m, n, f);
    OwnerStepExclusive(m, n, f);
    OwnerStepEntries(m, n, f);
    forall u | Mapped(m, u) ensures n.mem[Pte(m, u).frame] == m.mem[Pte(m, u).frame] {
      forall d | UserDir(d) && Dir(m, d).present ensures Dir(m, d).frame != Pte(m, u).frame {
        TablesHoldNoData(m, d);
      }
    }
    assert forall u :: Mapped(n, u) <==> Mapped(m, u);
    Look(m);
    Look(n);
    hide Inv, OwnerStep, Exclusive, CountsExact, EntriesSafe, SameOffset;
    MapsEqual(Spaces(m), Spaces(n));
  }

  lemma MapsEqual<K(!new), V>(a: map<K, V>, b: map<K, V>)
    requires forall u :: (u in b <==> u in a) && (u in a && u in b ==> b[u] == a[u])
    ensures b == a
  {}

  /** No directory entry names frame f. */
  ghost predicate NoTable(m: Machine, f: nat) {
    forall d: nat | UserDir(d) && Dir(m, d).present :: Dir(m, d).frame != f
  }

  lemma NoTableIn(m: Machine, f: nat)
    requires forall r | r in RefSet(m, f) :: !r.DirRef?
    ensures NoTable(m, f)
  {
    forall d: nat | UserDir(d) && Dir(m, d).present ensures Dir(m, d).frame != f {
      assert Hits(m, DirRef(d), Dir(m, d).frame);
    }
  }

  /** get_free_page: count 1, zeroed, in the caller's hands. */
  function Grab(m: Machine, f: nat): Machine
    requires LOW <= f < FRAMES
  {
    m.(counts := m.counts[f - LOW := 1]).(mem := m.mem[f := ZeroPage()]).(held := m.held + {f})
  }

  lemma FreeUnowned(m: Machine, f: nat)
    requires Inv(m) && LOW <= f < FRAMES && m.counts[f - LOW] == 0
    ensures Managed(m, f) && RefSet(m, f) == {} && NoTable(m, f) && f !in m.held
  {
    NoTableIn(m, f);
    assert f in m.held ==> HeldRef(f) in RefSet(m, f);
  }

  lemma GrabRefs(m: Machine, f: nat, g: nat)
    requires LOW <= f < FRAMES && NoTable(m, f)
    ensures RefSet(Grab(m, f), g) == RefSet(m, g) + if g == f then {HeldRef(f)} else {}
  {
    var n := Grab(m, f);
    forall r ensures Hits(n, r, g) <==> Hits(m, r, g) || (g == f && r == HeldRef(f)) {
      match r {
        case PteRef(u) =>
        case DirRef(d) =>
        case TaskRef(t) =>
        case HeldRef(h) =>
      }
    }
  }

  lemma GrabStep(m: Machine, f: nat)
    requires Managed(m, f) && RefSet(m, f) == {} && NoTable(m, f)
    ensures OwnerStep(m, Grab(m, f), f)
  {
    forall g: nat ensures RefSet(Grab(m, f), g) == RefSet(m, g) + if g == f then {HeldRef(f)} else {} {
      GrabRefs(m, f, g);
    }
  }

  lemma GrabKeeps(m: Machine, f: nat)
    requires Inv(m) && LOW <= f < FRAMES && m.counts[f - LOW] == 0
    ensures f !in m.held && Inv(Grab(m, f)) && Spaces(Grab(m, f)) == Spaces(m)
  {
    FreeUnowned(m, f);
    GrabStep(m, f);
    OwnerStepKeeps(m, Grab(m, f), f);
  }

  /** free_page on a page the caller still holds. */
  function Drop(m: Machine, f: nat): Machine {
    DropCount(m, f).(held := m.held - {f})
  }

  lemma DropRefs(m: Machine, f: nat, g: nat)
    ensures RefSet(Drop(m, f), g) == RefSet(m, g) - if g == f then {HeldRef(f)} else {}
  {
    var n := Drop(m, f);
    assert n.mem == m.mem && n.task == m.task;
    forall r ensures Hits(n, r, g) <==> Hits(m, r, g) && (g == f ==> r != HeldRef(f)) {
      match r {
        case PteRef(u) =>
        case DirRef(d) =>
        case TaskRef(t) =>
        case HeldRef(h) =>
      }
    }
  }

  lemma DropStep(m: Machine, f: nat)
    requires Inv(m) && f in m.held
    ensures LOW <= f < FRAMES && m.counts[f - LOW] == 1 && OwnerStep(m, Drop(m, f), f)
  {
    forall g: nat ensures RefSet(Drop(m, f), g) == RefSet(m, g) - if g == f then {HeldRef(f)} else {} {
      DropRefs(m, f, g);
    }
  }

  lemma DropKeeps(m: Machine, f: nat)
    requires Inv(m) && f in m.held
    ensures Inv(Drop(m, f)) && Spaces(Drop(m, f)) == Spaces(m)
  {
    DropStep(m, f);
    OwnerStepKeeps(m, Drop(m, f), f);
  }

  /** `*to_dir = to_page_table | 7`: a held, zeroed page becomes the table of entry d. */
  function HangTable(m: Machine, d: nat, f: nat): Machine
    requires d < WORDS
  {
    PutWord(m, 0, d, Entry(f)).(held := m.held - {f})
  }

  /** `free_page(0xfffff000 & *dir); *dir = 0`. */
  function UnhangTable(m: Machine, d: nat): Machine
    requires d < WORDS
  {
    PutWord(DropCount(m, Dir(m, d).frame), 0, d, ZERO_WORD)
  }

  /** `task[t] = p`. */
  function PutTask(m: Machine, t: nat, task: Task): Machine
    requires 1 <= t < NR_TASKS
  {
    m.(task := m.task[t := task]).(held := m.held - {task.page})
  }

  /** `task[t] = NULL; free_page(p)`. */
  function ReleaseTask(m: Machine, t: nat): Machine
    requires 1 <= t < NR_TASKS
  {
    DropCount(m, m.task[t].page).(task := m.task[t := m.task[t].(page := 0)])
  }

  // ---- directory entries

  /** The table in frame f has no present entry. */
  ghost predicate EmptyTable(m: Machine, f: nat) {
    f < FRAMES && forall i | 0 <= i < WORDS :: !m.mem[f][i].present
  }

  /** From m to n directory entry d becomes w; the tables before and after are empty. */
  ghost predicate DirChanged(m: Machine, n: Machine, d: nat, w: Word) {
    && UserDir(d) && n.task == m.task && n.lo == m.lo && n.high == m.high && n.halted == m.halted
    && n.mem == m.mem[0 := m.mem[0][d := w]]
    && (Dir(m, d).present ==> 0 < Dir(m, d).frame && EmptyTable(m, Dir(m, d).frame))
    && (w.present ==> 0 < w.frame && EmptyTable(m, w.frame))
    && NoTable(m, 0)
  }

  lemma DirChangedEntries(m: Machine, n: Machine, d: nat, w: Word)
    requires DirChanged(m, n, d, w)
    ensures forall u :: (Present(n, u) <==> Present(m, u)) && (Present(m, u) ==> Pte(n, u) == Pte(m, u))
  {}

  lemma DirChangedRefs(m: Machine, n: Machine, d: nat, w: Word, g: nat)
    requires DirChanged(m, n, d, w)
    requires n.held <= m.held
    ensures RefSet(n, g) == RefSet(m, g) - {DirRef(d)} - (if g in m.held - n.held then {HeldRef(g)} else {})
                            + if w.present && w.frame == g then {DirRef(d)} else {}
  {
    DirChangedEntries(m, n, d, w);
    forall r ensures Hits(n, r, g) <==> if r == DirRef(d) then w.present && w.frame == g
                                        else Hits(m, r, g) && (r == HeldRef(g) ==> g in n.held)
    {
      match r {
        case PteRef(u) =>
        case DirRef(e) =>
        case TaskRef(t) =>
        case HeldRef(h) =>
      }
    }
  }

  lemma HangTableDir(m: Machine, d: nat, f: nat)
    requires Inv(m) && UserDir(d) && !Dir(m, d).present && f in m.held && EmptyTable(m, f)
    ensures DirChanged(m, HangTable(m, d, f), d, Entry(f)) && Managed(m, f) && m.counts[f - LOW] == 1
    ensures forall g :: DirRef(d) !in RefSet(m, g)
  {
    assert NoTable(m, 0);
  }

  lemma DirArrives(m: Machine, n: Machine, d: nat, f: nat)
    requires DirChanged(m, n, d, Entry(f)) && !Dir(m, d).present && Managed(m, f)
    requires RefSet(m, f) == {HeldRef(f)} && m.counts[f - LOW] == 1
    requires n.counts == m.counts && n.held == m.held - {f}
    ensures OwnerStep(m, n, f)
  {
    DirChangedEntries(m, n, d, Entry(f));
    forall g: nat ensures RefSet(n, g) == if g == f then {DirRef(d)} else RefSet(m, g) {
      DirChangedRefs(m, n, d, Entry(f), g);
      assert !Hits(m, DirRef(d), g);
    }
    assert m.counts[f - LOW := 1] == m.counts;
  }

  lemma HangTableStep(m: Machine, d: nat, f: nat)
    requires Inv(m) && UserDir(d) && !Dir(m, d).present && f in m.held && EmptyTable(m, f)
    ensures OwnerStep(m, HangTable(m, d, f), f)
  {
    HangTableDir(m, d, f);
    assert RefSet(m, f) == {HeldRef(f)};
    hide Inv;
    DirArrives(m, HangTable(m, d, f), d, f);
  }

  lemma HangTableSlots(m: Machine, d: nat, f: nat)
    requires SlotsBounded(m) && KernelLow(m) && UserDir(d)
    requires m.task[d / TASK_DIRS].Live() && d % TASK_DIRS < Dirs(m.task[d / TASK_DIRS].dataLimit)
    ensures SlotsBounded(HangTable(m, d, f)) && KernelLow(HangTable(m, d, f))
  {}

  lemma HangTableKeeps(m: Machine, d: nat, f: nat)
    requires Inv(m) && UserDir(d) && !Dir(m, d).present && f in m.held && EmptyTable(m, f)
    requires m.task[d / TASK_DIRS].Live() && d % TASK_DIRS < Dirs(m.task[d / TASK_DIRS].dataLimit)
    ensures Inv(HangTable(m, d, f)) && Spaces(HangTable(m, d, f)) == Spaces(m)
  {
    HangTableStep(m, d, f);
    HangTableSlots(m, d, f);
    hide SlotsBounded, KernelLow, OwnerStep;
    OwnerStepKeeps(m, HangTable(m, d, f), f);
  }

  lemma UnhangTableDir(m: Machine, d: nat)
    requires Inv(m) && UserDir(d) && Dir(m, d).present && EmptyTable(m, Dir(m, d).frame)
    ensures var f := Dir(m, d).frame;
      && Managed(m, f) && m.counts[f - LOW] == 1 && RefSet(m, f) == {DirRef(d)}
      && DirChanged(m, UnhangTable(m, d), d, ZERO_WORD)
  {
    assert NoTable(m, 0);
  }

  lemma DirLeaves(m: Machine, n: Machine, d: nat)
    requires DirChanged(m, n, d, ZERO_WORD) && Dir(m, d).present && Managed(m, Dir(m, d).frame)
    requires RefSet(m, Dir(m, d).frame) == {DirRef(d)}
    requires n.held == m.held && n.counts == m.counts[Dir(m, d).frame - LOW := 0]
    ensures OwnerStep(m, n, Dir(m, d).frame)
  {
    var f := Dir(m, d).frame;
    DirChangedEntries(m, n, d, ZERO_WORD);
    forall g: nat ensures RefSet(n, g) == if g == f then {} else RefSet(m, g) {
      DirChangedRefs(m, n, d, ZERO_WORD, g);
      assert Hits(m, DirRef(d), g) ==> g == f;
    }
  }

  lemma UnhangTableStep(m: Machine, d: nat)
    requires Inv(m) && UserDir(d) && Dir(m, d).present && EmptyTable(m, Dir(m, d).frame)
    ensures OwnerStep(m, UnhangTable(m, d), Dir(m, d).frame)
  {
    UnhangTableDir(m, d);
    hide Inv;
    DirLeaves(m, UnhangTable(m, d), d);
  }

  lemma UnhangTableKeeps(m: Machine, d: nat)
    requires Inv(m) && UserDir(d) && Dir(m, d).present && EmptyTable(m, Dir(m, d).frame)
    ensures Inv(UnhangTable(m, d)) && Spaces(UnhangTable(m, d)) == Spaces(m)
  {
    UnhangTableStep(m, d);
    OwnerStepKeeps(m, UnhangTable(m, d), Dir(m, d).frame);
  }

  // ---- task slots

  lemma PutTaskRefs(m: Machine, t: nat, task: Task, g: nat)
    requires 1 <= t < NR_TASKS && m.task[t].page == 0 && task.page != 0
    ensures RefSet(PutTask(m, t, task), g)
         == if g == task.page then RefSet(m, g) - {HeldRef(g)} + {TaskRef(t)} else RefSet(m, g)
  {
    var n := PutTask(m, t, task);
    assert n.mem == m.mem;
    forall r ensures Hits(n, r, g) <==> (Hits(m, r, g) && (g == task.page ==> r != HeldRef(g)))
                                        || (g == task.page && r == TaskRef(t))
    {
      match r {
        case PteRef(u) =>
        case DirRef(d) =>
        case TaskRef(s) =>
        case HeldRef(h) =>
      }
    }
  }

  lemma PutTaskStep(m: Machine, t: nat, task: Task)
    requires 1 <= t < NR_TASKS && m.task[t].page == 0 && Managed(m, task.page)
    requires RefSet(m, task.page) == {HeldRef(task.page)} && m.counts[task.page - LOW] == 1
    ensures OwnerStep(m, PutTask(m, t, task), task.page)
  {
    var n, f := PutTask(m, t, task), task.page;
    assert m.counts[f - LOW := 1] == m.counts;
    forall g: nat ensures RefSet(n, g) == if g == f then {TaskRef(t)} else RefSet(m, g) {
      PutTaskRefs(m, t, task, g);
    }
  }

  lemma PutTaskSlots(m: Machine, t: nat, task: Task)
    requires Inv(m) && 1 <= t < NR_TASKS && m.task[t].page == 0 && task.page != 0
    requires task.codeLimit <= task.dataLimit <= MAX_LIMIT
    ensures SlotsBounded(PutTask(m, t, task)) && KernelLow(PutTask(m, t, task))
  {}

  lemma PutTaskKeeps(m: Machine, t: nat, task: Task)
    requires Inv(m) && 1 <= t < NR_TASKS && m.task[t].page == 0 && task.page in m.held
    requires task.codeLimit <= task.dataLimit <= MAX_LIMIT
    ensures Inv(PutTask(m, t, task)) && Spaces(PutTask(m, t, task)) == Spaces(m)
  {
    var n := PutTask(m, t, task);
    PutTaskStep(m, t, task);
    PutTaskSlots(m, t, task);
    hide Inv, OwnerStep;
    OwnerStepKeeps(m, n, task.page);
  }

  /** Task t has no page table. */
  ghost predicate NoTables(m: Machine, t: nat) {
    forall d | UserDir(d) && d / TASK_DIRS == t :: !Dir(m, d).present
  }

  lemma ReleaseTaskRefs(m: Machine, t: nat, g: nat)
    requires 1 <= t < NR_TASKS
    ensures RefSet(ReleaseTask(m, t), g) == RefSet(m, g) - {TaskRef(t)}
  {
    var n := ReleaseTask(m, t);
    assert n.mem == m.mem;
    forall r ensures Hits(n, r, g) <==> Hits(m, r, g) && r != TaskRef(t) {
      match r {
        case PteRef(u) =>
        case DirRef(d) =>
        case TaskRef(s) =>
        case HeldRef(h) =>
      }
    }
  }

  lemma ReleaseTaskStep(m: Machine, t: nat)
    requires 1 <= t < NR_TASKS && Managed(m, m.task[t].page)
    requires RefSet(m, m.task[t].page) == {TaskRef(t)} && m.counts[m.task[t].page - LOW] == 1
    ensures OwnerStep(m, ReleaseTask(m, t), m.task[t].page)
  {
    var n, f := ReleaseTask(m, t), m.task[t].page;
    forall g: nat ensures RefSet(n, g) == if g == f then {} else RefSet(m, g) {
      ReleaseTaskRefs(m, t, g);
      assert Hits(m, TaskRef(t), g) ==> g == f;
    }
  }

  lemma ReleaseTaskKeeps(m: Machine, t: nat)
    requires Inv(m) && 1 <= t < NR_TASKS && m.task[t].page != 0 && NoTables(m, t)
    ensures Inv(ReleaseTask(m, t)) && Spaces(ReleaseTask(m, t)) == Spaces(m)
  {
    assert RefSet(m, m.task[t].page) == {TaskRef(t)} && Managed(m, m.task[t].page);
    ReleaseTaskStep(m, t);
    OwnerStepKeeps(m, ReleaseTask(m, t), m.task[t].page);
  }

  /** New limits (change_ldt) or a new state (do_exit) for a task whose tables are gone. */
  function Retask(m: Machine, t: nat, task: Task): Machine
    requires t < NR_TASKS
  {
    m.(task := m.task[t := task])
  }

  lemma RetaskRefs(m: Machine, t: nat, task: Task, g: nat)
    requires t < NR_TASKS && task.page == m.task[t].page
    ensures RefSet(Retask(m, t, task), g) == RefSet(m, g)
  {
    var n := Retask(m, t, task);
    assert n.mem == m.mem;
    forall r ensures Hits(n, r, g) <==> Hits(m, r, g) {
      match r {
        case PteRef(u) =>
        case DirRef(d) =>
        case TaskRef(s) =>
        case HeldRef(h) =>
      }
    }
  }

  lemma RetaskOwners(m: Machine, t: nat, task: Task)
    requires Inv(m) && t < NR_TASKS && task.page == m.task[t].page
    ensures var n := Retask(m, t, task);
      CountsExact(n) && Exclusive(n) && EntriesSafe(n) && SameOffset(n)
  {
    var n := Retask(m, t, task);
    assert n.mem == m.mem;
    forall g: nat
      ensures RefSet(n, g) == RefSet(m, g)
      ensures Managed(n, g) <==> Managed(m, g)
    {
      RetaskRefs(m, t, task, g);
    }
    assert forall u :: Present(n, u) <==> Present(m, u);
  }

  lemma RetaskKeeps(m: Machine, t: nat, task: Task)
    requires Inv(m) && 1 <= t < NR_TASKS && NoTables(m, t)
    requires task.page == m.task[t].page && task.codeLimit <= task.dataLimit <= MAX_LIMIT
    ensures Inv(Retask(m, t, task)) && Spaces(Retask(m, t, task)) == Spaces(m)
  {
    var n := Retask(m, t, task);
    RetaskOwners(m, t, task);
    assert n.mem == m.mem;
    assert forall u :: Mapped(n, u) <==> Mapped(m, u);
    Look(m);
    Look(n);
    MapsEqual(Spaces(m), Spaces(n));
  }
}
