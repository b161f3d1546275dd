/**
 The zones of a Minix file system: a bitmap, and for every file a tree of zone numbers with
 seven direct zones, one indirect and one double indirect block. All blocks are seen through the
 buffer cache, which stands for a plain disk.
 */
module BlockTree {

  const BLOCK_SIZE: nat := 1024
  const DIRECT: nat := 7
  const PER_BLOCK: nat := 512
  const MAX_BLOCKS: nat := 7 + 512 + 512 * 512

  type Byte = x: int | 0 <= x < 256
  type Block = b: seq<Byte> | |b| == 1024 witness seq(1024, (_: nat) => 0)

  /** A zone number in 16 bits. */
  type Zone = x: int | 0 <= x < 0x1_0000

  /** Only regular files and directories have zones; zone 0 of a special file is a device number. */
  datatype Kind = Regular | Directory | Special

  datatype Inode = Inode(kind: Kind, zone: seq<Zone>, size: nat)

  /** first and zones are s_firstdatazone and s_nzones; bits is the zone bitmap. */
  datatype Fs = Fs(first: nat, zones: nat, bits: seq<bool>, blocks: seq<Block>, inodes: seq<Inode>)

  /** Where a zone number can stand: in an inode, or in a block that another place names. */
  datatype Slot = Root(ino: nat, k: nat) | Under(parent: Slot, k: nat)

  /** The k-th unsigned short of a block. */
  function Entry(b: Block, k: nat): Zone
    requires k < PER_BLOCK
  {
    (b[2 * k] as int) + 256 * (b[2 * k + 1] as int)
  }

  function PutEntry(b: Block, k: nat, z: Zone): Block
    requires k < PER_BLOCK
  {
    b[2 * k := z % 256][2 * k + 1 := z / 256]
  }

  lemma EntryPut(b: Block, k: nat, z: Zone, j: nat)
    requires k < PER_BLOCK && j < PER_BLOCK
    ensures Entry(PutEntry(b, k, z), j) == if j == k then z else Entry(b, j)
  {}

  function Zeros(): (b: Block)
    ensures forall i: nat | i < BLOCK_SIZE :: b[i] == 0
  {
    seq(BLOCK_SIZE, (_: nat) => 0)
  }

  /** The block that this place names is an indirect block. */
  predicate IsIndex(p: Slot) {
    match p
    case Root(_, k) => k == 7 || k == 8
    case Under(r, _) => r.Root? && r.k == 8
  }

  function Owner(p: Slot): nat {
    match p
    case Root(i, _) => i
    case Under(r, _) => Owner(r)
  }

  /** p is a place in the tree of a file. */
  predicate Exists(s: Fs, p: Slot) {
    match p
    case Root(i, k) => i < |s.inodes| && !s.inodes[i].kind.Special? && k < 9 && |s.inodes[i].zone| == 9
    case Under(r, k) => k < PER_BLOCK && IsIndex(r) && Exists(s, r)
  }

  /** The zone number at a place, 0 when there is none. */
  function At(s: Fs, p: Slot): Zone {
    if !Exists(s, p) then 0 else
    match p
    case Root(i, k) => s.inodes[i].zone[k]
    case Under(r, k) => var z := At(s, r); if z == 0 || z >= |s.blocks| then 0 else Entry(s.blocks[z], k)
  }

  /** The bit of a zone in the bitmap. */
  function BitOf(s: Fs, z: int): int {
    z - s.first + 1
  }

  predicate InData(s: Fs, z: int) {
    s.first <= z < s.zones
  }

  predicate Marked(s: Fs, z: int) {
    InData(s, z) && BitOf(s, z) < |s.bits| && s.bits[BitOf(s, z)]
  }

  /** What mount checks and mkfs provides: the bitmap covers the zones and bit 0, which stands for no
      zone, is set. Inodes have nine zones. */
  ghost predicate Shape(s: Fs) {
    && 0 < s.first && s.zones < 0x1_0000 && s.zones <= |s.blocks| && 0 < |s.bits| && s.bits[0]
    && (s.first <= s.zones ==> BitOf(s, s.zones) <= |s.bits|)
    && forall i: nat | i < |s.inodes| :: |s.inodes[i].zone| == 9
  }

  /** Places name zones in the data area, and different places different zones. */
  ghost predicate Proper(s: Fs) {
    && (forall p: Slot | At(s, p) != 0 :: InData(s, At(s, p)))
    && (forall p: Slot, q: Slot | At(s, p) != 0 && At(s, p) == At(s, q) :: p == q)
  }

  /** The marked zones are those that places other than the dead ones name. */
  ghost predicate Accounted(s: Fs, dead: set<Slot>) {
    && (forall p: Slot | At(s, p) != 0 && p !in dead :: Marked(s, At(s, p)))
    && (forall z: nat | Marked(s, z) :: exists p: Slot :: p !in dead && At(s, p) == z)
    && (forall p: Slot | p in dead :: !Marked(s, At(s, p)))
  }

  /** The zone bits that are set are exactly the zones reachable from inodes, and no zone is
      reachable twice. */
  ghost predicate Sound(s: Fs) {
    Shape(s) && Proper(s) && Accounted(s, {})
  }

  // ---------------------------------------------------------------- steps

  /** Stores zone number z at place p. */
  function Put(s: Fs, p: Slot, z: Zone): Fs
    requires Exists(s, p)
  {
    match p
    case Root(i, k) => s.(inodes := s.inodes[i := s.inodes[i].(zone := s.inodes[i].zone[k := z])])
    case Under(r, k) =>
      var b := At(s, r);
      if b == 0 || b >= |s.blocks| then s else s.(blocks := s.blocks[b := PutEntry(s.blocks[b], k, z)])
  }

  /** new_block has taken zone z: its bit is set and its block cleared. */
  function Take(s: Fs, z: nat): Fs
    requires InData(s, z) && BitOf(s, z) < |s.bits| && z < |s.blocks|
  {
    s.(bits := s.bits[BitOf(s, z) := true], blocks := s.blocks[z := Zeros()])
  }

  /** The zone number at p has its place: an inode, or a block that is there. */
  predicate Reaches(s: Fs, p: Slot) {
    Exists(s, p) && (p.Under? ==> At(s, p.parent) != 0)
  }

  lemma ExistsSame(s: Fs, t: Fs, p: Slot)
    requires |t.inodes| == |s.inodes|
    requires forall i: nat | i < |s.inodes| ::
      t.inodes[i].kind == s.inodes[i].kind && |t.inodes[i].zone| == |s.inodes[i].zone|
    ensures Exists(t, p) == Exists(s, p)
  {}

  /** Taking a free zone changes no place. */
  lemma {:induction false} TakeAt(s: Fs, z: nat, p: Slot)
    requires Shape(s) && Proper(s) && InData(s, z) && (forall q: Slot :: At(s, q) != z)
    ensures BitOf(s, z) < |s.bits| && At(Take(s, z), p) == At(s, p)
  {
    var t := Take(s, z);
    ExistsSame(s, t, p);
    if p.Under? && Exists(s, p) {
      TakeAt(s, z, p.parent);
    }
  }

  /** Storing a taken but unused zone at an empty place changes that place only. */
  lemma {:induction false} PutAt(s: Fs, p: Slot, z: Zone, q: Slot)
    requires Shape(s) && Proper(s) && Reaches(s, p) && At(s, p) == 0
    requires InData(s, z) && s.blocks[z] == Zeros() && (forall r: Slot :: At(s, r) != z)
    ensures At(Put(s, p, z), q) == if q == p then z else At(s, q)
    decreases q
  {
    var t := Put(s, p, z);
    ExistsSame(s, t, q);
    if q.Under? && Exists(s, q) {
      var r := q.parent;
      PutAt(s, p, z, r);
      if p.Under? {
        var b := At(s, p.parent);
        assert At(s, r) == b ==> r == p.parent;
        EntryPut(s.blocks[b], p.k, z, q.k);
      }
    }
  }

  /** create_block's step: a free zone is taken, cleared and stored at an empty place. */
  function Attach(s: Fs, p: Slot, z: nat): Fs
    requires InData(s, z) && BitOf(s, z) < |s.bits| && z < |s.blocks| && z < 0x1_0000 && Exists(s, p)
  {
    ExistsSame(s, Take(s, z), p);
    Put(Take(s, z), p, z)
  }

  predicate CanAttach(s: Fs, p: Slot, z: nat) {
    && Reaches(s, p) && At(s, p) == 0 && InData(s, z) && z < 0x1_0000
    && BitOf(s, z) < |s.bits| && z < |s.blocks| && !Marked(s, z)
  }

  /** An unmarked zone is named nowhere. */
  lemma Unnamed(s: Fs, z: nat)
    requires Sound(s) && InData(s, z) && !Marked(s, z)
    ensures forall q: Slot :: At(s, q) != z
  {
    assert z != 0;
  }

  lemma TakeShape(s: Fs, z: nat)
    requires Sound(s) && InData(s, z) && !Marked(s, z)
    ensures BitOf(s, z) < |s.bits| && z < |s.blocks|
    ensures Shape(Take(s, z)) && Proper(Take(s, z)) && Take(s, z).blocks[z] == Zeros()
    ensures forall q: Slot :: At(Take(s, z), q) == At(s, q) && Exists(Take(s, z), q) == Exists(s, q)
  {
    Unnamed(s, z);
    forall q: Slot ensures At(Take(s, z), q) == At(s, q) && Exists(Take(s, z), q) == Exists(s, q) {
      TakeAt(s, z, q);
      ExistsSame(s, Take(s, z), q);
    }
  }

  lemma AttachAt(s: Fs, p: Slot, z: nat, q: Slot)
    requires Sound(s) && CanAttach(s, p, z)
    ensures At(Attach(s, p, z), q) == if q == p then z else At(s, q)
  {
    Unnamed(s, z);
    TakeShape(s, z);
    PutAt(Take(s, z), p, z, q);
  }

  /** After it every marked zone is again named exactly once. */
  lemma AttachSound(s: Fs, p: Slot, z: nat)
    requires Sound(s) && CanAttach(s, p, z)
    ensures Sound(Attach(s, p, z))
  {
    var t := Attach(s, p, z);
    Unnamed(s, z);
    forall q: Slot ensures At(t, q) == if q == p then z else At(s, q) {
      AttachAt(s, p, z, q);
    }
    forall y: nat ensures Marked(t, y) <==> Marked(s, y) || y == z {}
    forall y: nat | Marked(t, y) ensures exists q: Slot :: q !in {} && At(t, q) == y {
      if y == z {
        assert p !in {} && At(t, p) == y;
      } else {
        var q: Slot :| q !in {} && At(s, q) == y;
        assert At(t, q) == y;
      }
    }
  }

  // ---------------------------------------------------------------- files as bytes

  /** Where _bmap looks for a block of a file. */
  function SlotOf(i: nat, block: nat): Slot {
    if block < DIRECT then Root(i, block)
    else if block < DIRECT + PER_BLOCK then Under(Root(i, 7), block - DIRECT)
    else Under(Under(Root(i, 8), (block - DIRECT - PER_BLOCK) / PER_BLOCK), (block - DIRECT - PER_BLOCK) % PER_BLOCK)
  }

  /** Different blocks of files stand at different places, none of them an indirect block. */
  lemma SlotsDiffer(i: nat, a: nat, j: nat, b: nat)
    requires a < MAX_BLOCKS && b < MAX_BLOCKS
    ensures !IsIndex(SlotOf(i, a)) && Owner(SlotOf(i, a)) == i
    ensures SlotOf(i, a) == SlotOf(j, b) <==> i == j && a == b
  {
    assert Owner(Under(Root(i, 8), if a < 519 then 0 else (a - 519) / PER_BLOCK)) == i;
  }

  /** The zone of a block of a file, 0 for a hole: bmap. */
  function ZoneOf(s: Fs, i: nat, block: nat): Zone {
    At(s, SlotOf(i, block))
  }

  /** A file as a flat array of bytes; a hole reads as zero. */
  function ByteAt(s: Fs, i: nat, pos: nat): Byte {
    var z := ZoneOf(s, i, pos / BLOCK_SIZE);
    if z == 0 || z >= |s.blocks| then 0 else s.blocks[z][pos % BLOCK_SIZE]
  }

  /** All files have the same kinds and sizes. */
  ghost predicate SameInodes(s: Fs, t: Fs) {
    && t.first == s.first && t.zones == s.zones && |t.inodes| == |s.inodes| && |t.blocks| == |s.blocks|
    && forall i: nat | i < |s.inodes| :: t.inodes[i].kind == s.inodes[i].kind && t.inodes[i].size == s.inodes[i].size
  }

  ghost predicate SameBytes(s: Fs, t: Fs) {
    forall i: nat, pos: nat | pos / BLOCK_SIZE < MAX_BLOCKS :: ByteAt(t, i, pos) == ByteAt(s, i, pos)
  }

  /** What places name stays; only place p, or an indirect block, may have been given a zone. */
  ghost predicate SameZones(s: Fs, t: Fs, p: Slot) {
    forall q: Slot :: (At(s, q) != 0 || (q != p && !IsIndex(q))) ==> At(t, q) == At(s, q)
  }

  /** No zone is free. */
  ghost predicate Full(s: Fs) {
    forall z: nat | InData(s, z) :: Marked(s, z)
  }

  /** create_block for place p keeps the file system sound and every file as it was. */
  ghost predicate Grows(s: Fs, t: Fs, p: Slot) {
    Sound(t) && SameInodes(s, t) && SameBytes(s, t) && SameZones(s, t, p)
  }

  lemma GrowsTwice(s: Fs, t: Fs, u: Fs, p: Slot)
    requires Grows(s, t, p) && Grows(t, u, p)
    ensures Grows(s, u, p)
  {}

  lemma AttachBlocks(s: Fs, p: Slot, z: nat, y: nat)
    requires Sound(s) && CanAttach(s, p, z) && y < |s.blocks|
    requires p.Under? ==> y != At(s, p.parent)
    ensures |Attach(s, p, z).blocks| == |s.blocks|
    ensures Attach(s, p, z).blocks[y] == if y == z then Zeros() else s.blocks[y]
  {
    TakeShape(s, z);
  }

  lemma AttachByte(s: Fs, p: Slot, z: nat, i: nat, pos: nat)
    requires Sound(s) && CanAttach(s, p, z) && pos / BLOCK_SIZE < MAX_BLOCKS
    ensures ByteAt(Attach(s, p, z), i, pos) == ByteAt(s, i, pos)
  {
    var q := SlotOf(i, pos / BLOCK_SIZE);
    SlotsDiffer(i, pos / BLOCK_SIZE, i, pos / BLOCK_SIZE);
    AttachAt(s, p, z, q);
    Unnamed(s, z);
    var y := At(Attach(s, p, z), q);
    if y != 0 {
      assert p.Under? ==> At(s, p.parent) != 0 && p.parent != q;
      AttachBlocks(s, p, z, y);
    }
  }

  lemma AttachGrows(s: Fs, p: Slot, z: nat, target: Slot)
    requires Sound(s) && CanAttach(s, p, z) && (p == target || IsIndex(p))
    ensures Grows(s, Attach(s, p, z), target)
  {
    AttachSound(s, p, z);
    forall i: nat, pos: nat | pos / BLOCK_SIZE < MAX_BLOCKS
      ensures ByteAt(Attach(s, p, z), i, pos) == ByteAt(s, i, pos)
    {
      AttachByte(s, p, z, i, pos);
    }
    forall q: Slot ensures (At(s, q) != 0 || (q != target && !IsIndex(q))) ==> At(Attach(s, p, z), q) == At(s, q) {
      AttachAt(s, p, z, q);
    }
    TakeShape(s, z);
  }

  /** A bit that stands for no zone may be set: new_block does so before it looks at s_nzones. */
  lemma SpareBit(s: Fs, k: nat, target: Slot)
    requires Sound(s) && k < |s.bits| && !InData(s, k + s.first - 1)
    ensures Grows(s, s.(bits := s.bits[k := true]), target)
    ensures forall z: int :: Marked(s.(bits := s.bits[k := true]), z) == Marked(s, z)
    ensures forall q: Slot :: At(s.(bits := s.bits[k := true]), q) == At(s, q)
  {
    var t := s.(bits := s.bits[k := true]);
    forall q: Slot ensures At(t, q) == At(s, q) {
      BitsAt(s, t, q);
    }
    assert forall z: int :: Marked(t, z) == Marked(s, z);
    AccountedSame(s, t, {});
  }

  /** The bitmap says nothing about places. */
  lemma {:induction false} BitsAt(s: Fs, t: Fs, q: Slot)
    requires t == s.(bits := t.bits)
    ensures At(t, q) == At(s, q) && Exists(t, q) == Exists(s, q)
  {
    ExistsSame(s, t, q);
    if q.Under? {
      BitsAt(s, t, q.parent);
    }
  }

  lemma MarksSame(s: Fs, t: Fs)
    requires t.first == s.first && t.zones == s.zones && t.bits == s.bits
    ensures forall z: int :: Marked(t, z) == Marked(s, z)
  {}

  /** A step that touches neither places nor marks of zones. */
  lemma AccountedSame(s: Fs, t: Fs, dead: set<Slot>)
    requires Proper(s) && Accounted(s, dead) && t.first == s.first && t.zones == s.zones
    requires forall q: Slot :: At(t, q) == At(s, q)
    requires forall z: int :: Marked(t, z) == Marked(s, z)
    ensures Proper(t) && Accounted(t, dead)
  {
    forall z: nat | Marked(t, z) ensures exists q: Slot :: q !in dead && At(t, q) == z {
      assert Marked(s, z);
      var q: Slot :| q !in dead && At(s, q) == z;
      assert At(t, q) == z;
    }
  }

  // ---------------------------------------------------------------- writing data

  function Store(s: Fs, z: nat, b: Block): Fs
    requires z < |s.blocks|
  {
    s.(blocks := s.blocks[z := b])
  }

  /** Data does not matter to the tree. */
  lemma {:induction false} StoreAt(s: Fs, p: Slot, b: Block, q: Slot)
    requires Shape(s) && Proper(s) && !IsIndex(p) && At(s, p) != 0
    ensures At(s, p) < |s.blocks| && At(Store(s, At(s, p), b), q) == At(s, q)
    ensures Exists(Store(s, At(s, p), b), q) == Exists(s, q)
    decreases q
  {
    var t := Store(s, At(s, p), b);
    ExistsSame(s, t, q);
    if q.Under? && Exists(s, q) {
      StoreAt(s, p, b, q.parent);
      assert q.parent != p;
    }
  }

  lemma StoreSound(s: Fs, p: Slot, b: Block)
    requires Sound(s) && !IsIndex(p) && At(s, p) != 0
    ensures At(s, p) < |s.blocks| && Sound(Store(s, At(s, p), b))
  {
    assert Shape(s) && InData(s, At(s, p));
    var t := Store(s, At(s, p), b);
    assert Shape(t);
    StoreKeeps(s, p, b);
    hide At;
    MarksSame(s, t);
    hide Marked;
    AccountedSame(s, t, {});
  }

  lemma StoreKeeps(s: Fs, p: Slot, b: Block)
    requires Shape(s) && Proper(s) && !IsIndex(p) && At(s, p) != 0
    ensures At(s, p) < |s.blocks| && forall q: Slot :: At(Store(s, At(s, p), b), q) == At(s, q)
  {
    forall q: Slot ensures At(Store(s, At(s, p), b), q) == At(s, q) {
      StoreAt(s, p, b, q);
    }
  }

  /** Storing one block of one file changes its bytes and no other byte of any file. */
  lemma StoreByte(s: Fs, i: nat, block: nat, b: Block, j: nat, pos: nat)
    requires Sound(s) && block < MAX_BLOCKS && ZoneOf(s, i, block) != 0 && pos / BLOCK_SIZE < MAX_BLOCKS
    ensures ZoneOf(s, i, block) < |s.blocks|
    ensures ByteAt(Store(s, ZoneOf(s, i, block), b), j, pos) ==
      if j == i && pos / BLOCK_SIZE == block then b[pos % BLOCK_SIZE] else ByteAt(s, j, pos)
  {
    var p := SlotOf(i, block);
    var q := SlotOf(j, pos / BLOCK_SIZE);
    SlotsDiffer(i, block, j, pos / BLOCK_SIZE);
    StoreAt(s, p, b, q);
    assert At(s, p) == At(s, q) ==> p == q;
  }

  // ---------------------------------------------------------------- truncate

  /** The tree without a bit: what free_block does. */
  function Unmark(s: Fs, z: nat): Fs
    requires 0 <= BitOf(s, z) < |s.bits|
  {
    s.(bits := s.bits[BitOf(s, z) := false])
  }

  lemma UnmarkMarks(s: Fs, z: nat)
    requires InData(s, z) && 0 <= BitOf(s, z) < |s.bits|
    ensures forall y: int :: Marked(Unmark(s, z), y) <==> Marked(s, y) && y != z
  {}

  lemma UnmarkAccounted(s: Fs, t: Fs, dead: set<Slot>, p: Slot)
    requires Proper(s) && Accounted(s, dead) && At(s, p) != 0 && p !in dead && t.first == s.first && t.zones == s.zones
    requires forall q: Slot :: At(t, q) == At(s, q)
    requires forall y: int :: Marked(t, y) <==> Marked(s, y) && y != At(s, p)
    ensures Proper(t) && Accounted(t, dead + {p})
  {
    hide Marked;
    hide At;
    forall y: nat | Marked(t, y) ensures exists q: Slot :: q !in dead + {p} && At(t, q) == y {
      assert Marked(s, y);
      var q: Slot :| q !in dead && At(s, q) == y;
      assert q !in dead + {p} && At(t, q) == y;
    }
  }

  /** A place outside `dead` names a marked zone, so free_block does not panic; then it is dead too. */
  lemma UnmarkDead(s: Fs, dead: set<Slot>, p: Slot)
    requires Shape(s) && Proper(s) && Accounted(s, dead) && At(s, p) != 0 && p !in dead
    ensures Marked(s, At(s, p)) && 0 <= BitOf(s, At(s, p)) < |s.bits|
    ensures
      var t := Unmark(s, At(s, p));
      Shape(t) && Proper(t) && Accounted(t, dead + {p}) && forall q: Slot :: At(t, q) == At(s, q)
  {
    var z := At(s, p);
    var t := Unmark(s, z);
    forall q: Slot ensures At(t, q) == At(s, q) {
      BitsAt(s, t, q);
    }
    UnmarkMarks(s, z);
    UnmarkAccounted(s, t, dead, p);
  }

  /** A direct zone that is dead is forgotten. */
  lemma ForgetDirect(s: Fs, dead: set<Slot>, i: nat, k: nat)
    requires Shape(s) && Proper(s) && Accounted(s, dead) && Exists(s, Root(i, k)) && k < 7 && Root(i, k) in dead
    ensures
      var t := Put(s, Root(i, k), 0);
      Shape(t) && Proper(t) && Accounted(t, dead) && forall q: Slot :: At(t, q) == if q == Root(i, k) then 0 else At(s, q)
  {
    var t := Put(s, Root(i, k), 0);
    forall q: Slot ensures At(t, q) == if q == Root(i, k) then 0 else At(s, q) {
      ForgetAt(s, i, k, q);
    }
    forall y: nat | Marked(t, y) ensures exists q: Slot :: q !in dead && At(t, q) == y {
      assert Marked(s, y);
      var q: Slot :| q !in dead && At(s, q) == y;
      assert At(t, q) == y;
    }
  }

  lemma {:induction false} ForgetAt(s: Fs, i: nat, k: nat, q: Slot)
    requires Exists(s, Root(i, k)) && k < 7
    ensures At(Put(s, Root(i, k), 0), q) == if q == Root(i, k) then 0 else At(s, q)
    decreases q
  {
    ExistsSame(s, Put(s, Root(i, k), 0), q);
    if q.Under? {
      ForgetAt(s, i, k, q.parent);
    }
  }

  /** An inode without zones, of size 0. */
  function Emptied(s: Fs, i: nat): Fs
    requires i < |s.inodes|
  {
    s.(inodes := s.inodes[i := s.inodes[i].(zone := seq(9, (_: nat) => 0), size := 0)])
  }

  lemma {:induction false} EmptiedAt(s: Fs, i: nat, q: Slot)
    requires i < |s.inodes| && |s.inodes[i].zone| == 9
    ensures At(Emptied(s, i), q) == if Owner(q) == i then 0 else At(s, q)
    decreases q
  {
    ExistsSame(s, Emptied(s, i), q);
    if q.Under? {
      EmptiedAt(s, i, q.parent);
    }
  }

  /** When exactly the places of file i are dead, forgetting them leaves a sound file system. */
  lemma EmptiedSound(s: Fs, dead: set<Slot>, i: nat)
    requires Shape(s) && Proper(s) && Accounted(s, dead) && i < |s.inodes|
    requires forall q: Slot | At(s, q) != 0 && Owner(q) == i :: q in dead
    requires forall q: Slot | q in dead :: Owner(q) == i
    ensures Sound(Emptied(s, i))
  {
    var t := Emptied(s, i);
    forall q: Slot ensures At(t, q) == if Owner(q) == i then 0 else At(s, q) {
      EmptiedAt(s, i, q);
    }
    AccountedEmptied(s, t, dead, i);
  }

  lemma AccountedEmptied(s: Fs, t: Fs, dead: set<Slot>, i: nat)
    requires Proper(s) && Accounted(s, dead) && t.first == s.first && t.zones == s.zones && t.bits == s.bits
    requires forall q: Slot | At(s, q) != 0 && Owner(q) == i :: q in dead
    requires forall q: Slot | q in dead :: Owner(q) == i
    requires forall q: Slot :: At(t, q) == if Owner(q) == i then 0 else At(s, q)
    ensures Proper(t) && Accounted(t, {})
  {
    MarksSame(s, t);
    forall y: nat | Marked(t, y) ensures exists q: Slot :: q !in {} && At(t, q) == y {
      assert Marked(s, y);
      var q: Slot :| q !in dead && At(s, q) == y;
      assert q !in {} && At(t, q) == y;
    }
  }

  /** The zones of a file. */
  ghost predicate ZoneOfFile(s: Fs, i: nat, z: int) {
    exists q: Slot :: Owner(q) == i && z != 0 && At(s, q) == z
  }

  /** What truncate must do to a file: it is empty, its zones and no others are free, and no other
      file changes. */
  ghost predicate Truncated(s: Fs, t: Fs, i: nat) {
    && Sound(t) && i < |s.inodes| == |t.inodes| && t.first == s.first && t.zones == s.zones
    && t.inodes[i].size == 0
    && (forall q: Slot :: At(t, q) == if Owner(q) == i then 0 else At(s, q))
    && (forall z: int :: Marked(t, z) <==> Marked(s, z) && !ZoneOfFile(s, i, z))
    && (forall j: nat | j < |s.inodes| && j != i :: t.inodes[j] == s.inodes[j])
    && t.blocks == s.blocks
  }

  /** So it reads as zeros everywhere, and every other file as before. */
  lemma TruncatedBytes(s: Fs, t: Fs, i: nat, j: nat, pos: nat)
    requires Truncated(s, t, i) && pos / BLOCK_SIZE < MAX_BLOCKS
    ensures ByteAt(t, j, pos) == if j == i then 0 else ByteAt(s, j, pos)
  {
    SlotsDiffer(j, pos / BLOCK_SIZE, i, pos / BLOCK_SIZE);
  }

  /** The zones that truncate frees can be taken again. */
  lemma TruncatedFrees(s: Fs, t: Fs, i: nat, p: Slot)
    requires Sound(s) && Truncated(s, t, i) && Owner(p) == i && At(s, p) != 0
    ensures Marked(s, At(s, p)) && !Marked(t, At(s, p))
  {
    assert ZoneOfFile(s, i, At(s, p));
  }
}
