/**
 fs/bitmap.c, fs/inode.c, fs/truncate.c and fs/file_dev.c on one mounted device, each call running
 to its end before the next. Reading a block never fails.
 */
module FileSystem {
  import opened BlockTree

  const MAP_BITS: nat := 8192
  const MAP_BLOCKS: nat := 8

  /** new_block found nothing: at most a bit that stands for no zone has been set. */
  ghost predicate Spared(s: Fs, t: Fs) {
    t == s || exists k: nat :: t == SetBit(s, k) && k < |s.bits| && !InData(s, k + s.first - 1)
  }

  function SetBit(s: Fs, k: nat): Fs {
    if k < |s.bits| then s.(bits := s.bits[k := true]) else s
  }

  /** The lowest clear bit of the map; its length when all are set. */
  function LowestClear(bits: seq<bool>): (k: nat)
    ensures k <= |bits| && (k < |bits| ==> !bits[k]) && forall j: nat | j < k :: bits[j]
  {
    if |bits| == 0 || !bits[0] then 0 else
    var k := LowestClear(bits[1..]);
    assert forall j: nat | 0 < j < k + 1 :: bits[j] == bits[1..][j - 1];
    k + 1
  }

  /** The blocks that the first n entries of the indirect block at p name have joined the dead. */
  ghost predicate EntriesDead(s: Fs, dead: set<Slot>, now: set<Slot>, p: Slot, n: nat) {
    forall q: Slot :: q in now <==> q in dead || (At(s, q) != 0 && q.Under? && q.parent == p && q.k < n)
  }

  /** All bits below the n-th are set. */
  ghost predicate SetBelow(s: Fs, n: int) {
    forall k: nat | k < n && k < |s.bits| :: s.bits[k]
  }

  lemma MarkedBelow(s: Fs, n: int, y: nat)
    requires Shape(s) && SetBelow(s, n) && InData(s, y) && BitOf(s, y) < n
    ensures Marked(s, y)
  {}

  lemma FullBelow(s: Fs, n: int)
    requires Shape(s) && SetBelow(s, n) && (n >= |s.bits| || n + s.first - 1 >= s.zones)
    ensures Full(s)
  {
    forall y: nat | InData(s, y) ensures Marked(s, y) {
      MarkedBelow(s, n, y);
    }
  }

  lemma SparedGrows(s: Fs, t: Fs, target: Slot)
    requires Sound(s) && Spared(s, t)
    ensures Grows(s, t, target) && (Full(s) ==> Full(t)) && forall q: Slot :: At(t, q) == At(s, q)
    ensures forall q: Slot :: Exists(t, q) == Exists(s, q)
  {
    if t != s {
      var k: nat :| t == SetBit(s, k) && k < |s.bits| && !InData(s, k + s.first - 1);
      SpareBit(s, k, target);
      if Full(s) {
        forall z: nat | InData(t, z) ensures Marked(t, z) {
          assert InData(s, z) && Marked(s, z);
        }
      }
    }
    forall q: Slot ensures Exists(t, q) == Exists(s, q) {
      ExistsSame(s, t, q);
    }
  }

  /** Where the number of a file's block stands, byte by byte. */
  lemma BlockOnDisk(s: Fs, i: nat, block: nat)
    requires Sound(s) && i < |s.inodes| && !s.inodes[i].kind.Special? && block < MAX_BLOCKS
    ensures |s.inodes[i].zone| == 9 && (block < 7 ==> ZoneOf(s, i, block) == s.inodes[i].zone[block])
    ensures 7 <= block < 519 ==>
      var ind := s.inodes[i].zone[7];
      && (ind == 0 || ind < |s.blocks|)
      && ZoneOf(s, i, block) ==
           if ind == 0 then 0 else (s.blocks[ind][2 * (block - 7)] as int) + 256 * (s.blocks[ind][2 * (block - 7) + 1] as int)
    ensures 519 <= block ==>
      var dind, n := s.inodes[i].zone[8], block - 519;
      && (dind == 0 || dind < |s.blocks|) && n / 512 < 512
      && var ind := if dind == 0 then 0 else (s.blocks[dind][2 * (n / 512)] as int) + 256 * (s.blocks[dind][2 * (n / 512) + 1] as int);
      && (ind == 0 || ind < |s.blocks|)
      && ZoneOf(s, i, block) ==
           if ind == 0 then 0 else (s.blocks[ind][2 * (n % 512)] as int) + 256 * (s.blocks[ind][2 * (n % 512) + 1] as int)
  {
    assert At(s, Root(i, 7)) != 0 ==> InData(s, At(s, Root(i, 7)));
    assert At(s, Root(i, 8)) != 0 ==> InData(s, At(s, Root(i, 8)));
    assert At(s, Root(i, 7)) == s.inodes[i].zone[7] && At(s, Root(i, 8)) == s.inodes[i].zone[8];
    if 519 <= block {
      var n := block - 519;
      var p := Under(Root(i, 8), n / 512);
      assert SlotOf(i, block) == Under(p, n % 512);
      assert At(s, p) != 0 ==> InData(s, At(s, p));
    }
  }

  class Volume {
    const first: nat
    const zones: nat
    const maps: nat
    const zmap: array<bool>
    const blocks: array<Block>
    const inodes: array<Inode>

    ghost function State(): Fs
      reads zmap, blocks, inodes
    {
      Fs(first, zones, zmap[..], blocks[..], inodes[..])
    }

    ghost predicate Apart()
      reads zmap, blocks, inodes
    {
      && zmap != blocks as object && zmap != inodes as object && blocks != inodes as object
      && maps <= MAP_BLOCKS && zmap.Length == maps * MAP_BITS && Shape(State())
    }

    ghost predicate Valid()
      reads zmap, blocks, inodes
    {
      Apart() && Sound(State())
    }

    /** A mounted device. */
    constructor (first: nat, zones: nat, maps: nat, zmap: array<bool>, blocks: array<Block>, inodes: array<Inode>)
      requires zmap != blocks as object && zmap != inodes as object && blocks != inodes as object
      requires maps <= MAP_BLOCKS && zmap.Length == maps * MAP_BITS
      requires Sound(Fs(first, zones, zmap[..], blocks[..], inodes[..]))
      ensures Valid() && State() == Fs(first, zones, zmap[..], blocks[..], inodes[..])
      ensures this.zmap == zmap && this.blocks == blocks && this.inodes == inodes
    {
      this.first, this.zones, this.maps := first, zones, maps;
      this.zmap, this.blocks, this.inodes := zmap, blocks, inodes;
    }

    /** find_first_zero in one block of the bitmap, by words of 32 bits. */
    method FindFirstZero(m: nat) returns (j: nat)
      requires m < maps && zmap.Length == maps * MAP_BITS
      ensures j <= MAP_BITS && (forall k: nat | m * MAP_BITS <= k < m * MAP_BITS + j :: k < zmap.Length && zmap[k])
      ensures j < MAP_BITS ==> m * MAP_BITS + j < zmap.Length && !zmap[m * MAP_BITS + j]
    {
      ghost var base := m * MAP_BITS;
      assert base + MAP_BITS <= zmap.Length;
      j := 0;
      while j < MAP_BITS
        invariant j <= MAP_BITS && j % 32 == 0
        invariant forall k: nat | base <= k < base + j :: zmap[k]
      {
        var e: nat := 0;
        while e < 32 && zmap[m * MAP_BITS + j + e]
          invariant e <= 32 && forall k: nat | base <= k < base + j + e :: zmap[k]
        {
          e := e + 1;
        }
        if e < 32 {
          j := j + e;
          return;
        }
        j := j + 32;
      }
    }

    /**
     new_block: the lowest free zone, or 0 when there is none. The lowest clear bit is set before it is
     known to stand for a zone, so a call that fails changes the map exactly if it has a clear bit.
     */
    method NewBlock() returns (z: Zone)
      requires Valid()
      modifies zmap, blocks
      ensures
        var k := LowestClear(old(State()).bits);
        && (z == 0 <==> k == |old(State()).bits| || k + first - 1 >= zones)
        && (z != 0 ==> z == k + first - 1)
        && (z == 0 ==> State() == SetBit(old(State()), k))
      ensures z == 0 ==>
        (State() == old(State()) <==> forall j: nat | j < |old(State()).bits| :: old(State()).bits[j])
      ensures z == 0 ==> Full(old(State())) && Spared(old(State()), State())
      ensures z != 0 ==>
        && InData(old(State()), z) && !Marked(old(State()), z)
        && BitOf(old(State()), z) < |old(State()).bits| && z < |old(State()).blocks|
        && State() == Take(old(State()), z)
      ensures forall y: nat | InData(old(State()), y) && (z == 0 || y < z) :: Marked(old(State()), y)
    {
      ghost var s := State();
      var j := MAP_BITS;
      var i := 0;
      while i < MAP_BLOCKS
        modifies {}
        invariant 0 <= i <= MAP_BLOCKS
        invariant zmap[..] == s.bits && SetBelow(s, i * MAP_BITS)
      {
        if i < maps {
          j := FindFirstZero(i);
          assert forall k: nat | i * MAP_BITS <= k < i * MAP_BITS + j :: s.bits[k] == zmap[k];
          if j < MAP_BITS {
            break;
          }
        }
        i := i + 1;
      }
      if i >= MAP_BLOCKS || j >= MAP_BITS {
        assert SetBelow(s, zmap.Length);
        FullBelow(s, zmap.Length);
        assert LowestClear(s.bits) == |s.bits|;
        return 0;
      }
      var bit := i * MAP_BITS + j;
      assert SetBelow(s, bit) && bit > 0;
      assert !s.bits[bit] && LowestClear(s.bits) == bit;
      forall y: nat | InData(s, y) && BitOf(s, y) < bit ensures Marked(s, y) {
        MarkedBelow(s, bit, y);
      }
      zmap[bit] := true;
      assert zmap[..] == s.bits[bit := true];
      if bit + first - 1 >= zones {
        FullBelow(s, bit);
        assert State() == SetBit(s, bit);
        assert State().bits[bit];
        return 0;
      }
      z := bit + first - 1;
      blocks[z] := Zeros();
      assert blocks[..] == s.blocks[z := Zeros()];
    }

    /** The k-th zone of an inode; when creating, an absent zone is allocated. */
    method RootZone(i: nat, k: nat, create: bool, ghost target: Slot) returns (z: Zone)
      requires Valid() && Exists(State(), Root(i, k)) && (Root(i, k) == target || k >= 7)
      modifies zmap, blocks, inodes
      ensures Valid() && Grows(old(State()), State(), target) && Exists(State(), Root(i, k))
      ensures z == At(State(), Root(i, k)) && (!create ==> State() == old(State()))
      ensures create && z == 0 ==> Full(State())
    {
      ghost var s := State();
      if create && inodes[i].zone[k] == 0 {
        z := NewBlock();
        inodes[i] := inodes[i].(zone := inodes[i].zone[k := z]);
        if z == 0 {
          assert s.inodes[i].zone[k := 0] == s.inodes[i].zone;
          assert inodes[..] == s.inodes;
          SparedGrows(s, State(), target);
        } else {
          AttachGrows(s, Root(i, k), z, target);
          assert inodes[..] == Attach(s, Root(i, k), z).inodes;
          assert State() == Attach(s, Root(i, k), z);
          ExistsSame(s, State(), Root(i, k));
        }
      }
      z := inodes[i].zone[k];
    }

    /** The k-th zone number in an indirect block; when creating, an absent one is allocated. */
    method EntryZone(bh: Zone, k: nat, create: bool, ghost p: Slot, ghost target: Slot) returns (z: Zone)
      requires Valid() && k < PER_BLOCK && IsIndex(p) && Exists(State(), p) && bh == At(State(), p) && bh != 0
      requires Under(p, k) == target || IsIndex(Under(p, k))
      requires bh < blocks.Length
      modifies zmap, blocks
      ensures Valid() && Grows(old(State()), State(), target) && Exists(State(), Under(p, k))
      ensures z == At(State(), Under(p, k)) && (!create ==> State() == old(State()))
      ensures create && z == 0 ==> Full(State())
    {
      ghost var s := State();
      z := Entry(blocks[bh], k);
      if create && z == 0 {
        z := NewBlock();
        if z == 0 {
          SparedGrows(s, State(), target);
        } else {
          ghost var t := State();
          TakeShape(s, z);
          Unnamed(s, z);
          blocks[bh] := PutEntry(blocks[bh], k, z);
          assert blocks[..] == Attach(s, Under(p, k), z).blocks;
          assert State() == Attach(s, Under(p, k), z);
          AttachGrows(s, Under(p, k), z, target);
          AttachAt(s, Under(p, k), z, Under(p, k));
          ExistsSame(s, State(), Under(p, k));
        }
      }
    }

    /** _bmap for the double indirect block. */
    method DoubleZone(i: nat, rest: nat, create: bool, ghost target: Slot) returns (z: Zone)
      requires Valid() && Exists(State(), Root(i, 8)) && rest < PER_BLOCK * PER_BLOCK
      requires target == Under(Under(Root(i, 8), rest / 512), rest % 512)
      modifies zmap, blocks, inodes
      ensures Valid() && Grows(old(State()), State(), target)
      ensures z == At(State(), target) && (!create ==> State() == old(State()))
      ensures create && z == 0 ==> Full(State())
    {
      ghost var s := State();
      z := RootZone(i, 8, create, target);
      if z == 0 {
        return;
      }
      ghost var t := State();
      z := EntryZone(z, rest / 512, create, Root(i, 8), target);
      GrowsTwice(s, t, State(), target);
      if z == 0 {
        return;
      }
      t := State();
      z := EntryZone(z, rest % 512, create, Under(Root(i, 8), rest / 512), target);
      GrowsTwice(s, t, State(), target);
    }

    /** _bmap: the code of bmap when not creating, of create_block when creating. */
    method MapBlock(i: nat, block: nat, create: bool) returns (panicked: bool, z: Zone)
      requires Valid() && i < inodes.Length && !inodes[i].kind.Special?
      modifies zmap, blocks, inodes
      ensures panicked <==> block >= MAX_BLOCKS
      ensures Valid() && SameInodes(old(State()), State()) && SameBytes(old(State()), State())
      ensures !panicked ==> z == ZoneOf(State(), i, block) && Grows(old(State()), State(), SlotOf(i, block))
      ensures !create || panicked ==> State() == old(State())
      ensures create && !panicked && z == 0 ==> Full(State())
    {
      ghost var s := State();
      if block >= MAX_BLOCKS {
        return true, 0;
      }
      panicked := false;
      ghost var target := SlotOf(i, block);
      if block < 7 {
        z := RootZone(i, block, create, target);
      } else if block - 7 < 512 {
        z := RootZone(i, 7, create, target);
        if z != 0 {
          ghost var t := State();
          z := EntryZone(z, block - 7, create, Root(i, 7), target);
          GrowsTwice(s, t, State(), target);
        }
      } else {
        z := DoubleZone(i, block - 7 - 512, create, target);
      }
    }

    /**
     bmap when not creating, create_block when creating. The first seven blocks are in the
     inode, the next 512 in the block that zone 7 names, 16 bits each with the low byte first, and the
     others two such steps from zone 8.
     */
    method Bmap(i: nat, block: nat, create: bool) returns (panicked: bool, z: Zone)
      requires Valid() && i < inodes.Length && !inodes[i].kind.Special?
      modifies zmap, blocks, inodes
      ensures panicked <==> block >= MAX_BLOCKS
      ensures Valid() && SameInodes(old(State()), State()) && SameBytes(old(State()), State())
      ensures !panicked ==> z == ZoneOf(State(), i, block) && Grows(old(State()), State(), SlotOf(i, block))
      ensures !create || panicked ==> State() == old(State())
      ensures create && !panicked && z == 0 ==> Full(State())
      ensures |inodes[i].zone| == 9 && (!panicked && block < 7 ==> z == inodes[i].zone[block])
      ensures !panicked && 7 <= block < 519 ==>
        var ind := inodes[i].zone[7];
        && (ind == 0 || ind < blocks.Length)
        && z == if ind == 0 then 0 else (blocks[ind][2 * (block - 7)] as int) + 256 * (blocks[ind][2 * (block - 7) + 1] as int)
      ensures !panicked && 519 <= block ==>
        var dind, n := inodes[i].zone[8], block - 519;
        && (dind == 0 || dind < blocks.Length) && n / 512 < 512
        && var ind := if dind == 0 then 0 else (blocks[dind][2 * (n / 512)] as int) + 256 * (blocks[dind][2 * (n / 512) + 1] as int);
        && (ind == 0 || ind < blocks.Length)
        && z == if ind == 0 then 0 else (blocks[ind][2 * (n % 512)] as int) + 256 * (blocks[ind][2 * (n % 512) + 1] as int)
    {
      panicked, z := MapBlock(i, block, create);
      hide Sound, SameInodes, SameBytes, ZoneOf, Grows, SlotOf, Full;
      if !panicked {
        BlockOnDisk(State(), i, block);
      }
    }

    /** What holds while truncate runs: the places in `dead` name zones that are free again. */
    ghost predicate Truncating(dead: set<Slot>)
      reads zmap, blocks, inodes
    {
      Apart() && Proper(State()) && Accounted(State(), dead)
    }

    /** free_block: it panics exactly when the zone is not marked. */
    method ClearBlock(z: Zone) returns (panicked: bool)
      requires Apart()
      modifies zmap
      ensures panicked <==> !Marked(old(State()), z)
      ensures Apart() && State() == if InData(old(State()), z) then Unmark(old(State()), z) else old(State())
    {
      if z < first || z >= zones {
        return true;
      }
      ghost var t := State();
      var bit := z - first + 1;
      var was := zmap[bit];
      zmap[bit] := false;
      assert zmap[..] == t.bits[bit := false];
      assert State() == Unmark(t, z);
      panicked := !was;
    }

    /** free_block for the zone that place p names. It does not panic. */
    method FreeBlock(z: Zone, ghost s: Fs, ghost dead: set<Slot>, ghost p: Slot) returns (panicked: bool)
      requires Truncating(dead) && SameTree(s, State()) && z == At(s, p) && z != 0 && p !in dead
      modifies zmap
      ensures !panicked && Truncating(dead + {p}) && SameTree(s, State())
    {
      ghost var t := State();
      SameTreeAt(s, t);
      UnmarkDead(t, dead, p);
      panicked := ClearBlock(z);
    }

    /** One entry of an indirect block. */
    method FreeEntry(block: Zone, i: nat, ghost s: Fs, ghost dead: set<Slot>, ghost p: Slot)
      returns (panicked: bool, ghost now: set<Slot>)
      requires Truncating(dead) && SameTree(s, State()) && block == At(s, p) && block != 0 && block < blocks.Length
      requires i < PER_BLOCK && IsIndex(p) && Under(p, i) !in dead
      modifies zmap
      ensures !panicked && Truncating(now) && SameTree(s, State())
      ensures now == dead + if At(s, Under(p, i)) != 0 then {Under(p, i)} else {}
    {
      panicked, now := false, dead;
      ChildAt(s, p, i);
      var z := Entry(blocks[block], i);
      if z != 0 {
        panicked := FreeBlock(z, s, dead, Under(p, i));
        now := dead + {Under(p, i)};
      }
    }

    /** free_ind for the indirect block that place p names: it and all it names are free. */
    method FreeInd(block: Zone, ghost s: Fs, ghost dead: set<Slot>, ghost p: Slot)
      returns (panicked: bool, ghost now: set<Slot>)
      requires Truncating(dead) && SameTree(s, State()) && block == At(s, p) && p !in dead
      requires IsIndex(p) && forall k: nat | k < PER_BLOCK :: Under(p, k) !in dead
      modifies zmap
      ensures !panicked && Truncating(now) && SameTree(s, State())
      ensures forall q: Slot :: q in now <==> q in dead || (At(s, q) != 0 && (q == p || (q.Under? && q.parent == p)))
    {
      panicked, now := false, dead;
      ChildrenBounded(s, p);
      if block == 0 {
        return;
      }
      SameTreeAt(s, State());
      assert InData(s, At(s, p));
      hide Shape, Proper, Accounted, Truncating, SameTree;
      panicked, now := FreeEntries(block, s, dead, p);
      panicked := FreeBlock(block, s, now, p);
      now := now + {p};
    }

    /** The loop of free_ind. */
    method FreeEntries(block: Zone, ghost s: Fs, ghost dead: set<Slot>, ghost p: Slot)
      returns (panicked: bool, ghost now: set<Slot>)
      requires Truncating(dead) && SameTree(s, State()) && block == At(s, p) && block != 0 && block < blocks.Length
      requires IsIndex(p) && forall k: nat | k < PER_BLOCK :: Under(p, k) !in dead
      modifies zmap
      ensures !panicked && Truncating(now) && SameTree(s, State()) && EntriesDead(s, dead, now, p, PER_BLOCK)
    {
      hide Truncating, SameTree;
      panicked, now := false, dead;
      var i := 0;
      while i < PER_BLOCK
        modifies zmap
        invariant 0 <= i <= PER_BLOCK && !panicked && Truncating(now) && SameTree(s, State())
        invariant EntriesDead(s, dead, now, p, i)
      {
        panicked, now := FreeEntry(block, i, s, now, p);
        i := i + 1;
      }
    }

    /** One entry of the double indirect block. */
    method FreeIndEntry(block: Zone, k: nat, ghost s: Fs, ghost dead: set<Slot>, ghost i: nat)
      returns (panicked: bool, ghost now: set<Slot>)
      requires Truncating(dead) && SameTree(s, State()) && block == At(s, Root(i, 8)) && block != 0 && block < blocks.Length
      requires k < PER_BLOCK && Under(Root(i, 8), k) !in dead
      requires forall j: nat | j < PER_BLOCK :: Under(Under(Root(i, 8), k), j) !in dead
      modifies zmap
      ensures !panicked && Truncating(now) && SameTree(s, State())
      ensures forall q: Slot :: q in now <==>
        q in dead || (At(s, q) != 0 && (q == Under(Root(i, 8), k) || (q.Under? && q.parent == Under(Root(i, 8), k))))
    {
      panicked, now := false, dead;
      ChildAt(s, Root(i, 8), k);
      var z := Entry(blocks[block], k);
      if z != 0 {
        panicked, now := FreeInd(z, s, dead, Under(Root(i, 8), k));
      }
    }

    /** free_dind for the double indirect block of inode i. */
    method FreeDind(block: Zone, ghost s: Fs, ghost dead: set<Slot>, ghost i: nat)
      returns (panicked: bool, ghost now: set<Slot>)
      requires Truncating(dead) && SameTree(s, State()) && block == At(s, Root(i, 8))
      requires forall q: Slot | Below8(q, i) :: q !in dead
      modifies zmap
      ensures !panicked && Truncating(now) && SameTree(s, State())
      ensures forall q: Slot :: q in now <==> q in dead || (At(s, q) != 0 && Below8(q, i))
    {
      panicked, now := false, dead;
      if block == 0 {
        return;
      }
      SameTreeAt(s, State());
      assert InData(s, At(s, Root(i, 8)));
      hide Shape;
      hide Proper;
      hide Accounted;
      var k := 0;
      while k < PER_BLOCK
        modifies zmap
        invariant 0 <= k <= PER_BLOCK && !panicked && Truncating(now) && SameTree(s, State())
        invariant forall q: Slot :: q in now <==> q in dead || (At(s, q) != 0 && Before8(q, i, k))
      {
        panicked, now := FreeIndEntry(block, k, s, now, i);
        k := k + 1;
      }
      panicked := FreeBlock(block, s, now, Root(i, 8));
      now := now + {Root(i, 8)};
    }
  
    /** One direct zone. */
    method FreeZone(i: nat, k: nat, ghost s: Fs, ghost dead: set<Slot>) returns (panicked: bool, ghost now: set<Slot>)
      requires Apart() && i < inodes.Length && !inodes[i].kind.Special? && k < 7
      requires Freeing(s, State(), dead, i, k) || (k == 0 && FirstFree(State(), i))
      modifies zmap, inodes
      ensures panicked <==> k == 0 && old(FirstFree(State(), i))
      ensures !panicked ==> Apart() && Freeing(s, State(), now, i, k + 1) && inodes[i].kind == old(inodes[i].kind)
    {
      ghost var t := State();
      panicked, now := false, dead;
      if Freeing(s, t, dead, i, k) {
        FreeingOn(s, t, dead, i, k);
      }
      if inodes[i].zone[k] != 0 {
        panicked := ClearBlock(inodes[i].zone[k]);
        if panicked {
          return;
        }
        now := dead + {Root(i, k)};
        ghost var u := State();
        inodes[i] := inodes[i].(zone := inodes[i].zone[k := 0]);
        assert inodes[..] == Put(u, Root(i, k), 0).inodes;
        assert State() == Put(u, Root(i, k), 0);
      }
    }

    /** The direct zones. */
    method FreeDirect(i: nat) returns (panicked: bool, ghost dead: set<Slot>)
      requires Apart() && i < inodes.Length && !inodes[i].kind.Special?
      requires Sound(State()) || FirstFree(State(), i)
      modifies zmap, inodes
      ensures panicked <==> old(FirstFree(State(), i))
      ensures !panicked ==> Truncating(dead)
      ensures !panicked ==> DirectGone(old(State()), State(), i, 7) && DirectDead(old(State()), dead, i, 7)
    {
      ghost var s := State();
      panicked, dead := false, {};
      var k := 0;
      while k < 7
        invariant 0 <= k <= 7 && !panicked && Apart() && !inodes[i].kind.Special?
        invariant if k == 0 then State() == s else !FirstFree(s, i)
        invariant Freeing(s, State(), dead, i, k) || (k == 0 && FirstFree(s, i))
      {
        panicked, dead := FreeZone(i, k, s, dead);
        if panicked {
          return;
        }
        k := k + 1;
      }
    }

    /** The two indirect blocks. */
    method FreeIndirect(i: nat, ghost s: Fs, ghost before: set<Slot>) returns (panicked: bool, ghost dead: set<Slot>)
      requires Truncating(before) && i < inodes.Length && !inodes[i].kind.Special?
      requires DirectGone(s, State(), i, 7) && DirectDead(s, before, i, 7)
      modifies zmap
      ensures !panicked && Truncating(dead) && SameTree(old(State()), State())
      ensures forall q: Slot :: q in dead <==> At(s, q) != 0 && Belongs(q, i)
    {
      ghost var t := State();
      panicked, dead := FreeInd(inodes[i].zone[7], t, before, Root(i, 7));
      panicked, dead := FreeDind(inodes[i].zone[8], t, dead, i);
    }

    /**
     truncate: exactly the zones of the file become free, and no panic of free_block is reached. With a
     first zone that is free already, free_block panics.
     */
    method Truncate(i: nat) returns (panicked: bool)
      requires Apart() && i < inodes.Length
      requires Sound(State()) || FirstFree(State(), i)
      modifies zmap, inodes
      ensures panicked <==> old(FirstFree(State(), i))
      ensures !panicked ==> Valid()
      ensures !panicked ==>
        if old(inodes[i].kind.Special?) then State() == old(State()) else Truncated(old(State()), State(), i)
    {
      ghost var s := State();
      panicked := false;
      if inodes[i].kind.Special? {
        return;
      }
      ghost var dead;
      panicked, dead := FreeDirect(i);
      if panicked {
        return;
      }
      ghost var t := State();
      panicked, dead := FreeIndirect(i, s, dead);
      ghost var u := State();
      TruncateDone(s, t, u, dead, i);
      inodes[i] := inodes[i].(zone := inodes[i].zone[7 := 0][8 := 0]);
      inodes[i] := inodes[i].(size := 0);
      assert inodes[i].zone == seq(9, (_: nat) => 0);
      assert inodes[..] == Emptied(u, i).inodes;
      assert State() == Emptied(u, i);
    }
  
    /**
     sys_mkdir's work on the zones of inode i, which new_inode has just given it; own and up are the
     numbers of the new directory and its parent, and room says whether add_entry finds a place in the
     parent. Without room the first zone is freed, and then freed again by the truncate of iput.
     */
    method MkdirBlocks(i: nat, own: Zone, up: Zone, room: bool) returns (panicked: bool, made: bool)
      requires Valid() && i < inodes.Length && inodes[i] == NewInode()
      modifies zmap, blocks, inodes
      ensures panicked <==> !Full(old(State())) && !room
      ensures made <==> !Full(old(State())) && room
      ensures !panicked ==> Valid()
      ensures made ==>
        && Written(old(State()), State(), i, 0, Dots(own, up))
        && At(State(), Root(i, 0)) != 0
        && inodes[..] == old(inodes[..])[i := DirectoryInode(At(State(), Root(i, 0)))]
      ensures !made && !panicked ==> State() == SetBit(old(State()), LowestClear(old(State()).bits))
    {
      ghost var s := State();
      panicked, made := false, false;
      var z := NewBlock();
      if z == 0 {
        SparedGrows(s, State(), Root(i, 0));
        panicked := Truncate(i);
        return;
      }
      inodes[i] := inodes[i].(zone := inodes[i].zone[0 := z], size := 32);
      blocks[z] := Dots(own, up);
      inodes[i] := inodes[i].(kind := Directory);
      NewDirectory(s, i, z, Dots(own, up));
      assert inodes[i] == DirectoryInode(z);
      assert inodes[..] == MadeDirectory(s, i, z, Dots(own, up)).inodes;
      assert blocks[..] == MadeDirectory(s, i, z, Dots(own, up)).blocks;
      assert State() == MadeDirectory(s, i, z, Dots(own, up));
      if room {
        made := true;
        return;
      }
      ghost var v := State();
      panicked := ClearBlock(z);
      BitsAt(v, State(), Root(i, 0));
      panicked := Truncate(i);
    }

    /** One round of file_read's loop: what one block holds of the bytes asked for. */
    method ReadChunk(i: nat, pos: nat, left: nat) returns (panicked: bool, piece: seq<Byte>)
      requires Valid() && i < inodes.Length && !inodes[i].kind.Special? && left > 0
      modifies zmap, blocks, inodes
      ensures Valid() && State() == old(State()) && (panicked <==> pos / BLOCK_SIZE >= MAX_BLOCKS)
      ensures !panicked ==> 0 < |piece| <= left && (pos + |piece| - 1) / BLOCK_SIZE == pos / BLOCK_SIZE
      ensures !panicked && |piece| < left ==> (pos + |piece|) % BLOCK_SIZE == 0
      ensures forall k: nat | k < |piece| :: piece[k] == ByteAt(State(), i, pos + k)
    {
      var z;
      panicked, z := Bmap(i, pos / BLOCK_SIZE, false);
      if panicked {
        return true, [];
      }
      var nr := pos % BLOCK_SIZE;
      var chars := if BLOCK_SIZE - nr < left then BLOCK_SIZE - nr else left;
      piece := if z != 0 then blocks[z][nr..nr + chars] else seq(chars, (_: nat) => 0);
      PieceRead(State(), i, pos, chars, z, piece);
    }

    /** The loop of file_read. A hole reads as zeros; the size is not looked at. */
    method FileRead(i: nat, pos: nat, count: int) returns (panicked: bool, out: seq<Byte>, fPos: nat)
      requires Valid() && i < inodes.Length && !inodes[i].kind.Special?
      modifies zmap, blocks, inodes
      ensures Valid() && State() == old(State())
      ensures panicked <==> count > 0 && (pos + count - 1) / BLOCK_SIZE >= MAX_BLOCKS
      ensures !panicked ==> |out| == (if count > 0 then count else 0) && fPos == pos + |out|
      ensures forall k: nat | k < |out| :: out[k] == ByteAt(State(), i, pos + k)
    {
      hide Sound;
      hide ByteAt;
      ghost var s := State();
      panicked, out, fPos := false, [], pos;
      var left := count;
      if left <= 0 {
        return;
      }
      while left > 0
        invariant left >= 0 && |out| == count - left && fPos == pos + |out| && !panicked
        invariant Valid() && State() == s
        invariant left < count ==> (fPos - 1) / BLOCK_SIZE < MAX_BLOCKS
        invariant forall k: nat | k < |out| :: out[k] == ByteAt(s, i, pos + k)
      {
        var piece;
        panicked, piece := ReadChunk(i, fPos, left);
        if panicked {
          return;
        }
        ReadOn(s, i, pos, out, piece);
        out := out + piece;
        fPos := fPos + |piece|;
        left := left - |piece|;
      }
    }

    /** sys_read on a regular file or a directory: no byte at or after the end of the file. */
    method SysRead(i: nat, pos: nat, count: nat) returns (panicked: bool, out: seq<Byte>, fPos: nat)
      requires Valid() && i < inodes.Length && !inodes[i].kind.Special?
      modifies zmap, blocks, inodes
      ensures Valid() && State() == old(State())
      ensures
        var end := inodes[i].size;
        !panicked ==> |out| == (if pos >= end then 0 else if pos + count > end then end - pos else count)
      ensures !panicked ==> fPos == pos + |out|
      ensures inodes[i].size <= MAX_BLOCKS * BLOCK_SIZE ==> !panicked
      ensures forall k: nat | k < |out| :: out[k] == ByteAt(State(), i, pos + k)
    {
      var n: int := count;
      if n + pos > inodes[i].size {
        n := inodes[i].size - pos;
      }
      if n <= 0 {
        return false, [], pos;
      }
      panicked, out, fPos := FileRead(i, pos, n);
    }

    /** The end of the file moves when something is written behind it. */
    method Extend(i: nat, end: nat)
      requires Valid() && i < inodes.Length
      modifies inodes
      ensures Valid() && SameBytes(old(State()), State()) && Resized(old(State()), State(), i, end)
      ensures State().bits == old(State().bits)
    {
      ghost var u := State();
      if end > inodes[i].size {
        inodes[i] := inodes[i].(size := end);
        assert inodes[..] == Grown(u, i, end).inodes;
        assert State() == Grown(u, i, end);
        GrownSound(u, i, end);
      }
    }

    /** One round of file_write's loop: bytes for one block. */
    method WriteChunk(i: nat, pos: nat, data: seq<Byte>) returns (panicked: bool, ok: bool)
      requires Valid() && i < inodes.Length && !inodes[i].kind.Special?
      requires 0 < |data| && pos % BLOCK_SIZE + |data| <= BLOCK_SIZE
      modifies zmap, blocks, inodes
      ensures Valid() && (panicked <==> pos / BLOCK_SIZE >= MAX_BLOCKS) && (panicked ==> !ok)
      ensures ok ==> Written(old(State()), State(), i, pos, data) && Resized(old(State()), State(), i, pos + |data|)
      ensures !ok ==> SameBytes(old(State()), State()) && SameInodes(old(State()), State())
      ensures !ok && !panicked ==> Full(State())
    {
      ghost var s := State();
      var z;
      panicked, z := Bmap(i, pos / BLOCK_SIZE, true);
      if panicked || z == 0 {
        return panicked, false;
      }
      ghost var t := State();
      StoreSound(t, SlotOf(i, pos / BLOCK_SIZE), Zeros());
      var c := pos % BLOCK_SIZE;
      ok := true;
      ghost var b: Block := blocks[z][..c] + data + blocks[z][c + |data|..];
      blocks[z] := blocks[z][..c] + data + blocks[z][c + |data|..];
      assert blocks[..] == Store(t, z, b).blocks;
      assert State() == Store(t, z, b);
      ChunkWritten(s, t, i, pos, data, z, b);
      ghost var u := State();
      Extend(i, pos + |data|);
      WrittenThen(s, u, State(), i, pos, data);
    }

    /** file_write. It stops early only when no zone is free, or at a block that no file can have. */
    method FileWrite(i: nat, append: bool, fPos: nat, buf: seq<Byte>) returns (panicked: bool, n: nat, newPos: nat)
      requires Valid() && i < inodes.Length && !inodes[i].kind.Special?
      modifies zmap, blocks, inodes
      ensures Valid() && n <= |buf| && (n == |buf| ==> !panicked)
      ensures
        var pos := if append then old(inodes[i].size) else fPos;
        && Written(old(State()), State(), i, pos, buf[..n])
        && (n > 0 ==> Resized(old(State()), State(), i, pos + n))
        && (n == 0 ==> SameInodes(old(State()), State()))
        && (panicked ==> (pos + n) / BLOCK_SIZE >= MAX_BLOCKS)
        && (!panicked && n < |buf| ==> Full(State()))
        && (!panicked ==> newPos == if append then fPos else pos + n)
    {
      hide Sound;
      hide Full;
      ghost var s := State();
      var pos := if append then inodes[i].size else fPos;
      panicked, n, newPos := false, 0, fPos;
      WrittenNothing(s, i, pos);
      while n < |buf|
        invariant 0 <= n <= |buf| && !panicked && Valid() && !inodes[i].kind.Special?
        invariant Written(s, State(), i, pos, buf[..n])
        invariant if n > 0 then Resized(s, State(), i, pos + n) else SameInodes(s, State())
        decreases |buf| - n
      {
        var c := BLOCK_SIZE - (pos + n) % BLOCK_SIZE;
        if c > |buf| - n {
          c := |buf| - n;
        }
        ghost var t := State();
        var ok;
        panicked, ok := WriteChunk(i, pos + n, buf[n..n + c]);
        if !ok {
          WrittenThen(s, t, State(), i, pos, buf[..n]);
          if panicked {
            return;
          }
          break;
        }
        WrittenOn(s, t, State(), i, pos, buf, n, c);
        n := n + c;
      }
      if !append {
        newPos := pos + n;
      }
    }
  }

  /** An inode from new_inode: mode 0 and no zones. */
  function NewInode(): Inode {
    Inode(Special, seq(9, (_: nat) => 0), 0)
  }

  /** A directory with one block, with two entries in it. */
  function DirectoryInode(z: Zone): Inode {
    Inode(Directory, seq(9, (_: nat) => 0)[0 := z], 32)
  }

  /** The block of an empty directory: its entries "." and "..", of 16 bytes each. */
  function Dots(own: Zone, up: Zone): Block {
    Zeros()[0 := own % 256][1 := own / 256][2 := '.' as int]
    [16 := up % 256][17 := up / 256][18 := '.' as int][19 := '.' as int]
  }

  /** Inode i has become a directory whose only zone is z with contents b. */
  function MadeDirectory(s: Fs, i: nat, z: Zone, b: Block): Fs
    requires i < |s.inodes| && InData(s, z) && BitOf(s, z) < |s.bits| && z < |s.blocks|
  {
    Take(s, z).(blocks := s.blocks[z := b], inodes := s.inodes[i := DirectoryInode(z)])
  }

  /** Inode i as a directory without zones. */
  function Blank(s: Fs, i: nat): Fs
    requires i < |s.inodes|
  {
    s.(inodes := s.inodes[i := NewInode().(kind := Directory)])
  }

  lemma {:induction false} BlankAt(s: Fs, i: nat, q: Slot)
    requires i < |s.inodes| && s.inodes[i] == NewInode()
    ensures At(Blank(s, i), q) == At(s, q)
    decreases q
  {
    if q.Under? {
      BlankAt(s, i, q.parent);
    }
  }

  lemma BlankSound(s: Fs, i: nat)
    requires Sound(s) && i < |s.inodes| && s.inodes[i] == NewInode()
    ensures Sound(Blank(s, i)) && SameBytes(s, Blank(s, i))
  {
    var t := Blank(s, i);
    forall q: Slot ensures At(t, q) == At(s, q) {
      BlankAt(s, i, q);
    }
    MarksSame(s, t);
    AccountedSame(s, t, {});
  }

  /** The new directory reads as its block; its zone is marked and everything else is as it was. */
  lemma NewDirectory(s: Fs, i: nat, z: Zone, b: Block)
    requires Sound(s) && i < |s.inodes| && s.inodes[i] == NewInode()
    requires InData(s, z) && !Marked(s, z) && BitOf(s, z) < |s.bits| && z < |s.blocks|
    ensures
      var t := MadeDirectory(s, i, z, b);
      Sound(t) && At(t, Root(i, 0)) == z && Written(s, t, i, 0, b)
  {
    var u := Blank(s, i);
    BlankSound(s, i);
    AttachGrows(u, Root(i, 0), z, Root(i, 0));
    AttachAt(u, Root(i, 0), z, Root(i, 0));
    var v := Attach(u, Root(i, 0), z);
    StoreSound(v, Root(i, 0), b);
    StoreAt(v, Root(i, 0), b, Root(i, 0));
    ChunkWritten(s, v, i, 0, b, z, b);
    var w := Store(v, z, b);
    GrownSound(w, i, 32);
    GrownAt(w, i, 32, Root(i, 0));
    var t := MadeDirectory(s, i, z, b);
    assert t.inodes == Grown(w, i, 32).inodes;
    assert t == Grown(w, i, 32);
    WrittenThen(s, w, t, i, 0, b);
  }

  /** A device with one zone, which the one directory has; the map has room for more. */
  function OneZone(): (s: Fs)
    ensures |s.bits| == MAP_BITS && s.bits[0] && s.bits[1] && forall k: nat | 2 <= k < MAP_BITS :: !s.bits[k]
  {
    Fs(1, 2, seq(MAP_BITS, (k: nat) => k < 2), [Zeros(), Zeros()], [DirectoryInode(1)])
  }

  lemma {:induction false} OneZoneAt(q: Slot)
    ensures At(OneZone(), q) == if q == Root(0, 0) then 1 else 0
    decreases q
  {
    if q.Under? {
      OneZoneAt(q.parent);
    }
  }

  lemma OneZoneSound()
    ensures Sound(OneZone()) && Full(OneZone())
  {
    var s := OneZone();
    forall q: Slot ensures At(s, q) == if q == Root(0, 0) then 1 else 0 {
      OneZoneAt(q);
    }
    forall z: nat ensures Marked(s, z) <==> z == 1 {}
    assert forall z: nat | Marked(s, z) :: Root(0, 0) !in {} && At(s, Root(0, 0)) == z;
  }

  /** The lowest clear bit of its map stands for no zone. */
  lemma OneZoneStray()
    ensures LowestClear(OneZone().bits) == 2 && |OneZone().bits| == MAP_BITS && SetBit(OneZone(), 2) != OneZone()
    ensures !InData(OneZone(), 2 + OneZone().first - 1)
  {
    hide LowestClear, Sound;
    var s := OneZone();
    assert s.bits[0] && s.bits[1] && !s.bits[2];
    assert SetBit(s, 2).bits[2];
  }

  method OneZoneVolume() returns (volume: Volume)
    ensures fresh(volume) && fresh(volume.zmap) && fresh(volume.blocks) && fresh(volume.inodes)
    ensures volume.Valid() && volume.State() == OneZone() && volume.first == 1 && volume.zones == 2
  {
    OneZoneSound();
    hide Sound, Full;
    var zmap := new bool[MAP_BITS](k => k < 2);
    var blocks := new Block[2](_ => Zeros());
    var inodes := new Inode[1](_ => DirectoryInode(1));
    assert zmap[..] == OneZone().bits;
    assert blocks[..] == OneZone().blocks;
    assert inodes[..] == OneZone().inodes;
    assert Fs(1, 2, zmap[..], blocks[..], inodes[..]) == OneZone();
    volume := new Volume(1, 2, 1, zmap, blocks, inodes);
  }

  /** A failing call of new_block that sets a bit beyond the last zone. */
  method StrayBit() returns (volume: Volume, z: Zone)
    ensures z == 0
    ensures volume.State() == SetBit(OneZone(), 2)
    ensures !InData(OneZone(), 2 + OneZone().first - 1) && volume.State() != OneZone()
  {
    OneZoneStray();
    hide Shape, Sound, Full, Spared, SetBit, OneZone, InData, LowestClear, Marked;
    volume := OneZoneVolume();
    z := volume.NewBlock();
  }

  lemma WrittenNothing(s: Fs, i: nat, pos: nat)
    ensures Written(s, s, i, pos, [])
  {}

  lemma WrittenThen(s: Fs, t: Fs, u: Fs, i: nat, pos: nat, data: seq<Byte>)
    requires Written(s, t, i, pos, data) && SameBytes(t, u)
    ensures Written(s, u, i, pos, data)
  {}

  /** Two adjacent pieces are one. */
  lemma WrittenOn(s: Fs, t: Fs, u: Fs, i: nat, pos: nat, buf: seq<Byte>, n: nat, c: nat)
    requires n + c <= |buf| && Written(s, t, i, pos, buf[..n]) && Written(t, u, i, pos + n, buf[n..n + c])
    ensures Written(s, u, i, pos, buf[..n + c])
  {
    hide ByteAt;
    forall j: nat, x: nat | x / BLOCK_SIZE < MAX_BLOCKS
      ensures ByteAt(u, j, x) ==
        if j == i && pos <= x < pos + (n + c) then buf[..n + c][x - pos] else ByteAt(s, j, x)
    {}
  }

  /** The bytes of one file from pos on are `data`; all other bytes of all files are as they were. */
  ghost predicate Written(s: Fs, t: Fs, i: nat, pos: nat, data: seq<Byte>) {
    forall j: nat, x: nat | x / BLOCK_SIZE < MAX_BLOCKS ::
      ByteAt(t, j, x) == if j == i && pos <= x < pos + |data| then data[x - pos] else ByteAt(s, j, x)
  }

  /** The size of file i has grown to `end` if it was smaller, and no other size has changed. */
  ghost predicate Resized(s: Fs, t: Fs, i: nat, end: nat) {
    && i < |s.inodes| == |t.inodes|
    && t.inodes[i].size == (if s.inodes[i].size < end then end else s.inodes[i].size)
    && (forall j: nat | j < |s.inodes| :: t.inodes[j].kind == s.inodes[j].kind)
    && forall j: nat | j < |s.inodes| && j != i :: t.inodes[j].size == s.inodes[j].size
  }

  lemma ReadOn(s: Fs, i: nat, pos: nat, out: seq<Byte>, piece: seq<Byte>)
    requires forall k: nat | k < |out| :: out[k] == ByteAt(s, i, pos + k)
    requires forall k: nat | k < |piece| :: piece[k] == ByteAt(s, i, pos + |out| + k)
    ensures forall k: nat | k < |out + piece| :: (out + piece)[k] == ByteAt(s, i, pos + k)
  {
    hide ByteAt;
    forall k: nat | k < |out + piece| ensures (out + piece)[k] == ByteAt(s, i, pos + k) {
      if k >= |out| {
        assert piece[k - |out|] == ByteAt(s, i, pos + |out| + (k - |out|));
      }
    }
  }

  lemma PieceRead(s: Fs, i: nat, pos: nat, n: nat, z: Zone, piece: seq<Byte>)
    requires Sound(s) && z == ZoneOf(s, i, pos / BLOCK_SIZE) && pos % BLOCK_SIZE + n <= BLOCK_SIZE
    requires z != 0 ==> z < |s.blocks| && piece == s.blocks[z][pos % BLOCK_SIZE..pos % BLOCK_SIZE + n]
    requires z == 0 ==> |piece| == n && forall k: nat | k < n :: piece[k] == 0
    ensures |piece| == n && forall k: nat | k < n :: piece[k] == ByteAt(s, i, pos + k)
  {
    forall k: nat | k < n ensures piece[k] == ByteAt(s, i, pos + k) {
      assert (pos + k) / BLOCK_SIZE == pos / BLOCK_SIZE && (pos + k) % BLOCK_SIZE == pos % BLOCK_SIZE + k;
    }
  }

  lemma ChunkWritten(s: Fs, t: Fs, i: nat, pos: nat, data: seq<Byte>, z: Zone, b: Block)
    requires Sound(t) && SameBytes(s, t) && pos / BLOCK_SIZE < MAX_BLOCKS && pos % BLOCK_SIZE + |data| <= BLOCK_SIZE
    requires z != 0 && z == ZoneOf(t, i, pos / BLOCK_SIZE) && z < |t.blocks|
    requires b == t.blocks[z][..pos % BLOCK_SIZE] + data + t.blocks[z][pos % BLOCK_SIZE + |data|..]
    ensures Sound(Store(t, z, b)) && Written(s, Store(t, z, b), i, pos, data)
  {
    StoreSound(t, SlotOf(i, pos / BLOCK_SIZE), b);
    forall j: nat, x: nat | x / BLOCK_SIZE < MAX_BLOCKS
      ensures ByteAt(Store(t, z, b), j, x) ==
        if j == i && pos <= x < pos + |data| then data[x - pos] else ByteAt(s, j, x)
    {
      StoreByte(t, i, pos / BLOCK_SIZE, b, j, x);
      assert x == x / BLOCK_SIZE * BLOCK_SIZE + x % BLOCK_SIZE;
    }
  }

  function Grown(s: Fs, i: nat, size: nat): Fs
    requires i < |s.inodes|
  {
    s.(inodes := s.inodes[i := s.inodes[i].(size := size)])
  }

  lemma {:induction false} GrownAt(s: Fs, i: nat, size: nat, q: Slot)
    requires i < |s.inodes|
    ensures At(Grown(s, i, size), q) == At(s, q)
    decreases q
  {
    ExistsSame(s, Grown(s, i, size), q);
    if q.Under? {
      GrownAt(s, i, size, q.parent);
    }
  }

  lemma GrownSound(s: Fs, i: nat, size: nat)
    requires Sound(s) && i < |s.inodes|
    ensures Sound(Grown(s, i, size)) && SameBytes(s, Grown(s, i, size))
  {
    forall q: Slot ensures At(Grown(s, i, size), q) == At(s, q) {
      GrownAt(s, i, size, q);
    }
    MarksSame(s, Grown(s, i, size));
    AccountedSame(s, Grown(s, i, size), {});
  }

  /** The first k direct zones of inode i are zero; nothing else but the bitmap has changed. */
  ghost predicate DirectGone(s: Fs, t: Fs, i: nat, k: nat) {
    && i < |s.inodes| && |t.inodes| == |s.inodes| && k <= 7
    && t == s.(bits := t.bits, inodes := s.inodes[i := s.inodes[i].(zone := t.inodes[i].zone)])
    && |t.inodes[i].zone| == 9 && (forall j: nat | j < k :: t.inodes[i].zone[j] == 0)
    && forall q: Slot :: At(t, q) == if q.Root? && q.ino == i && q.k < k then 0 else At(s, q)
  }

  /** The direct zones of inode i before the k-th have been freed and forgotten. */
  ghost predicate Freeing(s: Fs, t: Fs, dead: set<Slot>, i: nat, k: nat) {
    Shape(t) && Proper(t) && Accounted(t, dead) && DirectGone(s, t, i, k) && DirectDead(s, dead, i, k)
  }

  lemma FreeingOn(s: Fs, t: Fs, dead: set<Slot>, i: nat, k: nat)
    requires Freeing(s, t, dead, i, k) && Exists(t, Root(i, k)) && k < 7
    ensures At(t, Root(i, k)) == 0 ==> Freeing(s, t, dead, i, k + 1)
    ensures At(t, Root(i, k)) != 0 ==>
      && Marked(t, At(t, Root(i, k)))
      && Freeing(s, Put(Unmark(t, At(t, Root(i, k))), Root(i, k), 0), dead + {Root(i, k)}, i, k + 1)
  {
    assert At(s, Root(i, k)) == At(t, Root(i, k));
    if At(t, Root(i, k)) != 0 {
      UnmarkDead(t, dead, Root(i, k));
      ForgetDirect(Unmark(t, At(t, Root(i, k))), dead + {Root(i, k)}, i, k);
    }
  }

  /** The first direct zone of inode i is named there and not marked. */
  ghost predicate FirstFree(s: Fs, i: nat) {
    At(s, Root(i, 0)) != 0 && !Marked(s, At(s, Root(i, 0)))
  }

  ghost predicate DirectDead(s: Fs, dead: set<Slot>, i: nat, k: nat) {
    forall q: Slot :: q in dead <==> At(s, q) != 0 && q.Root? && q.ino == i && q.k < k
  }

  /** A direct zone of inode i, or a place under one of its two indirect blocks. */
  predicate Belongs(q: Slot, i: nat) {
    (q.Root? && q.ino == i && q.k < 7) || q == Root(i, 7) || (q.Under? && q.parent == Root(i, 7)) || Below8(q, i)
  }

  /** Nothing else belongs to a file. */
  lemma OwnedBy(s: Fs, q: Slot, i: nat)
    requires At(s, q) != 0
    ensures Owner(q) == i <==> Belongs(q, i)
  {
    if q.Under? && q.parent.Under? {
      assert Owner(q) == Owner(q.parent.parent);
    }
  }

  lemma TruncateDone(s: Fs, t: Fs, u: Fs, dead: set<Slot>, i: nat)
    requires Sound(s) && DirectGone(s, t, i, 7) && SameTree(t, u)
    requires Shape(u) && Proper(u) && Accounted(u, dead)
    requires forall q: Slot :: q in dead <==> At(s, q) != 0 && Belongs(q, i)
    ensures Truncated(s, Emptied(u, i), i)
  {
    SameTreeAt(t, u);
    forall q: Slot | At(s, q) != 0 ensures Owner(q) == i <==> q in dead {
      OwnedBy(s, q, i);
    }
    EmptiedSound(u, dead, i);
    var v := Emptied(u, i);
    forall q: Slot ensures At(v, q) == if Owner(q) == i then 0 else At(s, q) {
      EmptiedAt(u, i, q);
    }
    TruncatedMarks(s, v, i);
  }

  lemma TruncatedMarks(s: Fs, t: Fs, i: nat)
    requires Sound(s) && Sound(t) && t.first == s.first && t.zones == s.zones
    requires forall q: Slot :: At(t, q) == if Owner(q) == i then 0 else At(s, q)
    ensures forall z: int :: Marked(t, z) <==> Marked(s, z) && !ZoneOfFile(s, i, z)
  {
    forall z: int ensures Marked(t, z) <==> Marked(s, z) && !ZoneOfFile(s, i, z) {
      if Marked(t, z) {
        var q: Slot :| q !in {} && At(t, q) == z;
        assert At(s, q) == z;
      }
      if Marked(s, z) && !ZoneOfFile(s, i, z) {
        var q: Slot :| q !in {} && At(s, q) == z;
        assert At(t, q) == z;
      }
    }
  }

  /** Only the bitmap differs. */
  ghost predicate SameTree(s: Fs, t: Fs) {
    t == s.(bits := t.bits)
  }

  lemma SameTreeAt(s: Fs, t: Fs)
    requires SameTree(s, t)
    ensures forall q: Slot :: At(t, q) == At(s, q)
    ensures forall q: Slot :: Exists(t, q) == Exists(s, q)
  {
    forall q: Slot ensures At(t, q) == At(s, q) && Exists(t, q) == Exists(s, q) {
      BitsAt(s, t, q);
    }
  }

  /** q is in the tree of the double indirect block of inode i, or is its place. */
  predicate Below8(q: Slot, i: nat) {
    q == Root(i, 8) || Before8(q, i, PER_BLOCK)
  }

  /** q is below one of its first k entries. */
  predicate Before8(q: Slot, i: nat, k: nat) {
    q.Under? && ((q.parent == Root(i, 8) && q.k < k)
                 || (q.parent.Under? && q.parent.parent == Root(i, 8) && q.parent.k < k))
  }

  lemma ChildAt(s: Fs, p: Slot, k: nat)
    requires IsIndex(p) && At(s, p) != 0 && At(s, p) < |s.blocks| && k < PER_BLOCK
    ensures At(s, Under(p, k)) == Entry(s.blocks[At(s, p)], k)
  {}

  lemma ChildrenBounded(s: Fs, p: Slot)
    ensures forall q: Slot | q.Under? && q.parent == p && At(s, q) != 0 :: q.k < PER_BLOCK
  {}
}
