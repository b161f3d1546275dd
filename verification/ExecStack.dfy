/**
 How fs/exec.c hands arguments and environment to a program: the strings go into pages that are
 filled from the top, the pages become the end of the new data segment, and the pointer tables are
 written below them. Program memory is read back the way the program does.
 */
module ExecStack {

  const PAGE_SIZE: nat := 4096
  const MAX_ARG_PAGES: nat := 32
  const ARG_BYTES: nat := 0x20000          // 32 pages
  const ARG_TOP: nat := 0x1fffc            // where p starts
  const DATA_LIMIT: nat := 0x4000000
  const ARG_BASE: nat := 0x3fe0000         // DATA_LIMIT - ARG_BYTES

  type Byte = b: int | 0 <= b < 256

  /** A string without its terminating zero. */
  type CString = s: seq<Byte> | forall k: nat | k < |s| :: s[k] != 0

  // ---------------------------------------------------------------- strings one after the other

  function Flat(ss: seq<CString>): seq<Byte> {
    if ss == [] then [] else ss[0] + [0] + Flat(ss[1..])
  }

  lemma {:induction false} FlatJoined(a: seq<CString>, b: seq<CString>)
    ensures Flat(a + b) == Flat(a) + Flat(b)
  {
    if a == [] {
      assert a + b == b;
    } else {
      FlatJoined(a[1..], b);
      assert (a + b)[1..] == a[1..] + b;
    }
  }

  lemma FlatOne(s: CString)
    ensures Flat([s]) == s + [0]
  {
    assert [s][1..] == [];
  }

  /** The last string of a list. */
  lemma FlatLast(ss: seq<CString>, n: nat)
    requires n < |ss|
    ensures Flat(ss[..n + 1]) == Flat(ss[..n]) + (ss[n] + [0])
  {
    FlatJoined(ss[..n], [ss[n]]);
    FlatOne(ss[n]);
    assert ss[..n + 1] == ss[..n] + [ss[n]];
  }

  /** Memory u holds the bytes b at address a. */
  ghost predicate Bytes(u: seq<Byte>, a: nat, b: seq<Byte>) {
    a + |b| <= |u| && forall k: nat | k < |b| :: u[a + k] == b[k]
  }

  /** And so a string. */
  ghost predicate StringAt(u: seq<Byte>, a: nat, s: CString) {
    Bytes(u, a, s + [0])
  }

  lemma BytesSplit(u: seq<Byte>, a: nat, b: seq<Byte>, c: seq<Byte>)
    ensures Bytes(u, a, b + c) <==> Bytes(u, a, b) && Bytes(u, a + |b|, c)
  {
    if Bytes(u, a, b + c) {
      forall k: nat | k < |b| ensures u[a + k] == b[k] {
        assert (b + c)[k] == b[k];
      }
      forall k: nat | k < |c| ensures u[a + |b| + k] == c[k] {
        assert (b + c)[|b| + k] == c[k];
        assert u[a + (|b| + k)] == c[k];
      }
    }
    if Bytes(u, a, b) && Bytes(u, a + |b|, c) {
      forall k: nat | k < |b + c| ensures u[a + k] == (b + c)[k] {
        if k >= |b| {
          assert u[a + |b| + (k - |b|)] == c[k - |b|];
        }
      }
    }
  }

  /** Where string j of a list starts. */
  function Start(ss: seq<CString>, j: nat): nat
    requires j <= |ss|
  {
    |Flat(ss[..j])|
  }

  /** Strings that were stored one after the other can be found one after the other. */
  lemma StringFound(u: seq<Byte>, a: nat, ss: seq<CString>, j: nat)
    requires Bytes(u, a, Flat(ss)) && j < |ss|
    ensures StringAt(u, a + Start(ss, j), ss[j]) && Start(ss, j + 1) == Start(ss, j) + |ss[j]| + 1
    ensures Start(ss, j + 1) <= |Flat(ss)|
  {
    FlatLast(ss, j);
    FlatJoined(ss[..j + 1], ss[j + 1..]);
    assert ss == ss[..j + 1] + ss[j + 1..];
    BytesSplit(u, a, Flat(ss[..j + 1]), Flat(ss[j + 1..]));
    BytesSplit(u, a, Flat(ss[..j]), ss[j] + [0]);
  }

  // ---------------------------------------------------------------- long words

  function GetLong(u: seq<Byte>, a: nat): nat
    requires a + 4 <= |u|
  {
    var b0: nat, b1: nat, b2: nat, b3: nat := u[a], u[a + 1], u[a + 2], u[a + 3];
    b0 + 0x100 * b1 + 0x1_0000 * b2 + 0x100_0000 * b3
  }

  function PutLong(u: seq<Byte>, a: nat, v: nat): (r: seq<Byte>)
    requires a + 4 <= |u|
    ensures |r| == |u|
  {
    u[a := v % 0x100][a + 1 := v / 0x100 % 0x100][a + 2 := v / 0x1_0000 % 0x100][a + 3 := v / 0x100_0000 % 0x100]
  }

  lemma PutGet(u: seq<Byte>, a: nat, v: nat)
    requires a + 4 <= |u| && v < 0x1_0000_0000
    ensures GetLong(PutLong(u, a, v), a) == v
    ensures forall b: nat | b < |u| && !(a <= b < a + 4) :: PutLong(u, a, v)[b] == u[b]
  {
    var x, y, z := v / 0x100, v / 0x1_0000, v / 0x100_0000;
    assert x / 0x100 == y && y / 0x100 == z;
    assert v == v % 0x100 + 0x100 * x && x == x % 0x100 + 0x100 * y && y == y % 0x100 + 0x100 * z && z % 0x100 == z;
  }

  lemma GetElsewhere(u: seq<Byte>, a: nat, v: nat, b: nat)
    requires a + 4 <= |u| && v < 0x1_0000_0000 && b + 4 <= |u| && (b + 4 <= a || a + 4 <= b)
    ensures GetLong(PutLong(u, a, v), b) == GetLong(u, b)
  {
    PutGet(u, a, v);
  }

  // ---------------------------------------------------------------- what the program finds

  /** The pointers from a on lead to the strings ss, with a null pointer behind. */
  ghost predicate Table(u: seq<Byte>, a: nat, ss: seq<CString>) {
    && a + 4 * |ss| + 4 <= |u| && GetLong(u, a + 4 * |ss|) == 0
    && forall j: nat | j < |ss| :: Pointer(u, a, ss, j)
  }

  ghost predicate Pointer(u: seq<Byte>, a: nat, ss: seq<CString>, j: nat)
    requires j < |ss| && a + 4 * |ss| + 4 <= |u|
  {
    StringAt(u, GetLong(u, a + 4 * j), ss[j])
  }

  /** At sp are the number of arguments and the addresses of the two tables. */
  ghost predicate Receives(u: seq<Byte>, sp: nat, args: seq<CString>, envs: seq<CString>) {
    && sp + 12 <= |u| && GetLong(u, sp) == |args|
    && Table(u, GetLong(u, sp + 4), args) && Table(u, GetLong(u, sp + 8), envs)
  }

  // ---------------------------------------------------------------- create_tables

  /** From a on are the addresses of n strings, of those that lie at p one after the other, and 0. */
  ghost predicate Addresses(u: seq<Byte>, a: nat, p: nat, ss: seq<CString>, first: nat, n: nat)
    requires first + n <= |ss|
  {
    && a + 4 * n + 4 <= |u| && GetLong(u, a + 4 * n) == 0
    && forall j: nat | j < n :: GetLong(u, a + 4 * j) == p + Start(ss, first + j)
  }

  lemma AddressesTable(u: seq<Byte>, a: nat, p: nat, ss: seq<CString>, first: nat, n: nat)
    requires first + n <= |ss| && Addresses(u, a, p, ss, first, n) && Bytes(u, p, Flat(ss))
    ensures Table(u, a, ss[first..first + n])
  {
    var t := ss[first..first + n];
    forall j: nat | j < n ensures Pointer(u, a, t, j) {
      StringFound(u, p, ss, first + j);
      assert t[j] == ss[first + j];
    }
  }

  /** Only bytes from x to y have changed. */
  ghost predicate Within(u: seq<Byte>, v: seq<Byte>, x: nat, y: nat) {
    |v| == |u| && forall b: nat | b < |u| && !(x <= b < y) :: v[b] == u[b]
  }

  lemma AddressesKept(u: seq<Byte>, v: seq<Byte>, x: nat, y: nat, a: nat, p: nat, ss: seq<CString>, first: nat, n: nat)
    requires first + n <= |ss| && Addresses(u, a, p, ss, first, n) && Within(u, v, x, y)
    requires a + 4 * n + 4 <= x || y <= a
    ensures Addresses(v, a, p, ss, first, n)
  {}

  lemma BytesKept(u: seq<Byte>, v: seq<Byte>, x: nat, y: nat, a: nat, b: seq<Byte>)
    requires Bytes(u, a, b) && Within(u, v, x, y) && (a + |b| <= x || y <= a)
    ensures Bytes(v, a, b)
  {}

  lemma WithinNone(u: seq<Byte>, x: nat)
    ensures Within(u, u, x, x)
  {}

  lemma WithinMore(u: seq<Byte>, v: seq<Byte>, w: seq<Byte>, x: nat, y: nat, z: nat)
    requires Within(u, v, x, y) && Within(v, w, y, z) && x <= y <= z
    ensures Within(u, w, x, z)
  {}

  lemma GetKept(u: seq<Byte>, v: seq<Byte>, x: nat, y: nat, a: nat)
    requires Within(u, v, x, y) && a + 4 <= |u| && (a + 4 <= x || y <= a)
    ensures GetLong(v, a) == GetLong(u, a)
  {}

  /** The first n addresses, without the null pointer behind them. */
  ghost predicate AddressesUpto(u: seq<Byte>, a: nat, p: nat, ss: seq<CString>, first: nat, n: nat)
    requires first + n <= |ss|
  {
    a + 4 * n <= |u| && forall j: nat | j < n :: GetLong(u, a + 4 * j) == p + Start(ss, first + j)
  }

  lemma AddressesNone(u: seq<Byte>, a: nat, p: nat, ss: seq<CString>, first: nat)
    requires first <= |ss| && a <= |u|
    ensures AddressesUpto(u, a, p, ss, first, 0)
  {}

  lemma AddressesNext(u: seq<Byte>, v: seq<Byte>, a: nat, p: nat, ss: seq<CString>, first: nat, n: nat)
    requires first + n < |ss| && AddressesUpto(u, a, p, ss, first, n) && a + 4 * n + 4 <= |u|
    requires Within(u, v, a + 4 * n, a + 4 * n + 4) && GetLong(v, a + 4 * n) == p + Start(ss, first + n)
    ensures AddressesUpto(v, a, p, ss, first, n + 1)
  {
    forall j: nat | j < n ensures GetLong(v, a + 4 * j) == GetLong(u, a + 4 * j) {
      GetKept(u, v, a + 4 * n, a + 4 * n + 4, a + 4 * j);
    }
  }

  lemma AddressesEnd(u: seq<Byte>, v: seq<Byte>, a: nat, p: nat, ss: seq<CString>, first: nat, n: nat)
    requires first + n <= |ss| && AddressesUpto(u, a, p, ss, first, n) && a + 4 * n + 4 <= |u|
    requires Within(u, v, a + 4 * n, a + 4 * n + 4) && GetLong(v, a + 4 * n) == 0
    ensures Addresses(v, a, p, ss, first, n)
  {
    forall j: nat | j < n ensures GetLong(v, a + 4 * j) == GetLong(u, a + 4 * j) {
      GetKept(u, v, a + 4 * n, a + 4 * n + 4, a + 4 * j);
    }
  }

  /** Every string takes at least the byte of its terminating zero. */
  lemma {:induction false} FlatLong(ss: seq<CString>)
    ensures |ss| <= |Flat(ss)|
  {
    if ss != [] {
      FlatLong(ss[1..]);
    }
  }

  class UserMemory {
    const user: array<Byte>

    constructor (u: array<Byte>)
      ensures user == u
    {
      user := u;
    }

    /** put_fs_long */
    method PutFsLong(v: nat, a: nat)
      requires a + 4 <= user.Length && v < 0x1_0000_0000
      modifies user
      ensures user[..] == PutLong(old(user[..]), a, v) && GetLong(user[..], a) == v
      ensures Within(old(user[..]), user[..], a, a + 4)
    {
      ghost var u := user[..];
      PutGet(u, a, v);
      user[a] := v % 0x100;
      user[a + 1] := v / 0x100 % 0x100;
      user[a + 2] := v / 0x1_0000 % 0x100;
      user[a + 3] := v / 0x100_0000 % 0x100;
      assert user[..] == PutLong(u, a, v);
    }

    /** `while (get_fs_byte(p++))` */
    method SkipString(p: nat, ghost s: CString) returns (q: nat)
      requires StringAt(user[..], p, s)
      ensures q == p + |s| + 1
    {
      q := p;
      while true
        invariant p <= q <= p + |s|
        decreases p + |s| - q
      {
        assert user[..][p + (q - p)] == (s + [0])[q - p];
        var c := user[q];
        q := q + 1;
        if c == 0 { return; }
      }
    }

    /** One of the two loops of create_tables. */
    method FillTable(table: nat, n: nat, p: nat, ghost base: nat, ghost ss: seq<CString>, ghost first: nat) returns (q: nat)
      requires first + n <= |ss| && Bytes(user[..], base, Flat(ss)) && p == base + Start(ss, first)
      requires table + 4 * n + 4 <= base <= user.Length < 0x1_0000_0000
      modifies user
      ensures q == base + Start(ss, first + n) && Addresses(user[..], table, base, ss, first, n)
      ensures Within(old(user[..]), user[..], table, table + 4 * n + 4)
    {
      hide Within, Bytes, Addresses, GetLong, Start, Flat;
      ghost var u := user[..];
      q := p;
      var i := 0;
      WithinNone(u, table);
      AddressesNone(u, table, base, ss, first);
      while i < n
        invariant 0 <= i <= n && q == base + Start(ss, first + i)
        invariant Within(u, user[..], table, table + 4 * i)
        invariant AddressesUpto(user[..], table, base, ss, first, i)
      {
        ghost var v := user[..];
        BytesKept(u, v, table, table + 4 * i, base, Flat(ss));
        q := FillEntry(table, i, q, base, ss, first);
        WithinMore(u, v, user[..], table, table + 4 * i, table + 4 * i + 4);
        i := i + 1;
      }
      ghost var v := user[..];
      PutFsLong(0, table + 4 * n);
      WithinMore(u, v, user[..], table, table + 4 * n, table + 4 * n + 4);
      AddressesEnd(v, user[..], table, base, ss, first, n);
    }

    /** One pointer, and on to the next string. */
    method FillEntry(table: nat, i: nat, p: nat, ghost base: nat, ghost ss: seq<CString>, ghost first: nat) returns (q: nat)
      requires first + i < |ss| && Bytes(user[..], base, Flat(ss)) && p == base + Start(ss, first + i)
      requires table + 4 * i + 4 <= base && user.Length < 0x1_0000_0000 && AddressesUpto(user[..], table, base, ss, first, i)
      modifies user
      ensures q == base + Start(ss, first + i + 1) && AddressesUpto(user[..], table, base, ss, first, i + 1)
      ensures Within(old(user[..]), user[..], table + 4 * i, table + 4 * i + 4)
    {
      hide Within, Addresses, GetLong, Flat, Start;
      ghost var v := user[..];
      StringFound(v, base, ss, first + i);
      PutFsLong(p, table + 4 * i);
      BytesKept(v, user[..], table + 4 * i, table + 4 * i + 4, base, Flat(ss));
      StringFound(user[..], base, ss, first + i);
      AddressesNext(v, user[..], table, base, ss, first, i);
      q := SkipString(p, ss[first + i]);
    }

    /** create_tables, for strings that lie at p one after the other: the program receives the first
        argc of them as arguments and the next envc as its environment. */
    method CreateTables(p: nat, argc: nat, envc: nat, ghost ss: seq<CString>) returns (sp: nat)
      requires user.Length == DATA_LIMIT && ARG_BASE <= p && Bytes(user[..], p, Flat(ss)) && argc + envc <= |ss|
      modifies user
      ensures Receives(user[..], sp, ss[..argc], ss[argc..argc + envc])
    {
      hide Within, Bytes, Addresses, GetLong, Start, Flat, Table;
      FlatFits(user[..], p, ss);
      StartNone(ss);
      sp := p / 4 * 4;
      sp := sp - 4 * (envc + 1);
      var ep := sp;
      sp := sp - 4 * (argc + 1);
      var ap := sp;
      sp := sp - 4;
      ghost var u0 := user[..];
      PutFsLong(ep, sp);
      ghost var u1 := user[..];
      sp := sp - 4;
      PutFsLong(ap, sp);
      ghost var u2 := user[..];
      sp := sp - 4;
      PutFsLong(argc, sp);
      ghost var u3 := user[..];
      HeadKept(u0, u1, u2, u3, sp, p, Flat(ss));
      var q := FillTable(ap, argc, p, p, ss, 0);
      ghost var u4 := user[..];
      BytesKept(u3, u4, ap, ep, p, Flat(ss));
      q := FillTable(ep, envc, q, p, ss, argc);
      ghost var u5 := user[..];
      BytesKept(u4, u5, ep, ep + 4 * envc + 4, p, Flat(ss));
      AddressesKept(u4, u5, ep, ep + 4 * envc + 4, ap, p, ss, 0, argc);
      AddressesTable(u5, ap, p, ss, 0, argc);
      AddressesTable(u5, ep, p, ss, argc, envc);
      WithinMore(u3, u4, u5, ap, ep, ep + 4 * envc + 4);
      GetKept(u3, u5, ap, ep + 4 * envc + 4, sp);
      GetKept(u3, u5, ap, ep + 4 * envc + 4, sp + 4);
      GetKept(u3, u5, ap, ep + 4 * envc + 4, sp + 8);
      assert ss[0..argc] == ss[..argc];
    }
  }

  lemma StartNone(ss: seq<CString>)
    ensures Start(ss, 0) == 0
  {}

  lemma FlatFits(u: seq<Byte>, p: nat, ss: seq<CString>)
    requires |u| == DATA_LIMIT && ARG_BASE <= p && Bytes(u, p, Flat(ss))
    ensures 4 * |ss| + 40 <= p && p <= DATA_LIMIT && |ss| <= ARG_BYTES
  {
    FlatLong(ss);
  }

  /** The three words at the stack pointer. */
  lemma HeadKept(u0: seq<Byte>, u1: seq<Byte>, u2: seq<Byte>, u3: seq<Byte>, sp: nat, p: nat, b: seq<Byte>)
    requires sp + 12 <= p && sp + 12 <= |u0| && Bytes(u0, p, b)
    requires Within(u0, u1, sp + 8, sp + 12) && Within(u1, u2, sp + 4, sp + 8) && Within(u2, u3, sp, sp + 4)
    ensures Bytes(u3, p, b) && GetLong(u3, sp + 4) == GetLong(u2, sp + 4) && GetLong(u3, sp + 8) == GetLong(u1, sp + 8)
  {}

  // ---------------------------------------------------------------- the argument pages

  /** Byte a of the 32 pages; a page that is not there reads as zero. */
  function ArgByte(pages: seq<nat>, mem: seq<Byte>, a: nat): Byte {
    if a / PAGE_SIZE < |pages| && pages[a / PAGE_SIZE] != 0 && pages[a / PAGE_SIZE] * PAGE_SIZE + a % PAGE_SIZE < |mem|
    then mem[pages[a / PAGE_SIZE] * PAGE_SIZE + a % PAGE_SIZE] else 0
  }

  ghost function Content(pages: seq<nat>, mem: seq<Byte>): (u: seq<Byte>)
    ensures |u| == ARG_BYTES && forall a: nat | a < ARG_BYTES :: u[a] == ArgByte(pages, mem, a)
  {
    seq(ARG_BYTES, (a: nat) => ArgByte(pages, mem, a))
  }

  predicate FrameOk(mem: seq<Byte>, f: nat) {
    f > 0 && f * PAGE_SIZE + PAGE_SIZE <= |mem|
  }

  /** The pages are different frames, and none of them is free. */
  ghost predicate PagesOk(pages: seq<nat>, mem: seq<Byte>, free: seq<nat>) {
    && |pages| == MAX_ARG_PAGES
    && (forall i: nat | i < |pages| && pages[i] != 0 :: FrameOk(mem, pages[i]) && pages[i] !in free)
    && (forall i: nat, j: nat | i < j < |pages| && pages[i] != 0 :: pages[i] != pages[j])
    && (forall k: nat | k < |free| :: FrameOk(mem, free[k]))
    && (forall k: nat, l: nat | k < l < |free| :: free[k] != free[l])
  }

  /** A byte stored through the page's frame is a byte stored in the pages. */
  lemma StoredByte(pages: seq<nat>, mem: seq<Byte>, free: seq<nat>, a: nat, b: Byte)
    requires PagesOk(pages, mem, free) && a < ARG_BYTES && pages[a / PAGE_SIZE] != 0
    ensures pages[a / PAGE_SIZE] * PAGE_SIZE + a % PAGE_SIZE < |mem|
    ensures var m2 := mem[pages[a / PAGE_SIZE] * PAGE_SIZE + a % PAGE_SIZE := b];
      PagesOk(pages, m2, free) && Content(pages, m2) == Content(pages, mem)[a := b]
  {
    var f := pages[a / PAGE_SIZE];
    assert FrameOk(mem, f);
    var m2 := mem[f * PAGE_SIZE + a % PAGE_SIZE := b];
    forall x: nat | x < ARG_BYTES ensures ArgByte(pages, m2, x) == if x == a then b else ArgByte(pages, mem, x) {
      OtherCell(pages, mem, free, a, x);
    }
    assert forall g: nat :: FrameOk(m2, g) <==> FrameOk(mem, g);
  }

  lemma OtherCell(pages: seq<nat>, mem: seq<Byte>, free: seq<nat>, a: nat, x: nat)
    requires PagesOk(pages, mem, free) && a < ARG_BYTES && x < ARG_BYTES && pages[a / PAGE_SIZE] != 0
    ensures x != a && pages[x / PAGE_SIZE] != 0 ==>
      pages[x / PAGE_SIZE] * PAGE_SIZE + x % PAGE_SIZE != pages[a / PAGE_SIZE] * PAGE_SIZE + a % PAGE_SIZE
  {
    if x != a && x / PAGE_SIZE == a / PAGE_SIZE {
      assert x % PAGE_SIZE != a % PAGE_SIZE;
    }
  }

  /** A zeroed frame in an empty place changes nothing that can be read. */
  lemma PageAdded(pages: seq<nat>, mem: seq<Byte>, m2: seq<Byte>, free: seq<nat>, i: nat)
    requires PagesOk(pages, mem, free) && free != [] && i < MAX_ARG_PAGES && pages[i] == 0 && |m2| == |mem|
    requires forall x: nat | x < |mem| :: m2[x] == if x / PAGE_SIZE == free[0] then 0 else mem[x]
    ensures PagesOk(pages[i := free[0]], m2, free[1..]) && Content(pages[i := free[0]], m2) == Content(pages, mem)
  {
    var p2 := pages[i := free[0]];
    assert forall g: nat :: FrameOk(m2, g) <==> FrameOk(mem, g);
    forall x: nat | x < ARG_BYTES ensures ArgByte(p2, m2, x) == ArgByte(pages, mem, x) {
      var f := p2[x / PAGE_SIZE];
      assert (f * PAGE_SIZE + x % PAGE_SIZE) / PAGE_SIZE == f;
      assert f != 0 ==> FrameOk(mem, f);
    }
  }

  /** How many pages hold the bytes from p to where the first string ends. */
  function Used(p: nat): nat {
    if p < ARG_TOP then MAX_ARG_PAGES - p / PAGE_SIZE else 0
  }

  /** The byte before p needs a new page exactly at the start of a page and for the very first byte. */
  lemma UsedBefore(p: nat)
    requires 0 < p <= ARG_TOP
    ensures if p < ARG_TOP && p % PAGE_SIZE != 0
            then (p - 1) / PAGE_SIZE == p / PAGE_SIZE && Used(p - 1) == Used(p)
            else Used(p - 1) == Used(p) + 1 && (p < ARG_TOP ==> (p - 1) / PAGE_SIZE + 1 == p / PAGE_SIZE)
  {}

  lemma UsedMore(p: nat, q: nat)
    requires p <= q
    ensures Used(q) <= Used(p) <= MAX_ARG_PAGES
  {}

  datatype Copy = Copied(p: nat) | NoPage | Wild

  class ArgPages {
    const page: array<nat>
    const mem: array<Byte>
    /** What get_free_page will return, one after the other. */
    var free: seq<nat>

    ghost predicate Valid()
      reads this, page, mem
    {
      PagesOk(page[..], mem[..], free)
    }

    ghost function Args(): (u: seq<Byte>)
      reads this, page, mem
      ensures |u| == ARG_BYTES
    {
      Content(page[..], mem[..])
    }

    /** do_execve's empty page table. */
    constructor (mem: array<Byte>, free: seq<nat>)
      requires PagesOk(seq(MAX_ARG_PAGES, _ => 0), mem[..], free)
      ensures Valid() && fresh(page) && this.mem == mem && this.free == free && Filled(ARG_TOP, |free|)
    {
      var ps := new nat[MAX_ARG_PAGES](_ => 0);
      page, this.mem, this.free := ps, mem, free;
      new;
      assert page[..] == seq(MAX_ARG_PAGES, _ => 0);
    }

    /** get_free_page, into an empty place; 0 when there is none. */
    method NewPage(i: nat) returns (f: nat)
      requires Valid() && i < MAX_ARG_PAGES && page[i] == 0
      modifies this, page, mem
      ensures Valid() && Args() == old(Args()) && (f == 0 <==> old(free) == [])
      ensures if f == 0 then page[..] == old(page[..]) && free == [] else page[..] == old(page[..])[i := f] && free == old(free)[1..]
    {
      if free == [] { return 0; }
      ghost var pages, m := page[..], mem[..];
      f := free[0];
      var o := 0;
      while o < PAGE_SIZE
        modifies mem
        invariant 0 <= o <= PAGE_SIZE
        invariant forall x: nat | x < |m| :: mem[x] == if x / PAGE_SIZE == f && x % PAGE_SIZE < o then 0 else m[x]
      {
        mem[f * PAGE_SIZE + o] := 0;
        o := o + 1;
      }
      PageAdded(pages, m, mem[..], free, i);
      page[i] := f;
      free := free[1..];
      assert page[..] == pages[i := f];
    }

    /** pag and offset stand for the place of p, unless offset is 0. */
    ghost predicate At(p: nat, offset: int, pag: nat)
      reads page
    {
      offset >= 0 && (offset > 0 ==> p < ARG_BYTES && page.Length == MAX_ARG_PAGES
                                     && offset == p % PAGE_SIZE && pag == page[p / PAGE_SIZE] && pag != 0)
    }

    /** Of n pages that were free, those that hold the bytes from p on are in use, and no others. */
    ghost predicate Filled(p: nat, n: nat)
      reads this, page
    {
      && page.Length == MAX_ARG_PAGES && |free| + Used(p) == n
      && forall i: nat | i < MAX_ARG_PAGES :: page[i] != 0 <==> p < ARG_TOP && p / PAGE_SIZE <= i
    }

    /** One byte, at the place before p; false exactly when it needs a page and none is free. */
    method PutByte(p: nat, b: Byte, offset: int, pag: nat, ghost n: nat) returns (ok: bool, offset2: int, pag2: nat)
      requires Valid() && 0 < p <= ARG_TOP && At(p, offset, pag) && Filled(p, n)
      modifies this, page, mem
      ensures Valid() && (ok <==> Used(p - 1) <= n)
      ensures ok ==> Args() == old(Args())[p - 1 := b] && At(p - 1, offset2, pag2) && Filled(p - 1, n)
    {
      UsedBefore(p);
      offset2, pag2 := offset - 1, pag;
      if offset2 < 0 {
        offset2 := (p - 1) % PAGE_SIZE;
        pag2 := page[(p - 1) / PAGE_SIZE];
        if pag2 == 0 {
          pag2 := NewPage((p - 1) / PAGE_SIZE);
          if pag2 == 0 { return false, offset2, pag2; }
        }
      }
      SamePage(p, offset);
      StoredByte(page[..], mem[..], free, p - 1, b);
      ghost var m := mem[..];
      mem[pag2 * PAGE_SIZE + offset2] := b;
      assert mem[..] == m[pag2 * PAGE_SIZE + offset2 := b];
      ok := true;
    }

    /** The inner loop of copy_strings: one string with its zero, back to front. At p = 0 the unsigned
        p wraps around and the next access is to no page of the table. */
    method CopyString(str: CString, p: nat, offset: int, pag: nat, ghost n: nat) returns (out: Copy, offset2: int, pag2: nat)
      requires Valid() && p <= ARG_TOP && At(p, offset, pag) && Filled(p, n)
      modifies this, page, mem
      ensures Valid()
      ensures out.Copied? <==> |str| + 1 <= p && Used(p - |str| - 1) <= n
      ensures out.Wild? <==> |str| + 1 > p && Used(0) <= n
      ensures out.Copied? ==> out.p + |str| + 1 == p && At(out.p, offset2, pag2) && Filled(out.p, n)
                              && Put(old(Args()), Args(), out.p, str + [0])
    {
      hide Put, PagesOk, Content, Used;
      ghost var u, t := Args(), str + [0];
      PutNone(u, p, t);
      offset2, pag2 := offset, pag;
      var q: nat, len: nat := p, |str| + 1;
      while len > 0
        invariant Valid() && 0 <= len <= |t| && q + |t| == p + len && At(q, offset2, pag2)
        invariant Put(u, Args(), q, t[len..]) && q <= ARG_TOP && Filled(q, n)
      {
        if q == 0 { return Wild, offset2, pag2; }
        ghost var v := Args();
        var ok;
        len := len - 1;
        var b := if len == |str| then 0 else str[len];
        ok, offset2, pag2 := PutByte(q, b, offset2, pag2, n);
        if !ok {
          UsedMore(0, q - 1);
          if |t| <= p { UsedMore(p - |t|, q - 1); }
          return NoPage, offset2, pag2;
        }
        PutNext(u, v, q, str, len);
        q := q - 1;
      }
      assert t[0..] == t;
      out := Copied(q);
    }

    /** copy_strings: the first argc strings of argv, in front of p, where n pages were free before the
        first call. It runs out of its table exactly when the strings do not fit and there is a page
        for every place; it returns their place exactly when they fit with a byte to spare and there
        are pages for them; else 0. */
    method CopyStrings(argc: int, argv: seq<CString>, p: nat, ghost n: nat) returns (r: nat, wild: bool)
      requires Valid() && p <= ARG_TOP && argc <= |argv| && (p > 0 ==> Filled(p, n))
      modifies this, page, mem
      ensures Valid() && r <= p
      ensures var b := Flat(argv[..Upto(argc)]);
        && (wild <==> 0 < p < |b| && MAX_ARG_PAGES <= n)
        && (r != 0 && !wild <==> |b| < p && Used(p - |b|) <= n)
        && (r != 0 && !wild ==> r + |b| == p && Filled(r, n) && Put(old(Args()), Args(), r, b))
    {
      hide Put, Used, PagesOk, Content;
      wild := false;
      if p == 0 { return 0, wild; }
      ghost var u, m := Args(), Upto(argc);
      r := p;
      var offset, pag, i := 0, 0, argc;
      FlatEmpty(argv, m);
      PutNothing(u, p);
      while i > 0
        invariant Valid() && i <= argc && (argc >= 0 ==> i >= 0) && At(r, offset, pag) && r <= p && Filled(r, n)
        invariant var b := Flat(argv[Upto(i)..m]); r + |b| == p && Put(u, Args(), r, b)
      {
        i := i - 1;
        FlatFirst(argv, i, m);
        ghost var v, b := Args(), Flat(argv[i + 1..m]);
        var out;
        out, offset, pag := CopyString(argv[i], r, offset, pag, n);
        FlatPart(argv, i, m);
        NoRoom(p, r, |argv[i]| + 1, |Flat(argv[..m])|);
        match out {
          case NoPage => return 0, false;
          case Wild => return 0, true;
          case Copied(q) =>
            PutFront(u, v, Args(), q, argv[i] + [0], r, b);
            r := q;
        }
      }
      assert argv[0..m] == argv[..m];
    }

    /** change_ldt: the pages become the end of the data segment, which read as zeros before. */
    method ChangeLdt(user: array<Byte>)
      requires Valid() && user != mem && user.Length == DATA_LIMIT
      requires forall a: nat | ARG_BASE <= a < DATA_LIMIT :: user[a] == 0
      modifies user
      ensures Valid() && Bytes(user[..], ARG_BASE, Args())
    {
      ghost var pages, m := page[..], mem[..];
      var i := MAX_ARG_PAGES;
      while i > 0
        modifies user
        invariant 0 <= i <= MAX_ARG_PAGES && Placed(user[..], pages, m, i * PAGE_SIZE)
      {
        i := i - 1;
        if page[i] != 0 {
          PutPage(user, i, ARG_BASE + i * PAGE_SIZE);
        } else {
          PlacedNone(user[..], pages, m, i);
        }
      }
      PlacedAll(user[..], pages, m);
    }

    /** put_page of argument page i at an address of the program, seen from the program. */
    method PutPage(user: array<Byte>, i: nat, address: nat)
      requires Valid() && user != mem && user.Length == DATA_LIMIT && i < MAX_ARG_PAGES && page[i] != 0
      requires address == ARG_BASE + i * PAGE_SIZE && Placed(user[..], page[..], mem[..], i * PAGE_SIZE + PAGE_SIZE)
      modifies user
      ensures Placed(user[..], page[..], mem[..], i * PAGE_SIZE)
    {
      ghost var pages, m := page[..], mem[..];
      assert FrameOk(m, pages[i]);
      var o := PAGE_SIZE;
      while o > 0
        modifies user
        invariant 0 <= o <= PAGE_SIZE && Placed(user[..], pages, m, i * PAGE_SIZE + o)
      {
        o := o - 1;
        ghost var u := user[..];
        user[address + o] := mem[page[i] * PAGE_SIZE + o];
        PlacedMore(u, user[..], pages, m, i, o);
      }
    }

    /** do_execve's calls of copy_strings: for a script, the interpreter's name, its argument and the
        name of the script replace the first argument. */
    method CopyAll(argv: seq<CString>, envp: seq<CString>, script: Script, ghost n: nat)
      returns (p: nat, argc: int, wild: bool)
      requires Valid() && Filled(ARG_TOP, n)
      modifies this, page, mem
      ensures Valid() && argc == |ProgramArgs(argv, script)| - if Shifted(argv, script) then 1 else 0
      ensures p <= ARG_TOP && Copies(Groups(argv, envp, script), ProgramArgs(argv, script) + envp, p, wild, n)
    {
      hide Flat, Bytes, Put, Content, PagesOk, Copies, Filled;
      CopiesNone(n);
      p, wild := CopyMore(|envp|, envp, ARG_TOP, false, [], [], n);
      assert envp[..|envp|] == envp && envp + [] == envp;
      assert [] + [envp[..|envp|]] == [envp];
      if script.Binary? {
        p, wild := CopyMore(|argv|, argv, p, wild, [envp], envp, n);
        assert argv[..|argv|] == argv && [envp] + [argv[..|argv|]] == [envp, argv];
        argc := |argv|;
      } else {
        p, argc, wild := CopyScript(argv, script, p, wild, envp, n);
      }
    }

    /** The #! part. */
    method CopyScript(argv: seq<CString>, script: Script, start: nat, wild: bool, ghost envp: seq<CString>, ghost n: nat)
      returns (p: nat, argc: int, wild2: bool)
      requires Valid() && script.Interpreted? && start <= ARG_TOP && Copies([envp], envp, start, wild, n)
      modifies this, page, mem
      ensures Valid() && argc == |ProgramArgs(argv, script)| - if Shifted(argv, script) then 1 else 0
      ensures p <= ARG_TOP && Copies(Groups(argv, envp, script), ProgramArgs(argv, script) + envp, p, wild2, n)
    {
      hide Copies, Flat, Bytes, Put, Content, PagesOk;
      argc := |argv| - 1;
      var rest := if argv == [] then [] else argv[1..];
      p, wild2 := CopyMore(argc, rest, start, wild, [envp], envp, n);
      assert rest[..Upto(argc)] == rest && [envp] + [rest] == [envp, rest];
      p, wild2 := CopyMore(1, [script.file], p, wild2, [envp, rest], rest + envp, n);
      argc := argc + 1;
      ghost var groups, tail := [envp, rest, [script.file]], [script.file] + rest + envp;
      assert [script.file][..1] == [script.file] && [script.file] + (rest + envp) == tail;
      assert [envp, rest] + [[script.file]] == groups;
      if script.arg.Some? {
        p, wild2 := CopyMore(1, [script.arg.value], p, wild2, groups, tail, n);
        argc := argc + 1;
        assert [script.arg.value][..1] == [script.arg.value];
        groups, tail := groups + [[script.arg.value]], [script.arg.value] + tail;
      }
      p, wild2 := CopyMore(1, [script.name], p, wild2, groups, tail, n);
      argc := argc + 1;
      assert [script.name][..1] == [script.name];
      assert [script.name] + tail == ProgramArgs(argv, script) + envp;
      assert groups + [[script.name]] == Groups(argv, envp, script);
    }

    /** p is what the calls of copy_strings for these groups have come to, ss being all they were
        given and n the number of pages that were free at first. */
    ghost predicate Copies(groups: seq<seq<CString>>, ss: seq<CString>, p: nat, wild: bool, n: nat)
      reads this, page, mem
    {
      && |Flat(ss)| == Total(groups) && ComesTo(Total(groups), Lands(groups), p, wild, n)
      && (p != 0 && !wild ==> Filled(p, n) && Bytes(Args(), p, Flat(ss)))
    }

    lemma CopiesNone(n: nat)
      requires Filled(ARG_TOP, n)
      ensures Copies([], [], ARG_TOP, false, n)
    {}

    /** A further call of copy_strings, in front of what the earlier ones have stored. */
    method CopyMore(argc: int, argv: seq<CString>, p: nat, wild: bool,
                    ghost groups: seq<seq<CString>>, ghost behind: seq<CString>, ghost n: nat) returns (r: nat, wild2: bool)
      requires Valid() && p <= ARG_TOP && argc <= |argv| && Copies(groups, behind, p, wild, n)
      modifies this, page, mem
      ensures Valid() && r <= ARG_TOP
      ensures Copies(groups + [argv[..Upto(argc)]], argv[..Upto(argc)] + behind, r, wild2, n)
    {
      ghost var u, m := Args(), Upto(argc);
      FlatJoined(argv[..m], behind);
      TotalMore(groups, argv[..m]);
      if Total(groups) <= ARG_TOP { LandsBelow(groups); }
      hide Flat, Total, Lands, PagesOk, Content, Filled, ComesTo;
      if wild {
        StaysDone(Total(groups), Lands(groups), p, true, n, |Flat(argv[..m])|);
        return 0, true;
      }
      r, wild2 := CopyStrings(argc, argv, p, n);
      GoesOn(Total(groups), Lands(groups), p, n, |Flat(argv[..m])|, r, wild2);
      if r != 0 && !wild2 {
        BytesKept(u, Args(), r, p, p, Flat(behind));
        BytesSplit(Args(), r, Flat(argv[..m]), Flat(behind));
      }
    }
  }

  /** What calls of copy_strings for `total` bytes come to: beyond the table if they do not fit, no
      call has ended at 0 and there is a page for every place; otherwise their place if they fit and
      there are pages, or 0. */
  ghost predicate ComesTo(total: nat, lands: bool, p: nat, wild: bool, n: nat) {
    && (wild <==> total > ARG_TOP && !lands && MAX_ARG_PAGES <= n)
    && (p != 0 && !wild <==> total < ARG_TOP && Used(ARG_TOP - total) <= n)
    && (p != 0 && !wild ==> p + total == ARG_TOP)
  }

  lemma StaysDone(total: nat, lands: bool, p: nat, wild: bool, n: nat, more: nat)
    requires ComesTo(total, lands, p, wild, n) && (wild || p == 0) && (total == ARG_TOP ==> lands)
    ensures ComesTo(total + more, lands || total + more == ARG_TOP, 0, wild, n)
  {
    if total + more < ARG_TOP { UsedMore(ARG_TOP - total - more, ARG_TOP - total); }
    if total < ARG_TOP { UsedMore(0, ARG_TOP - total); }
  }

  lemma GoesOn(total: nat, lands: bool, p: nat, n: nat, more: nat, r: nat, wild: bool)
    requires ComesTo(total, lands, p, false, n) && (total == ARG_TOP ==> lands) && (total < ARG_TOP ==> !lands)
    requires wild <==> 0 < p < more && MAX_ARG_PAGES <= n
    requires r != 0 && !wild <==> more < p && Used(p - more) <= n
    requires r != 0 && !wild ==> r + more == p
    ensures ComesTo(total + more, lands || total + more == ARG_TOP, r, wild, n)
  {
    if p == 0 { StaysDone(total, lands, p, false, n, more); }
  }

  /** The bytes of all groups of strings. */
  ghost function Total(groups: seq<seq<CString>>): nat {
    if groups == [] then 0 else Total(groups[..|groups| - 1]) + |Flat(groups[|groups| - 1])|
  }

  /** After one of the groups p is exactly 0: all later calls of copy_strings do nothing. */
  ghost predicate Lands(groups: seq<seq<CString>>) {
    groups != [] && (Total(groups) == ARG_TOP || Lands(groups[..|groups| - 1]))
  }

  lemma TotalMore(groups: seq<seq<CString>>, ss: seq<CString>)
    ensures Total(groups + [ss]) == Total(groups) + |Flat(ss)|
    ensures Lands(groups + [ss]) <==> Total(groups + [ss]) == ARG_TOP || Lands(groups)
  {
    assert (groups + [ss])[..|groups|] == groups;
  }

  /** As long as there is room left, no group has filled it. */
  lemma {:induction false} LandsBelow(groups: seq<seq<CString>>)
    requires Total(groups) < ARG_TOP || Total(groups) == ARG_TOP
    ensures Total(groups) < ARG_TOP ==> !Lands(groups)
    ensures groups != [] && Total(groups) == ARG_TOP ==> Lands(groups)
  {
    if groups != [] {
      LandsBelow(groups[..|groups| - 1]);
    }
  }

  datatype MaybeString = None | Some(value: CString)

  /** Whether the file starts with #!, and what its first line names. */
  datatype Script = Binary | Interpreted(name: CString, arg: MaybeString, file: CString)

  /** What the program should get as arguments. */
  function ProgramArgs(argv: seq<CString>, script: Script): seq<CString> {
    match script
    case Binary => argv
    case Interpreted(name, arg, file) =>
      [name] + (if arg.Some? then [arg.value] else []) + [file] + if argv == [] then [] else argv[1..]
  }

  /** The strings of each call of copy_strings, in the order of the calls. */
  function Groups(argv: seq<CString>, envp: seq<CString>, script: Script): seq<seq<CString>> {
    match script
    case Binary => [envp, argv]
    case Interpreted(name, arg, file) =>
      [envp, if argv == [] then [] else argv[1..], [file]] + (if arg.Some? then [[arg.value]] else []) + [[name]]
  }

  /** A script run with no argument at all, not even its own name. */
  predicate Shifted(argv: seq<CString>, script: Script) {
    script.Interpreted? && argv == []
  }

  /** The program's end of memory shows the argument pages from byte n on, and zeros before. */
  ghost predicate Placed(u: seq<Byte>, pages: seq<nat>, mem: seq<Byte>, n: nat) {
    && |u| == DATA_LIMIT
    && forall a: nat | a < ARG_BYTES :: Top(u, a) == if a < n then 0 else ArgByte(pages, mem, a)
  }

  /** Byte a of the last 128 kB. */
  function Top(u: seq<Byte>, a: nat): Byte
    requires |u| == DATA_LIMIT && a < ARG_BYTES
  {
    u[ARG_BASE + a]
  }

  lemma PlacedAll(u: seq<Byte>, pages: seq<nat>, mem: seq<Byte>)
    requires Placed(u, pages, mem, 0)
    ensures Bytes(u, ARG_BASE, Content(pages, mem))
  {
    forall a: nat | a < ARG_BYTES ensures u[ARG_BASE + a] == Content(pages, mem)[a] {
      assert Top(u, a) == ArgByte(pages, mem, a);
    }
  }

  lemma PlacedNone(u: seq<Byte>, pages: seq<nat>, mem: seq<Byte>, i: nat)
    requires i < |pages| && pages[i] == 0 && Placed(u, pages, mem, i * PAGE_SIZE + PAGE_SIZE)
    ensures Placed(u, pages, mem, i * PAGE_SIZE)
  {
    forall a: nat | a < ARG_BYTES && i * PAGE_SIZE <= a < i * PAGE_SIZE + PAGE_SIZE ensures ArgByte(pages, mem, a) == 0 {
      assert a / PAGE_SIZE == i;
    }
  }

  lemma PlacedMore(u: seq<Byte>, v: seq<Byte>, pages: seq<nat>, mem: seq<Byte>, i: nat, o: nat)
    requires i < |pages| == MAX_ARG_PAGES && o < PAGE_SIZE && pages[i] != 0 && FrameOk(mem, pages[i])
    requires Placed(u, pages, mem, i * PAGE_SIZE + o + 1)
    requires v == u[ARG_BASE + i * PAGE_SIZE + o := mem[pages[i] * PAGE_SIZE + o]]
    ensures Placed(v, pages, mem, i * PAGE_SIZE + o)
  {
    var n := i * PAGE_SIZE + o;
    assert n / PAGE_SIZE == i && n % PAGE_SIZE == o;
    forall a: nat | a < ARG_BYTES ensures Top(v, a) == if a < n then 0 else ArgByte(pages, mem, a) {
      if a != n {
        assert Top(v, a) == Top(u, a);
      }
    }
  }

  function Upto(n: int): nat {
    if n > 0 then n else 0
  }

  /** v is u with the bytes b at a. */
  ghost predicate Put(u: seq<Byte>, v: seq<Byte>, a: nat, b: seq<Byte>) {
    && |v| == |u| && Bytes(v, a, b)
    && forall x: nat | x < |u| && !(a <= x < a + |b|) :: v[x] == u[x]
  }

  lemma FirstPut(u: seq<Byte>, v: seq<Byte>, a: nat, b: seq<Byte>)
    ensures Put(u, v, a, b) ==> Bytes(v, a, b)
  {}

  lemma PutNothing(u: seq<Byte>, a: nat)
    requires a <= |u|
    ensures Put(u, u, a, [])
  {}

  /** How a string fits, seen from the whole list: r is where the strings behind it begin. */
  lemma NoRoom(p: nat, r: nat, one: nat, all: nat)
    requires r <= p && p - r + one <= all
    ensures one > r ==> all > p
    ensures all <= p ==> one <= r && Used(r - one) <= Used(p - all)
    ensures Used(0) == MAX_ARG_PAGES && (one <= r ==> Used(r - one) <= MAX_ARG_PAGES)
  {
    if all <= p { UsedMore(p - all, r - one); }
  }

  lemma PutMore(u: seq<Byte>, v: seq<Byte>, a: nat, b: seq<Byte>, c: Byte)
    requires Put(u, v, a, b) && 0 < a <= |u|
    ensures Put(u, v[a - 1 := c], a - 1, [c] + b)
  {}

  lemma PutNone(u: seq<Byte>, a: nat, b: seq<Byte>)
    requires a <= |u|
    ensures Put(u, u, a, b[|b|..])
  {}

  /** One byte more of a string, from behind. */
  lemma PutNext(u: seq<Byte>, v: seq<Byte>, a: nat, str: CString, k: nat)
    requires k <= |str| && 0 < a <= |u| && Put(u, v, a, (str + [0])[k + 1..])
    ensures Put(u, v[a - 1 := if k == |str| then 0 else str[k]], a - 1, (str + [0])[k..])
  {
    var t := str + [0];
    PutMore(u, v, a, t[k + 1..], t[k]);
    assert t[k..] == [t[k]] + t[k + 1..];
  }

  /** Bytes put in front of bytes. */
  lemma PutFront(u: seq<Byte>, v: seq<Byte>, w: seq<Byte>, q: nat, c: seq<Byte>, r: nat, b: seq<Byte>)
    requires Put(u, v, r, b) && Put(v, w, q, c) && q + |c| == r
    ensures Put(u, w, q, c + b)
  {
    BytesKept(v, w, q, r, r, b);
    BytesSplit(w, q, c, b);
  }

  lemma FlatEmpty(ss: seq<CString>, n: nat)
    requires n <= |ss|
    ensures Flat(ss[n..n]) == []
  {}

  lemma FlatFirst(ss: seq<CString>, i: nat, n: nat)
    requires i < n <= |ss|
    ensures Flat(ss[i..n]) == ss[i] + [0] + Flat(ss[i + 1..n])
  {
    assert ss[i..n][1..] == ss[i + 1..n];
  }

  /** A part of the list takes no more than the list. */
  lemma FlatPart(ss: seq<CString>, i: nat, n: nat)
    requires i <= n <= |ss|
    ensures |Flat(ss[i..n])| <= |Flat(ss[..n])|
  {
    FlatJoined(ss[..i], ss[i..n]);
    assert ss[..n] == ss[..i] + ss[i..n];
  }

  lemma SamePage(p: nat, offset: int)
    requires p > 0
    ensures offset > 0 && offset == p % PAGE_SIZE ==>
      offset - 1 == (p - 1) % PAGE_SIZE && p / PAGE_SIZE == (p - 1) / PAGE_SIZE
  {}

  // ---------------------------------------------------------------- do_execve

  datatype Outcome = Started(sp: nat) | NoMemory | Crashed

  /** The part of do_execve that hands over arguments and environment, for a new program memory and
      with these frames free. The program gets the lists as they were given if and only if it is not a
      script run with no argument: then one argument too few is counted, and the name of the script
      comes first in the environment. It fails exactly for want of pages, or if a call of copy_strings
      fills the table to the last byte. And beyond 128 kB, which the unsigned test does not notice, it
      uses entries that the table does not have, exactly if there are pages and no call ends on the
      last byte. */
  method Execve(argv: seq<CString>, envp: seq<CString>, script: Script, mem: array<Byte>, free: seq<nat>, user: array<Byte>)
    returns (out: Outcome)
    requires PagesOk(seq(MAX_ARG_PAGES, _ => 0), mem[..], free) && user != mem && user.Length == DATA_LIMIT
    requires forall a: nat | ARG_BASE <= a < DATA_LIMIT :: user[a] == 0
    modifies mem, user
    ensures out.Started? ==>
      (Receives(user[..], out.sp, ProgramArgs(argv, script), envp) <==> !Shifted(argv, script))
    ensures out.Started? && Shifted(argv, script) ==>
      var all := ProgramArgs(argv, script) + envp;
      var n := |ProgramArgs(argv, script)| - 1;
      Receives(user[..], out.sp, all[..n], all[n..|all| - 1])
    ensures var groups := Groups(argv, envp, script);
      && Total(groups) == |Flat(ProgramArgs(argv, script) + envp)|
      && (out.Started? <==> Total(groups) < ARG_TOP && Used(ARG_TOP - Total(groups)) <= |free|)
      && (out.Crashed? <==> Total(groups) > ARG_TOP && !Lands(groups) && MAX_ARG_PAGES <= |free|)
  {
    hide Flat, Total, Lands, Content, Receives, Groups;
    ghost var all := ProgramArgs(argv, script) + envp;
    var pages := new ArgPages(mem, free);
    var p, argc, wild := pages.CopyAll(argv, envp, script, |free|);
    if wild { return Crashed; }
    if p == 0 { return NoMemory; }
    var sp := Enter(argv, envp, script, pages, user, p, argc);
    out := Started(sp);
  }

  /** change_ldt and create_tables, for the strings at p. */
  method Enter(argv: seq<CString>, envp: seq<CString>, script: Script, pages: ArgPages, user: array<Byte>, p: nat, argc: int)
    returns (sp: nat)
    requires pages.Valid() && user != pages.mem && user.Length == DATA_LIMIT
    requires forall a: nat | ARG_BASE <= a < DATA_LIMIT :: user[a] == 0
    requires Bytes(pages.Args(), p, Flat(ProgramArgs(argv, script) + envp))
    requires argc == |ProgramArgs(argv, script)| - if Shifted(argv, script) then 1 else 0
    modifies user
    ensures Receives(user[..], sp, ProgramArgs(argv, script), envp) <==> !Shifted(argv, script)
    ensures Shifted(argv, script) ==>
      var all := ProgramArgs(argv, script) + envp;
      var n := |ProgramArgs(argv, script)| - 1;
      Receives(user[..], sp, all[..n], all[n..|all| - 1])
  {
    hide Flat, Content, Table;
    ghost var args, all := ProgramArgs(argv, script), ProgramArgs(argv, script) + envp;
    pages.ChangeLdt(user);
    BytesInside(user[..], ARG_BASE, pages.Args(), p, Flat(all));
    var memory := new UserMemory(user);
    sp := memory.CreateTables(ARG_BASE + p, argc, |envp|, all);
    if !Shifted(argv, script) {
      assert all[..argc] == args && all[argc..argc + |envp|] == envp;
    }
  }

  lemma BytesInside(u: seq<Byte>, a: nat, c: seq<Byte>, p: nat, b: seq<Byte>)
    requires Bytes(u, a, c) && Bytes(c, p, b)
    ensures Bytes(u, a + p, b)
  {
    forall k: nat | k < |b| ensures u[a + p + k] == b[k] {
      assert u[a + (p + k)] == c[p + k];
    }
  }

  // ---------------------------------------------------------------- inputs for which it fails

  /** A machine with 32 free frames and an empty program memory. */
  method Machine() returns (mem: array<Byte>, free: seq<nat>, user: array<Byte>)
    ensures fresh(mem) && fresh(user) && user != mem && user.Length == DATA_LIMIT && |free| == MAX_ARG_PAGES
    ensures PagesOk(seq(MAX_ARG_PAGES, _ => 0), mem[..], free)
    ensures forall a: nat | a < DATA_LIMIT :: user[a] == 0
  {
    mem := new Byte[33 * PAGE_SIZE](_ => 0);
    user := new Byte[DATA_LIMIT](_ => 0);
    free := seq(MAX_ARG_PAGES, (i: nat) => i + 1);
    forall k: nat | k < |free| ensures FrameOk(mem[..], free[k]) {
      assert free[k] == k + 1;
    }
  }

  function Repeated(n: nat): (s: CString)
    ensures |s| == n
  {
    seq(n, _ => 1)
  }

  lemma TotalTwo(a: seq<CString>, b: seq<CString>)
    ensures Total([a, b]) == |Flat(a)| + |Flat(b)|
    ensures Lands([a, b]) <==> |Flat(a)| == ARG_TOP || |Flat(a)| + |Flat(b)| == ARG_TOP
  {
    TotalMore([], a);
    TotalMore([a], b);
    assert [] + [a] == [a] && [a] + [b] == [a, b];
  }

  /** One argument of 128 kB. */
  method TooLong() returns (out: Outcome)
    ensures out.Crashed?
  {
    var mem, free, user := Machine();
    var argv := [Repeated(ARG_BYTES)];
    FlatOne(argv[0]);
    TotalTwo([], argv);
    assert Groups(argv, [], Binary) == [[], argv];
    out := Execve(argv, [], Binary, mem, free, user);
  }

  /** The script "b", to be interpreted by "a", run with no argument and the environment "c": it gets
      its own name as environment. */
  method NoArguments() returns (out: Outcome, user: array<Byte>)
    ensures user.Length == DATA_LIMIT && out.Started?
    ensures Receives(user[..], out.sp, [[97]], [[98]]) && !Receives(user[..], out.sp, [[97], [98]], [[99]])
  {
    var mem, free;
    mem, free, user := Machine();
    var a: CString, b: CString, c: CString := [97], [98], [99];
    var script := Interpreted(a, None, b);
    FlatOne(a);
    FlatOne(b);
    FlatOne(c);
    FlatJoined([a], [b]);
    FlatJoined([a, b], [c]);
    assert [a] + [b] == [a, b] && [a, b] + [c] == [a, b, c];
    assert ProgramArgs([], script) == [a, b] && [a, b, c][..1] == [a] && [a, b, c][1..2] == [b];
    out := Execve([], [c], script, mem, free, user);
  }
}
