/**
 fs/buffer.c as a state machine: every stretch of getblk, get_hash_table, bread, brelse and
 free_block between two sleeps is one step, and so is everything a block device does. Any call may run
 between any two steps of another. The cache refines a plain disk on which writes are immediate.
 */
module BufferMachine {

  type Data = seq<int>

  /** A block of a device. Device 0 is "no device". */
  datatype Key = Key(dev: nat, block: nat)

  /** The request in progress for a locked buffer: its owner still looks for a request slot, or
      the request is in the device's queue. */
  datatype Io = Idle | AskRead | AskWrite | Reading | Writing

  /** A buffer head and its data. */
  datatype Buf = Buf(key: Key, count: nat, dirt: bool, lock: bool, uptodate: bool, data: Data, io: Io)

  /** Where a call sleeps, or what it holds. */
  datatype Pc =
    | Begin(key: Key)                  // at `repeat`
    | WaitHash(key: Key, b: nat)       // get_hash_table counted b and sleeps in wait_on_buffer
    | WaitFree(key: Key)               // sleeps on buffer_wait
    | WaitVictim(key: Key, b: nat)     // chose b, sleeps in wait_on_buffer
    | Syncing(key: Key, b: nat)        // inside sync_dev
    | WaitSynced(key: Key, b: nat)     // back from sync_dev, in wait_on_buffer
    | Has(key: Key, b: nat)            // getblk returned b
    | WaitRead(key: Key, b: nat)       // bread has asked for b and sleeps
    | Releasing(key: Key, b: nat)      // brelse, in wait_on_buffer

  /** `disk` is the medium; a block never written reads as empty. */
  datatype State = State(bufs: seq<Buf>, calls: map<nat, Pc>, disk: map<Key, Data>)

  predicate Holds(pc: Pc, b: nat) {
    match pc
    case WaitHash(_, x) => x == b
    case Has(_, x) => x == b
    case WaitRead(_, x) => x == b
    case Releasing(_, x) => x == b
    case _ => false
  }

  /** The calls that own a share of buffer b. */
  ghost function Holders(s: State, b: nat): set<nat> {
    set id | id in s.calls && Holds(s.calls[id], b)
  }

  /** find_buffer may return b. */
  predicate Cached(s: State, key: Key, b: nat) {
    b < |s.bufs| && s.bufs[b].key == key
  }

  ghost predicate Absent(s: State, key: Key) {
    forall b: nat :: !Cached(s, key, b)
  }

  function DiskAt(s: State, key: Key): Data {
    if key in s.disk then s.disk[key] else []
  }

  // ---------------------------------------------------------------- steps

  datatype Step =
    | Call(id: nat, key: Key)
    | Find(id: nat, b: nat)           // get_hash_table finds b
    | NoVictim(id: nat)               // every buffer is in use
    | Choose(id: nat, b: nat)         // the scan of the free list ends with b
    | Resume(id: nat)                 // the sleeper goes on
    | LockWrite(b: nat)               // ll_rw_block(WRITE), by sync_dev or sys_sync
    | Read(id: nat)                   // bread calls ll_rw_block(READ)
    | Queue(b: nat)                   // add_request
    | Complete(b: nat, torn: Data)    // end_request
    | Modify(id: nat, data: Data)     // a holder changes the block and marks it dirty
    | Fill(id: nat, data: Data)       // new_block sets the whole block without reading it
    | Release(id: nat)                // brelse
    | Missing(id: nat)                // free_block's get_hash_table finds nothing
    | Discard(id: nat)                // free_block is the only holder: neither dirty nor valid

  /** BADNESS. */
  function Badness(b: Buf): nat {
    (if b.dirt then 2 else 0) + (if b.lock then 1 else 0)
  }

  /** The scan ends with an unused buffer of least badness. */
  ghost predicate Victim(s: State, b: nat) {
    b < |s.bufs| && s.bufs[b].count == 0
    && forall x: nat | x < |s.bufs| && s.bufs[x].count == 0 :: Badness(s.bufs[b]) <= Badness(s.bufs[x])
  }

  /** Call id is at a point of kind Has. */
  predicate HasBuffer(s: State, id: nat) {
    id in s.calls && s.calls[id].Has? && s.calls[id].b < |s.bufs|
  }

  /** wait_on_buffer returns only when the buffer is unlocked. */
  predicate CanResume(s: State, id: nat) {
    id in s.calls &&
    match s.calls[id]
    case Begin(_) => false
    case WaitFree(_) => true
    case Syncing(_, b) => b < |s.bufs|
    case Has(_, b) => false
    case WaitHash(_, b) => b < |s.bufs| && !s.bufs[b].lock
    case WaitVictim(_, b) => b < |s.bufs| && !s.bufs[b].lock
    case WaitSynced(_, b) => b < |s.bufs| && !s.bufs[b].lock
    case WaitRead(_, b) => b < |s.bufs| && !s.bufs[b].lock
    case Releasing(_, b) => b < |s.bufs| && !s.bufs[b].lock
  }

  ghost predicate Enabled(s: State, a: Step) {
    match a
    case Call(id, key) => id !in s.calls && key.dev != 0
    case Find(id, b) => id in s.calls && s.calls[id].Begin? && Cached(s, s.calls[id].key, b)
    case NoVictim(id) =>
      && id in s.calls && s.calls[id].Begin? && Absent(s, s.calls[id].key)
      && forall b: nat | b < |s.bufs| :: s.bufs[b].count > 0
    case Choose(id, b) => id in s.calls && s.calls[id].Begin? && Absent(s, s.calls[id].key) && Victim(s, b)
    case Resume(id) => CanResume(s, id)
    case LockWrite(b) => b < |s.bufs| && !s.bufs[b].lock && s.bufs[b].dirt
    case Read(id) => HasBuffer(s, id) && !s.bufs[s.calls[id].b].lock
    case Queue(b) => b < |s.bufs| && (s.bufs[b].io.AskRead? || s.bufs[b].io.AskWrite?)
    case Complete(b, torn) => b < |s.bufs| && (s.bufs[b].io.Reading? || s.bufs[b].io.Writing?)
    case Modify(id, data) => HasBuffer(s, id) && s.bufs[s.calls[id].b].uptodate
    case Fill(id, data) => HasBuffer(s, id) && !s.bufs[s.calls[id].b].lock
    case Release(id) => HasBuffer(s, id)
    case Missing(id) => id in s.calls && s.calls[id].Begin? && Absent(s, s.calls[id].key)
    case Discard(id) => HasBuffer(s, id) && !s.bufs[s.calls[id].b].lock && s.bufs[s.calls[id].b].count == 1
  }

  function SetPc(s: State, id: nat, pc: Pc): State {
    State(s.bufs, s.calls[id := pc], s.disk)
  }

  function SetBuf(s: State, b: nat, x: Buf): State
    requires b < |s.bufs|
  {
    State(s.bufs[b := x], s.calls, s.disk)
  }

  function AddCount(x: Buf): Buf {
    x.(count := x.count + 1)
  }

  function SubCount(x: Buf): Buf {
    x.(count := if x.count == 0 then 0 else x.count - 1)
  }

  /** What follows the wait for the chosen buffer, once it is unlocked: start over if somebody
      uses it, write it out if it is dirty, start over if the block has appeared meanwhile, and
      only then take it. */
  ghost function Settle(s: State, id: nat, key: Key, b: nat): State
    requires b < |s.bufs|
  {
    var x := s.bufs[b];
    if x.count > 0 then SetPc(s, id, Begin(key))
    else if x.dirt then SetPc(s, id, Syncing(key, b))
    else if !Absent(s, key) then SetPc(s, id, Begin(key))
    else SetPc(SetBuf(s, b, Buf(key, 1, false, x.lock, false, x.data, x.io)), id, Has(key, b))
  }

  ghost function Resumed(s: State, id: nat): State
    requires CanResume(s, id)
  {
    match s.calls[id]
    case WaitHash(key, b) =>
      if s.bufs[b].key == key then SetPc(s, id, Has(key, b))
      else SetPc(SetBuf(s, b, SubCount(s.bufs[b])), id, Begin(key))
    case WaitFree(key) => SetPc(s, id, Begin(key))
    case WaitVictim(key, b) => Settle(s, id, key, b)
    case Syncing(key, b) => SetPc(s, id, WaitSynced(key, b))
    case WaitSynced(key, b) => Settle(s, id, key, b)
    case WaitRead(key, b) => SetPc(s, id, if s.bufs[b].uptodate then Has(key, b) else Releasing(key, b))
    case Releasing(key, b) =>
      var n := SetBuf(s, b, SubCount(s.bufs[b]));
      State(n.bufs, n.calls - {id}, n.disk)
  }

  /** end_request: the data reaches memory or the medium and the buffer is unlocked. What a write
      leaves on the medium is arbitrary if the buffer was changed while it was in progress. */
  function Completed(s: State, b: nat, torn: Data): State
    requires b < |s.bufs|
  {
    var x := s.bufs[b];
    if x.io.Reading? then
      SetBuf(s, b, Buf(x.key, x.count, x.dirt, false, true, DiskAt(s, x.key), Idle))
    else
      State(s.bufs[b := Buf(x.key, x.count, x.dirt, false, true, x.data, Idle)], s.calls,
            s.disk[x.key := if x.dirt then torn else x.data])
  }

  ghost function Next(s: State, a: Step): State
    requires Enabled(s, a)
  {
    match a
    case Call(id, key) => SetPc(s, id, Begin(key))
    case Find(id, b) =>
      var key := s.calls[id].key;
      SetPc(SetBuf(s, b, AddCount(s.bufs[b])), id, if s.bufs[b].lock then WaitHash(key, b) else Has(key, b))
    case NoVictim(id) => SetPc(s, id, WaitFree(s.calls[id].key))
    case Choose(id, b) =>
      if s.bufs[b].lock then SetPc(s, id, WaitVictim(s.calls[id].key, b)) else Settle(s, id, s.calls[id].key, b)
    case Resume(id) => Resumed(s, id)
    case LockWrite(b) => SetBuf(s, b, s.bufs[b].(lock := true).(io := AskWrite))
    case Read(id) =>
      var Has(key, b) := s.calls[id];
      var n := if s.bufs[b].uptodate then s else SetBuf(s, b, s.bufs[b].(lock := true).(io := AskRead));
      SetPc(n, id, WaitRead(key, b))
    case Queue(b) =>
      SetBuf(s, b, s.bufs[b].(dirt := false).(io := if s.bufs[b].io.AskRead? then Reading else Writing))
    case Complete(b, torn) => Completed(s, b, torn)
    case Modify(id, data) => SetBuf(s, s.calls[id].b, s.bufs[s.calls[id].b].(data := data).(dirt := true))
    case Fill(id, data) =>
      SetBuf(s, s.calls[id].b, s.bufs[s.calls[id].b].(data := data).(dirt := true).(uptodate := true))
    case Release(id) => SetPc(s, id, Releasing(s.calls[id].key, s.calls[id].b))
    case Missing(id) => State(s.bufs, s.calls - {id}, s.disk)
    case Discard(id) => SetBuf(s, s.calls[id].b, s.bufs[s.calls[id].b].(dirt := false).(uptodate := false))
  }

  // ---------------------------------------------------------------- invariant

  /** No two buffers carry the same block. */
  ghost predicate Unique(s: State) {
    forall key: Key, b: nat, c: nat | key.dev != 0 && Cached(s, key, b) && Cached(s, key, c) :: b == c
  }

  /** b_count is the number of calls that hold the buffer. */
  ghost predicate Counted(s: State) {
    forall b: nat | b < |s.bufs| :: s.bufs[b].count == |Holders(s, b)|
  }

  /** A call asks for a block of a device, the buffer it sleeps on exists, a buffer it holds is of
      the block it asked for, and one it waits to be read is valid or being read. */
  predicate PcOk(s: State, pc: Pc) {
    && pc.key.dev != 0
    && (pc.Begin? || pc.WaitFree? || pc.b < |s.bufs|)
    && (pc.WaitHash? || pc.Has? || pc.WaitRead? || pc.Releasing? ==> s.bufs[pc.b].key == pc.key)
    && (pc.WaitRead? ==> s.bufs[pc.b].uptodate || s.bufs[pc.b].io.AskRead? || s.bufs[pc.b].io.Reading?)
  }

  ghost predicate Rightful(s: State) {
    forall id | id in s.calls :: PcOk(s, s.calls[id])
  }

  ghost predicate BufOk(x: Buf) {
    && (x.lock <==> x.io != Idle)
    && (x.io.AskRead? || x.io.Reading? ==> !x.uptodate)
    && (x.io.AskWrite? ==> x.dirt) && (x.io.Writing? ==> x.uptodate)
    && (x.dirt ==> x.uptodate) && (x.uptodate || x.lock ==> x.key.dev != 0)
  }

  /** A buffer that is up to date, clean and not being written equals the medium. */
  ghost predicate Clean(s: State, b: nat)
    requires b < |s.bufs|
  {
    var x := s.bufs[b];
    x.uptodate && !x.dirt && !x.io.Writing? ==> x.data == DiskAt(s, x.key)
  }

  ghost predicate BufsOk(s: State) {
    forall b: nat | b < |s.bufs| :: BufOk(s.bufs[b])
  }

  ghost predicate AllClean(s: State) {
    forall b: nat | b < |s.bufs| :: Clean(s, b)
  }

  ghost predicate Inv(s: State) {
    Unique(s) && Counted(s) && Rightful(s) && BufsOk(s) && AllClean(s)
  }

  ghost predicate Init(s: State) {
    && s.calls == map[]
    && forall b: nat | b < |s.bufs| :: s.bufs[b] == Buf(Key(0, 0), 0, false, false, false, [], Idle)
  }

  lemma InitInv(s: State)
    requires Init(s)
    ensures Inv(s)
  {
    forall b: nat | b < |s.bufs| ensures |Holders(s, b)| == 0 {
      assert Holders(s, b) == {};
    }
  }

  // ---------------------------------------------------------------- holders

  function Share(pc: Pc, b: nat): nat {
    if Holds(pc, b) then 1 else 0
  }

  function ShareOf(s: State, id: nat, b: nat): nat {
    if id in s.calls then Share(s.calls[id], b) else 0
  }

  lemma WithoutCard(h: set<nat>, id: nat)
    ensures |h| == |h - {id}| + if id in h then 1 else 0
  {
    if id in h {
      assert h == (h - {id}) + {id};
    } else {
      assert h == h - {id};
    }
  }

  /** A call moves on: the holders of a buffer change by its own share only. */
  lemma MovedCard(s: State, n: State, id: nat, b: nat)
    requires forall x | x != id :: (x in s.calls <==> x in n.calls)
    requires forall x | x != id && x in s.calls :: n.calls[x] == s.calls[x]
    ensures |Holders(n, b)| + ShareOf(s, id, b) == |Holders(s, b)| + ShareOf(n, id, b)
  {
    assert Holders(n, b) - {id} == Holders(s, b) - {id};
    WithoutCard(Holders(n, b), id);
    WithoutCard(Holders(s, b), id);
  }

  lemma CountedMoved(s: State, n: State, id: nat)
    requires Counted(s) && |n.bufs| == |s.bufs|
    requires forall x | x != id :: (x in s.calls <==> x in n.calls)
    requires forall x | x != id && x in s.calls :: n.calls[x] == s.calls[x]
    requires forall b: nat | b < |s.bufs| :: n.bufs[b].count + ShareOf(s, id, b) == s.bufs[b].count + ShareOf(n, id, b)
    ensures Counted(n)
  {
    forall b: nat | b < |n.bufs| ensures n.bufs[b].count == |Holders(n, b)| {
      MovedCard(s, n, id, b);
    }
  }

  /** Whoever holds a buffer is counted in it. */
  lemma HolderCounted(s: State, id: nat)
    requires Counted(s) && id in s.calls
    requires s.calls[id].WaitHash? || s.calls[id].Has? || s.calls[id].WaitRead? || s.calls[id].Releasing?
    requires s.calls[id].b < |s.bufs|
    ensures s.bufs[s.calls[id].b].count > 0
  {
    assert id in Holders(s, s.calls[id].b);
  }

  // ---------------------------------------------------------------- what a step touches

  /** The call that moves in a step, -1 for a step of a device or of sync. */
  function Mover(a: Step): int {
    match a
    case Call(id, _) => id
    case Find(id, _) => id
    case NoVictim(id) => id
    case Choose(id, _) => id
    case Resume(id) => id
    case LockWrite(_) => -1
    case Read(id) => id
    case Queue(_) => -1
    case Complete(_, _) => -1
    case Modify(id, _) => id
    case Fill(id, _) => id
    case Release(id) => id
    case Missing(id) => id
    case Discard(id) => id
  }

  /** The only buffer a step may change, -1 if it changes none. */
  function Target(s: State, a: Step): int {
    match a
    case Call(id, _) => -1
    case Find(id, b) => b
    case NoVictim(id) => -1
    case Choose(id, b) => b
    case Resume(id) => if id in s.calls && !s.calls[id].Begin? && !s.calls[id].WaitFree? then s.calls[id].b else -1
    case LockWrite(b) => b
    case Read(id) => if id in s.calls && s.calls[id].Has? then s.calls[id].b else -1
    case Queue(b) => b
    case Complete(b, _) => b
    case Modify(id, _) => if id in s.calls && s.calls[id].Has? then s.calls[id].b else -1
    case Fill(id, _) => if id in s.calls && s.calls[id].Has? then s.calls[id].b else -1
    case Release(id) => -1
    case Missing(id) => -1
    case Discard(id) => if id in s.calls && s.calls[id].Has? then s.calls[id].b else -1
  }

  /** Everything but the target stays as it was, and only end_request writes the medium. */
  ghost predicate Framed(s: State, n: State, a: Step) {
    && |n.bufs| == |s.bufs|
    && (forall b: nat | b < |s.bufs| && b != Target(s, a) :: n.bufs[b] == s.bufs[b])
    && (n.disk == s.disk || (a.Complete? && a.b < |s.bufs| && s.bufs[a.b].io.Writing?))
  }

  /** Only the mover moves. */
  ghost predicate OthersStay(s: State, n: State, id: int) {
    && (forall x: nat | x != id :: (x in s.calls <==> x in n.calls))
    && (forall x: nat | x != id && x in s.calls :: n.calls[x] == s.calls[x])
  }

  lemma StepFramed(s: State, a: Step)
    requires Enabled(s, a)
    ensures Framed(s, Next(s, a), a)
  {}

  lemma StepOthersStay(s: State, a: Step)
    requires Enabled(s, a)
    ensures OthersStay(s, Next(s, a), Mover(a))
  {}

  /** A step takes the buffer for a new block. */
  ghost predicate Taken(s: State, x: Buf, y: Buf) {
    && x.count == 0 && !x.dirt && !x.lock && Absent(s, y.key) && y.key.dev != 0
    && y == Buf(y.key, 1, false, false, false, x.data, x.io)
  }

  /** A step throws the data of a block away, whose buffer nobody else has. */
  predicate Dropped(x: Buf, y: Buf) {
    x.count == 1 && !x.lock && y == x.(dirt := false).(uptodate := false)
  }

  /** What may happen to the target of a step: it keeps its block, or is taken for another. A
      block that is valid or about to be read stays so, unless it is thrown away. */
  ghost predicate Evolves(s: State, x: Buf, y: Buf) {
    || Taken(s, x, y)
    || Dropped(x, y)
    || (y.key == x.key && (x.uptodate || x.io.AskRead? || x.io.Reading? ==> y.uptodate || y.io.AskRead? || y.io.Reading?))
  }

  lemma TargetStep(s: State, a: Step)
    requires Rightful(s) && BufsOk(s) && Enabled(s, a) && Target(s, a) >= 0
    ensures Target(s, a) < |s.bufs|
    ensures
      var x := s.bufs[Target(s, a)];
      var y := Next(s, a).bufs[Target(s, a)];
      BufOk(y) && Evolves(s, x, y)
  {
    if Mover(a) in s.calls {
      assert PcOk(s, s.calls[Mover(a)]);
    }
    assert BufOk(s.bufs[Target(s, a)]);
  }

  // ---------------------------------------------------------------- every step keeps the invariant

  lemma UniqueStep(s: State, a: Step)
    requires Inv(s) && Enabled(s, a)
    ensures Unique(Next(s, a))
  {
    StepFramed(s, a);
    if Target(s, a) >= 0 {
      TargetStep(s, a);
    }
    forall key: Key, b: nat, c: nat | key.dev != 0 && Cached(Next(s, a), key, b) && Cached(Next(s, a), key, c)
      ensures b == c
    {
      assert Cached(s, key, b) || b == Target(s, a);
      assert Cached(s, key, c) || c == Target(s, a);
    }
  }

  lemma BufsOkStep(s: State, a: Step)
    requires Inv(s) && Enabled(s, a)
    ensures BufsOk(Next(s, a))
  {
    StepFramed(s, a);
    if Target(s, a) >= 0 {
      TargetStep(s, a);
    }
  }

  /** What a step adds to the count of b it adds to the mover's share of b. */
  ghost predicate CountFollows(s: State, n: State, id: int, b: nat)
    requires b < |s.bufs| && b < |n.bufs|
  {
    if id >= 0 then n.bufs[b].count + ShareOf(s, id, b) == s.bufs[b].count + ShareOf(n, id, b)
    else n.bufs[b].count == s.bufs[b].count
  }

  lemma ResumeCount(s: State, a: Step, b: nat)
    requires Counted(s) && Rightful(s) && Enabled(s, a) && b < |s.bufs| && a.Resume? && Framed(s, Next(s, a), a)
    ensures CountFollows(s, Next(s, a), Mover(a), b)
  {
    var pc := s.calls[a.id];
    assert PcOk(s, pc);
    if pc.WaitHash? || pc.Releasing? {
      HolderCounted(s, a.id);
    }
  }

  lemma OtherCount(s: State, a: Step, b: nat)
    requires Counted(s) && Rightful(s) && Enabled(s, a) && b < |s.bufs| && !a.Resume? && Framed(s, Next(s, a), a)
    ensures CountFollows(s, Next(s, a), Mover(a), b)
  {}

  /** In a step the count of the target changes exactly as the mover's share of it. */
  lemma CountStep(s: State, a: Step, b: nat)
    requires Counted(s) && Rightful(s) && Enabled(s, a) && b < |s.bufs|
    ensures Framed(s, Next(s, a), a) && CountFollows(s, Next(s, a), Mover(a), b)
  {
    StepFramed(s, a);
    hide Next, CountFollows, Enabled;
    if a.Resume? {
      ResumeCount(s, a, b);
    } else {
      OtherCount(s, a, b);
    }
  }

  lemma CountedStep(s: State, a: Step)
    requires Inv(s) && Enabled(s, a)
    ensures Counted(Next(s, a))
  {
    StepFramed(s, a);
    StepOthersStay(s, a);
    forall b: nat | b < |s.bufs|
      ensures
        var id := if Mover(a) >= 0 then Mover(a) else 0;
        Next(s, a).bufs[b].count + ShareOf(s, id, b) == s.bufs[b].count + ShareOf(Next(s, a), id, b)
    {
      CountStep(s, a, b);
    }
    CountedMoved(s, Next(s, a), if Mover(a) >= 0 then Mover(a) else 0);
  }

  /** Nobody else's buffer is taken away in a step. */
  lemma OtherPcStep(s: State, a: Step, id: nat)
    requires Inv(s) && Enabled(s, a) && id in s.calls && id != Mover(a)
    ensures PcOk(Next(s, a), s.calls[id])
  {
    StepFramed(s, a);
    var pc := s.calls[id];
    assert PcOk(s, pc);
    if Target(s, a) >= 0 {
      TargetStep(s, a);
      if pc.WaitHash? || pc.Has? || pc.WaitRead? || pc.Releasing? {
        HolderCounted(s, id);
        if a.Discard? && s.calls[a.id].b == pc.b {
          TwoHolders(s, id, a.id);
        }
      }
    }
  }

  /** Two calls that have a buffer are both counted. */
  lemma TwoHolders(s: State, i: nat, j: nat)
    requires Counted(s) && i != j && i in s.calls && j in s.calls && !s.calls[i].Begin? && !s.calls[i].WaitFree?
    requires HasBuffer(s, j) && Holds(s.calls[i], s.calls[j].b)
    ensures s.bufs[s.calls[j].b].count >= 2
  {
    var h := Holders(s, s.calls[j].b);
    assert h == (h - {i, j}) + {i, j};
  }

  lemma ResumePcStep(s: State, a: Step)
    requires Rightful(s) && Enabled(s, a) && a.Resume? && a.id in Next(s, a).calls
    ensures PcOk(Next(s, a), Next(s, a).calls[a.id])
  {
    assert PcOk(s, s.calls[a.id]);
  }

  lemma MoverPcStep(s: State, a: Step)
    requires Rightful(s) && Enabled(s, a) && !a.Resume? && Mover(a) in Next(s, a).calls
    ensures PcOk(Next(s, a), Next(s, a).calls[Mover(a)])
  {
    if Mover(a) in s.calls {
      assert PcOk(s, s.calls[Mover(a)]);
    }
  }

  lemma RightfulStep(s: State, a: Step)
    requires Inv(s) && Enabled(s, a)
    ensures Rightful(Next(s, a))
  {
    StepOthersStay(s, a);
    forall id | id in Next(s, a).calls ensures PcOk(Next(s, a), Next(s, a).calls[id]) {
      if id == Mover(a) {
        if a.Resume? { ResumePcStep(s, a); } else { MoverPcStep(s, a); }
      } else {
        OtherPcStep(s, a, id);
      }
    }
  }

  lemma TargetClean(s: State, a: Step)
    requires Inv(s) && Enabled(s, a) && Target(s, a) >= 0
    ensures Target(s, a) < |Next(s, a).bufs| && Clean(Next(s, a), Target(s, a))
  {
    StepFramed(s, a);
    TargetStep(s, a);
    assert BufOk(s.bufs[Target(s, a)]);
    assert Clean(s, Target(s, a));
  }

  lemma OtherClean(s: State, a: Step, b: nat)
    requires Inv(s) && Enabled(s, a) && b != Target(s, a) && b < |s.bufs|
    ensures b < |Next(s, a).bufs| && Clean(Next(s, a), b)
  {
    StepFramed(s, a);
    assert Clean(s, b) && BufOk(s.bufs[b]);
    if a.Complete? && s.bufs[a.b].io.Writing? {
      assert BufOk(s.bufs[a.b]);
      assert Cached(s, s.bufs[a.b].key, a.b) && Cached(s, s.bufs[b].key, b);
    }
  }

  lemma CleanStep(s: State, a: Step)
    requires Inv(s) && Enabled(s, a)
    ensures AllClean(Next(s, a))
  {
    StepFramed(s, a);
    forall b: nat | b < |Next(s, a).bufs| ensures Clean(Next(s, a), b) {
      if b == Target(s, a) {
        TargetClean(s, a);
      } else {
        OtherClean(s, a, b);
      }
    }
  }

  /** The invariant survives every interleaving. */
  lemma StepKeeps(s: State, a: Step)
    requires Inv(s) && Enabled(s, a)
    ensures Inv(Next(s, a))
  {
    UniqueStep(s, a);
    CountedStep(s, a);
    RightfulStep(s, a);
    BufsOkStep(s, a);
    CleanStep(s, a);
  }

  // ---------------------------------------------------------------- what getblk, bread and brelse rely on

  /** A buffer in use keeps its block, whatever runs. */
  lemma HeldKeepsItsBlock(s: State, a: Step, b: nat)
    requires Inv(s) && Enabled(s, a) && b < |s.bufs| && s.bufs[b].count > 0
    ensures b < |Next(s, a).bufs| && Next(s, a).bufs[b].key == s.bufs[b].key
  {
    StepFramed(s, a);
    if b == Target(s, a) {
      TargetStep(s, a);
    }
  }

  /** get_hash_table's test after its sleep never fails, brelse never finds the count at zero, and
      bread never returns NULL. */
  lemma SleepersFindWhatTheyLeft(s: State, id: nat)
    requires Inv(s) && CanResume(s, id)
    ensures s.calls[id].WaitHash? ==> Resumed(s, id) == SetPc(s, id, Has(s.calls[id].key, s.calls[id].b))
    ensures s.calls[id].WaitRead? ==> Resumed(s, id) == SetPc(s, id, Has(s.calls[id].key, s.calls[id].b))
    ensures s.calls[id].Releasing? ==> s.bufs[s.calls[id].b].count > 0
  {
    var pc := s.calls[id];
    assert PcOk(s, pc);
    if pc.WaitHash? || pc.WaitRead? || pc.Releasing? {
      HolderCounted(s, id);
      assert BufOk(s.bufs[pc.b]);
    }
  }

  /** Two calls that have buffers of the same block share one buffer, and calls that have buffers
      of different blocks do not share. */
  lemma OneBufferABlock(s: State, i: nat, j: nat)
    requires Inv(s) && HasBuffer(s, i) && HasBuffer(s, j)
    ensures s.bufs[s.calls[i].b].key == s.calls[i].key
    ensures s.calls[i].b == s.calls[j].b <==> s.calls[i].key == s.calls[j].key
  {
    assert PcOk(s, s.calls[i]) && PcOk(s, s.calls[j]);
    assert Cached(s, s.calls[i].key, s.calls[i].b) && Cached(s, s.calls[j].key, s.calls[j].b);
  }

  // ---------------------------------------------------------------- the disk the cache stands for

  predicate Valid(s: State, key: Key, b: nat) {
    Cached(s, key, b) && s.bufs[b].uptodate
  }

  /** What a block contains: the valid copy in memory if there is one, or else the medium. */
  ghost function Contents(s: State, key: Key): Data {
    if exists b: nat :: Valid(s, key, b) then
      var b: nat :| Valid(s, key, b);
      s.bufs[b].data
    else
      DiskAt(s, key)
  }

  /** Step a stores data in a block. */
  predicate Stores(s: State, a: Step, key: Key) {
    (a.Modify? || a.Fill?) && HasBuffer(s, a.id) && s.calls[a.id].key == key
  }

  /** Step a throws the data of a block away. */
  predicate Drops(s: State, a: Step, key: Key) {
    a.Discard? && HasBuffer(s, a.id) && s.calls[a.id].key == key
  }

  /** What a block contains after a step, from what it contained before: a store is visible at once,
      a freed block has what is on the medium, and nothing else makes a difference. */
  ghost function Updated(s: State, a: Step, key: Key, d: Data): Data {
    if Stores(s, a, key) then a.data else if Drops(s, a, key) then DiskAt(s, key) else d
  }

  lemma ContentsValid(s: State, key: Key, b: nat)
    requires Unique(s) && key.dev != 0 && Valid(s, key, b)
    ensures Contents(s, key) == s.bufs[b].data
  {
    forall c: nat | Valid(s, key, c) ensures c == b {
      assert Cached(s, key, b) && Cached(s, key, c);
    }
  }

  lemma ContentsOnMedium(s: State, key: Key, b: nat)
    requires Unique(s) && key.dev != 0 && Cached(s, key, b) && !s.bufs[b].uptodate
    ensures Contents(s, key) == DiskAt(s, key)
  {
    forall c: nat ensures !Valid(s, key, c) {
      assert Cached(s, key, b) && (Cached(s, key, c) ==> c == b);
    }
  }

  lemma DiskStep(s: State, a: Step, key: Key)
    requires Inv(s) && Enabled(s, a) && key.dev != 0
    requires a.Complete? ==> a.b < |s.bufs| && (s.bufs[a.b].key == key ==> s.bufs[a.b].io.Reading?)
    ensures DiskAt(Next(s, a), key) == DiskAt(s, key)
  {}

  /** The block is in the target and stays there. */
  lemma TargetContents(s: State, a: Step, key: Key, b: nat)
    requires Inv(s) && Enabled(s, a) && key.dev != 0 && Cached(s, key, b) && Cached(Next(s, a), key, b)
    requires b == Target(s, a)
    ensures Contents(Next(s, a), key) == Updated(s, a, key, Contents(s, key))
  {
    var n := Next(s, a);
    UniqueStep(s, a);
    StepFramed(s, a);
    TargetStep(s, a);
    if Mover(a) in s.calls {
      assert PcOk(s, s.calls[Mover(a)]);
    }
    assert BufOk(s.bufs[b]);
    if s.bufs[b].uptodate {
      ContentsValid(s, key, b);
    } else {
      ContentsOnMedium(s, key, b);
    }
    if n.bufs[b].uptodate {
      ContentsValid(n, key, b);
    } else {
      ContentsOnMedium(n, key, b);
    }
  }

  /** The buffer of a block is taken for another block: its data is on the medium. */
  lemma EvictedContents(s: State, a: Step, key: Key, b: nat)
    requires Inv(s) && Enabled(s, a) && key.dev != 0 && Cached(s, key, b) && !Cached(Next(s, a), key, b)
    ensures !Stores(s, a, key) && !Drops(s, a, key) && Contents(Next(s, a), key) == Contents(s, key)
  {
    StepFramed(s, a);
    TargetStep(s, a);
    var n := Next(s, a);
    assert Clean(s, b) && BufOk(s.bufs[b]);
    forall c: nat ensures !Valid(n, key, c) {
      if Cached(n, key, c) {
        assert Cached(s, key, c) && Cached(s, key, b);
      }
    }
    if s.bufs[b].uptodate {
      ContentsValid(s, key, b);
    } else {
      ContentsOnMedium(s, key, b);
    }
  }

  /** The block was in no buffer, or stays in a buffer that the step does not touch. */
  lemma ElsewhereContents(s: State, a: Step, key: Key)
    requires Inv(s) && Enabled(s, a) && key.dev != 0
    requires forall b: nat | Cached(s, key, b) :: b != Target(s, a) && Cached(Next(s, a), key, b)
    ensures !Stores(s, a, key) && !Drops(s, a, key) && Contents(Next(s, a), key) == Contents(s, key)
  {
    var n := Next(s, a);
    UniqueStep(s, a);
    StepFramed(s, a);
    if Target(s, a) >= 0 {
      TargetStep(s, a);
      assert !Cached(s, key, Target(s, a));
    }
    if Mover(a) in s.calls {
      assert PcOk(s, s.calls[Mover(a)]);
    }
    DiskStep(s, a, key);
    if b: nat :| Valid(s, key, b) {
      ContentsValid(s, key, b);
      ContentsValid(n, key, b);
    } else {
      forall b: nat ensures !Valid(n, key, b) {
        if b != Target(s, a) && Cached(n, key, b) {
          assert Cached(s, key, b) && !Valid(s, key, b);
        }
      }
    }
  }

  /** No step but a store and the freeing of a block changes the contents of any block: reading,
      writing back, evicting and taking a buffer do not. */
  lemma ContentsStep(s: State, a: Step, key: Key)
    requires Inv(s) && Enabled(s, a) && key.dev != 0
    ensures Contents(Next(s, a), key) == Updated(s, a, key, Contents(s, key))
  {
    if b: nat :| Cached(s, key, b) && !Cached(Next(s, a), key, b) {
      EvictedContents(s, a, key, b);
    } else if Target(s, a) >= 0 && Cached(s, key, Target(s, a)) {
      TargetContents(s, a, key, Target(s, a));
    } else {
      ElsewhereContents(s, a, key);
    }
  }

  /** bread returns the contents of the block. */
  lemma ReadSees(s: State, id: nat)
    requires Inv(s) && HasBuffer(s, id) && s.bufs[s.calls[id].b].uptodate
    ensures s.bufs[s.calls[id].b].data == Contents(s, s.calls[id].key)
  {
    assert PcOk(s, s.calls[id]);
    ContentsValid(s, s.calls[id].key, s.calls[id].b);
  }

  // ---------------------------------------------------------------- whole runs

  ghost predicate Possible(s: State, run: seq<Step>)
    decreases |run|
  {
    run == [] || (Enabled(s, run[0]) && Possible(Next(s, run[0]), run[1..]))
  }

  ghost function After(s: State, run: seq<Step>): State
    requires Possible(s, run)
    decreases |run|
  {
    if run == [] then s else After(Next(s, run[0]), run[1..])
  }

  /** The reference: a disk on which a store takes effect at once, and nothing else but the freeing
      of a block does anything. */
  ghost function LastStored(s: State, run: seq<Step>, key: Key, d: Data): Data
    requires Possible(s, run)
    decreases |run|
  {
    if run == [] then d
    else LastStored(Next(s, run[0]), run[1..], key, Updated(s, run[0], key, d))
  }

  lemma {:induction false} RunKeeps(s: State, run: seq<Step>)
    requires Inv(s) && Possible(s, run)
    ensures Inv(After(s, run))
    decreases |run|
  {
    if run != [] {
      StepKeeps(s, run[0]);
      RunKeeps(Next(s, run[0]), run[1..]);
    }
  }

  /** Whatever the interleaving, a block contains what was last stored in it, or since it was last
      freed what the medium held then. */
  lemma {:induction false} RunRefines(s: State, run: seq<Step>, key: Key)
    requires Inv(s) && Possible(s, run) && key.dev != 0
    ensures Contents(After(s, run), key) == LastStored(s, run, key, Contents(s, key))
    decreases |run|
  {
    if run != [] {
      ContentsStep(s, run[0], key);
      StepKeeps(s, run[0]);
      RunRefines(Next(s, run[0]), run[1..], key);
    }
  }

  /** After buffer_init, a call that bread has served sees what was last stored in its block, or
      what the medium held when the system started. */
  lemma ReadAfterWrite(s: State, run: seq<Step>, id: nat)
    requires Init(s) && Possible(s, run)
    requires HasBuffer(After(s, run), id)
    requires After(s, run).bufs[After(s, run).calls[id].b].uptodate
    ensures
      var n := After(s, run);
      n.bufs[n.calls[id].b].data == LastStored(s, run, n.calls[id].key, DiskAt(s, n.calls[id].key))
  {
    InitInv(s);
    RunKeeps(s, run);
    var n := After(s, run);
    var key := n.calls[id].key;
    assert PcOk(n, n.calls[id]);
    ReadSees(n, id);
    RunRefines(s, run, key);
    assert forall b: nat | b < |s.bufs| :: !s.bufs[b].uptodate;
    assert forall b: nat :: !Valid(s, key, b);
  }

  /** When sync has left no buffer dirty or being written, the medium has the contents of every
      block: every store survives on the medium alone. */
  lemma SyncedMedium(s: State, run: seq<Step>, key: Key)
    requires Inv(s) && Possible(s, run) && key.dev != 0
    requires forall b: nat | b < |After(s, run).bufs| ::
      !After(s, run).bufs[b].dirt && !After(s, run).bufs[b].io.Writing?
    ensures DiskAt(After(s, run), key) == LastStored(s, run, key, Contents(s, key))
  {
    RunKeeps(s, run);
    RunRefines(s, run, key);
    var n := After(s, run);
    if b: nat :| Valid(n, key, b) {
      ContentsValid(n, key, b);
      assert Clean(n, b);
    }
  }
}
