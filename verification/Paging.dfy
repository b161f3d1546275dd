/**
 mm/memory.c, kernel/fork.c and the memory half of kernel/exit.c: the routines themselves, over
 mem_map, physical memory and task[] updated in place.
 */
module Paging {
  import opened Frames
  import opened FrameSteps
  import opened EagerSpaces
  import opened PageTables
  import opened PageFaults
  import opened FreePages
  import opened DirtyPages
  import opened Traps

  class Memory {
    const memMap: array<nat>
    const mem: array<Page>
    const task: array<Task>
    const lo: nat
    const high: nat
    var halted: bool
    /** The abstract value of the fields above, with the pages handed out and not yet stored. */
    ghost var s: Machine

    ghost predicate Valid()
      reads this, memMap, mem, task
    {
      && memMap.Length == PAGING_PAGES && mem.Length == FRAMES && task.Length == NR_TASKS
      && s.counts == memMap[..] && s.mem == mem[..] && s.task == task[..] && s.lo == lo && s.high == high
      && s.halted == halted
    }

    /** mem_init, on top of the tables that head.s builds: main memory is [start, end). */
    constructor (start: nat, end: nat)
      requires LOW <= start <= end <= FRAMES
      ensures Valid() && fresh(memMap) && fresh(mem) && fresh(task) && s == Boot(start, end) && Sound(s)
    {
      lo, high, halted := start, end, false;
      mem := new Page[FRAMES](f => BootPage(f));
      task := new Task[NR_TASKS](t => BootTask(t));
      memMap := new nat[PAGING_PAGES];
      new;
      for i := 0 to PAGING_PAGES
        invariant forall k | 0 <= k < i :: memMap[k] == USED
        invariant !halted && mem[..] == Boot(start, end).mem && task[..] == Boot(start, end).task
      {
        memMap[i] := USED;
      }
      for i := start - LOW to end - LOW
        invariant forall k | 0 <= k < PAGING_PAGES :: memMap[k] == if start - LOW <= k < i then 0 else USED
        invariant !halted && mem[..] == Boot(start, end).mem && task[..] == Boot(start, end).task
      {
        memMap[i] := 0;
      }
      s := Boot(start, end);
      BootSound(start, end);
      assert memMap[..] == s.counts;
    }

    /** Scans mem_map from the top; 0 when no page is free. */
    method GetFreePage() returns (f: nat)
      requires Valid()
      modifies this, memMap, mem
      ensures Valid() && f == FreePageOf(old(s)) && s == if f == 0 then old(s) else Grab(old(s), f)
    {
      var i := PAGING_PAGES;
      while i > 0
        invariant 0 <= i <= PAGING_PAGES && Valid() && s == old(s)
        invariant FreePageOf(s) == TopFree(s.counts, i)
      {
        i := i - 1;
        if memMap[i] == 0 {
          f := LOW + i;
          memMap[i] := 1;
          mem[f] := ZeroPage();
          s := Grab(s, f);
          return;
        }
      }
      f := 0;
    }

    method FreePage(f: nat)
      requires Valid()
      modifies this, memMap
      ensures Valid() && s == DropCount(old(s), f)
    {
      s := DropCount(s, f);
      if f < LOW { return; }
      if f >= high { halted := true; return; }
      if memMap[f - LOW] != 0 {
        memMap[f - LOW] := memMap[f - LOW] - 1;
        return;
      }
      memMap[f - LOW] := 0;
      halted := true;
    }

    method PutWord(f: nat, k: nat, w: Word)
      requires Valid() && f < FRAMES && k < WORDS
      modifies this, mem
      ensures Valid() && s == FrameSteps.PutWord(old(s), f, k, w)
    {
      mem[f] := mem[f][k := w];
      s := FrameSteps.PutWord(s, f, k, w);
    }

    /** Body of the inner loop of free_page_tables. A table outside memory is a wild access. */
    method ClearEntry(v: Vpage)
      requires Valid() && v.d < WORDS && v.i < WORDS
      modifies this, memMap, mem
      ensures Valid() && s == PageTables.ClearEntry(old(s), v)
    {
      var dir := mem[0][v.d];
      if !dir.present || dir.frame == 0 || dir.frame >= FRAMES {
        halted := true;
        s := Halt(s);
        return;
      }
      if mem[dir.frame][v.i].present {
        FreePage(mem[dir.frame][v.i].frame);
      }
      PutWord(dir.frame, v.i, ZERO_WORD);
    }

    /** The inner loop of free_page_tables. */
    method ClearTable(d: nat)
      requires Valid() && Sound(s) && UserDir(d) && Dir(s, d).present
      modifies this, memMap, mem
      ensures Valid() && RowCleared(old(s), s, d, WORDS) && Zeros(old(s)) <= Zeros(s) && KeepsBut(old(s), s, d, d + 1)
    {
      ghost var m := s;
      RowClearedStart(m, d);
      for nr := 0 to WORDS
        invariant Valid() && RowCleared(m, s, d, nr) && Zeros(m) <= Zeros(s) && KeepsBut(m, s, d, d + 1)
      {
        ClearDirty(m, s, d, nr);
        RowClearedStep(m, s, d, nr);
        ClearEntryFrees(s, Vpage(d, nr));
        ClearEntry(Vpage(d, nr));
      }
    }

    /** One round of the outer loop of free_page_tables. */
    method FreeDir(d: nat)
      requires Valid() && Sound(s) && UserDir(d)
      modifies this, memMap, mem
      ensures Valid() && DirFreed(old(s), s, d) && Zeros(old(s)) <= Zeros(s) && KeepsBut(old(s), s, d, d + 1)
    {
      if !mem[0][d].present {
        DirAbsent(s, d);
        return;
      }
      ghost var m := s;
      ClearTable(d);
      RowClearedEnd(m, s, d);
      ghost var x := s;
      UnhangFrees(x, d);
      UnhangDirty(m, x, d);
      FreePage(mem[0][d].frame);
      PutWord(0, d, ZERO_WORD);
      assert s == UnhangTable(x, d);
    }

    method FreePageTables(from: nat, size: nat)
      requires Valid() && Sound(s) && from / 0x400000 + Dirs(size) <= WORDS && (from == 0 || UserDir(from / 0x400000))
      modifies this, memMap, mem
      ensures Valid()
      ensures if from % 0x400000 != 0 || from == 0 then s == Halt(old(s))
              else DirsFreed(old(s), s, from / 0x400000, from / 0x400000 + Dirs(size)) && Zeros(old(s)) <= Zeros(s)
                   && KeepsBut(old(s), s, from / 0x400000, from / 0x400000 + Dirs(size))
    {
      if from % 0x400000 != 0 || from == 0 {
        halted := true;
        s := Halt(s);
        return;
      }
      FreeDirs(from / 0x400000, Dirs(size));
    }

    method FreeDirs(dir: nat, size: nat)
      requires Valid() && Sound(s) && UserDir(dir) && dir + size <= WORDS
      modifies this, memMap, mem
      ensures Valid() && DirsFreed(old(s), s, dir, dir + size) && Zeros(old(s)) <= Zeros(s)
      ensures KeepsBut(old(s), s, dir, dir + size)
    {
      hide DirsFreed, Freeing, KeepsBut, Zeros, Sound, Seal;
      ghost var m := s;
      FreeingStart(m, dir, dir + size);
      for d := dir to dir + size
        invariant Valid() && Freeing(m, s, dir, d, dir + size)
      {
        FreeNext(m, dir, d, dir + size);
      }
      FreeingOpen(m, s, dir, dir + size, dir + size);
    }

    method FreeNext(ghost m: Machine, ghost dir: nat, d: nat, ghost end: nat)
      requires Valid() && UserDir(d) && dir <= d < end <= WORDS && Freeing(m, s, dir, d, end)
      modifies this, memMap, mem
      ensures Valid() && Freeing(m, s, dir, d + 1, end)
    {
      ghost var x := s;
      FreeingOpen(m, x, dir, d, end);
      FreeDir(d);
      FreeingStep(m, x, s, dir, d, end);
    }

    /** Body of the inner loop of copy_page_tables. */
    method CopyEntry(from: Vpage, to: Vpage)
      requires Valid() && from.d < WORDS && to.d < WORDS && from.i < WORDS && to.i == from.i
      modifies this, memMap, mem
      ensures Valid() && s == PageTables.CopyEntry(old(s), from, to)
    {
      var f, t := mem[0][from.d], mem[0][to.d];
      if !f.present || f.frame == 0 || f.frame >= FRAMES || !t.present || t.frame == 0 || t.frame >= FRAMES {
        halted := true;
        s := Halt(s);
        return;
      }
      var w := mem[f.frame][from.i];
      if !w.present { return; }
      w := w.(rw := false);
      PutWord(t.frame, to.i, w);
      if w.frame < LOW { return; }
      if w.frame >= FRAMES {
        halted := true;
        s := Halt(s);
        return;
      }
      PutWord(f.frame, from.i, w);
      memMap[w.frame - LOW] := (memMap[w.frame - LOW] + 1) % 256;
      s := PutCount(s, w.frame, (s.counts[w.frame - LOW] + 1) % 256);
    }

    /** The inner loop of copy_page_tables. */
    method CopyRow(ghost a: SpaceMap, ghost f: nat, ghost t: nat, ghost n: nat, src: nat, d: nat, nr: nat)
      requires Valid() && src < WORDS && d < WORDS && nr <= WORDS && RowContext(s, a, f, t, n, src, d, nr)
      modifies this, memMap, mem
      ensures Valid() && RowAt(old(s), s, a, f, t, d, nr) && Zeros(s) == Zeros(old(s)) && RowDirty(old(s), s, src, d, nr)
    {
      ghost var m := s;
      RowFirst(m, a, f, t, n, src, d, nr);
      for k := 0 to nr
        invariant Valid() && RowAt(m, s, a, f, t, d, k) && Zeros(s) == Zeros(m) && RowDirty(m, s, src, d, k)
      {
        CopyNext(m, a, f, t, n, src, d, nr, k);
      }
    }

    method CopyNext(ghost m: Machine, ghost a: SpaceMap, ghost f: nat, ghost t: nat, ghost n: nat,
                    src: nat, d: nat, ghost nr: nat, k: nat)
      requires Valid() && src < WORDS && d < WORDS && k < nr <= WORDS
      requires RowContext(m, a, f, t, n, src, d, nr) && RowAt(m, s, a, f, t, d, k) && RowDirty(m, s, src, d, k)
      modifies this, memMap, mem
      ensures Valid() && RowAt(m, s, a, f, t, d, k + 1) && Zeros(s) == Zeros(old(s)) && RowDirty(m, s, src, d, k + 1)
    {
      RowNextDirty(m, s, a, f, t, n, src, d, nr, k);
      RowNext(m, s, a, f, t, n, src, d, nr, k);
      RowNextFrees(m, s, a, f, t, n, src, d, nr, k);
      CopyEntry(Vpage(src, k), Vpage(d, k));
    }

    /** One round of the outer loop of copy_page_tables; false when no page is left for the table. */
    method CopyDir(ghost a: SpaceMap, ghost f: nat, ghost t: nat, ghost n: nat, src: nat, d: nat, nr: nat)
      returns (ok: bool)
      requires Valid() && CopyRange(a, f, t, n) && t <= d < t + n && src == f + (d - t)
      requires nr == if f == 0 then KERNEL_PAGES else WORDS
      requires Sound(s) && CopyAt(s, a, f, t, d, 0) && (!Dir(s, d).present ==> SlotReady(s, t, n, d))
      modifies this, memMap, mem
      ensures Valid()
      ensures if Dir(old(s), d).present then s == Halt(old(s)) && ok
              else if ok then DirCopied(old(s), s, a, f, t, n, d) else s == old(s)
      ensures !Dir(old(s), d).present ==> (ok <==> !Dir(old(s), src).present || Free(old(s)) > 0)
      ensures !Dir(old(s), d).present ==> Free(s) == Free(old(s)) - if ok && Dir(old(s), src).present then 1 else 0
      ensures !Dir(old(s), d).present && ok ==> RowDirty(old(s), s, src, d, WORDS)
    {
      if mem[0][d].present {
        halted := true;
        s := Halt(s);
        return true;
      }
      ghost var m := s;
      if !mem[0][src].present {
        SourceAbsent(m, a, f, t, n, d);
        NoTableClean(m, src);
        assert Stay(m, m);
        return true;
      }
      FreeZero(m);
      var p := GetFreePage();
      if p == 0 { return false; }
      RowStart(m, a, f, t, n, d, p);
      HangFrees(m, d, p);
      HangDirty(m, d, p);
      PutWord(0, d, Entry(p));
      s := s.(held := s.held - {p});
      ghost var k := s;
      CopyRow(a, f, t, n, src, d, nr);
      RowEnd(m, k, s, a, f, t, n, d, nr);
      RowAllDirty(k, s, src, d, nr);
      RowFromDirty(m, k, s, src, d);
      return true;
    }

    /** The outer loop of copy_page_tables; false, at table `done`, when memory runs out. */
    method CopyDirs(ghost a: SpaceMap, f: nat, t: nat, n: nat) returns (ok: bool, ghost done: nat)
      requires Valid() && CopyRange(a, f, t, n) && DirsAt(s, s, a, f, t, n, 0)
      modifies this, memMap, mem
      ensures Valid() && done <= n && DirsAt(old(s), s, a, f, t, n, done) && (ok ==> done == n)
      ensures ok <==> Free(old(s)) >= Tables(old(s), f, n)
      ensures ok ==> Free(s) == Free(old(s)) - Tables(old(s), f, n)
      ensures TablesDirty(old(s), s, f, t, done)
    {
      ghost var m := s;
      ok := true;
      done := 0;
      for k := 0 to n
        invariant Valid() && DirsAt(m, s, a, f, t, n, k) && Free(s) + Tables(m, f, k) == Free(m)
        invariant TablesDirty(m, s, f, t, k)
      {
        ghost var x := s;
        ok := CopyNextDir(m, a, f, t, n, k);
        done := k;
        if !ok {
          TablesGrow(m, f, k + 1, n);
          return;
        }
        TablesNextDirty(m, x, s, f, t, k);
      }
      done := n;
    }

    method CopyNextDir(ghost m: Machine, ghost a: SpaceMap, f: nat, t: nat, n: nat, k: nat) returns (ok: bool)
      requires Valid() && CopyRange(a, f, t, n) && DirsAt(m, s, a, f, t, n, k) && k < n
      modifies this, memMap, mem
      ensures Valid() && if ok then DirsAt(m, s, a, f, t, n, k + 1) else s == old(s)
      ensures ok <==> !Dir(m, f + k).present || Free(old(s)) > 0
      ensures Free(s) == Free(old(s)) - if ok && Dir(m, f + k).present then 1 else 0
      ensures ok ==> RowDirty(old(s), s, f + k, t + k, WORDS)
    {
      ghost var x := s;
      SourceDirs(m, x, a, f, t, n, k);
      DirsNext(m, x, a, f, t, n, k);
      hide SlotReady, DirsAt, DirCopied;
      ok := CopyDir(a, f, t, n, f + k, t + k, if f == 0 then KERNEL_PAGES else WORDS);
      if ok {
        DirsStep(m, x, s, a, f, t, n, k);
      }
    }

    /** 0, or -1 (`ok` false) when memory runs out half way. */
    method CopyPageTables(ghost a: SpaceMap, from: nat, to: nat, size: nat) returns (ok: bool, ghost done: nat)
      requires Valid()
      requires from % 0x400000 == 0 && to % 0x400000 == 0 ==>
        && CopyRange(a, from / 0x400000, to / 0x400000, Dirs(size))
        && DirsAt(s, s, a, from / 0x400000, to / 0x400000, Dirs(size), 0)
      modifies this, memMap, mem
      ensures Valid()
      ensures if from % 0x400000 != 0 || to % 0x400000 != 0 then s == Halt(old(s)) && ok
              else done <= Dirs(size) && (ok ==> done == Dirs(size))
                   && DirsAt(old(s), s, a, from / 0x400000, to / 0x400000, Dirs(size), done)
                   && (ok <==> Free(old(s)) >= Tables(old(s), from / 0x400000, Dirs(size)))
                   && (ok ==> Free(s) == Free(old(s)) - Tables(old(s), from / 0x400000, Dirs(size)))
                   && TablesDirty(old(s), s, from / 0x400000, to / 0x400000, done)
    {
      if from % 0x400000 != 0 || to % 0x400000 != 0 {
        halted := true;
        s := Halt(s);
        return true, 0;
      }
      ok, done := CopyDirs(a, from / 0x400000, to / 0x400000, Dirs(size));
    }

    // ------------------------------------------------------------ fork and exit

    /** copy_mem, with the child's task page p already in task[nr]. */
    method CopyMem(ghost m: Machine, ghost p: nat, nr: nat, current: nat) returns (ok: bool)
      requires Valid() && Sound(m) && 1 <= nr < NR_TASKS && current < NR_TASKS && current != nr
      requires m.task[nr].page == 0 && p != 0 && p == FreePageOf(m)
      requires s == PutTask(Grab(m, p), nr, ChildOf(m.task[current], p))
      modifies this, memMap, mem
      ensures Valid()
      ensures ok ==> Forked(m, s, current, nr, true)
      ensures !ok ==> s.task[nr].page == p && Forked(m, ReleaseTask(s, nr), current, nr, false)
      ensures (ok <==> ForkFits(m, current)) && (ok ==> Free(s) == Free(m) - 1 - TablesOf(m, current))
      ensures Dirty(m) <= Dirty(s) && (ok ==> ChildDirty(m, s, current, nr) && SameTables(m, s, nr))
    {
      GrabDirty(m, p);
      SameMemory(Grab(m, p), s);
      ForkStart(m, p, current, nr);
      ForkTables(m, p, current, nr);
      SlotAddress(current);
      SlotAddress(nr);
      ghost var k := s;
      var limit := task[nr].dataLimit;
      ghost var done;
      ok, done := CopyPageTables(Spaces(m), current * MAX_LIMIT, nr * MAX_LIMIT, limit);
      if ok {
        ForkSucceeds(m, p, s, current, nr);
        TablesAreChild(m, s, current, nr);
      } else {
        UndoCopy(m, p, nr, current, done);
      }
    }

    /** `free_page_tables(new_data_base,data_limit)` after a copy that ran out of memory. */
    method UndoCopy(ghost m: Machine, ghost p: nat, nr: nat, ghost current: nat, ghost done: nat)
      requires Valid() && Sound(m) && 1 <= nr < NR_TASKS && current < NR_TASKS && current != nr
      requires m.task[nr].page == 0 && p != 0 && p == FreePageOf(m) && done <= Dirs(m.task[current].dataLimit)
      requires DirsAt(PutTask(Grab(m, p), nr, ChildOf(m.task[current], p)), s, Spaces(m),
                      current * TASK_DIRS, nr * TASK_DIRS, Dirs(m.task[current].dataLimit), done)
      requires Dirty(m) <= Dirty(s)
      modifies this, memMap, mem
      ensures Valid() && s.task[nr].page == p && Forked(m, ReleaseTask(s, nr), current, nr, false)
      ensures Dirty(m) <= Dirty(s)
    {
      ghost var k := PutTask(Grab(m, p), nr, ChildOf(m.task[current], p));
      ghost var x := s;
      ForkLimit(m, p, x, current, nr, done);
      var limit := task[nr].dataLimit;
      FreeSlot(nr, limit);
      ForkFails(m, p, x, s, current, nr, done);
      UndoDirty(m, x, s, nr, Dirs(limit));
    }

    /** copy_process: false, when there is no page for the task and for each of the parent's page
        tables. */
    method CopyProcess(nr: nat, current: nat) returns (ok: bool)
      requires Valid() && Sound(s) && 1 <= nr < NR_TASKS && current < NR_TASKS && current != nr
      requires s.task[nr].page == 0
      modifies this, memMap, mem, task
      ensures Valid() && Forked(old(s), s, current, nr, ok)
      ensures (ok <==> ForkFits(old(s), current)) && (ok ==> Free(s) == Free(old(s)) - 1 - TablesOf(old(s), current))
      ensures Dirty(old(s)) <= Dirty(s) && (ok ==> ChildDirty(old(s), s, current, nr) && SameTables(old(s), s, nr))
    {
      ghost var m := s;
      FreeZero(m);
      var p := GetFreePage();
      if p == 0 { return false; }
      task[nr] := ChildOf(task[current], p);
      s := PutTask(s, nr, ChildOf(m.task[current], p));
      ok := CopyMem(m, p, nr, current);
      if !ok {
        ghost var x := s;
        DropTask(nr, p);
        SameMemory(x, s);
      }
    }

    /** `task[nr] = NULL; free_page(p)`. */
    method DropTask(nr: nat, p: nat)
      requires Valid() && 1 <= nr < NR_TASKS && p == s.task[nr].page
      modifies this, memMap, task
      ensures Valid() && s == ReleaseTask(old(s), nr)
    {
      ghost var m := s;
      task[nr] := task[nr].(page := 0);
      s := s.(task := s.task[nr := s.task[nr].(page := 0)]);
      FreePage(p);
    }

    /** free_page_tables on the slot of task t. */
    method FreeSlot(t: nat, size: nat)
      requires Valid() && Sound(s) && 1 <= t < NR_TASKS && Dirs(size) <= TASK_DIRS
      modifies this, memMap, mem
      ensures Valid() && DirsFreed(old(s), s, t * TASK_DIRS, t * TASK_DIRS + Dirs(size)) && Zeros(old(s)) <= Zeros(s)
      ensures KeepsBut(old(s), s, t * TASK_DIRS, t * TASK_DIRS + Dirs(size))
    {
      SlotAddress(t);
      FreePageTables(t * MAX_LIMIT, size);
    }

    /** The code range, then the data range. */
    method FreeRanges(t: nat, code: nat, data: nat) returns (ghost x: Machine)
      requires Valid() && Sound(s) && 1 <= t < NR_TASKS && Dirs(code) <= TASK_DIRS && Dirs(data) <= TASK_DIRS
      modifies this, memMap, mem
      ensures Valid()
      ensures DirsFreed(old(s), x, t * TASK_DIRS, t * TASK_DIRS + Dirs(code))
      ensures DirsFreed(x, s, t * TASK_DIRS, t * TASK_DIRS + Dirs(data)) && Zeros(old(s)) <= Zeros(s)
      ensures KeepsBut(old(s), s, t * TASK_DIRS, t * TASK_DIRS + TASK_DIRS)
    {
      ghost var m := s;
      FreeSlot(t, code);
      x := s;
      DirsFreedSound(m, x, t * TASK_DIRS, t * TASK_DIRS + Dirs(code));
      FreeSlot(t, data);
      KeepsWider(m, x, t * TASK_DIRS, t * TASK_DIRS + Dirs(code), t * TASK_DIRS, t * TASK_DIRS + TASK_DIRS);
      KeepsWider(x, s, t * TASK_DIRS, t * TASK_DIRS + Dirs(data), t * TASK_DIRS, t * TASK_DIRS + TASK_DIRS);
      KeepsTwice(m, x, s, t * TASK_DIRS, t * TASK_DIRS + TASK_DIRS);
    }

    /** Both `free_page_tables` calls of do_exit and do_execve. */
    method FreeSpace(current: nat)
      requires Valid() && Sound(s) && 1 <= current < NR_TASKS
      modifies this, memMap, mem
      ensures Valid() && Emptied(old(s), s, current) && Zeros(old(s)) <= Zeros(s)
      ensures KeepsBut(old(s), s, current * TASK_DIRS, current * TASK_DIRS + TASK_DIRS)
    {
      ghost var m := s;
      ExitRanges(m, current);
      var code, data := task[current].codeLimit, task[current].dataLimit;
      ghost var x := FreeRanges(current, code, data);
      ExitDone(m, x, s, current);
    }

    /** The memory half of do_exit: the space is freed, the task is left a zombie. */
    method DoExit(current: nat)
      requires Valid() && Sound(s) && 1 <= current < NR_TASKS
      modifies this, memMap, mem, task
      ensures Valid() && Exited(old(s), s, current) && Zeros(old(s)) <= Zeros(s)
      ensures KeepsBut(old(s), s, current * TASK_DIRS, current * TASK_DIRS + TASK_DIRS)
    {
      ghost var m := s;
      ExitRanges(m, current);
      FreeSpace(current);
      EmptiedRetask(m, s, current, m.task[current].(zombie := true));
      task[current] := task[current].(zombie := true);
      ghost var x := s;
      s := Retask(s, current, s.task[current].(zombie := true));
      SameMemory(x, s);
    }

    /** The memory half of do_execve: the old space is freed, the limits become those of the new
        program. */
    method DoExecve(current: nat, text: nat)
      requires Valid() && Sound(s) && 1 <= current < NR_TASKS && text <= 0x3000000
      modifies this, memMap, mem, task
      ensures Valid() && Sound(s) && s.held == old(s).held && NoTables(s, current) && Zeros(old(s)) <= Zeros(s)
      ensures SameTables(old(s), s, current) && KeepsBut(old(s), s, current * TASK_DIRS, current * TASK_DIRS + TASK_DIRS)
      ensures Spaces(s) == EagerExit(Spaces(old(s)), current)
      ensures s.task == old(s).task[current :=
                old(s).task[current].(codeLimit := (text + 4095) / 4096 * 4096).(dataLimit := MAX_LIMIT)]
    {
      ghost var m := s;
      FreeSpace(current);
      var limits := task[current].(codeLimit := (text + 4095) / 4096 * 4096).(dataLimit := MAX_LIMIT);
      EmptiedRetask(m, s, current, limits);
      task[current] := limits;
      ghost var x := s;
      s := Retask(s, current, limits);
      SameMemory(x, s);
    }

    /** release: finds the slot of the zombie's task page p; panics when no slot has it. */
    method Release(p: nat)
      requires Valid() && Sound(s) && p != 0
      requires forall t | 1 <= t < NR_TASKS && s.task[t].page == p :: s.task[t].zombie
      modifies this, memMap, task
      ensures Valid()
      ensures if exists t | 1 <= t < NR_TASKS :: old(s).task[t].page == p
              then Sound(s) && Spaces(s) == Spaces(old(s)) && s.held == old(s).held && Dirty(s) == Dirty(old(s))
                   && forall t | 0 <= t < NR_TASKS ::
                        s.task[t] == if t != 0 && old(s).task[t].page == p then old(s).task[t].(page := 0) else old(s).task[t]
              else s == Halt(old(s))
    {
      ghost var m := s;
      for i := 1 to NR_TASKS
        invariant Valid() && s == m
        invariant forall t | 1 <= t < i :: m.task[t].page != p
      {
        if task[i].page == p {
          Reaped(m, i);
          DropTask(i, p);
          SameMemory(m, s);
          return;
        }
      }
      halted := true;
      s := Halt(s);
    }

    // ------------------------------------------------------------ page faults

    /** un_wp_page on the entry of v; false exactly when the page is not v's alone and no page is
        free for the copy. */
    method UnWpPage(v: Vpage) returns (ok: bool)
      requires Valid() && Sound(s) && Present(s, v)
      modifies this, memMap, mem
      ensures Valid() && if ok then Unshared(old(s), s, v) else s == old(s)
      ensures (ok <==> Sole(old(s), v) || Free(old(s)) > 0)
      ensures ok ==> Free(s) == Free(old(s)) - if Sole(old(s), v) then 0 else 1
      ensures ok ==> DirtyBut(old(s), s, v) && (v in Dirty(s) <==> Sole(old(s), v) && v in Dirty(old(s)))
    {
      hide DirtyBut, Unshared, Sound, Seal;
      ghost var m := s;
      PresentBounds(m, v);
      var t := mem[0][v.d].frame;
      var old_page := mem[t][v.i].frame;
      if old_page >= LOW && memMap[old_page - LOW] == 1 {
        OwnerUnshared(m, v);
        OwnerDirty(m, v);
        PutWord(t, v.i, mem[t][v.i].(rw := true));
        assert Zeros(s) == Zeros(m);
        return true;
      }
      ok := CopyPage(v, t, old_page);
    }

    /** The rest of un_wp_page, for a page that is not v's alone. */
    method CopyPage(v: Vpage, t: nat, old_page: nat) returns (ok: bool)
      requires Valid() && Sound(s) && Present(s, v) && !Sole(s, v)
      requires t == Dir(s, v.d).frame && old_page == Pte(s, v).frame < FRAMES
      modifies this, memMap, mem
      ensures Valid() && if ok then Unshared(old(s), s, v) else s == old(s)
      ensures (ok <==> Free(old(s)) > 0) && (ok ==> Free(s) == Free(old(s)) - 1)
      ensures ok ==> DirtyBut(old(s), s, v) && v !in Dirty(s)
    {
      hide DirtyBut, Unshared, Sound, Seal;
      ghost var m := s;
      FreeZero(m);
      var new_page := GetFreePage();
      if new_page == 0 { return false; }
      ghost var g := s;
      CopyUnshared(m, v, new_page);
      CopyClean(m, v, new_page);
      CopyCounts(m, v, new_page);
      SameEntry(m, v, new_page);
      if old_page >= LOW {
        memMap[old_page - LOW] := (memMap[old_page - LOW] + 255) % 256;
      }
      s := DecCount(s, old_page);
      PutWord(t, v.i, Entry(new_page));
      mem[new_page] := mem[old_page];
      s := s.(mem := s.mem[new_page := s.mem[old_page]]);
      s := s.(held := s.held - {new_page});
      assert s == CowCopy(g, v, new_page);
      return true;
    }

    /** write_verify on the page of a linear address; false exactly when the page needs a copy and
        no page is free. */
    method WriteVerify(v: Vpage) returns (ok: bool)
      requires Valid() && Sound(s) && ValidPage(v)
      modifies this, memMap, mem
      ensures Valid()
      ensures if ok && Present(old(s), v) && !Pte(old(s), v).rw then Unshared(old(s), s, v) else s == old(s)
      ensures ok <==> (Present(old(s), v) ==> CopyFits(old(s), v))
      ensures DirtyBut(old(s), s, v)
      ensures ok ==> (v in Dirty(s) <==> v in Dirty(old(s)) && (Pte(old(s), v).rw || Sole(old(s), v)))
      ensures Free(s) + 1 >= Free(old(s))
    {
      if !mem[0][v.d].present { return true; }
      TableBounds(s, v.d);
      var w := mem[mem[0][v.d].frame][v.i];
      if w.present && !w.rw {
        ok := UnWpPage(v);
      } else {
        ok := true;
      }
    }

    /** put_page: false exactly when the table is missing and no page is free for it. */
    method PutPage(page: nat, v: Vpage) returns (ok: bool)
      requires Valid() && Sound(s) && Within(s, v) && !Present(s, v) && page in s.held
      modifies this, memMap, mem
      ensures Valid() && if ok then Placed(old(s), s, v, page) else s == old(s)
      ensures ok <==> Dir(old(s), v.d).present || Free(old(s)) > 0
      ensures ok ==> Free(s) + Cost(old(s), v) == Free(old(s)) + 1
    {
      ghost var m := s;
      if mem[0][v.d].present {
        PlaceInTable(s, v, page);
        TableBounds(s, v.d);
      } else {
        FreeZero(m);
        var tmp := GetFreePage();
        if tmp == 0 { return false; }
        PlaceWithTable(m, v, page, tmp);
        HangFrees(m, v.d, tmp);
        PutWord(0, v.d, Entry(tmp));
        s := s.(held := s.held - {tmp});
      }
      ghost var k := s;
      PutWord(mem[0][v.d].frame, v.i, Entry(page));
      s := s.(held := s.held - {page});
      assert Zeros(s) == Zeros(k);
      return true;
    }

    /** get_empty_page and the loading half of do_no_page: a page showing `image` at v; false
        exactly when the pages it takes are not there. */
    method MapNew(v: Vpage, image: Page) returns (ok: bool)
      requires Valid() && Sound(s) && Within(s, v) && !Present(s, v)
      modifies this, memMap, mem
      ensures Valid() && if ok then Mapping(old(s), s, v, image) && Pte(s, v) == Entry(Pte(s, v).frame) else SameSpaces(old(s), s)
      ensures ok <==> Free(old(s)) >= Cost(old(s), v)
      ensures ok ==> Free(s) == Free(old(s)) - Cost(old(s), v)
      ensures DirtyBut(old(s), s, v)
    {
      ghost var m := s;
      FreeZero(m);
      var page := GetFreePage();
      if page == 0 { return false; }
      GrabFrees(m, page);
      GrabElse(m, page);
      ghost var g := s;
      FillHeld(g, page, image);
      GrabDirty(m, page);
      FillDirty(g, page, image);
      mem[page] := image;
      s := Fill(s, page, image);
      ghost var k := s;
      assert Zeros(k) == Zeros(g);
      ok := PutPage(page, v);
      if ok {
        PresenceDirty(m, s, v, image);
        return;
      }
      GiveBack(k, page);
      FreePage(page);
      s := s.(held := s.held - {page});
      SameMemory(k, s);
    }

    /** try_to_share: map at v the page that task p has at the same offset, if it is there,
        clean and in main memory. */
    method TryToShare(v: Vpage, p: nat) returns (r: Shares)
      requires Valid() && Sound(s) && Within(s, v) && !Present(s, v) && 1 <= p < NR_TASKS && p != Owner(v)
      modifies this, memMap, mem
      ensures Valid()
      ensures r == if !Sharable(old(s), Counterpart(v, p)) then No
                   else if Free(old(s)) + 1 >= Cost(old(s), v) then Yes
                   else NoMemory
      ensures
        var from := Counterpart(v, p);
        !r.No? <==>
          && HasTable(old(s), from.d) && Pte(old(s), from).present && !Pte(old(s), from).dirty
          && LOW <= Pte(old(s), from).frame
      ensures if r.Yes? then
                var from := Counterpart(v, p);
                && Mapping(old(s), s, v, Content(old(s), from)) && Joined(old(s), s, from, v)
                && Free(s) + Cost(old(s), v) == Free(old(s)) + 1
              else s == old(s)
    {
      hide Sound, Seal, Mapping, Joined, Shared;
      var from := Counterpart(v, p);
      if !mem[0][from.d].present { return No; }
      TableBounds(s, from.d);
      var w := mem[mem[0][from.d].frame][from.i];
      if !w.present || w.dirty { return No; }
      PresentBelow(s, from);
      if w.frame >= high || w.frame < LOW { return No; }
      ghost var m := s;
      if !mem[0][v.d].present {
        FreeZero(m);
        var to := GetFreePage();
        if to == 0 { return NoMemory; }
        TableForShare(m, v, to);
        HangFrees(m, v.d, to);
        PutWord(0, v.d, Entry(to));
        s := s.(held := s.held - {to});
      }
      ghost var k := s;
      ShareEntry(from, v);
      SharedVia(m, k, s, from, v);
      return Yes;
    }

    /** `*from_page &= ~2; *to_page = *from_page; mem_map[phys_addr]++`. */
    method ShareEntry(from: Vpage, v: Vpage)
      requires Valid() && Sound(s) && Present(s, from) && LOW <= Pte(s, from).frame < FRAMES
      requires ValidPage(v) && Dir(s, v.d).present && !Present(s, v) && v.d != from.d
      requires v.d % TASK_DIRS == from.d % TASK_DIRS && v.i == from.i
      modifies this, memMap, mem
      ensures Valid() && Shared(old(s), s, from, v) && Zeros(s) == Zeros(old(s))
    {
      ShareInTable(s, from, v);
      ShareFrees(s, from, v);
      TableBounds(s, v.d);
      TableBounds(s, from.d);
      var f := mem[0][from.d].frame;
      PutWord(f, from.i, mem[f][from.i].(rw := false));
      AddEntry(from, v);
    }

    /** `*to_page = *from_page; mem_map[phys_addr]++`. */
    method AddEntry(from: Vpage, v: Vpage)
      requires Valid() && HasTable(s, from.d) && from.i < WORDS && HasTable(s, v.d) && v.i < WORDS
      requires !Pte(s, from).rw && LOW <= Pte(s, from).frame < FRAMES
      modifies this, memMap, mem
      ensures Valid() && s == AddShare(old(s), from, v)
    {
      ghost var k := s;
      var w := mem[mem[0][from.d].frame][from.i];
      PutWord(mem[0][v.d].frame, v.i, w);
      memMap[w.frame - LOW] := (memMap[w.frame - LOW] + 1) % 256;
      s := PutCount(s, w.frame, (s.counts[w.frame - LOW] + 1) % 256);
      assert s == AddShare(k, from, v);
    }

    /** share_page: the first task, from the last slot down, that runs the same executable and
        has the page. */
    method SharePage(v: Vpage, env: FaultEnv) returns (r: Shares, p: nat)
      requires Valid() && Sound(s) && Within(s, v) && !Present(s, v) && |env.exe| == NR_TASKS
      modifies this, memMap, mem
      ensures Valid()
      ensures var q := ShareWith(old(s), v, env);
        r == (if q == 0 then No else if Free(old(s)) + 1 >= Cost(old(s), v) then Yes else NoMemory)
        && (r.Yes? ==> p == q)
      ensures if r.Yes? then
                var from := Counterpart(v, p);
                && Mapping(old(s), s, v, Content(old(s), from)) && Joined(old(s), s, from, v)
                && Free(s) + Cost(old(s), v) == Free(old(s)) + 1
              else s == old(s)
    {
      var current := Owner(v);
      p := 0;
      if env.exe[current] == 0 || env.users < 2 { return No, p; }
      ghost var m := s;
      var i := NR_TASKS;
      while i > 1
        invariant 1 <= i <= NR_TASKS && Valid() && s == m
        invariant Sharer(m, v, env, NR_TASKS) == Sharer(m, v, env, i)
      {
        i := i - 1;
        if task[i].page != 0 && current != i && env.exe[i] == env.exe[current] {
          r := TryToShare(v, i);
          if !r.No? { return r, i; }
        }
      }
      return No, p;
    }

    /** do_no_page: a zeroed page outside the executable, else a page shared with another task
        that runs it, else its contents from disk (`env.image`). */
    method DoNoPage(v: Vpage, env: FaultEnv) returns (f: Fault)
      requires Valid() && Sound(s) && Within(s, v) && !Present(s, v) && |env.exe| == NR_TASKS
      modifies this, memMap, mem
      ensures Valid() && f == FaultOf(old(s), v, env)
      ensures if f.Failed? then SameSpaces(old(s), s) else Mapping(old(s), s, v, PageFor(old(s), f))
      ensures f.Fresh? ==> Pte(s, v) == Entry(Pte(s, v).frame) && Free(s) == Free(old(s)) - Cost(old(s), v)
      ensures f.SharedWith? ==> Joined(old(s), s, f.from, v) && Free(s) + Cost(old(s), v) == Free(old(s)) + 1
      ensures DirtyBut(old(s), s, v)
    {
      ghost var m := s;
      if env.exe[Owner(v)] == 0 || env.beyond {
        var ok := MapNew(v, ZeroPage());
        return if ok then Fresh(ZeroPage()) else Failed;
      }
      var r, p := SharePage(v, env);
      match r {
        case NoMemory => return Failed;
        case Yes =>
          PresenceDirty(m, s, v, Content(m, Counterpart(v, p)));
          return SharedWith(Counterpart(v, p));
        case No =>
          var ok := MapNew(v, env.image);
          return if ok then Fresh(env.image) else Failed;
      }
    }

    // ------------------------------------------------------------ stores

    /** do_wp_page for a store that hit a page already present. */
    method MakeWritable(v: Vpage) returns (ok: bool)
      requires Valid() && Sound(s) && Present(s, v)
      modifies this, memMap, mem
      ensures Valid() && (ok <==> CopyFits(old(s), v))
      ensures if ok then Ready(old(s), s, v, Content(old(s), v)) else s == old(s)
      ensures DirtyBut(old(s), s, v)
    {
      ghost var m := s;
      PresentBounds(m, v);
      TableBounds(s, v.d);
      if mem[mem[0][v.d].frame][v.i].rw {
        ReadyOwn(m, v);
        return true;
      }
      ok := UnWpPage(v);
      if ok { ReadyCopied(m, s, v); }
    }

    /** The faults of a user store to an absent page. */
    method FetchPage(v: Vpage, env: FaultEnv) returns (ok: bool)
      requires Valid() && Sound(s) && Within(s, v) && !Present(s, v) && |env.exe| == NR_TASKS
      modifies this, memMap, mem
      ensures Valid() && (ok <==> StoreFits(old(s), v, env))
      ensures if ok then Ready(old(s), s, v, BaseOf(old(s), v, env)) else HalfDone(old(s), s, v, BaseOf(old(s), v, env))
      ensures DirtyBut(old(s), s, v)
    {
      ghost var m := s;
      var f := DoNoPage(v, env);
      if f.Failed? { return false; }
      ghost var x, base := s, PageFor(m, f);
      PresentBounds(x, v);
      TableBounds(s, v.d);
      if f.SharedWith? {
        NotSole(m, x, f.from, v);
      }
      if mem[mem[0][v.d].frame][v.i].rw {
        ReadyFresh(m, x, v, base);
        return true;
      }
      ok := UnWpPage(v);
      if ok {
        ReadyShared(m, x, s, v, base);
        DirtyButTwice(m, x, s, v);
      }
    }

    /** The faults a user store causes until its page is present and writable. */
    method PrepareStore(v: Vpage, env: FaultEnv) returns (ok: bool)
      requires Valid() && Sound(s) && Within(s, v) && |env.exe| == NR_TASKS
      modifies this, memMap, mem
      ensures Valid() && (ok <==> StoreFits(old(s), v, env))
      ensures if ok then Ready(old(s), s, v, BaseOf(old(s), v, env)) else HalfDone(old(s), s, v, BaseOf(old(s), v, env))
      ensures DirtyBut(old(s), s, v)
    {
      if mem[0][v.d].present {
        TableBounds(s, v.d);
        if mem[mem[0][v.d].frame][v.i].present {
          ok := MakeWritable(v);
          return;
        }
      }
      ok := FetchPage(v, env);
    }

    /** The store itself, and the processor's mark in the entry. */
    method StoreWord(v: Vpage, k: nat, w: Word)
      requires Valid() && HasTable(s, v.d) && v.i < WORDS && Pte(s, v).frame < FRAMES && k < WORDS
      modifies this, mem
      ensures Valid() && s == Store(old(s), v, k, w)
    {
      var t := mem[0][v.d].frame;
      var f := mem[t][v.i].frame;
      PutWord(t, v.i, mem[t][v.i].(dirty := true));
      PutWord(f, k, w);
    }

    /** A store by the task that owns the slot of v, in user mode. Out of memory kills the task. */
    method UserStore(v: Vpage, k: nat, w: Word, env: FaultEnv)
      requires Valid() && Sound(s) && Possible(s, UserWrite(v, k, w, env))
      modifies this, memMap, mem, task
      ensures Valid() && Refines(old(s), s, Outcome(old(s), UserWrite(v, k, w, env))) && Tasked(old(s), s, UserWrite(v, k, w, env))
      ensures Marked(old(s), s, UserWrite(v, k, w, env))
    {
      ghost var m := s;
      TouchWithin(m, v);
      var ok := PrepareStore(v, env);
      ghost var x := s;
      if ok {
        StoreRefines(m, x, v, k, w, BaseOf(m, v, env));
        StoreDirty(x, v, k, w);
        StoreWord(v, k, w);
        PlainMarked(m, s, UserWrite(v, k, w, env), v);
      } else {
        DoExit(Owner(v));
        KillRefines(m, x, s, v, BaseOf(m, v, env));
        EndsMarked(m, x, s, UserWrite(v, k, w, env), v);
      }
    }

    /** A load by the task that owns the slot of v from an absent page. */
    method ReadAbsent(v: Vpage, env: FaultEnv)
      requires Valid() && Sound(s) && Possible(s, ReadFault(v, env))
      modifies this, memMap, mem, task
      ensures Valid() && Refines(old(s), s, Outcome(old(s), ReadFault(v, env))) && Tasked(old(s), s, ReadFault(v, env))
      ensures Marked(old(s), s, ReadFault(v, env))
    {
      ghost var m := s;
      TouchWithin(m, v);
      var f := DoNoPage(v, env);
      ghost var x := s;
      if f.Failed? {
        DoExit(Owner(v));
        KillRefines(m, x, s, v, ZeroPage());
        EndsMarked(m, x, s, ReadFault(v, env), v);
      } else {
        FetchRefines(m, x, v, PageFor(m, f));
        PlainMarked(m, s, ReadFault(v, env), v);
      }
    }

    /** write_verify for one page of a kernel store to come. */
    method VerifyPage(v: Vpage)
      requires Valid() && Sound(s) && Possible(s, Verify(v))
      modifies this, memMap, mem, task
      ensures Valid() && Refines(old(s), s, Outcome(old(s), Verify(v))) && Tasked(old(s), s, Verify(v))
      ensures Marked(old(s), s, Verify(v))
    {
      ghost var m := s;
      TouchWithin(m, v);
      var ok := WriteVerify(v);
      if !ok {
        DoExit(Owner(v));
        KillRefines(m, m, s, v, ZeroPage());
        EndsMarked(m, m, s, Verify(v), v);
      } else {
        VerifyMarked(m, s, v);
        if Present(m, v) && !Pte(m, v).rw {
          VerifyRefines(m, s, v);
        }
      }
    }

    /** A kernel store on behalf of the task: the processor checks presence but not the read-only
        bit. */
    method KernelStore(v: Vpage, k: nat, w: Word, env: FaultEnv)
      requires Valid() && Sound(s) && Possible(s, KernelWrite(v, k, w, env))
      modifies this, memMap, mem, task
      ensures Valid() && Refines(old(s), s, Outcome(old(s), KernelWrite(v, k, w, env))) && Tasked(old(s), s, KernelWrite(v, k, w, env))
      ensures Marked(old(s), s, KernelWrite(v, k, w, env))
    {
      hide Marked, KeepsBut, DirtyBut, Sound, Seal, Refines, Mapping, Exited, Joined;
      ghost var m := s;
      TouchWithin(m, v);
      if mem[0][v.d].present {
        TableBounds(s, v.d);
        if mem[mem[0][v.d].frame][v.i].present {
          PresentBounds(m, v);
          RawRefines(m, v, k, w);
          StoreDirty(m, v, k, w);
          StoreWord(v, k, w);
          PlainMarked(m, s, KernelWrite(v, k, w, env), v);
          return;
        }
      }
      var f := DoNoPage(v, env);
      ghost var x := s;
      match f {
        case Failed =>
          DoExit(Owner(v));
          KillRefines(m, x, s, v, ZeroPage());
          EndsMarked(m, x, s, KernelWrite(v, k, w, env), v);
        case Fresh(page) =>
          ReadyFresh(m, x, v, page);
          StoreRefines(m, x, v, k, w, page);
          StoreDirty(x, v, k, w);
          StoreWord(v, k, w);
          PlainMarked(m, s, KernelWrite(v, k, w, env), v);
        case SharedWith(from) =>
          SpillRefines(m, x, from, v, k, w);
          StoreDirty(x, v, k, w);
          StoreWord(v, k, w);
          PlainMarked(m, s, KernelWrite(v, k, w, env), v);
      }
    }

    /** verify_area: write_verify on every page that `size` bytes from linear address `start`
        touch. False when a copy ran out of memory. */
    method VerifyArea(start: nat, size: nat) returns (ok: bool, ghost done: nat)
      requires Valid() && Sound(s) && UserDir(start / 0x400000) && start + size <= 0x1_0000_0000
      modifies this, memMap, mem
      ensures Valid() && done <= (start % 4096 + size + 4095) / 4096
      ensures Verified(old(s), s, start / 4096, start / 4096 + done)
      ensures if ok then done == (start % 4096 + size + 4095) / 4096
              else var v := PageNr(start / 4096 + done); Present(s, v) && !CopyFits(s, v)
    {
      ghost var m := s;
      var lo, left := start / 4096, start % 4096 + size;
      var n := (left + 4095) / 4096;
      VerifiedStart(m, lo);
      ok := true;
      done := 0;
      for k := 0 to n
        invariant Valid() && Verified(m, s, lo, lo + k)
      {
        done := k;
        ok := VerifyNext(m, lo, lo + k);
        if !ok { return; }
      }
      done := n;
    }

    method VerifyNext(ghost m: Machine, ghost lo: nat, k: nat) returns (ok: bool)
      requires Valid() && Verified(m, s, lo, k) && TASK_DIRS * WORDS <= lo <= k < WORDS * WORDS
      modifies this, memMap, mem
      ensures Valid() && if ok then Verified(m, s, lo, k + 1) else s == old(s) && Present(s, PageNr(k)) && !CopyFits(s, PageNr(k))
    {
      ghost var x := s;
      VerifiedEnd(m, x, lo, k);
      ok := WriteVerify(PageNr(k));
      if ok { VerifiedStep(m, x, s, lo, k); }
    }

    // ------------------------------------------------------------ runs

    /** One trap. A request that the kernel refuses or the processor faults on changes nothing;
        every other one has exactly the effect its outcome names. */
    method Trap(e: Event) returns (ghost f: Effect)
      requires Valid() && Sound(s)
      modifies this, memMap, mem, task
      ensures Valid() && f == EffectOf(old(s), e) && Step(old(s), s, e, f)
    {
      ghost var m := s;
      f := EffectOf(m, e);
      match e {
        case Fork(current, nr) =>
          if 1 <= nr < NR_TASKS && current < NR_TASKS && current != nr && task[nr].page == 0
             && (current == 0 || task[current].Live()) {
            var ok := CopyProcess(nr, current);
            ForkMarked(m, s, e);
          }
        case Exit(t) =>
          if 1 <= t < NR_TASKS && task[t].Live() {
            DoExit(t);
            ExitMarked(m, s, e, t);
          }
        case Exec(t, text) =>
          if 1 <= t < NR_TASKS && task[t].Live() && text <= 0x3000000 {
            DoExecve(t, text);
            ExitMarked(m, s, e, t);
          }
        case Reap(t) =>
          if 1 <= t < NR_TASKS && task[t].page != 0 && task[t].zombie {
            Reaped(s, t);
            Release(task[t].page);
          }
        case ReadFault(v, env) =>
          if ValidPage(v) && MayTouch(task[Owner(v)], v) && |env.exe| == NR_TASKS {
            var there := Lookup(v);
            if !there { ReadAbsent(v, env); }
          }
        case UserWrite(v, k, w, env) =>
          if ValidPage(v) && MayTouch(task[Owner(v)], v) && k < WORDS && |env.exe| == NR_TASKS {
            UserStore(v, k, w, env);
          }
        case Verify(v) =>
          if ValidPage(v) && MayTouch(task[Owner(v)], v) {
            VerifyPage(v);
          }
        case KernelWrite(v, k, w, env) =>
          if ValidPage(v) && MayTouch(task[Owner(v)], v) && k < WORDS && |env.exe| == NR_TASKS {
            var there := Lookup(v);
            if !there || mem[mem[0][v.d].frame][v.i].frame >= LOW {
              KernelStore(v, k, w, env);
            }
          }
      }
    }

    /** The processor's test for presence. */
    method Lookup(v: Vpage) returns (there: bool)
      requires Valid() && Sound(s) && ValidPage(v)
      ensures there <==> Present(s, v)
    {
      if !mem[0][v.d].present { return false; }
      TableBounds(s, v.d);
      return mem[mem[0][v.d].frame][v.i].present;
    }

    /** Copy-on-write refines eager copying, whatever the tasks do and in whatever order: after any
        sequence of traps the address spaces are those of the reference that never shares a page,
        each trap having had the effect that the state before it determines. */
    method Run(es: seq<Event>) returns (ghost ms: seq<Machine>, ghost fs: seq<Effect>)
      requires Valid() && Sound(s)
      modifies this, memMap, mem, task
      ensures Valid() && Sound(s)
      ensures History(es, ms, fs) && ms[0] == old(s) && ms[|es|] == s
      ensures (forall f | f in fs :: Legal(f)) && Spaces(s) == EagerRun(Spaces(old(s)), fs)
    {
      ms := [s];
      fs := [];
      ghost var a := Spaces(s);
      for i := 0 to |es|
        invariant Valid() && Sound(s) && |fs| == i && History(es[..i], ms, fs) && ms[0] == old(s) && ms[i] == s
        invariant (forall f | f in fs :: Legal(f)) && Spaces(s) == EagerRun(a, fs)
      {
        ghost var f := Trap(es[i]);
        RunMore(a, fs, f);
        HistoryMore(es[..i], ms, fs, es[i], s);
        assert es[..i + 1] == es[..i] + [es[i]];
        ms, fs := ms + [s], fs + [f];
      }
      assert es[..|es|] == es;
    }
  }

  datatype Shares = Yes | No | NoMemory
}
