/**
 What each byte and each escape sequence of kernel/chr_drv/console.c does to every cell of the screen
 and to the cursor, in rows and columns.
 */
module ScreenCells {
  import opened Screen

  /** The cell in a row and a column. */
  function Cell(t: Terminal, g: Geometry, row: nat, col: nat): int
    requires TerminalOk(t, g) && row < g.lines && col < g.cols
  {
    RowsFit(row, row + 1, g);
    t.cells[row * g.cols + col]
  }

  /** Cells of different rows lie apart. */
  lemma Rows(g: Geometry, row: nat, col: nat, other: nat)
    requires row < g.lines && col < g.cols
    ensures row * g.cols + col < g.Cells()
    ensures other < row ==> other * g.cols + g.cols <= row * g.cols
    ensures row < other ==> row * g.cols + col < other * g.cols
    ensures (row + 1) * g.cols == row * g.cols + g.cols
  {
    RowsFit(row, row + 1, g);
    if other < row {
      RowsApart(other, row, g.cols);
    }
    if row < other {
      RowsApart(row, other, g.cols);
    }
  }

  lemma FillAt(v: seq<int>, a: nat, n: nat, k: nat)
    requires a + n <= |v| && k < |v|
    ensures Fill(v, a, n)[k] == if a <= k < a + n then ERASE else v[k]
  {}

  /** Where a cell lies to the cursor's row. */
  lemma InRow(t: Terminal, g: Geometry, row: nat, col: nat)
    requires TerminalOk(t, g) && row < g.lines && col < g.cols
    ensures
      var k, a := row * g.cols + col, LineStart(t, g);
      && k < g.Cells() && (k < a <==> row < t.y) && (a + g.cols <= k <==> t.y < row) && (row == t.y ==> k == a + col)
  {
    Rows(g, row, col, t.y);
  }

  // ---------------------------------------------------------------- erasing

  lemma ErasedAt(t: Terminal, g: Geometry, p: nat, k: nat)
    requires TerminalOk(t, g) && k < g.Cells()
    ensures
      var a := LineStart(t, g);
      && EraseLine(t, g, p).cells[k] ==
           (if a <= k < a + g.cols && ((p == 0 && a + t.x <= k) || (p == 1 && k < a + t.x) || p == 2) then 0x0720 else t.cells[k])
      && EraseDisplay(t, g, p).cells[k] ==
           (if (p == 0 && a + t.x <= k) || (p == 1 && k < a + t.x) || p == 2 then 0x0720 else t.cells[k])
  {
    hide LineStart, Cursor, Geometry.Cells;
  }

  /** ESC [ K and ESC [ J; 0 from the cursor on, 1 before the cursor, 2 all. */
  lemma ErasedCell(t: Terminal, g: Geometry, p: nat, row: nat, col: nat)
    requires TerminalOk(t, g) && row < g.lines && col < g.cols
    ensures Cell(EraseLine(t, g, p), g, row, col) ==
      if row == t.y && ((p == 0 && t.x <= col) || (p == 1 && col < t.x) || p == 2) then 0x0720 else Cell(t, g, row, col)
    ensures Cell(EraseDisplay(t, g, p), g, row, col) ==
      if (p == 0 && (row > t.y || (row == t.y && t.x <= col))) || (p == 1 && (row < t.y || (row == t.y && col < t.x))) || p == 2
      then 0x0720 else Cell(t, g, row, col)
  {
    hide EraseLine, EraseDisplay, LineStart;
    InRow(t, g, row, col);
    ErasedAt(t, g, p, row * g.cols + col);
  }

  // ---------------------------------------------------------------- characters in a row

  lemma InsertOne(v: seq<int>, p: nat, e: nat, k: nat)
    requires p <= e <= |v| && k < |v|
    ensures Inserted(v, p, e)[k] == if k < p || e <= k then v[k] else if k == p then ERASE else v[k - 1]
  {}

  lemma DeleteOne(v: seq<int>, p: nat, e: nat, k: nat)
    requires p <= e <= |v| && k < |v|
    ensures Deleted(v, p, e)[k] == if k < p || e <= k then v[k] else if k + 1 < e then v[k + 1] else ERASE
  {}

  lemma {:induction false} InsertedAt(v: seq<int>, p: nat, e: nat, n: nat, k: nat)
    requires p <= e <= |v| && k < |v|
    ensures InsertedN(v, p, e, n)[k] == if k < p || e <= k then v[k] else if k < p + n then ERASE else v[k - n]
  {
    hide Inserted;
    if n > 0 {
      InsertOne(InsertedN(v, p, e, n - 1), p, e, k);
      InsertedAt(v, p, e, n - 1, k);
      if p < k < e {
        InsertedAt(v, p, e, n - 1, k - 1);
      }
    }
  }

  lemma {:induction false} DeletedAt(v: seq<int>, p: nat, e: nat, n: nat, k: nat)
    requires p <= e <= |v| && k < |v|
    ensures DeletedN(v, p, e, n)[k] == if k < p || e <= k then v[k] else if k + n < e then v[k + n] else ERASE
  {
    hide Deleted;
    if n > 0 {
      DeleteOne(DeletedN(v, p, e, n - 1), p, e, k);
      DeletedAt(v, p, e, n - 1, k);
      if p <= k && k + 1 < e {
        DeletedAt(v, p, e, n - 1, k + 1);
      }
    }
  }

  lemma CharsAt(t: Terminal, g: Geometry, n: nat, k: nat)
    requires TerminalOk(t, g) && k < g.Cells()
    ensures
      var a := LineStart(t, g);
      && InsertChars(t, g, n).cells[k] ==
           (if k < a + t.x || a + g.cols <= k then t.cells[k] else if k < a + t.x + n then 0x0720 else t.cells[k - n])
      && DeleteChars(t, g, n).cells[k] ==
           (if k < a + t.x || a + g.cols <= k then t.cells[k] else if k + n < a + g.cols then t.cells[k + n] else 0x0720)
  {
    hide LineStart, Cursor, Geometry.Cells, InsertedN, DeletedN;
    var a := LineStart(t, g);
    InsertedAt(t.cells, a + t.x, a + g.cols, n, k);
    DeletedAt(t.cells, a + t.x, a + g.cols, n, k);
  }

  /** n cells come in at the cursor, or go; the rest of the row moves. */
  lemma CharsCell(t: Terminal, g: Geometry, n: nat, row: nat, col: nat)
    requires TerminalOk(t, g) && row < g.lines && col < g.cols
    ensures Cell(InsertChars(t, g, n), g, row, col) ==
      if row != t.y || col < t.x then Cell(t, g, row, col)
      else if col < t.x + n then 0x0720
      else Cell(t, g, row, col - n)
    ensures Cell(DeleteChars(t, g, n), g, row, col) ==
      if row != t.y || col < t.x then Cell(t, g, row, col)
      else if col + n < g.cols then Cell(t, g, row, col + n)
      else 0x0720
  {
    hide InsertChars, DeleteChars, LineStart;
    InRow(t, g, row, col);
    CharsAt(t, g, n, row * g.cols + col);
  }

  // ---------------------------------------------------------------- rows

  /** Where a cell lies to the edges of a region. */
  lemma Places(g: Geometry, top: nat, bottom: nat, row: nat, col: nat)
    requires top < bottom <= g.lines && row < g.lines && col < g.cols
    ensures var k, c := row * g.cols + col, g.cols;
      && (top * c <= k <==> top <= row) && (k < bottom * c <==> row < bottom)
      && (k < bottom * c - c <==> row + 1 < bottom) && (top * c + c <= k <==> top < row)
      && k < g.Cells() && (row + 1) * c == row * c + c && (row > 0 ==> (row - 1) * c == row * c - c)
  {
    Rows(g, row, col, top);
    Rows(g, row, col, bottom - 1);
    if bottom <= row {
      Rows(g, row, col, bottom - 1);
      RowsApart(bottom - 1, row, g.cols);
    }
    assert (bottom - 1) * g.cols == bottom * g.cols - g.cols;
    if row > 0 {
      assert (row - 1) * g.cols == row * g.cols - g.cols;
    }
  }

  lemma UpCell(v: seq<int>, g: Geometry, top: nat, bottom: nat, row: nat, col: nat)
    requires |v| == g.Cells() && top < bottom <= g.lines && row < g.lines && col < g.cols
    ensures top * g.cols + g.cols <= bottom * g.cols <= |v|
    ensures
      var k := row * g.cols + col;
      && k < |v| && (row + 1 < bottom ==> k + g.cols < |v|)
      && Up(v, top * g.cols, bottom * g.cols, g.cols)[k] ==
           if row < top || bottom <= row then v[k] else if row + 1 < bottom then v[k + g.cols] else ERASE
  {
    RowsFit(top, bottom, g);
    Places(g, top, bottom, row, col);
    hide Up, Geometry.Cells;
    var a, b, k := top * g.cols, bottom * g.cols, row * g.cols + col;
    UpAt(v, a, b, g.cols, k);
  }

  lemma DownCell(v: seq<int>, g: Geometry, top: nat, bottom: nat, row: nat, col: nat)
    requires |v| == g.Cells() && top < bottom <= g.lines && row < g.lines && col < g.cols
    ensures top * g.cols + g.cols <= bottom * g.cols <= |v|
    ensures
      var k := row * g.cols + col;
      && k < |v| && (top < row ==> g.cols <= k)
      && Down(v, top * g.cols, bottom * g.cols, g.cols)[k] ==
           if row < top || bottom <= row then v[k] else if top < row then v[k - g.cols] else ERASE
  {
    RowsFit(top, bottom, g);
    Places(g, top, bottom, row, col);
    hide Down, Geometry.Cells;
    var a, b, k := top * g.cols, bottom * g.cols, row * g.cols + col;
    DownAt(v, a, b, g.cols, k);
  }

  lemma UpOnce(t: Terminal, g: Geometry, top: nat, bottom: nat, n: nat, row: nat, col: nat)
    requires TerminalOk(t, g) && top < bottom <= g.lines && row < g.lines && col < g.cols
    ensures
      var u := ScrollUp(t, g, top, bottom, n);
      Cell(ScrollUp(t, g, top, bottom, n + 1), g, row, col) ==
        if row < top || bottom <= row then Cell(u, g, row, col)
        else if row + 1 < bottom then Cell(u, g, row + 1, col)
        else 0x0720
  {
    RowsFit(top, bottom, g);
    Places(g, top, bottom, row, col);
    UpCell(ScrollUp(t, g, top, bottom, n).cells, g, top, bottom, row, col);
    hide Up, Geometry.Cells;
  }

  lemma DownOnce(t: Terminal, g: Geometry, top: nat, bottom: nat, n: nat, row: nat, col: nat)
    requires TerminalOk(t, g) && top < bottom <= g.lines && row < g.lines && col < g.cols
    ensures
      var u := ScrollDown(t, g, top, bottom, n);
      Cell(ScrollDown(t, g, top, bottom, n + 1), g, row, col) ==
        if row < top || bottom <= row then Cell(u, g, row, col)
        else if top < row then Cell(u, g, row - 1, col)
        else 0x0720
  {
    RowsFit(top, bottom, g);
    Places(g, top, bottom, row, col);
    DownCell(ScrollDown(t, g, top, bottom, n).cells, g, top, bottom, row, col);
    hide Down, Geometry.Cells;
  }

  lemma ScrollNone(t: Terminal, g: Geometry, top: nat, bottom: nat)
    requires TerminalOk(t, g) && top < bottom <= g.lines
    ensures ScrollUp(t, g, top, bottom, 0) == t && ScrollDown(t, g, top, bottom, 0) == t
  {
    RowsFit(top, bottom, g);
  }

  /** Rows top to bottom move up by n. */
  lemma {:induction false} ScrolledUp(t: Terminal, g: Geometry, top: nat, bottom: nat, n: nat, row: nat, col: nat)
    requires TerminalOk(t, g) && top < bottom <= g.lines && row < g.lines && col < g.cols
    ensures Cell(ScrollUp(t, g, top, bottom, n), g, row, col) ==
      if row < top || bottom <= row then Cell(t, g, row, col)
      else if row + n < bottom then Cell(t, g, row + n, col)
      else 0x0720
    decreases n
  {
    hide Cell, ScrollUp;
    if n == 0 {
      ScrollNone(t, g, top, bottom);
    } else {
      UpOnce(t, g, top, bottom, n - 1, row, col);
      ScrolledUp(t, g, top, bottom, n - 1, row, col);
      if row + 1 < g.lines {
        ScrolledUp(t, g, top, bottom, n - 1, row + 1, col);
      }
    }
  }

  /** And down. */
  lemma {:induction false} ScrolledDown(t: Terminal, g: Geometry, top: nat, bottom: nat, n: nat, row: nat, col: nat)
    requires TerminalOk(t, g) && top < bottom <= g.lines && row < g.lines && col < g.cols
    ensures Cell(ScrollDown(t, g, top, bottom, n), g, row, col) ==
      if row < top || bottom <= row then Cell(t, g, row, col)
      else if row < top + n then 0x0720
      else Cell(t, g, row - n, col)
    decreases n
  {
    hide Cell, ScrollDown;
    if n == 0 {
      ScrollNone(t, g, top, bottom);
    } else {
      DownOnce(t, g, top, bottom, n - 1, row, col);
      ScrolledDown(t, g, top, bottom, n - 1, row, col);
      if row > 0 {
        ScrolledDown(t, g, top, bottom, n - 1, row - 1, col);
      }
    }
  }

  // ---------------------------------------------------------------- escape sequences

  /** What the byte that ends a sequence does to the cells; p is its first parameter. J and K erase. */
  lemma EraseCommand(t: Terminal, g: Geometry, c: char, row: nat, col: nat)
    requires TerminalOk(t, g) && row < g.lines && col < g.cols && (c == 'J' || c == 'K')
    ensures
      var p, now, was := t.par[0], Cell(Command(t, g, c as int), g, row, col), Cell(t, g, row, col);
      now ==
        if c == 'J' then
          (if (p == 0 && (row > t.y || (row == t.y && t.x <= col)))
              || (p == 1 && (row < t.y || (row == t.y && col < t.x))) || p == 2
           then 0x0720 else was)
        else
          (if row == t.y && ((p == 0 && t.x <= col) || (p == 1 && col < t.x) || p == 2) then 0x0720 else was)
  {
    var u, p := t.(state := 0), t.par[0];
    Dispatched(t, g, c);
    SameCells(t, u, g);
    hide Command, EraseDisplay, EraseLine, Cell, Geometry.Cells;
    ErasedCell(u, g, p, row, col);
  }

  /** L and M insert and delete rows. */
  lemma RowCommand(t: Terminal, g: Geometry, c: char, row: nat, col: nat)
    requires TerminalOk(t, g) && row < g.lines && col < g.cols && (c == 'L' || c == 'M')
    ensures
      var p, now, was := t.par[0], Cell(Command(t, g, c as int), g, row, col), Cell(t, g, row, col);
      var n := if p == 0 then 1 else if p > g.lines then g.lines else p;
      now ==
        if row < t.y then was
        else if c == 'L' then (if row < t.y + n then 0x0720 else Cell(t, g, row - n, col))
        else (if row + n < g.lines then Cell(t, g, row + n, col) else 0x0720)
  {
    var u, n := t.(state := 0), Clipped(t.par[0], g.lines);
    Dispatched(t, g, c);
    SameCells(t, u, g);
    hide Command, ScrollUp, ScrollDown, Cell, Geometry.Cells;
    if c == 'L' {
      ScrolledDown(u, g, u.y, g.lines, n, row, col);
    } else {
      ScrolledUp(u, g, u.y, g.lines, n, row, col);
    }
  }

  /** @ and P insert and delete characters. */
  lemma CharCommand(t: Terminal, g: Geometry, c: char, row: nat, col: nat)
    requires TerminalOk(t, g) && row < g.lines && col < g.cols && (c == '@' || c == 'P')
    ensures
      var p, now, was := t.par[0], Cell(Command(t, g, c as int), g, row, col), Cell(t, g, row, col);
      var n := if p == 0 then 1 else if p > g.cols then g.cols else p;
      now ==
        if row != t.y || col < t.x then was
        else if c == '@' then (if col < t.x + n then 0x0720 else Cell(t, g, row, col - n))
        else (if col + n < g.cols then Cell(t, g, row, col + n) else 0x0720)
  {
    var u, n := t.(state := 0), Clipped(t.par[0], g.cols);
    Dispatched(t, g, c);
    SameCells(t, u, g);
    hide Command, InsertChars, DeleteChars, Cell, Geometry.Cells;
    CharsCell(u, g, n, row, col);
  }

  /** All other bytes leave the cells alone. */
  lemma OtherCommand(t: Terminal, g: Geometry, c: char, row: nat, col: nat)
    requires TerminalOk(t, g) && row < g.lines && col < g.cols && c !in "JKLM@P"
    ensures Cell(Command(t, g, c as int), g, row, col) == Cell(t, g, row, col)
  {
    Dispatched(t, g, c);
    SameCells(t, Command(t, g, c as int), g);
  }

  const MOVES: string := "G`ABeCaDEFdHf"

  /** Which routine a byte leads to. */
  lemma Dispatched(t: Terminal, g: Geometry, c: char)
    requires TerminalOk(t, g)
    ensures
      var u, p, r := t.(state := 0), t.par[0], Command(t, g, c as int);
      && (c == 'J' ==> r == EraseDisplay(u, g, p)) && (c == 'K' ==> r == EraseLine(u, g, p))
      && (c == 'L' ==> r == ScrollDown(u, g, u.y, g.lines, Clipped(p, g.lines)))
      && (c == 'M' ==> r == ScrollUp(u, g, u.y, g.lines, Clipped(p, g.lines)))
      && (c == 'P' ==> r == DeleteChars(u, g, Clipped(p, g.cols)))
      && (c == '@' ==> r == InsertChars(u, g, Clipped(p, g.cols)))
      && (c !in "JKLMP@" ==> r.cells == t.cells)
      && (c in MOVES ==> r == MoveCommand(u, g, c as int, p, t.par[1]))
      && (c == 'u' ==> r == Goto(u, g, u.savedX, u.savedY))
      && (c !in MOVES && c != 'u' ==> r.x == t.x && r.y == t.y)
  {
    hide EraseDisplay, EraseLine, ScrollUp, ScrollDown, DeleteChars, InsertChars, MoveCommand, Attribute;
    MovesOnly(t.(state := 0), g, c as int, t.par[0], t.par[1]);
    DrawsOnly(t.(state := 0), g, t.par[0]);
    DrawsRows(t.(state := 0), g, Clipped(t.par[0], g.lines));
    assert c in MOVES <==> IsMove(c as int);
    assert !IsMove(c as int) || c !in "JKLMP@";
  }

  lemma SameCells(t: Terminal, u: Terminal, g: Geometry)
    requires TerminalOk(t, g) && TerminalOk(u, g) && u.cells == t.cells
    ensures forall i: nat, j: nat | i < g.lines && j < g.cols :: Cell(u, g, i, j) == Cell(t, g, i, j)
  {}

  lemma MovesOnly(t: Terminal, g: Geometry, c: int, p: nat, q: nat)
    requires TerminalOk(t, g)
    ensures
      var u := MoveCommand(t, g, c, p, q);
      u == t.(x := u.x, y := u.y)
  {}

  const WORD: int := 0x1_0000_0000

  /** gotoxy: rows and columns are taken as unsigned words, and a place outside the screen is ignored. */
  function Placed(t: Terminal, g: Geometry, x: int, y: int): (int, int) {
    if x % WORD <= g.cols && y % WORD < g.lines then (x % WORD, y % WORD) else (t.x, t.y)
  }

  lemma GotoPlace(t: Terminal, g: Geometry, x: int, y: int)
    requires TerminalOk(t, g)
    ensures var r := Goto(t, g, x, y); (r.x, r.y) == Placed(t, g, x, y)
  {
    hide Geometry.Cells;
  }

  /** Where it puts the cursor; p and q are its first two parameters. */
  lemma CommandCursor(t: Terminal, g: Geometry, c: char)
    requires TerminalOk(t, g)
    ensures
      var p, q, r := t.par[0], t.par[1], Command(t, g, c as int);
      var n := if p == 0 then 1 else p;
      var first, second := if p == 0 then 0 else p - 1, if q == 0 then 0 else q - 1;
      (r.x, r.y) ==
        if c == 'G' || c == '`' then Placed(t, g, first, t.y)
        else if c == 'A' then Placed(t, g, t.x, t.y - n)
        else if c == 'B' || c == 'e' then Placed(t, g, t.x, t.y + n)
        else if c == 'C' || c == 'a' then Placed(t, g, t.x + n, t.y)
        else if c == 'D' then Placed(t, g, t.x - n, t.y)
        else if c == 'E' then Placed(t, g, 0, t.y + n)
        else if c == 'F' then Placed(t, g, 0, t.y - n)
        else if c == 'd' then Placed(t, g, t.x, first)
        else if c == 'H' || c == 'f' then Placed(t, g, second, first)
        else if c == 'u' then Placed(t, g, t.savedX, t.savedY)
        else (t.x, t.y)
  {
    Dispatched(t, g, c);
    var u := t.(state := 0);
    assert forall x: int, y: int :: Placed(u, g, x, y) == Placed(t, g, x, y);
    forall x: int, y: int ensures var r := Goto(u, g, x, y); (r.x, r.y) == Placed(u, g, x, y) {
      GotoPlace(u, g, x, y);
    }
    hide Command, Goto, Placed, MoveCommand, TerminalOk;
    if c in MOVES {
      Moved(u, g, c, t.par[0], t.par[1]);
    }
  }

  lemma Moved(t: Terminal, g: Geometry, c: char, p: nat, q: nat)
    requires TerminalOk(t, g) && c in MOVES
    ensures
      var r, n := MoveCommand(t, g, c as int, p, q), if p == 0 then 1 else p;
      var first, second := if p == 0 then 0 else p - 1, if q == 0 then 0 else q - 1;
      r == match c
        case 'A' => Goto(t, g, t.x, t.y - n)
        case 'B' => Goto(t, g, t.x, t.y + n)
        case 'e' => Goto(t, g, t.x, t.y + n)
        case 'C' => Goto(t, g, t.x + n, t.y)
        case 'a' => Goto(t, g, t.x + n, t.y)
        case 'D' => Goto(t, g, t.x - n, t.y)
        case 'E' => Goto(t, g, 0, t.y + n)
        case 'F' => Goto(t, g, 0, t.y - n)
        case 'd' => Goto(t, g, t.x, first)
        case 'H' => Goto(t, g, second, first)
        case 'f' => Goto(t, g, second, first)
        case _ => Goto(t, g, first, t.y)
  {
    hide Goto, Geometry.Cells;
  }

  lemma DrawsOnly(t: Terminal, g: Geometry, p: nat)
    requires TerminalOk(t, g)
    ensures EraseDisplay(t, g, p) == t.(cells := EraseDisplay(t, g, p).cells)
    ensures EraseLine(t, g, p) == t.(cells := EraseLine(t, g, p).cells)
    ensures forall n: nat :: InsertChars(t, g, n) == t.(cells := InsertChars(t, g, n).cells)
    ensures forall n: nat :: DeleteChars(t, g, n) == t.(cells := DeleteChars(t, g, n).cells)
  {}

  lemma DrawsRows(t: Terminal, g: Geometry, n: nat)
    requires TerminalOk(t, g)
    ensures ScrollUp(t, g, t.y, g.lines, n) == t.(cells := ScrollUp(t, g, t.y, g.lines, n).cells)
    ensures ScrollDown(t, g, t.y, g.lines, n) == t.(cells := ScrollDown(t, g, t.y, g.lines, n).cells)
  {}

  /** What else it does: m sets the attribute, r the region that scrolls, s the saved place. */
  lemma CommandRest(t: Terminal, g: Geometry, c: char)
    requires TerminalOk(t, g)
    ensures
      var p, q, r := t.par[0], t.par[1], Command(t, g, c as int);
      var first, last := if p == 0 then 0 else p - 1, if q == 0 then g.lines else q;
      && r.state == 0 && (c != 'm' ==> r.attr == t.attr)
      && (r.top, r.bottom) == (if c == 'r' && first < last <= g.lines then (first, last) else (t.top, t.bottom))
      && (r.savedX, r.savedY) == (if c == 's' then (t.x, t.y) else (t.savedX, t.savedY))
  {
    hide EraseDisplay, EraseLine, ScrollUp, ScrollDown, DeleteChars, InsertChars, Attribute;
    DrawsOnly(t.(state := 0), g, t.par[0]);
    DrawsRows(t.(state := 0), g, Clipped(t.par[0], g.lines));
  }

  /** A parameter that sets the attribute. */
  predicate Sets(p: nat) {
    p == 0 || p == 1 || p == 4 || p == 7 || p == 27
  }

  /** The last parameter that sets the attribute decides; without one it stays. */
  lemma AttributeLast(t: Terminal, g: Geometry, k: nat)
    requires TerminalOk(t, g) && k <= t.npar && forall i: nat | k < i <= t.npar :: !Sets(t.par[i])
    ensures Sets(t.par[k]) ==>
      Command(t, g, 'm' as int).attr == if t.par[k] == 7 then 0x70 else if t.par[k] == 1 || t.par[k] == 4 then 0x0f else 0x07
    ensures k == 0 && !Sets(t.par[0]) ==> Command(t, g, 'm' as int).attr == t.attr
  {
    AttributeFrom(t.par, t.npar + 1, t.attr, k);
  }

  lemma {:induction false} AttributeFrom(par: seq<nat>, n: nat, attr: int, k: nat)
    requires k < n <= |par| && forall i: nat | k < i < n :: !Sets(par[i])
    ensures Attribute(par, n, attr) == Attribute(par, k + 1, attr)
  {
    if k + 1 < n {
      AttributeFrom(par, n - 1, attr, k);
    }
  }

  // ---------------------------------------------------------------- plain bytes

  lemma LfRest(t: Terminal, g: Geometry)
    requires TerminalOk(t, g)
    ensures Lf(t, g) == t.(cells := Lf(t, g).cells, y := Lf(t, g).y)
  {}

  /** A line feed goes down one row, and at the last row of the region scrolls it; a reverse one goes up. */
  lemma LineFeeds(t: Terminal, g: Geometry, row: nat, col: nat)
    requires TerminalOk(t, g) && row < g.lines && col < g.cols
    ensures Lf(t, g).x == t.x && Lf(t, g).y == if t.y + 1 < t.bottom then t.y + 1 else t.y
    ensures Cell(Lf(t, g), g, row, col) ==
      if t.y + 1 < t.bottom || row < t.top || t.bottom <= row then Cell(t, g, row, col)
      else if row + 1 < t.bottom then Cell(t, g, row + 1, col)
      else 0x0720
    ensures Ri(t, g).x == t.x && Ri(t, g).y == if t.top < t.y then t.y - 1 else t.y
    ensures Cell(Ri(t, g), g, row, col) ==
      if t.top < t.y || row < t.top || t.bottom <= row then Cell(t, g, row, col)
      else if t.top < row then Cell(t, g, row - 1, col)
      else 0x0720
  {
    hide Cell;
    ScrolledUp(t, g, t.top, t.bottom, 1, row, col);
    ScrolledDown(t, g, t.top, t.bottom, 1, row, col);
    SameCells(t, t.(y := Lf(t, g).y), g);
    SameCells(t, t.(y := Ri(t, g).y), g);
  }

  lemma PutCell(t: Terminal, g: Geometry, w: int, row: nat, col: nat)
    requires TerminalOk(t, g) && t.x < g.cols && row < g.lines && col < g.cols
    ensures
      var u := t.(cells := t.cells[Cursor(t, g) := w], x := t.x + 1);
      TerminalOk(u, g) && Cell(u, g, row, col) == if row == t.y && col == t.x then w else Cell(t, g, row, col)
  {
    InRow(t, g, row, col);
  }

  /** A printable byte appears at the cursor, which goes on by one column; behind the last column it
      appears at the start of the next row. */
  lemma PrintedCell(t: Terminal, g: Geometry, c: int, eraseChar: int, row: nat, col: nat)
    requires TerminalOk(t, g) && GeometryOk(g) && 31 < c < 127 && row < g.lines && col < g.cols
    ensures
      var r := Plain(t, g, c, eraseChar);
      && (t.x < g.cols ==>
            && r.x == t.x + 1 && r.y == t.y
            && Cell(r, g, row, col) == if row == t.y && col == t.x then t.attr * 256 + c else Cell(t, g, row, col))
      && (t.x == g.cols ==>
            && r.x == 1 && r.y == (if t.y + 1 < t.bottom then t.y + 1 else t.y)
            && Cell(r, g, row, col) ==
                 if row == r.y && col == 0 then t.attr * 256 + c
                 else if t.y + 1 < t.bottom || row < t.top || t.bottom <= row then Cell(t, g, row, col)
                 else if row + 1 < t.bottom then Cell(t, g, row + 1, col)
                 else 0x0720)
  {
    hide Cell, Cursor, ScrollUp;
    if t.x < g.cols {
      PutCell(t, g, t.attr * 256 + c, row, col);
    } else {
      var s := t.(x := t.x - g.cols);
      SameCells(t, s, g);
      LineFeeds(s, g, row, col);
      var u := Lf(s, g);
      LfRest(s, g);
      PutCell(u, g, t.attr * 256 + c, row, col);
    }
  }

  lemma ErasedBack(t: Terminal, g: Geometry, row: nat, col: nat)
    requires TerminalOk(t, g) && row < g.lines && col < g.cols
    ensures
      var r := DeleteBack(t, g);
      && r.x == (if t.x == 0 then 0 else t.x - 1) && r.y == t.y
      && Cell(r, g, row, col) == if row == t.y && col + 1 == t.x then 0x0720 else Cell(t, g, row, col)
  {
    InRow(t, g, row, col);
    hide LineStart, Geometry.Cells;
    if t.x > 0 {
      FillAt(t.cells, LineStart(t, g) + (t.x - 1), 1, row * g.cols + col);
    }
  }

  /** The erase character of the terminal erases the cell before the cursor. */
  lemma EraseCharCell(t: Terminal, g: Geometry, c: int, row: nat, col: nat)
    requires TerminalOk(t, g) && GeometryOk(g) && row < g.lines && col < g.cols && (c == 8 || c == 127)
    ensures
      var r := Plain(t, g, c, c);
      && r.x == (if t.x == 0 then 0 else t.x - 1) && r.y == t.y
      && Cell(r, g, row, col) == if row == t.y && col + 1 == t.x then 0x0720 else Cell(t, g, row, col)
  {
    ErasedBack(t, g, row, col);
    hide DeleteBack, Cell, Lf;
  }

  /** Carriage return, backspace, tabulator and the three bytes that are line feeds. */
  lemma ControlBytes(t: Terminal, g: Geometry, c: int, e: int)
    requires TerminalOk(t, g) && GeometryOk(g)
    ensures c == 13 ==> Plain(t, g, c, e) == t.(x := 0)
    ensures c == 8 != e ==> Plain(t, g, c, e) == t.(x := if t.x == 0 then 0 else t.x - 1)
    ensures c == 9 != e && t.x + 8 < g.cols ==> Plain(t, g, c, e) == t.(x := (t.x / 8 + 1) * 8)
    ensures c == 10 || c == 11 || c == 12 ==> Plain(t, g, c, e) == Lf(t, g)
  {
    hide DeleteBack, Lf;
  }

  /** ESC D and ESC M are a line feed and a reverse one, ESC E goes to the start of the next row. */
  lemma EscapeCell(t: Terminal, g: Geometry, c: char, row: nat, col: nat)
    requires TerminalOk(t, g) && row < g.lines && col < g.cols && (c == 'D' || c == 'M' || c == 'E')
    ensures
      var r, was := Escape(t, g, c as int), Cell(t, g, row, col);
      var scrolls := row >= t.top && row < t.bottom;
      && (r.x, r.y) ==
           (if c == 'D' then (t.x, if t.y + 1 < t.bottom then t.y + 1 else t.y)
            else if c == 'M' then (t.x, if t.top < t.y then t.y - 1 else t.y)
            else Placed(t, g, 0, t.y + 1))
      && Cell(r, g, row, col) ==
           (if c == 'D' && t.y + 1 >= t.bottom && scrolls then
              (if row + 1 < t.bottom then Cell(t, g, row + 1, col) else 0x0720)
            else if c == 'M' && t.y <= t.top && scrolls then
              (if t.top < row then Cell(t, g, row - 1, col) else 0x0720)
            else was)
  {
    var u := t.(state := 0);
    SameCells(t, u, g);
    LineFeeds(u, g, row, col);
    GotoPlace(u, g, 0, u.y + 1);
    SameCells(t, Goto(u, g, 0, u.y + 1), g);
    hide Lf, Ri, Goto, Cell, Geometry.Cells;
  }

  // ---------------------------------------------------------------- whole sequences

  predicate Digits(ds: seq<int>) {
    forall i: nat | i < |ds| :: 48 <= ds[i] <= 57
  }

  /** The number that decimal digits write. */
  function Decimal(ds: seq<int>): (n: nat)
    requires Digits(ds)
  {
    if ds == [] then 0 else 10 * Decimal(ds[..|ds| - 1]) + (ds[|ds| - 1] - 48)
  }

  lemma WrittenThen(t: Terminal, g: Geometry, cs: seq<int>, c: int, e: int)
    requires TerminalOk(t, g) && GeometryOk(g)
    ensures Written(t, g, cs + [c], e) == Byte(Written(t, g, cs, e), g, c, e)
  {
    assert (cs + [c])[..|cs|] == cs;
  }

  lemma FirstDigit(t: Terminal, g: Geometry, d: int, e: int)
    requires TerminalOk(t, g) && GeometryOk(g) && 48 <= d <= 57
    ensures Byte(t.(state := 2), g, d, e) == t.(state := 3, npar := 0, par := Zeros(NPAR)[0 := d - 48])
  {}

  lemma NextDigit(t: Terminal, g: Geometry, m: nat, d: int, e: int)
    requires TerminalOk(t, g) && GeometryOk(g) && 48 <= d <= 57
    ensures
      var u := t.(state := 3, npar := 0, par := Zeros(NPAR)[0 := m]);
      Byte(u, g, d, e) == t.(state := 3, npar := 0, par := Zeros(NPAR)[0 := (10 * m + (d - 48)) % WORD])
  {
    var p: seq<nat>, v: nat := Zeros(NPAR), (10 * m + (d - 48)) % WORD;
    assert p[0 := m][0 := v] == p[0 := v];
  }

  lemma SequenceOpens(t: Terminal, g: Geometry, e: int)
    requires TerminalOk(t, g) && GeometryOk(g) && t.state == 0
    ensures Written(t, g, [27, 91], e) == t.(state := 2)
  {
    assert [27, 91] == [] + [27] + [91];
    WrittenThen(t, g, [], 27, e);
    WrittenThen(t, g, [] + [27], 91, e);
  }

  /** ESC [ and digits: their number, in 32 bits, is the first parameter. */
  lemma {:induction false} ParameterRead(t: Terminal, g: Geometry, ds: seq<int>, e: int)
    requires TerminalOk(t, g) && GeometryOk(g) && t.state == 0 && Digits(ds)
    ensures
      var r := Written(t, g, [27, 91] + ds, e);
      if ds == [] then r == t.(state := 2)
      else r == t.(state := 3, npar := 0, par := Zeros(NPAR)[0 := Decimal(ds) % WORD])
  {
    hide Byte, Written;
    if ds == [] {
      assert [27, 91] + ds == [27, 91];
      SequenceOpens(t, g, e);
    } else {
      var n := |ds| - 1;
      ParameterRead(t, g, ds[..n], e);
      assert [27, 91] + ds == ([27, 91] + ds[..n]) + [ds[n]];
      WrittenThen(t, g, [27, 91] + ds[..n], ds[n], e);
      hide TerminalOk, Zeros;
      if n == 0 {
        FirstDigit(t, g, ds[0], e);
      } else {
        NextDigit(t, g, Decimal(ds[..n]) % WORD, ds[n], e);
        Shifted(Decimal(ds[..n]), ds[n] - 48);
      }
    }
  }

  lemma Shifted(n: nat, d: nat)
    ensures (10 * (n % WORD) + d) % WORD == (10 * n + d) % WORD
  {
    assert 10 * n + d == 10 * (n % WORD) + d + (10 * (n / WORD)) * WORD;
    Multiple(10 * (n % WORD) + d, 10 * (n / WORD));
  }

  lemma Multiple(a: nat, k: nat)
    ensures (a + k * WORD) % WORD == a % WORD
  {}

  /** So a whole sequence with one parameter is its last byte's command with that number. */
  lemma SequenceRuns(t: Terminal, g: Geometry, ds: seq<int>, c: int, e: int)
    requires TerminalOk(t, g) && GeometryOk(g) && t.state == 0 && Digits(ds) && ds != []
    requires !(48 <= c <= 57) && c != 59
    ensures
      var u := t.(state := 3, npar := 0, par := Zeros(NPAR)[0 := Decimal(ds) % WORD]);
      TerminalOk(u, g) && Written(t, g, [27, 91] + ds + [c], e) == Command(u, g, c)
  {
    ParameterRead(t, g, ds, e);
    WrittenThen(t, g, [27, 91] + ds, c, e);
  }
}
