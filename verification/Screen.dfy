/**
 What the bytes written to the console of kernel/chr_drv/console.c mean, on a plain screen of `lines`
 rows of `cols` cells that stays where it is.
 */
module Screen {

  /** video_erase_char */
  const ERASE: int := 0x0720
  const NPAR: nat := 16

  datatype Geometry = Geometry(cols: nat, lines: nat) {
    function Cells(): nat {
      lines * cols
    }
  }

  datatype Terminal = Terminal(
    cells: seq<int>, x: nat, y: nat, top: nat, bottom: nat, attr: int,
    state: nat, npar: nat, par: seq<nat>, savedX: nat, savedY: nat)

  /** The cursor may stand behind the last column. */
  predicate TerminalOk(t: Terminal, g: Geometry) {
    && |t.cells| == g.Cells() && t.x <= g.cols && t.y < g.lines && t.top < t.bottom <= g.lines
    && t.state < 4 && t.npar < NPAR && |t.par| == NPAR && t.savedX <= g.cols && t.savedY < g.lines
  }

  // ---------------------------------------------------------------- moving and erasing cells

  function Blank(n: nat): (s: seq<int>)
    ensures |s| == n
  {
    seq(n, _ => ERASE)
  }

  /** n cells from a on are erased. */
  function Fill(v: seq<int>, a: nat, n: nat): (r: seq<int>)
    requires a + n <= |v|
    ensures |r| == |v|
  {
    v[..a] + Blank(n) + v[a + n..]
  }

  /** n cells are copied from `from` to `to`; the places may overlap. */
  function Move(v: seq<int>, to: nat, from: nat, n: nat): (r: seq<int>)
    requires to + n <= |v| && from + n <= |v|
    ensures |r| == |v|
  {
    v[..to] + v[from..from + n] + v[to + n..]
  }

  /** The cells from a to b go up by one row of `cols`, the last of these rows is erased. */
  function Up(v: seq<int>, a: nat, b: nat, cols: nat): (r: seq<int>)
    requires a + cols <= b <= |v|
    ensures |r| == |v|
  {
    Fill(Move(v, a, a + cols, b - cols - a), b - cols, cols)
  }

  /** And down; the first is erased. */
  function Down(v: seq<int>, a: nat, b: nat, cols: nat): (r: seq<int>)
    requires a + cols <= b <= |v|
    ensures |r| == |v|
  {
    Fill(Move(v, a + cols, a, b - cols - a), a, cols)
  }

  /** An erased cell comes in at p, the last cell before e is lost. */
  function Inserted(v: seq<int>, p: nat, e: nat): (r: seq<int>)
    requires p <= e <= |v|
    ensures |r| == |v|
  {
    if p == e then v else v[..p] + [ERASE] + v[p..e - 1] + v[e..]
  }

  /** The cell at p is lost, an erased one comes in before e. */
  function Deleted(v: seq<int>, p: nat, e: nat): (r: seq<int>)
    requires p <= e <= |v|
    ensures |r| == |v|
  {
    if p == e then v else v[..p] + v[p + 1..e] + [ERASE] + v[e..]
  }

  function UpN(v: seq<int>, a: nat, b: nat, cols: nat, n: nat): (r: seq<int>)
    requires a + cols <= b <= |v|
    ensures |r| == |v|
  {
    if n == 0 then v else Up(UpN(v, a, b, cols, n - 1), a, b, cols)
  }

  function DownN(v: seq<int>, a: nat, b: nat, cols: nat, n: nat): (r: seq<int>)
    requires a + cols <= b <= |v|
    ensures |r| == |v|
  {
    if n == 0 then v else Down(DownN(v, a, b, cols, n - 1), a, b, cols)
  }

  function InsertedN(v: seq<int>, p: nat, e: nat, n: nat): (r: seq<int>)
    requires p <= e <= |v|
    ensures |r| == |v|
  {
    if n == 0 then v else Inserted(InsertedN(v, p, e, n - 1), p, e)
  }

  function DeletedN(v: seq<int>, p: nat, e: nat, n: nat): (r: seq<int>)
    requires p <= e <= |v|
    ensures |r| == |v|
  {
    if n == 0 then v else Deleted(DeletedN(v, p, e, n - 1), p, e)
  }

  /** Row r of a screen. */
  function Row(v: seq<int>, r: nat, cols: nat): seq<int>
    requires r * cols + cols <= |v|
  {
    v[r * cols..r * cols + cols]
  }

  lemma RowsApart(r: nat, s: nat, cols: nat)
    requires r < s
    ensures r * cols + cols <= s * cols
  {
    assert (r + 1) * cols <= s * cols;
  }

  /** Scrolling rows top to bottom up: each gets what the next one showed, the last is erased, and the
      rows outside stay. */
  lemma UpRows(v: seq<int>, top: nat, bottom: nat, cols: nat, r: nat)
    requires top < bottom && bottom * cols <= |v| && r * cols + cols <= |v|
    ensures top * cols + cols <= bottom * cols
    ensures r + 1 < bottom ==> r * cols + 2 * cols <= |v|
    ensures Row(Up(v, top * cols, bottom * cols, cols), r, cols)
         == if top <= r && r + 1 < bottom then Row(v, r + 1, cols) else if r + 1 == bottom then Blank(cols) else Row(v, r, cols)
  {
    RowsApart(top, bottom, cols);
    if r < top { RowsApart(r, top, cols); }
    if bottom <= r && bottom < r { RowsApart(bottom, r, cols); }
    if r + 1 < bottom { RowsApart(r + 1, bottom, cols); }
    if top < r { RowsApart(top, r, cols); }
    UpRow(v, top * cols, bottom * cols, cols, r * cols);
  }

  lemma UpRow(v: seq<int>, a: nat, b: nat, cols: nat, p: nat)
    requires a + cols <= b <= |v| && p + cols <= |v|
    requires p + cols <= a || (a <= p && p + 2 * cols <= b) || p + cols == b || b <= p
    ensures Up(v, a, b, cols)[p..p + cols]
         == if a <= p && p + 2 * cols <= b then v[p + cols..p + 2 * cols] else if p + cols == b then Blank(cols) else v[p..p + cols]
  {
    var w := Up(v, a, b, cols);
    var z := if a <= p && p + 2 * cols <= b then v[p + cols..p + 2 * cols] else if p + cols == b then Blank(cols) else v[p..p + cols];
    forall k: nat | k < cols ensures w[p..p + cols][k] == z[k] {
      UpAt(v, a, b, cols, p + k);
    }
  }

  lemma UpAt(v: seq<int>, a: nat, b: nat, cols: nat, k: nat)
    requires a + cols <= b <= |v| && k < |v|
    ensures Up(v, a, b, cols)[k] == if a <= k < b - cols then v[k + cols] else if b - cols <= k < b then ERASE else v[k]
  {
    var m := Move(v, a, a + cols, b - cols - a);
    assert m[k] == if a <= k < b - cols then v[k + cols] else v[k];
  }

  /** Scrolling down: each row gets what the one before it showed, the first is erased. */
  lemma DownRows(v: seq<int>, top: nat, bottom: nat, cols: nat, r: nat)
    requires top < bottom && bottom * cols <= |v| && r * cols + cols <= |v|
    ensures top * cols + cols <= bottom * cols
    ensures Row(Down(v, top * cols, bottom * cols, cols), r, cols)
         == if top < r < bottom then v[r * cols - cols..r * cols] else if r == top then Blank(cols) else Row(v, r, cols)
  {
    RowsApart(top, bottom, cols);
    if r < top { RowsApart(r, top, cols); }
    if top < r { RowsApart(top, r, cols); }
    if r < bottom { RowsApart(r, bottom, cols); }
    if bottom < r { RowsApart(bottom, r, cols); }
    DownRow(v, top * cols, bottom * cols, cols, r * cols);
  }

  lemma DownRow(v: seq<int>, a: nat, b: nat, cols: nat, p: nat)
    requires a + cols <= b <= |v| && p + cols <= |v|
    requires p + cols <= a || (a + cols <= p && p + cols <= b) || p == a || b <= p
    ensures Down(v, a, b, cols)[p..p + cols]
         == if a + cols <= p && p + cols <= b then v[p - cols..p] else if p == a then Blank(cols) else v[p..p + cols]
  {
    var w := Down(v, a, b, cols);
    var z := if a + cols <= p && p + cols <= b then v[p - cols..p] else if p == a then Blank(cols) else v[p..p + cols];
    forall k: nat | k < cols ensures w[p..p + cols][k] == z[k] {
      DownAt(v, a, b, cols, p + k);
    }
  }

  lemma DownAt(v: seq<int>, a: nat, b: nat, cols: nat, k: nat)
    requires a + cols <= b <= |v| && k < |v|
    ensures Down(v, a, b, cols)[k] == if a + cols <= k < b then v[k - cols] else if a <= k < a + cols then ERASE else v[k]
  {
    var m := Move(v, a + cols, a, b - cols - a);
    assert m[k] == if a + cols <= k < b then v[k - cols] else v[k];
  }

  // ---------------------------------------------------------------- control characters

  predicate GeometryOk(g: Geometry) {
    8 <= g.cols && 1 <= g.lines
  }

  lemma RowsFit(top: nat, bottom: nat, g: Geometry)
    requires top < bottom <= g.lines
    ensures top * g.cols + g.cols <= bottom * g.cols <= g.Cells()
  {
    RowsApart(top, bottom, g.cols);
    if bottom < g.lines { RowsApart(bottom, g.lines, g.cols); }
  }

  /** Rows top to bottom go up by n. */
  function ScrollUp(t: Terminal, g: Geometry, top: nat, bottom: nat, n: nat): (r: Terminal)
    requires TerminalOk(t, g) && top < bottom <= g.lines
    ensures TerminalOk(r, g)
  {
    RowsFit(top, bottom, g);
    t.(cells := UpN(t.cells, top * g.cols, bottom * g.cols, g.cols, n))
  }

  function ScrollDown(t: Terminal, g: Geometry, top: nat, bottom: nat, n: nat): (r: Terminal)
    requires TerminalOk(t, g) && top < bottom <= g.lines
    ensures TerminalOk(r, g)
  {
    RowsFit(top, bottom, g);
    t.(cells := DownN(t.cells, top * g.cols, bottom * g.cols, g.cols, n))
  }

  function Lf(t: Terminal, g: Geometry): (r: Terminal)
    requires TerminalOk(t, g)
    ensures TerminalOk(r, g) && r.x == t.x
  {
    if t.y + 1 < t.bottom then t.(y := t.y + 1) else ScrollUp(t, g, t.top, t.bottom, 1)
  }

  function Ri(t: Terminal, g: Geometry): (r: Terminal)
    requires TerminalOk(t, g)
    ensures TerminalOk(r, g)
  {
    if t.y > t.top then t.(y := t.y - 1) else ScrollDown(t, g, t.top, t.bottom, 1)
  }

  /** The arguments are unsigned: what is too big, or was negative, is ignored. */
  function Goto(t: Terminal, g: Geometry, x: int, y: int): (r: Terminal)
    requires TerminalOk(t, g)
    ensures TerminalOk(r, g)
  {
    if Unsigned(x) > g.cols || Unsigned(y) >= g.lines then t else t.(x := Unsigned(x), y := Unsigned(y))
  }

  function Unsigned(n: int): nat {
    n % 0x1_0000_0000
  }

  function Erase(t: Terminal, g: Geometry, a: nat, n: nat): (r: Terminal)
    requires TerminalOk(t, g) && a + n <= g.Cells()
    ensures TerminalOk(r, g)
  {
    t.(cells := Fill(t.cells, a, n))
  }

  /** The cell at the cursor; behind the last column it is the first of the next row. */
  function Cursor(t: Terminal, g: Geometry): (p: nat)
    requires TerminalOk(t, g)
    ensures p <= g.Cells() && (t.x < g.cols ==> p < g.Cells())
  {
    RowsFit(t.y, t.y + 1, g);
    t.y * g.cols + t.x
  }

  /** Where the cursor's row starts. */
  function LineStart(t: Terminal, g: Geometry): (p: nat)
    requires TerminalOk(t, g)
    ensures p + g.cols <= g.Cells() && Cursor(t, g) == p + t.x
  {
    RowsFit(t.y, t.y + 1, g);
    t.y * g.cols
  }

  /** A column beyond the last goes on in the next row. */
  function Wrapped(t: Terminal, g: Geometry, x: nat): (r: Terminal)
    requires TerminalOk(t, g) && GeometryOk(g) && x <= 2 * g.cols
    ensures TerminalOk(r, g)
  {
    if x > g.cols then Lf(t.(x := x - g.cols), g) else t.(x := x)
  }

  function Print(t: Terminal, g: Geometry, c: int): (r: Terminal)
    requires TerminalOk(t, g) && GeometryOk(g)
    ensures TerminalOk(r, g)
  {
    var u := if t.x >= g.cols then Lf(t.(x := t.x - g.cols), g) else t;
    u.(cells := u.cells[Cursor(u, g) := u.attr * 256 + c], x := u.x + 1)
  }

  /** The erase character of the terminal. */
  function DeleteBack(t: Terminal, g: Geometry): (r: Terminal)
    requires TerminalOk(t, g)
    ensures TerminalOk(r, g)
  {
    if t.x > 0 then Erase(t.(x := t.x - 1), g, LineStart(t, g) + (t.x - 1), 1) else t
  }

  function Plain(t: Terminal, g: Geometry, c: int, eraseChar: int): (r: Terminal)
    requires TerminalOk(t, g) && GeometryOk(g)
    ensures TerminalOk(r, g)
  {
    if 31 < c < 127 then Print(t, g, c)
    else if c == 27 then t.(state := 1)
    else if c == 10 || c == 11 || c == 12 then Lf(t, g)
    else if c == 13 then t.(x := 0)
    else if c == eraseChar then DeleteBack(t, g)
    else if c == 8 then (if t.x > 0 then t.(x := t.x - 1) else t)
    else if c == 9 then Wrapped(t, g, t.x + (8 - t.x % 8))
    else t
  }

  /** After ESC. ESC 7 and ESC 8 look at the column instead of the byte. */
  function Escape(t: Terminal, g: Geometry, c: int): (r: Terminal)
    requires TerminalOk(t, g)
    ensures TerminalOk(r, g)
  {
    var u := t.(state := 0);
    if c == '[' as int then u.(state := 2)
    else if c == 'E' as int then Goto(u, g, 0, u.y + 1)
    else if c == 'M' as int then Ri(u, g)
    else if c == 'D' as int then Lf(u, g)
    else if c == 'Z' as int then u
    else if u.x == '7' as int then u.(savedX := u.x, savedY := u.y)
    else if u.x == '8' as int then Goto(u, g, u.savedX, u.savedY)
    else u
  }

  /** So ESC 7 saves the cursor exactly in column 55, or if it is saved already. */
  lemma SavesIff(t: Terminal, g: Geometry)
    requires TerminalOk(t, g) && g.lines < 0x1_0000_0000
    ensures Escape(t, g, '7' as int) == t.(state := 0, savedX := t.x, savedY := t.y)
       <==> t.x == '7' as int || (t.savedX == t.x && t.savedY == t.y)
  {}

  /** And ESC 8 goes back to the saved place exactly in column 56, or if the cursor is there already. */
  lemma RestoresIff(t: Terminal, g: Geometry)
    requires TerminalOk(t, g) && g.cols < 0x1_0000_0000 && g.lines < 0x1_0000_0000
    ensures Escape(t, g, '8' as int) == t.(state := 0, x := t.savedX, y := t.savedY)
       <==> t.x == '8' as int || (t.savedX == t.x && t.savedY == t.y)
  {}

  /** A count: at least 1, at most `most`. */
  function Clipped(n: nat, most: nat): nat {
    if n > most then most else if n == 0 then 1 else n
  }

  function Pred(n: nat): nat {
    if n > 0 then n - 1 else 0
  }

  function Succ(n: nat): nat {
    if n == 0 then 1 else n
  }

  /** csi_m */
  function Attribute(par: seq<nat>, n: nat, attr: int): int
    requires n <= |par|
  {
    if n == 0 then attr else
      var a := Attribute(par, n - 1, attr);
      var p := par[n - 1];
      if p == 0 || p == 27 then 0x07 else if p == 1 || p == 4 then 0x0f else if p == 7 then 0x70 else a
  }

  /** csi_J */
  function EraseDisplay(t: Terminal, g: Geometry, p: nat): (r: Terminal)
    requires TerminalOk(t, g)
    ensures TerminalOk(r, g)
  {
    if p == 0 then Erase(t, g, Cursor(t, g), g.Cells() - Cursor(t, g))
    else if p == 1 then Erase(t, g, 0, Cursor(t, g))
    else if p == 2 then Erase(t, g, 0, g.Cells())
    else t
  }

  /** csi_K */
  function EraseLine(t: Terminal, g: Geometry, p: nat): (r: Terminal)
    requires TerminalOk(t, g)
    ensures TerminalOk(r, g)
  {
    var a := LineStart(t, g);
    if p == 0 then Erase(t, g, a + t.x, g.cols - t.x)
    else if p == 1 then Erase(t, g, a, t.x)
    else if p == 2 then Erase(t, g, a, g.cols)
    else t
  }

  /** csi_at and csi_P */
  function InsertChars(t: Terminal, g: Geometry, n: nat): (r: Terminal)
    requires TerminalOk(t, g)
    ensures TerminalOk(r, g)
  {
    t.(cells := InsertedN(t.cells, Cursor(t, g), LineStart(t, g) + g.cols, n))
  }

  function DeleteChars(t: Terminal, g: Geometry, n: nat): (r: Terminal)
    requires TerminalOk(t, g)
    ensures TerminalOk(r, g)
  {
    t.(cells := DeletedN(t.cells, Cursor(t, g), LineStart(t, g) + g.cols, n))
  }

  /** The region that scrolls. */
  function Region(t: Terminal, g: Geometry, p: nat, q: nat): (r: Terminal)
    requires TerminalOk(t, g)
    ensures TerminalOk(r, g)
  {
    var b := if q == 0 then g.lines else q;
    if Pred(p) < b <= g.lines then t.(top := Pred(p), bottom := b) else t
  }

  predicate IsMove(c: int) {
    c == 'G' as int || c == '`' as int || c == 'A' as int || c == 'B' as int || c == 'e' as int || c == 'C' as int
    || c == 'a' as int || c == 'D' as int || c == 'E' as int || c == 'F' as int || c == 'd' as int || c == 'H' as int
    || c == 'f' as int
  }

  /** The sequences that only move the cursor. */
  function MoveCommand(t: Terminal, g: Geometry, c: int, p: nat, q: nat): (r: Terminal)
    requires TerminalOk(t, g)
    ensures TerminalOk(r, g)
  {
    if c == 'G' as int || c == '`' as int then Goto(t, g, Pred(p), t.y)
    else if c == 'A' as int then Goto(t, g, t.x, t.y - Succ(p))
    else if c == 'B' as int || c == 'e' as int then Goto(t, g, t.x, t.y + Succ(p))
    else if c == 'C' as int || c == 'a' as int then Goto(t, g, t.x + Succ(p), t.y)
    else if c == 'D' as int then Goto(t, g, t.x - Succ(p), t.y)
    else if c == 'E' as int then Goto(t, g, 0, t.y + Succ(p))
    else if c == 'F' as int then Goto(t, g, 0, t.y - Succ(p))
    else if c == 'd' as int then Goto(t, g, t.x, Pred(p))
    else if c == 'H' as int || c == 'f' as int then Goto(t, g, Pred(q), Pred(p))
    else t
  }

  /** The byte that ends an escape sequence. */
  function Command(t: Terminal, g: Geometry, c: int): (r: Terminal)
    requires TerminalOk(t, g)
    ensures TerminalOk(r, g)
  {
    var u, p, q := t.(state := 0), t.par[0], t.par[1];
    if IsMove(c) then MoveCommand(u, g, c, p, q)
    else if c == 'J' as int then EraseDisplay(u, g, p)
    else if c == 'K' as int then EraseLine(u, g, p)
    else if c == 'L' as int then ScrollDown(u, g, u.y, g.lines, Clipped(p, g.lines))
    else if c == 'M' as int then ScrollUp(u, g, u.y, g.lines, Clipped(p, g.lines))
    else if c == 'P' as int then DeleteChars(u, g, Clipped(p, g.cols))
    else if c == '@' as int then InsertChars(u, g, Clipped(p, g.cols))
    else if c == 'm' as int then u.(attr := Attribute(u.par, u.npar + 1, u.attr))
    else if c == 'r' as int then Region(u, g, p, q)
    else if c == 's' as int then u.(savedX := u.x, savedY := u.y)
    else if c == 'u' as int then Goto(u, g, u.savedX, u.savedY)
    else u
  }

  /** A byte of the parameters, or the one that ends them. */
  function Parameter(t: Terminal, g: Geometry, c: int): (r: Terminal)
    requires TerminalOk(t, g)
    ensures TerminalOk(r, g)
  {
    if c == ';' as int && t.npar < NPAR - 1 then t.(npar := t.npar + 1)
    else if '0' as int <= c <= '9' as int then t.(par := t.par[t.npar := Unsigned(10 * t.par[t.npar] + c - '0' as int)])
    else Command(t, g, c)
  }

  function Zeros(n: nat): (s: seq<nat>)
    ensures |s| == n
  {
    seq(n, _ => 0)
  }

  /** con_write, one byte. */
  function Byte(t: Terminal, g: Geometry, c: int, eraseChar: int): (r: Terminal)
    requires TerminalOk(t, g) && GeometryOk(g)
    ensures TerminalOk(r, g)
  {
    if t.state == 0 then Plain(t, g, c, eraseChar)
    else if t.state == 1 then Escape(t, g, c)
    else if t.state == 2 then
      var u := t.(par := Zeros(NPAR), npar := 0, state := 3);
      if c == '?' as int then u else Parameter(u, g, c)
    else Parameter(t, g, c)
  }

  /** con_write */
  function Written(t: Terminal, g: Geometry, cs: seq<int>, eraseChar: int): (r: Terminal)
    requires TerminalOk(t, g) && GeometryOk(g)
    ensures TerminalOk(r, g)
  {
    if cs == [] then t else Byte(Written(t, g, cs[..|cs| - 1], eraseChar), g, cs[|cs| - 1], eraseChar)
  }
}
