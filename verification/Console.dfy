/**
 kernel/chr_drv/console.c: the console over video memory, which an EGA card shows from a movable
 origin. All addresses are cells from the start of video memory; the array ends where it ends.
 */
module Console {
  import opened Screen

  // ---------------------------------------------------------------- what is shown

  lemma FillInside(v: seq<int>, a: nat, n: nat, o: nat, e: nat)
    requires o <= a && a + n <= e <= |v|
    ensures Fill(v, a, n)[o..e] == Fill(v[o..e], a - o, n)
  {}

  lemma MoveAt(v: seq<int>, to: nat, from: nat, n: nat, k: nat)
    requires to + n <= |v| && from + n <= |v| && k < |v|
    ensures Move(v, to, from, n)[k] == if to <= k < to + n then v[from + (k - to)] else v[k]
  {}

  lemma MoveInside(v: seq<int>, to: nat, from: nat, n: nat, o: nat, e: nat)
    requires o <= to && to + n <= e <= |v| && o <= from && from + n <= e
    ensures Move(v, to, from, n)[o..e] == Move(v[o..e], to - o, from - o, n)
  {
    var w, z := Move(v, to, from, n)[o..e], Move(v[o..e], to - o, from - o, n);
    forall k: nat | k < e - o ensures w[k] == z[k] {
      MoveAt(v, to, from, n, o + k);
      MoveAt(v[o..e], to - o, from - o, n, k);
    }
  }

  /** What is at k when the cells lo to hi have got those that are `to` - `from` places off. */
  function Cell(v: seq<int>, to: nat, from: nat, lo: nat, hi: nat, k: nat): int
    requires k < |v|
  {
    if lo <= k < hi && 0 <= k - to + from < |v| then v[k - to + from] else v[k]
  }

  ghost predicate Moved(v: seq<int>, w: seq<int>, to: nat, from: nat, lo: nat, hi: nat) {
    |w| == |v| && forall k: nat | k < |v| :: w[k] == Cell(v, to, from, lo, hi, k)
  }

  lemma MovedStart(v: seq<int>, to: nat, from: nat, lo: nat)
    ensures Moved(v, v, to, from, lo, lo)
  {}

  lemma MovedUp(v: seq<int>, w: seq<int>, to: nat, from: nat, i: nat)
    requires to <= from && from + i < |v| && Moved(v, w, to, from, to, to + i)
    ensures Moved(v, w[to + i := w[from + i]], to, from, to, to + i + 1)
  {
    assert w[from + i] == v[from + i];
  }

  lemma MovedDown(v: seq<int>, w: seq<int>, to: nat, from: nat, i: nat, n: nat)
    requires from <= to && i < n && to + n <= |v| && Moved(v, w, to, from, to + i + 1, to + n)
    ensures Moved(v, w[to + i := w[from + i]], to, from, to + i, to + n)
  {
    assert w[from + i] == v[from + i];
  }

  lemma MovedAll(v: seq<int>, w: seq<int>, to: nat, from: nat, n: nat)
    requires to + n <= |v| && from + n <= |v| && Moved(v, w, to, from, to, to + n)
    ensures w == Move(v, to, from, n)
  {
    forall k: nat | k < |v| ensures w[k] == Move(v, to, from, n)[k] {}
  }

  /** A region of the screen goes up, in video memory and on the screen. */
  lemma RegionUp(v: seq<int>, o: nat, e: nat, a: nat, b: nat, cols: nat)
    requires a + cols <= b && o + b <= e <= |v|
    ensures Fill(Move(v, o + a, o + a + cols, b - a - cols), o + b - cols, cols)[o..e] == UpN(v[o..e], a, b, cols, 1)
  {
    var m := Move(v, o + a, o + a + cols, b - a - cols);
    MoveInside(v, o + a, o + a + cols, b - a - cols, o, e);
    FillInside(m, o + b - cols, cols, o, e);
    OnceUp(v[o..e], a, b, cols);
  }

  lemma RegionDown(v: seq<int>, o: nat, e: nat, a: nat, b: nat, cols: nat)
    requires a + cols <= b && o + b <= e <= |v|
    ensures Fill(Move(v, o + a + cols, o + a, b - a - cols), o + a, cols)[o..e] == DownN(v[o..e], a, b, cols, 1)
  {
    var m := Move(v, o + a + cols, o + a, b - a - cols);
    MoveInside(v, o + a + cols, o + a, b - a - cols, o, e);
    FillInside(m, o + a, cols, o, e);
    OnceUp(v[o..e], a, b, cols);
  }

  lemma ScrollWhole(t: Terminal, g: Geometry)
    requires TerminalOk(t, g) && g.lines > 0
    ensures g.cols <= |t.cells|
    ensures ScrollUp(t, g, 0, g.lines, 1) == t.(cells := Up(t.cells, 0, |t.cells|, g.cols))
  {
    RowsFit(0, g.lines, g);
    OnceUp(t.cells, 0, |t.cells|, g.cols);
  }

  lemma OnceUp(s: seq<int>, a: nat, b: nat, cols: nat)
    requires a + cols <= b <= |s|
    ensures UpN(s, a, b, cols, 1) == Up(s, a, b, cols) && DownN(s, a, b, cols, 1) == Down(s, a, b, cols)
  {
    assert UpN(s, a, b, cols, 0) == s && DownN(s, a, b, cols, 0) == s;
  }

  /** The whole screen goes up. */
  lemma UpWhole(s: seq<int>, cols: nat)
    requires cols <= |s|
    ensures Up(s, 0, |s|, cols) == s[cols..] + Blank(cols)
  {}

  lemma OriginMoved(v: seq<int>, o: nat, e: nat, cols: nat)
    requires o <= e && o + cols <= e && e + cols <= |v|
    ensures Fill(v, e, cols)[o + cols..e + cols] == Up(v[o..e], 0, e - o, cols)
  {
    UpWhole(v[o..e], cols);
    assert Fill(v, e, cols)[o + cols..e + cols] == v[o..e][cols..] + Blank(cols);
  }

  lemma OriginBack(v: seq<int>, o: nat, e: nat, cols: nat)
    requires o + cols <= e <= |v|
    ensures Fill(Move(v, 0, o + cols, e - o - cols), e - o - cols, cols)[0..e - o] == Up(v[o..e], 0, e - o, cols)
  {
    UpWhole(v[o..e], cols);
    var m := Move(v, 0, o + cols, e - o - cols);
    assert m[..e - o - cols] == v[o..e][cols..];
  }

  class VideoConsole {
    const video: array<int>
    const g: Geometry
    const ega: bool
    var origin: nat
    var scrEnd: nat
    var pos: nat
    var x: nat
    var y: nat
    var top: nat
    var bottom: nat
    var attr: int
    var state: nat
    var npar: nat
    var par: seq<nat>
    var savedX: nat
    var savedY: nat

    ghost predicate Valid()
      reads this, video
    {
      && GeometryOk(g) && g.cols % 2 == 0
      && scrEnd == origin + g.Cells() <= video.Length
      && pos == origin + y * g.cols + x
      && TerminalOk(Shown(), g)
    }

    /** The screen as its user sees it. */
    ghost function Shown(): Terminal
      requires origin <= scrEnd <= video.Length
      reads this, video
    {
      Terminal(video[origin..scrEnd], x, y, top, bottom, attr, state, npar, par, savedX, savedY)
    }

    /** con_init, with the cursor where the boot code left it. */
    constructor (v: array<int>, geometry: Geometry, card: bool, origX: nat, origY: nat)
      requires GeometryOk(geometry) && geometry.cols % 2 == 0 && geometry.Cells() <= v.Length
      ensures Valid() && video == v && g == geometry && ega == card && origin == 0
    {
      video, g, ega := v, geometry, card;
      origin, scrEnd := 0, geometry.lines * geometry.cols;
      top, bottom := 0, geometry.lines;
      attr, state, npar, par := 0x07, 0, 0, Zeros(NPAR);
      savedX, savedY := 0, 0;
      x, y, pos := 0, 0, 0;
      if !(origX > geometry.cols || origY >= geometry.lines) {
        x, y, pos := origX, origY, origY * geometry.cols + origX;
      }
    }

    // ------------------------------------------------------------ string instructions

    /** `rep ; stosw` with the direction flag clear. */
    method Stosw(a: nat, n: nat)
      requires a + n <= video.Length
      modifies video
      ensures video[..] == Fill(old(video[..]), a, n)
    {
      ghost var v := video[..];
      var i := 0;
      while i < n
        modifies video
        invariant 0 <= i <= n
        invariant forall k: nat | k < |v| :: video[k] == if a <= k < a + i then ERASE else v[k]
      {
        video[a + i] := ERASE;
        i := i + 1;
      }
      assert video[..] == Fill(v, a, n);
    }

    /** And set. */
    method StoswBack(a: nat, n: nat)
      requires a + n <= video.Length
      modifies video
      ensures video[..] == Fill(old(video[..]), a, n)
    {
      ghost var v := video[..];
      var i := n;
      while i > 0
        modifies video
        invariant 0 <= i <= n
        invariant forall k: nat | k < |v| :: video[k] == if a + i <= k < a + n then ERASE else v[k]
      {
        i := i - 1;
        video[a + i] := ERASE;
      }
      assert video[..] == Fill(v, a, n);
    }

    /** `rep ; movsl`, n / 2 times, upwards in memory. */
    method Movsl(to: nat, from: nat, n: nat)
      requires to <= from && from + n <= video.Length && n % 2 == 0
      modifies video
      ensures video[..] == Move(old(video[..]), to, from, n)
    {
      ghost var v := video[..];
      MovedStart(v, to, from, to);
      var i := 0;
      while i < n
        modifies video
        invariant 0 <= i <= n && Moved(v, video[..], to, from, to, to + i)
      {
        ghost var w := video[..];
        MovedUp(v, w, to, from, i);
        video[to + i] := video[from + i];
        assert video[..] == w[to + i := w[from + i]];
        i := i + 1;
      }
      MovedAll(v, video[..], to, from, n);
    }

    /** And downwards. */
    method MovslBack(to: nat, from: nat, n: nat)
      requires from <= to && to + n <= video.Length && n % 2 == 0
      modifies video
      ensures video[..] == Move(old(video[..]), to, from, n)
    {
      ghost var v := video[..];
      MovedStart(v, to, from, to + n);
      var i := n;
      while i > 0
        modifies video
        invariant 0 <= i <= n && Moved(v, video[..], to, from, to + i, to + n)
      {
        i := i - 1;
        ghost var w := video[..];
        MovedDown(v, w, to, from, i, n);
        video[to + i] := video[from + i];
        assert video[..] == w[to + i := w[from + i]];
      }
      MovedAll(v, video[..], to, from, n);
    }

    // ------------------------------------------------------------ scrolling

    /** scrup. On an EGA card a scroll of the whole screen moves the origin, and the screen back to the
        start of video memory when it would run over its end. */
    method Scrup()
      requires Valid()
      modifies this`origin, this`scrEnd, this`pos, video
      ensures Valid() && Shown() == ScrollUp(old(Shown()), g, top, bottom, 1)
    {
      if ega && top == 0 && bottom == g.lines {
        ScrupOrigin();
      } else {
        ScrupRegion();
      }
    }

    method ScrupOrigin()
      requires Valid() && top == 0 && bottom == g.lines
      modifies this`origin, this`scrEnd, this`pos, video
      ensures Valid() && Shown() == ScrollUp(old(Shown()), g, top, bottom, 1)
    {
      hide Up, UpN, Fill, Move, ScrollUp;
      ScrollWhole(Shown(), g);
      EvenRows(g.lines - 1, g.cols);
      LastRow(g);
      origin := origin + g.cols;
      pos := pos + g.cols;
      scrEnd := scrEnd + g.cols;
      if scrEnd > video.Length {
        ScreenBack((g.lines - 1) * g.cols);
      } else {
        OriginMoved(video[..], origin - g.cols, scrEnd - g.cols, g.cols);
        Stosw(scrEnd - g.cols, g.cols);
      }
    }

    /** The screen would run over the end of video memory: back to its start. `n` is the size of all
        rows but one. */
    method ScreenBack(n: nat)
      requires n % 2 == 0 && scrEnd == origin + n + g.cols && origin + n <= video.Length
      requires g.cols <= origin <= pos
      modifies this`origin, this`scrEnd, this`pos, video
      ensures origin == 0 && scrEnd == n + g.cols <= video.Length && pos == old(pos) - old(origin)
      ensures video[origin..scrEnd] == Up(old(video[origin - g.cols..origin + n]), 0, n + g.cols, g.cols)
    {
      hide Up, Fill, Move;
      ghost var v := video[..];
      OriginBack(v, origin - g.cols, origin + n, g.cols);
      assert video[origin - g.cols..origin + n] == v[origin - g.cols..origin + n];
      Movsl(0, origin, n);
      Stosw(n, g.cols);
      assert video[0..n + g.cols] == video[..][0..n + g.cols];
      scrEnd := scrEnd - origin;
      pos := pos - origin;
      origin := 0;
    }

    method ScrupRegion()
      requires Valid()
      modifies video
      ensures Valid() && Shown() == ScrollUp(old(Shown()), g, top, bottom, 1)
    {
      hide Up, UpN, Fill, Move;
      EvenRows(bottom - top - 1, g.cols);
      RowsBetween(top, bottom, g.cols);
      RowsFit(top, bottom, g);
      RegionUp(video[..], origin, scrEnd, top * g.cols, bottom * g.cols, g.cols);
      var n := (bottom - top - 1) * g.cols;
      Movsl(origin + g.cols * top, origin + g.cols * (top + 1), n);
      Stosw(origin + g.cols * top + n, g.cols);
    }

    /** scrdown */
    method Scrdown()
      requires Valid()
      modifies video
      ensures Valid() && Shown() == ScrollDown(old(Shown()), g, top, bottom, 1)
    {
      hide Down, DownN, Fill, Move;
      EvenRows(bottom - top - 1, g.cols);
      RowsBetween(top, bottom, g.cols);
      RowsFit(top, bottom, g);
      RegionDown(video[..], origin, scrEnd, top * g.cols, bottom * g.cols, g.cols);
      var n := (bottom - top - 1) * g.cols;
      MovslBack(origin + g.cols * bottom - n, origin + g.cols * (bottom - 1) - n, n);
      StoswBack(origin + g.cols * bottom - n - g.cols, g.cols);
    }

    // ------------------------------------------------------------ the cursor and single cells

    method Gotoxy(newX: int, newY: int)
      requires Valid()
      modifies this
      ensures Valid() && Shown() == Goto(old(Shown()), g, newX, newY)
    {
      if Unsigned(newX) > g.cols || Unsigned(newY) >= g.lines { return; }
      x := Unsigned(newX);
      y := Unsigned(newY);
      pos := origin + y * g.cols + x;
    }

    method Lf()
      requires Valid()
      modifies this, video
      ensures Valid() && Shown() == Screen.Lf(old(Shown()), g)
    {
      if y + 1 < bottom {
        NextRow(y, g.cols);
        y := y + 1;
        pos := pos + g.cols;
        return;
      }
      Scrup();
    }

    method Ri()
      requires Valid()
      modifies this, video
      ensures Valid() && Shown() == Screen.Ri(old(Shown()), g)
    {
      if y > top {
        NextRow(y - 1, g.cols);
        y := y - 1;
        pos := pos - g.cols;
        return;
      }
      Scrdown();
    }

    /** A cell of the screen is stored to. */
    method Poke(p: nat, c: int)
      requires Valid() && origin <= p < scrEnd
      modifies video
      ensures Valid() && Shown() == old(Shown()).(cells := old(Shown()).cells[p - origin := c])
    {
      ghost var v := video[..];
      video[p] := c;
      assert video[..] == v[p := c];
      assert v[p := c][origin..scrEnd] == v[origin..scrEnd][p - origin := c];
    }

    /** Cells of the screen are erased. */
    method EraseCells(a: nat, n: nat)
      requires Valid() && origin <= a && a + n <= scrEnd
      modifies video
      ensures Valid() && Shown() == Erase(old(Shown()), g, a - origin, n)
    {
      FillInside(video[..], a, n, origin, scrEnd);
      Stosw(a, n);
    }

    method Del()
      requires Valid()
      modifies this, video
      ensures Valid() && Shown() == DeleteBack(old(Shown()), g)
    {
      CursorAt(Shown(), g, origin, pos);
      hide LineStart, Cursor, Fill;
      if x > 0 {
        pos := pos - 1;
        x := x - 1;
        OneCell(Shown().cells, pos - origin);
        Poke(pos, ERASE);
      }
    }

    method CsiJ(p: nat)
      requires Valid()
      modifies video
      ensures Valid() && Shown() == EraseDisplay(old(Shown()), g, p)
    {
      hide Erase;
      ghost var t := Shown();
      CursorAt(t, g, origin, pos);
      if p == 0 {
        EraseCells(pos, scrEnd - pos);
      } else if p == 1 {
        EraseCells(origin, pos - origin);
      } else if p == 2 {
        EraseCells(origin, g.cols * g.lines);
      }
    }

    method CsiK(p: nat)
      requires Valid()
      modifies video
      ensures Valid() && Shown() == EraseLine(old(Shown()), g, p)
    {
      hide Erase;
      ghost var t := Shown();
      CursorAt(t, g, origin, pos);
      EraseNone(t, g, pos - origin);
      if p == 0 {
        if x >= g.cols { return; }
        EraseCells(pos, g.cols - x);
      } else if p == 1 {
        EraseCells(pos - x, if x < g.cols then x else g.cols);
      } else if p == 2 {
        EraseCells(pos - x, g.cols);
      }
    }

    method InsertChar()
      requires Valid()
      modifies video
      ensures Valid() && Shown() == InsertChars(old(Shown()), g, 1)
    {
      hide Inserted, InsertChars, Cursor, LineStart, TerminalOk;
      InsertShown(Shown(), g, video[..], origin, pos);
      ShiftRight(pos, g.cols - x);
    }

    /** The loop of insert_char. */
    method ShiftRight(p: nat, n: nat)
      requires p + n <= video.Length
      modifies video
      ensures video[..] == Inserted(old(video[..]), p, p + n)
    {
      ghost var v := video[..];
      var i: nat := 0;
      var last := ERASE;
      while i < n
        modifies video
        invariant i <= n && last == if i == 0 then ERASE else v[p + i - 1]
        invariant video[..] == Inserted(v, p, p + i)
      {
        ghost var w := video[..];
        InsertedMore(v, p, i, last);
        var tmp := video[p + i];
        video[p + i] := last;
        assert video[..] == w[p + i := last];
        last := tmp;
        i := i + 1;
      }
    }

    method DeleteChar()
      requires Valid()
      modifies video
      ensures Valid() && Shown() == DeleteChars(old(Shown()), g, 1)
    {
      hide Deleted, DeleteChars, Cursor, LineStart;
      DeleteShown(Shown(), g, video[..], origin, pos);
      DeletedNone(video[..], pos);
      if x >= g.cols { return; }
      ShiftLeft(pos, g.cols - x);
    }

    /** The loop of delete_char. */
    method ShiftLeft(p: nat, n: nat)
      requires 0 < n && p + n <= video.Length
      modifies video
      ensures video[..] == Deleted(old(video[..]), p, p + n)
    {
      ghost var v := video[..];
      var i: nat := 0;
      while i + 1 < n
        modifies video
        invariant i + 1 <= n
        invariant Moved(v, video[..], p, p + 1, p, p + i)
      {
        ghost var w := video[..];
        MovedUp(v, w, p, p + 1, i);
        video[p + i] := video[p + i + 1];
        assert video[..] == w[p + i := w[p + i + 1]];
        i := i + 1;
      }
      ghost var w := video[..];
      video[p + i] := ERASE;
      DeletedLast(v, w, p, n);
      assert video[..] == w[p + i := ERASE];
    }

    // ------------------------------------------------------------ repeated commands

    method InsertLine()
      requires Valid()
      modifies this, video
      ensures Valid() && Shown() == ScrollDown(old(Shown()), g, old(y), g.lines, 1)
    {
      var oldtop, oldbottom := top, bottom;
      top := y;
      bottom := g.lines;
      Scrdown();
      top := oldtop;
      bottom := oldbottom;
    }

    method DeleteLine()
      requires Valid()
      modifies this, video
      ensures Valid() && Shown() == ScrollUp(old(Shown()), g, old(y), g.lines, 1)
    {
      var oldtop, oldbottom := top, bottom;
      top := y;
      bottom := g.lines;
      Scrup();
      top := oldtop;
      bottom := oldbottom;
    }

    method CsiAt(n: nat)
      requires Valid()
      modifies video
      ensures Valid() && Shown() == InsertChars(old(Shown()), g, Clipped(n, g.cols))
    {
      ghost var t := Shown();
      for i := 0 to Clipped(n, g.cols)
        invariant Valid() && Shown() == InsertChars(t, g, i)
      {
        MoreChars(t, g, i);
        InsertChar();
      }
    }

    method CsiP(n: nat)
      requires Valid()
      modifies video
      ensures Valid() && Shown() == DeleteChars(old(Shown()), g, Clipped(n, g.cols))
    {
      ghost var t := Shown();
      for i := 0 to Clipped(n, g.cols)
        invariant Valid() && Shown() == DeleteChars(t, g, i)
      {
        MoreChars(t, g, i);
        DeleteChar();
      }
    }

    method CsiL(n: nat)
      requires Valid()
      modifies this, video
      ensures Valid() && Shown() == ScrollDown(old(Shown()), g, old(y), g.lines, Clipped(n, g.lines))
    {
      ghost var t := Shown();
      for i := 0 to Clipped(n, g.lines)
        invariant Valid() && Shown() == ScrollDown(t, g, t.y, g.lines, i)
      {
        MoreLines(t, g, i);
        InsertLine();
      }
    }

    method CsiM(n: nat)
      requires Valid()
      modifies this, video
      ensures Valid() && Shown() == ScrollUp(old(Shown()), g, old(y), g.lines, Clipped(n, g.lines))
    {
      ghost var t := Shown();
      for i := 0 to Clipped(n, g.lines)
        invariant Valid() && Shown() == ScrollUp(t, g, t.y, g.lines, i)
      {
        MoreLines(t, g, i);
        DeleteLine();
      }
    }

    /** csi_m */
    method CsiAttribute()
      requires Valid()
      modifies this
      ensures Valid() && Shown() == old(Shown()).(attr := Attribute(old(par), old(npar) + 1, old(attr)))
    {
      ghost var a := attr;
      for i := 0 to npar + 1
        invariant Valid() && npar == old(npar) && par == old(par)
        invariant Shown() == old(Shown()).(attr := Attribute(par, i, a))
      {
        match par[i] {
          case 0 => attr := 0x07;
          case 1 => attr := 0x0f;
          case 4 => attr := 0x0f;
          case 7 => attr := 0x70;
          case 27 => attr := 0x07;
          case _ =>
        }
      }
    }

    // ------------------------------------------------------------ con_write

    /** The cursor has run over the last column. */
    method WrapAround()
      requires g.cols <= x <= 2 * g.cols && pos == origin + y * g.cols + x && GeometryOk(g) && g.cols % 2 == 0
      requires scrEnd == origin + g.Cells() <= video.Length && TerminalOk(Shown().(x := x - g.cols), g)
      modifies this, video
      ensures Valid() && Shown() == Screen.Lf(old(Shown()).(x := old(x) - g.cols), g)
    {
      x := x - g.cols;
      pos := pos - g.cols;
      Lf();
    }

    method PrintByte(c: int)
      requires Valid()
      modifies this, video
      ensures Valid() && Shown() == Print(old(Shown()), g, c)
    {
      hide Screen.Lf;
      if x >= g.cols { WrapAround(); }
      CursorAt(Shown(), g, origin, pos);
      hide Cursor, LineStart;
      Poke(pos, attr * 256 + c);
      pos := pos + 1;
      x := x + 1;
    }

    method TabByte()
      requires Valid()
      modifies this, video
      ensures Valid() && Shown() == Wrapped(old(Shown()), g, old(x) + (8 - old(x) % 8))
    {
      var c := 8 - x % 8;
      x := x + c;
      pos := pos + c;
      if x > g.cols { WrapAround(); }
    }

    method PlainByte(c: int, eraseChar: int)
      requires Valid()
      modifies this, video
      ensures Valid() && Shown() == Plain(old(Shown()), g, c, eraseChar)
    {
      hide Print, Screen.Lf, DeleteBack, Wrapped;
      if 31 < c < 127 {
        PrintByte(c);
      } else if c == 27 {
        state := 1;
      } else if c == 10 || c == 11 || c == 12 {
        Lf();
      } else if c == 13 {
        pos := pos - x;
        x := 0;
      } else if c == eraseChar {
        Del();
      } else if c == 8 {
        if x > 0 {
          x := x - 1;
          pos := pos - 1;
        }
      } else if c == 9 {
        TabByte();
      }
    }

    method EscapeByte(c: int)
      requires Valid()
      modifies this, video
      ensures Valid() && Shown() == Escape(old(Shown()), g, c)
    {
      state := 0;
      if c == '[' as int {
        state := 2;
      } else if c == 'E' as int {
        Gotoxy(0, y + 1);
      } else if c == 'M' as int {
        Ri();
      } else if c == 'D' as int {
        Lf();
      } else if c == 'Z' as int {
      } else if x == '7' as int {
        savedX, savedY := x, y;
      } else if x == '8' as int {
        Gotoxy(savedX, savedY);
      }
    }

    /** Every sequence that only moves the cursor. */
    method MoveCursor(c: int, p: nat, q: nat) returns (done: bool)
      requires Valid()
      modifies this
      ensures Valid() && (done <==> IsMove(c)) && Shown() == if done then MoveCommand(old(Shown()), g, c, p, q) else old(Shown())
    {
      hide Goto, TerminalOk;
      done := true;
      if c == 'G' as int || c == '`' as int { Gotoxy(Pred(p), y); }
      else if c == 'A' as int { Gotoxy(x, y - Screen.Succ(p)); }
      else if c == 'B' as int || c == 'e' as int { Gotoxy(x, y + Screen.Succ(p)); }
      else if c == 'C' as int || c == 'a' as int { Gotoxy(x + Screen.Succ(p), y); }
      else if c == 'D' as int { Gotoxy(x - Screen.Succ(p), y); }
      else if c == 'E' as int { Gotoxy(0, y + Screen.Succ(p)); }
      else if c == 'F' as int { Gotoxy(0, y - Screen.Succ(p)); }
      else if c == 'd' as int { Gotoxy(x, Pred(p)); }
      else if c == 'H' as int || c == 'f' as int { Gotoxy(Pred(q), Pred(p)); }
      else { done := false; }
    }

    method CommandByte(c: int)
      requires Valid()
      modifies this, video
      ensures Valid() && Shown() == Command(old(Shown()), g, c)
    {
      state := 0;
      var p, q := par[0], par[1];
      var moved := MoveCursor(c, p, q);
      if moved { return; }
      if c == 'J' as int { CsiJ(p); }
      else if c == 'K' as int { CsiK(p); }
      else if c == 'L' as int { CsiL(p); }
      else if c == 'M' as int { CsiM(p); }
      else if c == 'P' as int { CsiP(p); }
      else if c == '@' as int { CsiAt(p); }
      else if c == 'm' as int { CsiAttribute(); }
      else if c == 'r' as int {
        var b := if q == 0 then g.lines else q;
        if Pred(p) < b <= g.lines {
          top := Pred(p);
          bottom := b;
        }
      }
      else if c == 's' as int { savedX, savedY := x, y; }
      else if c == 'u' as int { Gotoxy(savedX, savedY); }
    }

    method ParameterByte(c: int)
      requires Valid()
      modifies this, video
      ensures Valid() && Shown() == Parameter(old(Shown()), g, c)
    {
      if c == ';' as int && npar < NPAR - 1 {
        npar := npar + 1;
      } else if '0' as int <= c <= '9' as int {
        par := par[npar := Unsigned(10 * par[npar] + c - '0' as int)];
      } else {
        CommandByte(c);
      }
    }

    /** One round of con_write's loop. */
    method WriteByte(c: int, eraseChar: int)
      requires Valid()
      modifies this, video
      ensures Valid() && Shown() == Byte(old(Shown()), g, c, eraseChar)
    {
      if state == 0 {
        PlainByte(c, eraseChar);
      } else if state == 1 {
        EscapeByte(c);
      } else if state == 2 {
        par := Zeros(NPAR);
        npar := 0;
        state := 3;
        if c == '?' as int { return; }
        ParameterByte(c);
      } else {
        ParameterByte(c);
      }
    }

    /** con_write: whatever the bytes, the card and the place of the origin, the screen shows what a
        screen that stays in place shows, and no store misses video memory. */
    method ConWrite(cs: seq<int>, eraseChar: int)
      requires Valid()
      modifies this, video
      ensures Valid() && Shown() == Written(old(Shown()), g, cs, eraseChar)
    {
      ghost var t := Shown();
      for i := 0 to |cs|
        invariant Valid() && Shown() == Written(t, g, cs[..i], eraseChar)
      {
        assert cs[..i + 1][..i] == cs[..i];
        WriteByte(cs[i], eraseChar);
      }
      assert cs[..|cs|] == cs;
    }
  }

  lemma NextRow(y: nat, cols: nat)
    ensures (y + 1) * cols == y * cols + cols
  {}

  lemma OneCell(s: seq<int>, p: nat)
    requires p < |s|
    ensures Fill(s, p, 1) == s[p := ERASE]
  {}

  lemma EraseNone(t: Terminal, g: Geometry, a: nat)
    requires TerminalOk(t, g) && a <= g.Cells()
    ensures Erase(t, g, a, 0) == t
  {
    assert Fill(t.cells, a, 0) == t.cells;
  }

  /** The cursor and its row in video memory and on the screen. */
  lemma CursorAt(t: Terminal, g: Geometry, origin: nat, pos: nat)
    requires TerminalOk(t, g) && pos == origin + t.y * g.cols + t.x
    ensures pos - origin == Cursor(t, g) && pos - t.x - origin == LineStart(t, g) && pos - t.x + g.cols <= origin + g.Cells()
    ensures g.cols * g.lines == g.Cells() && origin <= pos - t.x
  {}

  lemma DeletedNone(v: seq<int>, p: nat)
    requires p <= |v|
    ensures Deleted(v, p, p) == v
  {}

  lemma InsertedInside(v: seq<int>, p: nat, e: nat, o: nat, end: nat)
    requires o <= p <= e <= end <= |v|
    ensures Inserted(v, p, e)[o..end] == Inserted(v[o..end], p - o, e - o)
  {
    var w, z := Inserted(v, p, e)[o..end], Inserted(v[o..end], p - o, e - o);
    forall k: nat | k < end - o ensures w[k] == z[k] {
      InsertedAt(v, p, e, o + k);
      InsertedAt(v[o..end], p - o, e - o, k);
    }
  }

  lemma InsertedAt(v: seq<int>, p: nat, e: nat, k: nat)
    requires p <= e <= |v| && k < |v|
    ensures Inserted(v, p, e)[k] == if p < k < e then v[k - 1] else if p == k < e then ERASE else v[k]
  {}

  lemma InsertedMore(v: seq<int>, p: nat, i: nat, last: int)
    requires p + i < |v| && last == if i == 0 then ERASE else v[p + i - 1]
    ensures Inserted(v, p, p + i)[p + i] == v[p + i]
    ensures Inserted(v, p, p + i)[p + i := last] == Inserted(v, p, p + i + 1)
  {
    var w, z := Inserted(v, p, p + i)[p + i := last], Inserted(v, p, p + i + 1);
    forall k: nat | k < |v| ensures w[k] == z[k] {
      InsertedAt(v, p, p + i, k);
      InsertedAt(v, p, p + i + 1, k);
    }
  }

  lemma DeletedLast(v: seq<int>, w: seq<int>, p: nat, n: nat)
    requires 0 < n && p + n <= |v| && Moved(v, w, p, p + 1, p, p + n - 1)
    ensures w[p + n - 1 := ERASE] == Deleted(v, p, p + n)
  {
    var z := w[p + n - 1 := ERASE];
    forall k: nat | k < |v| ensures z[k] == Deleted(v, p, p + n)[k] {
      DeletedAt(v, p, p + n, k);
      assert w[k] == Cell(v, p, p + 1, p, p + n - 1, k);
    }
  }

  lemma DeletedInside(v: seq<int>, p: nat, e: nat, o: nat, end: nat)
    requires o <= p <= e <= end <= |v|
    ensures Deleted(v, p, e)[o..end] == Deleted(v[o..end], p - o, e - o)
  {
    var w, z := Deleted(v, p, e)[o..end], Deleted(v[o..end], p - o, e - o);
    forall k: nat | k < end - o ensures w[k] == z[k] {
      DeletedAt(v, p, e, o + k);
      DeletedAt(v[o..end], p - o, e - o, k);
    }
  }

  lemma DeletedAt(v: seq<int>, p: nat, e: nat, k: nat)
    requires p <= e <= |v| && k < |v|
    ensures Deleted(v, p, e)[k] == if p <= k && k + 1 < e then v[k + 1] else if p <= k < e then ERASE else v[k]
  {}

  lemma OnceInserted(s: seq<int>, p: nat, e: nat)
    requires p <= e <= |s|
    ensures InsertedN(s, p, e, 1) == Inserted(s, p, e) && DeletedN(s, p, e, 1) == Deleted(s, p, e)
  {
    assert InsertedN(s, p, e, 0) == s && DeletedN(s, p, e, 0) == s;
  }

  lemma InsertShown(t: Terminal, g: Geometry, v: seq<int>, origin: nat, pos: nat)
    requires TerminalOk(t, g) && origin + g.Cells() <= |v| && t.cells == v[origin..origin + g.Cells()]
    requires pos == origin + t.y * g.cols + t.x
    ensures t.x <= g.cols && pos + (g.cols - t.x) <= origin + g.Cells()
    ensures t.(cells := Inserted(v, pos, pos + (g.cols - t.x))[origin..origin + g.Cells()]) == InsertChars(t, g, 1)
  {
    hide Inserted, InsertedN;
    CursorAt(t, g, origin, pos);
    var e, p := pos + (g.cols - t.x), Cursor(t, g);
    assert e - origin == LineStart(t, g) + g.cols && p == pos - origin;
    hide Cursor, LineStart, Geometry.Cells;
    InsertedInside(v, pos, e, origin, origin + g.Cells());
    OnceInserted(t.cells, p, e - origin);
  }

  lemma DeleteShown(t: Terminal, g: Geometry, v: seq<int>, origin: nat, pos: nat)
    requires TerminalOk(t, g) && origin + g.Cells() <= |v| && t.cells == v[origin..origin + g.Cells()]
    requires pos == origin + t.y * g.cols + t.x
    ensures t.x <= g.cols && pos + (g.cols - t.x) <= origin + g.Cells()
    ensures t.(cells := Deleted(v, pos, pos + (g.cols - t.x))[origin..origin + g.Cells()]) == DeleteChars(t, g, 1)
  {
    hide Deleted, DeletedN;
    CursorAt(t, g, origin, pos);
    var e, p := pos + (g.cols - t.x), Cursor(t, g);
    assert e - origin == LineStart(t, g) + g.cols && p == pos - origin;
    hide Cursor, LineStart, Geometry.Cells;
    DeletedInside(v, pos, e, origin, origin + g.Cells());
    OnceInserted(t.cells, p, e - origin);
  }

  lemma MoreChars(t: Terminal, g: Geometry, n: nat)
    requires TerminalOk(t, g)
    ensures InsertChars(t, g, n + 1) == InsertChars(InsertChars(t, g, n), g, 1)
    ensures DeleteChars(t, g, n + 1) == DeleteChars(DeleteChars(t, g, n), g, 1)
  {
    var p, e := Cursor(t, g), LineStart(t, g) + g.cols;
    OnceInserted(InsertedN(t.cells, p, e, n), p, e);
    OnceInserted(DeletedN(t.cells, p, e, n), p, e);
    assert InsertChars(t, g, n).cells == InsertedN(t.cells, p, e, n);
    assert DeleteChars(t, g, n).cells == DeletedN(t.cells, p, e, n);
    hide Inserted, Deleted;
  }

  lemma MoreLines(t: Terminal, g: Geometry, n: nat)
    requires TerminalOk(t, g)
    ensures ScrollUp(t, g, t.y, g.lines, n + 1) == ScrollUp(ScrollUp(t, g, t.y, g.lines, n), g, t.y, g.lines, 1)
    ensures ScrollDown(t, g, t.y, g.lines, n + 1) == ScrollDown(ScrollDown(t, g, t.y, g.lines, n), g, t.y, g.lines, 1)
  {
    RowsFit(t.y, g.lines, g);
    OnceUp(ScrollUp(t, g, t.y, g.lines, n).cells, t.y * g.cols, g.lines * g.cols, g.cols);
    OnceUp(ScrollDown(t, g, t.y, g.lines, n).cells, t.y * g.cols, g.lines * g.cols, g.cols);
  }

  lemma EvenRows(n: nat, cols: nat)
    requires cols % 2 == 0
    ensures (n * cols) % 2 == 0
  {
    assert n * cols == 2 * (n * (cols / 2));
  }

  lemma LastRow(g: Geometry)
    requires g.lines > 0
    ensures (g.lines - 1) * g.cols == g.Cells() - g.cols
  {}

  lemma RowsBetween(top: nat, bottom: nat, cols: nat)
    requires top < bottom
    ensures (bottom - top - 1) * cols == bottom * cols - top * cols - cols
    ensures cols * (top + 1) == top * cols + cols && cols * top == top * cols
    ensures cols * bottom == bottom * cols && cols * (bottom - 1) == bottom * cols - cols
  {}

  /** An EGA card, which moves the origin, and a card that copies rows show the same after the same
      bytes. */
  method SameOnBoth(a: VideoConsole, b: VideoConsole, cs: seq<int>, eraseChar: int)
    requires a.Valid() && b.Valid() && a != b && a.video != b.video && a.g == b.g && a.Shown() == b.Shown()
    modifies a, b, a.video, b.video
    ensures a.Valid() && b.Valid() && a.Shown() == b.Shown()
  {
    a.ConWrite(cs, eraseChar);
    b.ConWrite(cs, eraseChar);
  }
}
