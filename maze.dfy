/** The maze: cell kinds, the hard-coded layout, the board built from it, and
    the count of dot cells that the game keeps in step with the board. */
module Maze {
  import opened Geometry

  /** A board cell. `Zero` is a cell the layout never wrote (the zero rune): it
      is neither a wall nor a dot, so it can be walked on and is drawn blank. */
  datatype Cell = Wall | Dot | PowerPellet | Empty | Zero

  /** A board is a sequence of rows, indexed `board[y][x]`. */
  type Board = seq<seq<Cell>>

  predicate Shaped(b: Board) {
    |b| == Height && forall y :: 0 <= y < |b| ==> |b[y]| == Width
  }

  /** The cell a layout character stands for: `W` wall, `D` dot, `P` power
      pellet, and every other character an empty cell. */
  function CellOf(ch: char): (c: Cell)
    ensures c != Zero
    ensures c == Wall <==> ch == 'W'
    ensures c == Dot <==> ch == 'D'
    ensures c == PowerPellet <==> ch == 'P'
  {
    match ch
    case 'W' => Wall
    case 'D' => Dot
    case 'P' => PowerPellet
    case ' ' => Empty
    case _ => Empty
  }

  /** The layout, 28 rows of which only the first `Height` are ever read. */
  const InitialMaze: seq<string> := [
    "WWWWWWWWWWWWWWWWWWWWWWWWWWWWWW",
    "WDDDDDDDDDDDDWWDDDDDDDDDDDDDDW",
    "WDWWWWDWWWWWDWWDWWWWWDWWWWWDWW",
    "WPDWWWDWWWWWDWWDWWWWWDWWWWWDPW",
    "WDWWWWDWWWWWDWWDWWWWWDWWWWWDWW",
    "WDDDDDDDDDDDDDDDDDDDDDDDDDDDDW",
    "WDWWWWDWWDWWWWWWWWDWWDWWWWWDWW",
    "WDWWWWDWWDWWWWWWWWDWWDWWWWWDWW",
    "WDDDDDDWWDDDDWWDDDDWWDDDDDDWW",
    "WWWWWWDWWWWW WWWW WWWWDWWWWWW",
    "     WDWWWWW WWWW WWWWDW     ",
    "     WDWW          WWDW     ",
    "     WDWW WWWWWWWW WWDW     ",
    "WWWWWWDWW W      W WWDWWWWWWW",
    "      D   W      W   D      ",
    "WWWWWWDWW WWWWWWWW WWDWWWWWWW",
    "     WDWW          WWDW     ",
    "     WDWW WWWWWWWW WWDW     ",
    "WWWWWWDWW WWWWWWWW WWDWWWWWWW",
    "WDDDDDDDDDDDDWWDDDDDDDDDDDDWW",
    "WDWWWWDWWWWWDWWDWWWWWDWWWWWDWW",
    "WPDWWWDWWWWWDWWDWWWWWDWWWWWDPW",
    "WDWWWWDWWWWWDWWDWWWWWDWWWWWDWW",
    "WDDDDDDWWDDDDDDDDDDWWDDDDDDWW",
    "WDWWWWDWWDWWWWWWWWDWWDWWWWWDWW",
    "WDWWWWDWWDWWWWWWWWDWWDWWWWWDWW",
    "WDDDDDDDDDDDDWWDDDDDDDDDDDDWW",
    "WWWWWWWWWWWWWWWWWWWWWWWWWWWWWW"
  ]

  /** A row of the board built from one layout line: the cell of each
      character up to `Width`, then the zero rune where the line is short. */
  function RowOf(line: string): (r: seq<Cell>)
    ensures |r| == Width
    ensures forall x :: 0 <= x < Width ==> r[x] == if x < |line| then CellOf(line[x]) else Zero
  {
    seq(Width, x requires 0 <= x < Width => if x < |line| then CellOf(line[x]) else Zero)
  }

  /** The `Height` by `Width` board built from a layout: one row per line,
      lines past `Height` never read, rows past the last line all zero runes. */
  function Layout(maze: seq<string>): (b: Board)
    ensures Shaped(b)
    ensures forall y :: 0 <= y < Height ==> b[y] == RowOf(if y < |maze| then maze[y] else "")
  {
    seq(Height, y requires 0 <= y < Height => RowOf(if y < |maze| then maze[y] else ""))
  }

  /** The board of a fresh game. */
  function InitialBoard(): Board {
    Layout(InitialMaze)
  }

  /** Pacman's start cell and the one to its right hold dots. */
  lemma InitialStartCells()
    ensures InitialBoard()[1][1] == Dot && InitialBoard()[1][2] == Dot
  {
  }

  /** The power pellets of row 3 are on the board. */
  lemma InitialPellets()
    ensures InitialBoard()[3][1] == PowerPellet && InitialBoard()[3][28] == PowerPellet
  {
  }

  /** The layout has 28 lines, but every row of the fresh board comes from
      one of its first 20 lines, so lines 20 and beyond, such as the one with
      the power pellet at column 1 of line 21, never reach the board. */
  lemma UnreadLines()
    ensures |InitialMaze| == 28 && InitialMaze[21][1] == 'P'
    ensures forall y :: 0 <= y < |InitialBoard()| ==> y < Height && InitialBoard()[y] == RowOf(InitialMaze[y])
  {
  }

  /** Line 8 is one character short, so the last cell of row 8 keeps the
      zero rune, which is neither a wall nor a dot. */
  lemma ShortLine()
    ensures |InitialMaze[8]| == 29 && InitialBoard()[8][29] == Zero
  {
  }

  /** The first two ghost spawn cells are walls and the other two are empty. */
  lemma SpawnCells()
    ensures InitialBoard()[10][14] == Wall && InitialBoard()[10][15] == Wall
    ensures InitialBoard()[11][14] == Empty && InitialBoard()[11][15] == Empty
  {
  }

  /** Replaces the cell at column `x`, row `y`, and nothing else. */
  function SetCell(b: Board, x: int, y: int, c: Cell): (r: Board)
    requires Shaped(b) && InBounds(x, y)
    ensures Shaped(r) && r[y][x] == c
    ensures forall yy, xx :: 0 <= yy < Height && 0 <= xx < Width && (xx, yy) != (x, y) ==> r[yy][xx] == b[yy][xx]
  {
    b[y := b[y][x := c]]
  }

  function DotValue(c: Cell): nat {
    if c == Dot then 1 else 0
  }

  /** The number of dot cells in a row. */
  function CountRow(r: seq<Cell>): nat {
    if |r| == 0 then 0 else CountRow(r[..|r| - 1]) + DotValue(r[|r| - 1])
  }

  /** The number of dot cells on a board. */
  function CountDots(b: Board): nat {
    if |b| == 0 then 0 else CountDots(b[..|b| - 1]) + CountRow(b[|b| - 1])
  }

  /** `CountRow` counts exactly the occurrences of `Dot`. */
  lemma {:induction false} CountRowOccurrences(r: seq<Cell>)
    ensures CountRow(r) == multiset(r)[Dot]
  {
    if |r| > 0 {
      var n := |r| - 1;
      CountRowOccurrences(r[..n]);
      assert r == r[..n] + [r[n]];
    }
  }

  /** Overwriting one cell of a row changes its count by what left and what came. */
  lemma {:induction false} CountRowUpdate(r: seq<Cell>, x: int, c: Cell)
    requires 0 <= x < |r|
    ensures CountRow(r[x := c]) == CountRow(r) - DotValue(r[x]) + DotValue(c)
  {
    var n := |r| - 1;
    if x == n {
      assert r[x := c][..n] == r[..n];
    } else {
      assert r[x := c][..n] == r[..n][x := c];
      CountRowUpdate(r[..n], x, c);
    }
  }

  lemma {:induction false} CountRowsUpdate(b: seq<seq<Cell>>, y: int, row: seq<Cell>)
    requires 0 <= y < |b|
    ensures CountDots(b[y := row]) == CountDots(b) - CountRow(b[y]) + CountRow(row)
  {
    var n := |b| - 1;
    if y == n {
      assert b[y := row][..n] == b[..n];
    } else {
      assert b[y := row][..n] == b[..n][y := row];
      CountRowsUpdate(b[..n], y, row);
    }
  }

  /** Overwriting one cell of a board changes the dot count by what left and
      what came: clearing a dot lowers it by one, clearing anything else keeps it. */
  lemma CountDotsSetCell(b: Board, x: int, y: int, c: Cell)
    requires Shaped(b) && InBounds(x, y)
    ensures CountDots(SetCell(b, x, y, c)) == CountDots(b) - DotValue(b[y][x]) + DotValue(c)
  {
    CountRowUpdate(b[y], x, c);
    CountRowsUpdate(b, y, b[y][x := c]);
  }

  /** A row with no dots from column `k` on has as many dots as its first `k` cells. */
  lemma {:induction false} CountRowNoDotsAfter(r: seq<Cell>, k: int)
    requires 0 <= k <= |r|
    requires forall j :: k <= j < |r| ==> r[j] != Dot
    ensures CountRow(r) == CountRow(r[..k])
  {
    if k < |r| {
      var n := |r| - 1;
      CountRowNoDotsAfter(r[..n], k);
      assert r[..n][..k] == r[..k];
    } else {
      assert r[..k] == r;
    }
  }

  lemma {:induction false} CountRowPositive(r: seq<Cell>, x: int)
    requires 0 <= x < |r| && r[x] == Dot
    ensures CountRow(r) > 0
  {
    var n := |r| - 1;
    if x < n {
      CountRowPositive(r[..n], x);
    }
  }

  /** A board with a dot somewhere has a positive count. */
  lemma {:induction false} CountDotsPositive(b: seq<seq<Cell>>, x: int, y: int)
    requires 0 <= y < |b| && 0 <= x < |b[y]| && b[y][x] == Dot
    ensures CountDots(b) > 0
  {
    var n := |b| - 1;
    if y < n {
      CountDotsPositive(b[..n], x, y);
    } else {
      CountRowPositive(b[y], x);
    }
  }

  /** A fresh board has at least two dots: the one under pacman's start cell
      and the one to its right. */
  lemma InitialDotsAtLeastTwo()
    ensures CountDots(InitialBoard()) >= 2
  {
    var b := InitialBoard();
    InitialStartCells();
    CountDotsSetCell(b, 2, 1, Empty);
    CountDotsPositive(SetCell(b, 2, 1, Empty), 1, 1);
  }
}
