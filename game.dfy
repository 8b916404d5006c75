/** The running game as the program keeps it: one object whose fields are
    updated in place by the timer tick and by key presses, with the board a
    grid of cells written where pacman eats and the ghost roster an array
    whose elements are rewritten one field at a time. Every method is proved
    to do exactly what the corresponding function of `Rules` says. */
module Game {
  import opened Geometry
  import opened Maze
  import opened Rules

  /** The grid `a` has the game's size and holds the board `b`. */
  ghost predicate Holds(a: array2<Cell>, b: Board)
    reads a
  {
    a.Length0 == Height && a.Length1 == Width && Shaped(b) &&
    forall y, x :: 0 <= y < Height && 0 <= x < Width ==> a[y, x] == b[y][x]
  }

  /** Fills row `y` of a fresh grid from the layout and counts its dots:
      when the layout has a line `y`, each character up to `Width` is copied
      into its cell; cells past the end of a short line, and every cell of a
      row the layout has no line for, keep the zero rune. */
  method FillRow(b: array2<Cell>, maze: seq<string>, y: int) returns (count: int)
    requires b.Length0 == Height && b.Length1 == Width && 0 <= y < Height
    requires forall x :: 0 <= x < Width ==> b[y, x] == Zero
    modifies b
    ensures forall x :: 0 <= x < Width ==> b[y, x] == Layout(maze)[y][x]
    ensures forall yy, x :: 0 <= yy < Height && 0 <= x < Width && yy != y ==> b[yy, x] == old(b[yy, x])
    ensures count == CountRow(Layout(maze)[y])
  {
    ghost var r := Layout(maze)[y];
    count := 0;
    if y < |maze| {
      var line := maze[y];
      assert r == RowOf(line);
      var x := 0;
      while x < Width && x < |line|
        invariant 0 <= x <= Width && x <= |line|
        invariant forall xx :: 0 <= xx < Width ==> b[y, xx] == if xx < x then r[xx] else Zero
        invariant forall yy, xx :: 0 <= yy < Height && 0 <= xx < Width && yy != y ==> b[yy, xx] == old(b[yy, xx])
        invariant count == CountRow(r[..x])
      {
        assert r[..x + 1] == r[..x] + [r[x]];
        match line[x] {
          case 'W' => b[y, x] := Wall;
          case 'D' =>
            b[y, x] := Dot;
            count := count + 1;
          case 'P' => b[y, x] := PowerPellet;
          case ' ' => b[y, x] := Empty;
          case _ => b[y, x] := Empty;
        }
        x := x + 1;
      }
      CountRowNoDotsAfter(r, x);
    } else {
      assert r == RowOf("");
      CountRowNoDotsAfter(r, 0);
    }
  }

  /** The board of a new game, built from a layout row by row while the
      dots are counted. */
  method BuildBoard(maze: seq<string>) returns (b: array2<Cell>, count: int)
    ensures fresh(b) && Holds(b, Layout(maze))
    ensures count == CountDots(Layout(maze))
  {
    b := new Cell[Height, Width]((y, x) => Zero);
    count := 0;
    ghost var init := Layout(maze);
    var y := 0;
    while y < Height
      invariant 0 <= y <= Height
      invariant forall yy, xx :: 0 <= yy < y && 0 <= xx < Width ==> b[yy, xx] == init[yy][xx]
      invariant forall yy, xx :: y <= yy < Height && 0 <= xx < Width ==> b[yy, xx] == Zero
      invariant count == CountDots(init[..y])
    {
      var n := FillRow(b, maze, y);
      count := count + n;
      assert init[..y + 1][..y] == init[..y];
      y := y + 1;
    }
    assert init[..Height] == init;
  }

  class Game {
    var pacmanX: int
    var pacmanY: int
    var pacmanDirection: Direction
    /** The ghost roster; its order is each ghost's identity. */
    const ghosts: array<Ghost>
    var score: int
    var lives: int
    /** The board, indexed `board[y, x]`. */
    const board: array2<Cell>
    var gameState: GameState
    var dotCount: int
    var powerMode: bool
    var powerTimer: int
    var level: int

    /** The board as rows of cells, kept in step with `board`. */
    ghost var cells: Board

    /** The board and the roster have the sizes of the game, and the board
        array holds exactly `cells`. */
    ghost predicate Sized()
      reads this, board
    {
      ghosts.Length == 4 && Holds(board, cells)
    }

    /** The game as a value. */
    ghost function Abs(): (s: State)
      reads this, ghosts
    {
      State(pacmanX, pacmanY, pacmanDirection, ghosts[..], score, lives, cells,
            gameState, dotCount, powerMode, powerTimer, level)
    }

    /** Between two events the game satisfies the invariant of `Rules`; in
        particular `dotCount` is the number of dot cells on the board. */
    ghost predicate Valid()
      reads this, board, ghosts
    {
      Sized() && Inv(Abs())
    }

    /** A fresh game: pacman at (1,1) facing right, the four ghosts on their
        spawn cells, 3 lives, score 0, level 1, and the board and dot count
        built from the layout. */
    constructor ()
      ensures Sized() && Abs() == InitialState()
      ensures fresh(board) && fresh(ghosts)
    {
      var b, count := BuildBoard(InitialMaze);
      board := b;
      cells := InitialBoard();
      ghosts := new Ghost[] [
        Ghost(14, 10, Up, false, 0),
        Ghost(15, 10, Up, false, 0),
        Ghost(14, 11, Up, false, 0),
        Ghost(15, 11, Up, false, 0)
      ];
      pacmanX, pacmanY, pacmanDirection := 1, 1, Right;
      score, lives := 0, 3;
      gameState := Playing;
      dotCount := count;
      powerMode, powerTimer := false, 0;
      level := 1;
      new;
    }

    /** Pacman's part of a tick: the move onto the wrapped neighbour unless it
        is a wall, then eating a dot or a power pellet. A power pellet
        frightens every ghost in a loop over the roster. */
    method MovePacman()
      requires Sized()
      modifies this, board, ghosts
      ensures Sized()
      ensures Abs() == PacmanStep(old(Abs()))
    {
      var (nx, ny) := NextPosition(pacmanX, pacmanY, pacmanDirection);
      if board[ny, nx] != Wall {
        pacmanX, pacmanY := nx, ny;
        Eat();
      }
    }

    /** Eating whatever lies under pacman: a dot is cleared and scored and
        the dot count lowered; a power pellet is cleared and scored, power
        mode starts and every ghost is frightened. */
    method Eat()
      requires Sized() && InBounds(pacmanX, pacmanY)
      modifies this, board, ghosts
      ensures Sized()
      ensures Abs() == Rules.Eat(old(Abs()))
    {
      if board[pacmanY, pacmanX] == Dot {
        board[pacmanY, pacmanX] := Empty;
        score := score + DotPoints;
        dotCount := dotCount - 1;
        cells := SetCell(cells, pacmanX, pacmanY, Empty);
      } else if board[pacmanY, pacmanX] == PowerPellet {
        board[pacmanY, pacmanX] := Empty;
        score := score + PelletPoints;
        powerMode := true;
        powerTimer := PowerTicks;
        cells := SetCell(cells, pacmanX, pacmanY, Empty);
        FrightenGhosts();
      }
    }

    /** Power-mode entry for the roster: every ghost frightened for the full
        duration. */
    method FrightenGhosts()
      modifies ghosts
      ensures ghosts[..] == Frighten(old(ghosts[..]))
    {
      var i := 0;
      while i < ghosts.Length
        invariant 0 <= i <= ghosts.Length
        invariant forall j :: 0 <= j < ghosts.Length ==>
                    ghosts[j] == if j < i then Frighten(old(ghosts[..]))[j] else old(ghosts[j])
      {
        ghosts[i] := ghosts[i].(frightened := true);
        ghosts[i] := ghosts[i].(frightenedTimer := PowerTicks);
        i := i + 1;
      }
    }

    /** Ghost `i`'s own move within a tick, with its random draws given:
        frightened countdown, possible random turn, then the move, or a
        re-rolled facing when the move runs into a wall. */
    method MoveGhost(i: int, d: Draw)
      requires Sized() && 0 <= i < ghosts.Length && DrawOk(d)
      modifies ghosts
      ensures ghosts[..] == old(ghosts[..])[i := GhostMove(old(ghosts[i]), cells, d)]
    {
      var g := ghosts[i];
      if g.frightened {
        g := g.(frightenedTimer := g.frightenedTimer - 1);
        if g.frightenedTimer <= 0 {
          g := g.(frightened := false);
        }
      }

      if d.chance < TurnChance {
        g := g.(direction := DirectionOf(d.turn));
      }

      var (nx, ny) := NextPosition(g.x, g.y, g.direction);
      if board[ny, nx] != Wall {
        g := g.(x := nx, y := ny);
      } else {
        g := g.(direction := DirectionOf(d.reroll));
      }
      ghosts[i] := g;
    }

    /** What ghost `i`, already moved, does to the game when it ends on
        pacman's cell: eaten if frightened, otherwise it costs a life. */
    method CheckCollision(i: int)
      requires Sized() && 0 <= i < ghosts.Length
      modifies this, ghosts
      ensures Sized()
      ensures Abs() == Collide(old(Abs()), i)
    {
      if ghosts[i].x == pacmanX && ghosts[i].y == pacmanY {
        if ghosts[i].frightened {
          score := score + GhostPoints;
          ghosts[i] := ghosts[i].(x := SpawnX(i), y := SpawnY(i), frightened := false);
        } else {
          lives := lives - 1;
          if lives <= 0 {
            gameState := Lost;
          } else {
            pacmanX := 1;
            pacmanY := 1;
          }
        }
      }
    }

    /** The ghost loop of a tick: every ghost in roster order takes its turn
        with its own draws. */
    method MoveGhosts(draws: seq<Draw>)
      requires Sized() && |draws| == ghosts.Length && DrawsOk(draws)
      modifies this, ghosts
      ensures Sized()
      ensures Abs() == GhostsUpTo(old(Abs()), ghosts.Length, draws)
    {
      ghost var p := Abs();
      var i := 0;
      while i < ghosts.Length
        invariant 0 <= i <= ghosts.Length
        invariant Abs() == GhostsUpTo(p, i, draws)
      {
        ghost var before := Abs();
        MoveGhost(i, draws[i]);
        CheckCollision(i);
        assert Abs() == GhostStep(before, i, draws[i]);
        assert GhostsUpTo(p, i + 1, draws) == GhostStep(GhostsUpTo(p, i, draws), i, draws[i]);
        i := i + 1;
      }
    }

    /** One timer tick with the ghosts' random draws given in roster order.
        Nothing happens unless the game is being played; the invariant is
        kept, so the dot count still matches the board afterwards. */
    method Tick(draws: seq<Draw>)
      requires Valid() && |draws| == ghosts.Length && DrawsOk(draws)
      modifies this, board, ghosts
      ensures Valid()
      ensures Abs() == Rules.Tick(old(Abs()), draws)
    {
      ghost var s := Abs();
      if gameState == Playing {
        Step(draws);
      }
      TickInv(s, draws);
    }

    /** The work of a tick while playing: pacman's step, the win check, the
        ghost loop and the power countdown, in that order. */
    method Step(draws: seq<Draw>)
      requires Sized() && gameState == Playing && |draws| == ghosts.Length && DrawsOk(draws)
      modifies this, board, ghosts
      ensures Sized()
      ensures Abs() == Rules.Tick(old(Abs()), draws)
    {
      ghost var s := Abs();
      MovePacman();

      if dotCount <= 0 {
        gameState := Won;
      }
      ghost var p := WinCheck(PacmanStep(s));
      assert Abs() == p;

      MoveGhosts(draws);
      assert Abs() == GhostsUpTo(p, |p.ghosts|, draws);
      CountDownPower();
    }

    /** The session power timer's countdown at the end of a tick. */
    method CountDownPower()
      modifies this
      ensures Abs() == DecayPower(old(Abs()))
    {
      if powerMode {
        powerTimer := powerTimer - 1;
        if powerTimer <= 0 {
          powerMode := false;
        }
      }
    }

    /** A key press. It returns the game to keep: this one, updated in place,
        or for `r` a fresh game that replaces it. */
    method HandleKey(key: string) returns (next: Game)
      requires Valid()
      modifies this
      ensures next.Valid()
      ensures next.Abs() == KeyPress(old(Abs()), key)
      ensures CommandOf(key) == Restart ==> fresh(next)
      ensures CommandOf(key) != Restart ==> next == this
    {
      ghost var s := Abs();
      KeyPressInv(s, key);
      next := this;
      if key == "ctrl+c" || key == "q" {
        assert CommandOf(key) == Quit;
      } else if key == "up" || key == "k" {
        assert CommandOf(key) == Face(Up);
        pacmanDirection := Up;
      } else if key == "down" || key == "j" {
        assert CommandOf(key) == Face(Down);
        pacmanDirection := Down;
      } else if key == "left" || key == "h" {
        assert CommandOf(key) == Face(Left);
        pacmanDirection := Left;
      } else if key == "right" || key == "l" {
        assert CommandOf(key) == Face(Right);
        pacmanDirection := Right;
      } else if key == "p" {
        assert CommandOf(key) == TogglePause;
        if gameState == Paused {
          gameState := Playing;
        } else if gameState == Playing {
          gameState := Paused;
        }
      } else if key == "r" {
        assert CommandOf(key) == Restart;
        next := new Game();
      } else {
        assert CommandOf(key) == Ignore;
      }
    }
  }
}
