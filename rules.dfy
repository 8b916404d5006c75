/** The rules of the game as functions on whole game states: what one timer
    tick and one key press do to a game. The imperative `Game` class is proved
    to follow these functions step for step; the lemmas here state what the
    rules guarantee. */
module Rules {
  import opened Geometry
  import opened Maze

  /** Phase of a game. */
  datatype GameState = Playing | Won | Lost | Paused

  /** An enemy: position, facing, and whether (and for how many more ticks)
      pacman can eat it. */
  datatype Ghost = Ghost(x: int, y: int, direction: Direction, frightened: bool, frightenedTimer: int)

  /** Everything a game holds between two events. */
  datatype State = State(
    pacmanX: int,
    pacmanY: int,
    pacmanDirection: Direction,
    ghosts: seq<Ghost>,
    score: int,
    lives: int,
    board: Board,
    gameState: GameState,
    dotCount: int,
    powerMode: bool,
    powerTimer: int,
    level: int)

  const DotPoints: int := 10
  const PelletPoints: int := 50
  const GhostPoints: int := 200
  /** Ticks a power pellet lasts, for pacman's power mode and each ghost. */
  const PowerTicks: int := 20
  const StartLives: int := 3
  /** Percentage of ticks on which a ghost turns to a random facing. */
  const TurnChance: int := 20

  /** Respawn slot of the ghost at roster index `i`. */
  function SpawnX(i: nat): int { 14 + i % 2 }
  function SpawnY(i: nat): int { 10 + i / 2 }

  const InitialGhosts: seq<Ghost> := [
    Ghost(14, 10, Up, false, 0),
    Ghost(15, 10, Up, false, 0),
    Ghost(14, 11, Up, false, 0),
    Ghost(15, 11, Up, false, 0)
  ]

  /** The listed starting ghosts sit exactly on the respawn slots of their
      roster indices. */
  lemma InitialGhostsAtSpawn(i: nat)
    requires i < |InitialGhosts|
    ensures InitialGhosts[i].x == SpawnX(i) && InitialGhosts[i].y == SpawnY(i)
    ensures !InitialGhosts[i].frightened && InitialGhosts[i].direction == Up
  {
  }

  /** A fresh game: pacman at (1,1) facing right, 3 lives, score 0, level 1,
      dot count equal to the dots of the fresh board. */
  function InitialState(): (r: State)
    ensures Inv(r)
  {
    InitialDotsAtLeastTwo();
    State(1, 1, Right, InitialGhosts, 0, StartLives, InitialBoard(), Playing,
          CountDots(InitialBoard()), false, 0, 1)
  }

  // ---------------------------------------------------------------------
  // Random draws
  // ---------------------------------------------------------------------

  /** The random numbers one ghost may use in one tick: `chance` in [0,100)
      decides a random turn, `turn` in [0,4) is the new facing if it happens,
      and `reroll` in [0,4) is the facing taken after bumping into a wall. */
  datatype Draw = Draw(chance: int, turn: int, reroll: int)

  predicate DrawOk(d: Draw) {
    0 <= d.chance < 100 && 0 <= d.turn < 4 && 0 <= d.reroll < 4
  }

  predicate DrawsOk(ds: seq<Draw>) {
    forall i :: 0 <= i < |ds| ==> DrawOk(ds[i])
  }

  // ---------------------------------------------------------------------
  // Pacman's part of a tick
  // ---------------------------------------------------------------------

  /** Power-mode entry for the ghosts: every ghost frightened for the full
      duration, in the same place and facing. */
  function Frighten(gs: seq<Ghost>): (r: seq<Ghost>)
    ensures |r| == |gs|
    ensures forall i :: 0 <= i < |gs| ==>
      r[i].x == gs[i].x && r[i].y == gs[i].y && r[i].direction == gs[i].direction &&
      r[i].frightened && r[i].frightenedTimer == PowerTicks
  {
    seq(|gs|, i requires 0 <= i < |gs| => gs[i].(frightened := true, frightenedTimer := PowerTicks))
  }

  /** Eating whatever lies under pacman. */
  function Eat(s: State): (r: State)
    requires Shaped(s.board) && InBounds(s.pacmanX, s.pacmanY)
    ensures Shaped(r.board) && r.score >= s.score && |r.ghosts| == |s.ghosts|
    ensures r.board[s.pacmanY][s.pacmanX] != Dot && r.board[s.pacmanY][s.pacmanX] != PowerPellet
    ensures r.pacmanX == s.pacmanX && r.pacmanY == s.pacmanY && r.pacmanDirection == s.pacmanDirection
    ensures r.lives == s.lives && r.gameState == s.gameState && r.level == s.level
  {
    var c := s.board[s.pacmanY][s.pacmanX];
    if c == Dot then
      s.(board := SetCell(s.board, s.pacmanX, s.pacmanY, Empty),
         score := s.score + DotPoints,
         dotCount := s.dotCount - 1)
    else if c == PowerPellet then
      s.(board := SetCell(s.board, s.pacmanX, s.pacmanY, Empty),
         score := s.score + PelletPoints,
         powerMode := true,
         powerTimer := PowerTicks,
         ghosts := Frighten(s.ghosts))
    else
      s
  }

  /** Pacman's move: onto the wrapped neighbour unless it is a wall, then eat. */
  function PacmanStep(s: State): (r: State)
    requires Shaped(s.board)
    ensures Shaped(r.board) && |r.ghosts| == |s.ghosts|
  {
    var (nx, ny) := NextPosition(s.pacmanX, s.pacmanY, s.pacmanDirection);
    if s.board[ny][nx] != Wall then Eat(s.(pacmanX := nx, pacmanY := ny)) else s
  }

  /** The win check: no dots left means the game is won. */
  function WinCheck(s: State): (r: State)
    ensures r.(gameState := s.gameState) == s
    ensures r.gameState == Won <==> s.dotCount <= 0 || s.gameState == Won
    ensures s.dotCount > 0 ==> r == s
  {
    if s.dotCount <= 0 then s.(gameState := Won) else s
  }

  // ---------------------------------------------------------------------
  // A ghost's part of a tick
  // ---------------------------------------------------------------------

  /** A ghost's own step: frightened countdown, a possible random turn, then
      the move, or a re-rolled facing when the move runs into a wall.
      Frightened ghosts always have time left, and a ghost on the board stays
      on the board. */
  function GhostMove(g: Ghost, b: Board, d: Draw): (r: Ghost)
    requires Shaped(b) && DrawOk(d)
    ensures r.frightened <==> g.frightened && g.frightenedTimer > 1
    ensures r.frightened ==> r.frightenedTimer > 0
    ensures r.frightenedTimer == if g.frightened then g.frightenedTimer - 1 else g.frightenedTimer
    ensures InBounds(g.x, g.y) ==> InBounds(r.x, r.y)
  {
    var g1 := if g.frightened then
                var t := g.frightenedTimer - 1;
                g.(frightenedTimer := t, frightened := if t <= 0 then false else g.frightened)
              else g;
    var g2 := g1.(direction := Heading(g1, d));
    var (nx, ny) := NextPosition(g2.x, g2.y, g2.direction);
    if b[ny][nx] != Wall then g2.(x := nx, y := ny) else g2.(direction := DirectionOf(d.reroll))
  }

  /** The facing a ghost moves in this tick: its old one, or the random turn. */
  function Heading(g: Ghost, d: Draw): (h: Direction)
    requires DrawOk(d)
    ensures d.chance < TurnChance ==> h == DirectionOf(d.turn) && Code(h) == d.turn
    ensures d.chance >= TurnChance ==> h == g.direction
  {
    if d.chance < TurnChance then DirectionOf(d.turn) else g.direction
  }

  /** What happens when ghost `i`, already moved, shares pacman's cell. */
  function Collide(s: State, i: nat): (r: State)
    requires i < |s.ghosts|
    ensures s.ghosts[i].x != s.pacmanX || s.ghosts[i].y != s.pacmanY ==> r == s
    ensures r.score >= s.score && s.lives - 1 <= r.lives <= s.lives && |r.ghosts| == |s.ghosts|
    ensures r.gameState == s.gameState || r.gameState == Lost
    ensures r.board == s.board && r.dotCount == s.dotCount && r.pacmanDirection == s.pacmanDirection
  {
    var g := s.ghosts[i];
    if g.x == s.pacmanX && g.y == s.pacmanY then
      if g.frightened then
        s.(score := s.score + GhostPoints,
           ghosts := s.ghosts[i := g.(x := SpawnX(i), y := SpawnY(i), frightened := false)])
      else if s.lives - 1 <= 0 then
        s.(lives := s.lives - 1, gameState := Lost)
      else
        s.(lives := s.lives - 1, pacmanX := 1, pacmanY := 1)
    else
      s
  }

  /** Ghost `i`'s whole turn within a tick. It touches no other ghost, the
      board, the dot count, the power timer or pacman's facing. */
  function GhostStep(s: State, i: nat, d: Draw): (r: State)
    requires Shaped(s.board) && i < |s.ghosts| && DrawOk(d)
    ensures |r.ghosts| == |s.ghosts| && r.board == s.board && r.dotCount == s.dotCount
    ensures r.powerMode == s.powerMode && r.powerTimer == s.powerTimer
    ensures r.pacmanDirection == s.pacmanDirection && r.level == s.level
    ensures forall j :: 0 <= j < |s.ghosts| && j != i ==> r.ghosts[j] == s.ghosts[j]
    ensures var m := GhostMove(s.ghosts[i], s.board, d);
            r.ghosts[i].direction == m.direction && r.ghosts[i].frightenedTimer == m.frightenedTimer
  {
    Collide(s.(ghosts := s.ghosts[i := GhostMove(s.ghosts[i], s.board, d)]), i)
  }

  /** The ghost loop after its first `n` iterations, ghosts taken in roster order. */
  function GhostsUpTo(s: State, n: nat, ds: seq<Draw>): (r: State)
    requires Shaped(s.board) && n <= |s.ghosts| && |ds| == |s.ghosts| && DrawsOk(ds)
    ensures |r.ghosts| == |s.ghosts| && r.board == s.board && r.dotCount == s.dotCount
    ensures r.powerMode == s.powerMode && r.powerTimer == s.powerTimer
    ensures r.pacmanDirection == s.pacmanDirection && r.level == s.level
    decreases n
  {
    if n == 0 then s else GhostStep(GhostsUpTo(s, n - 1, ds), n - 1, ds[n - 1])
  }

  // ---------------------------------------------------------------------
  // The whole tick
  // ---------------------------------------------------------------------

  /** The session power timer's countdown at the end of a tick. */
  function DecayPower(s: State): (r: State)
    ensures r.(powerMode := s.powerMode, powerTimer := s.powerTimer) == s
    ensures !s.powerMode ==> r == s
    ensures s.powerMode ==> r.powerTimer == s.powerTimer - 1 && (r.powerMode <==> r.powerTimer > 0)
  {
    if s.powerMode then
      var t := s.powerTimer - 1;
      s.(powerTimer := t, powerMode := if t <= 0 then false else s.powerMode)
    else
      s
  }

  /** One timer tick: nothing unless playing; otherwise pacman's step, the win
      check, every ghost's turn and the power countdown, in that order. */
  function Tick(s: State, ds: seq<Draw>): (r: State)
    requires Shaped(s.board) && |ds| == |s.ghosts| && DrawsOk(ds)
    ensures Shaped(r.board) && |r.ghosts| == |s.ghosts|
    ensures r.pacmanDirection == s.pacmanDirection && r.level == s.level
  {
    if s.gameState != Playing then s
    else
      var p := WinCheck(PacmanStep(s));
      DecayPower(GhostsUpTo(p, |p.ghosts|, ds))
  }

  // ---------------------------------------------------------------------
  // Key presses
  // ---------------------------------------------------------------------

  /** What a key press asks for. */
  datatype Command = Quit | Face(d: Direction) | TogglePause | Restart | Ignore

  function CommandOf(key: string): (c: Command)
    ensures c == Quit <==> key == "ctrl+c" || key == "q"
    ensures c == Face(Up) <==> key == "up" || key == "k"
    ensures c == Face(Down) <==> key == "down" || key == "j"
    ensures c == Face(Left) <==> key == "left" || key == "h"
    ensures c == Face(Right) <==> key == "right" || key == "l"
    ensures c == TogglePause <==> key == "p"
    ensures c == Restart <==> key == "r"
  {
    if key == "ctrl+c" || key == "q" then Quit
    else if key == "up" || key == "k" then Face(Up)
    else if key == "down" || key == "j" then Face(Down)
    else if key == "left" || key == "h" then Face(Left)
    else if key == "right" || key == "l" then Face(Right)
    else if key == "p" then TogglePause
    else if key == "r" then Restart
    else Ignore
  }

  /** The game after a key press. Quitting ends the program and changes no
      state; unknown keys are ignored. */
  function KeyPress(s: State, key: string): (r: State)
    ensures CommandOf(key) == Restart ==> r == InitialState()
    ensures CommandOf(key) != Restart ==> r.(pacmanDirection := s.pacmanDirection, gameState := s.gameState) == s
  {
    match CommandOf(key)
    case Quit => s
    case Face(d) => s.(pacmanDirection := d)
    case TogglePause =>
      if s.gameState == Paused then s.(gameState := Playing)
      else if s.gameState == Playing then s.(gameState := Paused)
      else s
    case Restart => InitialState()
    case Ignore => s
  }

  // ---------------------------------------------------------------------
  // The invariant
  // ---------------------------------------------------------------------

  predicate GhostOk(g: Ghost) {
    InBounds(g.x, g.y) && 0 <= g.frightenedTimer <= PowerTicks &&
    (g.frightened ==> g.frightenedTimer > 0)
  }

  /** Everything but the phase: board shape, dot bookkeeping, positions on
      the board, timers, score, lives and level in range. */
  predicate WellFormed(s: State) {
    Shaped(s.board) && s.dotCount == CountDots(s.board) &&
    InBounds(s.pacmanX, s.pacmanY) &&
    |s.ghosts| == 4 && (forall i :: 0 <= i < |s.ghosts| ==> GhostOk(s.ghosts[i])) &&
    0 <= s.powerTimer <= PowerTicks && (s.powerMode <==> s.powerTimer > 0) &&
    s.score >= 0 && s.lives <= StartLives && s.level == 1
  }

  /** The phase agrees with lives and dots: lost exactly when no lives are
      left, won only with no dots, and still in play only with dots left. */
  predicate PhaseOk(s: State) {
    (s.gameState == Lost <==> s.lives <= 0) &&
    (s.gameState == Won ==> s.dotCount == 0) &&
    (s.gameState == Playing || s.gameState == Paused ==> s.dotCount > 0)
  }

  /** What every game satisfies between events. */
  predicate Inv(s: State) {
    WellFormed(s) && PhaseOk(s)
  }

  // ---------------------------------------------------------------------
  // Movement lemmas
  // ---------------------------------------------------------------------

  /** Pacman facing a wall stays where it is, with the same facing, and
      nothing else changes. */
  lemma PacmanBlocked(s: State)
    requires Shaped(s.board)
    requires var p := NextPosition(s.pacmanX, s.pacmanY, s.pacmanDirection);
             s.board[p.1][p.0] == Wall
    ensures PacmanStep(s) == s
  {
  }

  /** Pacman facing an empty cell, or a cell the layout never wrote, moves
      onto it and nothing else changes: no score, no board change, no power. */
  lemma PacmanWalks(s: State)
    requires Shaped(s.board)
    requires var p := NextPosition(s.pacmanX, s.pacmanY, s.pacmanDirection);
             s.board[p.1][p.0] == Empty || s.board[p.1][p.0] == Zero
    ensures var p := NextPosition(s.pacmanX, s.pacmanY, s.pacmanDirection);
            PacmanStep(s) == s.(pacmanX := p.0, pacmanY := p.1)
  {
  }

  /** A ghost whose heading runs into a wall keeps its cell and takes the
      re-rolled facing; otherwise it moves to the wrapped neighbour in its
      heading. */
  lemma GhostMoveOutcome(g: Ghost, b: Board, d: Draw)
    requires Shaped(b) && DrawOk(d)
    ensures var p := NextPosition(g.x, g.y, Heading(g, d));
            var r := GhostMove(g, b, d);
            if b[p.1][p.0] == Wall then
              r.x == g.x && r.y == g.y && r.direction == DirectionOf(d.reroll)
            else
              r.x == p.0 && r.y == p.1 && r.direction == Heading(g, d)
  {
  }

  /** Moving pacman keeps it on the board, leaves its facing, the lives and
      the phase alone, keeps the dot count equal to the board's dots, and
      never lowers the score. */
  lemma PacmanStepWellFormed(s: State)
    requires WellFormed(s)
    ensures var r := PacmanStep(s);
            WellFormed(r) && r.lives == s.lives && r.gameState == s.gameState &&
            r.pacmanDirection == s.pacmanDirection &&
            s.dotCount - 1 <= r.dotCount <= s.dotCount && r.score >= s.score
  {
    var (nx, ny) := NextPosition(s.pacmanX, s.pacmanY, s.pacmanDirection);
    if s.board[ny][nx] != Wall {
      CountDotsSetCell(s.board, nx, ny, Empty);
    }
  }

  /** Landing on a dot clears it, scores 10 and lowers the dot count by one,
      which is again the number of dots left on the board. */
  lemma PacmanEatsDot(s: State)
    requires WellFormed(s)
    requires var p := NextPosition(s.pacmanX, s.pacmanY, s.pacmanDirection);
             s.board[p.1][p.0] == Dot
    ensures var p := NextPosition(s.pacmanX, s.pacmanY, s.pacmanDirection);
            var r := PacmanStep(s);
            r.pacmanX == p.0 && r.pacmanY == p.1 &&
            r.board == SetCell(s.board, p.0, p.1, Empty) &&
            r.score == s.score + 10 && r.dotCount == s.dotCount - 1 &&
            r.dotCount == CountDots(r.board) &&
            r.ghosts == s.ghosts && r.powerMode == s.powerMode && r.powerTimer == s.powerTimer
  {
    var p := NextPosition(s.pacmanX, s.pacmanY, s.pacmanDirection);
    CountDotsSetCell(s.board, p.0, p.1, Empty);
  }

  /** Landing on a power pellet clears it, scores 50, starts power mode for
      20 ticks and frightens every ghost for 20 ticks; the dot count (which
      does not include pellets) is unchanged and still matches the board. */
  lemma PacmanEatsPellet(s: State)
    requires WellFormed(s)
    requires var p := NextPosition(s.pacmanX, s.pacmanY, s.pacmanDirection);
             s.board[p.1][p.0] == PowerPellet
    ensures var p := NextPosition(s.pacmanX, s.pacmanY, s.pacmanDirection);
            var r := PacmanStep(s);
            r.pacmanX == p.0 && r.pacmanY == p.1 &&
            r.board == SetCell(s.board, p.0, p.1, Empty) &&
            r.score == s.score + 50 && r.dotCount == s.dotCount &&
            r.dotCount == CountDots(r.board) &&
            r.powerMode && r.powerTimer == 20 &&
            |r.ghosts| == |s.ghosts| &&
            (forall j :: 0 <= j < |r.ghosts| ==>
               r.ghosts[j].frightened && r.ghosts[j].frightenedTimer == 20 &&
               r.ghosts[j].x == s.ghosts[j].x && r.ghosts[j].y == s.ghosts[j].y)
  {
    var p := NextPosition(s.pacmanX, s.pacmanY, s.pacmanDirection);
    CountDotsSetCell(s.board, p.0, p.1, Empty);
  }

  // ---------------------------------------------------------------------
  // Collision lemmas
  // ---------------------------------------------------------------------

  /** A frightened ghost that ends its move on pacman is eaten: +200, back to
      its respawn slot, no longer frightened (its timer is left as it was),
      and lives, phase and pacman are untouched. */
  lemma GhostEaten(s: State, i: nat, d: Draw)
    requires Shaped(s.board) && i < |s.ghosts| && DrawOk(d)
    requires var m := GhostMove(s.ghosts[i], s.board, d);
             m.x == s.pacmanX && m.y == s.pacmanY && m.frightened
    ensures var m := GhostMove(s.ghosts[i], s.board, d);
            var r := GhostStep(s, i, d);
            r.score == s.score + 200 && r.lives == s.lives && r.gameState == s.gameState &&
            r.pacmanX == s.pacmanX && r.pacmanY == s.pacmanY &&
            r.ghosts[i] == Ghost(SpawnX(i), SpawnY(i), m.direction, false, m.frightenedTimer)
  {
  }

  /** A ghost that is not frightened and ends its move on pacman costs a life.
      With no lives left the game is lost and pacman stays; otherwise pacman
      goes back to (1,1). Pacman's facing, the score and every ghost stay as
      they are after the move. */
  lemma PacmanCaught(s: State, i: nat, d: Draw)
    requires Shaped(s.board) && i < |s.ghosts| && DrawOk(d)
    requires var m := GhostMove(s.ghosts[i], s.board, d);
             m.x == s.pacmanX && m.y == s.pacmanY && !m.frightened
    ensures var m := GhostMove(s.ghosts[i], s.board, d);
            var r := GhostStep(s, i, d);
            r.lives == s.lives - 1 && r.score == s.score &&
            r.ghosts == s.ghosts[i := m] && r.pacmanDirection == s.pacmanDirection &&
            (r.lives <= 0 ==> r.gameState == Lost && r.pacmanX == s.pacmanX && r.pacmanY == s.pacmanY) &&
            (r.lives > 0 ==> r.gameState == s.gameState && r.pacmanX == 1 && r.pacmanY == 1)
  {
  }

  /** Collision is decided only by the positions after the ghost's move: a
      ghost that does not end on pacman changes nothing but itself, even when
      it passed through pacman's cell. */
  lemma NoCollision(s: State, i: nat, d: Draw)
    requires Shaped(s.board) && i < |s.ghosts| && DrawOk(d)
    requires var m := GhostMove(s.ghosts[i], s.board, d);
             m.x != s.pacmanX || m.y != s.pacmanY
    ensures GhostStep(s, i, d) == s.(ghosts := s.ghosts[i := GhostMove(s.ghosts[i], s.board, d)])
  {
  }

  // ---------------------------------------------------------------------
  // Invariant preservation
  // ---------------------------------------------------------------------

  /** One ghost's turn keeps the invariant, never lowers the score, costs at
      most one life, and changes the phase only to lost. */
  lemma GhostStepInv(s: State, i: nat, d: Draw)
    requires Inv(s) && i < |s.ghosts| && DrawOk(d)
    ensures var r := GhostStep(s, i, d);
            Inv(r) && r.score >= s.score && s.lives - 1 <= r.lives <= s.lives &&
            (r.gameState == s.gameState || r.gameState == Lost)
  {
    var m := GhostMove(s.ghosts[i], s.board, d);
    var s1 := s.(ghosts := s.ghosts[i := m]);
    assert forall j :: 0 <= j < |s1.ghosts| ==> GhostOk(s1.ghosts[j]);
    var r := GhostStep(s, i, d);
    assert forall j :: 0 <= j < |r.ghosts| ==> GhostOk(r.ghosts[j]) by {
      forall j | 0 <= j < |r.ghosts| ensures GhostOk(r.ghosts[j]) {
        if j != i { assert r.ghosts[j] == s.ghosts[j]; }
      }
    }
  }

  lemma {:induction false} GhostsUpToInv(s: State, n: nat, ds: seq<Draw>)
    requires Inv(s) && n <= |s.ghosts| && |ds| == |s.ghosts| && DrawsOk(ds)
    ensures var r := GhostsUpTo(s, n, ds);
            Inv(r) && r.score >= s.score && s.lives - n <= r.lives <= s.lives &&
            r.dotCount == s.dotCount && r.pacmanDirection == s.pacmanDirection &&
            (r.gameState == s.gameState || r.gameState == Lost)
  {
    if n > 0 {
      GhostsUpToInv(s, n - 1, ds);
      GhostStepInv(GhostsUpTo(s, n - 1, ds), n - 1, ds[n - 1]);
    }
  }

  /** Ghost turns `n..` have not happened yet after `n` iterations. */
  lemma {:induction false} GhostsUpToLater(s: State, n: nat, ds: seq<Draw>, j: nat)
    requires Shaped(s.board) && n <= j < |s.ghosts| && |ds| == |s.ghosts| && DrawsOk(ds)
    ensures GhostsUpTo(s, n, ds).ghosts[j] == s.ghosts[j]
  {
    if n > 0 {
      GhostsUpToLater(s, n - 1, ds, j);
    }
  }

  lemma DecayPowerInv(s: State)
    requires Inv(s)
    ensures Inv(DecayPower(s))
  {
  }

  /** A tick keeps the invariant; in particular the dot count still equals
      the number of dot cells on the board. */
  lemma TickInv(s: State, ds: seq<Draw>)
    requires Inv(s) && |ds| == |s.ghosts| && DrawsOk(ds)
    ensures Inv(Tick(s, ds))
  {
    if s.gameState == Playing {
      PacmanStepWellFormed(s);
      var p := WinCheck(PacmanStep(s));
      GhostsUpToInv(p, |p.ghosts|, ds);
      DecayPowerInv(GhostsUpTo(p, |p.ghosts|, ds));
    }
  }

  /** Over one tick the score never falls, at most one life per ghost is lost
      and none gained, and the dot count falls by at most one. */
  lemma TickMonotone(s: State, ds: seq<Draw>)
    requires Inv(s) && |ds| == |s.ghosts| && DrawsOk(ds)
    ensures var r := Tick(s, ds);
            r.score >= s.score && s.lives - |s.ghosts| <= r.lives <= s.lives &&
            s.dotCount - 1 <= r.dotCount <= s.dotCount && r.level == s.level
  {
    if s.gameState == Playing {
      PacmanStepWellFormed(s);
      var p := WinCheck(PacmanStep(s));
      GhostsUpToInv(p, |p.ghosts|, ds);
    }
  }

  /** After a tick that started in play, the phase is decided by lives and
      dots alone: lost exactly when no lives are left (even if the dots ran
      out earlier in the same tick), won exactly when lives remain and no dots
      do, and still in play exactly when both remain. */
  lemma TickPhase(s: State, ds: seq<Draw>)
    requires Inv(s) && s.gameState == Playing && |ds| == |s.ghosts| && DrawsOk(ds)
    ensures var r := Tick(s, ds);
            r.gameState != Paused &&
            (r.gameState == Lost <==> r.lives <= 0) &&
            (r.gameState == Won <==> r.lives > 0 && r.dotCount == 0) &&
            (r.gameState == Playing <==> r.lives > 0 && r.dotCount > 0)
  {
    TickInv(s, ds);
    PacmanStepWellFormed(s);
    var p := WinCheck(PacmanStep(s));
    GhostsUpToInv(p, |p.ghosts|, ds);
  }

  /** Eating the last dot: the dot count reaches 0 and the score rises by at
      least 10 on that tick, and the game ends up won unless the ghosts that
      move after the win check took the last life, in which case it is lost. */
  lemma LastDotWins(s: State, ds: seq<Draw>)
    requires Inv(s) && s.gameState == Playing && |ds| == |s.ghosts| && DrawsOk(ds)
    requires s.dotCount == 1
    requires var p := NextPosition(s.pacmanX, s.pacmanY, s.pacmanDirection);
             s.board[p.1][p.0] == Dot
    ensures var r := Tick(s, ds);
            r.dotCount == 0 && r.score >= s.score + DotPoints &&
            (r.gameState == Won <==> r.lives > 0) &&
            (r.gameState == Lost <==> r.lives <= 0)
  {
    PacmanEatsDot(s);
    TickPhase(s, ds);
    var p := WinCheck(PacmanStep(s));
    GhostsUpToInv(p, |p.ghosts|, ds);
  }

  /** No tick changes anything unless the game is being played. */
  lemma TickIdleUnlessPlaying(s: State, ds: seq<Draw>)
    requires Shaped(s.board) && |ds| == |s.ghosts| && DrawsOk(ds)
    requires s.gameState != Playing
    ensures Tick(s, ds) == s
  {
  }

  /** Starting from ghosts all frightened with timer `t`, each processed
      ghost has timer `t - 1`, eaten or not. */
  lemma {:induction false} GhostsUpToTimers(s: State, n: nat, ds: seq<Draw>, t: int)
    requires Shaped(s.board) && n <= |s.ghosts| && |ds| == |s.ghosts| && DrawsOk(ds)
    requires forall j :: 0 <= j < |s.ghosts| ==> s.ghosts[j].frightened && s.ghosts[j].frightenedTimer == t
    ensures var r := GhostsUpTo(s, n, ds);
            forall j :: 0 <= j < n ==> r.ghosts[j].frightenedTimer == t - 1
  {
    if n > 0 {
      var prev := GhostsUpTo(s, n - 1, ds);
      GhostsUpToTimers(s, n - 1, ds, t);
      GhostsUpToLater(s, n - 1, ds, n - 1);
      assert prev.ghosts[n - 1] == s.ghosts[n - 1];
      assert GhostsUpTo(s, n, ds) == GhostStep(prev, n - 1, ds[n - 1]);
    }
  }

  /** A frightened ghost with more than one tick left is still frightened
      after its turn, unless pacman ate it, which put it on its respawn slot. */
  lemma FrightenedSurvives(s: State, i: nat, d: Draw)
    requires Shaped(s.board) && i < |s.ghosts| && DrawOk(d)
    requires s.ghosts[i].frightened && s.ghosts[i].frightenedTimer > 1
    ensures var r := GhostStep(s, i, d);
            r.ghosts[i].frightened || (r.ghosts[i].x == SpawnX(i) && r.ghosts[i].y == SpawnY(i))
  {
    var m := GhostMove(s.ghosts[i], s.board, d);
    if m.x == s.pacmanX && m.y == s.pacmanY {
      GhostEaten(s, i, d);
    } else {
      NoCollision(s, i, d);
    }
  }

  /** Starting from ghosts all frightened with more than one tick left, each
      processed ghost is still frightened or was eaten and respawned. */
  lemma {:induction false} GhostsUpToFrightened(s: State, n: nat, ds: seq<Draw>)
    requires Shaped(s.board) && n <= |s.ghosts| && |ds| == |s.ghosts| && DrawsOk(ds)
    requires forall j :: 0 <= j < |s.ghosts| ==> s.ghosts[j].frightened && s.ghosts[j].frightenedTimer > 1
    ensures var r := GhostsUpTo(s, n, ds);
            forall j :: 0 <= j < n ==>
              r.ghosts[j].frightened || (r.ghosts[j].x == SpawnX(j) && r.ghosts[j].y == SpawnY(j))
  {
    if n > 0 {
      var prev := GhostsUpTo(s, n - 1, ds);
      GhostsUpToFrightened(s, n - 1, ds);
      GhostsUpToLater(s, n - 1, ds, n - 1);
      assert prev.ghosts[n - 1] == s.ghosts[n - 1];
      FrightenedSurvives(prev, n - 1, ds[n - 1]);
      assert GhostsUpTo(s, n, ds) == GhostStep(prev, n - 1, ds[n - 1]);
    }
  }

  /** A ghost neither on pacman's cell nor next to it on the torus. */
  predicate Apart(g: Ghost, px: int, py: int) {
    (g.x, g.y) != (px, py) && forall d :: NextPosition(g.x, g.y, d) != (px, py)
  }

  /** `r` has pacman on the same cell, the same score, lives and phase as `s`. */
  predicate Undisturbed(r: State, s: State) {
    r.pacmanX == s.pacmanX && r.pacmanY == s.pacmanY && r.score == s.score &&
    r.lives == s.lives && r.gameState == s.gameState
  }

  /** A ghost apart from pacman cannot end its move on pacman's cell, so its
      turn changes nothing but itself. */
  lemma GhostStepMisses(s: State, i: nat, d: Draw)
    requires Shaped(s.board) && i < |s.ghosts| && DrawOk(d)
    requires Apart(s.ghosts[i], s.pacmanX, s.pacmanY)
    ensures Undisturbed(GhostStep(s, i, d), s)
  {
    var g := s.ghosts[i];
    GhostMoveOutcome(g, s.board, d);
    assert NextPosition(g.x, g.y, Heading(g, d)) != (s.pacmanX, s.pacmanY);
    NoCollision(s, i, d);
  }

  /** When every ghost is apart from pacman, the ghost loop moves the ghosts
      and nothing else: no collision changes the score, the lives, pacman's
      cell or the phase. */
  lemma {:induction false} GhostsMissPacman(s: State, n: nat, ds: seq<Draw>)
    requires Shaped(s.board) && n <= |s.ghosts| && |ds| == |s.ghosts| && DrawsOk(ds)
    requires forall j :: 0 <= j < |s.ghosts| ==> Apart(s.ghosts[j], s.pacmanX, s.pacmanY)
    ensures Undisturbed(GhostsUpTo(s, n, ds), s)
  {
    if n > 0 {
      GhostsMissPacman(s, n - 1, ds);
      GhostMissesAfter(s, n, ds);
    }
  }

  /** One more iteration of the ghost loop: ghost `n - 1`, still where it
      started and apart from pacman, leaves pacman undisturbed. */
  lemma GhostMissesAfter(s: State, n: nat, ds: seq<Draw>)
    requires Shaped(s.board) && 0 < n <= |s.ghosts| && |ds| == |s.ghosts| && DrawsOk(ds)
    requires Apart(s.ghosts[n - 1], s.pacmanX, s.pacmanY)
    requires Undisturbed(GhostsUpTo(s, n - 1, ds), s)
    ensures Undisturbed(GhostsUpTo(s, n, ds), s)
  {
    var prev := GhostsUpTo(s, n - 1, ds);
    GhostsUpToLater(s, n - 1, ds, n - 1);
    GhostStepMisses(prev, n - 1, ds[n - 1]);
    assert GhostsUpTo(s, n, ds) == GhostStep(prev, n - 1, ds[n - 1]);
  }

  /** A tick from pacman at (1,1) facing a dot on its right, with the
      starting ghosts: pacman steps onto the dot, scores 10 and leaves one
      dot fewer; the ghosts are too far away to reach it, so lives and phase
      are untouched. */
  lemma StartTick(s: State, ds: seq<Draw>)
    requires Inv(s) && s.gameState == Playing && |ds| == |s.ghosts| && DrawsOk(ds)
    requires s.pacmanX == 1 && s.pacmanY == 1 && s.pacmanDirection == Right
    requires s.board[1][2] == Dot && s.dotCount >= 2 && s.ghosts == InitialGhosts
    ensures var r := Tick(s, ds);
            r.pacmanX == 2 && r.pacmanY == 1 && r.score == s.score + DotPoints &&
            r.lives == s.lives && r.gameState == Playing && (!s.powerMode ==> !r.powerMode) &&
            r.board == SetCell(s.board, 2, 1, Empty) && r.dotCount == s.dotCount - 1
  {
    assert NextPosition(1, 1, Right) == (2, 1);
    PacmanEatsDot(s);
    var p := WinCheck(PacmanStep(s));
    assert p == PacmanStep(s);
    forall j | 0 <= j < |p.ghosts|
      ensures Apart(p.ghosts[j], 2, 1)
    {
      InitialGhostsAtSpawn(j);
    }
    GhostsMissPacman(p, |p.ghosts|, ds);
    assert Tick(s, ds) == DecayPower(GhostsUpTo(p, |p.ghosts|, ds));
  }

  /** The first tick of a fresh game moves pacman onto the dot at (2,1),
      scores 10 and keeps three lives and the playing phase. */
  lemma FirstTick(ds: seq<Draw>)
    requires |ds| == |InitialGhosts| && DrawsOk(ds)
    ensures var r := Tick(InitialState(), ds);
            r.pacmanX == 2 && r.pacmanY == 1 && r.score == DotPoints &&
            r.lives == StartLives && r.gameState == Playing && !r.powerMode &&
            r.dotCount == CountDots(InitialBoard()) - 1
  {
    var s := InitialState();
    InitialStartCells();
    InitialDotsAtLeastTwo();
    assert s.board[1][2] == Dot && s.dotCount >= 2;
    StartTick(s, ds);
    var r := Tick(s, ds);
    assert r.score == DotPoints && r.dotCount == CountDots(InitialBoard()) - 1;
  }

  /** The second half of a tick started with every ghost freshly frightened
      and power mode freshly on. */
  lemma GhostsAndPowerAfterPellet(p: State, ds: seq<Draw>)
    requires Shaped(p.board) && |ds| == |p.ghosts| && DrawsOk(ds)
    requires p.powerMode && p.powerTimer == PowerTicks
    requires forall j :: 0 <= j < |p.ghosts| ==> p.ghosts[j].frightened && p.ghosts[j].frightenedTimer == PowerTicks
    ensures var r := DecayPower(GhostsUpTo(p, |p.ghosts|, ds));
            r.powerMode && r.powerTimer == PowerTicks - 1 && |r.ghosts| == |p.ghosts| &&
            forall j :: 0 <= j < |r.ghosts| ==>
              r.ghosts[j].frightenedTimer == PowerTicks - 1 &&
              (r.ghosts[j].frightened || (r.ghosts[j].x == SpawnX(j) && r.ghosts[j].y == SpawnY(j)))
  {
    GhostsUpToTimers(p, |p.ghosts|, ds, PowerTicks);
    GhostsUpToFrightened(p, |p.ghosts|, ds);
  }

  /** On a tick where pacman eats a power pellet, the session timer and every
      ghost's frightened timer are set to 20 and then counted down once in the
      same tick, so all of them read 19 afterwards and power mode is on. Every
      ghost is still frightened, except one pacman ate in that tick, which is
      back on its respawn slot. */
  lemma TickPelletTimers(s: State, ds: seq<Draw>)
    requires Inv(s) && s.gameState == Playing && |ds| == |s.ghosts| && DrawsOk(ds)
    requires var p := NextPosition(s.pacmanX, s.pacmanY, s.pacmanDirection);
             s.board[p.1][p.0] == PowerPellet
    ensures var r := Tick(s, ds);
            r.powerMode && r.powerTimer == PowerTicks - 1 &&
            forall j :: 0 <= j < |r.ghosts| ==>
              r.ghosts[j].frightenedTimer == PowerTicks - 1 &&
              (r.ghosts[j].frightened || (r.ghosts[j].x == SpawnX(j) && r.ghosts[j].y == SpawnY(j)))
  {
    PacmanEatsPellet(s);
    var p := WinCheck(PacmanStep(s));
    GhostsAndPowerAfterPellet(p, ds);
  }

  // ---------------------------------------------------------------------
  // Key lemmas
  // ---------------------------------------------------------------------

  lemma KeyPressInv(s: State, key: string)
    requires Inv(s)
    ensures Inv(KeyPress(s, key))
  {
  }

  /** A direction key sets pacman's facing in every phase and changes nothing else. */
  lemma FacingKey(s: State, key: string, d: Direction)
    requires CommandOf(key) == Face(d)
    ensures KeyPress(s, key) == s.(pacmanDirection := d)
  {
  }

  /** Quitting and unrecognised keys leave the game as it was. */
  lemma KeysIgnored(s: State, key: string)
    requires CommandOf(key) == Quit || CommandOf(key) == Ignore
    ensures KeyPress(s, key) == s
  {
  }

  /** `p` swaps playing and paused, and pressing it twice restores the game;
      it leaves a won or lost game alone. */
  lemma PauseToggle(s: State)
    ensures s.gameState == Playing ==> KeyPress(s, "p") == s.(gameState := Paused)
    ensures s.gameState == Paused ==> KeyPress(s, "p") == s.(gameState := Playing)
    ensures s.gameState == Playing || s.gameState == Paused ==> KeyPress(KeyPress(s, "p"), "p") == s
    ensures s.gameState == Won || s.gameState == Lost ==> KeyPress(s, "p") == s
  {
  }

  /** A won or lost game stays so under every tick and every key but restart. */
  lemma TerminalPhases(s: State, key: string, ds: seq<Draw>)
    requires Shaped(s.board) && |ds| == |s.ghosts| && DrawsOk(ds)
    requires s.gameState == Won || s.gameState == Lost
    ensures Tick(s, ds) == s
    ensures CommandOf(key) != Restart ==> KeyPress(s, key).gameState == s.gameState
    ensures CommandOf(key) == Restart ==> KeyPress(s, key) == InitialState()
  {
  }
}
