# Terminal Pac-Man: the simulation engine in Dafny

This project models the simulation engine of a terminal Pac-Man game
(`main.go`): building the 20×30 board from the hard-coded maze, the timer
tick that moves pacman and the four ghosts, eats dots and power pellets,
resolves ghost/pacman collisions and changes the game phase, and the key
presses that turn pacman, pause and restart.

The project has four modules:

- `geometry.dfy` (`Geometry`): the board size, the four directions, and the
  one-cell step with toroidal wrap-around that pacman and the ghosts share.
- `maze.dfy` (`Maze`): the cell kinds and the maze text. It builds a board from
  a layout and counts its dots, with lemmas about how one cell write changes
  the count.
- `rules.dfy` (`Rules`): the game as a value (`State`), and what one tick and
  one key press do to it, written as functions. Its lemmas state the
  invariant that every event keeps. They also state the scoring, movement,
  collision and phase properties.
- `game.dfy` (`Game`): the game as the program keeps it. It is a class whose
  fields are updated in place. The board is an `array2` written where pacman
  eats, and the ghost roster is an `array` whose elements are rewritten during
  the ghost loop. Every method is proved to have exactly the effect of the
  matching `Rules` function (`Abs() == Rules.Tick(old(Abs()), draws)`). The
  board is built in nested loops that count the dots as they go.

Random numbers become inputs. Each ghost gets a `Draw(chance, turn, reroll)`
per tick, with `0 <= chance < 100` and `0 <= turn, reroll < 4`. These stand for
the `rand.Intn(100)` and `rand.Intn(4)` calls at main.go:268-269 and main.go:302.
`turn` is used only when `chance < 20`, and `reroll` only when the ghost's
move runs into a wall. When the code does not draw a number, its `Draw`
component is ignored.

Cells are the enum `Wall | Dot | PowerPellet | Empty | Zero`. `Zero` stands for
the zero rune that `make([]rune, width)` leaves in cells past the end of a
short maze line. It is neither a wall nor a dot, so those cells can be walked
on.

In these places the model follows the code as written:

- An eaten ghost has `frightened` cleared but keeps its `frightenedTimer`. So the
  invariant is only `frightened ==> frightenedTimer > 0`, not an equivalence.
- Lives can drop below zero when several ghosts catch pacman in one tick. The
  game is lost exactly when `lives <= 0`.
- The dot count counts `D` cells only. Power pellets are not included.
- `won`, set by the win check, is overwritten by `lost` if a ghost takes the last
  life later in the same tick.

## Model

| member | source | states |
|---|---|---|
| Geometry.NextPosition | main.go:205-227 | the wrapped candidate cell always lies in `[0,30)×[0,20)`, whatever the start; from a cell on the board it is the neighbour on the torus, `((x+dx) mod 30, (y+dy) mod 20)` |
| Geometry.Wrap | main.go:218-227 | wrap-around on one axis lands in `[0,size)` and leaves an in-range coordinate unchanged |
| Geometry.DirectionOf | main.go:269 | the direction `Direction(n)` for a draw `n` in `[0,4)` has code `n` (up 0, down 1, left 2, right 3) |
| Geometry.CodeRoundTrip | main.go:37-42 | direction codes are in `[0,4)` and converting a code back gives the same direction |
| Geometry.NextPositionReversible | main.go:205-227 | on the board, a move changes exactly one coordinate, and moving back the opposite way returns to the start |
| Maze.CellOf | main.go:126-138 | `W` gives a wall, `D` a dot, `P` a power pellet, and every other character an empty cell (both directions of each) |
| Maze.RowOf | main.go:122-139 | a board row is the cell of each maze character up to width 30, then the zero rune past the end of a short line |
| Maze.Layout | main.go:118-141 | the board is 20 rows of 30 cells; row `y` comes from maze line `y`, lines past 20 are never read, and missing lines give zero-rune rows |
| Maze.InitialStartCells | main.go:86 | pacman's start cell (1,1) and the cell to its right hold dots on a fresh board |
| Maze.InitialPellets | main.go:88 | the power pellets of line 3 are on the board |
| Maze.UnreadLines | main.go:84-113 | the maze has 28 lines and line 21 holds a power pellet, but every row of the fresh board is built from one of the first 20 lines |
| Maze.ShortLine | main.go:93 | line 8 has 29 characters, so cell (29,8) keeps the zero rune |
| Maze.SpawnCells | main.go:95-96 | the ghost spawns (14,10) and (15,10) are wall cells, and (14,11) and (15,11) are empty |
| Maze.SetCell | main.go:235 | writing one cell changes that cell and no other |
| Maze.CountRowOccurrences | main.go:129-131 | the dot count of a row is the number of `Dot` cells in it |
| Maze.CountDotsSetCell | main.go:234-237 | overwriting one cell changes the board's dot count by what left and what came, so clearing a dot lowers it by exactly one |
| Maze.CountRowNoDotsAfter | main.go:125 | cells past the copied part of a line add no dots |
| Maze.CountDotsPositive | main.go:253 | a board with a dot cell has a positive dot count |
| Maze.InitialDotsAtLeastTwo | main.go:119-131 | a fresh board has at least two dots, so a new game does not start won |
| Rules.InitialGhostsAtSpawn | main.go:144-149 | the four starting ghosts face up, are not frightened, and sit on their respawn slots `(14 + i%2, 10 + i/2)` |
| Rules.InitialState | main.go:116-167 | a fresh game meets the invariant: dot count equals the dots on the board, everyone on the board, timers in range, phase playing with dots left |
| Rules.Frighten | main.go:245-248 | power-mode entry keeps every ghost's position and facing and sets `frightened` with timer 20 |
| Rules.PacmanStep | main.go:204-250 | pacman's step keeps the board's shape and the roster's size |
| Rules.PacmanWalks | main.go:229-231 | facing an empty cell or a zero-rune cell, pacman moves onto it and nothing else changes: score, board, dot count, power state and ghosts stay as they were |
| Rules.Eat | main.go:233-249 | after eating, the cell under pacman holds neither a dot nor a power pellet; the score never falls; pacman's cell and facing, lives, phase and level are unchanged |
| Rules.WinCheck | main.go:252-255 | only the phase can change; it becomes won exactly when no dots are left (or it already was won), and with dots left the game is untouched |
| Rules.PacmanBlocked | main.go:229-231 | facing a wall, pacman keeps its position and facing, and nothing else changes |
| Rules.PacmanStepWellFormed | main.go:204-250 | pacman's step keeps the invariant, lives, phase and facing; the dot count stays equal to the board's dots and falls by at most one; the score never falls |
| Rules.PacmanEatsDot | main.go:234-237 | landing on a dot clears the cell, adds exactly 10 and lowers the dot count by exactly 1, which again equals the dots on the board |
| Rules.PacmanEatsPellet | main.go:238-249 | landing on a power pellet clears the cell, adds 50, leaves the dot count alone, sets power mode with timer 20, and frightens every ghost with timer 20 in place |
| Rules.GhostMove | main.go:259-303 | a ghost's move keeps it on the board, counts down its frightened timer once if it was frightened, and leaves it frightened exactly when it was and had more than one tick left |
| Rules.Heading | main.go:267-270 | when the chance draw is below 20 the ghost turns to the facing whose code is the turn draw; otherwise it keeps its facing |
| Rules.GhostMoveOutcome | main.go:268-303 | a ghost whose heading hits a wall keeps its cell and takes the re-rolled facing; otherwise it moves to the wrapped neighbour in its heading |
| Rules.GhostStep | main.go:258-325 | one ghost's turn touches no other ghost, the board, the dot count, the power timer or pacman's facing; the collision keeps the ghost's facing and timer |
| Rules.GhostsUpTo | main.go:258-325 | the ghost loop keeps the board, dot count, power state, facing and level |
| Rules.Collide | main.go:305-324 | a ghost not on pacman's cell changes nothing; otherwise the score never falls, at most one life is lost, the phase changes only to lost, and the board, dot count and facing are kept |
| Rules.GhostEaten | main.go:306-312 | a frightened ghost ending on pacman adds 200 and goes to `(14 + i%2, 10 + i/2)` not frightened with its timer unchanged; lives, phase and pacman are untouched |
| Rules.PacmanCaught | main.go:313-323 | an unfrightened ghost ending on pacman costs one life; at `lives <= 0` the game is lost and pacman stays, otherwise pacman goes to (1,1); facing, score and ghosts are kept |
| Rules.NoCollision | main.go:305-306 | a ghost that does not end on pacman's cell changes nothing but itself, even if it swapped cells with pacman |
| Rules.GhostStepInv | main.go:258-325 | one ghost's turn keeps the invariant, never lowers the score, costs at most one life, and changes the phase only to lost |
| Rules.GhostsUpToInv | main.go:258-325 | the ghost loop keeps the invariant, the dot count and facing, never lowers the score, and costs at most one life per ghost |
| Rules.GhostsUpToLater | main.go:258 | ghosts later in the roster are untouched by the turns before theirs |
| Rules.GhostsUpToTimers | main.go:259-265 | starting from ghosts all frightened with timer `t`, each processed ghost has timer `t-1`, eaten or not |
| Rules.FrightenedSurvives | main.go:259-312 | a frightened ghost with more than one tick left is still frightened after its turn, unless pacman ate it, which put it on its respawn slot |
| Rules.GhostsUpToFrightened | main.go:258-325 | starting from ghosts all frightened with more than one tick left, every processed ghost is still frightened or was eaten and is on its respawn slot |
| Rules.DecayPower | main.go:327-333 | only power mode and its timer can change; with power mode on the timer drops by one and power mode stays on exactly while time is left; with it off nothing changes |
| Rules.Tick | main.go:202-334 | a tick keeps the board's shape, the roster's size, pacman's facing and the level |
| Rules.DecayPowerInv | main.go:327-333 | the power countdown keeps the invariant (`powerMode` exactly when the timer is positive) |
| Rules.TickInv | main.go:202-334 | a tick keeps the invariant; in particular the dot count still equals the number of dot cells on the board |
| Rules.TickMonotone | main.go:202-334 | over a tick the score never falls, lives fall by at most one per ghost, the dot count falls by at most one, and the level is unchanged |
| Rules.TickPhase | main.go:252-255 | after a tick in play: lost exactly when lives are `<= 0`, won exactly when lives remain and no dots do, playing exactly when both remain |
| Rules.LastDotWins | main.go:234-255 | eating the last dot brings the count to 0 and scores at least 10; the game is won unless a later ghost took the last life, which makes it lost |
| Rules.GhostStepMisses | main.go:268-306 | a ghost that is neither on pacman's cell nor next to it on the torus cannot end its move there, so its turn leaves pacman's cell, score, lives and phase alone |
| Rules.GhostsMissPacman | main.go:258-325 | when every ghost starts apart from pacman, the whole ghost loop leaves pacman's cell, score, lives and phase alone |
| Rules.GhostMissesAfter | main.go:258-325 | one more iteration of the ghost loop, for a ghost still on its starting cell and apart from pacman, keeps pacman's cell, score, lives and phase |
| Rules.StartTick | main.go:202-334 | from (1,1) facing right at a dot with the starting ghosts, a tick moves pacman to (2,1), clears that dot, adds exactly 10, lowers the dot count by exactly 1, and keeps lives and the playing phase |
| Rules.FirstTick | main.go:143-167 | the first tick of a fresh game ends with pacman on (2,1), score 10, three lives, still playing, power mode off and one dot fewer than the fresh board |
| Rules.TickIdleUnlessPlaying | main.go:203 | a tick changes nothing unless the phase is playing |
| Rules.GhostsAndPowerAfterPellet | main.go:259-333 | with power mode and every ghost freshly set to 20, the rest of the tick leaves all timers at 19, power mode on, and every ghost frightened unless it was eaten and respawned |
| Rules.TickPelletTimers | main.go:238-333 | on a tick where pacman eats a power pellet, the power timer and every ghost's timer are set to 20 and counted down once, ending at 19; every ghost is still frightened, except one eaten in that tick, which is on its respawn slot |
| Rules.CommandOf | main.go:180-198 | `ctrl+c`/`q` quit, `up`/`k`, `down`/`j`, `left`/`h`, `right`/`l` face that way, `p` toggles pause and `r` restarts, each in both directions; every other key is ignored |
| Rules.KeyPress | main.go:178-200 | `r` gives a fresh game in every phase; every other key changes at most pacman's facing and the phase |
| Rules.KeysIgnored | main.go:178-200 | quitting and unrecognised keys leave the game as it was |
| Rules.KeyPressInv | main.go:178-200 | every key press keeps the invariant |
| Rules.FacingKey | main.go:182-189 | a direction key sets pacman's facing in every phase and changes nothing else |
| Rules.PauseToggle | main.go:190-196 | `p` swaps playing and paused, pressing it twice restores the game, and a won or lost game is left alone |
| Rules.TerminalPhases | main.go:190-203 | a won or lost game is unchanged by ticks, keeps its phase under every key but `r`, and `r` gives a fresh game |
| Game.FillRow | main.go:122-140 | for lines indexed by character, filling row `y` writes exactly the layout's row and leaves every other row alone, and the running count is the row's dots |
| Game.BuildBoard | main.go:118-141 | for lines indexed by character, the nested loops build exactly the layout's board, and the running dot count equals the number of dot cells on it |
| Game.Game.constructor | main.go:116-167 | a new game is exactly the initial state: the built board, its dot count, pacman at (1,1) facing right, score 0, lives 3, level 1, playing, ghosts on their spawns |
| Game.Game.MovePacman | main.go:204-250 | the in-place step is exactly `PacmanStep` on the game's value |
| Game.Game.Eat | main.go:233-249 | the in-place eating (board cell, score, dot count, power state, ghosts) is exactly `Rules.Eat` |
| Game.Game.FrightenGhosts | main.go:245-248 | the loop over the roster leaves exactly `Frighten` of the old roster |
| Game.Game.MoveGhost | main.go:259-303 | rewriting ghost `i` in the array gives exactly `GhostMove` of it and leaves the other ghosts |
| Game.Game.CheckCollision | main.go:305-324 | the in-place collision handling is exactly `Collide` |
| Game.Game.MoveGhosts | main.go:257-325 | the ghost loop in roster order is exactly `GhostsUpTo` over the whole roster |
| Game.Game.CountDownPower | main.go:327-333 | the in-place power countdown is exactly `DecayPower` |
| Game.Game.Step | main.go:203-334 | the playing branch of a tick is exactly `Rules.Tick` |
| Game.Game.Tick | main.go:202-337 | a tick updates the game in place to exactly `Rules.Tick` of its old value and keeps the invariant |
| Game.Game.HandleKey | main.go:178-200 | a key press updates the game in place, or for `r` returns a fresh one, to exactly `KeyPress` of the old value, keeping the invariant |

## Left out

- Rendering (`View`, main.go:343-410) and the lipgloss style variables (main.go:70-81) are presentation, built on a foreign library.
- The bubbletea/bubbles timer plumbing is left out: the `timer` field, `Init`, `m.timer.Start()`, and the forwarding of other messages to `m.timer.Update` (main.go:61, 160, 170-172, 336-340). A tick is one call of `Game.Tick`.
- Process startup (`main`, main.go:412-419) is left out: seeding the generator, running the program and the exit code.
- The random number generator is left out. Its results are the `Draw` inputs of a tick, with the ranges `rand.Intn` guarantees.
- Quit (`ctrl+c`, `q`) returns the `tea.Quit` command. The model covers only its state effect, which is none.
- The glyph runes (main.go:20-25) are replaced by the `Cell` enum, and the phase codes by the `GameState` enum.
- Go's `int` (32 or 64 bits, depending on the platform) is modelled as an unbounded integer. The score and timers stay far below 2^31 in any playable game, so wrap-around is not modelled.
- `Game.FillRow` and `Game.BuildBoard` index a maze line by character, while main.go:125-126 indexes it by byte (`len(row)`, `row[x]`). The two agree on the one maze the program has, which is ASCII; for a maze with multi-byte characters the model's board would differ.
- The fresh board is not proved to hold no power pellets besides the two of row 3; `Maze.UnreadLines` proves only that every board row comes from one of the first 20 maze lines.
- `Game.Game.constructor` is not proved to meet the invariant itself. The contract of `Rules.InitialState` proves that its result does.
- The exact number of dots on the fresh board (148) is not proved. It is only proved to equal the count of dot cells, and to be at least 2.
