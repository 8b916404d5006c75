/** Board dimensions, directions and the one-cell move with toroidal wrap-around
    shared by pacman and the ghosts. */
module Geometry {

  /** The playing field is `Width` columns by `Height` rows. */
  const Width: int := 30
  const Height: int := 20

  /** The four facings, in the order of their integer codes 0..3. */
  datatype Direction = Up | Down | Left | Right

  predicate InBounds(x: int, y: int) {
    0 <= x < Width && 0 <= y < Height
  }

  /** The integer a direction stands for. */
  function Code(d: Direction): int {
    match d
    case Up => 0
    case Down => 1
    case Left => 2
    case Right => 3
  }

  /** The conversion `Direction(n)` applied to a draw `n` in `[0, 4)`. */
  function DirectionOf(n: int): (d: Direction)
    requires 0 <= n < 4
    ensures Code(d) == n
  {
    if n == 0 then Up else if n == 1 then Down else if n == 2 then Left else Right
  }

  lemma CodeRoundTrip(d: Direction)
    ensures 0 <= Code(d) < 4 && DirectionOf(Code(d)) == d
  {
  }

  /** The candidate cell one unit away, before wrap-around (up lowers y). */
  function Step(x: int, y: int, d: Direction): (int, int) {
    match d
    case Up => (x, y - 1)
    case Down => (x, y + 1)
    case Left => (x - 1, y)
    case Right => (x + 1, y)
  }

  /** Wrap-around on one axis: below zero goes to the far edge, at or past the
      edge goes to zero, anything else is kept. */
  function Wrap(v: int, size: int): (w: int)
    requires size > 0
    ensures 0 <= w < size
    ensures 0 <= v < size ==> w == v
  {
    if v < 0 then size - 1 else if v >= size then 0 else v
  }

  /** Horizontal and vertical offsets of a direction: a reference for `Step`. */
  function DX(d: Direction): int {
    if d == Left then -1 else if d == Right then 1 else 0
  }

  function DY(d: Direction): int {
    if d == Up then -1 else if d == Down then 1 else 0
  }

  /** The wrapped candidate position. Whatever the starting point, it lies on
      the board; from a cell on the board it is the neighbour in the torus
      `Z/Width x Z/Height`. */
  function NextPosition(x: int, y: int, d: Direction): (p: (int, int))
    ensures InBounds(p.0, p.1)
    ensures InBounds(x, y) ==> p.0 == (x + DX(d)) % Width && p.1 == (y + DY(d)) % Height
  {
    var (nx, ny) := Step(x, y, d);
    (Wrap(nx, Width), Wrap(ny, Height))
  }

  /** The facing that undoes a move. */
  function Opposite(d: Direction): Direction {
    match d
    case Up => Down
    case Down => Up
    case Left => Right
    case Right => Left
  }

  /** On the board, the wrapped move changes exactly one coordinate, and
      moving back the opposite way returns to the start. */
  lemma NextPositionReversible(x: int, y: int, d: Direction)
    requires InBounds(x, y)
    ensures var p := NextPosition(x, y, d);
            NextPosition(p.0, p.1, Opposite(d)) == (x, y)
    ensures var p := NextPosition(x, y, d);
            (p.0 == x) != (p.1 == y)
  {
  }
}
