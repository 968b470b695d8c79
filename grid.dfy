/** The board of the snake game: a fixed square of cells, the four
    directions of travel, and the random placement of consumables. */
module Grid {

  /** Number of cells along each side of the board (the canvas is 600 pixels
      of 20-pixel cells). */
  const GridCount: int := 30

  /** One cell of the board; equal exactly when both coordinates are. */
  datatype Cell = Cell(x: int, y: int)

  datatype Direction = Up | Down | Left | Right

  predicate InBounds(c: Cell) {
    0 <= c.x < GridCount && 0 <= c.y < GridCount
  }

  /** Two cells one unit apart along exactly one axis. */
  predicate Adjacent(a: Cell, b: Cell) {
    || (a.x == b.x && (a.y == b.y + 1 || b.y == a.y + 1))
    || (a.y == b.y && (a.x == b.x + 1 || b.x == a.x + 1))
  }

  /** The reverse of a direction: the one request that steering refuses. */
  function Opposite(d: Direction): (r: Direction)
    ensures r != d
    ensures (d == Up || d == Down) <==> (r == Up || r == Down)
  {
    match d
    case Up => Down
    case Down => Up
    case Left => Right
    case Right => Left
  }

  /** The cell one step from `c` in direction `d`; the screen's y axis
      grows downwards, so Up decreases y. */
  function Advance(c: Cell, d: Direction): (r: Cell)
    ensures Adjacent(c, r)
    ensures r.y == c.y - 1 <==> d == Up
    ensures r.y == c.y + 1 <==> d == Down
    ensures r.x == c.x - 1 <==> d == Left
    ensures r.x == c.x + 1 <==> d == Right
  {
    match d
    case Up => c.(y := c.y - 1)
    case Down => c.(y := c.y + 1)
    case Left => c.(x := c.x - 1)
    case Right => c.(x := c.x + 1)
  }

  /** randomPosition: each coordinate is floor(u * GridCount) for a draw u
      in [0, 1), so every placement lies on the board. */
  function RandomPosition(u: real, v: real): (r: Cell)
    requires 0.0 <= u < 1.0 && 0.0 <= v < 1.0
    ensures InBounds(r)
  {
    Cell((u * GridCount as real).Floor, (v * GridCount as real).Floor)
  }
}
