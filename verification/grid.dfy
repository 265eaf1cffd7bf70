/** The game board: a CELL_NUMBER x CELL_NUMBER grid of integer cells, and
    the integer vectors the game uses for cells and directions (pygame's
    Vector2 only ever holds small whole numbers here). Screen y grows
    downwards, so "up" is (0, -1). */
module Grid {

  datatype Vec = Vec(x: int, y: int) {
    function Plus(o: Vec): Vec {
      Vec(x + o.x, y + o.y)
    }

    function Minus(o: Vec): Vec {
      Vec(x - o.x, y - o.y)
    }

    function Neg(): Vec {
      Vec(-x, -y)
    }
  }

  /** Number of cells along each side of the board. */
  const CELL_NUMBER: int := 20

  const ZERO := Vec(0, 0)
  const UP := Vec(0, -1)
  const DOWN := Vec(0, 1)
  const LEFT := Vec(-1, 0)
  const RIGHT := Vec(1, 0)

  /** The body every snake starts from and returns to on reset. */
  const INITIAL_BODY: seq<Vec> := [Vec(5, 10), Vec(4, 10), Vec(3, 10)]

  predicate IsUnit(d: Vec) {
    d == UP || d == DOWN || d == LEFT || d == RIGHT
  }

  /** A direction the snake can hold: standing still or one of the four units. */
  predicate IsDirection(d: Vec) {
    d == ZERO || IsUnit(d)
  }

  predicate InGrid(p: Vec) {
    0 <= p.x < CELL_NUMBER && 0 <= p.y < CELL_NUMBER
  }
}
