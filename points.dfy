/**
 * Grid coordinates (src/board/point.rs) and the four step directions a pawn
 * can take (the `Direction` enum of src/board/mod.rs and src/board.rs).
 * Coordinates are unbounded integers; bounds are a property of a board.
 */
module Points {

  /** One of the four orthogonal directions. */
  datatype Direction = Up | Down | Left | Right

  const AllDirections: set<Direction> := {Up, Down, Left, Right}

  /** The direction that undoes a step in `d`. */
  function Opposite(d: Direction): Direction
  {
    match d
    case Up => Down
    case Down => Up
    case Left => Right
    case Right => Left
  }

  /** A column `x` and a row `y`. */
  datatype Point = Point(x: int, y: int) {

    /** The point moved by the two offsets: the result lies exactly that far away, column and row. */
    function Shift(changeX: int, changeY: int): (r: Point)
      ensures r.x - x == changeX && r.y - y == changeY
    {
      Point(x + changeX, y + changeY)
    }

    /** Field-wise equality, as the source's `PartialEq` implementation. */
    function Eq(other: Point): (r: bool)
      ensures r <==> this == other
    {
      x == other.x && y == other.y
    }

    /**
     * The neighbouring cell one step away in `d`: Up adds one to the row,
     * Right adds one to the column, Down and Left subtract one.
     */
    function ShiftDirection(d: Direction): (r: Point)
      ensures (r.x == x && (r.y == y + 1 || r.y == y - 1)) || (r.y == y && (r.x == x + 1 || r.x == x - 1))
      ensures (d == Up || d == Down) <==> r.x == x
    {
      match d
      case Up => Shift(0, 1)
      case Right => Shift(1, 0)
      case Down => Shift(0, -1)
      case Left => Shift(-1, 0)
    }
  }

  /** `point::create`. */
  function Create(x: int, y: int): (r: Point)
    ensures r.x == x && r.y == y
  {
    Point(x, y)
  }

  /** `Point::origin`: the point with both coordinates zero. */
  function Origin(): (r: Point)
    ensures r.x == 0 && r.y == 0
  {
    Create(0, 0)
  }

  /** Every point is the origin shifted by its own coordinates. */
  lemma ShiftFromOrigin(p: Point)
    ensures Origin().Shift(p.x, p.y) == p
  {
  }

  /** A step followed by a step in the opposite direction returns to the start. */
  lemma ShiftDirectionUndone(p: Point, d: Direction)
    ensures p.ShiftDirection(d).ShiftDirection(Opposite(d)) == p
  {
  }

  lemma ShiftZeroIsIdentity(p: Point)
    ensures p.Shift(0, 0) == p
  {
  }

  lemma ShiftComposes(p: Point, a: int, b: int, c: int, d: int)
    ensures p.Shift(a, b).Shift(c, d) == p.Shift(a + c, b + d)
  {
  }

  lemma EqIsReflexiveAndSymmetric(p: Point, q: Point)
    ensures p.Eq(p)
    ensures p.Eq(q) == q.Eq(p)
  {
  }
}
