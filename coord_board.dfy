/**
 * The coordinate board of src/board.rs: a width, a height and four pawn
 * slots holding points, built with copy-returning setters. Its pawn move
 * clamps the destination to the grid and does not look at walls.
 */
module CoordBoard {
  import opened Points
  import opened Options

  /** The number of pawn slots (`[Point; 4]`). */
  const PawnSlots: nat := 4

  datatype Board = Board(width: int, height: int, pawns: seq<Point>) {

    /** The shape the source's array type fixes. */
    predicate WellFormed()
    {
      |pawns| == PawnSlots
    }

    predicate Contains(p: Point)
    {
      0 <= p.x < width && 0 <= p.y < height
    }

    /** `set_width`: only the width changes. */
    function SetWidth(w: int): (r: Board)
      ensures r.GetWidth() == w
      ensures r.GetHeight() == GetHeight() && r.pawns == pawns
    {
      this.(width := w)
    }

    /** `get_width`: the number of columns; within the rows, a point is on the board exactly when its column is below it. */
    function GetWidth(): (r: int)
      ensures forall p: Point {:trigger Contains(p)} :: 0 <= p.y < height ==> (Contains(p) <==> 0 <= p.x < r)
    {
      width
    }

    /** `set_height`: only the height changes. */
    function SetHeight(h: int): (r: Board)
      ensures r.GetHeight() == h
      ensures r.GetWidth() == GetWidth() && r.pawns == pawns
    {
      this.(height := h)
    }

    /** `get_height`: the number of rows; within the columns, a point is on the board exactly when its row is below it. */
    function GetHeight(): (r: int)
      ensures forall p: Point {:trigger Contains(p)} :: 0 <= p.x < width ==> (Contains(p) <==> 0 <= p.y < r)
    {
      height
    }

    /** `set_pawn`: slot `pawn` now reads back `location`, nothing else changes. */
    function SetPawn(pawn: int, location: Point): (r: Board)
      requires WellFormed() && 0 <= pawn < PawnSlots
      ensures r.WellFormed() && r.GetPawn(pawn) == Some(location)
      ensures forall i :: 0 <= i < PawnSlots && i != pawn ==> r.GetPawn(i) == GetPawn(i)
      ensures r.width == width && r.height == height
    {
      this.(pawns := pawns[pawn := location])
    }

    /** `get_pawn`: the point in slot `pawn`, or `None` for an index outside 0..3. */
    function GetPawn(pawn: int): (r: Option<Point>)
      requires WellFormed()
      ensures r.None? <==> pawn < 0 || pawn >= PawnSlots
    {
      if pawn >= 0 && pawn < PawnSlots as int then Some(pawns[pawn]) else None
    }

    /**
     * `move_pawn`: shifts the pawn one cell and clamps each coordinate into
     * `[0, width - 1]` and `[0, height - 1]`. On a board with at least one
     * cell the pawn always ends on it; a pawn whose neighbour is on the
     * board moves there; a pawn on the board that would step off stays put.
     */
    function MovePawn(pawn: int, direction: Direction): (r: Board)
      requires WellFormed() && 0 <= pawn < PawnSlots
      ensures r.WellFormed() && r.width == width && r.height == height
      ensures forall i :: 0 <= i < PawnSlots && i != pawn ==> r.pawns[i] == pawns[i]
      ensures Contains(pawns[pawn].ShiftDirection(direction)) ==> r.pawns[pawn] == pawns[pawn].ShiftDirection(direction)
      ensures Contains(pawns[pawn]) && !Contains(pawns[pawn].ShiftDirection(direction)) ==> r.pawns[pawn] == pawns[pawn]
      ensures width >= 1 && height >= 1 ==> Contains(r.pawns[pawn])
    {
      var (x0, y0) := (pawns[pawn].x, pawns[pawn].y);
      var (x1, y1) :=
        match direction
        case Up => (x0, y0 + 1)
        case Down => (x0, y0 - 1)
        case Right => (x0 + 1, y0)
        case Left => (x0 - 1, y0);
      var x2 := Min(Max(x1, 0), width - 1);
      var y2 := Min(Max(y1, 0), height - 1);
      SetPawn(pawn, Point(x2, y2))
    }
  }

  function Max(a: int, b: int): int
  {
    if a >= b then a else b
  }

  function Min(a: int, b: int): int
  {
    if a <= b then a else b
  }

  /** `Board::create`: an empty 0x0 board with every pawn slot at (-1,-1). */
  function Create(): (r: Board)
    ensures r.WellFormed() && r.GetWidth() == 0 && r.GetHeight() == 0
    ensures forall i :: 0 <= i < PawnSlots ==> r.GetPawn(i) == Some(Point(-1, -1))
  {
    Board(0, 0, seq(PawnSlots, _ => Point(-1, -1)))
  }

  /** `create_default`: 9x9 with pawn 0 at (4,0) and pawn 1 at (4,8). */
  function CreateDefault(): (r: Board)
    ensures r.WellFormed() && r.GetWidth() == 9 && r.GetHeight() == 9
    ensures r.GetPawn(0) == Some(Point(4, 0)) && r.GetPawn(1) == Some(Point(4, 8))
  {
    Create().SetHeight(9).SetWidth(9).SetPawn(0, Point(4, 0)).SetPawn(1, Point(4, 8))
  }

  /**
   * The `test_move_pawn` and `test_move_pawn_edge` scenarios: from (5,4)
   * each direction moves one cell; from (0,0) Left and Down stay put, as do
   * Right and Up from (4,7) on a 5x8 board.
   */
  lemma MovePawnScenarios()
    ensures var b := CreateDefault().SetPawn(0, Point(5, 4));
      && b.MovePawn(0, Down).GetPawn(0) == Some(Point(5, 3))
      && b.MovePawn(0, Up).GetPawn(0) == Some(Point(5, 5))
      && b.MovePawn(0, Right).GetPawn(0) == Some(Point(6, 4))
      && b.MovePawn(0, Left).GetPawn(0) == Some(Point(4, 4))
    ensures var b := CreateDefault().SetPawn(0, Point(0, 0));
      b.MovePawn(0, Left).GetPawn(0) == Some(Point(0, 0)) && b.MovePawn(0, Down).GetPawn(0) == Some(Point(0, 0))
    ensures var b := Create().SetWidth(5).SetHeight(8).SetPawn(0, Point(4, 7));
      b.MovePawn(0, Right).GetPawn(0) == Some(Point(4, 7)) && b.MovePawn(0, Up).GetPawn(0) == Some(Point(4, 7))
  {
  }
}
