/**
 * The board API that src/game.rs and src/path_finder.rs call
 * (`can_move_from`, `pawn_can_move`, `can_place_wall`, `has_wall`,
 * `is_pawn`, `place_wall(Point, Orientation)`). That revision of the board
 * is not part of this model's source files; it is supplied here as the
 * coordinate board of src/board.rs plus a growing list of placed walls,
 * with the step geometry of src/board/mod.rs.
 */
module GameBoard {
  import opened Points
  import opened Walls
  import opened Options
  import CoordBoard

  datatype Board = Board(grid: CoordBoard.Board, walls: seq<Wall>) {

    predicate WellFormed()
    {
      grid.WellFormed()
    }

    predicate Contains(p: Point)
    {
      grid.Contains(p)
    }

    function GetWidth(): int
    {
      grid.GetWidth()
    }

    function GetHeight(): int
    {
      grid.GetHeight()
    }

    function GetPawn(pawn: int): Option<Point>
      requires WellFormed()
    {
      grid.GetPawn(pawn)
    }

    /** The clamped move of src/board.rs; walls are not consulted. */
    function MovePawn(pawn: int, direction: Direction): (r: Board)
      requires WellFormed() && 0 <= pawn < CoordBoard.PawnSlots
      ensures r.WellFormed() && r.walls == walls
    {
      this.(grid := grid.MovePawn(pawn, direction))
    }

    /** `is_pawn`: some pawn slot holds `location`. */
    predicate IsPawn(location: Point)
    {
      exists i :: 0 <= i < |grid.pawns| && grid.pawns[i] == location
    }

    /** `has_wall`: a wall of orientation `o` stands at `location`. */
    predicate HasWall(location: Point, o: Orientation)
    {
      exists i :: 0 <= i < |walls| && walls[i] == Wall(location, IsVertical(o))
    }

    /**
     * `can_move_from`: the neighbour of `p` in `d` is on the board and no
     * placed wall stands on the edge between them.
     */
    predicate CanMoveFrom(p: Point, d: Direction)
      ensures CanMoveFrom(p, d) <==>
        Contains(p.ShiftDirection(d)) && forall i :: 0 <= i < |walls| ==> !Separates(walls[i], p, p.ShiftDirection(d))
    {
      Contains(p.ShiftDirection(d)) && EdgeOpen(walls, p, d)
    }

    /** `pawn_can_move`: `can_move_from` at the pawn's point. */
    predicate PawnCanMove(pawn: int, d: Direction)
      requires WellFormed() && 0 <= pawn < CoordBoard.PawnSlots
    {
      CanMoveFrom(grid.pawns[pawn], d)
    }

    /** `can_place_wall`: the new wall clashes with no placed wall. */
    predicate CanPlaceWall(location: Point, o: Orientation)
    {
      forall i :: 0 <= i < |walls| ==> !Clashes(walls[i], Wall(location, IsVertical(o)))
    }

    /**
     * `place_wall`: appends the wall when it clashes with none, otherwise
     * returns the board unchanged. Placed walls never clash with each other.
     */
    function PlaceWall(location: Point, o: Orientation): (r: Board)
      ensures CanPlaceWall(location, o) ==> r.walls == walls + [Wall(location, IsVertical(o))] && r.HasWall(location, o)
      ensures !CanPlaceWall(location, o) ==> r == this
      ensures r.grid == grid
      ensures WallsApart() ==> r.WallsApart()
    {
      if CanPlaceWall(location, o) then
        var r := this.(walls := walls + [Wall(location, IsVertical(o))]);
        assert r.walls[|walls|] == Wall(location, IsVertical(o));
        ClashesSymmetricForAll(walls, Wall(location, IsVertical(o)));
        r
      else
        this
    }

    /** No two placed walls clash. */
    ghost predicate WallsApart()
    {
      forall i, j :: 0 <= i < j < |walls| ==> !Clashes(walls[i], walls[j])
    }
  }

  lemma ClashesSymmetricForAll(walls: seq<Wall>, w: Wall)
    ensures forall i :: 0 <= i < |walls| ==> Clashes(walls[i], w) == Clashes(w, walls[i])
  {
    forall i | 0 <= i < |walls| {
      ClashesSymmetric(walls[i], w);
    }
  }

  /** `create_default`: the default coordinate board with no walls. */
  function CreateDefault(): (r: Board)
    ensures r.WellFormed() && r.walls == [] && r.grid == CoordBoard.CreateDefault()
  {
    Board(CoordBoard.CreateDefault(), [])
  }
}
