/** A pawn and its single-step moves (old/game/board/pawn.rs). */
module Pawns {
  import opened Points

  datatype Pawn = Pawn(location: Point) {

    /** A copy of the pawn moved one cell in `direction`. */
    function MoveTo(direction: Direction): (r: Pawn)
      ensures direction == Up ==> r.location == Point(location.x, location.y + 1)
      ensures direction == Right ==> r.location == Point(location.x + 1, location.y)
      ensures direction == Down ==> r.location == Point(location.x, location.y - 1)
      ensures direction == Left ==> r.location == Point(location.x - 1, location.y)
    {
      this.(location :=
        match direction
        case Up => location.Shift(0, 1)
        case Right => location.Shift(1, 0)
        case Down => location.Shift(0, -1)
        case Left => location.Shift(-1, 0))
    }

    /** A copy of the pawn standing at `(x, y)`. */
    function SetLocation(x: int, y: int): (r: Pawn)
      ensures r.location == Points.Create(x, y)
    {
      this.(location := Points.Create(x, y))
    }
  }

  /** A pawn at the origin. */
  function Create(): (r: Pawn)
    ensures r.location == Point(0, 0)
  {
    Pawn(Origin())
  }

  /** A pawn step and the point shift the boards use agree. */
  lemma MoveToIsShiftDirection(p: Pawn, d: Direction)
    ensures p.MoveTo(d).location == p.location.ShiftDirection(d)
  {
  }

  /** Each move is undone by the move in the opposite direction. */
  lemma {:induction false} MoveToUndone(p: Pawn, d: Direction)
    ensures p.MoveTo(d).MoveTo(Opposite(d)) == p
  {
    MoveToIsShiftDirection(p, d);
    MoveToIsShiftDirection(p.MoveTo(d), Opposite(d));
  }
}
