/**
 * Walls (src/board/wall.rs) and the geometry that decides which grid edges
 * a wall blocks (the candidate scheme of `Board::can_move`,
 * src/board/mod.rs).
 *
 * A wall stands at a grid corner `location` (the corner above and to the
 * right of cell `location`) and is two cells long. A horizontal wall lies
 * between rows `y` and `y + 1` under columns `x` and `x + 1`; a vertical
 * wall lies between columns `x` and `x + 1` beside rows `y` and `y + 1`.
 */
module Walls {
  import opened Points

  /** The orientation used by the tuple-point board API; `Vertical` is `vertical == true`. */
  datatype Orientation = Vertical | Horizontal

  function IsVertical(o: Orientation): bool
  {
    o == Vertical
  }

  /** A placed wall: only a location and a vertical flag. */
  datatype Wall = Wall(location: Point, vertical: bool)

  /** The sentinel that fills the unused slots of the wall array. */
  function DefaultWall(): (r: Wall)
    ensures r.location == Point(-1, -1) && !r.vertical
  {
    Wall(Create(-1, -1), false)
  }

  /**
   * Reference geometry: wall `w` stands on the edge between the adjacent
   * cells `a` and `b` (in either order).
   */
  ghost predicate Separates(w: Wall, a: Point, b: Point)
  {
    var l := w.location;
    if w.vertical then
      a.y == b.y && (a.y == l.y || a.y == l.y + 1) &&
      ((a.x == l.x && b.x == l.x + 1) || (b.x == l.x && a.x == l.x + 1))
    else
      a.x == b.x && (a.x == l.x || a.x == l.x + 1) &&
      ((a.y == l.y && b.y == l.y + 1) || (b.y == l.y && a.y == l.y + 1))
  }

  /**
   * The two wall locations, and the orientation, that would block a step
   * from `p` in `d`: Up (x,y),(x-1,y) horizontal; Left (x-1,y),(x-1,y-1)
   * vertical; Down (x-1,y-1),(x,y-1) horizontal; Right (x,y),(x,y-1) vertical.
   * These are exactly the walls standing on the edge the step crosses.
   */
  function BlockingCandidates(p: Point, d: Direction): (r: (Point, Point, bool))
    ensures forall w :: Separates(w, p, p.ShiftDirection(d)) <==> w.vertical == r.2 && (w.location == r.0 || w.location == r.1)
  {
    match d
    case Up => (p, p.Shift(-1, 0), false)
    case Left => (p.Shift(-1, 0), p.Shift(-1, -1), true)
    case Down => (p.Shift(-1, -1), p.Shift(0, -1), false)
    case Right => (p, p.Shift(0, -1), true)
  }

  /**
   * The wall scan of `can_move`: no wall of the candidate orientation sits
   * at either candidate location. Equivalently, no wall stands on the edge
   * between `p` and its neighbour in `d`.
   */
  function EdgeOpen(walls: seq<Wall>, p: Point, d: Direction): (r: bool)
    ensures r <==> forall i :: 0 <= i < |walls| ==> !Separates(walls[i], p, p.ShiftDirection(d))
  {
    var (p1, p2, vertical) := BlockingCandidates(p, d);
    forall i :: 0 <= i < |walls| ==> walls[i].vertical != vertical || (walls[i].location != p1 && walls[i].location != p2)
  }

  /** Blocking is symmetric: an edge is open from both of its cells or from neither. */
  lemma {:induction false} EdgeOpenSymmetric(walls: seq<Wall>, p: Point, d: Direction)
    ensures EdgeOpen(walls, p, d) == EdgeOpen(walls, p.ShiftDirection(d), Opposite(d))
  {
    var q := p.ShiftDirection(d);
    ShiftDirectionUndone(p, d);
    assert forall w :: Separates(w, p, q) == Separates(w, q, p);
  }

  /**
   * Two walls clash (cannot both stand) when they share a location,
   * whatever their orientations (they would cross), or when they have the
   * same orientation and are offset by one along their length (they would
   * overlap on one edge).
   */
  function Clashes(a: Wall, b: Wall): (r: bool)
    ensures a.location == b.location ==> r
  {
    var la, lb := a.location, b.location;
    la == lb ||
    (a.vertical == b.vertical &&
      if a.vertical then la.x == lb.x && (la.y == lb.y + 1 || lb.y == la.y + 1)
      else la.y == lb.y && (la.x == lb.x + 1 || lb.x == la.x + 1))
  }

  lemma ClashesSymmetric(a: Wall, b: Wall)
    ensures Clashes(a, b) == Clashes(b, a)
  {
  }

  /** Two walls on one edge: both stand between the same pair of cells. */
  ghost predicate ShareEdge(a: Wall, b: Wall)
  {
    exists p: Point, d: Direction :: Separates(a, p, p.ShiftDirection(d)) && Separates(b, p, p.ShiftDirection(d))
  }

  /**
   * At distinct locations, two walls clash exactly when they block a common
   * edge.
   */
  lemma {:induction false} ClashesIffShareEdge(a: Wall, b: Wall)
    requires a.location != b.location
    ensures Clashes(a, b) <==> ShareEdge(a, b)
  {
    var la, lb := a.location, b.location;
    if Clashes(a, b) {
      var p, d;
      if a.vertical {
        p, d := Point(la.x, if lb.y == la.y + 1 then lb.y else la.y), Right;
      } else {
        p, d := Point(if lb.x == la.x + 1 then lb.x else la.x, la.y), Up;
      }
      assert Separates(a, p, p.ShiftDirection(d)) && Separates(b, p, p.ShiftDirection(d));
    }
  }

  /** A wall clashes with none of `walls` exactly when it is apart from all of them. */
  lemma NoClashMeansApart(walls: seq<Wall>, w: Wall)
    ensures (forall i :: 0 <= i < |walls| ==> !Clashes(walls[i], w)) <==>
      forall i :: 0 <= i < |walls| ==> walls[i].location != w.location && !ShareEdge(walls[i], w)
  {
    forall i | 0 <= i < |walls| && walls[i].location != w.location
      ensures Clashes(walls[i], w) <==> ShareEdge(walls[i], w)
    {
      ClashesIffShareEdge(walls[i], w);
    }
  }

  /**
   * The sentinel never stands between two on-board cells: it only touches
   * cells with a negative coordinate.
   */
  lemma DefaultWallBlocksNoBoardEdge(p: Point, q: Point)
    requires 0 <= p.x && 0 <= p.y && 0 <= q.x && 0 <= q.y
    ensures !Separates(DefaultWall(), p, q)
  {
  }
}
