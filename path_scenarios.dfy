/**
 * The scenarios of the tests in src/path_finder.rs, proved about the
 * searches of module PathFinder on the default 9x9 board.
 */
module PathScenarios {
  import opened Points
  import opened Walls
  import GameBoard
  import CoordBoard
  import opened PathFinder

  /** The grid of `create_default`, written out. */
  const DefaultGrid := CoordBoard.Board(9, 9, [Point(4, 0), Point(4, 8), Point(-1, -1), Point(-1, -1)])

  lemma DefaultGridIsDefault()
    ensures CoordBoard.CreateDefault() == DefaultGrid
  {
    var g := CoordBoard.CreateDefault();
    assert g.pawns == DefaultGrid.pawns by {
      assert g.pawns[2] == Point(-1, -1) && g.pawns[3] == Point(-1, -1);
    }
  }

  /** The board of the `one_wall` test. */
  const OneWallBoard := GameBoard.Board(DefaultGrid, [Wall(Point(4, 4), false), Wall(Point(3, 3), true)])

  /** `one_wall` builds its board with two accepted placements. */
  lemma OneWallBoardIsBuilt()
    ensures GameBoard.CreateDefault().PlaceWall(Point(4, 4), Horizontal).PlaceWall(Point(3, 3), Vertical) == OneWallBoard
  {
    DefaultGridIsDefault();
    var b1 := GameBoard.CreateDefault().PlaceWall(Point(4, 4), Horizontal);
    assert b1.walls == [Wall(Point(4, 4), false)];
    assert b1.CanPlaceWall(Point(3, 3), Vertical) by {
      assert !Clashes(b1.walls[0], Wall(Point(3, 3), true));
    }
  }

  /** The board of the `no_path_when_blocked` test: row 2 sealed off from row 3. */
  const BlockedBoard := GameBoard.Board(DefaultGrid,
    [Wall(Point(0, 2), false), Wall(Point(2, 2), false), Wall(Point(4, 2), false),
     Wall(Point(6, 2), false), Wall(Point(7, 2), true), Wall(Point(7, 1), false)])

  /** The first three placements of `no_path_when_blocked` are accepted. */
  lemma BlockedBoardFirstHalf()
    ensures GameBoard.CreateDefault().PlaceWall(Point(0, 2), Horizontal).PlaceWall(Point(2, 2), Horizontal)
      .PlaceWall(Point(4, 2), Horizontal) == BlockedBoard.(walls := BlockedBoard.walls[..3])
  {
    DefaultGridIsDefault();
    var b1 := GameBoard.CreateDefault().PlaceWall(Point(0, 2), Horizontal);
    assert b1.walls == BlockedBoard.walls[..1];
    var b2 := b1.PlaceWall(Point(2, 2), Horizontal);
    assert b1.CanPlaceWall(Point(2, 2), Horizontal);
    assert b2.walls == BlockedBoard.walls[..2];
    assert b2.CanPlaceWall(Point(4, 2), Horizontal);
  }

  /** The last three placements of `no_path_when_blocked` are accepted. */
  lemma BlockedBoardSecondHalf()
    ensures BlockedBoard.(walls := BlockedBoard.walls[..3]).PlaceWall(Point(6, 2), Horizontal)
      .PlaceWall(Point(7, 2), Vertical).PlaceWall(Point(7, 1), Horizontal) == BlockedBoard
  {
    var b3 := BlockedBoard.(walls := BlockedBoard.walls[..3]);
    var b4 := b3.PlaceWall(Point(6, 2), Horizontal);
    assert b3.CanPlaceWall(Point(6, 2), Horizontal);
    assert b4.walls == BlockedBoard.walls[..4];
    var b5 := b4.PlaceWall(Point(7, 2), Vertical);
    assert b4.CanPlaceWall(Point(7, 2), Vertical);
    assert b5.walls == BlockedBoard.walls[..5];
    assert b5.CanPlaceWall(Point(7, 1), Horizontal);
  }

  /** The `no_walls_*` tests: without walls the distance is the Manhattan distance. */
  method NoWallsDistances() returns (d0: int, d1: int, d2: int)
    ensures d0 == 11 && d1 == 4 && d2 == 16
  {
    var b := GameBoard.CreateDefault();
    d0 := ShortestDistance(b, Point(4, 7), Point(0, 0));
    WallFreeShortest(b, Point(4, 7), Point(0, 0));
    ShortestIsUnique(b, Point(4, 7), Point(0, 0), d0, 11);
    d1 := ShortestDistance(b, Point(3, 4), Point(7, 4));
    WallFreeShortest(b, Point(3, 4), Point(7, 4));
    ShortestIsUnique(b, Point(3, 4), Point(7, 4), d1, 4);
    d2 := ShortestDistance(b, Point(0, 0), Point(8, 8));
    WallFreeShortest(b, Point(0, 0), Point(8, 8));
    ShortestIsUnique(b, Point(0, 0), Point(8, 8), d2, 16);
  }

  /**
   * The detour potential of the `one_wall` board: the Manhattan distance
   * from (4,0), plus two on the cells above the horizontal wall's columns.
   */
  function Detour(q: Point): int
  {
    Abs(q.x - 4) + Abs(q.y) + (if q.y >= 5 && (q.x == 4 || q.x == 5) then 2 else 0)
  }

  /** The only steps that would gain two on the detour potential cross the horizontal wall. */
  lemma DetourGrowsByOne(p: Point, d: Direction)
    ensures OneWallBoard.CanMoveFrom(p, d) ==> Detour(p.ShiftDirection(d)) <= Detour(p) + 1
  {
    var b := OneWallBoard;
    if d == Up && p.y == 4 && (p.x == 4 || p.x == 5) {
      assert Walls.Separates(b.walls[0], p, p.ShiftDirection(d));
    }
  }

  /** Column 3 of the `one_wall` board has no wall across it. */
  lemma ColumnThreeOpen(b: Board, y: int)
    requires b == OneWallBoard && 0 <= y < 8
    ensures b.CanMoveFrom(Point(3, y), Up)
  {
  }

  /** The top row of the `one_wall` board is open between columns 3 and 4. */
  lemma TopRowOpen(b: Board)
    requires b == OneWallBoard
    ensures b.CanMoveFrom(Point(3, 8), Right)
  {
  }

  /** On the `one_wall` board (3,y) is reached in y + 1 steps: Left, then y times Up. */
  lemma {:induction false} ColumnThreeClimb(b: Board, y: nat)
    requires b == OneWallBoard && y <= 8
    ensures Point(3, y) in Within(b, Point(4, 0), y + 1)
  {
    var from := Point(4, 0);
    if y == 0 {
      assert from in Within(b, from, 0);
      assert b.CanMoveFrom(from, Left);
      WalkStep(b, from, 0, 1, from, Left, Point(3, 0));
    } else {
      ColumnThreeClimb(b, y - 1);
      ColumnThreeOpen(b, y - 1);
      WalkStep(b, from, y, y + 1, Point(3, y - 1), Up, Point(3, y));
    }
  }

  /** From the top of column 3, one step Right reaches (4,y). */
  lemma TopStep(b: Board, y: nat, k: nat, next: nat)
    requires b == OneWallBoard && y == 8 && k == y + 1 && next == k + 1
    ensures Point(4, y) in Within(b, Point(4, 0), next)
  {
    ColumnThreeClimb(b, y);
    TopRowOpen(b);
    WalkStep(b, Point(4, 0), k, next, Point(3, y), Right, Point(4, y));
  }

  /** On the `one_wall` board (4,8) is reached in ten steps: Left, eight times Up, Right. */
  lemma OneWallReach(b: Board)
    requires b == OneWallBoard
    ensures Point(4, 8) in Within(b, Point(4, 0), 10)
  {
    TopStep(b, 8, 9, 10);
  }

  /** On the `one_wall` board no allowed step gains more than one on the detour potential. */
  lemma OneWallDetour(b: Board)
    requires b == OneWallBoard
    ensures forall p, d :: b.CanMoveFrom(p, d) ==> Detour(p.ShiftDirection(d)) <= Detour(p) + 1
  {
    forall p, d | b.CanMoveFrom(p, d)
      ensures Detour(p.ShiftDirection(d)) <= Detour(p) + 1
    {
      DetourGrowsByOne(p, d);
    }
  }

  /** The `one_wall` test: the walls force a detour of two steps. */
  lemma OneWallShortest(b: Board)
    requires b == OneWallBoard
    ensures IsShortest(b, Point(4, 0), Point(4, 8), 10)
  {
    OneWallReach(b);
    OneWallDetour(b);
    forall k: nat | k < 10
      ensures Point(4, 8) !in Within(b, Point(4, 0), k)
    {
      PotentialBound(b, Point(4, 0), Detour, k);
    }
  }

  method OneWallDistance() returns (d: int)
    ensures d == 10
  {
    var b := GameBoard.CreateDefault().PlaceWall(Point(4, 4), Horizontal).PlaceWall(Point(3, 3), Vertical);
    OneWallBoardIsBuilt();
    d := ShortestDistance(b, Point(4, 0), Point(4, 8));
    OneWallShortest(b);
    ShortestIsUnique(b, Point(4, 0), Point(4, 8), d, 10);
  }

  /** A cell of the default board in the last row, reached by one step from the row below it. */
  lemma WallFreeTarget(from: Point, last: Point, d: Direction, target: Point -> bool)
    requires GameBoard.CreateDefault().Contains(from) && GameBoard.CreateDefault().Contains(last)
    requires GameBoard.CreateDefault().CanMoveFrom(last, d) && target(last.ShiftDirection(d))
    ensures ReachesTarget(GameBoard.CreateDefault(), from, target)
  {
    var b := GameBoard.CreateDefault();
    WallFreeReach(b, from, last);
    StepMember(b, Within(b, from, DistanceIfNoWalls(from, last)), last, d);
  }

  /** The sealed rows 0 to 2 of the `no_path_when_blocked` board, without the cut-off corner (8,2). */
  predicate Sealed(c: Point)
  {
    0 <= c.x <= 8 && 0 <= c.y <= 2 && c != Point(8, 2)
  }

  /** Every step out of the sealed rows is cut by one of the six walls. */
  lemma SealedIsClosed(c: Point, d: Direction)
    requires Sealed(c)
    ensures BlockedBoard.CanMoveFrom(c, d) ==> Sealed(c.ShiftDirection(d))
  {
    var b := BlockedBoard;
    var q := c.ShiftDirection(d);
    if d == Up && c.y == 2 {
      assert Walls.Separates(b.walls[c.x / 2], c, q);
    } else if d == Up && c == Point(8, 1) {
      assert Walls.Separates(b.walls[5], c, q);
    } else if d == Right && c == Point(7, 2) {
      assert Walls.Separates(b.walls[4], c, q);
    }
  }

  /** The `is_path_*` and `no_path_when_blocked` tests. */
  method IsPathScenarios() returns (up: bool, down: bool, blocked: bool)
    ensures up && down && !blocked
  {
    up := IsPath(GameBoard.CreateDefault(), Point(0, 0), (q: Point) => q.y == 8);
    WallFreeTarget(Point(0, 0), Point(0, 7), Up, (q: Point) => q.y == 8);
    down := IsPath(GameBoard.CreateDefault(), Point(7, 7), (q: Point) => q.y == 0);
    WallFreeTarget(Point(7, 7), Point(7, 1), Down, (q: Point) => q.y == 0);
    var b := GameBoard.CreateDefault().PlaceWall(Point(0, 2), Horizontal).PlaceWall(Point(2, 2), Horizontal)
      .PlaceWall(Point(4, 2), Horizontal).PlaceWall(Point(6, 2), Horizontal)
      .PlaceWall(Point(7, 2), Vertical).PlaceWall(Point(7, 1), Horizontal);
    BlockedBoardFirstHalf();
    BlockedBoardSecondHalf();
    var target := (q: Point) => q.y == 7;
    blocked := IsPath(b, Point(0, 0), target);
    forall c, d | Sealed(c) && b.CanMoveFrom(c, d)
      ensures Sealed(c.ShiftDirection(d))
    {
      SealedIsClosed(c, d);
    }
    forall k: nat, q | q in Step(b, Within(b, Point(0, 0), k))
      ensures !target(q)
    {
      ClosedRegion(b, Point(0, 0), Sealed, k + 1);
    }
  }
}
