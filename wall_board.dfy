/**
 * The wall-aware board of src/board/mod.rs: a 9x9 grid, two pawns, a fixed
 * array of twenty wall slots filled in order, a per-player count of walls
 * used and the index of the player to move.
 *
 * The source's `Board` is a `Copy` value whose transitions take `mut self`
 * by value and return the updated copy, so it is a datatype here and the
 * transitions are methods that update a local copy field by field.
 */
module WallBoard {
  import opened Points
  import opened Walls
  import opened Pawns

  const UserStartingWalls: nat := 10
  const MaxWalls: nat := UserStartingWalls * 2

  datatype Board = Board(
    width: int,
    height: int,
    turn: nat,
    pawns: seq<Pawn>,
    walls: seq<Wall>,
    wallsUsed: seq<nat>)
  {
    /** The shape the source's array types fix: two pawns, twenty wall slots, two counters, a turn that indexes them. */
    ghost predicate WellFormed()
    {
      |pawns| == 2 && |walls| == MaxWalls && |wallsUsed| == 2 && turn < 2
    }

    /**
     * The board invariant: the counters say how many leading slots hold
     * placed walls, the other slots hold the sentinel, no placed wall stands
     * at the sentinel's location (while a sentinel is left, such a wall
     * clashes with it), and no two placed walls clash.
     */
    ghost predicate Valid()
    {
      && WellFormed()
      && wallsUsed[0] + wallsUsed[1] <= MaxWalls
      && (forall j :: wallsUsed[0] + wallsUsed[1] <= j < MaxWalls ==> walls[j] == DefaultWall())
      && (forall i :: 0 <= i < wallsUsed[0] + wallsUsed[1] ==> walls[i].location != DefaultWall().location)
      && (forall i, j :: 0 <= i < j < wallsUsed[0] + wallsUsed[1] ==> !Clashes(walls[i], walls[j]))
    }

    predicate Contains(p: Point)
    {
      0 <= p.x < width && 0 <= p.y < height
    }

    /**
     * `can_move`: the neighbour of `point` in `direction` is on the board
     * and no wall in any slot stands on the edge between them.
     */
    function CanMove(point: Point, direction: Direction): (r: bool)
      ensures !Contains(point.ShiftDirection(direction)) ==> !r
      ensures r <==> Contains(point.ShiftDirection(direction)) &&
                     forall i :: 0 <= i < |walls| ==> !Separates(walls[i], point, point.ShiftDirection(direction))
    {
      var moveTo := point.ShiftDirection(direction);
      if moveTo.x < 0 || moveTo.x >= width || moveTo.y < 0 || moveTo.y >= height then false
      else EdgeOpen(walls, point, direction)
    }

    /** `is_pawn`: some pawn stands on `point`; on a well-formed board, one of the two. */
    predicate IsPawn(point: Point)
      ensures WellFormed() ==> (IsPawn(point) <==> pawns[0].location == point || pawns[1].location == point)
    {
      exists i :: 0 <= i < |pawns| && pawns[i].location == point
    }

    /**
     * `next_wall`: the first unused wall slot. On a valid board every slot
     * before it holds a placed wall and every slot from it on the sentinel.
     */
    function NextWall(): (r: nat)
      requires |wallsUsed| == 2
      ensures Valid() ==> r <= MaxWalls && forall j :: r <= j < MaxWalls ==> walls[j] == DefaultWall()
      ensures Valid() ==> forall j :: 0 <= j < r ==> walls[j] != DefaultWall()
    {
      wallsUsed[0] + wallsUsed[1]
    }

    /**
     * `valid_wall_location`: the wall clashes with none of the twenty slots,
     * sentinels included: no slot holds a wall at its location or one that
     * would block an edge in common with it. A valid location holds no wall
     * at all.
     */
    predicate ValidWallLocation(wallToCheck: Wall)
      ensures ValidWallLocation(wallToCheck) <==>
        forall i :: 0 <= i < |walls| ==> walls[i].location != wallToCheck.location && !ShareEdge(walls[i], wallToCheck)
      ensures ValidWallLocation(wallToCheck) ==> !WallHere(wallToCheck.location)
    {
      NoClashMeansApart(walls, wallToCheck);
      forall i :: 0 <= i < |walls| ==> !Clashes(walls[i], wallToCheck)
    }

    /**
     * `wall_here`: some slot holds a wall at `here`, of either orientation.
     * Away from the sentinel's location that is a placed wall.
     */
    predicate WallHere(here: Point)
      ensures Valid() && here != DefaultWall().location ==>
        (WallHere(here) <==> exists i :: 0 <= i < NextWall() && walls[i].location == here)
    {
      exists i :: 0 <= i < |walls| && walls[i].location == here
    }

    /** The walls in the slots, sentinels included, as a set. */
    function WallSet(): set<Wall>
    {
      set w | w in walls
    }

    /**
     * `eq` of the source's `PartialEq`: both pawns and the height agree and
     * every wall in either board's slots is in the other's. The width, the
     * turn and the counters are not compared (the source's remaining test,
     * `self.pawns != self.pawns`, is never true).
     */
    function Eq(other: Board): (r: bool)
      requires |pawns| == 2 && |other.pawns| == 2
      ensures r <==> pawns == other.pawns && height == other.height && WallSet() == other.WallSet()
    {
      if pawns[0] != other.pawns[0] || pawns[1] != other.pawns[1] || height != other.height then false
      else
        WallSetsAgree(walls, other.walls);
        (forall i :: 0 <= i < |walls| ==> walls[i] in other.walls) &&
        (forall i :: 0 <= i < |other.walls| ==> other.walls[i] in walls)
    }

    /**
     * `walls_left`, which despite its name reports how many walls the
     * player has USED: the two values add up to the number of filled slots
     * and a successful placement raises the mover's value by one.
     */
    function WallsLeft(player: nat): (r: int)
      requires |wallsUsed| == 2 && player < 2
      ensures Valid() ==> 0 <= r <= NextWall() <= MaxWalls
      ensures r + wallsUsed[1 - player] == NextWall()
    {
      wallsUsed[player] as int
    }

    /** `is_won`: pawn 0 is on row 8 or pawn 1 is on row 0; never with the pawns where a game starts them. */
    predicate IsWon()
      requires |pawns| == 2
      ensures IsWon() ==> pawns != [Pawns.Create().SetLocation(4, 0), Pawns.Create().SetLocation(4, 8)]
    {
      pawns[0].location.y == 8 || pawns[1].location.y == 0
    }

    /** `inc_turn`: hands the move to the other player. */
    method IncTurn() returns (r: Board)
      requires |pawns| > 0
      ensures r.turn == (turn + 1) % |pawns| && r.turn < |pawns|
      ensures r == this.(turn := r.turn)
    {
      r := this;
      r := r.(turn := (r.turn + 1) % |r.pawns|);
    }

    /**
     * `move_pawn`: the pawn to move steps to its neighbour in `direction`
     * when `can_move` allows it, and on again over a pawn standing there;
     * the turn passes. An illegal move leaves the board unchanged.
     */
    method MovePawn(direction: Direction) returns (r: Board)
      ensures turn >= |pawns| || !CanMove(pawns[turn].location, direction) ==> r == this
      ensures turn < |pawns| && CanMove(pawns[turn].location, direction) ==>
        var next := pawns[turn].location.ShiftDirection(direction);
        && |r.pawns| == |pawns|
        && r.pawns[turn].location == (if IsPawn(next) then next.ShiftDirection(direction) else next)
        && (forall i :: 0 <= i < |pawns| && i != turn ==> r.pawns[i] == pawns[i])
        && r.turn == (turn + 1) % |pawns|
        && r.width == width && r.height == height && r.walls == walls && r.wallsUsed == wallsUsed
      ensures turn < |pawns| && CanMove(pawns[turn].location, direction) && !IsPawn(pawns[turn].location.ShiftDirection(direction)) ==>
        Contains(r.pawns[turn].location)
      ensures Valid() ==> r.Valid()
    {
      r := this;
      if |r.pawns| <= r.turn {
        return;
      }
      if !r.CanMove(r.pawns[r.turn].location, direction) {
        return;
      }
      if r.IsPawn(r.pawns[r.turn].location.ShiftDirection(direction)) {
        r := r.(pawns := r.pawns[r.turn := r.pawns[r.turn].MoveTo(direction)]);
      }
      r := r.(pawns := r.pawns[r.turn := r.pawns[r.turn].MoveTo(direction)]);
      r := r.IncTurn();
    }

    /**
     * `place_wall`: when a slot is free and the new wall clashes with no
     * slot, it fills the next slot, the mover's counter rises by one and the
     * turn passes; otherwise the board is unchanged. The invariant (placed
     * walls never clash, at most twenty) is kept.
     */
    method PlaceWall(point: Point, vertical: bool) returns (r: Board)
      requires WellFormed()
      ensures var placed := NextWall() < MaxWalls && ValidWallLocation(Wall(point, vertical));
        && (!placed ==> r == this)
        && (placed ==>
              && r.walls == walls[NextWall() := Wall(point, vertical)]
              && r.wallsUsed == wallsUsed[turn := wallsUsed[turn] + 1]
              && r.turn == (turn + 1) % 2
              && r.pawns == pawns && r.width == width && r.height == height
              && r.NextWall() == NextWall() + 1 <= MaxWalls
              && r.WallsLeft(turn) == WallsLeft(turn) + 1)
      ensures r.WellFormed()
      ensures Valid() ==> r.Valid()
    {
      var newWall := Wall(point, vertical);
      r := this;
      if r.NextWall() < MaxWalls && r.ValidWallLocation(newWall) {
        r := r.(walls := r.walls[r.NextWall() := newWall]);
        r := r.(wallsUsed := r.wallsUsed[r.turn := r.wallsUsed[r.turn] + 1]);
        r := r.IncTurn();
        if Valid() {
          PlacedWallsStillApart(this, r, newWall);
          assert walls[MaxWalls - 1] == DefaultWall() && !Clashes(walls[MaxWalls - 1], newWall);
        }
      }
    }
  }

  /** Two slot arrays hold the same set of walls exactly when each one's walls are all in the other. */
  lemma WallSetsAgree(a: seq<Wall>, b: seq<Wall>)
    ensures ((forall i :: 0 <= i < |a| ==> a[i] in b) && (forall i :: 0 <= i < |b| ==> b[i] in a)) <==>
            (set w | w in a) == (set w | w in b)
  {
    var sa, sb := set w | w in a, set w | w in b;
    if (forall i :: 0 <= i < |a| ==> a[i] in b) && (forall i :: 0 <= i < |b| ==> b[i] in a) {
      forall w | w in a ensures w in b {
        var i :| 0 <= i < |a| && a[i] == w;
      }
      forall w | w in b ensures w in a {
        var i :| 0 <= i < |b| && b[i] == w;
      }
      assert sa == sb;
    } else if sa == sb {
      forall i | 0 <= i < |a| ensures a[i] in b {
        assert a[i] in sa;
      }
      forall i | 0 <= i < |b| ensures b[i] in a {
        assert b[i] in sb;
      }
    }
  }

  /** The new slot's wall clashes with no earlier slot, so the placed walls stay pairwise apart. */
  lemma PlacedWallsStillApart(b: Board, r: Board, w: Wall)
    requires b.Valid() && b.NextWall() < MaxWalls && b.ValidWallLocation(w)
    requires r.WellFormed() && r.walls == b.walls[b.NextWall() := w] && r.NextWall() == b.NextWall() + 1
    ensures forall i, j :: 0 <= i < j < r.NextWall() ==> !Clashes(r.walls[i], r.walls[j])
  {
    forall i, j | 0 <= i < j < r.NextWall()
      ensures !Clashes(r.walls[i], r.walls[j])
    {
      if j == b.NextWall() {
        ClashesSymmetric(b.walls[i], w);
      }
    }
  }

  /** `default_board`: 9x9, pawns at (4,0) and (4,8), every slot the sentinel, player 0 to move. */
  function DefaultBoard(): (r: Board)
    ensures r.Valid() && r.NextWall() == 0 && r.turn == 0
    ensures r.width == 9 && r.height == 9
    ensures r.pawns[0].location == Point(4, 0) && r.pawns[1].location == Point(4, 8)
    ensures !r.IsWon()
  {
    Board(
      width := 9,
      height := 9,
      turn := 0,
      pawns := [Pawns.Create().SetLocation(4, 0), Pawns.Create().SetLocation(4, 8)],
      walls := seq(MaxWalls, _ => DefaultWall()),
      wallsUsed := [0, 0])
  }

  /** Blocking is symmetric between the two cells of an edge on the board. */
  lemma {:induction false} CanMoveSymmetric(b: Board, p: Point, d: Direction)
    requires b.Contains(p) && b.Contains(p.ShiftDirection(d))
    ensures b.CanMove(p, d) == b.CanMove(p.ShiftDirection(d), Opposite(d))
  {
    ShiftDirectionUndone(p, d);
    EdgeOpenSymmetric(b.walls, p, d);
  }

  /** The sentinel in unused slots never blocks a step between two cells of the board. */
  lemma {:induction false} SentinelsNeverBlock(b: Board, p: Point, d: Direction)
    requires b.Valid() && b.Contains(p)
    ensures b.CanMove(p, d) == b.(walls := b.walls[..b.NextWall()]).CanMove(p, d)
  {
    var q := p.ShiftDirection(d);
    var placed := b.walls[..b.NextWall()];
    if b.Contains(q) {
      forall j | b.NextWall() <= j < |b.walls|
        ensures !Separates(b.walls[j], p, q)
      {
        assert b.walls[j] == DefaultWall();
        DefaultWallBlocksNoBoardEdge(p, q);
      }
      assert (forall i :: 0 <= i < |b.walls| ==> !Separates(b.walls[i], p, q)) <==>
             (forall i :: 0 <= i < |placed| ==> !Separates(placed[i], p, q));
    }
  }

  /**
   * A board is won exactly when some pawn stands on the row opposite the
   * row it starts on in the default board.
   */
  lemma IsWonMeansOppositeRow(b: Board)
    requires |b.pawns| == 2
    ensures b.IsWon() <==> exists i :: 0 <= i < 2 && b.pawns[i].location.y == 8 - DefaultBoard().pawns[i].location.y
  {
    assert b.IsWon() ==> b.pawns[0].location.y == 8 - DefaultBoard().pawns[0].location.y || b.pawns[1].location.y == 8 - DefaultBoard().pawns[1].location.y;
  }

  /**
   * The `winning_state` scenario: with pawn 0 moved to (3,8) the default
   * board is won; with it at (0,0) it is not, until pawn 1 reaches row 0.
   */
  lemma WinningState()
    ensures !DefaultBoard().IsWon()
    ensures DefaultBoard().(pawns := DefaultBoard().pawns[0 := Pawn(Point(3, 8))]).IsWon()
    ensures !DefaultBoard().(pawns := DefaultBoard().pawns[0 := Pawn(Point(0, 0))]).IsWon()
    ensures DefaultBoard().(pawns := [Pawn(Point(0, 0)), Pawn(Point(0, 0))]).IsWon()
  {
  }

  /**
   * The `wall_cant_be_placed_on_walls` scenario: a vertical wall at (4,4)
   * changes the default board, even under the source's `eq`, because that
   * wall is now in a slot; a horizontal wall at the same place is then
   * refused, leaving the board exactly as it was.
   */
  method WallCantBePlacedOnWalls() returns (board: Board, board2: Board)
    ensures Wall(Point(4, 4), true) in board.walls && Wall(Point(4, 4), true) !in DefaultBoard().walls
    ensures |board.pawns| == 2 && !board.Eq(DefaultBoard()) && board != DefaultBoard()
    ensures board2 == board && board2.Eq(board)
  {
    board := DefaultBoard();
    assert board.ValidWallLocation(Wall(Point(4, 4), true));
    board := board.PlaceWall(Point(4, 4), true);
    assert board.walls[0] == Wall(Point(4, 4), true);
    assert forall j :: 0 <= j < MaxWalls ==> DefaultBoard().walls[j] == DefaultWall();
    assert Wall(Point(4, 4), true) in board.WallSet();
    board2 := board.PlaceWall(Point(4, 4), false);
    assert !board.ValidWallLocation(Wall(Point(4, 4), false)) by {
      assert Clashes(board.walls[0], Wall(Point(4, 4), false));
    }
  }
}
