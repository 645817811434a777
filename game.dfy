/**
 * The two-player turn engine of src/game.rs: a `Quoridor` object holding
 * the board, whose turn it is, each player's remaining walls and the list
 * of turns played, with the text form of that list.
 */
module Game {
  import opened Points
  import opened Walls
  import opened Options
  import opened Text
  import GameBoard
  import CoordBoard

  /** What a player does on a turn. */
  datatype Turn = PlaceWall(location: Point, orientation: Orientation) | MovePawn(direction: Direction)

  /** The walls each player starts with. */
  const StartingWalls: int := 10

  /** The `{:?}` text of a direction. */
  function DirectionName(d: Direction): string
  {
    match d
    case Up => "Up"
    case Down => "Down"
    case Left => "Left"
    case Right => "Right"
  }

  function DirectionNamed(s: string): (r: Option<Direction>)
    ensures forall d :: r == Some(d) <==> s == DirectionName(d)
  {
    if s == "Up" then Some(Up)
    else if s == "Down" then Some(Down)
    else if s == "Left" then Some(Left)
    else if s == "Right" then Some(Right)
    else None
  }

  /** The `{:?}` text of an orientation. */
  function OrientationName(o: Orientation): string
  {
    match o
    case Vertical => "Vertical"
    case Horizontal => "Horizontal"
  }

  function OrientationNamed(s: string): (r: Option<Orientation>)
    ensures forall o :: r == Some(o) <==> s == OrientationName(o)
  {
    if s == "Vertical" then Some(Vertical)
    else if s == "Horizontal" then Some(Horizontal)
    else None
  }

  /** Text without a line break. */
  predicate OneLine(s: string)
  {
    forall k :: 0 <= k < |s| ==> s[k] != '\n'
  }

  lemma OneLineConcat(a: string, b: string)
    requires OneLine(a) && OneLine(b)
    ensures OneLine(a + b)
  {
    assert forall k :: |a| <= k < |a + b| ==> (a + b)[k] == b[k - |a|];
  }

  /** The fields of a wall turn: `x,y-Orientation`. */
  function WallText(p: Point, o: Orientation): (s: string)
    ensures forall k :: 0 <= k < |s| ==> s[k] != '\n'
  {
    var xs, ys := IntToString(p.x), IntToString(p.y);
    assert OneLine(xs) && OneLine(ys) && OneLine(",") && OneLine("-") && OneLine(OrientationName(o));
    OneLineConcat(xs, ",");
    OneLineConcat(xs + ",", ys);
    OneLineConcat(xs + "," + ys, "-");
    OneLineConcat(xs + "," + ys + "-", OrientationName(o));
    xs + "," + ys + "-" + OrientationName(o)
  }

  /** One turn as `history_to_str` writes it, without the line break. */
  function TurnText(t: Turn): (s: string)
    ensures forall k :: 0 <= k < |s| ==> s[k] != '\n'
  {
    match t
    case MovePawn(d) => "M-" + DirectionName(d)
    case PlaceWall(p, o) => "P-" + WallText(p, o)
  }

  function TurnLine(t: Turn): string
  {
    TurnText(t) + "\n"
  }

  /** The text of a whole history: one line per turn, in order. */
  function HistoryText(history: seq<Turn>): string
  {
    if history == [] then "" else TurnLine(history[0]) + HistoryText(history[1..])
  }

  lemma {:induction false} HistoryTextAppend(history: seq<Turn>, t: Turn)
    ensures HistoryText(history + [t]) == HistoryText(history) + TurnLine(t)
  {
    if history != [] {
      var h := history + [t];
      assert h[0] == history[0] && h[1..] == history[1..] + [t];
      HistoryTextAppend(history[1..], t);
      assert HistoryText(h) == TurnLine(h[0]) + HistoryText(h[1..]);
    } else {
      assert HistoryText([t]) == TurnLine(t) + HistoryText([]);
    }
  }

  /** The text of the turns from `i` on: the line of turn `i`, then the text of the rest. */
  lemma HistoryTextSuffix(history: seq<Turn>, i: nat)
    requires i < |history|
    ensures HistoryText(history[i..]) == TurnLine(history[i]) + HistoryText(history[i + 1..])
  {
    assert history[i..][1..] == history[i + 1..];
  }

  /** Reads the fields of a wall turn back, or `None`. */
  function ParseWall(s: string): Option<Turn>
  {
    var comma := FindFrom(s, ',', 0);
    if comma == |s| || comma + 1 == |s| then None
    else
      var after := s[comma + 1..];
      var dash := FindFrom(after, '-', 1);
      if dash == |after| then None
      else
        match (ParseInt(s[..comma]), ParseInt(after[..dash]), OrientationNamed(after[dash + 1..]))
        case (Some(x), Some(y), Some(o)) => Some(PlaceWall(Point(x, y), o))
        case _ => None
  }

  /** Reads one line back into a turn, or `None` when it is not one `TurnText` writes. */
  function ParseTurn(line: string): Option<Turn>
  {
    if |line| >= 2 && line[..2] == "M-" then
      match DirectionNamed(line[2..])
      case None => None
      case Some(d) => Some(MovePawn(d))
    else if |line| >= 2 && line[..2] == "P-" then ParseWall(line[2..])
    else None
  }

  /** Reads a history text back into the turns, or `None`. */
  function ParseHistory(s: string): Option<seq<Turn>>
    decreases |s|
  {
    if s == [] then Some([])
    else
      var end := FindFrom(s, '\n', 0);
      if end == |s| then None
      else
        match (ParseTurn(s[..end]), ParseHistory(s[end + 1..]))
        case (Some(t), Some(ts)) => Some([t] + ts)
        case _ => None
  }

  /** When the fields hold no separator of their own, `xs,ys-os` is read field by field. */
  lemma ParseWallFields(xs: string, ys: string, os: string)
    requires |ys| >= 1
    requires forall k :: 0 <= k < |xs| ==> xs[k] != ','
    requires forall k :: 1 <= k < |ys| ==> ys[k] != '-'
    ensures ParseWall(xs + "," + ys + "-" + os) ==
      match (ParseInt(xs), ParseInt(ys), OrientationNamed(os))
      case (Some(x), Some(y), Some(o)) => Some(PlaceWall(Point(x, y), o))
      case _ => None
  {
    var s := xs + "," + ys + "-" + os;
    var after := ys + "-" + os;
    assert FindFrom(s, ',', 0) == |xs| && s[..|xs|] == xs && s[|xs| + 1..] == after by {
      assert s == xs + [','] + after;
      FindFromSeparator(xs, ',', after, 0);
    }
    assert FindFrom(after, '-', 1) == |ys| && after[..|ys|] == ys && after[|ys| + 1..] == os by {
      assert after == ys + ['-'] + os;
      FindFromSeparator(ys, '-', os, 1);
    }
  }

  lemma PlaceWallRoundTrip(p: Point, o: Orientation)
    ensures ParseWall(WallText(p, o)) == Some(PlaceWall(p, o))
  {
    ParseWallFields(IntToString(p.x), IntToString(p.y), OrientationName(o));
    IntRoundTrip(p.x);
    IntRoundTrip(p.y);
  }

  /** Every turn is read back from its own line. */
  lemma TurnRoundTrip(t: Turn)
    ensures ParseTurn(TurnText(t)) == Some(t)
  {
    match t
    case MovePawn(d) =>
      assert TurnText(t)[2..] == DirectionName(d);
    case PlaceWall(p, o) =>
      assert TurnText(t)[..2] == "P-" && TurnText(t)[2..] == WallText(p, o);
      PlaceWallRoundTrip(p, o);
  }

  /** A line without a line break, then the rest: the line and the rest are read separately. */
  lemma ParseHistoryLine(line: string, rest: string)
    requires forall k :: 0 <= k < |line| ==> line[k] != '\n'
    ensures ParseHistory(line + "\n" + rest) ==
      match (ParseTurn(line), ParseHistory(rest))
      case (Some(t), Some(ts)) => Some([t] + ts)
      case _ => None
  {
    var s := line + "\n" + rest;
    assert s == line + ['\n'] + rest;
    FindFromSeparator(line, '\n', rest, 0);
    assert s[..|line|] == line;
    assert s[|line| + 1..] == rest;
  }

  /** The text of a history determines the history: it reads back to the same turns. */
  lemma {:induction false} HistoryRoundTrip(history: seq<Turn>)
    ensures ParseHistory(HistoryText(history)) == Some(history)
  {
    if history != [] {
      ParseHistoryLine(TurnText(history[0]), HistoryText(history[1..]));
      TurnRoundTrip(history[0]);
      HistoryRoundTrip(history[1..]);
      assert [history[0]] + history[1..] == history;
    }
  }

  /**
   * The state a game reaches by valid turns: placed walls never clash, no
   * wall counter is negative, every wall on the board came out of one of
   * the counters, both pawns stand on the 9x9 grid and the two unused pawn
   * slots stay off it.
   */
  ghost predicate Sound(board: GameBoard.Board, left0: int, left1: int)
  {
    board.WellFormed() && board.WallsApart() &&
    left0 >= 0 && left1 >= 0 && |board.walls| + left0 + left1 == 2 * StartingWalls &&
    board.GetWidth() == 9 && board.GetHeight() == 9 &&
    board.Contains(board.grid.pawns[0]) && board.Contains(board.grid.pawns[1]) &&
    !board.Contains(board.grid.pawns[2]) && !board.Contains(board.grid.pawns[3])
  }

  /** The new game is sound. */
  lemma DefaultIsSound()
    ensures Sound(GameBoard.CreateDefault(), StartingWalls, StartingWalls)
  {
    var g := CoordBoard.CreateDefault();
    assert g.GetPawn(0) == Some(g.pawns[0]) && g.GetPawn(1) == Some(g.pawns[1]);
  }

  /** Any pawn move keeps a game sound, valid or not: the clamped move never leaves the grid. */
  lemma MoveKeepsSound(board: GameBoard.Board, left0: int, left1: int, player: int, d: Direction)
    requires Sound(board, left0, left1) && 0 <= player <= 1
    ensures Sound(board.MovePawn(player, d), left0, left1)
  {
  }

  /**
   * A wall placed by a player with a wall left, at a place where it clashes
   * with no placed wall, keeps a game sound: one counter moves to the board.
   */
  lemma WallKeepsSound(board: GameBoard.Board, left0: int, left1: int, player: int, location: Point, o: Orientation)
    requires Sound(board, left0, left1) && 0 <= player <= 1
    requires (if player == 0 then left0 else left1) > 0 && board.CanPlaceWall(location, o)
    ensures Sound(board.PlaceWall(location, o), if player == 0 then left0 - 1 else left0, if player == 1 then left1 - 1 else left1)
  {
  }

  /** A game of Quoridor between two players. */
  class Quoridor {
    var board: GameBoard.Board
    var currentPlayer: int
    const wallsLeft: array<int>
    var history: seq<Turn>

    /** The shape every game has: two wall counters, a player index, a well-formed board. */
    ghost predicate Valid()
      reads this, wallsLeft
    {
      wallsLeft.Length == 2 && 0 <= currentPlayer < 2 && board.WellFormed()
    }

    /** The state reachable by valid turns only; see `Sound`. */
    ghost predicate Consistent()
      reads this, wallsLeft
    {
      Valid() && Sound(board, wallsLeft[0], wallsLeft[1])
    }

    /** `new_two_player`: the default board, player 0 to move, ten walls each, no history. */
    constructor NewTwoPlayer()
      ensures Consistent() && fresh(wallsLeft)
      ensures board == GameBoard.CreateDefault() && currentPlayer == 0
      ensures wallsLeft[..] == [StartingWalls, StartingWalls] && history == []
      ensures Pawn(0) == Point(4, 0) && Pawn(1) == Point(4, 8)
    {
      board := GameBoard.CreateDefault();
      currentPlayer := 0;
      wallsLeft := new int[2](_ => StartingWalls);
      history := [];
      DefaultIsSound();
    }

    /** `number_of_players`: two, one per wall counter. */
    function NumberOfPlayers(): (r: int)
      reads this, wallsLeft
      ensures Valid() ==> r == wallsLeft.Length
    {
      2
    }

    /** `current_player`: always a valid player index. */
    function CurrentPlayer(): (r: int)
      reads this, wallsLeft
      ensures Valid() ==> 0 <= r < NumberOfPlayers()
    {
      currentPlayer
    }

    /** `next_turn`: the other player is to move; nothing else changes. */
    method NextTurn()
      requires Valid()
      modifies this
      ensures Valid()
      ensures currentPlayer == (old(currentPlayer) + 1) % 2 && currentPlayer != old(currentPlayer)
      ensures board == old(board) && history == old(history)
    {
      currentPlayer := (currentPlayer + 1) % 2;
    }

    /**
     * `walls_left`: the walls player `player` still holds; other indices
     * panic. In a consistent game it is never negative, and it and the walls
     * on the board together stay within the twenty walls of a game.
     */
    function WallsLeft(player: int): (r: int)
      requires Valid() && 0 <= player <= 1
      reads this, wallsLeft
      ensures Consistent() ==> 0 <= r && r + |board.walls| <= 2 * StartingWalls
    {
      wallsLeft[player]
    }

    /**
     * `place_wall`: the current player's counter drops by one whether or
     * not the board accepts the wall; the board places it when it clashes
     * with no placed wall; the turn passes.
     */
    method PlaceWall(location: Point, orientation: Orientation)
      requires Valid()
      modifies this, wallsLeft
      ensures Valid()
      ensures wallsLeft[old(currentPlayer)] == old(wallsLeft[currentPlayer]) - 1
      ensures wallsLeft[1 - old(currentPlayer)] == old(wallsLeft[1 - currentPlayer])
      ensures board == old(board).PlaceWall(location, orientation)
      ensures currentPlayer == (old(currentPlayer) + 1) % 2 && history == old(history)
    {
      wallsLeft[currentPlayer] := wallsLeft[currentPlayer] - 1;
      board := board.PlaceWall(location, orientation);
      NextTurn();
    }

    /** `pawn`: where player `player`'s pawn stands; other indices panic. */
    function Pawn(player: int): (r: Point)
      requires Valid() && 0 <= player <= 1
      reads this, wallsLeft
      ensures board.GetPawn(player) == Some(r)
    {
      board.GetPawn(player).value
    }

    /**
     * `pawn_at`: whether some pawn stands at `location`. Both players' pawns
     * are found, and in a consistent game no other cell of the board is
     * reported.
     */
    function PawnAt(location: Point): (r: bool)
      reads this, wallsLeft
      ensures Valid() && (location == Pawn(0) || location == Pawn(1)) ==> r
      ensures Consistent() && board.Contains(location) ==> (r <==> location == Pawn(0) || location == Pawn(1))
    {
      board.IsPawn(location)
    }

    /** `move_pawn`: the current player's pawn takes the clamped step; the turn passes. */
    method MovePawn(direction: Direction)
      requires Valid()
      modifies this
      ensures Valid()
      ensures board == old(board).MovePawn(old(currentPlayer), direction)
      ensures currentPlayer == (old(currentPlayer) + 1) % 2 && history == old(history)
    {
      board := board.MovePawn(currentPlayer, direction);
      NextTurn();
    }

    /** `has_won`: player 0 has reached row 8 or player 1 has reached row 0. */
    function HasWon(): (r: bool)
      requires Valid()
      reads this, wallsLeft
      ensures r <==> Pawn(0).y == 8 || Pawn(1).y == 0
    {
      board.GetPawn(0).value.y == 8 || board.GetPawn(1).value.y == 0
    }

    /** `play`: records the turn, then carries it out without checking that it is valid. */
    method Play(turn: Turn)
      requires Valid()
      modifies this, wallsLeft
      ensures Valid()
      ensures history == old(history) + [turn]
      ensures currentPlayer == (old(currentPlayer) + 1) % 2
      ensures turn.MovePawn? ==>
        board == old(board).MovePawn(old(currentPlayer), turn.direction) && wallsLeft[..] == old(wallsLeft[..])
      ensures turn.PlaceWall? ==>
        board == old(board).PlaceWall(turn.location, turn.orientation) &&
        wallsLeft[old(currentPlayer)] == old(wallsLeft[currentPlayer]) - 1 &&
        wallsLeft[1 - old(currentPlayer)] == old(wallsLeft[1 - currentPlayer])
      ensures HistoryText(history) == HistoryText(old(history)) + TurnLine(turn)
      ensures old(Consistent()) && old(IsValid(turn)) ==> Consistent()
    {
      ghost var before, player, left0, left1 := board, currentPlayer, wallsLeft[0], wallsLeft[1];
      ghost var valid := IsValid(turn);
      HistoryTextAppend(history, turn);
      history := history + [turn];
      match turn
      case MovePawn(direction) =>
        MovePawn(direction);
        if Sound(before, left0, left1) {
          MoveKeepsSound(before, left0, left1, player, direction);
        }
      case PlaceWall(location, orientation) =>
        PlaceWall(location, orientation);
        if Sound(before, left0, left1) && valid {
          WallKeepsSound(before, left0, left1, player, location, orientation);
        }
    }

    /** `history_to_str`: the turns played so far, one line each. */
    method HistoryToStr() returns (result: string)
      ensures result == HistoryText(history)
      ensures ParseHistory(result) == Some(history)
    {
      var turns := history;
      result := "";
      for i := 0 to |turns|
        invariant result + HistoryText(turns[i..]) == HistoryText(turns)
      {
        HistoryTextSuffix(turns, i);
        result := result + TurnLine(turns[i]);
      }
      HistoryRoundTrip(history);
    }

    /**
     * `can_move`: the current player's pawn can step in `direction`, that
     * is the neighbour is on the board and no placed wall stands between.
     */
    function CanMove(direction: Direction): (r: bool)
      requires Valid()
      reads this, wallsLeft
      ensures var p := Pawn(currentPlayer);
        r <==> board.Contains(p.ShiftDirection(direction)) &&
               forall i :: 0 <= i < |board.walls| ==> !Separates(board.walls[i], p, p.ShiftDirection(direction))
    {
      board.PawnCanMove(currentPlayer, direction)
    }

    /**
     * `can_place_wall`: the current player has a wall left and the new
     * wall neither stands at a placed wall's location nor shares a blocked
     * edge with one.
     */
    function CanPlaceWall(location: Point, orientation: Orientation): (r: bool)
      requires Valid()
      reads this, wallsLeft
      ensures r <==> (WallsLeft(currentPlayer) > 0 &&
        forall i :: 0 <= i < |board.walls| ==>
          board.walls[i].location != location && !ShareEdge(board.walls[i], Wall(location, IsVertical(orientation))))
    {
      NoClashMeansApart(board.walls, Wall(location, IsVertical(orientation)));
      if wallsLeft[currentPlayer] <= 0 then false else board.CanPlaceWall(location, orientation)
    }

    /** `is_valid`: a move is checked by `can_move`, a wall by `can_place_wall`. */
    function IsValid(turn: Turn): (r: bool)
      requires Valid()
      reads this, wallsLeft
      ensures turn.MovePawn? ==> (r <==> CanMove(turn.direction))
      ensures turn.PlaceWall? ==> (r <==> CanPlaceWall(turn.location, turn.orientation))
    {
      match turn
      case MovePawn(direction) => CanMove(direction)
      case PlaceWall(location, orientation) => CanPlaceWall(location, orientation)
    }
  }

  /** A game is won exactly when some player's pawn stands on the row opposite the row a new game starts it on. */
  lemma HasWonMeansOppositeRow(game: Quoridor)
    requires game.Valid()
    ensures game.HasWon() <==> exists i :: 0 <= i < 2 && game.Pawn(i).y == 8 - GameBoard.CreateDefault().grid.pawns[i].y
  {
    assert game.HasWon() ==>
      game.Pawn(0).y == 8 - GameBoard.CreateDefault().grid.pawns[0].y || game.Pawn(1).y == 8 - GameBoard.CreateDefault().grid.pawns[1].y;
  }

  /**
   * The `test_create_two_player_game`, `test_can_move_pawn`,
   * `test_turn_swaps` and `test_wall_left` scenarios: a new game, its first
   * move, and a first wall that costs player 0 one of its ten walls.
   */
  method NewGameScenarios() returns (players: int, current: int, walls: (int, int), pawns: (Point, Point),
                                     moved: Point, next: int, wallsAfterWall: int)
    ensures players == 2 && current == 0 && walls == (10, 10) && pawns == (Point(4, 0), Point(4, 8))
    ensures moved == Point(4, 1) && next == 1
    ensures wallsAfterWall == 9
  {
    var game := new Quoridor.NewTwoPlayer();
    players := game.NumberOfPlayers();
    current := game.CurrentPlayer();
    walls := (game.WallsLeft(0), game.WallsLeft(1));
    pawns := (game.Pawn(0), game.Pawn(1));
    game.MovePawn(Up);
    moved := game.Pawn(0);
    next := game.CurrentPlayer();
    var other := new Quoridor.NewTwoPlayer();
    other.PlaceWall(Point(4, 4), Vertical);
    wallsAfterWall := other.WallsLeft(0);
  }

  /**
   * The moves of the `can_win` test, players alternating from 0: fourteen
   * opening moves, then Up, Down, Down, Down.
   */
  const CanWinMoves: seq<Direction> :=
    [Up, Down, Up, Right, Up, Down, Up, Down, Up, Down, Up, Down, Up, Down] + [Up, Down, Down, Down]

  /** Where the two pawns stand after the first `i` moves of the `can_win` test. */
  function CanWinPawns(i: nat): (Point, Point)
  {
    (if i <= 15 then Point(4, (i + 1) / 2) else if i == 16 then Point(4, 8) else Point(4, 7),
     if i < 2 then Point(4, 8) else if i < 4 then Point(4, 7) else Point(5, 9 - i / 2))
  }

  /** Each move of `can_win` takes the pawns from one expected position to the next. */
  lemma CanWinStep(g: GameBoard.Board, i: nat, next: nat)
    requires i < |CanWinMoves| && next == i + 1
    requires g.WellFormed() && g.grid.width == 9 && g.grid.height == 9
    requires (g.grid.pawns[0], g.grid.pawns[1]) == CanWinPawns(i)
    ensures var h := g.MovePawn(i % 2, CanWinMoves[i]);
      h.grid.width == 9 && h.grid.height == 9 && (h.grid.pawns[0], h.grid.pawns[1]) == CanWinPawns(next)
  {
    assert g.Contains(g.grid.pawns[i % 2].ShiftDirection(CanWinMoves[i]));
  }

  /** The fourteen opening moves of `can_win` from a new game: nobody wins on the way. */
  method CanWinOpening(game: Quoridor) returns (won: bool)
    requires game.Valid() && game.board.grid.width == 9 && game.board.grid.height == 9
    requires game.currentPlayer == 0 && (game.board.grid.pawns[0], game.board.grid.pawns[1]) == CanWinPawns(0)
    modifies game
    ensures game.Valid() && game.board.grid.width == 9 && game.board.grid.height == 9
    ensures game.currentPlayer == 0 && (game.board.grid.pawns[0], game.board.grid.pawns[1]) == CanWinPawns(14)
    ensures !won
  {
    won := false;
    for i := 0 to 14
      invariant game.Valid() && game.board.grid.width == 9 && game.board.grid.height == 9
      invariant game.currentPlayer == i % 2
      invariant (game.board.grid.pawns[0], game.board.grid.pawns[1]) == CanWinPawns(i)
      invariant !won
    {
      CanWinStep(game.board, i, i + 1);
      game.MovePawn(CanWinMoves[i]);
      won := won || game.HasWon();
    }
  }

  /**
   * The `can_win` test: fourteen alternating moves leave both players
   * short of their goal rows, player 0's next Up wins, two more moves
   * undo it and player 1's Down wins.
   */
  method CanWin() returns (wonEarly: bool, wonAfterUp: bool, wonAfterTwoDowns: bool, wonAtEnd: bool)
    ensures !wonEarly && wonAfterUp && !wonAfterTwoDowns && wonAtEnd
  {
    var game := new Quoridor.NewTwoPlayer();
    wonEarly := game.HasWon();
    var wonInOpening := CanWinOpening(game);
    wonEarly := wonEarly || wonInOpening;
    CanWinStep(game.board, 14, 15);
    game.MovePawn(Up);
    wonAfterUp := game.HasWon();
    CanWinStep(game.board, 15, 16);
    game.MovePawn(Down);
    CanWinStep(game.board, 16, 17);
    game.MovePawn(Down);
    wonAfterTwoDowns := game.HasWon();
    CanWinStep(game.board, 17, 18);
    game.MovePawn(Down);
    wonAtEnd := game.HasWon();
  }
}
