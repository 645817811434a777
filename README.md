# Quoridor rules engine in Dafny

A model of the rules engine of a two-player Quoridor game written in Rust:

- a 9x9 grid of cells;
- walls that cut the edges between cells;
- two pawns that race to the opposite row;
- a turn engine that alternates the players and counts their walls;
- a breadth-first search over the grid graph whose edges are the moves the walls leave open.

The repository holds several board revisions side by side, and this model keeps them apart.

| module | file | models |
|---|---|---|
| `Points` | points.dfy | `Point`, `create`, `shift`, `origin` and `PartialEq` of src/board/point.rs; the `Direction` enum; `shift_direction`, defined to agree with `Pawn::move_to` |
| `Walls` | walls.dfy | the `Wall` value and its `default_wall` sentinel from src/board/wall.rs; the blocking geometry of `Board::can_move`; the clash rule |
| `Pawns` | pawns.dfy | `Pawn::move_to`, `create` and `set_location` of old/game/board/pawn.rs |
| `WallBoard` | wall_board.dfy | the wall-aware `Board` of src/board/mod.rs: two pawns, twenty wall slots, per-player used-wall counters and a turn index |
| `CoordBoard` | coord_board.dfy | the coordinate `Board` of src/board.rs: builder setters, getters and the clamped `move_pawn` |
| `GameBoard` | game_board.dfy | the board API that src/game.rs and src/path_finder.rs call: the coordinate board plus a list of placed walls |
| `PathFinder` | path_finder.dfy | `distance_if_no_walls`, `shortest_distance` and `is_path` of src/path_finder.rs |
| `PathScenarios` | path_scenarios.dfy | the test scenarios of src/path_finder.rs |
| `Text` | text.dfy | decimal text of integers, as the `{}` formatting of `i32` writes it |
| `Game` | game.dfy | the `Quoridor` turn engine of src/game.rs, its `Turn` values and the text of its history |

The source's value types are Dafny datatypes: points, walls, pawns and both board revisions. The mod.rs `Board` is a `Copy` value whose transitions take `mut self` by value and update fields one by one. So it is a datatype whose `MovePawn`, `PlaceWall` and `IncTurn` are methods that update a local copy step by step.

`Quoridor` updates its fields through `&mut self`, so it is a `class`:

- the board value;
- the current player;
- a two-slot `array` of wall counters;
- the history as a `seq<Turn>`.

Its `history_to_str` is a loop. Both searches are loops over mutable work sets: a breadth-first layer loop, and the `to_search`/`searched` work list of `is_path`. Each search is proved against `Within(b, from, k)`, the set of cells reachable in at most `k` allowed steps.

Points where the model follows what the code does rather than what the names or the game's rules suggest:

- `is_valid` (src/game.rs:122-128) checks a wall with the wall counter and then hands it to the board's `can_place_wall` (src/game.rs:114-120). This model supplies that board call as the clash test only. No path (blockade) check is modelled.
- `place_wall` of src/board/mod.rs checks only for a free slot and for clashes. There is no interior-bounds check on the wall's location.
- `walls_left` of src/board/mod.rs returns the number of walls USED.
- `shortest_distance` is meant as a best-first search, and its tests pin down the plain graph distance. The model computes that distance breadth-first.

## Model

| member | source | states |
|---|---|---|
| Points.Point.Eq | src/board/point.rs:27-33 | equality holds exactly when both coordinates match |
| Points.EqIsReflexiveAndSymmetric | src/board/point.rs:27-33 | point equality is reflexive and symmetric |
| Points.Create | src/board/point.rs:10-12 | the created point has exactly the given x and y |
| Points.Point.Shift | src/board/point.rs:15-20 | the shifted point lies exactly `change_x` columns and `change_y` rows away |
| Points.Origin | src/board/point.rs:22-24 | the origin has both coordinates zero |
| Points.ShiftFromOrigin | src/board/point.rs:15-24 | every point is the origin shifted by its own coordinates |
| Points.ShiftZeroIsIdentity | src/board/point.rs:15-20 | shifting by (0,0) gives the same point |
| Points.ShiftComposes | src/board/point.rs:15-20 | shifting by (a,b) and then by (c,d) is shifting by (a+c,b+d) |
| Points.Point.ShiftDirection | src/board/mod.rs:55 | a step changes exactly one coordinate by exactly one, and Up and Down are the steps that keep x |
| Points.ShiftDirectionUndone | src/board/mod.rs:55 | a step followed by a step in the opposite direction returns to the start |
| Pawns.Pawn.MoveTo | old/game/board/pawn.rs:8-16 | Up gives (x,y+1), Right gives (x+1,y), Down gives (x,y-1), Left gives (x-1,y) |
| Pawns.Pawn.SetLocation | old/game/board/pawn.rs:24-27 | the pawn now stands exactly at (x,y) |
| Pawns.Create | old/game/board/pawn.rs:18-22 | a new pawn stands at the origin |
| Pawns.MoveToIsShiftDirection | old/game/board/pawn.rs:8-16 | a pawn move and the point step that the boards use agree for every direction |
| Pawns.MoveToUndone | old/game/board/pawn.rs:8-16 | moving in a direction and then in the opposite one returns the same pawn |
| Walls.DefaultWall | src/board/wall.rs:9-14 | the sentinel stands at (-1,-1) and is horizontal |
| Walls.DefaultWallBlocksNoBoardEdge | src/board/wall.rs:9-14 | the sentinel never stands between two cells with non-negative coordinates |
| Walls.BlockingCandidates | src/board/mod.rs:139-164 | the two candidate locations and the orientation for a step are exactly the walls that stand on the edge the step crosses |
| Walls.EdgeOpen | src/board/mod.rs:165-173 | the wall scan passes exactly when no listed wall stands on the edge between the cell and its neighbour |
| Walls.EdgeOpenSymmetric | src/board/mod.rs:143-164 | an edge is open from one of its cells exactly when it is open from the other, in the opposite direction |
| Walls.Clashes | src/board/mod.rs:84 | two walls at the same location clash whatever their orientations |
| Walls.ClashesSymmetric | src/board/mod.rs:84 | the clash relation is symmetric |
| Walls.ClashesIffShareEdge | src/board/mod.rs:82-89 | at distinct locations two walls clash exactly when they would block a common edge |
| Walls.NoClashMeansApart | src/board/mod.rs:82-89 | clashing with no wall of a list is being at another location and sharing no blocked edge with any of them |
| CoordBoard.Board.SetWidth | src/board.rs:41-48 | `get_width` then reads the new width; the height and the pawns are unchanged |
| CoordBoard.Board.SetHeight | src/board.rs:50-57 | `get_height` then reads the new height; the width and the pawns are unchanged |
| CoordBoard.Board.GetWidth | src/board.rs:46-48 | the width is the number of columns: within the rows, a point is on the board exactly when its column lies in 0 to width - 1 |
| CoordBoard.Board.GetHeight | src/board.rs:55-57 | the height is the number of rows: within the columns, a point is on the board exactly when its row lies in 0 to height - 1 |
| CoordBoard.Board.SetPawn | src/board.rs:59-62 | `get_pawn` of the slot then reads `Some` of the new location; every other slot and the size are unchanged |
| CoordBoard.Board.GetPawn | src/board.rs:64-69 | the result is `None` exactly for an index below 0 or from 4 on |
| CoordBoard.Board.MovePawn | src/board.rs:71-86 | only the chosen slot changes. A step onto the grid moves it by exactly one cell, and a step off the grid leaves it where it was. On a non-empty grid the pawn always ends on the grid |
| CoordBoard.Create | src/board.rs:25-31 | an empty 0x0 board with every pawn slot at (-1,-1) |
| CoordBoard.CreateDefault | src/board.rs:33-39 | width 9, height 9, pawn 0 at (4,0) and pawn 1 at (4,8) |
| CoordBoard.MovePawnScenarios | src/board.rs:137-172 | the `test_move_pawn` and `test_move_pawn_edge` outcomes |
| WallBoard.Board.CanMove | src/board/mod.rs:132-174 | false when the neighbour is off the board; otherwise true exactly when no wall slot stands on the edge crossed |
| WallBoard.CanMoveSymmetric | src/board/mod.rs:132-174 | between two cells of the board, a step is allowed exactly when the step back is allowed |
| WallBoard.SentinelsNeverBlock | src/board/mod.rs:165-173 | the sentinel walls in unused slots never change whether a step from a board cell is allowed |
| WallBoard.Board.IsPawn | src/board/mod.rs:69-76 | on a well-formed board a pawn stands at the point exactly when pawn 0 or pawn 1 does |
| WallBoard.Board.NextWall | src/board/mod.rs:78-80 | on a valid board the next slot index is at most 20; every slot before it holds a placed wall and every slot from it on holds the sentinel |
| WallBoard.Board.ValidWallLocation | src/board/mod.rs:82-89 | the clash scan passes exactly when no slot holds a wall at the same location or a wall that blocks an edge in common with the new one; such a location holds no wall of either orientation |
| WallBoard.Board.WallHere | src/board/mod.rs:119-126 | on a valid board, away from the sentinel's location (-1,-1), a wall is found exactly when one of the placed walls stands there |
| WallBoard.Board.Eq | src/board/mod.rs:262-285 | `eq` holds exactly when the pawns and the height agree and both boards hold the same set of walls; width, turn and counters are not compared |
| WallBoard.WallSetsAgree | src/board/mod.rs:272-283 | the two containment loops of `eq` pass exactly when both slot arrays hold the same set of walls |
| WallBoard.Board.WallsLeft | src/board/mod.rs:128-130 | the value is the walls the player has USED: the two values add up to the number of filled slots, at most 20 |
| WallBoard.Board.IncTurn | src/board/mod.rs:105-108 | only the turn changes, to the next index modulo the number of pawns |
| WallBoard.Board.MovePawn | src/board/mod.rs:43-62 | an illegal move changes nothing, turn included. A legal one moves only the current pawn, one cell or two over an adjacent pawn, and passes the turn. A single step stays on the board, and the board invariant is kept |
| WallBoard.Board.PlaceWall | src/board/mod.rs:91-103 | with a full array or a clash the board is unchanged. Otherwise the wall fills slot `next_wall`, only the mover's counter rises by one, the turn passes and the pawns stay. Placed walls never clash and number at most 20 |
| WallBoard.PlacedWallsStillApart | src/board/mod.rs:96-99 | a wall that clashes with no slot, written into the next slot, keeps the placed walls pairwise apart |
| WallBoard.DefaultBoard | src/board/mod.rs:287-299 | a valid 9x9 board with no wall placed, player 0 to move, pawns at (4,0) and (4,8), not won |
| WallBoard.Board.IsWon | src/board/mod.rs:65-67 | a board with the pawns where `default_board` puts them is never won; the full meaning is stated by `WallBoard.IsWonMeansOppositeRow` |
| WallBoard.IsWonMeansOppositeRow | src/board/mod.rs:65-67 | a board is won exactly when some pawn stands on the row opposite its starting row |
| WallBoard.WinningState | src/board/mod.rs:305-317 | the `winning_state` outcomes |
| WallBoard.WallCantBePlacedOnWalls | src/board/mod.rs:319-326 | a vertical wall at (4,4) is now in a slot, where the default board has none, so the board is not `eq` to the default board; a horizontal wall at (4,4) then leaves the board unchanged, and `eq` to it |
| GameBoard.Board.CanMoveFrom | src/path_finder.rs:25-27 | a step is allowed exactly when the neighbour is on the board and no placed wall stands on the edge between the two cells |
| GameBoard.Board.MovePawn | src/board.rs:71-86 | the clamped move keeps the board well formed and leaves the walls as they were |
| GameBoard.Board.PlaceWall | src/game.rs:54-59 | a wall that clashes with no placed wall is appended, and `has_wall` then finds it; a clashing wall leaves the board unchanged; pawns never move; placed walls stay pairwise apart |
| GameBoard.CreateDefault | src/board.rs:33-39 | the default coordinate board with no walls |
| PathFinder.DistanceIfNoWalls | src/path_finder.rs:9-11 | the Manhattan distance is never negative and is zero exactly for equal points |
| PathFinder.DistanceIfNoWallsSymmetric | src/path_finder.rs:9-11 | the Manhattan distance is symmetric |
| PathFinder.StepInCells | src/path_finder.rs:25-30 | an allowed step always lands on a cell of the board |
| PathFinder.WithinMonotone | src/path_finder.rs:21-47 | the cells reachable within `i` steps are among those reachable within `j >= i` steps |
| PathFinder.WithinInUniverse | src/path_finder.rs:21-47 | every reachable cell is a board cell or the start |
| PathFinder.ShortestIsUnique | src/path_finder.rs:13-50 | a shortest walk has one length |
| PathFinder.NextLayer | src/path_finder.rs:21-47 | the next layer of the search comes from the newest layer alone |
| PathFinder.Stable | src/path_finder.rs:21-49 | once a layer adds no cell, no later layer does |
| PathFinder.ClosedRegion | src/path_finder.rs:25-30 | a region that holds the start and that no allowed step leaves holds every reachable cell |
| PathFinder.PotentialBound | src/path_finder.rs:25-30 | a potential that no allowed step raises by more than one bounds the walk length from below |
| PathFinder.ManhattanLowerBound | src/path_finder.rs:9-11 | no walk is shorter than the Manhattan distance it covers |
| PathFinder.WallFreeReach | src/path_finder.rs:125-141 | without walls every board cell is reached in Manhattan-distance steps |
| PathFinder.WallFreeShortest | src/path_finder.rs:125-141 | without walls the shortest distance between two board cells is their Manhattan distance |
| PathFinder.LayerRound | src/path_finder.rs:21-47 | one round of the search adds exactly the next layer and shrinks the unvisited cells by its size |
| PathFinder.EmptyFrontier | src/path_finder.rs:21 | an empty frontier means the last round added no cell |
| PathFinder.LayersExhausted | src/path_finder.rs:21-49 | an exhausted search that never met `to` proves `to` unreachable |
| PathFinder.FirstLayerIsShortest | src/path_finder.rs:39-44 | the first layer that holds `to` gives the shortest distance |
| PathFinder.ShortestDistance | src/path_finder.rs:5-50 | the result is the length of a shortest walk from `from` to `to`, or -1 exactly when no walk reaches `to` |
| PathFinder.ReachableStep | src/path_finder.rs:83-88 | an allowed step from a reachable cell reaches a reachable cell |
| PathFinder.SearchNeighbours | src/path_finder.rs:83-94 | the result is found exactly when an allowed neighbour matches the target. Only allowed neighbours not yet searched join the work list. Without a match every allowed neighbour is searched or queued |
| PathFinder.SkipSearched | src/path_finder.rs:59-60 | popping a cell that is already searched keeps the work list closed |
| PathFinder.SearchedCell | src/path_finder.rs:82-94 | searching a new cell keeps every searched and queued cell a reachable board cell |
| PathFinder.SearchedCellClosed | src/path_finder.rs:82-94 | searching a new cell without a match keeps every allowed step from a searched cell inside the work list |
| PathFinder.MatchingNeighbour | src/path_finder.rs:89-92 | a matching neighbour of a reachable cell means the target is reached |
| PathFinder.ClosedSearch | src/path_finder.rs:59-95 | a closed, emptied work list means no reachable cell has a matching neighbour |
| PathFinder.IsPath | src/path_finder.rs:52-107 | true exactly when some cell reached by at least one allowed step satisfies the target; the start itself is never tested |
| PathScenarios.OneWallBoardIsBuilt | src/path_finder.rs:145-147 | both walls of `one_wall` are accepted |
| PathScenarios.BlockedBoardFirstHalf | src/path_finder.rs:165-168 | the first three walls of `no_path_when_blocked` are accepted |
| PathScenarios.BlockedBoardSecondHalf | src/path_finder.rs:169-171 | the last three walls of `no_path_when_blocked` are accepted |
| PathScenarios.NoWallsDistances | src/path_finder.rs:125-141 | the distances 11, 4 and 16 of the `no_walls` tests |
| PathScenarios.ColumnThreeClimb | src/path_finder.rs:143-149 | on the `one_wall` board (3,y) is reached from (4,0) in y + 1 steps, for every row y |
| PathScenarios.TopStep | src/path_finder.rs:143-149 | one step Right from the top of column 3 reaches (4,8) in ten steps |
| PathScenarios.OneWallReach | src/path_finder.rs:143-149 | (4,8) is reached from (4,0) in ten steps past the two walls |
| PathScenarios.DetourGrowsByOne | src/path_finder.rs:143-149 | no allowed step on the `one_wall` board gains more than one on the detour potential |
| PathScenarios.OneWallShortest | src/path_finder.rs:143-149 | ten is the shortest distance from (4,0) to (4,8) on the `one_wall` board |
| PathScenarios.OneWallDistance | src/path_finder.rs:143-149 | the search returns 10 on the `one_wall` board |
| PathScenarios.SealedIsClosed | src/path_finder.rs:163-171 | no allowed step leaves rows 0 to 2, minus the corner (8,2), on the blocked board |
| PathScenarios.IsPathScenarios | src/path_finder.rs:151-174 | true from (0,0) to row 8 and from (7,7) to row 0 without walls; false from (0,0) to row 7 behind the six walls |
| Text.NatToString | src/game.rs:103 | the text is one or more decimal digits with no leading zero |
| Text.IntToString | src/game.rs:103 | the text starts with a minus sign exactly for negative values; all other characters are digits |
| Text.ParseNat | src/game.rs:103 | a value is read exactly from a non-empty run of digits |
| Text.NatRoundTrip | src/game.rs:103 | reading the digits of a natural number gives the number back |
| Text.IntRoundTrip | src/game.rs:103 | reading the text of an integer gives the integer back |
| Text.FindFrom | src/game.rs:95-108 | the first position at or after `from` holding the character, or the end |
| Game.DirectionNamed | src/game.rs:100 | the direction name is read back exactly from the name of each direction |
| Game.OrientationNamed | src/game.rs:103 | the orientation name is read back exactly from the name of each orientation |
| Game.TurnText | src/game.rs:95-108 | no turn's text holds a line break, so each turn takes exactly one line |
| Game.HistoryTextAppend | src/game.rs:83-86 | the text of a history one turn longer is the old text plus the new turn's line |
| Game.HistoryTextSuffix | src/game.rs:97-106 | the text of the turns from `i` on is the line of turn `i`, then the text of the rest |
| Game.ParseWallFields | src/game.rs:102-103 | `x,y-Orientation` splits at its separators when the fields hold none of their own |
| Game.PlaceWallRoundTrip | src/game.rs:102-103 | the fields of a wall turn read back to the same wall turn |
| Game.TurnRoundTrip | src/game.rs:98-105 | every turn is read back from its own line |
| Game.ParseHistoryLine | src/game.rs:95-108 | a line and the text after it are read separately |
| Game.HistoryRoundTrip | src/game.rs:95-108 | the history text reads back to the same turns, in order |
| Game.DefaultIsSound | src/game.rs:26-33 | a new game is sound |
| Game.MoveKeepsSound | src/board.rs:80-83 | any pawn move keeps a game sound, because the clamped move never leaves the grid |
| Game.WallKeepsSound | src/game.rs:54-59 | a wall placed with a wall left and without a clash keeps a game sound: one wall moves from a counter to the board |
| Game.Quoridor.NewTwoPlayer | src/game.rs:26-33 | the default board, player 0 to move, ten walls each, an empty history, pawns at (4,0) and (4,8), a sound state |
| Game.Quoridor.NumberOfPlayers | src/game.rs:35-37 | two players, one per wall counter |
| Game.Quoridor.CurrentPlayer | src/game.rs:39-41 | always a player index below `number_of_players` |
| Game.Quoridor.NextTurn | src/game.rs:43-45 | the other player is to move; board and history are unchanged |
| Game.Quoridor.WallsLeft | src/game.rs:47-52 | in a consistent game the walls a player holds are never negative, and with the walls on the board they stay within the twenty of a game |
| Game.Quoridor.PlaceWall | src/game.rs:54-59 | the mover's counter drops by one whatever the board does, the other counter stays, the board places the wall if it can, the turn passes |
| Game.Quoridor.Pawn | src/game.rs:61-66 | the pawn of player 0 or 1 is the board's `get_pawn` of that index |
| Game.Quoridor.PawnAt | src/game.rs:68-70 | the locations of both players' pawns are reported occupied; in a consistent game a cell of the board is reported exactly when one of the two pawns stands on it |
| Game.Quoridor.MovePawn | src/game.rs:72-75 | the board takes the current player's clamped move and the turn passes |
| Game.Quoridor.HasWon | src/game.rs:77-81 | won exactly when pawn 0 stands on row 8 or pawn 1 on row 0 |
| Game.HasWonMeansOppositeRow | src/game.rs:77-81 | a game is won exactly when some player's pawn stands on the row opposite the row a new game starts it on |
| Game.Quoridor.Play | src/game.rs:83-93 | the turn is appended to the history exactly once and its line to the history text. The turn is carried out without validation. A valid turn from a sound state leads to a sound state |
| Game.Quoridor.HistoryToStr | src/game.rs:95-108 | the text is one line per turn in order, and it reads back to the history |
| Game.Quoridor.CanMove | src/game.rs:110-112 | true exactly when the current pawn's neighbour is on the board and no placed wall stands between them |
| Game.Quoridor.CanPlaceWall | src/game.rs:114-120 | true exactly when the current player has a wall left and every placed wall is at another location and blocks no edge in common with the new one |
| Game.Quoridor.IsValid | src/game.rs:122-128 | a move is checked by `can_move`, a wall by `can_place_wall` |
| Game.CanWinStep | src/game.rs:231-252 | each move of `can_win` takes the two pawns to their next expected cells |
| Game.CanWinOpening | src/game.rs:236-241 | the fourteen opening moves of `can_win` leave nobody winning |
| Game.CanWin | src/game.rs:231-252 | not won at the start or after any of the fourteen opening moves; won after the next Up; not won after two Downs; won after the last Down |
| Game.NewGameScenarios | src/game.rs:197-228 | two players, player 0 to move, ten walls each, pawns at (4,0) and (4,8). The first Up takes pawn 0 to (4,1) and passes the turn. A first wall leaves player 0 nine walls |

## Left out

- Rendering is not modelled: `ToString for Board` (src/board/mod.rs:177-260) and `Quoridor::to_string` (src/game.rs:130-190) are display formatting only.
- Debug output is not modelled: the grid printing in `is_path`, `print_shortest_path`, and the `println!` calls in `has_won`.
- src/main.rs is not part of this model: it holds the interactive prompts, a screen-clearing subprocess and the game loop.
- WallBoard.Board.Eq: compares pawns and walls with Dafny's structural equality. For `Pawn` that is exact: it derives `PartialEq` (old/game/board/pawn.rs:2), and `Point`'s `eq` compares both fields (src/board/point.rs:27-33). `Wall` derives only `Clone` and `Copy` (src/board/wall.rs:3), so its equality is not part of this model's source files and is taken to compare every field.
- old/game/board/path_finder.rs, src/board/path_finder.rs, src/pathFinder.rs and src/game/board/game_save.rs are not part of this model: they are superseded, unfinished or commented out.
- PathFinder.ShortestDistance: computes the breadth-first graph distance that the tests pin down. It does not follow the priority-queue bookkeeping of the source step by step. That bookkeeping mixes distances with `999 - estimate` priorities and relies on the ordering of the external `priority_queue` crate. For `from == to` the model returns 0. The source never returns 0: it compares `to` only with a freshly relaxed neighbour, so for `from == to` it returns either -1 or a positive round-trip length, the recorded value of a parent plus one (src/path_finder.rs:35-41).
- PathFinder.IsPath: skips a popped cell that is already in `searched`, where the source searches it again. A second search of such a cell can only queue cells that are already queued, and its target checks already ran on the first search, so the result is the same.
- PathFinder.IsPath: the target is a total function `Point -> bool`, as a Rust closure of type `Fn(Point) -> bool` is.
- `Pawn::move_to`, `shift` and the counters are on unbounded integers: `i32` and `usize` wrap-around and index panics are not modelled. Indices outside the arrays are excluded by preconditions where the source would panic (`walls_left` and `pawn` of src/game.rs).
- The tuple-`Point` board that src/game.rs and src/path_finder.rs call is not part of this model's source files. `GameBoard` supplies it as follows:
  - the coordinate board of src/board.rs plus a list of placed walls;
  - `can_move_from` as the geometry of mod.rs `can_move`, with `Vertical` meaning `vertical == true`;
  - `can_place_wall` as "clashes with no placed wall";
  - `place_wall` appends a wall that can be placed and otherwise returns the board unchanged.
- `Wall::clashes` is not part of this model's source files. `Walls.Clashes` follows the game's rule: two walls clash at the same location, or when they have the same orientation and are offset by one along their length. `Point::shift_direction` is not part of them either; `Points.Point.ShiftDirection` agrees with `Pawn::move_to`.
- WallBoard.Board.MovePawn: a hop over an adjacent pawn can land off the board or on a wall-blocked cell; the source does not check the second step, so the model states only where the pawn lands, and that a single step stays on the board.
- `pawn_here` (src/board/mod.rs:110-117) is the same scan as `is_pawn` and is not modelled twice.
- The blockade rule is not modelled: the supplied `can_place_wall` is the clash test only, and nothing in this model checks that a wall leaves both players a path to their goal rows.
- Game.Quoridor.PawnAt: off the board, the two unused pawn slots of the coordinate board, which stay at (-1,-1), are reported as pawns, as a scan over all four slots would report them; the contract speaks only about cells of the board.
