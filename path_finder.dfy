/**
 * The searches of src/path_finder.rs over the grid graph of a board: one
 * edge from `p` to its neighbour in `d` whenever `can_move_from(p, d)`.
 *
 * `Within(b, from, k)` is the reference for both searches: the cells
 * reachable from `from` in at most `k` allowed steps.
 */
module PathFinder {
  import opened Points
  import opened Walls
  import GameBoard

  type Board = GameBoard.Board

  function Abs(n: int): nat
  {
    if n < 0 then -n else n
  }

  /** `distance_if_no_walls`: the Manhattan distance. */
  function DistanceIfNoWalls(a: Point, b: Point): (r: int)
    ensures r >= 0
    ensures r == 0 <==> a == b
  {
    Abs(a.x - b.x) + Abs(a.y - b.y)
  }

  lemma DistanceIfNoWallsSymmetric(a: Point, b: Point)
    ensures DistanceIfNoWalls(a, b) == DistanceIfNoWalls(b, a)
  {
  }

  /** The cells of the board. */
  function Cells(b: Board): set<Point>
  {
    set x: int, y: int | 0 <= x < b.GetWidth() && 0 <= y < b.GetHeight() :: Point(x, y)
  }

  lemma CellsHoldContained(b: Board, q: Point)
    requires b.Contains(q)
    ensures q in Cells(b)
  {
    assert q == Point(q.x, q.y);
  }

  /** The cells one allowed step away from some cell of `s`. */
  function Step(b: Board, s: set<Point>): set<Point>
  {
    set p, d | p in s && d in AllDirections && b.CanMoveFrom(p, d) :: p.ShiftDirection(d)
  }

  lemma StepMember(b: Board, s: set<Point>, p: Point, d: Direction)
    requires p in s && b.CanMoveFrom(p, d)
    ensures p.ShiftDirection(d) in Step(b, s)
  {
    assert d in AllDirections;
  }

  lemma StepInCells(b: Board, s: set<Point>)
    ensures Step(b, s) <= Cells(b)
  {
    forall q | q in Step(b, s)
      ensures q in Cells(b)
    {
      CellsHoldContained(b, q);
    }
  }

  /** The cells reachable from `from` in at most `k` allowed steps. */
  ghost function Within(b: Board, from: Point, k: nat): set<Point>
  {
    if k == 0 then {from} else Within(b, from, k - 1) + Step(b, Within(b, from, k - 1))
  }

  /** `n` is the length of a shortest walk from `from` to `to`. */
  ghost predicate IsShortest(b: Board, from: Point, to: Point, n: nat)
  {
    to in Within(b, from, n) && forall k: nat :: k < n ==> to !in Within(b, from, k)
  }

  /** No walk of any length leads from `from` to `to`. */
  ghost predicate Unreachable(b: Board, from: Point, to: Point)
  {
    forall k: nat :: to !in Within(b, from, k)
  }

  /** Some cell reached by at least one allowed step satisfies `target`. */
  ghost predicate ReachesTarget(b: Board, from: Point, target: Point -> bool)
  {
    exists k: nat, q :: q in Step(b, Within(b, from, k)) && target(q)
  }

  lemma {:induction false} WithinMonotone(b: Board, from: Point, i: nat, j: nat)
    requires i <= j
    ensures Within(b, from, i) <= Within(b, from, j)
    decreases j - i
  {
    if i < j {
      WithinMonotone(b, from, i + 1, j);
    }
  }

  lemma {:induction false} WithinInUniverse(b: Board, from: Point, k: nat)
    ensures Within(b, from, k) <= Cells(b) + {from}
  {
    if k > 0 {
      WithinInUniverse(b, from, k - 1);
      StepInCells(b, Within(b, from, k - 1));
    }
  }

  /** Length `n` is shortest for at most one `n`. */
  lemma ShortestIsUnique(b: Board, from: Point, to: Point, n: nat, m: nat)
    requires IsShortest(b, from, to, n) && IsShortest(b, from, to, m)
    ensures n == m
  {
  }

  /** Only the newest layer can contribute new cells to the next one. */
  lemma {:induction false} NextLayer(b: Board, from: Point, k: nat, frontier: set<Point>)
    requires k == 0 ==> frontier == Within(b, from, 0)
    requires k > 0 ==> frontier == Within(b, from, k) - Within(b, from, k - 1)
    ensures Within(b, from, k + 1) == Within(b, from, k) + (Step(b, frontier) - Within(b, from, k))
  {
    var w := Within(b, from, k);
    WithinUnfold(b, from, k + 1, k);
    if k > 0 {
      WithinUnfold(b, from, k, k - 1);
      forall q | q in Step(b, w) && q !in Step(b, frontier)
        ensures q in w
      {
        var p, d :| p in w && d in AllDirections && b.CanMoveFrom(p, d) && q == p.ShiftDirection(d);
        assert p !in frontier by {
          if p in frontier {
            StepMember(b, frontier, p, d);
          }
        }
        StepMember(b, Within(b, from, k - 1), p, d);
      }
    }
    forall q | q in Step(b, frontier)
      ensures q in Step(b, w)
    {
      var p, d :| p in frontier && d in AllDirections && b.CanMoveFrom(p, d) && q == p.ShiftDirection(d);
      StepMember(b, w, p, d);
    }
  }

  /** One more step: the layer `j = i + 1` is layer `i` and the cells one step from it. */
  lemma WithinUnfold(b: Board, from: Point, j: nat, i: nat)
    requires j == i + 1
    ensures Within(b, from, j) == Within(b, from, i) + Step(b, Within(b, from, i))
  {
  }

  /** Once a layer adds nothing, no later layer does. */
  lemma {:induction false} Stable(b: Board, from: Point, k: nat, j: nat)
    requires k > 0 && Within(b, from, k) == Within(b, from, k - 1)
    requires k <= j
    ensures Within(b, from, j) == Within(b, from, k)
    decreases j - k
  {
    if k < j {
      var i := j - 1;
      Stable(b, from, k, i);
      WithinUnfold(b, from, j, i);
      WithinUnfold(b, from, k, k - 1);
    }
  }

  /**
   * A region that holds `from` and that no allowed step leaves holds every
   * reachable cell.
   */
  lemma {:induction false} ClosedRegion(b: Board, from: Point, region: Point -> bool, k: nat)
    requires region(from)
    requires forall c, d :: region(c) && b.CanMoveFrom(c, d) ==> region(c.ShiftDirection(d))
    ensures forall q :: q in Within(b, from, k) ==> region(q)
  {
    if k > 0 {
      ClosedRegion(b, from, region, k - 1);
    }
  }

  /**
   * A potential that is at most 0 at `from` and grows by at most one per
   * allowed step bounds the number of steps needed to reach a cell.
   */
  lemma {:induction false} PotentialBound(b: Board, from: Point, potential: Point -> int, k: nat)
    requires potential(from) <= 0
    requires forall p, d :: b.CanMoveFrom(p, d) ==> potential(p.ShiftDirection(d)) <= potential(p) + 1
    ensures forall q :: q in Within(b, from, k) ==> potential(q) <= k
  {
    if k > 0 {
      PotentialBound(b, from, potential, k - 1);
    }
  }

  /** On every board a walk is at least as long as the Manhattan distance it covers. */
  lemma {:induction false} ManhattanLowerBound(b: Board, from: Point, k: nat)
    ensures forall q :: q in Within(b, from, k) ==> DistanceIfNoWalls(from, q) <= k
  {
    PotentialBound(b, from, q => DistanceIfNoWalls(from, q), k);
  }

  /** One allowed step from a cell within `k` steps reaches a cell within `k + 1`. */
  lemma WalkStep(b: Board, from: Point, k: nat, next: nat, p: Point, d: Direction, q: Point)
    requires p in Within(b, from, k) && b.CanMoveFrom(p, d) && next == k + 1 && q == p.ShiftDirection(d)
    ensures q in Within(b, from, next)
  {
    WithinUnfold(b, from, next, k);
    StepMember(b, Within(b, from, k), p, d);
  }

  predicate Between(a: int, m: int, c: int)
  {
    (a <= m <= c) || (c <= m <= a)
  }

  /** The cell one step before `to` on a straight-line route from `from`, and the step from it. */
  function StepBack(from: Point, to: Point): (r: (Point, Direction))
    requires from != to
    ensures r.0.ShiftDirection(r.1) == to
    ensures DistanceIfNoWalls(from, r.0) + 1 == DistanceIfNoWalls(from, to)
    ensures Between(from.x, r.0.x, to.x) && Between(from.y, r.0.y, to.y)
  {
    if to.x > from.x then (Point(to.x - 1, to.y), Right)
    else if to.x < from.x then (Point(to.x + 1, to.y), Left)
    else if to.y > from.y then (Point(to.x, to.y - 1), Up)
    else (Point(to.x, to.y + 1), Down)
  }

  /** On a board without walls every cell is reached in Manhattan-distance steps. */
  lemma {:induction false} WallFreeReach(b: Board, from: Point, to: Point)
    requires b.walls == [] && b.Contains(from) && b.Contains(to)
    ensures to in Within(b, from, DistanceIfNoWalls(from, to))
    decreases DistanceIfNoWalls(from, to)
  {
    if from == to {
      assert to in Within(b, from, 0);
    } else {
      var (prev, d) := StepBack(from, to);
      WallFreeReach(b, from, prev);
      assert b.CanMoveFrom(prev, d);
      WalkStep(b, from, DistanceIfNoWalls(from, prev), DistanceIfNoWalls(from, to), prev, d, to);
    }
  }

  /** Without walls the shortest distance between two cells is the Manhattan distance. */
  lemma {:induction false} WallFreeShortest(b: Board, from: Point, to: Point)
    requires b.walls == [] && b.Contains(from) && b.Contains(to)
    ensures IsShortest(b, from, to, DistanceIfNoWalls(from, to))
  {
    WallFreeReach(b, from, to);
    forall k: nat | k < DistanceIfNoWalls(from, to)
      ensures to !in Within(b, from, k)
    {
      ManhattanLowerBound(b, from, k);
    }
  }

  lemma SplitLast<T>(s: seq<T>)
    requires s != []
    ensures s == s[..|s| - 1] + [s[|s| - 1]]
  {
  }

  lemma CardinalityOfDifference<T>(a: set<T>, s: set<T>)
    requires s <= a
    ensures |a - s| == |a| - |s|
  {
    assert a == (a - s) + s;
    assert (a - s) * s == {};
  }

  /**
   * The state of the layered search after `k` rounds: `visited` holds the
   * cells within `k` steps and `frontier` those first reached in round `k`.
   */
  ghost predicate Layered(b: Board, from: Point, k: nat, visited: set<Point>, frontier: set<Point>)
  {
    visited == Within(b, from, k) &&
    (k == 0 ==> frontier == visited) &&
    (k > 0 ==> frontier == visited - Within(b, from, k - 1))
  }

  /** One breadth-first round keeps the search layered and shrinks what is left to visit. */
  lemma {:induction false} LayerRound(b: Board, from: Point, universe: set<Point>, k: nat, visited: set<Point>, frontier: set<Point>,
                                      k1: nat, visited1: set<Point>, next: set<Point>)
    requires universe == Cells(b) + {from}
    requires Layered(b, from, k, visited, frontier) && visited <= universe
    requires next == Step(b, frontier) - visited && visited1 == visited + next && k1 == k + 1
    ensures Layered(b, from, k1, visited1, next)
    ensures visited1 <= universe
    ensures |universe - visited1| == |universe - visited| - |next|
  {
    NextLayer(b, from, k, frontier);
    StepInCells(b, frontier);
    CardinalityOfDifference(universe - visited, next);
    assert universe - visited1 == (universe - visited) - next;
  }

  lemma NoGrowth(b: Board, from: Point, k: nat)
    requires k > 0 && Within(b, from, k) <= Within(b, from, k - 1)
    ensures Within(b, from, k) == Within(b, from, k - 1)
  {
    WithinMonotone(b, from, k - 1, k);
  }

  /** An empty frontier means the last round added nothing. */
  lemma EmptyFrontier(b: Board, from: Point, k: nat, visited: set<Point>)
    requires Layered(b, from, k, visited, {})
    ensures k > 0 && Within(b, from, k) <= Within(b, from, k - 1)
  {
    assert from in Within(b, from, 0);
    forall q | q in Within(b, from, k)
      ensures q in Within(b, from, k - 1)
    {
      assert q !in visited - Within(b, from, k - 1);
    }
  }

  /** A round that adds nothing means no later layer adds anything. */
  lemma {:induction false} LayersExhausted(b: Board, from: Point, k: nat, visited: set<Point>, to: Point)
    requires Layered(b, from, k, visited, {})
    requires to !in visited
    ensures Unreachable(b, from, to)
  {
    EmptyFrontier(b, from, k, visited);
    NoGrowth(b, from, k);
    forall j: nat
      ensures to !in Within(b, from, j)
    {
      if j < k {
        WithinMonotone(b, from, j, k);
      } else {
        Stable(b, from, k, j);
      }
    }
  }

  /** The first layer that holds `to` gives the shortest distance. */
  lemma {:induction false} FirstLayerIsShortest(b: Board, from: Point, k: nat, frontier: set<Point>, to: Point)
    requires k > 0 && Layered(b, from, k, Within(b, from, k), frontier) && to in frontier
    ensures IsShortest(b, from, to, k) && !Unreachable(b, from, to)
  {
    forall j: nat | j < k
      ensures to !in Within(b, from, j)
    {
      WithinMonotone(b, from, j, k - 1);
    }
  }

  /**
   * `shortest_distance` (with `shortest_distance_reccsive`): the length of
   * a shortest walk from `from` to `to` along allowed steps, or -1 when no
   * walk reaches `to`. Searched breadth-first, layer by layer.
   */
  method ShortestDistance(b: Board, from: Point, to: Point) returns (r: int)
    ensures r >= -1
    ensures r >= 0 ==> IsShortest(b, from, to, r)
    ensures r == -1 <==> Unreachable(b, from, to)
  {
    if from == to {
      assert to in Within(b, from, 0);
      return 0;
    }
    ghost var universe := Cells(b) + {from};
    var visited := {from};
    var frontier := {from};
    var k: nat := 0;
    while frontier != {}
      invariant Layered(b, from, k, visited, frontier)
      invariant visited <= universe
      invariant to !in visited
      decreases |universe - visited| + |frontier|
    {
      var next := Step(b, frontier) - visited;
      ghost var visited0, frontier0, k0 := visited, frontier, k;
      visited := visited + next;
      k := k + 1;
      frontier := next;
      LayerRound(b, from, universe, k0, visited0, frontier0, k, visited, next);
      if to in next {
        FirstLayerIsShortest(b, from, k, frontier, to);
        return k;
      }
    }
    LayersExhausted(b, from, k, visited, to);
    return -1;
  }

  /** `c` is reached from `from` by some number of allowed steps. */
  ghost predicate Reachable(b: Board, from: Point, c: Point)
  {
    exists k: nat :: c in Within(b, from, k)
  }

  lemma ReachableStep(b: Board, from: Point, c: Point, d: Direction)
    requires Reachable(b, from, c) && b.CanMoveFrom(c, d)
    ensures Reachable(b, from, c.ShiftDirection(d))
  {
    var k: nat :| c in Within(b, from, k);
    StepMember(b, Within(b, from, k), c, d);
    assert c.ShiftDirection(d) in Within(b, from, k + 1);
  }

  /**
   * The work list of `is_path`: `seen` is the set of searched cells, and
   * every searched or queued cell is a reachable board cell.
   */
  ghost predicate WorkList(b: Board, from: Point, universe: set<Point>, seen: set<Point>, searched: seq<Point>, toSearch: seq<Point>)
  {
    (forall c :: c in seen <==> c in searched) &&
    seen <= universe &&
    (forall c :: c in seen ==> Reachable(b, from, c)) &&
    (forall c :: c in toSearch ==> c in universe && Reachable(b, from, c))
  }

  /**
   * No searched cell has an allowed step to a cell satisfying `target`,
   * and every allowed step from a searched cell leads to a searched or
   * queued cell.
   */
  ghost predicate Closed(b: Board, target: Point -> bool, seen: set<Point>, toSearch: seq<Point>)
  {
    forall c, d :: c in seen && b.CanMoveFrom(c, d) ==>
      !target(c.ShiftDirection(d)) && (c.ShiftDirection(d) in seen || c.ShiftDirection(d) in toSearch)
  }

  /**
   * The inner loop of `is_path` for the cell `current`: each allowed
   * neighbour, in the order Up, Right, Left, Down, is put at the front of
   * the work list unless already searched, and the scan stops at the first
   * neighbour that satisfies `target`.
   */
  method SearchNeighbours(b: Board, current: Point, target: Point -> bool, searched: seq<Point>, toSearch: seq<Point>)
    returns (found: bool, queued: seq<Point>)
    ensures found <==> exists d :: b.CanMoveFrom(current, d) && target(current.ShiftDirection(d))
    ensures forall x :: x in toSearch ==> x in queued
    ensures forall x :: x in queued && x !in toSearch ==>
      x !in searched && exists d :: b.CanMoveFrom(current, d) && x == current.ShiftDirection(d)
    ensures !found ==> forall d :: b.CanMoveFrom(current, d) ==>
      current.ShiftDirection(d) in searched || current.ShiftDirection(d) in queued
  {
    queued := toSearch;
    found := false;
    var directions := [Up, Right, Left, Down];
    ghost var hit := Up;
    for i := 0 to 4
      invariant !found
      invariant forall x :: x in toSearch ==> x in queued
      invariant forall x :: x in queued && x !in toSearch ==>
        x !in searched && exists d :: b.CanMoveFrom(current, d) && x == current.ShiftDirection(d)
      invariant forall j :: 0 <= j < i && b.CanMoveFrom(current, directions[j]) ==>
        !target(current.ShiftDirection(directions[j])) &&
        (current.ShiftDirection(directions[j]) in searched || current.ShiftDirection(directions[j]) in queued)
    {
      var direction := directions[i];
      var oneStep := current.ShiftDirection(direction);
      if b.CanMoveFrom(current, direction) {
        if oneStep !in searched {
          queued := [oneStep] + queued;
        }
        if target(oneStep) {
          found := true;
          hit := direction;
          break;
        }
      }
    }
    if !found {
      forall d | b.CanMoveFrom(current, d)
        ensures !target(current.ShiftDirection(d)) &&
          (current.ShiftDirection(d) in searched || current.ShiftDirection(d) in queued)
      {
        assert d == directions[0] || d == directions[1] || d == directions[2] || d == directions[3];
      }
    }
  }

  /** Passing over a cell that was already searched keeps the work list closed. */
  lemma SkipSearched(b: Board, from: Point, universe: set<Point>, target: Point -> bool, seen: set<Point>, searched: seq<Point>,
                     toSearch: seq<Point>, current: Point, rest: seq<Point>)
    requires toSearch == rest + [current] && current in searched
    requires WorkList(b, from, universe, seen, searched, toSearch)
    requires (from in seen || from in toSearch) && Closed(b, target, seen, toSearch)
    ensures WorkList(b, from, universe, seen, searched, rest)
    ensures (from in seen || from in rest) && Closed(b, target, seen, rest)
  {
    forall c | c in rest
      ensures c in toSearch
    {
    }
    forall c | c in toSearch && c != current
      ensures c in rest
    {
    }
  }

  /** Searching a new cell keeps every searched and queued cell a reachable board cell. */
  lemma SearchedCell(b: Board, from: Point, universe: set<Point>, seen: set<Point>, searched: seq<Point>,
                     toSearch: seq<Point>, current: Point, rest: seq<Point>, queued: seq<Point>)
    requires universe == Cells(b) + {from}
    requires toSearch == rest + [current]
    requires WorkList(b, from, universe, seen, searched, toSearch)
    requires forall x :: x in rest ==> x in queued
    requires forall x :: x in queued && x !in rest ==>
      exists d :: b.CanMoveFrom(current, d) && x == current.ShiftDirection(d)
    ensures WorkList(b, from, universe, seen + {current}, searched + [current], queued)
    ensures from in seen || from in toSearch ==> from in seen + {current} || from in queued
  {
    assert current in toSearch;
    forall x | x in queued
      ensures x in universe && Reachable(b, from, x)
    {
      if x !in rest {
        var d :| b.CanMoveFrom(current, d) && x == current.ShiftDirection(d);
        ReachableStep(b, from, current, d);
        CellsHoldContained(b, x);
      } else {
        assert x in toSearch;
      }
    }
    forall c | c in toSearch && c != current
      ensures c in queued
    {
      assert c in rest;
    }
  }

  /** Searching a new cell none of whose neighbours matches keeps the work list closed. */
  lemma SearchedCellClosed(b: Board, target: Point -> bool, seen: set<Point>, searched: seq<Point>,
                           toSearch: seq<Point>, current: Point, rest: seq<Point>, queued: seq<Point>)
    requires toSearch == rest + [current]
    requires forall c :: c in seen <==> c in searched
    requires Closed(b, target, seen, toSearch)
    requires forall x :: x in rest ==> x in queued
    requires forall d :: b.CanMoveFrom(current, d) ==>
      !target(current.ShiftDirection(d)) &&
      (current.ShiftDirection(d) in searched + [current] || current.ShiftDirection(d) in queued)
    ensures Closed(b, target, seen + {current}, queued)
  {
    forall c | c in toSearch && c != current
      ensures c in queued
    {
      assert c in rest;
    }
  }

  /** A reachable cell with a matching neighbour means the target is reached. */
  lemma MatchingNeighbour(b: Board, from: Point, target: Point -> bool, current: Point)
    requires Reachable(b, from, current)
    requires exists d :: b.CanMoveFrom(current, d) && target(current.ShiftDirection(d))
    ensures ReachesTarget(b, from, target)
  {
    var d :| b.CanMoveFrom(current, d) && target(current.ShiftDirection(d));
    var k: nat :| current in Within(b, from, k);
    StepMember(b, Within(b, from, k), current, d);
  }

  /** When the work list is closed and holds nothing, no reachable cell has a matching neighbour. */
  lemma ClosedSearch(b: Board, from: Point, target: Point -> bool, seen: set<Point>)
    requires from in seen && Closed(b, target, seen, [])
    ensures !ReachesTarget(b, from, target)
  {
    forall k: nat, q | q in Step(b, Within(b, from, k))
      ensures !target(q)
    {
      ClosedRegion(b, from, c => c in seen, k);
    }
  }

  /**
   * `is_path`: a breadth-first work list from `from`. Each cell taken from
   * the end of the list is recorded as searched and its neighbours are
   * scanned; the search stops as soon as a neighbour satisfies `target`.
   * The start cell is never itself tested.
   */
  method IsPath(b: Board, from: Point, target: Point -> bool) returns (result: bool)
    ensures result <==> ReachesTarget(b, from, target)
  {
    var toSearch: seq<Point> := [from];
    var searched: seq<Point> := [];
    result := false;
    ghost var universe := Cells(b) + {from};
    ghost var seen: set<Point> := {};
    assert from in Within(b, from, 0);
    while toSearch != [] && !result
      invariant WorkList(b, from, universe, seen, searched, toSearch)
      invariant from in seen || from in toSearch
      invariant result ==> ReachesTarget(b, from, target)
      invariant !result ==> Closed(b, target, seen, toSearch)
      decreases |universe - seen|, |toSearch|
    {
      ghost var toSearch0 := toSearch;
      SplitLast(toSearch);
      var current := toSearch[|toSearch| - 1];
      toSearch := toSearch[..|toSearch| - 1];
      if current in searched {
        SkipSearched(b, from, universe, target, seen, searched, toSearch0, current, toSearch);
        continue;
      }
      ghost var seen0, searched0 := seen, searched;
      searched := searched + [current];
      seen := seen + {current};
      var found, queued := SearchNeighbours(b, current, target, searched, toSearch);
      SearchedCell(b, from, universe, seen0, searched0, toSearch0, current, toSearch, queued);
      if found {
        result := true;
        MatchingNeighbour(b, from, target, current);
      } else {
        SearchedCellClosed(b, target, seen0, searched0, toSearch0, current, toSearch, queued);
      }
      toSearch := queued;
    }
    if !result {
      ClosedSearch(b, from, target, seen);
    }
  }
}
