/**
 * Path planning on the occupancy grid of
 * unity_amr_nav/unity_amr_nav/advanced_navigation.py: A* over 8-connected
 * cells, path reconstruction, line-of-sight tests and path smoothing.
 * `occupancy_grid[y][x]` is `grid[y, x]`.
 */
module NavPlanner {
  import opened Options
  import opened RealMath
  import opened NavGeometry

  predicate GridShape(grid: array2<int>)
  {
    grid.Length0 == MAP_HEIGHT && grid.Length1 == MAP_WIDTH
  }

  /** An in-bounds cell whose entry is 0: what get_neighbors admits. */
  predicate Free(grid: array2<int>, c: Cell)
    requires GridShape(grid)
    reads grid
  {
    InBounds(c) && grid[c.1, c.0] == 0
  }

  /** An in-bounds cell whose entry is 1: what the start/goal and line checks refuse. */
  predicate Occupied(grid: array2<int>, c: Cell)
    requires GridShape(grid)
    reads grid
  {
    InBounds(c) && grid[c.1, c.0] == 1
  }

  /** The eight moves, in the order get_neighbors tries them. */
  const DIRECTIONS: seq<Cell> := [(-1, 0), (1, 0), (0, -1), (0, 1), (-1, -1), (-1, 1), (1, -1), (1, 1)]

  /** The free cells reached by the first `k` moves from `pos`, in order. */
  function NeighborsUpTo(grid: array2<int>, pos: Cell, k: nat): seq<Cell>
    requires GridShape(grid) && k <= 8
    reads grid
  {
    if k == 0 then []
    else
      var n := (pos.0 + DIRECTIONS[k - 1].0, pos.1 + DIRECTIONS[k - 1].1);
      NeighborsUpTo(grid, pos, k - 1) + (if Free(grid, n) then [n] else [])
  }

  /** get_neighbors' result. */
  function Neighbors(grid: array2<int>, pos: Cell): seq<Cell>
    requires GridShape(grid)
    reads grid
  {
    NeighborsUpTo(grid, pos, 8)
  }

  lemma {:induction false} NeighborsUpToContents(grid: array2<int>, pos: Cell, k: nat, n: Cell)
    requires GridShape(grid) && k <= 8
    ensures n in NeighborsUpTo(grid, pos, k) <==>
      Free(grid, n) && exists d :: 0 <= d < k && n == (pos.0 + DIRECTIONS[d].0, pos.1 + DIRECTIONS[d].1)
  {
    if k > 0 {
      NeighborsUpToContents(grid, pos, k - 1, n);
    }
  }

  /** The neighbours are exactly the free cells adjacent to `pos`. */
  lemma NeighborsExactly(grid: array2<int>, pos: Cell, n: Cell)
    requires GridShape(grid)
    ensures n in Neighbors(grid, pos) <==> Adjacent(pos, n) && Free(grid, n)
  {
    NeighborsUpToContents(grid, pos, 8, n);
    if Adjacent(pos, n) {
      var dx, dy := n.0 - pos.0, n.1 - pos.1;
      var d := if (dx, dy) == (-1, 0) then 0 else if (dx, dy) == (1, 0) then 1
        else if (dx, dy) == (0, -1) then 2 else if (dx, dy) == (0, 1) then 3
        else if (dx, dy) == (-1, -1) then 4 else if (dx, dy) == (-1, 1) then 5
        else if (dx, dy) == (1, -1) then 6 else 7;
      assert n == (pos.0 + DIRECTIONS[d].0, pos.1 + DIRECTIONS[d].1);
    }
  }

  /** get_neighbors. */
  method GetNeighbors(grid: array2<int>, pos: Cell) returns (neighbors: seq<Cell>)
    requires GridShape(grid)
    ensures neighbors == Neighbors(grid, pos)
    ensures forall n :: n in neighbors <==> Adjacent(pos, n) && Free(grid, n)
  {
    neighbors := [];
    var k := 0;
    while k < |DIRECTIONS|
      invariant 0 <= k <= 8
      invariant neighbors == NeighborsUpTo(grid, pos, k)
    {
      var (dx, dy) := DIRECTIONS[k];
      var nx, ny := pos.0 + dx, pos.1 + dy;
      if 0 <= nx < MAP_WIDTH && 0 <= ny < MAP_HEIGHT && grid[ny, nx] == 0 {
        neighbors := neighbors + [(nx, ny)];
      }
      k := k + 1;
    }
    forall n ensures n in neighbors <==> Adjacent(pos, n) && Free(grid, n) {
      NeighborsExactly(grid, pos, n);
    }
  }

  // ---------------------------------------------------------------------
  // A*
  // ---------------------------------------------------------------------

  /** An open-set entry: (f_score, cell), compared as a Python tuple. */
  type Entry = (real, Cell)

  predicate EntryLess(a: Entry, b: Entry)
  {
    a.0 < b.0 || (a.0 == b.0 && (a.1.0 < b.1.0 || (a.1.0 == b.1.0 && a.1.1 < b.1.1)))
  }

  /**
   * heapq.heappop: remove and return the smallest entry. The heap is kept
   * as the multiset of its entries; its internal order is not modelled.
   */
  method PopMin(open: seq<Entry>) returns (e: Entry, rest: seq<Entry>)
    requires |open| > 0
    ensures e in open && multiset(open) == multiset(rest) + multiset{e}
    ensures forall k :: 0 <= k < |open| ==> !EntryLess(open[k], e)
    ensures forall x :: x in rest ==> x in open
  {
    var m := 0;
    var i := 1;
    while i < |open|
      invariant 0 <= m < |open| && 1 <= i <= |open|
      invariant forall k :: 0 <= k < i ==> !EntryLess(open[k], open[m])
    {
      if EntryLess(open[i], open[m]) {
        m := i;
      }
      i := i + 1;
    }
    e := open[m];
    rest := open[..m] + open[m + 1..];
    assert open == open[..m] + [e] + open[m + 1..];
  }

  /**
   * What the search keeps true: the start has g = 0 and no parent, every
   * other reached cell is a free cell whose parent is an adjacent reached
   * cell with a strictly smaller g, every g is non-negative and every cell
   * in the open set has been reached.
   */
  ghost predicate SearchInvariant(grid: array2<int>, start: Cell, g: map<Cell, real>,
                                  came: map<Cell, Cell>, open: seq<Entry>)
    requires GridShape(grid)
    reads grid
  {
    && InBounds(start)
    && start in g && g[start] == 0.0 && start !in came
    && g.Keys == came.Keys + {start}
    && (forall n :: n in came ==> came[n] in g && Adjacent(came[n], n) && Free(grid, n) && g[came[n]] < g[n])
    && (forall n :: n in g ==> g[n] >= 0.0)
    && (forall k :: 0 <= k < |open| ==> open[k].1 in g)
  }

  /** Lowering a neighbour's g through `current` keeps the search invariant. */
  lemma RelaxStep(grid: array2<int>, start: Cell, g: map<Cell, real>, came: map<Cell, Cell>,
                  open: seq<Entry>, current: Cell, n: Cell, t: real, fv: real)
    requires GridShape(grid) && SearchInvariant(grid, start, g, came, open)
    requires current in g && Adjacent(current, n) && Free(grid, n) && t > g[current]
    requires n !in g || t < g[n]
    ensures n != start
    ensures SearchInvariant(grid, start, g[n := t], came[n := current], open + [(fv, n)])
  {
    var g', came', open' := g[n := t], came[n := current], open + [(fv, n)];
    forall m | m in came'
      ensures came'[m] in g' && Adjacent(came'[m], m) && Free(grid, m) && g'[came'[m]] < g'[m]
    {
      if m != n {
        assert came'[m] == came[m];
      }
    }
    forall k | 0 <= k < |open'| ensures open'[k].1 in g' {
      if k < |open| {
        assert open'[k] == open[k];
      }
    }
  }

  /**
   * The `for neighbor in get_neighbors(current)` loop: relax each neighbour
   * through `current` and push it when its g_score drops.
   */
  method Relax(grid: array2<int>, trig: Trig, goal: Cell, current: Cell, neighbors: seq<Cell>,
               start: Cell, g0: map<Cell, real>, came0: map<Cell, Cell>, f0: map<Cell, real>,
               open0: seq<Entry>)
    returns (g: map<Cell, real>, came: map<Cell, Cell>, f: map<Cell, real>, open: seq<Entry>)
    requires GridShape(grid) && trig.sqrt(2.0) > 0.0
    requires SearchInvariant(grid, start, g0, came0, open0) && current in g0
    requires forall n :: n in neighbors ==> Adjacent(current, n) && Free(grid, n)
    ensures SearchInvariant(grid, start, g, came, open)
    ensures forall c :: c in g0 ==> c in g && g[c] <= g0[c]
    ensures g[current] == g0[current]
    ensures |open| >= |open0| && open[..|open0|] == open0
    ensures forall k :: |open0| <= k < |open| ==> Adjacent(current, open[k].1) && Free(grid, open[k].1)
  {
    g, came, f, open := g0, came0, f0, open0;
    var i := 0;
    while i < |neighbors|
      invariant 0 <= i <= |neighbors|
      invariant SearchInvariant(grid, start, g, came, open)
      invariant forall c :: c in g0 ==> c in g && g[c] <= g0[c]
      invariant current in g && g[current] == g0[current]
      invariant |open| >= |open0| && open[..|open0|] == open0
      invariant forall k :: |open0| <= k < |open| ==> Adjacent(current, open[k].1) && Free(grid, open[k].1)
    {
      var neighbor := neighbors[i];
      var cost := StepCost(trig, current, neighbor);
      var tentative := g[current] + cost;
      if neighbor !in g || tentative < g[neighbor] {
        RelaxStep(grid, start, g, came, open, current, neighbor, tentative,
                  tentative + Heuristic(trig, neighbor, goal));
        came := came[neighbor := current];
        g := g[neighbor := tentative];
        f := f[neighbor := tentative + Heuristic(trig, neighbor, goal)];
        open := open + [(f[neighbor], neighbor)];
      }
      i := i + 1;
    }
  }

  /** list.reverse(). */
  function Reverse<T>(s: seq<T>): (r: seq<T>)
    ensures |r| == |s| && forall k :: 0 <= k < |s| ==> r[k] == s[|s| - 1 - k]
  {
    if s == [] then [] else Reverse(s[1..]) + [s[0]]
  }

  /** The world points of a run of cells. */
  function WorldPoints(cells: seq<Cell>): (ps: seq<Point>)
    ensures |ps| == |cells| && forall k :: 0 <= k < |cells| ==> ps[k] == GridToWorld(cells[k])
  {
    if cells == [] then [] else WorldPoints(cells[..|cells| - 1]) + [GridToWorld(cells[|cells| - 1])]
  }

  /** A run of cells from `a` to `b` in which each cell touches the next. */
  ghost predicate CellPath(grid: array2<int>, cells: seq<Cell>, a: Cell, b: Cell)
    requires GridShape(grid)
    reads grid
  {
    && |cells| >= 1 && cells[0] == a && cells[|cells| - 1] == b
    && (forall k :: 0 <= k < |cells| - 1 ==> Adjacent(cells[k], cells[k + 1]))
    && (forall k :: 0 < k < |cells| ==> Free(grid, cells[k]))
  }

  /** The cells whose g is below that of `n`: the walk back along came_from shrinks it. */
  ghost function Below(g: map<Cell, real>, n: Cell): set<Cell>
    requires n in g
  {
    set m | m in g.Keys && g[m] < g[n]
  }

  /** A cell's parent is cheaper, so fewer cells lie below it. */
  lemma ParentBelow(grid: array2<int>, start: Cell, g: map<Cell, real>, came: map<Cell, Cell>,
                    open: seq<Entry>, n: Cell)
    requires GridShape(grid) && SearchInvariant(grid, start, g, came, open) && n in came
    ensures came[n] in g && Adjacent(came[n], n) && Free(grid, n)
    ensures Below(g, came[n]) < Below(g, n)
  {
    var p := came[n];
    assert p in Below(g, n) && p !in Below(g, p);
  }

  /**
   * A goal-first walk `back` whose cells each touch the next, whose cells are
   * free and which ends at `start`, reversed, is a path from `start` to `goal`.
   */
  lemma ReversedWalk(grid: array2<int>, back: seq<Cell>, start: Cell, goal: Cell)
    requires GridShape(grid) && |back| >= 1 && back[0] == goal && back[|back| - 1] == start
    requires forall k :: 0 <= k < |back| - 1 ==> Adjacent(back[k + 1], back[k])
    requires forall k :: 0 <= k < |back| - 1 ==> Free(grid, back[k])
    ensures CellPath(grid, Reverse(back), start, goal)
  {
    var cells := Reverse(back);
    forall k | 0 <= k < |cells| - 1
      ensures Adjacent(cells[k], cells[k + 1])
    {
      assert cells[k] == back[|back| - 1 - k] && cells[k + 1] == back[|back| - 2 - k];
    }
  }

  /** Mapping cells to points commutes with reversal. */
  lemma ReverseWorldPoints(cells: seq<Cell>)
    ensures Reverse(WorldPoints(cells)) == WorldPoints(Reverse(cells))
  {
  }

  /** Walk came_from back from the goal, add the start, and reverse. */
  method Reconstruct(grid: array2<int>, start: Cell, goal: Cell, g: map<Cell, real>,
                     came: map<Cell, Cell>, open: seq<Entry>)
    returns (path: seq<Point>, ghost cells: seq<Cell>)
    requires GridShape(grid) && SearchInvariant(grid, start, g, came, open) && goal in g
    ensures CellPath(grid, cells, start, goal)
    ensures path == WorldPoints(cells)
    ensures goal == start ==> cells == [start]
  {
    path := [];
    ghost var back: seq<Cell> := [];
    var current := goal;
    while current in came
      invariant current in g
      invariant path == WorldPoints(back)
      invariant |back| == 0 ==> current == goal
      invariant goal == start ==> back == []
      invariant |back| > 0 ==> back[0] == goal && Adjacent(current, back[|back| - 1])
      invariant forall k :: 0 <= k < |back| - 1 ==> Adjacent(back[k + 1], back[k])
      invariant forall k :: 0 <= k < |back| ==> Free(grid, back[k])
      decreases Below(g, current)
    {
      ParentBelow(grid, start, g, came, open, current);
      path := path + [GridToWorld(current)];
      back := back + [current];
      current := came[current];
    }
    assert current == start;
    path := path + [GridToWorld(start)];
    back := back + [start];
    ReversedWalk(grid, back, start, goal);
    ReverseWorldPoints(back);
    path := Reverse(path);
    cells := Reverse(back);
  }

  // ---------------------------------------------------------------------
  // Line of sight and smoothing
  // ---------------------------------------------------------------------

  /** The number of sampling steps along a segment: int(length / resolution). */
  function Steps(trig: Trig, a: Point, b: Point): int
  {
    Trunc(Dist(trig, b, a) / GRID_RESOLUTION)
  }

  /** Sample `i` of `steps`: the point a fraction i/steps of the way from `a` to `b`. */
  function Sample(a: Point, b: Point, i: int, steps: int): Point
    requires steps != 0
  {
    var t := i as real / steps as real;
    (a.0 + t * (b.0 - a.0), a.1 + t * (b.1 - a.1))
  }

  /** The sample falls on an in-bounds cell that is not marked 1. */
  predicate SampleClear(grid: array2<int>, a: Point, b: Point, i: int, steps: int)
    requires GridShape(grid) && steps != 0
    reads grid
  {
    var c := WorldToGrid(Sample(a, b, i, steps));
    InBounds(c) && grid[c.1, c.0] != 1
  }

  /** is_line_clear's answer: a segment shorter than one step, or all of its samples clear. */
  predicate LineClear(grid: array2<int>, trig: Trig, a: Point, b: Point)
    requires GridShape(grid)
    reads grid
  {
    var steps := Steps(trig, a, b);
    steps == 0 || forall i :: 0 <= i <= steps ==> SampleClear(grid, a, b, i, steps)
  }

  /** The first sample is the start and the last sample the end of the segment. */
  lemma SampleEnds(a: Point, b: Point, steps: int)
    requires steps != 0
    ensures Sample(a, b, 0, steps) == a && Sample(a, b, steps, steps) == b
  {
    var r := steps as real;
    assert r / r == 1.0;
  }

  /** A clear segment of at least one step starts and ends on in-bounds cells that are not marked 1. */
  lemma LineClearEnds(grid: array2<int>, trig: Trig, a: Point, b: Point)
    requires GridShape(grid) && Steps(trig, a, b) > 0 && LineClear(grid, trig, a, b)
    ensures InBounds(WorldToGrid(a)) && !Occupied(grid, WorldToGrid(a))
    ensures InBounds(WorldToGrid(b)) && !Occupied(grid, WorldToGrid(b))
  {
    var steps := Steps(trig, a, b);
    SampleEnds(a, b, steps);
    assert SampleClear(grid, a, b, 0, steps);
    assert SampleClear(grid, a, b, steps, steps);
  }

  /** is_line_clear. */
  method IsLineClear(grid: array2<int>, trig: Trig, start: Point, end: Point) returns (clear: bool)
    requires GridShape(grid)
    ensures clear == LineClear(grid, trig, start, end)
  {
    var steps := Trunc(Dist(trig, end, start) / GRID_RESOLUTION);
    if steps == 0 {
      return true;
    }
    var i := 0;
    while i < steps + 1
      invariant 0 <= i && (steps >= 0 ==> i <= steps + 1)
      invariant forall k :: 0 <= k < i ==> SampleClear(grid, start, end, k, steps)
    {
      var cell := WorldToGrid(Sample(start, end, i, steps));
      var gridX, gridY := cell.0, cell.1;
      if !(0 <= gridX < MAP_WIDTH && 0 <= gridY < MAP_HEIGHT) || grid[gridY, gridX] == 1 {
        assert !SampleClear(grid, start, end, i, steps);
        return false;
      }
      i := i + 1;
    }
    return true;
  }

  /**
   * The output of smooth_path as a selection from its input: `idx` lists the
   * input positions kept, in increasing order.
   */
  ghost predicate Selection(path: seq<Point>, smoothed: seq<Point>, idx: seq<int>)
  {
    && |idx| == |smoothed|
    && (forall k :: 0 <= k < |idx| ==> 0 <= idx[k] < |path| && smoothed[k] == path[idx[k]])
    && (forall k :: 0 <= k < |idx| - 1 ==> idx[k] < idx[k + 1])
  }

  /**
   * What smooth_path promises: it keeps a selection of the points, among them
   * the first and the last; paths of at most two points come back as they
   * are; and two kept points that were not neighbours in the input are in
   * sight of each other.
   */
  ghost predicate Smoothed(grid: array2<int>, trig: Trig, path: seq<Point>, smoothed: seq<Point>, idx: seq<int>)
    requires GridShape(grid)
    reads grid
  {
    && Selection(path, smoothed, idx) && |smoothed| <= |path|
    && (|path| > 0 ==> |smoothed| > 0 && smoothed[0] == path[0] && smoothed[|smoothed| - 1] == path[|path| - 1])
    && (|path| <= 2 ==> smoothed == path)
    && (forall k :: 0 <= k < |idx| - 1 ==>
         idx[k + 1] == idx[k] + 1 || LineClear(grid, trig, smoothed[k], smoothed[k + 1]))
  }

  /**
   * smooth_path: from the last kept point, skip ahead to the furthest point
   * reachable through consecutive clear segments; the next point is kept
   * even when it is not in sight.
   */
  method SmoothPath(grid: array2<int>, trig: Trig, path: seq<Point>)
    returns (smoothed: seq<Point>, ghost idx: seq<int>)
    requires GridShape(grid)
    ensures Smoothed(grid, trig, path, smoothed, idx)
  {
    if |path| <= 2 {
      idx := if |path| == 0 then [] else if |path| == 1 then [0] else [0, 1];
      return path, idx;
    }
    smoothed := [path[0]];
    idx := [0];
    var i := 0;
    while i < |path| - 1
      invariant 0 <= i <= |path| - 1
      invariant Selection(path, smoothed, idx) && 1 <= |smoothed| <= i + 1
      invariant idx[0] == 0 && idx[|idx| - 1] == i
      invariant forall k :: 0 <= k < |idx| - 1 ==>
        idx[k + 1] == idx[k] + 1 || LineClear(grid, trig, smoothed[k], smoothed[k + 1])
      decreases |path| - i
    {
      var j := i + 1;
      var lastValidJ := j;
      while j < |path|
        invariant i + 1 <= lastValidJ < |path| && lastValidJ <= j <= |path|
        invariant lastValidJ == i + 1 || LineClear(grid, trig, smoothed[|smoothed| - 1], path[lastValidJ])
        decreases |path| - j
      {
        var clear := IsLineClear(grid, trig, smoothed[|smoothed| - 1], path[j]);
        if clear {
          lastValidJ := j;
          j := j + 1;
        } else {
          break;
        }
      }
      smoothed := smoothed + [path[lastValidJ]];
      idx := idx + [lastValidJ];
      i := lastValidJ;
    }
  }

  // ---------------------------------------------------------------------
  // A*
  // ---------------------------------------------------------------------

  /** Why plan_path_astar returns None. */
  datatype PlanError =
    | StartOutOfBounds
    | GoalOutOfBounds
    | StartOccupied
    | GoalOccupied
    | NoPathFound
    | SearchBudgetExhausted

  /** The goal branch of plan_path_astar: reconstruct the path, then smooth it. */
  method FinishPath(grid: array2<int>, trig: Trig, start: Cell, goal: Cell, g: map<Cell, real>,
                    came: map<Cell, Cell>, open: seq<Entry>)
    returns (smoothed: seq<Point>, ghost cells: seq<Cell>, ghost idx: seq<int>)
    requires GridShape(grid) && SearchInvariant(grid, start, g, came, open) && goal in g
    ensures CellPath(grid, cells, start, goal)
    ensures Smoothed(grid, trig, WorldPoints(cells), smoothed, idx)
    ensures |smoothed| > 0 && smoothed[0] == GridToWorld(start) && smoothed[|smoothed| - 1] == GridToWorld(goal)
    ensures goal == start ==> smoothed == [GridToWorld(start)]
  {
    var path;
    path, cells := Reconstruct(grid, start, goal, g, came, open);
    assert goal == start ==> |path| == 1 && path[0] == GridToWorld(start);
    smoothed, idx := SmoothPath(grid, trig, path);
  }

  /** One of the pre-checks of plan_path_astar fails: a start or goal cell off the map or marked 1. */
  predicate Blocked(grid: array2<int>, sg: Cell, gg: Cell)
    requires GridShape(grid)
    reads grid
  {
    !InBounds(sg) || !InBounds(gg) || Occupied(grid, sg) || Occupied(grid, gg)
  }

  /**
   * plan_path_astar: reject a start or goal off the map or on an obstacle,
   * then run A* from the start cell (pushed with priority 0) and return the
   * smoothed path of cell corners.  At most `fuel` entries are popped.
   */
  method PlanPathAStar(grid: array2<int>, trig: Trig, start: Point, goal: Point, fuel: nat)
    returns (r: Result<seq<Point>, PlanError>, ghost cells: seq<Cell>, ghost idx: seq<int>)
    requires GridShape(grid) && trig.sqrt(2.0) > 0.0
    ensures var sg, gg := WorldToGrid(start), WorldToGrid(goal);
      && (r == Err(StartOutOfBounds) <==> !InBounds(sg))
      && (r == Err(GoalOutOfBounds) <==> InBounds(sg) && !InBounds(gg))
      && (r == Err(StartOccupied) <==> InBounds(sg) && InBounds(gg) && Occupied(grid, sg))
      && (r == Err(GoalOccupied) <==> InBounds(sg) && InBounds(gg) && !Occupied(grid, sg) && Occupied(grid, gg))
      && (Blocked(grid, sg, gg) ==> r.Err?)
    ensures var sg, gg := WorldToGrid(start), WorldToGrid(goal);
      r.Ok? ==>
        && CellPath(grid, cells, sg, gg)
        && Smoothed(grid, trig, WorldPoints(cells), r.value, idx)
        && |r.value| > 0 && r.value[0] == GridToWorld(sg) && r.value[|r.value| - 1] == GridToWorld(gg)
    ensures var sg, gg := WorldToGrid(start), WorldToGrid(goal);
      fuel > 0 && InBounds(sg) && !Occupied(grid, sg) && gg == sg ==> r == Ok([GridToWorld(sg)])
  {
    var startGrid := WorldToGrid(start);
    var goalGrid := WorldToGrid(goal);
    cells, idx := [], [];
    if !(0 <= startGrid.0 < MAP_WIDTH && 0 <= startGrid.1 < MAP_HEIGHT) {
      return Err(StartOutOfBounds), cells, idx;
    }
    if !(0 <= goalGrid.0 < MAP_WIDTH && 0 <= goalGrid.1 < MAP_HEIGHT) {
      return Err(GoalOutOfBounds), cells, idx;
    }
    if grid[startGrid.1, startGrid.0] == 1 {
      return Err(StartOccupied), cells, idx;
    }
    if grid[goalGrid.1, goalGrid.0] == 1 {
      return Err(GoalOccupied), cells, idx;
    }

    var open: seq<Entry> := [(0.0, startGrid)];
    var came: map<Cell, Cell> := map[];
    var g: map<Cell, real> := map[startGrid := 0.0];
    var f: map<Cell, real> := map[startGrid := Heuristic(trig, startGrid, goalGrid)];
    var budget: nat := fuel;
    while |open| > 0
      invariant SearchInvariant(grid, startGrid, g, came, open)
      invariant budget <= fuel
      invariant budget == fuel ==> open == [(0.0, startGrid)]
      invariant startGrid == goalGrid ==> budget == fuel
      decreases budget
    {
      if budget == 0 {
        return Err(SearchBudgetExhausted), cells, idx;
      }
      budget := budget - 1;
      var entry, rest := PopMin(open);
      forall k | 0 <= k < |rest|
        ensures rest[k].1 in g
      {
        assert rest[k] in open;
      }
      open := rest;
      var current := entry.1;
      if current == goalGrid {
        var smoothed;
        smoothed, cells, idx := FinishPath(grid, trig, startGrid, goalGrid, g, came, open);
        return Ok(smoothed), cells, idx;
      }
      var neighbors := GetNeighbors(grid, current);
      g, came, f, open := Relax(grid, trig, goalGrid, current, neighbors, startGrid, g, came, f, open);
    }
    return Err(NoPathFound), cells, idx;
  }
}
