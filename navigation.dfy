/**
 * The navigation node of unity_amr_nav/unity_amr_nav/advanced_navigation.py:
 * the occupancy grid with its shelf obstacle, the goal / odometry / timer
 * callbacks and the pure-pursuit tracker that follows the planned path.
 * ROS messages become method parameters; the /cmd_vel topic is a log.
 */
module Navigation {
  import opened Options
  import opened RealMath
  import opened NavGeometry
  import opened NavPlanner

  /** The four corners of the shelf, in world coordinates. */
  const SHELF_POINTS: seq<Point> := [(0.37, 1.07), (0.03, 1.06), (0.06, 0.07), (0.36, 0.04)]

  function Xs(ps: seq<Point>): (xs: seq<real>)
    ensures |xs| == |ps| && forall k :: 0 <= k < |ps| ==> xs[k] == ps[k].0
  {
    seq(|ps|, k requires 0 <= k < |ps| => ps[k].0)
  }

  function Ys(ps: seq<Point>): (ys: seq<real>)
    ensures |ys| == |ps| && forall k :: 0 <= k < |ps| ==> ys[k] == ps[k].1
  {
    seq(|ps|, k requires 0 <= k < |ps| => ps[k].1)
  }

  /** np.arange(start, stop, step): start, start + step, ... while below stop. */
  function Arange(start: real, stop: real, step: real): (xs: seq<real>)
    requires step > 0.0
    ensures |xs| == ArangeLen(start, stop, step)
    ensures forall k :: 0 <= k < |xs| ==> xs[k] == start + k as real * step
  {
    seq(ArangeLen(start, stop, step), k => start + k as real * step)
  }

  /** The cells the shelf rasterises to: columns 33..37, rows 33..44. */
  predicate ShelfCell(c: Cell)
  {
    33 <= c.0 <= 37 && 33 <= c.1 <= 44
  }

  /** The bounding box of the shelf corners. */
  lemma ShelfBox()
    ensures SeqMin(Xs(SHELF_POINTS)) == 0.03 && SeqMax(Xs(SHELF_POINTS)) == 0.37
    ensures SeqMin(Ys(SHELF_POINTS)) == 0.04 && SeqMax(Ys(SHELF_POINTS)) == 1.07
  {
    var xs, ys := Xs(SHELF_POINTS), Ys(SHELF_POINTS);
    assert |xs| == 4 && xs[0] == 0.37 && xs[1] == 0.03 && xs[2] == 0.06 && xs[3] == 0.36;
    assert |ys| == 4 && ys[0] == 1.07 && ys[1] == 1.06 && ys[2] == 0.07 && ys[3] == 0.04;
    MinMaxOfFour(xs);
    MinMaxOfFour(ys);
  }

  /** The minimum and maximum of four numbers are among them and bound them. */
  lemma MinMaxOfFour(s: seq<real>)
    requires |s| == 4
    ensures SeqMin(s) == s[0] || SeqMin(s) == s[1] || SeqMin(s) == s[2] || SeqMin(s) == s[3]
    ensures SeqMax(s) == s[0] || SeqMax(s) == s[1] || SeqMax(s) == s[2] || SeqMax(s) == s[3]
  {
    var lo, hi := SeqMin(s), SeqMax(s);
    assert lo in s && hi in s;
    assert s == [s[0], s[1], s[2], s[3]];
  }

  /** np.arange gives 5 samples across the shelf's x range and 12 across its y range. */
  lemma ShelfSampleCounts()
    ensures ArangeLen(0.03, 0.37 + GRID_RESOLUTION, GRID_RESOLUTION) == 5
    ensures ArangeLen(0.04, 1.07 + GRID_RESOLUTION, GRID_RESOLUTION) == 12
  {
    assert (0.37 + GRID_RESOLUTION - 0.03) / GRID_RESOLUTION == 4.4;
    assert (1.07 + GRID_RESOLUTION - 0.04) / GRID_RESOLUTION == 11.3;
  }

  /** Sample (i, j) of the shelf box lands on cell (33 + i, 33 + j). */
  lemma ShelfSampleCell(i: int, j: int)
    requires 0 <= i && 0 <= j
    ensures WorldToGrid((0.03 + i as real * GRID_RESOLUTION, 0.04 + j as real * GRID_RESOLUTION)) == (33 + i, 33 + j)
  {
    var u := (0.03 + i as real * GRID_RESOLUTION - MAP_ORIGIN_X) / GRID_RESOLUTION;
    var v := (0.04 + j as real * GRID_RESOLUTION - MAP_ORIGIN_Y) / GRID_RESOLUTION;
    assert u == (33 + i) as real + 0.7;
    assert v == (33 + j) as real + 0.3;
    TruncWithin(u, 33 + i, 33 + i + 1);
    TruncWithin(v, 33 + j, 33 + j + 1);
  }

  /**
   * setup_obstacles: mark with 1 every cell hit by the grid-spaced samples
   * of the shelf's bounding box.
   */
  method SetupObstacles(grid: array2<int>)
    requires GridShape(grid)
    modifies grid
    ensures forall y, x :: 0 <= y < MAP_HEIGHT && 0 <= x < MAP_WIDTH ==>
      grid[y, x] == if ShelfCell((x, y)) then 1 else old(grid[y, x])
  {
    var minX := SeqMin(Xs(SHELF_POINTS));
    var maxX := SeqMax(Xs(SHELF_POINTS));
    var minY := SeqMin(Ys(SHELF_POINTS));
    var maxY := SeqMax(Ys(SHELF_POINTS));
    ShelfBox();
    var xs := Arange(minX, maxX + GRID_RESOLUTION, GRID_RESOLUTION);
    var ys := Arange(minY, maxY + GRID_RESOLUTION, GRID_RESOLUTION);
    ShelfSampleCounts();
    for i := 0 to |xs|
      invariant forall y, x :: 0 <= y < MAP_HEIGHT && 0 <= x < MAP_WIDTH ==>
        grid[y, x] == if 33 <= x < 33 + i && 33 <= y <= 44 then 1 else old(grid[y, x])
    {
      RasteriseColumn(grid, xs[i], ys, i);
    }
  }

  /** The inner loop of setup_obstacles: the samples of column `i` of the shelf box. */
  method RasteriseColumn(grid: array2<int>, x: real, ys: seq<real>, ghost i: int)
    requires GridShape(grid) && 0 <= i && x == 0.03 + i as real * GRID_RESOLUTION
    requires |ys| == 12 && forall k :: 0 <= k < |ys| ==> ys[k] == 0.04 + k as real * GRID_RESOLUTION
    modifies grid
    ensures forall gy, gx :: 0 <= gy < MAP_HEIGHT && 0 <= gx < MAP_WIDTH ==>
      grid[gy, gx] == if gx == 33 + i && 33 <= gy <= 44 then 1 else old(grid[gy, gx])
  {
    for j := 0 to |ys|
      invariant forall gy, gx :: 0 <= gy < MAP_HEIGHT && 0 <= gx < MAP_WIDTH ==>
        grid[gy, gx] == if gx == 33 + i && 33 <= gy < 33 + j then 1 else old(grid[gy, gx])
    {
      ShelfSampleCell(i, j);
      var (gridX, gridY) := WorldToGrid((x, ys[j]));
      if 0 <= gridX < MAP_WIDTH && 0 <= gridY < MAP_HEIGHT {
        grid[gridY, gridX] := 1;
      }
    }
  }

  // ---------------------------------------------------------------------
  // Path tracking
  // ---------------------------------------------------------------------

  /**
   * Index `i` is find_lookahead_point's answer for a path followed from
   * index `from`: the first waypoint at least `d` away, or else the last.
   */
  ghost predicate LookaheadAt(trig: Trig, path: seq<Point>, from: int, pos: Point, d: real, i: int)
  {
    && 0 <= from <= i < |path|
    && (Dist(trig, path[i], pos) >= d || i == |path| - 1)
    && forall k :: from <= k < i ==> Dist(trig, path[k], pos) < d
  }

  /**
   * The index after update_path_progress: one further when the waypoint it
   * points at is within path tolerance.
   */
  function Progressed(trig: Trig, path: seq<Point>, index: nat, pos: Point): (next: nat)
    ensures index <= next <= index + 1
    ensures next == index + 1 <==> index < |path| && Dist(trig, path[index], pos) < PATH_TOLERANCE
    ensures index <= |path| ==> next <= |path|
  {
    if index < |path| && Dist(trig, path[index], pos) < PATH_TOLERANCE then index + 1 else index
  }

  /**
   * Progress never steps past the last waypoint while that waypoint is at
   * least the goal tolerance away: path tolerance is the smaller of the two.
   */
  lemma ProgressStaysOnPath(trig: Trig, path: seq<Point>, index: nat, pos: Point)
    requires index < |path| && Dist(trig, path[|path| - 1], pos) >= GOAL_TOLERANCE
    ensures Progressed(trig, path, index, pos) < |path|
  {
    if index == |path| - 1 {
      assert Dist(trig, path[index], pos) >= PATH_TOLERANCE;
    }
  }

  /** The node: pose from odometry, the goal, the planned path and the tracker's progress. */
  class AdvancedNavigation {
    const trig: Trig
    const grid: array2<int>
    /** A* may pop at most this many entries. */
    const searchBudget: nat

    var currentX: Option<real>
    var currentY: Option<real>
    var currentYaw: real
    var currentLinearVelocity: real
    var goalX: Option<real>
    var goalY: Option<real>
    var isNavigating: bool
    var plannedPath: seq<Point>
    var currentPathIndex: nat
    /** Every Twist published on /cmd_vel, oldest first. */
    var cmdVel: seq<Twist>

    ghost predicate Valid()
      reads this
    {
      && GridShape(grid)
      && trig.sqrt(2.0) > 0.0
      && (currentX.Some? <==> currentY.Some?)
      && (isNavigating ==> currentX.Some? && currentPathIndex < |plannedPath|)
    }

    /** The robot's position; known once odometry has arrived. */
    function Position(): Point
      reads this
      requires currentX.Some? && currentY.Some?
    {
      (currentX.value, currentY.value)
    }

    constructor (trig: Trig, searchBudget: nat)
      requires trig.sqrt(2.0) > 0.0
      ensures Valid() && fresh(grid)
      ensures this.trig == trig && this.searchBudget == searchBudget
      ensures currentX.None? && currentY.None? && currentYaw == 0.0 && currentLinearVelocity == 0.0
      ensures goalX.None? && goalY.None? && !isNavigating && plannedPath == [] && currentPathIndex == 0
      ensures cmdVel == []
      ensures forall y, x :: 0 <= y < MAP_HEIGHT && 0 <= x < MAP_WIDTH ==>
        grid[y, x] == if ShelfCell((x, y)) then 1 else 0
    {
      this.trig := trig;
      this.searchBudget := searchBudget;
      currentX, currentY := None, None;
      currentYaw, currentLinearVelocity := 0.0, 0.0;
      goalX, goalY := None, None;
      isNavigating := false;
      plannedPath, currentPathIndex := [], 0;
      cmdVel := [];
      grid := new int[MAP_HEIGHT, MAP_WIDTH]((y, x) => 0);
      new;
      SetupObstacles(grid);
    }

    /** odom_callback, with the yaw already extracted from the orientation. */
    method OdomCallback(x: real, y: real, linearX: real, yaw: real)
      requires Valid()
      modifies this`currentX, this`currentY, this`currentLinearVelocity, this`currentYaw
      ensures Valid()
      ensures currentX == Some(x) && currentY == Some(y)
      ensures currentLinearVelocity == linearX && currentYaw == yaw
    {
      currentX := Some(x);
      currentY := Some(y);
      currentLinearVelocity := linearX;
      currentYaw := yaw;
    }

    /**
     * goal_callback: record the goal; with a known pose, plan from it and,
     * when a path comes back, follow it from its first waypoint.  `plan` is
     * the planner's answer (None when no pose was known).
     */
    method GoalCallback(x: real, y: real)
      returns (ghost plan: Option<Result<seq<Point>, PlanError>>, ghost cells: seq<Cell>, ghost idx: seq<int>)
      requires Valid()
      modifies this`goalX, this`goalY, this`plannedPath, this`currentPathIndex, this`isNavigating
      ensures Valid()
      ensures goalX == Some(x) && goalY == Some(y)
      ensures plan.None? <==> old(currentX).None? || old(currentY).None?
      ensures plan.None? || plan.value.Err? ==>
        plannedPath == old(plannedPath) && currentPathIndex == old(currentPathIndex) && isNavigating == old(isNavigating)
      ensures plan.Some? && Blocked(grid, WorldToGrid(Position()), WorldToGrid((x, y))) ==> plan.value.Err?
      ensures plan.Some? && plan.value.Ok? ==>
        var sg, gg := WorldToGrid(Position()), WorldToGrid((x, y));
        && plannedPath == plan.value.value && currentPathIndex == 0 && isNavigating
        && CellPath(grid, cells, sg, gg)
        && Smoothed(grid, trig, WorldPoints(cells), plannedPath, idx)
        && plannedPath[0] == GridToWorld(sg) && plannedPath[|plannedPath| - 1] == GridToWorld(gg)
      ensures plan.Some? && searchBudget > 0 && WorldToGrid(Position()) == WorldToGrid((x, y))
              && !Blocked(grid, WorldToGrid(Position()), WorldToGrid((x, y))) ==>
        isNavigating && currentPathIndex == 0 && plannedPath == [GridToWorld(WorldToGrid(Position()))]
    {
      goalX := Some(x);
      goalY := Some(y);
      cells, idx := [], [];
      if currentX.None? || currentY.None? {
        return None, cells, idx;
      }
      var path;
      path, cells, idx := PlanPathAStar(grid, trig, (currentX.value, currentY.value), (x, y), searchBudget);
      plan := Some(path);
      if path.Ok? && |path.value| > 0 {
        FollowPath(path.value);
      }
    }

    /** The success branch of goal_callback: follow `path` from its first waypoint. */
    method FollowPath(path: seq<Point>)
      requires Valid() && currentX.Some? && |path| > 0
      modifies this`plannedPath, this`currentPathIndex, this`isNavigating
      ensures Valid()
      ensures plannedPath == path && currentPathIndex == 0 && isNavigating
    {
      plannedPath := path;
      currentPathIndex := 0;
      isNavigating := true;
    }

    /** find_lookahead_point: the first waypoint from the current index at least `lookaheadDist` away, else the last. */
    method FindLookaheadPoint(lookaheadDist: real) returns (point: Option<Point>, ghost i: int)
      requires currentX.Some? && currentY.Some?
      ensures point.None? <==> currentPathIndex >= |plannedPath|
      ensures point.Some? ==>
        LookaheadAt(trig, plannedPath, currentPathIndex, Position(), lookaheadDist, i) && point.value == plannedPath[i]
    {
      var k := currentPathIndex;
      while k < |plannedPath|
        invariant currentPathIndex <= k
        invariant currentPathIndex < |plannedPath| ==> k < |plannedPath|
        invariant forall m :: currentPathIndex <= m < k ==>
          m < |plannedPath| - 1 && Dist(trig, plannedPath[m], Position()) < lookaheadDist
      {
        var p := plannedPath[k];
        var dist := Dist(trig, p, (currentX.value, currentY.value));
        if dist >= lookaheadDist || k == |plannedPath| - 1 {
          return Some(p), k;
        }
        k := k + 1;
      }
      return None, -1;
    }

    /** update_path_progress. */
    method UpdatePathProgress()
      requires currentX.Some? && currentY.Some?
      modifies this`currentPathIndex
      ensures currentPathIndex == Progressed(trig, plannedPath, old(currentPathIndex), Position())
    {
      if currentPathIndex < |plannedPath| {
        var currentTarget := plannedPath[currentPathIndex];
        var distToTarget := Dist(trig, currentTarget, (currentX.value, currentY.value));
        if distToTarget < PATH_TOLERANCE {
          currentPathIndex := currentPathIndex + 1;
        }
      }
    }

    /** stop_navigation: drop the path and publish a zero Twist. */
    method StopNavigation()
      requires Valid()
      modifies this`isNavigating, this`plannedPath, this`currentPathIndex, this`cmdVel
      ensures Valid()
      ensures !isNavigating && plannedPath == [] && currentPathIndex == 0
      ensures cmdVel == old(cmdVel) + [Twist(0.0, 0.0)]
    {
      isNavigating := false;
      plannedPath := [];
      currentPathIndex := 0;
      cmdVel := cmdVel + [Twist(0.0, 0.0)];
    }

    /** get_current_linear_velocity. */
    function CurrentSpeed(): real
      reads this
    {
      currentLinearVelocity
    }

    /**
     * navigation_loop: stop within goal tolerance of the last waypoint;
     * otherwise steer toward the lookahead point and advance the progress
     * index.  The steering command is computed and returned but, as in the
     * node, not published.
     */
    method NavigationLoop() returns (cmd: Option<Twist>, ghost target: int)
      requires Valid()
      modifies this`isNavigating, this`plannedPath, this`currentPathIndex, this`cmdVel
      ensures Valid()
      ensures !old(isNavigating) || old(plannedPath) == [] ==>
        && cmd.None? && isNavigating == old(isNavigating) && plannedPath == old(plannedPath)
        && currentPathIndex == old(currentPathIndex) && cmdVel == old(cmdVel)
      ensures old(isNavigating) && old(plannedPath) != [] ==>
        var path := old(plannedPath);
        if Dist(trig, path[|path| - 1], Position()) < GOAL_TOLERANCE then
          && cmd.None? && !isNavigating && plannedPath == [] && currentPathIndex == 0
          && cmdVel == old(cmdVel) + [Twist(0.0, 0.0)]
        else
          && LookaheadAt(trig, path, old(currentPathIndex), Position(), DynamicLookahead(CurrentSpeed()), target)
          && cmd == Some(PurePursuit(trig, Pose(currentX.value, currentY.value, currentYaw), path[target]))
          && isNavigating && plannedPath == path && cmdVel == old(cmdVel)
          && currentPathIndex == Progressed(trig, path, old(currentPathIndex), Position())
    {
      target := -1;
      if !isNavigating || |plannedPath| == 0 {
        return None, target;
      }
      var last := plannedPath[|plannedPath| - 1];
      var finalTargetDist := Dist(trig, last, (currentX.value, currentY.value));
      if finalTargetDist < GOAL_TOLERANCE {
        StopNavigation();
        return None, target;
      }
      var currentSpeed := CurrentSpeed();
      var dynamicLookahead := LOOKAHEAD_DISTANCE + KV * currentSpeed;
      dynamicLookahead := RealMax(0.5, RealMin(dynamicLookahead, 3.0));
      var targetPoint;
      targetPoint, target := FindLookaheadPoint(dynamicLookahead);
      if targetPoint.None? {
        targetPoint := Some(last);
      }
      var c := PurePursuit(trig, Pose(currentX.value, currentY.value, currentYaw), targetPoint.value);
      ProgressStaysOnPath(trig, plannedPath, currentPathIndex, Position());
      UpdatePathProgress();
      return Some(c), target;
    }
  }
}
