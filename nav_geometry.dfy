/**
 * The map geometry and the control laws of
 * unity_amr_nav/unity_amr_nav/advanced_navigation.py: the 66 x 64 grid of
 * 10 cm cells, conversions between world points and cells, distances, the
 * dynamic lookahead and pure-pursuit steering.
 *
 * Floats are real numbers. `math.sqrt`, `math.atan2`, `math.sin` and
 * `math.cos` are the fields of a `Trig` record and are otherwise unknown.
 */
module NavGeometry {
  import opened RealMath

  type Cell = (int, int)
  type Point = (real, real)

  /** The transcendental functions the node calls. */
  datatype Trig = Trig(sqrt: real -> real, atan2: (real, real) -> real,
                       sin: real -> real, cos: real -> real)

  const GRID_RESOLUTION: real := 0.1
  const MAP_WIDTH: int := 66
  const MAP_HEIGHT: int := 64
  const MAP_ORIGIN_X: real := -3.34
  const MAP_ORIGIN_Y: real := -3.29

  const GOAL_TOLERANCE: real := 0.3
  const PATH_TOLERANCE: real := 0.2
  const MAX_LINEAR_SPEED: real := 1.0
  const MAX_ANGULAR_SPEED: real := 1.5
  const KP_ANGULAR: real := 2.0
  const KV: real := 0.3
  const LOOKAHEAD_DISTANCE: real := 1.0

  /** world_to_grid: `int()` truncates toward zero. */
  function WorldToGrid(p: Point): Cell
  {
    (Trunc((p.0 - MAP_ORIGIN_X) / GRID_RESOLUTION), Trunc((p.1 - MAP_ORIGIN_Y) / GRID_RESOLUTION))
  }

  /** grid_to_world: the cell's corner with the smaller coordinates. */
  function GridToWorld(c: Cell): Point
  {
    (c.0 as real * GRID_RESOLUTION + MAP_ORIGIN_X, c.1 as real * GRID_RESOLUTION + MAP_ORIGIN_Y)
  }

  /** Over exact reals the cell's world point maps back to the cell. */
  lemma GridWorldRoundTrip(c: Cell)
    ensures WorldToGrid(GridToWorld(c)) == c
  {
    var p := GridToWorld(c);
    assert p.0 - MAP_ORIGIN_X == c.0 as real * GRID_RESOLUTION;
    assert p.1 - MAP_ORIGIN_Y == c.1 as real * GRID_RESOLUTION;
    assert (c.0 as real * GRID_RESOLUTION) / GRID_RESOLUTION == c.0 as real;
    assert (c.1 as real * GRID_RESOLUTION) / GRID_RESOLUTION == c.1 as real;
    TruncOfInt(c.0);
    TruncOfInt(c.1);
  }

  /**
   * A point right of and above the origin lies in the 10 cm square whose
   * corner is its cell's world point.
   */
  lemma WorldToGridContains(p: Point)
    requires p.0 >= MAP_ORIGIN_X && p.1 >= MAP_ORIGIN_Y
    ensures var q := GridToWorld(WorldToGrid(p));
      q.0 <= p.0 < q.0 + GRID_RESOLUTION && q.1 <= p.1 < q.1 + GRID_RESOLUTION
  {
    var c := WorldToGrid(p);
    var u := (p.0 - MAP_ORIGIN_X) / GRID_RESOLUTION;
    var v := (p.1 - MAP_ORIGIN_Y) / GRID_RESOLUTION;
    assert c.0 as real <= u < c.0 as real + 1.0;
    assert c.1 as real <= v < c.1 as real + 1.0;
    assert p.0 == u * GRID_RESOLUTION + MAP_ORIGIN_X;
    assert p.1 == v * GRID_RESOLUTION + MAP_ORIGIN_Y;
  }

  predicate InBounds(c: Cell)
  {
    0 <= c.0 < MAP_WIDTH && 0 <= c.1 < MAP_HEIGHT
  }

  /** Euclidean distance between two points, through the node's sqrt. */
  function Dist(trig: Trig, a: Point, b: Point): real
  {
    Norm(trig, (a.0 - b.0, a.1 - b.1))
  }

  /** heuristic: Euclidean distance between two cells. */
  function Heuristic(trig: Trig, a: Cell, b: Cell): real
  {
    trig.sqrt(((a.0 - b.0) * (a.0 - b.0) + (a.1 - b.1) * (a.1 - b.1)) as real)
  }

  /** The heuristic does not depend on the direction. */
  lemma HeuristicSymmetric(trig: Trig, a: Cell, b: Cell)
    ensures Heuristic(trig, a, b) == Heuristic(trig, b, a)
  {
    assert (a.0 - b.0) * (a.0 - b.0) == (b.0 - a.0) * (b.0 - a.0);
    assert (a.1 - b.1) * (a.1 - b.1) == (b.1 - a.1) * (b.1 - a.1);
  }

  /**
   * Between 8-neighbours the heuristic is the distance of the move: sqrt(2)
   * across a corner, which is its step cost, and sqrt(1) along an axis.
   */
  lemma HeuristicOfNeighbour(trig: Trig, a: Cell, b: Cell)
    requires Adjacent(a, b) && trig.sqrt(2.0) > 0.0
    ensures a.0 != b.0 && a.1 != b.1 ==> Heuristic(trig, a, b) == StepCost(trig, a, b)
    ensures a.0 == b.0 || a.1 == b.1 ==> Heuristic(trig, a, b) == trig.sqrt(1.0)
  {
    var dx, dy := a.0 - b.0, a.1 - b.1;
    assert dx == -1 || dx == 0 || dx == 1;
    assert dy == -1 || dy == 0 || dy == 1;
    assert dx * dx == AbsInt(dx) && dy * dy == AbsInt(dy);
  }

  function AbsInt(n: int): nat
  {
    if n < 0 then -n else n
  }

  /** Two distinct cells touching by a side or a corner. */
  predicate Adjacent(a: Cell, b: Cell)
  {
    a != b && AbsInt(a.0 - b.0) <= 1 && AbsInt(a.1 - b.1) <= 1
  }

  /** The cost of a move between 8-neighbours: 1 along an axis, sqrt(2) diagonally. */
  function StepCost(trig: Trig, from: Cell, to: Cell): (c: real)
    requires Adjacent(from, to) && trig.sqrt(2.0) > 0.0
    ensures c > 0.0
    ensures c == 1.0 <== from.0 == to.0 || from.1 == to.1
    ensures c == trig.sqrt(2.0) <== from.0 != to.0 && from.1 != to.1
  {
    if AbsInt(to.0 - from.0) + AbsInt(to.1 - from.1) == 1 then 1.0 else trig.sqrt(2.0)
  }

  /** The lookahead for the current speed, clamped to [0.5, 3.0]. */
  function DynamicLookahead(speed: real): (d: real)
    ensures 0.5 <= d <= 3.0
    ensures 0.5 <= LOOKAHEAD_DISTANCE + KV * speed <= 3.0 ==> d == LOOKAHEAD_DISTANCE + KV * speed
  {
    var d := LOOKAHEAD_DISTANCE + KV * speed;
    RealMax(0.5, RealMin(d, 3.0))
  }

  /** A faster robot looks at least as far ahead. */
  lemma DynamicLookaheadMonotone(v: real, w: real)
    requires v <= w
    ensures DynamicLookahead(v) <= DynamicLookahead(w)
  {
  }

  function RealMin(a: real, b: real): real { if a <= b then a else b }
  function RealMax(a: real, b: real): real { if a >= b then a else b }

  /** A velocity command: linear.x and angular.z (the other components stay 0). */
  datatype Twist = Twist(linear: real, angular: real)

  /** The robot's pose as the odometry callback stores it. */
  datatype Pose = Pose(x: real, y: real, yaw: real)

  /** The length of a vector, through the node's sqrt. */
  function Norm(trig: Trig, v: Point): real
  {
    trig.sqrt(v.0 * v.0 + v.1 * v.1)
  }

  /** The target in the robot's frame: the offset rotated by -yaw. */
  function RobotFrame(trig: Trig, pose: Pose, target: Point): Point
  {
    var relX := target.0 - pose.x;
    var relY := target.1 - pose.y;
    (relX * trig.cos(pose.yaw) + relY * trig.sin(pose.yaw),
     -relX * trig.sin(pose.yaw) + relY * trig.cos(pose.yaw))
  }

  /**
   * pure_pursuit_control: no motion within goal tolerance of the target,
   * otherwise full speed and a heading correction proportional to the
   * bearing, saturated at the angular limit.
   */
  function PurePursuit(trig: Trig, pose: Pose, target: Point): (cmd: Twist)
    ensures 0.0 <= cmd.linear <= MAX_LINEAR_SPEED
    ensures -MAX_ANGULAR_SPEED <= cmd.angular <= MAX_ANGULAR_SPEED
  {
    var r := RobotFrame(trig, pose, target);
    var distance := Norm(trig, r);
    if distance < GOAL_TOLERANCE then Twist(0.0, 0.0)
    else
      var alpha := trig.atan2(r.1, r.0);
      var linear := RealMin(MAX_LINEAR_SPEED, MAX_LINEAR_SPEED);
      var angular := RealMin(RealMax(KP_ANGULAR * alpha, -MAX_ANGULAR_SPEED), MAX_ANGULAR_SPEED);
      Twist(if linear < 0.0 then 0.0 else linear, angular)
  }

  /**
   * The two regimes of pure pursuit: a target within goal tolerance gives
   * the zero command; any other target gives full speed, turning toward the
   * target's side at Kp times its bearing until that saturates.
   */
  lemma PurePursuitCases(trig: Trig, pose: Pose, target: Point)
    ensures var r := RobotFrame(trig, pose, target);
      var cmd := PurePursuit(trig, pose, target);
      var alpha := trig.atan2(r.1, r.0);
      && (Norm(trig, r) < GOAL_TOLERANCE <==> cmd == Twist(0.0, 0.0))
      && (Norm(trig, r) >= GOAL_TOLERANCE ==>
            && cmd.linear == MAX_LINEAR_SPEED
            && (-MAX_ANGULAR_SPEED <= KP_ANGULAR * alpha <= MAX_ANGULAR_SPEED ==> cmd.angular == KP_ANGULAR * alpha)
            && (cmd.angular > 0.0 <==> alpha > 0.0)
            && (cmd.angular < 0.0 <==> alpha < 0.0))
  {
    var r := RobotFrame(trig, pose, target);
    var alpha := trig.atan2(r.1, r.0);
    if Norm(trig, r) >= GOAL_TOLERANCE {
      var a := RealMin(RealMax(KP_ANGULAR * alpha, -MAX_ANGULAR_SPEED), MAX_ANGULAR_SPEED);
      var lin := RealMin(MAX_LINEAR_SPEED, MAX_LINEAR_SPEED);
      assert lin == MAX_LINEAR_SPEED;
      assert PurePursuit(trig, pose, target) == Twist(if lin < 0.0 then 0.0 else lin, a);
      assert a > 0.0 <==> KP_ANGULAR * alpha > 0.0;
    }
  }

  /** `math.ceil` on a real. */
  function Ceil(x: real): (n: int)
    ensures n as real - 1.0 < x <= n as real
  {
    -((-x).Floor)
  }

  /** The number of samples of np.arange(start, stop, step) for a positive step. */
  function ArangeLen(start: real, stop: real, step: real): nat
    requires step > 0.0
  {
    var c := Ceil((stop - start) / step);
    if c > 0 then c else 0
  }

  /** np.arange's samples start + i*step, i < n, are exactly those below `stop`. */
  lemma ArangeLenBounds(start: real, stop: real, step: real)
    requires step > 0.0 && start < stop
    ensures var n := ArangeLen(start, stop, step);
      n > 0 && (n - 1) as real * step < stop - start <= n as real * step
  {
    var x := (stop - start) / step;
    var c := Ceil(x);
    assert x * step == stop - start;
    assert x > 0.0 && c > 0;
    MulLess((c - 1) as real, x, step);
    MulLess(x, c as real, step);
  }

  lemma MulLess(a: real, b: real, k: real)
    requires a <= b && k > 0.0
    ensures a * k <= b * k && (a < b ==> a * k < b * k)
  {
    assert b * k - a * k == (b - a) * k;
  }

  /** The smallest entry of a non-empty list (Python's `min`). */
  function SeqMin(s: seq<real>): (m: real)
    requires |s| > 0
    ensures m in s && forall k :: 0 <= k < |s| ==> m <= s[k]
  {
    if |s| == 1 then s[0] else RealMin(s[0], SeqMin(s[1..]))
  }

  /** The largest entry of a non-empty list (Python's `max`). */
  function SeqMax(s: seq<real>): (m: real)
    requires |s| > 0
    ensures m in s && forall k :: 0 <= k < |s| ==> s[k] <= m
  {
    if |s| == 1 then s[0] else RealMax(s[0], SeqMax(s[1..]))
  }
}
