/**
 * The line-following controller of line_tracing/src/line_tracing.cpp: five
 * IR sensors give a weighted position error, a PID correction is added to
 * and subtracted from a ramped base speed, and the clamped wheel RPMs are
 * published on /cmd_rpm as [left, -right]. Doubles are real numbers.
 */
module LineTracing {
  import opened RealMath

  const BASE_SPEED: real := 20.0
  const SPEED_RAMP_RATE: real := 2.0
  const RPM_LIMIT: real := 100.0

  /** sensor_weight: sensor 0 is the leftmost. */
  const SENSOR_WEIGHT: seq<int> := [-2, -1, 0, 1, 2]

  /** The position error of the first `n` sensors: the weights of those that read exactly 1. */
  function Position(values: seq<int>, n: nat): real
    requires n <= |values| && n <= 5
  {
    if n == 0 then 0.0
    else Position(values, n - 1) + (if values[n - 1] == 1 then SENSOR_WEIGHT[n - 1] as real else 0.0)
  }

  /** How many of the first `n` sensors read exactly 1. */
  function ActiveSensors(values: seq<int>, n: nat): nat
    requires n <= |values| && n <= 5
  {
    if n == 0 then 0
    else ActiveSensors(values, n - 1) + (if values[n - 1] == 1 then 1 else 0)
  }

  /** The error a message of five readings gives: the position, or the last error on no reading. */
  function SensorError(values: seq<int>, prevError: real): real
    requires |values| == 5
  {
    if ActiveSensors(values, 5) > 0 then Position(values, 5) else prevError
  }

  /** The weighted position written out sensor by sensor. */
  lemma PositionExpanded(values: seq<int>)
    requires |values| == 5
    ensures Position(values, 5) ==
      (if values[0] == 1 then -2.0 else 0.0) + (if values[1] == 1 then -1.0 else 0.0)
      + (if values[3] == 1 then 1.0 else 0.0) + (if values[4] == 1 then 2.0 else 0.0)
  {
    assert Position(values, 1) == (if values[0] == 1 then -2.0 else 0.0);
    assert Position(values, 2) == Position(values, 1) + (if values[1] == 1 then -1.0 else 0.0);
    assert Position(values, 3) == Position(values, 2);
    assert Position(values, 4) == Position(values, 3) + (if values[3] == 1 then 1.0 else 0.0);
  }

  /** The weighted position never exceeds the two outer weights on one side: |position| <= 3. */
  lemma PositionBounded(values: seq<int>)
    requires |values| == 5
    ensures -3.0 <= Position(values, 5) <= 3.0
  {
    PositionExpanded(values);
  }

  /** Mirroring the sensor bar left-to-right negates the position. */
  lemma MirrorNegatesPosition(values: seq<int>)
    requires |values| == 5
    ensures Position([values[4], values[3], values[2], values[1], values[0]], 5) == -Position(values, 5)
  {
    PositionExpanded(values);
    PositionExpanded([values[4], values[3], values[2], values[1], values[0]]);
  }

  /** std::clamp. */
  function Clamp(v: real, lo: real, hi: real): (r: real)
    requires lo <= hi
    ensures lo <= r <= hi
    ensures lo <= v <= hi ==> r == v
    ensures v < lo ==> r == lo
    ensures v > hi ==> r == hi
  {
    if v < lo then lo else if hi < v then hi else v
  }

  /** The PID correction Kp*e + Ki*integral + Kd*derivative. */
  function Correction(kp: real, ki: real, kd: real, error: real, integral: real, derivative: real): real
  {
    kp * error + ki * integral + kd * derivative
  }

  /** The node's fields. */
  datatype Tracer = Tracer(
    kp: real, ki: real, kd: real,
    currentSpeed: real, leftRpm: real, rightRpm: real,
    error: real, prevError: real, integral: real,
    isStopped: bool, isRun: bool)

  /** What the constructor leaves, for the gains it read. */
  function InitialTracer(kp: real, ki: real, kd: real): Tracer
  {
    Tracer(kp, ki, kd, 0.0, 0.0, 0.0, 0.0, 0.0, 0.0, true, true)
  }

  /** sensor_callback on a message of five readings. */
  function SensorStep(s: Tracer, values: seq<int>): (r: Tracer)
    requires |values| == 5
  {
    var error := SensorError(values, s.prevError);
    var speed := if s.isStopped then s.currentSpeed + SPEED_RAMP_RATE else s.currentSpeed;
    var ramped := s.isStopped && speed >= BASE_SPEED;
    var speed' := if ramped then BASE_SPEED else speed;
    var integral := s.integral + error;
    var derivative := error - s.prevError;
    var correction := Correction(s.kp, s.ki, s.kd, error, integral, derivative);
    s.(error := error, currentSpeed := speed', isStopped := s.isStopped && !ramped,
       integral := integral,
       leftRpm := Clamp(speed' + correction, -RPM_LIMIT, RPM_LIMIT),
       rightRpm := Clamp(speed' - correction, -RPM_LIMIT, RPM_LIMIT),
       prevError := error)
  }

  /** The /cmd_rpm message for the current RPMs. */
  function RpmMessage(s: Tracer): seq<int>
  {
    [Trunc(s.leftRpm), -Trunc(s.rightRpm)]
  }

  /**
   * One processed message: the error is within +-3 once the last error was,
   * the previous error becomes this error, the integral adds it, and both
   * RPMs (and so the published integers) lie in [-100, 100].
   */
  lemma SensorStepBounds(s: Tracer, values: seq<int>)
    requires |values| == 5 && Abs(s.prevError) <= 3.0
    ensures var r := SensorStep(s, values);
      && Abs(r.error) <= 3.0 && r.prevError == r.error
      && r.integral == s.integral + r.error
      && -RPM_LIMIT <= r.leftRpm <= RPM_LIMIT && -RPM_LIMIT <= r.rightRpm <= RPM_LIMIT
      && -100 <= RpmMessage(r)[0] <= 100 && -100 <= RpmMessage(r)[1] <= 100
      && (ActiveSensors(values, 5) == 0 ==> r.error == s.prevError)
  {
    PositionBounded(values);
    var r := SensorStep(s, values);
    TruncWithin(r.leftRpm, -100, 100);
    TruncWithin(r.rightRpm, -100, 100);
  }

  /** Messages processed one after another. */
  function SensorSteps(s: Tracer, msgs: seq<seq<int>>): Tracer
    requires forall k :: 0 <= k < |msgs| ==> |msgs[k]| == 5
  {
    if msgs == [] then s
    else SensorStep(SensorSteps(s, msgs[..|msgs| - 1]), msgs[|msgs| - 1])
  }

  /**
   * From standstill the speed rises by 2.0 per message: after k < 10
   * messages it is 2k and the node still ramps; from the tenth on it is
   * base speed and the ramp is over.
   */
  lemma {:induction false} RampFromStandstill(s: Tracer, msgs: seq<seq<int>>)
    requires s.isStopped && s.currentSpeed == 0.0
    requires forall k :: 0 <= k < |msgs| ==> |msgs[k]| == 5
    ensures var r := SensorSteps(s, msgs);
      && (|msgs| < 10 ==> r.isStopped && r.currentSpeed == 2.0 * |msgs| as real)
      && (|msgs| >= 10 ==> !r.isStopped && r.currentSpeed == BASE_SPEED)
  {
    if msgs != [] {
      RampFromStandstill(s, msgs[..|msgs| - 1]);
    }
  }

  class LineTracingNode {
    var kp: real
    var ki: real
    var kd: real
    var currentSpeed: real
    var leftRpm: real
    var rightRpm: real
    var error: real
    var prevError: real
    var integral: real
    var isStopped: bool
    var isRun: bool
    /** Every message published on /cmd_rpm, in order. */
    var published: seq<seq<int>>

    function View(): Tracer
      reads this
    {
      Tracer(kp, ki, kd, currentSpeed, leftRpm, rightRpm, error, prevError, integral, isStopped, isRun)
    }

    /** The constructor, given the declared gains (Kp 2.0, Ki 0.0, Kd 0.0 unless overridden). */
    constructor (kp0: real, ki0: real, kd0: real)
      ensures View() == InitialTracer(kp0, ki0, kd0) && published == []
    {
      kp, ki, kd := kp0, ki0, kd0;
      currentSpeed, leftRpm, rightRpm := 0.0, 0.0, 0.0;
      error, prevError, integral := 0.0, 0.0, 0.0;
      isStopped, isRun := true, true;
      published := [];
    }

    /** The sensor loop: sum the weights of the sensors reading 1 and count them. */
    static method WeighSensors(values: seq<int>) returns (position: real, activeSensors: int)
      requires |values| == 5
      ensures position == Position(values, 5) && activeSensors == ActiveSensors(values, 5)
    {
      position := 0.0;
      activeSensors := 0;
      var i := 0;
      while i < 5
        invariant 0 <= i <= 5
        invariant position == Position(values, i) && activeSensors == ActiveSensors(values, i)
      {
        if values[i] == 1 {
          position := position + SENSOR_WEIGHT[i] as real;
          activeSensors := activeSensors + 1;
        }
        i := i + 1;
      }
    }

    /** sensor_callback. */
    method SensorCallback(sensorValues: seq<int>)
      modifies this`error, this`currentSpeed, this`isStopped, this`integral, this`leftRpm,
               this`rightRpm, this`prevError, this`published
      ensures |sensorValues| != 5 ==> View() == old(View()) && published == old(published)
      ensures |sensorValues| == 5 ==> View() == SensorStep(old(View()), sensorValues)
      ensures |sensorValues| == 5 ==>
        published == old(published) + (if isRun then [RpmMessage(View())] else [])
    {
      if |sensorValues| != 5 {
        return;
      }
      ghost var r := SensorStep(View(), sensorValues);
      var position, activeSensors := WeighSensors(sensorValues);
      if activeSensors > 0 {
        error := position;
      } else {
        error := prevError;
      }
      assert error == r.error;
      if isStopped {
        currentSpeed := currentSpeed + SPEED_RAMP_RATE;
        if currentSpeed >= BASE_SPEED {
          currentSpeed := BASE_SPEED;
          isStopped := false;
        }
      }
      assert currentSpeed == r.currentSpeed && isStopped == r.isStopped;
      integral := integral + error;
      var derivative := error - prevError;
      var correction := Correction(kp, ki, kd, error, integral, derivative);
      leftRpm := currentSpeed + correction;
      rightRpm := currentSpeed - correction;
      leftRpm := Clamp(leftRpm, -100.0, 100.0);
      rightRpm := Clamp(rightRpm, -100.0, 100.0);
      prevError := error;
      assert integral == r.integral && leftRpm == r.leftRpm && rightRpm == r.rightRpm;
      if !isRun {
        return;
      }
      published := published + [[Trunc(leftRpm), -Trunc(rightRpm)]];
    }

    /** stop_motors: zero the RPMs and the speed, restart the ramp, publish [0, 0]. */
    method StopMotors()
      modifies this
      ensures View() == old(View()).(leftRpm := 0.0, rightRpm := 0.0, currentSpeed := 0.0, isStopped := true)
      ensures published == old(published) + [[0, 0]]
    {
      leftRpm := 0.0;
      rightRpm := 0.0;
      currentSpeed := 0.0;
      isStopped := true;
      published := published + [[0, 0]];
    }

    /** stop_callback: `true` pauses publishing, `false` resumes it; the motors stop either way. */
    method StopCallback(data: bool)
      modifies this
      ensures View() == old(View()).(isRun := !data, leftRpm := 0.0, rightRpm := 0.0,
                                     currentSpeed := 0.0, isStopped := true)
      ensures published == old(published) + [[0, 0]]
    {
      isRun := !data;
      isStopped := true;
      StopMotors();
    }

    /** param_callback on (name, double value) pairs; it always reports success. */
    method ParamCallback(params: seq<(string, real)>) returns (successful: bool)
      modifies this
      ensures successful
      ensures kp == LastValue(params, "Kp", old(kp))
      ensures ki == LastValue(params, "Ki", old(ki))
      ensures kd == LastValue(params, "Kd", old(kd))
      ensures View() == old(View()).(kp := kp, ki := ki, kd := kd) && published == old(published)
    {
      successful := true;
      var i := 0;
      while i < |params|
        invariant 0 <= i <= |params|
        invariant kp == LastValue(params[..i], "Kp", old(kp))
        invariant ki == LastValue(params[..i], "Ki", old(ki))
        invariant kd == LastValue(params[..i], "Kd", old(kd))
        invariant View() == old(View()).(kp := kp, ki := ki, kd := kd) && published == old(published)
      {
        assert params[..i + 1][..i] == params[..i];
        var (name, value) := params[i];
        if name == "Kp" {
          kp := value;
        } else if name == "Ki" {
          ki := value;
        } else if name == "Kd" {
          kd := value;
        }
        i := i + 1;
      }
      assert params[..i] == params;
    }
  }

  /** The value of the last parameter called `name`, or `current` when none is. */
  function LastValue(params: seq<(string, real)>, name: string, current: real): real
  {
    if params == [] then current
    else if params[|params| - 1].0 == name then params[|params| - 1].1
    else LastValue(params[..|params| - 1], name, current)
  }

  /** A gain is the value of some parameter of that name, or unchanged when there is none. */
  lemma {:induction false} LastValueIsGiven(params: seq<(string, real)>, name: string, current: real)
    ensures (forall k :: 0 <= k < |params| ==> params[k].0 != name) ==>
              LastValue(params, name, current) == current
    ensures (exists k :: 0 <= k < |params| && params[k].0 == name) ==>
              exists k :: 0 <= k < |params| && params[k].0 == name && LastValue(params, name, current) == params[k].1
  {
    if params != [] {
      var front := params[..|params| - 1];
      LastValueIsGiven(front, name, current);
      assert forall k :: 0 <= k < |front| ==> front[k] == params[k];
    }
  }
}
