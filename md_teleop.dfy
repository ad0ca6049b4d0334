/**
 * Keyboard teleoperation of MD_controller/md_teleop/md_teleop/md_teleop.py:
 * each key press steps the two wheel RPMs by 10 (saturating at +-1000) and
 * publishes [left, -right] on /cmd_rpm.
 */
module MdTeleop {
  const MAX_VEL := 1000
  const VEL_STEP_SIZE := 10

  /** check_rpm_limit: saturate at +-MAX_VEL. */
  function CheckRpmLimit(vel: int): (r: int)
    ensures -MAX_VEL <= r <= MAX_VEL
    ensures r == vel <==> -MAX_VEL <= vel <= MAX_VEL
    ensures vel < -MAX_VEL ==> r == -MAX_VEL
    ensures vel > MAX_VEL ==> r == MAX_VEL
  {
    if vel <= -MAX_VEL then -MAX_VEL
    else if vel >= MAX_VEL then MAX_VEL
    else vel
  }

  /** Saturation never reverses the order of two requests. */
  lemma CheckRpmLimitMonotone(a: int, b: int)
    requires a <= b
    ensures CheckRpmLimit(a) <= CheckRpmLimit(b)
  {
  }

  /** `str.lower()` on the ASCII letters. */
  function Lower(key: string): (r: string)
    ensures |r| == |key|
    ensures forall i :: 0 <= i < |key| ==> ('A' <= key[i] <= 'Z' ==> r[i] as int == key[i] as int + 32)
    ensures forall i :: 0 <= i < |key| ==> (!('A' <= key[i] <= 'Z') ==> r[i] == key[i])
  {
    seq(|key|, i requires 0 <= i < |key| =>
      if 'A' <= key[i] <= 'Z' then (key[i] as int + 32) as char else key[i])
  }

  /** The per-key branch of `run` on the RPM pair (left, right). */
  function KeyStep(left: int, right: int, key: string): (int, int)
  {
    var k := Lower(key);
    if k == "w" then (CheckRpmLimit(left + VEL_STEP_SIZE), CheckRpmLimit(right + VEL_STEP_SIZE))
    else if k == "s" then (CheckRpmLimit(left - VEL_STEP_SIZE), CheckRpmLimit(right - VEL_STEP_SIZE))
    else if k == "a" then (CheckRpmLimit(left - VEL_STEP_SIZE), CheckRpmLimit(right + VEL_STEP_SIZE))
    else if k == "d" then (CheckRpmLimit(left + VEL_STEP_SIZE), CheckRpmLimit(right - VEL_STEP_SIZE))
    else if k == " " then (0, 0)
    else (left, right)
  }

  /** The message published for a pair: the right wheel's sign is flipped. */
  function RpmMessage(left: int, right: int): seq<int>
  {
    [left, -right]
  }

  /** The RPM pair after a run of keys. */
  function Replay(left: int, right: int, keys: seq<string>): (int, int)
  {
    if keys == [] then (left, right)
    else
      var (l, r) := Replay(left, right, keys[..|keys| - 1]);
      KeyStep(l, r, keys[|keys| - 1])
  }

  /** The messages published during a run of keys, one per key. */
  function Messages(left: int, right: int, keys: seq<string>): (m: seq<seq<int>>)
    ensures |m| == |keys|
    ensures forall n :: 1 <= n <= |keys| ==>
      m[n - 1] == RpmMessage(Replay(left, right, keys[..n]).0, Replay(left, right, keys[..n]).1)
  {
    if keys == [] then []
    else
      var front := keys[..|keys| - 1];
      assert forall n :: 0 <= n <= |front| ==> front[..n] == keys[..n];
      assert keys[..|keys|] == keys;
      var (l, r) := Replay(left, right, keys);
      Messages(left, right, front) + [RpmMessage(l, r)]
  }

  predicate InRange(left: int, right: int)
  {
    -MAX_VEL <= left <= MAX_VEL && -MAX_VEL <= right <= MAX_VEL
  }

  /** One key keeps a pair within +-MAX_VEL. */
  lemma KeyStepInRange(left: int, right: int, key: string)
    requires InRange(left, right)
    ensures InRange(KeyStep(left, right, key).0, KeyStep(left, right, key).1)
  {
  }

  /** From 0/0 (or any pair in range) the RPMs stay within +-MAX_VEL after any key sequence. */
  lemma {:induction false} ReplayInRange(left: int, right: int, keys: seq<string>)
    requires InRange(left, right)
    ensures InRange(Replay(left, right, keys).0, Replay(left, right, keys).1)
  {
    if keys != [] {
      ReplayInRange(left, right, keys[..|keys| - 1]);
      var (l, r) := Replay(left, right, keys[..|keys| - 1]);
      KeyStepInRange(l, r, keys[|keys| - 1]);
    }
  }

  /** Upper-case letters act like their lower-case forms. */
  lemma KeysCaseInsensitive(left: int, right: int)
    ensures KeyStep(left, right, "W") == KeyStep(left, right, "w")
    ensures KeyStep(left, right, "S") == KeyStep(left, right, "s")
    ensures KeyStep(left, right, "A") == KeyStep(left, right, "a")
    ensures KeyStep(left, right, "D") == KeyStep(left, right, "d")
  {
    assert Lower("W") == "w";
    assert Lower("S") == "s";
    assert Lower("A") == "a";
    assert Lower("D") == "d";
  }

  /** Away from the limits, 's' undoes 'w' and 'd' undoes 'a'. */
  lemma OppositeKeysCancel(left: int, right: int)
    requires -MAX_VEL + VEL_STEP_SIZE < left < MAX_VEL - VEL_STEP_SIZE
    requires -MAX_VEL + VEL_STEP_SIZE < right < MAX_VEL - VEL_STEP_SIZE
    ensures Replay(left, right, ["w", "s"]) == (left, right)
    ensures Replay(left, right, ["a", "d"]) == (left, right)
  {
    assert Lower("w") == "w" && Lower("s") == "s" && Lower("a") == "a" && Lower("d") == "d";
    assert ["w", "s"][..1] == ["w"] && ["a", "d"][..1] == ["a"];
    assert ["w"][..0] == [] && ["a"][..0] == [];
    assert Replay(left, right, ["w"]) == (left + VEL_STEP_SIZE, right + VEL_STEP_SIZE);
    assert Replay(left, right, ["a"]) == (left - VEL_STEP_SIZE, right + VEL_STEP_SIZE);
  }

  /** Space stops both wheels whatever the pair was. */
  lemma SpaceStops(left: int, right: int)
    ensures KeyStep(left, right, " ") == (0, 0)
  {
    assert Lower(" ") == " ";
  }

  class TeleopKey {
    var leftRpm: int
    var rightRpm: int
    /** Every message published on /cmd_rpm, in order. */
    var published: seq<seq<int>>

    constructor ()
      ensures leftRpm == 0 && rightRpm == 0 && published == []
    {
      leftRpm, rightRpm := 0, 0;
      published := [];
    }

    /** One pass of the `run` loop for the key getkey returned. */
    method HandleKey(key: string)
      modifies this
      ensures (leftRpm, rightRpm) == KeyStep(old(leftRpm), old(rightRpm), key)
      ensures published == old(published) + [RpmMessage(leftRpm, rightRpm)]
    {
      var k := Lower(key);
      if k == "w" {
        leftRpm := CheckRpmLimit(leftRpm + VEL_STEP_SIZE);
        rightRpm := CheckRpmLimit(rightRpm + VEL_STEP_SIZE);
      } else if k == "s" {
        leftRpm := CheckRpmLimit(leftRpm - VEL_STEP_SIZE);
        rightRpm := CheckRpmLimit(rightRpm - VEL_STEP_SIZE);
      } else if k == "a" {
        leftRpm := CheckRpmLimit(leftRpm - VEL_STEP_SIZE);
        rightRpm := CheckRpmLimit(rightRpm + VEL_STEP_SIZE);
      } else if k == "d" {
        leftRpm := CheckRpmLimit(leftRpm + VEL_STEP_SIZE);
        rightRpm := CheckRpmLimit(rightRpm - VEL_STEP_SIZE);
      } else if k == " " {
        leftRpm := 0;
        rightRpm := 0;
      }
      published := published + [[leftRpm, -rightRpm]];
    }

    /** `run` over the keys pressed before rclpy stops. */
    method Run(keys: seq<string>)
      modifies this
      ensures (leftRpm, rightRpm) == Replay(old(leftRpm), old(rightRpm), keys)
      ensures published == old(published) + Messages(old(leftRpm), old(rightRpm), keys)
    {
      var i := 0;
      while i < |keys|
        invariant 0 <= i <= |keys|
        invariant (leftRpm, rightRpm) == Replay(old(leftRpm), old(rightRpm), keys[..i])
        invariant published == old(published) + Messages(old(leftRpm), old(rightRpm), keys[..i])
      {
        assert keys[..i + 1][..i] == keys[..i];
        HandleKey(keys[i]);
        i := i + 1;
      }
      assert keys[..i] == keys;
    }

    /** signal_handler: publish a stop message. */
    method SignalHandler()
      modifies this
      ensures published == old(published) + [[0, 0]]
      ensures leftRpm == old(leftRpm) && rightRpm == old(rightRpm)
    {
      published := published + [[0, 0]];
    }
  }
}
