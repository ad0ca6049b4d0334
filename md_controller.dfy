/**
 * The motor-driver ROS node of MD_controller/md_controller/src/md_controller.cpp:
 * a 20 ms timer that first waits, then runs a five-step initialisation of
 * the driver, and from then on forwards changed RPM commands and asks for
 * the driver's main data, all through PutMdData.
 *
 * The node's counters and the global `Motor` fields it uses are a
 * `NodeState` value; `TimerTick` says what one timer callback does to them
 * and which packets it sends.
 */
module MdController {
  import opened MdBytes
  import opened MdProtocol
  import opened MdCom

  /** One PutMdData call: the PID and the four-entry nArray. */
  datatype Cmd = Cmd(pid: byte, a0: int, a1: int, a2: int, a3: int)
  {
    function Arr(): seq<int> { [a0, a1, a2, a3] }
  }

  /** The bytes a sequence of PutMdData calls writes to the port. */
  function Wire(p: Protocol, mid: int, id: int, cmds: seq<Cmd>): seq<byte>
  {
    if cmds == [] then []
    else Packet(p, cmds[0].pid, mid, id, cmds[0].Arr()) + Wire(p, mid, id, cmds[1..])
  }

  lemma {:induction false} WireAppend(p: Protocol, mid: int, id: int, c: seq<Cmd>, d: seq<Cmd>)
    ensures Wire(p, mid, id, c + d) == Wire(p, mid, id, c) + Wire(p, mid, id, d)
  {
    if c == [] {
      assert c + d == d;
    } else {
      assert (c + d)[1..] == c[1..] + d;
      WireAppend(p, mid, id, c[1..], d);
    }
  }

  /**
   * The node's members and the `Motor` fields it uses: left_rpm, right_rpm,
   * InitMotor, InitError, fgInitsetting, byCntInitStep, byCntStartDelay,
   * SendCmdRpm, and whether rclcpp::shutdown() was called.
   */
  datatype NodeState = NodeState(
    leftRpm: int, rightRpm: int, initMotor: bool, initError: int,
    initSetting: bool, initStep: byte, startDelay: byte, sendCmdRpm: bool,
    shutdown: bool)

  /** The state the constructor leaves. */
  function InitialState(): NodeState
  {
    NodeState(0, 0, true, 0, false, 1, 0, false, false)
  }

  /** What the timer keeps true: the step counter stays in 1..5 and the delay at most 201. */
  predicate NodeInvariant(s: NodeState)
  {
    && 1 <= s.initStep <= 5
    && s.startDelay <= 201
    && (s.initSetting ==> s.initStep == 5 && s.startDelay == 201)
    && (s.initStep > 1 ==> !s.initMotor && s.startDelay == 201)
    && 0 <= s.initError
  }

  /** cmdRpmCallback: store the pair and raise SendCmdRpm only when it differs. */
  function RpmCommand(s: NodeState, left: int, right: int): (r: NodeState)
    ensures r.leftRpm == left && r.rightRpm == right
    ensures r.sendCmdRpm <==> s.sendCmdRpm || s.leftRpm != left || s.rightRpm != right
    ensures r.(sendCmdRpm := s.sendCmdRpm, leftRpm := s.leftRpm, rightRpm := s.rightRpm) == s
  {
    if s.leftRpm != left || s.rightRpm != right then
      s.(leftRpm := left, rightRpm := right, sendCmdRpm := true)
    else s
  }

  /** The request for the driver's main data. */
  function MainDataRequest(p: Protocol): Cmd
  {
    Cmd(p.pidReqPidData, p.pidMainData, 0, 0, 0)
  }

  /** The command for a pair of RPMs: torque off when both are 0, else a velocity command. */
  function RpmCmd(p: Protocol, left: int, right: int): Cmd
  {
    var l := Short2Byte(ToShort(left));
    var r := Short2Byte(ToShort(right));
    Cmd(if left == 0 && right == 0 then p.pidPntTqOff else p.pidPntVelCmd,
        r.byLow, r.byHigh, l.byLow, l.byHigh)
  }

  /** InitMotorSequence: one step of the `switch (byCntInitStep)`. */
  function InitSequence(p: Protocol, s: NodeState): (NodeState, seq<Cmd>)
  {
    if s.initStep == 1 then
      var s1 := if s.initMotor then s.(initError := s.initError + 1)
                else s.(initStep := 2);
      (if s1.initError > 10 then s1.(shutdown := true) else s1, [MainDataRequest(p)])
    else if s.initStep == 2 then
      (s.(initStep := 3), [])
    else if s.initStep == 3 then
      (s.(initStep := 4), [Cmd(p.pidPntVelCmd, 0, 0, 0, 0)])
    else if s.initStep == 4 then
      (s.(initStep := 5), [Cmd(p.pidPosiReset, 0, 0, 0, 0)])
    else if s.initStep == 5 then
      (s.(initSetting := true), [])
    else
      (s, [])
  }

  /** The part of timerCallback after the receive: the new state and the PutMdData calls. */
  function TimerStep(p: Protocol, s: NodeState): (NodeState, seq<Cmd>)
  {
    if s.initSetting then
      if s.sendCmdRpm then
        (s.(sendCmdRpm := false), [RpmCmd(p, s.leftRpm, s.rightRpm), MainDataRequest(p)])
      else
        (s, [MainDataRequest(p)])
    else if s.startDelay <= 200 then
      (s.(startDelay := s.startDelay + 1), [])
    else
      InitSequence(p, s)
  }

  /** The receive at the start of timerCallback, as far as the node's state sees it. */
  function AfterReceive(s: NodeState, id: int, rx: seq<byte>): NodeState
  {
    if |rx| > 0 && InitAck(s.initMotor, id, rx) then s.(initMotor := false) else s
  }

  /** One timer callback. */
  function TimerTick(p: Protocol, id: int, s: NodeState, rx: seq<byte>): (NodeState, seq<Cmd>)
  {
    TimerStep(p, AfterReceive(s, id, rx))
  }

  /** Timer callbacks over the reads `rxs`, one read per callback. */
  function Ticks(p: Protocol, id: int, s: NodeState, rxs: seq<seq<byte>>): (NodeState, seq<Cmd>)
  {
    if rxs == [] then (s, [])
    else
      var (s1, c1) := Ticks(p, id, s, rxs[..|rxs| - 1]);
      var (s2, c2) := TimerTick(p, id, s1, rxs[|rxs| - 1]);
      (s2, c1 + c2)
  }

  /** Every timer callback keeps the node's counters in range. */
  lemma TickKeepsInvariant(p: Protocol, id: int, s: NodeState, rx: seq<byte>)
    requires NodeInvariant(s)
    ensures NodeInvariant(TimerTick(p, id, s, rx).0)
  {
  }

  /** Reads none of which that acknowledges the motor ID. */
  predicate NoAck(id: int, rxs: seq<seq<byte>>)
  {
    forall k :: 0 <= k < |rxs| ==> !InitAck(true, id, rxs[k])
  }

  /** The first 201 callbacks only count: nothing is sent and the init sequence does not start. */
  lemma {:induction false} StartDelaySendsNothing(p: Protocol, id: int, rxs: seq<seq<byte>>)
    requires |rxs| <= 201
    ensures var (s, cmds) := Ticks(p, id, InitialState(), rxs);
      && cmds == [] && s.startDelay == |rxs| && s.initStep == 1 && !s.initSetting
      && s.initError == 0 && !s.shutdown && (s.initMotor <==> NoAck(id, rxs))
  {
    if rxs != [] {
      var front := rxs[..|rxs| - 1];
      StartDelaySendsNothing(p, id, front);
      assert NoAck(id, rxs) <==> NoAck(id, front) && !InitAck(true, id, rxs[|rxs| - 1]) by {
        assert forall k :: 0 <= k < |front| ==> front[k] == rxs[k];
      }
    }
  }

  /**
   * While the driver never answers with the motor's ID, every init step-1
   * callback adds one to InitError, and the node is shut down exactly when
   * InitError passes 10.
   */
  lemma {:induction false} UnansweredInitCounts(p: Protocol, id: int, s: NodeState, rxs: seq<seq<byte>>)
    requires s.initStep == 1 && s.startDelay == 201 && !s.initSetting && s.initMotor
    requires !s.shutdown && s.initError <= 10
    requires NoAck(id, rxs)
    ensures var (r, cmds) := Ticks(p, id, s, rxs);
      && r.initStep == 1 && r.initMotor && !r.initSetting && r.startDelay == 201
      && r.initError == s.initError + |rxs|
      && (r.shutdown <==> s.initError + |rxs| > 10)
      && |cmds| == |rxs|
      && (forall k :: 0 <= k < |cmds| ==> cmds[k] == MainDataRequest(p))
  {
    if rxs != [] {
      var front := rxs[..|rxs| - 1];
      assert NoAck(id, front) by {
        assert forall k :: 0 <= k < |front| ==> front[k] == rxs[k];
      }
      UnansweredInitCounts(p, id, s, front);
      var (s1, c1) := Ticks(p, id, s, front);
      assert !InitAck(true, id, rxs[|rxs| - 1]);
      var (s2, c2) := TimerTick(p, id, s1, rxs[|rxs| - 1]);
      assert s2 == s1.(initError := s1.initError + 1, shutdown := s1.shutdown || s1.initError + 1 > 10);
      assert s2.shutdown <==> s.initError + |rxs| > 10;
      assert c2 == [MainDataRequest(p)];
      assert Ticks(p, id, s, rxs) == (s2, c1 + c2);
    }
  }

  lemma {:induction false} TicksSplit(p: Protocol, id: int, s: NodeState, a: seq<seq<byte>>, b: seq<seq<byte>>)
    ensures var (sa, ca) := Ticks(p, id, s, a);
      Ticks(p, id, s, a + b) == (Ticks(p, id, sa, b).0, ca + Ticks(p, id, sa, b).1)
    decreases |b|
  {
    if b == [] {
      assert a + b == a;
      assert Ticks(p, id, s, a).1 + [] == Ticks(p, id, s, a).1;
    } else {
      var front := b[..|b| - 1];
      assert (a + b)[..|a + b| - 1] == a + front;
      assert (a + b)[|a + b| - 1] == b[|b| - 1];
      TicksSplit(p, id, s, a, front);
      var (sa, ca) := Ticks(p, id, s, a);
      var (sf, cf) := Ticks(p, id, sa, front);
      var (sl, cl) := TimerTick(p, id, sf, b[|b| - 1]);
      assert Ticks(p, id, sa, b) == (sl, cf + cl);
      assert Ticks(p, id, s, a + b) == (sl, (ca + cf) + cl);
      assert (ca + cf) + cl == ca + (cf + cl);
    }
  }

  /**
   * From power-up, with a driver that never acknowledges, the node is shut
   * down after exactly 201 + 11 callbacks.
   */
  lemma ShutdownWithoutAck(p: Protocol, id: int, rxs: seq<seq<byte>>)
    requires |rxs| >= 201 && NoAck(id, rxs)
    ensures Ticks(p, id, InitialState(), rxs).0.shutdown <==> |rxs| >= 212
  {
    var a, b := rxs[..201], rxs[201..];
    assert a + b == rxs;
    StartDelaySendsNothing(p, id, a);
    var sa := Ticks(p, id, InitialState(), a).0;
    assert NoAck(id, b) by {
      forall k | 0 <= k < |b| ensures !InitAck(true, id, b[k]) {
        assert b[k] == rxs[201 + k];
      }
    }
    UnansweredInitCounts(p, id, sa, b);
    TicksSplit(p, id, InitialState(), a, b);
  }

  /**
   * Once acknowledged, the init sequence takes five callbacks and sends, in
   * order, the main-data request, a zero velocity command and a position
   * reset; then the node is initialised.
   */
  lemma InitSequenceOrder(p: Protocol, id: int, s: NodeState, rxs: seq<seq<byte>>)
    requires NodeInvariant(s) && s.initStep == 1 && s.startDelay == 201 && !s.initSetting
    requires !s.initMotor && !s.shutdown && s.initError <= 10 && |rxs| == 5
    ensures var (r, cmds) := Ticks(p, id, s, rxs);
      && r.initSetting && r.initStep == 5 && !r.shutdown
      && cmds == [MainDataRequest(p), Cmd(p.pidPntVelCmd, 0, 0, 0, 0), Cmd(p.pidPosiReset, 0, 0, 0, 0)]
  {
    var t1 := TimerTick(p, id, s, rxs[0]);
    assert t1 == (s.(initStep := 2), [MainDataRequest(p)]);
    var t2 := TimerTick(p, id, t1.0, rxs[1]);
    assert t2 == (s.(initStep := 3), []);
    var t3 := TimerTick(p, id, t2.0, rxs[2]);
    assert t3 == (s.(initStep := 4), [Cmd(p.pidPntVelCmd, 0, 0, 0, 0)]);
    var t4 := TimerTick(p, id, t3.0, rxs[3]);
    assert t4 == (s.(initStep := 5), [Cmd(p.pidPosiReset, 0, 0, 0, 0)]);
    var t5 := TimerTick(p, id, t4.0, rxs[4]);
    assert t5 == (s.(initStep := 5, initSetting := true), []);
    assert rxs[..1][..0] == [] && rxs[..2][..1] == rxs[..1] && rxs[..3][..2] == rxs[..2];
    assert rxs[..4][..3] == rxs[..3] && rxs[..4] == rxs[..|rxs| - 1];
    assert [] + t1.1 == t1.1;
    assert Ticks(p, id, s, rxs[..1]) == (t1.0, t1.1);
    assert Ticks(p, id, s, rxs[..2]) == (t2.0, t1.1 + t2.1);
    assert Ticks(p, id, s, rxs[..3]) == (t3.0, t1.1 + t2.1 + t3.1);
    assert Ticks(p, id, s, rxs[..4]) == (t4.0, t1.1 + t2.1 + t3.1 + t4.1);
  }

  /**
   * After initialisation every callback ends with the main-data request. A
   * pending command goes first: the stored pair, as torque-off exactly when
   * both RPMs are 0 and as a velocity command otherwise, carrying the right
   * RPM's low and high byte, then the left RPM's. It is no longer pending
   * afterwards.
   */
  lemma InitialisedTick(p: Protocol, id: int, s: NodeState, rx: seq<byte>)
    requires p.Valid() && NodeInvariant(s) && s.initSetting
    ensures var (r, cmds) := TimerTick(p, id, s, rx);
      && !r.sendCmdRpm && r.(sendCmdRpm := s.sendCmdRpm) == s
      && cmds[|cmds| - 1] == MainDataRequest(p)
      && (s.sendCmdRpm ==>
            && |cmds| == 2 && cmds[0] == RpmCmd(p, s.leftRpm, s.rightRpm)
            && (cmds[0].pid == p.pidPntTqOff <==> s.leftRpm == 0 && s.rightRpm == 0)
            && (cmds[0].pid == p.pidPntVelCmd <==> s.leftRpm != 0 || s.rightRpm != 0)
            && var lb, rb := Short2Byte(ToShort(s.leftRpm)), Short2Byte(ToShort(s.rightRpm));
               cmds[0].Arr() == [rb.byLow, rb.byHigh, lb.byLow, lb.byHigh])
      && (!s.sendCmdRpm ==> |cmds| == 1)
  {
  }

  /**
   * The velocity command carries right then left RPM as little-endian 16-bit
   * words: the driver decodes each as the RPM modulo 2^16.
   */
  lemma RpmCmdCarriesRpms(p: Protocol, mid: int, id: int, left: int, right: int)
    requires p.Valid() && (left != 0 || right != 0)
    ensures var pk := Packet(p, p.pidPntVelCmd, mid, id, RpmCmd(p, left, right).Arr());
      && |pk| == 13
      && Byte2Short(pk[6], pk[7]) == right % 0x1_0000
      && Byte2Short(pk[9], pk[10]) == left % 0x1_0000
  {
    var c := RpmCmd(p, left, right);
    var pk := Packet(p, p.pidPntVelCmd, mid, id, c.Arr());
    PntVelCmdLayout(p, mid, id, c.Arr());
    assert pk[6] == c.a0 && pk[7] == c.a1 && pk[9] == c.a2 && pk[10] == c.a3;
    IntRoundTrip(right);
    IntRoundTrip(left);
  }

  class MdControllerNode {
    const com: Communication
    /** Com.nIDMDT (parameter "MDT") and Motor.ID (parameter "ID"). */
    const mdt: int
    const id: int

    var leftRpm: int
    var rightRpm: int
    var initMotor: bool
    var initError: int
    var fgInitsetting: bool
    var byCntInitStep: byte
    var byCntStartDelay: byte
    var sendCmdRpm: bool
    var shutdown: bool

    ghost predicate Valid()
      reads this, com
    {
      com.Valid() && NodeInvariant(View())
    }

    function View(): NodeState
      reads this
    {
      NodeState(leftRpm, rightRpm, initMotor, initError, fgInitsetting, byCntInitStep,
                byCntStartDelay, sendCmdRpm, shutdown)
    }

    constructor (c: Communication, nIdMdt: int, motorId: int)
      requires c.Valid()
      ensures Valid() && com == c && mdt == nIdMdt && id == motorId
      ensures View() == InitialState()
    {
      com := c;
      mdt := nIdMdt;
      id := motorId;
      leftRpm, rightRpm := 0, 0;
      initMotor, initError := true, 0;
      fgInitsetting := false;
      byCntInitStep := 1;
      byCntStartDelay := 0;
      sendCmdRpm := false;
      shutdown := false;
    }

    /** cmdRpmCallback: the message's data[0] is the left RPM and data[1] the right one. */
    method CmdRpmCallback(data: seq<int>)
      requires Valid() && |data| >= 2
      modifies this
      ensures Valid()
      ensures View() == RpmCommand(old(View()), data[0], data[1])
    {
      if leftRpm != data[0] || rightRpm != data[1] {
        leftRpm := data[0];
        rightRpm := data[1];
        sendCmdRpm := true;
      }
    }

    /** PutMdData with this node's MID and ID. */
    method Send(c: Cmd)
      requires Valid()
      modifies com`written, com.sndBuf
      ensures Valid()
      ensures com.written == old(com.written) + Wire(com.proto, mdt, id, [c])
    {
      assert [c][..0] == [];
      var _ := com.PutMdData(c.pid, mdt, id, c.Arr());
    }

    /** InitMotorSequence. */
    method InitMotorSequence()
      requires Valid() && !fgInitsetting && byCntStartDelay == 201
      modifies this, com`written, com.sndBuf
      ensures Valid()
      ensures View() == InitSequence(com.proto, old(View())).0
      ensures com.written == old(com.written) + Wire(com.proto, mdt, id, InitSequence(com.proto, old(View())).1)
    {
      if byCntInitStep == 1 {
        Send(MainDataRequest(com.proto));
        if initMotor {
          initError := initError + 1;
        } else {
          byCntInitStep := byCntInitStep + 1;
        }
        if initError > 10 {
          shutdown := true;
        }
      } else if byCntInitStep == 2 {
        byCntInitStep := byCntInitStep + 1;
      } else if byCntInitStep == 3 {
        Send(Cmd(com.proto.pidPntVelCmd, 0, 0, 0, 0));
        byCntInitStep := byCntInitStep + 1;
      } else if byCntInitStep == 4 {
        Send(Cmd(com.proto.pidPosiReset, 0, 0, 0, 0));
        byCntInitStep := byCntInitStep + 1;
      } else {
        fgInitsetting := true;
      }
    }

    /** The initialised branch of timerCallback: a pending command, then the main-data request. */
    method ForwardAndRequest()
      requires Valid() && fgInitsetting
      modifies this`sendCmdRpm, com`written, com.sndBuf
      ensures Valid()
      ensures View() == TimerStep(com.proto, old(View())).0
      ensures com.written == old(com.written) + Wire(com.proto, mdt, id, TimerStep(com.proto, old(View())).1)
    {
      if sendCmdRpm {
        var c := RpmCmd(com.proto, leftRpm, rightRpm);
        Send(c);
        sendCmdRpm := false;
        Send(MainDataRequest(com.proto));
        WireAppend(com.proto, mdt, id, [c], [MainDataRequest(com.proto)]);
        assert [c] + [MainDataRequest(com.proto)] == [c, MainDataRequest(com.proto)];
      } else {
        Send(MainDataRequest(com.proto));
      }
    }

    /**
     * timerCallback, given the bytes the read at its start produced (at most
     * MAX_DATA_SIZE, the read loop's bound).
     */
    method TimerCallback(rx: seq<byte>)
      requires Valid() && !shutdown && |rx| <= com.proto.maxDataSize
      modifies this, com, com.rcvBuf, com.sndBuf
      ensures Valid()
      ensures View() == TimerTick(com.proto, id, old(View()), rx).0
      ensures com.written == old(com.written) + Wire(com.proto, mdt, id, TimerTick(com.proto, id, old(View()), rx).1)
      ensures if |rx| > 0 && !old(initMotor) then com.RxView() == Analyze(com.proto, old(com.RxView()), rx).0
              else com.RxView() == old(com.RxView())
    {
      var acked := com.ReceiveDataFromController(initMotor, id, rx);
      if acked {
        initMotor := false;
      }
      assert View() == AfterReceive(old(View()), id, rx);
      if fgInitsetting {
        ForwardAndRequest();
      } else {
        if byCntStartDelay <= 200 {
          byCntStartDelay := byCntStartDelay + 1;
        } else {
          InitMotorSequence();
        }
      }
    }
  }
}
