/**
 * The global `Com` structure of com.cpp as an object: the send buffer filled
 * by PutMdData, the receive buffer and counters stepped by
 * AnalyzeReceivedData, and the decoded values written by MdReceiveProc.
 * `serialPort.Write` is the `written` log.
 */
module MdCom {
  import opened MdBytes
  import opened MdProtocol
  import opened MdParserProps

  class Communication {
    const proto: Protocol
    const sndBuf: array<byte>
    const rcvBuf: array<byte>

    /** Every byte written to the serial port, in order. */
    var written: seq<byte>

    var byStep: int
    var byPacketNum: byte
    var byChkSum: byte
    var byMaxDataNum: byte
    var byDataNum: byte
    var byChkComError: byte
    var fgComDataChk: bool
    var rpm: int
    var position: int

    ghost predicate Valid()
      reads this
    {
      && proto.Valid()
      && sndBuf.Length == proto.maxPacketSize
      && rcvBuf.Length == 256
      && sndBuf != rcvBuf
      && 0 <= byStep <= 5
      && byChkComError < 10
    }

    /** The receive side of the structure as a value. */
    ghost function RxView(): RxState
      reads this, rcvBuf
    {
      RxState(byStep, byPacketNum, byChkSum, byMaxDataNum, byDataNum, byChkComError,
              fgComDataChk, rcvBuf[..], rpm, position)
    }

    /** A zero-initialised global structure. */
    constructor (p: Protocol)
      requires p.Valid()
      ensures Valid() && proto == p && fresh(sndBuf) && fresh(rcvBuf)
      ensures written == [] && RxInvariant(RxView())
      ensures byStep == 0 && byPacketNum == 0 && byChkSum == 0 && !fgComDataChk
    {
      proto := p;
      sndBuf := new byte[p.maxPacketSize](_ => 0);
      rcvBuf := new byte[256](_ => 0);
      written := [];
      byStep, byPacketNum, byChkSum := 0, 0, 0;
      byMaxDataNum, byDataNum, byChkComError := 0, 0, 0;
      fgComDataChk := false;
      rpm, position := 0, 0;
    }

    /** The clearing loop at the top of PutMdData. */
    method ClearSendBuffer()
      requires Valid()
      modifies sndBuf
      ensures sndBuf[..] == Zeros(sndBuf.Length)
    {
      var j := 0;
      while j < proto.maxPacketSize
        invariant 0 <= j <= sndBuf.Length
        invariant forall k :: 0 <= k < j ==> sndBuf[k] == 0
      {
        sndBuf[j] := 0;
        j := j + 1;
      }
    }

    /** The `switch (byPID)` of PutMdData: store the data-size byte and the data. */
    method StoreData(byPID: byte, nArray: seq<int>) returns (pidDataSize: nat)
      requires Valid() && |nArray| == 4
      modifies sndBuf
      ensures pidDataSize == PacketLength(proto, byPID)
      ensures var data := Payload(proto, byPID, nArray);
        && (pidDataSize != 0 ==> 4 + |data| == pidDataSize - 1)
        && sndBuf[..4] == old(sndBuf[..4])
        && sndBuf[4..4 + |data|] == data
        && sndBuf[4 + |data|..] == old(sndBuf[4 + |data|..])
    {
      pidDataSize := PacketLength(proto, byPID);
      if byPID == proto.pidReqPidData || byPID == proto.pidPosiReset || byPID == proto.pidCommand {
        sndBuf[4] := 1;
        sndBuf[5] := nArray[0] % 256;
      } else if byPID == proto.pidPntVelCmd {
        sndBuf[4] := 7;
        sndBuf[5] := 1;
        sndBuf[6] := nArray[0] % 256;
        sndBuf[7] := nArray[1] % 256;
        sndBuf[8] := 1;
        sndBuf[9] := nArray[2] % 256;
        sndBuf[10] := nArray[3] % 256;
        sndBuf[11] := 0;
      } else if byPID == proto.pidPntTqOff {
        sndBuf[4] := 3;
        sndBuf[5] := 1;
        sndBuf[6] := 1;
        sndBuf[7] := 0;
      } else if byPID == proto.pidVelCmd {
        sndBuf[4] := 2;
        sndBuf[5] := nArray[0] % 256;
        sndBuf[6] := nArray[1] % 256;
      }
    }

    /** The checksum loop: the byte sum of the first `n` bytes of the send buffer. */
    method SendSum(n: nat) returns (sum: int)
      requires n <= sndBuf.Length
      ensures 0 <= sum < 256 && sum == Sum(sndBuf[..n]) % 256
    {
      sum := 0;
      var i := 0;
      while i < n
        invariant 0 <= i <= n
        invariant 0 <= sum < 256 && sum == Sum(sndBuf[..i]) % 256
      {
        assert sndBuf[..i + 1][..i] == sndBuf[..i];
        sum := (sum + sndBuf[i]) % 256;
        i := i + 1;
      }
    }

    /**
     * PutMdData: clear the send buffer, store MID, 184, ID and PID, fill the
     * PID's data, close it with the checksum byte and write the packet.
     */
    method PutMdData(byPID: byte, byMID: int, idNum: int, nArray: seq<int>) returns (status: Status)
      requires Valid() && |nArray| == 4
      modifies this`written, sndBuf
      ensures Valid()
      ensures sndBuf[..] == SendBuffer(proto, byPID, byMID, idNum, nArray)
      ensures written == old(written) + Packet(proto, byPID, byMID, idNum, nArray)
      ensures status == Success
    {
      ClearSendBuffer();
      StoreHeader(byPID, byMID, idNum);
      ghost var header := Header(byPID, byMID, idNum);
      var pidDataSize := StoreData(byPID, nArray);
      ghost var data := Payload(proto, byPID, nArray);
      ghost var body := header + data;
      assert sndBuf[..] == sndBuf[..4] + sndBuf[4..4 + |data|] + sndBuf[4 + |data|..];
      assert sndBuf[..] == body + Zeros(sndBuf.Length - |body|);
      if pidDataSize != 0 {
        CloseFrame(pidDataSize, body);
        written := written + sndBuf[..pidDataSize];
      }
      status := Success;
    }

    /** The four header stores of PutMdData, into a cleared buffer. */
    method StoreHeader(byPID: byte, byMID: int, idNum: int)
      requires Valid() && sndBuf[..] == Zeros(sndBuf.Length)
      modifies sndBuf
      ensures sndBuf[..4] == Header(byPID, byMID, idNum)
      ensures sndBuf[4..] == Zeros(sndBuf.Length - 4)
    {
      sndBuf[0] := byMID % 256;
      sndBuf[1] := TMID;
      sndBuf[2] := idNum % 256;
      sndBuf[3] := byPID;
    }

    /** The checksum byte after the `n - 1` bytes of `body`: the two's complement of their sum. */
    method CloseFrame(n: nat, ghost body: seq<byte>)
      requires Valid() && 1 <= n <= sndBuf.Length && |body| == n - 1
      requires sndBuf[..] == body + Zeros(sndBuf.Length - |body|)
      modifies sndBuf
      ensures sndBuf[..] == body + [Checksum(body)] + Zeros(sndBuf.Length - n)
      ensures sndBuf[..n] == body + [Checksum(body)]
    {
      var sum := SendSum(n - 1);
      assert sndBuf[..n - 1] == body;
      sndBuf[n - 1] := (256 - sum) % 256;
      assert sndBuf[..] == body + [Checksum(body)] + Zeros(sndBuf.Length - n);
    }

    /** MdReceiveProc: decode the fields of a PID_MAIN_DATA packet. */
    method MdReceiveProc() returns (status: Status)
      requires Valid()
      modifies this`rpm, this`position
      ensures RxView() == ReceiveProc(proto, old(RxView()))
      ensures status == Success
    {
      var byRcvPID := rcvBuf[3];
      if byRcvPID == proto.pidMainData {
        rpm := Byte2Short(rcvBuf[5], rcvBuf[6]);
        position := Byte2LInt(rcvBuf[15], rcvBuf[16], rcvBuf[17], rcvBuf[18]);
      }
      status := Success;
    }

    /** The bookkeeping shared by most cases of the switch: add to the checksum, store, advance. */
    method Store(b: byte)
      requires Valid()
      modifies this`byChkSum, this`byPacketNum, rcvBuf
      ensures Valid()
      ensures RxView() == old(RxView()).(chkSum := (old(byChkSum) + b) % 256,
        buf := old(rcvBuf[..])[old(byPacketNum) := b], packetNum := (old(byPacketNum) + 1) % 256)
    {
      byChkSum := (byChkSum + b) % 256;
      rcvBuf[byPacketNum] := b;
      byPacketNum := (byPacketNum + 1) % 256;
    }

    /** The `switch (Com.byStep)` for one input byte; `count` is the call-local header counter. */
    method ConsumeByte(b: byte, count: int) returns (count': int, packetOK: bool)
      requires Valid()
      modifies this, rcvBuf
      ensures written == old(written)
      ensures var c := Consume(proto, false, old(RxView()), b, count);
        RxView() == c.s && count' == c.count && packetOK == c.accepted
    {
      count' := count;
      packetOK := false;
      if byStep == 0 {
        if b == 184 || b == 183 {
          Store(b);
          byChkComError := 0;
          count' := count + 1;
          if count' == 2 {
            byStep := byStep + 1;
          }
        } else {
          count' := 0;
          byStep := 0;
          byPacketNum := 0;
          byChkComError := (byChkComError + 1) % 256;
        }
      } else if byStep == 1 {
        if b == 1 || b == 2 {
          Store(b);
          byStep := byStep + 1;
          byChkComError := 0;
        } else {
          byStep := 0;
          byPacketNum := 0;
          byChkComError := (byChkComError + 1) % 256;
        }
      } else if byStep == 2 {
        Store(b);
        byStep := byStep + 1;
      } else if byStep == 3 {
        byMaxDataNum := b;
        byDataNum := 0;
        Store(b);
        byStep := byStep + 1;
      } else if byStep == 4 {
        Store(b);
        byDataNum := (byDataNum + 1) % 256;
        if byDataNum >= proto.maxDataSize {
          byStep := 0;
        } else if byDataNum >= byMaxDataNum {
          byStep := byStep + 1;
        }
      } else {
        Store(b);
        if byChkSum == 0 {
          packetOK := true;
          fgComDataChk := true;
          byDataNum := 0;
          byMaxDataNum := 0;
        }
        byStep := 0;
      }
    }

    /** The reset done when the error counter reaches 10: counters to 0, buffer prefix cleared. */
    method ResetAfterErrors()
      requires proto.Valid() && sndBuf.Length == proto.maxPacketSize && rcvBuf.Length == 256
      requires sndBuf != rcvBuf
      modifies this, rcvBuf
      ensures Valid() && written == old(written)
      ensures RxView() == ErrorReset(proto, old(RxView()))
    {
      byChkComError := 0;
      byStep := 0;
      byChkSum := 0;
      byMaxDataNum := 0;
      byDataNum := 0;
      ghost var full := rcvBuf[..];
      var i := 0;
      while i < proto.maxPacketSize
        invariant 0 <= i <= proto.maxPacketSize
        invariant forall k :: 0 <= k < 256 ==> rcvBuf[k] == if k < i then 0 else full[k]
        modifies rcvBuf
      {
        rcvBuf[i] := 0;
        i := i + 1;
      }
      assert rcvBuf[..] == ClearPrefix(full, proto.maxPacketSize);
    }

    /** One pass of the receive loop: the switch, delivery of an accepted packet, the error check. */
    method StepByte(b: byte, count: int) returns (count': int, halted: bool)
      requires Valid()
      modifies this, rcvBuf
      ensures Valid() && written == old(written)
      ensures var sc := Step(proto, false, old(RxView()), b, count);
        RxView() == sc.s && count' == sc.count && halted == sc.halted
    {
      var packetOK;
      count', packetOK := ConsumeByte(b, count);
      if packetOK {
        byPacketNum := 0;
        var _ := MdReceiveProc();
      }
      halted := byChkComError == 10;
      if halted {
        ResetAfterErrors();
      }
      StepKeepsInvariant(proto, false, old(RxView()), b, count);
    }

    /**
     * AnalyzeReceivedData: refuse to start with a full receive buffer,
     * otherwise step the state machine over the input, deliver every packet
     * whose checksum comes out 0, and give up on the rest of the input after
     * 10 errors.
     */
    method AnalyzeReceivedData(byArray: seq<byte>) returns (status: Status)
      requires Valid() && |byArray| <= proto.maxDataSize
      modifies this, rcvBuf
      ensures Valid() && written == old(written)
      ensures (RxView(), status) == Analyze(proto, old(RxView()), byArray)
    {
      if byPacketNum >= proto.maxPacketSize {
        byStep := 0;
        return Fail;
      }
      ghost var target := Run(proto, false, RxView(), byArray, 0, 0);
      var count := 0;
      var j := 0;
      while j < |byArray|
        invariant 0 <= j <= |byArray|
        invariant Valid() && written == old(written)
        invariant Run(proto, false, RxView(), byArray, j, count) == target
      {
        var halted;
        count, halted := StepByte(byArray[j], count);
        if halted {
          break;
        }
        j := j + 1;
      }
      status := Success;
    }

    /**
     * ReceiveDataFromController on the bytes one read produced: while the
     * motor is initialising, only look for the motor's ID at index 2 of the
     * reply; afterwards hand the bytes to the parser.
     */
    method ReceiveDataFromController(init: bool, motorId: int, rx: seq<byte>) returns (initOk: bool)
      requires Valid() && |rx| <= proto.maxDataSize
      modifies this, rcvBuf
      ensures Valid() && written == old(written)
      ensures initOk <==> InitAck(init, motorId, rx)
      ensures if |rx| > 0 && !init then RxView() == Analyze(proto, old(RxView()), rx).0
              else RxView() == old(RxView())
    {
      initOk := false;
      if |rx| > 0 {
        if init {
          if |rx| >= 3 && rx[2] == motorId {
            initOk := true;
          }
        } else {
          var _ := AnalyzeReceivedData(rx);
        }
      }
    }
  }

  /** The initialising driver answered with the motor's ID in byte 2. */
  predicate InitAck(init: bool, motorId: int, rx: seq<byte>)
  {
    init && |rx| >= 3 && rx[2] == motorId
  }
}
