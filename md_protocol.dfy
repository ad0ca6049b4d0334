/**
 * The motor-driver serial protocol as values: the packets PutMdData builds
 * and the byte-at-a-time receive state machine of AnalyzeReceivedData /
 * MdReceiveProc (MD_controller/md_controller/src/com.cpp).
 *
 * The constants of com.hpp are not part of this model; they are the fields
 * of a `Protocol` record, constrained only by what com.cpp itself needs.
 */
module MdProtocol {
  import opened MdBytes

  /** SUCCESS / FAIL return codes. */
  datatype Status = Success | Fail

  /** The com.hpp constants used by com.cpp and md_controller.cpp. */
  datatype Protocol = Protocol(
    pidReqPidData: byte, pidPosiReset: byte, pidCommand: byte,
    pidPntVelCmd: byte, pidPntTqOff: byte, pidVelCmd: byte,
    pidMainData: byte, maxPacketSize: int, maxDataSize: int)
  {
    /**
     * The six send PIDs are distinct case labels of one C switch; the send
     * buffer holds the 13-byte PNT_VEL_CMD packet and is cleared by a BYTE
     * counter; a read fills at most MAX_DATA_SIZE bytes of a 250-byte buffer.
     */
    predicate Valid() {
      && pidReqPidData != pidPosiReset && pidReqPidData != pidCommand
      && pidReqPidData != pidPntVelCmd && pidReqPidData != pidPntTqOff
      && pidReqPidData != pidVelCmd && pidPosiReset != pidCommand
      && pidPosiReset != pidPntVelCmd && pidPosiReset != pidPntTqOff
      && pidPosiReset != pidVelCmd && pidCommand != pidPntVelCmd
      && pidCommand != pidPntTqOff && pidCommand != pidVelCmd
      && pidPntVelCmd != pidPntTqOff && pidPntVelCmd != pidVelCmd
      && pidPntTqOff != pidVelCmd
      && 13 <= maxPacketSize <= 255
      && 1 <= maxDataSize <= 250
    }
  }

  /** The header byte the sender always puts at index 1. */
  const TMID: byte := 184

  /** Modular byte sum (the running `BYTE` checksum accumulates this). */
  function Sum(s: seq<int>): int
  {
    if s == [] then 0 else Sum(s[..|s| - 1]) + s[|s| - 1]
  }

  lemma {:induction false} SumAppend(s: seq<int>, t: seq<int>)
    ensures Sum(s + t) == Sum(s) + Sum(t)
    decreases |t|
  {
    if t == [] {
      assert s + t == s;
    } else {
      assert (s + t)[..|s + t| - 1] == s + t[..|t| - 1];
      SumAppend(s, t[..|t| - 1]);
    }
  }

  // ---------------------------------------------------------------------
  // Sending: PutMdData
  // ---------------------------------------------------------------------

  /** Total packet length (`byPidDataSize`) per PID; 0 for a PID the switch does not know. */
  function PacketLength(p: Protocol, pid: byte): nat
  {
    if pid == p.pidReqPidData || pid == p.pidPosiReset || pid == p.pidCommand then 7
    else if pid == p.pidPntVelCmd then 13
    else if pid == p.pidPntTqOff then 9
    else if pid == p.pidVelCmd then 8
    else 0
  }

  predicate KnownPid(p: Protocol, pid: byte)
  {
    PacketLength(p, pid) != 0
  }

  /** Bytes 0..3: MID, 184, ID, PID (ints are truncated to BYTE on store). */
  function Header(pid: byte, mid: int, id: int): (h: seq<byte>)
    ensures |h| == 4
  {
    [mid % 256, TMID, id % 256, pid]
  }

  /** Bytes 4 .. length-2: the data-size byte and the data of each PID case. */
  function Payload(p: Protocol, pid: byte, arr: seq<int>): seq<byte>
    requires |arr| == 4
  {
    if pid == p.pidReqPidData || pid == p.pidPosiReset || pid == p.pidCommand then
      [1, arr[0] % 256]
    else if pid == p.pidPntVelCmd then
      [7, 1, arr[0] % 256, arr[1] % 256, 1, arr[2] % 256, arr[3] % 256, 0]
    else if pid == p.pidPntTqOff then
      [3, 1, 1, 0]
    else if pid == p.pidVelCmd then
      [2, arr[0] % 256, arr[1] % 256]
    else
      []
  }

  /** `~sum + 1` on a BYTE: the two's-complement of the byte sum. */
  function Checksum(body: seq<int>): (c: byte)
  {
    (256 - Sum(body) % 256) % 256
  }

  /** The bytes PutMdData writes to the serial port (nothing for an unknown PID). */
  function Packet(p: Protocol, pid: byte, mid: int, id: int, arr: seq<int>): seq<byte>
    requires |arr| == 4
  {
    if KnownPid(p, pid) then
      var body := Header(pid, mid, id) + Payload(p, pid, arr);
      body + [Checksum(body)]
    else
      []
  }

  function Zeros(n: nat): (z: seq<byte>)
    ensures |z| == n && forall k :: 0 <= k < n ==> z[k] == 0
  {
    seq(n, k => 0)
  }

  /**
   * The whole send buffer after PutMdData: cleared, the header stored, and
   * for a known PID the rest of the packet.
   */
  function SendBuffer(p: Protocol, pid: byte, mid: int, id: int, arr: seq<int>): seq<byte>
    requires p.Valid() && |arr| == 4
  {
    var image := if KnownPid(p, pid) then Packet(p, pid, mid, id, arr) else Header(pid, mid, id);
    assert |image| <= 13 <= p.maxPacketSize;
    image + Zeros(p.maxPacketSize - |image|)
  }

  /** Layout of every packet: header, data-size byte = length - 6, length by PID. */
  lemma PacketLayout(p: Protocol, pid: byte, mid: int, id: int, arr: seq<int>)
    requires |arr| == 4 && KnownPid(p, pid)
    ensures var pk := Packet(p, pid, mid, id, arr);
      && |pk| == PacketLength(p, pid)
      && pk[0] == mid % 256 && pk[1] == 184 && pk[2] == id % 256 && pk[3] == pid
      && pk[4] == |pk| - 6
  {
  }

  /** The checksum byte makes the sum of all packet bytes 0 modulo 256. */
  lemma PacketChecksum(p: Protocol, pid: byte, mid: int, id: int, arr: seq<int>)
    requires |arr| == 4 && KnownPid(p, pid)
    ensures Sum(Packet(p, pid, mid, id, arr)) % 256 == 0
  {
    var body := Header(pid, mid, id) + Payload(p, pid, arr);
    SumAppend(body, [Checksum(body)]);
    assert Sum([Checksum(body)]) == Checksum(body) by {
      assert [Checksum(body)][..0] == [];
    }
  }

  /** PNT_VEL_CMD carries two enable flags, nArray[0..1], nArray[2..3] and a 0. */
  lemma PntVelCmdLayout(p: Protocol, mid: int, id: int, arr: seq<int>)
    requires p.Valid() && |arr| == 4
    ensures var pk := Packet(p, p.pidPntVelCmd, mid, id, arr);
      && |pk| == 13 && pk[4] == 7 && pk[5] == 1 && pk[8] == 1 && pk[11] == 0
      && pk[6] == arr[0] % 256 && pk[7] == arr[1] % 256
      && pk[9] == arr[2] % 256 && pk[10] == arr[3] % 256
  {
  }

  // ---------------------------------------------------------------------
  // Receiving: AnalyzeReceivedData and MdReceiveProc
  // ---------------------------------------------------------------------

  /**
   * The `Com` fields the receive state machine reads and writes. `buf` has an
   * entry for every index a BYTE `byPacketNum` can reach.
   */
  datatype RxState = RxState(
    step: int, packetNum: byte, chkSum: byte, maxDataNum: byte, dataNum: byte,
    comError: byte, dataChk: bool, buf: seq<byte>, rpm: int, position: int)

  /** What holds between bytes: a full-size buffer, a step of the switch, fewer than 10 errors. */
  predicate RxInvariant(s: RxState)
  {
    |s.buf| == 256 && 0 <= s.step <= 5 && s.comError < 10
  }

  /**
   * The result of one byte: new state, the call-local header counter `count`,
   * whether the byte completed a packet with a zero checksum (`fgPacketOK`),
   * and whether the error limit ended the scan.
   */
  datatype Scan = Scan(s: RxState, count: int, accepted: bool, halted: bool)

  /**
   * One pass of `switch (Com.byStep)`. With `resync` the checksum and packet
   * counter restart after every checksum byte (the corrected parser); without
   * it they are left as the source leaves them.
   */
  function Consume(p: Protocol, resync: bool, s: RxState, b: byte, count: int): Scan
    requires |s.buf| == 256
  {
    var stored := s.(chkSum := (s.chkSum + b) % 256, buf := s.buf[s.packetNum := b],
                     packetNum := (s.packetNum + 1) % 256);
    if s.step == 0 then
      if b == 184 || b == 183 then
        var s1 := stored.(comError := 0);
        Scan(if count + 1 == 2 then s1.(step := 1) else s1, count + 1, false, false)
      else
        Scan(s.(step := 0, packetNum := 0, comError := (s.comError + 1) % 256), 0, false, false)
    else if s.step == 1 then
      if b == 1 || b == 2 then
        Scan(stored.(step := 2, comError := 0), count, false, false)
      else
        Scan(s.(step := 0, packetNum := 0, comError := (s.comError + 1) % 256), count, false, false)
    else if s.step == 2 then
      Scan(stored.(step := 3), count, false, false)
    else if s.step == 3 then
      Scan(stored.(maxDataNum := b, dataNum := 0, step := 4), count, false, false)
    else if s.step == 4 then
      var n := (s.dataNum + 1) % 256;
      if n >= p.maxDataSize then Scan(stored.(dataNum := n, step := 0), count, false, false)
      else if n >= s.maxDataNum then Scan(stored.(dataNum := n, step := 5), count, false, false)
      else Scan(stored.(dataNum := n), count, false, false)
    else if s.step == 5 then
      if stored.chkSum == 0 then
        Scan(stored.(dataChk := true, dataNum := 0, maxDataNum := 0, step := 0), count, true, false)
      else if resync then
        Scan(stored.(step := 0, chkSum := 0, packetNum := 0), count, false, false)
      else
        Scan(stored.(step := 0), count, false, false)
    else
      Scan(s.(step := 0), count, false, false)
  }

  /** MdReceiveProc: decode rpm (bytes 5-6) and position (bytes 15-18) of a PID_MAIN_DATA packet. */
  function ReceiveProc(p: Protocol, s: RxState): RxState
    requires |s.buf| == 256
  {
    if s.buf[3] == p.pidMainData then
      s.(rpm := Byte2Short(s.buf[5], s.buf[6]),
         position := Byte2LInt(s.buf[15], s.buf[16], s.buf[17], s.buf[18]))
    else s
  }

  /** The first MAX_PACKET_SIZE entries of the receive buffer cleared. */
  function ClearPrefix(buf: seq<byte>, n: int): (r: seq<byte>)
    ensures |r| == |buf|
    ensures forall k :: 0 <= k < |buf| && k < n ==> r[k] == 0
    ensures forall k :: 0 <= k < |buf| && n <= k ==> r[k] == buf[k]
  {
    seq(|buf|, k requires 0 <= k < |buf| => if k < n then 0 else buf[k])
  }

  /** The reset done when the error counter reaches 10. */
  function ErrorReset(p: Protocol, s: RxState): RxState
    requires |s.buf| == 256
  {
    s.(comError := 0, step := 0, chkSum := 0, maxDataNum := 0, dataNum := 0,
       buf := ClearPrefix(s.buf, p.maxPacketSize))
  }

  /** One iteration of the loop over the input: the switch, delivery, the error check. */
  function Step(p: Protocol, resync: bool, s: RxState, b: byte, count: int): Scan
    requires |s.buf| == 256
  {
    var c := Consume(p, resync, s, b, count);
    var s1 := if c.accepted then ReceiveProc(p, c.s.(packetNum := 0)) else c.s;
    if s1.comError == 10 then Scan(ErrorReset(p, s1), c.count, c.accepted, true)
    else Scan(s1, c.count, c.accepted, false)
  }

  /** The loop over byArray from index j on. */
  function Run(p: Protocol, resync: bool, s: RxState, bytes: seq<byte>, j: nat, count: int): (r: RxState)
    requires |s.buf| == 256
    ensures |r.buf| == 256
    decreases |bytes| - j
  {
    if j >= |bytes| then s
    else
      var sc := Step(p, resync, s, bytes[j], count);
      if sc.halted then sc.s else Run(p, resync, sc.s, bytes, j + 1, sc.count)
  }

  /** AnalyzeReceivedData as written: refuse a full buffer, otherwise scan the input. */
  function Analyze(p: Protocol, s: RxState, bytes: seq<byte>): (RxState, Status)
    requires |s.buf| == 256
  {
    if s.packetNum >= p.maxPacketSize then (s.(step := 0), Fail)
    else (Run(p, false, s, bytes, 0, 0), Success)
  }
}
