/**
 * Properties of the receive state machine of com.cpp (AnalyzeReceivedData),
 * stated over the value model in MdProtocol.
 */
module MdParserProps {
  import opened MdBytes
  import opened MdProtocol

  // ---------------------------------------------------------------------
  // Single bytes
  // ---------------------------------------------------------------------

  /** Between bytes the step stays in 0..5 and the error counter below 10. */
  lemma StepKeepsInvariant(p: Protocol, resync: bool, s: RxState, b: byte, count: int)
    requires RxInvariant(s)
    ensures RxInvariant(Step(p, resync, s, b, count).s)
  {
  }

  lemma {:induction false} RunKeepsInvariant(p: Protocol, resync: bool, s: RxState, bytes: seq<byte>, j: nat, count: int)
    requires RxInvariant(s)
    ensures RxInvariant(Run(p, resync, s, bytes, j, count))
    decreases |bytes| - j
  {
    if j < |bytes| {
      StepKeepsInvariant(p, resync, s, bytes[j], count);
      var sc := Step(p, resync, s, bytes[j], count);
      if !sc.halted {
        RunKeepsInvariant(p, resync, sc.s, bytes, j + 1, sc.count);
      }
    }
  }

  /** A full receive buffer on entry: FAIL, the step reset, no byte consumed. */
  lemma FullBufferRefused(p: Protocol, s: RxState, bytes: seq<byte>)
    requires |s.buf| == 256 && s.packetNum >= p.maxPacketSize
    ensures Analyze(p, s, bytes) == (s.(step := 0), Fail)
  {
  }

  /** In step 0 only 183 and 184 are accepted; anything else restarts the packet and counts an error. */
  lemma BadHeaderByteRestarts(p: Protocol, resync: bool, s: RxState, b: byte, count: int)
    requires RxInvariant(s) && s.step == 0 && b != 183 && b != 184
    ensures var sc := Step(p, resync, s, b, count);
      && sc.s.step == 0 && sc.s.packetNum == 0 && sc.count == 0 && !sc.accepted
      && (s.comError < 9 ==> !sc.halted && sc.s.comError == s.comError + 1
                             && sc.s.chkSum == s.chkSum && sc.s.buf == s.buf)
      && (s.comError == 9 ==> sc.halted)
  {
  }

  /** In step 1 only the IDs 1 and 2 are accepted; anything else restarts the packet and counts an error. */
  lemma BadIdByteRestarts(p: Protocol, resync: bool, s: RxState, b: byte, count: int)
    requires RxInvariant(s) && s.step == 1 && b != 1 && b != 2
    ensures var sc := Step(p, resync, s, b, count);
      && sc.s.step == 0 && sc.s.packetNum == 0 && !sc.accepted
      && (s.comError < 9 ==> !sc.halted && sc.s.comError == s.comError + 1
                             && sc.s.chkSum == s.chkSum && sc.s.buf == s.buf)
      && (s.comError == 9 ==> sc.halted)
  {
  }

  /** The checksum byte completes a packet: accepted exactly when the running sum becomes 0; back to step 0 either way. */
  lemma ChecksumByteDecides(p: Protocol, resync: bool, s: RxState, b: byte, count: int)
    requires RxInvariant(s) && s.step == 5
    ensures var sc := Step(p, resync, s, b, count);
      && (sc.accepted <==> (s.chkSum + b) % 256 == 0)
      && sc.s.step == 0 && !sc.halted
      && (sc.accepted ==> sc.s.packetNum == 0 && sc.s.dataChk && sc.s.chkSum == 0)
      && (!sc.accepted && !resync ==> sc.s.packetNum == (s.packetNum + 1) % 256
                                      && sc.s.chkSum == (s.chkSum + b) % 256)
  {
  }

  /** A PID_MAIN_DATA packet updates rpm from bytes 5-6 and position from bytes 15-18; others leave them. */
  lemma DeliveryDecodes(p: Protocol, s: RxState)
    requires |s.buf| == 256
    ensures var r := ReceiveProc(p, s);
      && (s.buf[3] == p.pidMainData ==>
            r.rpm == s.buf[5] as int + 256 * s.buf[6] as int
            && r.position % 0x1_0000_0000
               == (s.buf[15] as int + s.buf[16] as int * 0x100 + s.buf[17] as int * 0x1_0000 + s.buf[18] as int * 0x100_0000) % 0x1_0000_0000)
      && (s.buf[3] != p.pidMainData ==> r == s)
  {
    Byte2LIntIsLittleEndian(s.buf[15], s.buf[16], s.buf[17], s.buf[18]);
  }

  /** The tenth error clears checksum, counters and the buffer prefix, and the rest of the input is ignored. */
  lemma {:induction false} ErrorLimitEndsScan(p: Protocol, resync: bool, s: RxState, pre: seq<byte>, b: byte, rest: seq<byte>, count: int)
    requires |s.buf| == 256 && Step(p, resync, s, b, count).halted
    ensures var r := Run(p, resync, s, pre + [b] + rest, |pre|, count);
      && r == Step(p, resync, s, b, count).s
      && r.chkSum == 0 && r.step == 0 && r.comError == 0 && r.dataNum == 0 && r.maxDataNum == 0
      && forall k :: 0 <= k < p.maxPacketSize && k < 256 ==> r.buf[k] == 0
  {
    assert (pre + [b] + rest)[|pre|] == b;
  }

  // ---------------------------------------------------------------------
  // Whole frames
  // ---------------------------------------------------------------------

  /** Header 183/184 twice, ID 1 or 2, a data-size byte matching the length, fewer data bytes than MAX_DATA_SIZE. */
  predicate FrameShape(p: Protocol, f: seq<byte>)
  {
    && |f| >= 7
    && (f[0] == 183 || f[0] == 184) && (f[1] == 183 || f[1] == 184)
    && (f[2] == 1 || f[2] == 2)
    && f[4] == |f| - 6 && |f| - 6 < p.maxDataSize
  }

  predicate WellFormedFrame(p: Protocol, f: seq<byte>)
  {
    FrameShape(p, f) && Sum(f) % 256 == 0
  }

  /** A state from which a packet starts cleanly: no partial packet, no residue. */
  predicate Clean(s: RxState)
  {
    RxInvariant(s) && s.step == 0 && s.packetNum == 0 && s.chkSum == 0
  }

  function Overlay(buf: seq<byte>, at: nat, f: seq<byte>): (r: seq<byte>)
    requires at + |f| <= |buf|
    ensures |r| == |buf|
  {
    buf[..at] + f + buf[at + |f|..]
  }

  function PhaseAfter(f: seq<byte>, i: nat): int
  {
    if i < 2 then 0 else if i < 5 then i - 1 else if i < |f| - 1 then 4 else 5
  }

  function CountAt(i: nat): int
  {
    if i < 2 then i else 2
  }

  /** The parser state after the first i bytes of a frame, starting in step 0. */
  function Mid(s: RxState, f: seq<byte>, i: nat): RxState
    requires |s.buf| == 256 && s.packetNum + |f| < 256 && i < |f|
  {
    if i == 0 then s
    else s.(step := PhaseAfter(f, i), packetNum := s.packetNum + i,
            chkSum := (s.chkSum + Sum(f[..i])) % 256,
            buf := Overlay(s.buf, s.packetNum, f[..i]), comError := 0,
            maxDataNum := if i >= 5 then f[4] else s.maxDataNum,
            dataNum := if i >= 5 then i - 5 else s.dataNum)
  }

  /** The parser state after a whole frame. */
  function FrameEnd(p: Protocol, resync: bool, s: RxState, f: seq<byte>): RxState
    requires |s.buf| == 256 && s.packetNum + |f| < 256 && |f| >= 6
  {
    var chk := (s.chkSum + Sum(f)) % 256;
    var t := s.(packetNum := s.packetNum + |f|, chkSum := chk, buf := Overlay(s.buf, s.packetNum, f),
                comError := 0, maxDataNum := f[4], dataNum := |f| - 6, step := 0);
    if chk == 0 then ReceiveProc(p, t.(dataChk := true, dataNum := 0, maxDataNum := 0, packetNum := 0))
    else if resync then t.(chkSum := 0, packetNum := 0)
    else t
  }

  lemma OverlayExtend(buf: seq<byte>, at: nat, f: seq<byte>, i: nat)
    requires i < |f| && at + |f| <= |buf|
    ensures Overlay(buf, at, f[..i])[at + i := f[i]] == Overlay(buf, at, f[..i + 1])
  {
    var l := Overlay(buf, at, f[..i])[at + i := f[i]];
    var r := Overlay(buf, at, f[..i + 1]);
    forall k | 0 <= k < |buf| ensures l[k] == r[k] {
      if k < at {
      } else if k < at + i {
        assert l[k] == f[..i][k - at];
      } else if k == at + i {
      } else {
        assert l[k] == buf[k];
      }
    }
  }

  lemma SumSnoc(f: seq<byte>, i: nat)
    requires i < |f|
    ensures Sum(f[..i + 1]) == Sum(f[..i]) + f[i]
  {
    assert f[..i + 1][..i] == f[..i];
  }

  /** Storing byte i of a frame in the state after i bytes gives the buffer, sum and count after i + 1. */
  lemma FrameStore(s: RxState, f: seq<byte>, i: nat)
    requires |s.buf| == 256 && s.packetNum + |f| < 256 && i + 1 < |f|
    ensures var m, t := Mid(s, f, i), Mid(s, f, i + 1);
      && m.buf[m.packetNum := f[i]] == t.buf
      && (m.chkSum + f[i]) % 256 == t.chkSum
      && (m.packetNum + 1) % 256 == t.packetNum
  {
    var m, t := Mid(s, f, i), Mid(s, f, i + 1);
    assert t.buf == Overlay(s.buf, s.packetNum, f[..i + 1]);
    assert t.chkSum == (s.chkSum + Sum(f[..i + 1])) % 256;
    assert t.packetNum == s.packetNum + i + 1;
    if i == 0 {
      assert f[..0] == [];
      assert Overlay(s.buf, s.packetNum, f[..0]) == s.buf;
    }
    assert m.buf == Overlay(s.buf, s.packetNum, f[..i]);
    assert m.chkSum == (s.chkSum + Sum(f[..i])) % 256;
    assert m.packetNum == s.packetNum + i;
    SumSnoc(f, i);
    OverlayExtend(s.buf, s.packetNum, f, i);
  }

  /** The two header bytes and the ID, PID and data-size bytes. */
  lemma FrameHeadByte(p: Protocol, resync: bool, s: RxState, f: seq<byte>, i: nat)
    requires FrameShape(p, f) && RxInvariant(s) && s.step == 0 && s.packetNum + |f| < 256
    requires i < 5
    ensures Step(p, resync, Mid(s, f, i), f[i], CountAt(i)) == Scan(Mid(s, f, i + 1), CountAt(i + 1), false, false)
  {
    FrameStore(s, f, i);
    if i < 2 {
      FrameSyncByte(p, resync, s, f, i);
    } else {
      FrameFieldByte(p, resync, s, f, i);
    }
  }

  /** A header byte (183 or 184): the second one moves the parser to step 1. */
  lemma FrameSyncByte(p: Protocol, resync: bool, s: RxState, f: seq<byte>, i: nat)
    requires FrameShape(p, f) && RxInvariant(s) && s.step == 0 && s.packetNum + |f| < 256
    requires i < 2
    requires var m, t := Mid(s, f, i), Mid(s, f, i + 1);
      && m.buf[m.packetNum := f[i]] == t.buf
      && (m.chkSum + f[i]) % 256 == t.chkSum
      && (m.packetNum + 1) % 256 == t.packetNum
    ensures Step(p, resync, Mid(s, f, i), f[i], CountAt(i)) == Scan(Mid(s, f, i + 1), CountAt(i + 1), false, false)
  {
    var m := Mid(s, f, i);
    var t := Mid(s, f, i + 1);
    var stored := m.(chkSum := (m.chkSum + f[i]) % 256, buf := m.buf[m.packetNum := f[i]],
                     packetNum := (m.packetNum + 1) % 256);
    var c := Consume(p, resync, m, f[i], CountAt(i));
    if i == 0 {
      assert c.s == stored.(comError := 0);
    } else {
      assert c.s == stored.(comError := 0, step := 1);
    }
    assert c.s == t;
  }

  /** The ID, PID and data-size bytes: steps 1 to 4. */
  lemma FrameFieldByte(p: Protocol, resync: bool, s: RxState, f: seq<byte>, i: nat)
    requires FrameShape(p, f) && RxInvariant(s) && s.step == 0 && s.packetNum + |f| < 256
    requires 2 <= i < 5
    requires var m, t := Mid(s, f, i), Mid(s, f, i + 1);
      && m.buf[m.packetNum := f[i]] == t.buf
      && (m.chkSum + f[i]) % 256 == t.chkSum
      && (m.packetNum + 1) % 256 == t.packetNum
    ensures Step(p, resync, Mid(s, f, i), f[i], CountAt(i)) == Scan(Mid(s, f, i + 1), CountAt(i + 1), false, false)
  {
    var m := Mid(s, f, i);
    var t := Mid(s, f, i + 1);
    var stored := m.(chkSum := (m.chkSum + f[i]) % 256, buf := m.buf[m.packetNum := f[i]],
                     packetNum := (m.packetNum + 1) % 256);
    var c := Consume(p, resync, m, f[i], CountAt(i));
    if i == 2 {
      assert c.s == stored.(step := 2, comError := 0);
    } else if i == 3 {
      assert c.s == stored.(step := 3);
    } else {
      assert c.s == stored.(maxDataNum := f[4], dataNum := 0, step := 4);
    }
    assert c.s == t;
  }

  /** A data byte: the step stays 4 until the declared number of data bytes is in, then 5. */
  lemma FrameDataByte(p: Protocol, resync: bool, s: RxState, f: seq<byte>, i: nat)
    requires FrameShape(p, f) && RxInvariant(s) && s.step == 0 && s.packetNum + |f| < 256
    requires 5 <= i < |f| - 1
    ensures Step(p, resync, Mid(s, f, i), f[i], CountAt(i)) == Scan(Mid(s, f, i + 1), CountAt(i + 1), false, false)
  {
    var m := Mid(s, f, i);
    var t := Mid(s, f, i + 1);
    assert m.step == 4 && m.dataNum == i - 5 && m.maxDataNum == f[4] && m.comError == 0;
    SumSnoc(f, i);
    OverlayExtend(s.buf, s.packetNum, f, i);
    var c := Consume(p, resync, m, f[i], 2);
    assert c.s.buf == t.buf;
    assert c.s.chkSum == t.chkSum;
    assert c.s.dataNum == t.dataNum;
    assert c.s.step == t.step;
    assert c.s == t;
  }

  /** Each byte of a frame but the last moves the parser from Mid(i) to Mid(i + 1). */
  lemma FrameByte(p: Protocol, resync: bool, s: RxState, f: seq<byte>, i: nat)
    requires FrameShape(p, f) && RxInvariant(s) && s.step == 0 && s.packetNum + |f| < 256
    requires i < |f| - 1
    ensures Step(p, resync, Mid(s, f, i), f[i], CountAt(i)) == Scan(Mid(s, f, i + 1), CountAt(i + 1), false, false)
  {
    if i < 5 {
      FrameHeadByte(p, resync, s, f, i);
    } else {
      FrameDataByte(p, resync, s, f, i);
    }
  }

  /** The last byte of a frame: the checksum decides, nothing halts. */
  lemma FrameLastByte(p: Protocol, resync: bool, s: RxState, f: seq<byte>)
    requires FrameShape(p, f) && RxInvariant(s) && s.step == 0 && s.packetNum + |f| < 256
    ensures Step(p, resync, Mid(s, f, |f| - 1), f[|f| - 1], 2).s == FrameEnd(p, resync, s, f)
    ensures !Step(p, resync, Mid(s, f, |f| - 1), f[|f| - 1], 2).halted
  {
    var i := |f| - 1;
    SumSnoc(f, i);
    assert f[..i + 1] == f;
    OverlayExtend(s.buf, s.packetNum, f, i);
    var m := Mid(s, f, i);
    assert m.step == 5 && m.comError == 0;
    var stored := m.(chkSum := (m.chkSum + f[i]) % 256, buf := m.buf[m.packetNum := f[i]],
                     packetNum := (m.packetNum + 1) % 256);
    assert stored.chkSum == (s.chkSum + Sum(f)) % 256;
    assert stored.buf == Overlay(s.buf, s.packetNum, f);
    assert stored.packetNum == s.packetNum + |f|;
    var c := Consume(p, resync, m, f[i], 2);
    assert c.s.comError == 0;
  }

  lemma {:induction false} FrameRunFrom(p: Protocol, resync: bool, s: RxState, f: seq<byte>, i: nat)
    requires FrameShape(p, f) && RxInvariant(s) && s.step == 0 && s.packetNum + |f| < 256
    requires i < |f|
    ensures Run(p, resync, Mid(s, f, i), f, i, CountAt(i)) == FrameEnd(p, resync, s, f)
    decreases |f| - i
  {
    if i == |f| - 1 {
      FrameLastByte(p, resync, s, f);
    } else {
      FrameByte(p, resync, s, f, i);
      FrameRunFrom(p, resync, s, f, i + 1);
    }
  }

  /** One frame as the whole input of a call, starting in step 0, leaves the parser in FrameEnd. */
  lemma FrameRun(p: Protocol, resync: bool, s: RxState, f: seq<byte>)
    requires FrameShape(p, f) && RxInvariant(s) && s.step == 0 && s.packetNum + |f| < 256
    ensures Run(p, resync, s, f, 0, 0) == FrameEnd(p, resync, s, f)
  {
    FrameRunFrom(p, resync, s, f, 0);
  }

  /**
   * From a clean state a well-formed frame is accepted: it is copied into
   * the buffer, delivered, and the parser is clean again.
   */
  lemma WellFormedFrameAccepted(p: Protocol, s: RxState, f: seq<byte>)
    requires p.Valid() && WellFormedFrame(p, f) && Clean(s) && |f| < 256
    ensures var (r, status) := Analyze(p, s, f);
      && status == Success && Clean(r) && r.dataChk
      && r.buf[..|f|] == f
      && (f[3] == p.pidMainData && |f| >= 19 ==>
            r.rpm == Byte2Short(f[5], f[6]) && r.position == Byte2LInt(f[15], f[16], f[17], f[18]))
  {
    FrameRun(p, false, s, f);
  }

  /** From a clean state a frame whose bytes do not sum to 0 is not delivered. */
  lemma CorruptFrameRejected(p: Protocol, s: RxState, f: seq<byte>)
    requires p.Valid() && FrameShape(p, f) && Sum(f) % 256 != 0 && Clean(s) && |f| < 256
    ensures var (r, status) := Analyze(p, s, f);
      && status == Success && r.step == 0 && r.dataChk == s.dataChk
      && r.rpm == s.rpm && r.position == s.position
  {
    FrameRun(p, false, s, f);
  }

  // ---------------------------------------------------------------------
  // Sender and receiver agree
  // ---------------------------------------------------------------------

  /** Every packet PutMdData builds with MID 183/184 and ID 1/2 is a well-formed frame. */
  lemma SentPacketWellFormed(p: Protocol, pid: byte, mid: int, id: int, arr: seq<int>)
    requires p.Valid() && |arr| == 4 && KnownPid(p, pid)
    requires mid % 256 == 183 || mid % 256 == 184
    requires id % 256 == 1 || id % 256 == 2
    requires PacketLength(p, pid) - 6 < p.maxDataSize
    ensures WellFormedFrame(p, Packet(p, pid, mid, id, arr))
  {
    PacketLayout(p, pid, mid, id, arr);
    PacketChecksum(p, pid, mid, id, arr);
  }

  /** Round trip: the receiver accepts, from a clean state, exactly the bytes the sender wrote. */
  lemma SendThenReceive(p: Protocol, s: RxState, pid: byte, mid: int, id: int, arr: seq<int>)
    requires p.Valid() && |arr| == 4 && KnownPid(p, pid) && Clean(s)
    requires mid % 256 == 183 || mid % 256 == 184
    requires id % 256 == 1 || id % 256 == 2
    requires PacketLength(p, pid) - 6 < p.maxDataSize
    ensures var pk := Packet(p, pid, mid, id, arr);
      var (r, status) := Analyze(p, s, pk);
      status == Success && Clean(r) && r.dataChk && r.buf[..|pk|] == pk
  {
    SentPacketWellFormed(p, pid, mid, id, arr);
    PacketLayout(p, pid, mid, id, arr);
    WellFormedFrameAccepted(p, s, Packet(p, pid, mid, id, arr));
  }

  // ---------------------------------------------------------------------
  // The checksum residue
  // ---------------------------------------------------------------------

  /** A frame whose last byte was corrupted in transit. */
  function Corrupt(f: seq<byte>, bad: byte): seq<byte>
    requires |f| > 0
  {
    f[..|f| - 1] + [bad]
  }

  lemma CorruptSum(p: Protocol, f: seq<byte>, bad: byte)
    requires WellFormedFrame(p, f) && bad != f[|f| - 1]
    ensures FrameShape(p, Corrupt(f, bad)) && Sum(Corrupt(f, bad)) % 256 != 0
  {
    var g := Corrupt(f, bad);
    SumSnoc(f, |f| - 1);
    SumSnoc(g, |g| - 1);
    assert g[..|g| - 1] == f[..|f| - 1];
    assert f[..|f|] == f && g[..|g|] == g;
  }

  /**
   * As written: after one frame with a corrupted checksum byte, the next
   * well-formed frame is not delivered, because the residue of the first
   * frame stays in the running checksum.
   */
  lemma CorruptFrameBlocksNext(p: Protocol, s: RxState, f: seq<byte>, bad: byte)
    requires p.Valid() && WellFormedFrame(p, f) && Clean(s) && !s.dataChk
    requires bad != f[|f| - 1] && 2 * |f| < 256
    ensures var s1 := Analyze(p, s, Corrupt(f, bad)).0;
      var s2 := Analyze(p, s1, f).0;
      !s2.dataChk && s1.chkSum != 0
  {
    var g := Corrupt(f, bad);
    CorruptSum(p, f, bad);
    FrameRun(p, false, s, g);
    var s1 := Analyze(p, s, g).0;
    assert s1 == FrameEnd(p, false, s, g);
    assert s1.chkSum == Sum(g) % 256 && !s1.dataChk;
    if s1.packetNum < p.maxPacketSize {
      FrameRun(p, false, s1, f);
      ResidueStays(s1.chkSum, Sum(f));
      assert Analyze(p, s1, f).0 == FrameEnd(p, false, s1, f);
    }
  }

  /** Adding a multiple of 256 leaves a residue unchanged. */
  lemma ResidueStays(a: int, b: int)
    requires b % 256 == 0
    ensures (a + b) % 256 == a % 256
  {
  }

  /** AnalyzeReceivedData with the checksum and packet counter restarted after every checksum byte. */
  function AnalyzeResync(p: Protocol, s: RxState, bytes: seq<byte>): (RxState, Status)
    requires |s.buf| == 256
  {
    if s.packetNum >= p.maxPacketSize then (s.(step := 0), Fail)
    else (Run(p, true, s, bytes, 0, 0), Success)
  }

  /** Corrected: after a corrupted frame the parser is clean again and the next well-formed frame is delivered. */
  lemma ResyncRecoversAfterCorruptFrame(p: Protocol, s: RxState, f: seq<byte>, bad: byte)
    requires p.Valid() && WellFormedFrame(p, f) && Clean(s) && !s.dataChk
    requires bad != f[|f| - 1] && |f| < 256
    ensures var s1 := AnalyzeResync(p, s, Corrupt(f, bad)).0;
      var s2 := AnalyzeResync(p, s1, f).0;
      !s1.dataChk && Clean(s1) && s2.dataChk && Clean(s2) && s2.buf[..|f|] == f
  {
    var g := Corrupt(f, bad);
    CorruptSum(p, f, bad);
    FrameRun(p, true, s, g);
    var s1 := AnalyzeResync(p, s, g).0;
    FrameRun(p, true, s1, f);
  }

  // ---------------------------------------------------------------------
  // The receive-buffer overrun
  // ---------------------------------------------------------------------

  /** `n` copies of the header byte 184. */
  function HeaderFlood(n: nat): (f: seq<byte>)
    ensures |f| == n && forall k :: 0 <= k < n ==> f[k] == 184
  {
    seq(n, k => 184)
  }

  /**
   * In step 0 with the call-local count already past 1, every header byte is
   * stored at the packet counter and the step never advances.
   */
  lemma {:induction false} FloodRun(p: Protocol, s: RxState, bytes: seq<byte>, j: nat, count: int)
    requires |s.buf| == 256 && s.step == 0 && count >= 2 && j <= |bytes|
    requires forall k :: j <= k < |bytes| ==> bytes[k] == 184
    requires s.packetNum + (|bytes| - j) < 256
    ensures var r := Run(p, false, s, bytes, j, count);
      && r.step == 0 && r.packetNum == s.packetNum + (|bytes| - j)
      && (forall k :: 0 <= k < s.packetNum ==> r.buf[k] == s.buf[k])
      && forall k :: s.packetNum <= k < r.packetNum ==> r.buf[k] == 184
    decreases |bytes| - j
  {
    if j < |bytes| {
      var sc := Step(p, false, s, bytes[j], count);
      assert sc.s.packetNum == s.packetNum + 1 && sc.s.buf[s.packetNum] == 184;
      assert sc.s.step == 0 && !sc.halted && sc.count == count + 1;
      FloodRun(p, sc.s, bytes, j + 1, sc.count);
    }
  }

  /**
   * As written, for a read of MAX_PACKET_SIZE + 4 bytes (which the caller
   * delivers only when MAX_DATA_SIZE allows it; RejectedReadsOverrun needs no
   * such read): from a clean state the header bytes are all accepted into the
   * receive buffer. The third byte fails the ID
   * check but leaves the call-local count at 2, so the rest never reach step 1
   * and are stored one after another: index MAX_PACKET_SIZE is written, the
   * call returns SUCCESS, and every later call is refused with FAIL.
   */
  lemma HeaderFloodOverruns(p: Protocol, s: RxState, more: seq<byte>)
    requires p.Valid() && Clean(s) && s.comError < 9 && p.maxPacketSize < 254
    ensures var (r, status) := Analyze(p, s, HeaderFlood(p.maxPacketSize + 4));
      && status == Success
      && r.packetNum == p.maxPacketSize + 1 && r.buf[p.maxPacketSize] == 184
      && Analyze(p, r, more) == (r.(step := 0), Fail)
      && Analyze(p, Analyze(p, r, more).0, more).1 == Fail
  {
    var f := HeaderFlood(p.maxPacketSize + 4);
    var s1 := Step(p, false, s, f[0], 0);
    assert s1.s.step == 0 && s1.count == 1 && !s1.halted && s1.s.packetNum == 1;
    var s2 := Step(p, false, s1.s, f[1], 1);
    assert s2.s.step == 1 && s2.count == 2 && !s2.halted;
    var s3 := Step(p, false, s2.s, f[2], 2);
    assert s3.s.step == 0 && s3.s.packetNum == 0 && s3.count == 2 && !s3.halted;
    assert Run(p, false, s, f, 0, 0) == Run(p, false, s1.s, f, 1, 1);
    assert Run(p, false, s1.s, f, 1, 1) == Run(p, false, s2.s, f, 2, 2);
    assert Run(p, false, s2.s, f, 2, 2) == Run(p, false, s3.s, f, 3, 2);
    FloodRun(p, s3.s, f, 3, 2);
  }

  /** The receiver's state after n successive reads, each carrying the frame f. */
  function Reads(p: Protocol, s: RxState, f: seq<byte>, n: nat): (r: RxState)
    requires |s.buf| == 256
    ensures |r.buf| == 256
  {
    if n == 0 then s else Analyze(p, Reads(p, s, f, n - 1), f).0
  }

  /** A 7-byte frame of the right shape whose bytes sum to 1 modulo 256: its checksum byte is one too large. */
  predicate OffByOne(p: Protocol, f: seq<byte>)
  {
    FrameShape(p, f) && |f| == 7 && Sum(f) % 256 == 1
  }

  /** One read of such a frame below MAX_PACKET_SIZE: stored after the previous bytes, rejected, SUCCESS. */
  lemma OneRejectedRead(p: Protocol, prev: RxState, f: seq<byte>)
    requires OffByOne(p, f) && RxInvariant(prev) && prev.step == 0
    requires prev.packetNum < p.maxPacketSize && prev.packetNum + 7 < 256 && prev.chkSum < 255
    ensures var (r, status) := Analyze(p, prev, f);
      && status == Success && RxInvariant(r) && r.step == 0
      && r.packetNum == prev.packetNum + 7 && r.chkSum == prev.chkSum + 1
      && r.rpm == prev.rpm && r.position == prev.position && r.dataChk == prev.dataChk
      && r.buf == Overlay(prev.buf, prev.packetNum, f)
  {
    FrameRun(p, false, prev, f);
    assert (prev.chkSum + Sum(f)) % 256 == prev.chkSum + 1 by {
      assert (prev.chkSum + Sum(f)) % 256 == (prev.chkSum + Sum(f) % 256) % 256;
    }
    assert Analyze(p, prev, f) == (FrameEnd(p, false, prev, f), Success);
  }

  /**
   * As written: every read of such a frame is rejected at its checksum byte,
   * and since step 5 leaves byPacketNum and byChkSum alone, each read stores
   * its 7 bytes after those of the previous one.
   */
  lemma {:induction false} RejectedReadsClimb(p: Protocol, s: RxState, f: seq<byte>, n: nat)
    requires OffByOne(p, f) && Clean(s) && 7 * n < 256
    requires n == 0 || 7 * (n - 1) < p.maxPacketSize
    ensures var r := Reads(p, s, f, n);
      && RxInvariant(r) && r.step == 0 && r.packetNum == 7 * n && r.chkSum == n
      && r.rpm == s.rpm && r.position == s.position && r.dataChk == s.dataChk
      && forall k :: 0 <= k < 7 * n ==> r.buf[k] == f[k % 7]
  {
    if n > 0 {
      RejectedReadsClimb(p, s, f, n - 1);
      var prev := Reads(p, s, f, n - 1);
      OneRejectedRead(p, prev, f);
      var r := Reads(p, s, f, n);
      assert r == Analyze(p, prev, f).0;
      forall k | 0 <= k < 7 * n
        ensures r.buf[k] == f[k % 7]
      {
        if k >= 7 * (n - 1) {
          assert r.buf[k] == f[k - 7 * (n - 1)];
        } else {
          assert r.buf[k] == prev.buf[k];
        }
      }
    }
  }

  /**
   * As written, with reads no longer than MAX_DATA_SIZE: when MAX_PACKET_SIZE
   * is not a multiple of 7, MAX_PACKET_SIZE / 7 + 1 reads of such a frame all
   * return SUCCESS, the last one writes index MAX_PACKET_SIZE of the receive
   * buffer, and every later call returns FAIL.
   */
  lemma RejectedReadsOverrun(p: Protocol, s: RxState, f: seq<byte>, more: seq<byte>)
    requires p.Valid() && OffByOne(p, f) && Clean(s) && 7 <= p.maxDataSize
    requires p.maxPacketSize % 7 != 0 && p.maxPacketSize < 249
    ensures var n := p.maxPacketSize / 7 + 1;
      var r := Reads(p, s, f, n);
      && (forall k :: 0 <= k < n ==> Analyze(p, Reads(p, s, f, k), f).1 == Success)
      && r.packetNum > p.maxPacketSize && r.buf[p.maxPacketSize] == f[p.maxPacketSize % 7]
      && Analyze(p, r, more) == (r.(step := 0), Fail)
      && Analyze(p, Analyze(p, r, more).0, more).1 == Fail
  {
    var n := p.maxPacketSize / 7 + 1;
    forall k | 0 <= k < n
      ensures Analyze(p, Reads(p, s, f, k), f).1 == Success
    {
      RejectedReadsClimb(p, s, f, k);
    }
    RejectedReadsClimb(p, s, f, n);
  }

  /** [184, 184, 1, 4, 1, 0, 139]: header, ID 1, PID 4, one data byte, and a checksum byte one too large. */
  lemma OffByOneFrameExists(p: Protocol)
    requires 2 <= p.maxDataSize
    ensures OffByOne(p, [184, 184, 1, 4, 1, 0, 139])
  {
    var f: seq<int> := [184, 184, 1, 4, 1, 0, 139];
    assert f[..1][..0] == [] && f[..2][..1] == f[..1] && f[..3][..2] == f[..2];
    assert f[..4][..3] == f[..3] && f[..5][..4] == f[..4] && f[..6][..5] == f[..5] && f[..6] == f[..|f| - 1];
    assert Sum(f[..1]) == 184 && Sum(f[..2]) == 368 && Sum(f[..3]) == 369 && Sum(f[..4]) == 373;
    assert Sum(f[..5]) == 374 && Sum(f[..6]) == 374 && Sum(f) == 513;
  }

  /**
   * Corrected: a byte that would be stored at or past MAX_PACKET_SIZE first
   * restarts the packet, as the entry check of AnalyzeReceivedData does for a
   * whole call.
   */
  function GuardedStep(p: Protocol, s: RxState, b: byte, count: int): Scan
    requires |s.buf| == 256
  {
    if s.packetNum >= p.maxPacketSize then Step(p, false, s.(step := 0, packetNum := 0, chkSum := 0), b, 0)
    else Step(p, false, s, b, count)
  }

  function RunGuarded(p: Protocol, s: RxState, bytes: seq<byte>, j: nat, count: int): (r: RxState)
    requires |s.buf| == 256
    ensures |r.buf| == 256
    decreases |bytes| - j
  {
    if j >= |bytes| then s
    else
      var sc := GuardedStep(p, s, bytes[j], count);
      if sc.halted then sc.s else RunGuarded(p, sc.s, bytes, j + 1, sc.count)
  }

  /** Corrected entry check: a refused call also restarts the packet, so the next call is served. */
  function AnalyzeGuarded(p: Protocol, s: RxState, bytes: seq<byte>): (RxState, Status)
    requires |s.buf| == 256
  {
    if s.packetNum >= p.maxPacketSize then (s.(step := 0, packetNum := 0, chkSum := 0), Fail)
    else (RunGuarded(p, s, bytes, 0, 0), Success)
  }

  /** Below MAX_PACKET_SIZE one byte is stored at the packet counter at most, and the counter grows by one at most. */
  lemma StepStoresAtCounter(p: Protocol, s: RxState, b: byte, count: int)
    requires |s.buf| == 256 && s.packetNum < p.maxPacketSize <= 255
    ensures var r := Step(p, false, s, b, count).s;
      && r.packetNum <= s.packetNum + 1
      && forall k :: p.maxPacketSize <= k < 256 ==> r.buf[k] == s.buf[k]
  {
    var c := Consume(p, false, s, b, count);
    assert c.s.packetNum <= s.packetNum + 1;
    assert forall k :: 0 <= k < 256 && k != s.packetNum ==> c.s.buf[k] == s.buf[k];
    var s1 := if c.accepted then ReceiveProc(p, c.s.(packetNum := 0)) else c.s;
    assert s1.buf == c.s.buf && s1.packetNum <= c.s.packetNum;
  }

  /** One guarded byte writes only below MAX_PACKET_SIZE and leaves the counter at most MAX_PACKET_SIZE. */
  lemma GuardedStepStaysInBuffer(p: Protocol, s: RxState, b: byte, count: int)
    requires p.Valid() && |s.buf| == 256
    ensures var r := GuardedStep(p, s, b, count).s;
      && r.packetNum <= p.maxPacketSize
      && forall k :: p.maxPacketSize <= k < 256 ==> r.buf[k] == s.buf[k]
  {
    if s.packetNum >= p.maxPacketSize {
      StepStoresAtCounter(p, s.(step := 0, packetNum := 0, chkSum := 0), b, 0);
    } else {
      StepStoresAtCounter(p, s, b, count);
    }
  }

  lemma {:induction false} RunGuardedStaysInBuffer(p: Protocol, s: RxState, bytes: seq<byte>, j: nat, count: int)
    requires p.Valid() && |s.buf| == 256 && s.packetNum <= p.maxPacketSize
    ensures var r := RunGuarded(p, s, bytes, j, count);
      && r.packetNum <= p.maxPacketSize
      && forall k :: p.maxPacketSize <= k < 256 ==> r.buf[k] == s.buf[k]
    decreases |bytes| - j
  {
    if j < |bytes| {
      GuardedStepStaysInBuffer(p, s, bytes[j], count);
      var sc := GuardedStep(p, s, bytes[j], count);
      if !sc.halted {
        RunGuardedStaysInBuffer(p, sc.s, bytes, j + 1, sc.count);
      }
    }
  }

  /**
   * Corrected: whatever the input, the receive buffer is written only below
   * MAX_PACKET_SIZE, the counter never passes it, and a refused call is
   * followed by one that is served.
   */
  lemma GuardedParserStaysInBuffer(p: Protocol, s: RxState, bytes: seq<byte>, more: seq<byte>)
    requires p.Valid() && |s.buf| == 256
    ensures var (r, status) := AnalyzeGuarded(p, s, bytes);
      && r.packetNum <= p.maxPacketSize
      && (forall k :: p.maxPacketSize <= k < 256 ==> r.buf[k] == s.buf[k])
      && (status == Fail ==> AnalyzeGuarded(p, r, more).1 == Success)
  {
    if s.packetNum < p.maxPacketSize {
      RunGuardedStaysInBuffer(p, s, bytes, 0, 0);
    }
  }
}
