/**
 * Byte packing helpers of the motor-driver serial protocol
 * (MD_controller/md_controller/src/com.cpp, Short2Byte / Byte2Short / Byte2LInt).
 *
 * C integer widths are written out: a BYTE is 0..255, a `short` is a signed
 * 16-bit value, an `int` a signed 32-bit value.
 */
module MdBytes {
  type byte = x: int | 0 <= x < 256
  type short = x: int | -0x8000 <= x < 0x8000
  type int32 = x: int | -0x8000_0000 <= x < 0x8000_0000

  /** The `IByte` pair: low and high byte of a 16-bit value. */
  datatype IByte = IByte(byLow: byte, byHigh: byte)

  /** C's conversion of an `int` to `short`: two's-complement wrap-around. */
  function ToShort(v: int): (s: short)
    ensures (s - v) % 0x1_0000 == 0
  {
    var u := v % 0x1_0000;
    if u >= 0x8000 then u - 0x1_0000 else u
  }

  /** `sIn & 0xff` and `sIn >> 8 & 0xff`: the shift is arithmetic (floor) in C. */
  function Short2Byte(sIn: short): (r: IByte)
    ensures r.byLow + 256 * r.byHigh == sIn % 0x1_0000
  {
    IByte(sIn % 256, (sIn / 256) % 256)
  }

  /** `byLow | (int)byHigh << 8`: never negative, no sign extension. */
  function Byte2Short(byLow: byte, byHigh: byte): (r: int)
    ensures 0 <= r < 0x1_0000
  {
    byLow + byHigh * 256
  }

  /**
   * `(int)b1 | (int)b2 << 8 | (int)b3 << 16 | (int)b4 << 24`, evaluated in a
   * 32-bit `int`: a fourth byte of 128 or more lands in the sign bit.
   */
  function Byte2LInt(byData1: byte, byData2: byte, byData3: byte, byData4: byte): (r: int32)
    ensures (r - (byData1 + byData2 * 0x100 + byData3 * 0x1_0000 + byData4 * 0x100_0000)) % 0x1_0000_0000 == 0
  {
    var u := byData1 + byData2 * 0x100 + byData3 * 0x1_0000 + byData4 * 0x100_0000;
    if u >= 0x8000_0000 then u - 0x1_0000_0000 else u
  }

  /** The little-endian bytes of a 32-bit value (the encoder Byte2LInt inverts). */
  function LIntBytes(v: int32): (b: seq<byte>)
    ensures |b| == 4
  {
    var u := v % 0x1_0000_0000;
    [u % 0x100, u / 0x100 % 0x100, u / 0x100 / 0x100 % 0x100, u / 0x100 / 0x100 / 0x100]
  }

  /** Splitting a short into bytes and joining them gives the value modulo 2^16. */
  lemma ShortRoundTrip(s: short)
    ensures Byte2Short(Short2Byte(s).byLow, Short2Byte(s).byHigh) == s % 0x1_0000
    ensures s >= 0 ==> Byte2Short(Short2Byte(s).byLow, Short2Byte(s).byHigh) == s
  {
  }

  /** An `int` passed to Short2Byte and joined again comes back modulo 2^16. */
  lemma IntRoundTrip(v: int)
    ensures Byte2Short(Short2Byte(ToShort(v)).byLow, Short2Byte(ToShort(v)).byHigh) == v % 0x1_0000
  {
    var s := ToShort(v);
    ShortRoundTrip(s);
    assert (s as int) % 0x1_0000 == v % 0x1_0000;
  }

  /** Joining two bytes and splitting the (wrapped) value gives the same bytes back. */
  lemma BytesRoundTrip(lo: byte, hi: byte)
    ensures Short2Byte(ToShort(Byte2Short(lo, hi))) == IByte(lo, hi)
  {
  }

  /** Byte2LInt is the little-endian sum b1 + b2*2^8 + b3*2^16 + b4*2^24, modulo 2^32. */
  lemma Byte2LIntIsLittleEndian(b1: byte, b2: byte, b3: byte, b4: byte)
    ensures Byte2LInt(b1, b2, b3, b4) % 0x1_0000_0000
         == (b1 + b2 * 0x100 + b3 * 0x1_0000 + b4 * 0x100_0000) % 0x1_0000_0000
    ensures b4 < 0x80 ==> Byte2LInt(b1, b2, b3, b4) == b1 + b2 * 0x100 + b3 * 0x1_0000 + b4 * 0x100_0000
  {
  }

  /** Every 32-bit value survives being split into four bytes and reassembled. */
  lemma LIntRoundTrip(v: int32)
    ensures var b := LIntBytes(v); Byte2LInt(b[0], b[1], b[2], b[3]) == v
  {
    var u := v % 0x1_0000_0000;
    var q1 := u / 0x100;
    var q2 := q1 / 0x100;
    var q3 := q2 / 0x100;
    assert u == u % 0x100 + 0x100 * q1;
    assert q1 == q1 % 0x100 + 0x100 * q2;
    assert q2 == q2 % 0x100 + 0x100 * q3;
    assert u == u % 0x100 + 0x100 * (q1 % 0x100) + 0x1_0000 * (q2 % 0x100) + 0x100_0000 * q3;
  }
}
