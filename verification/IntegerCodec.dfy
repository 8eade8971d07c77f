/**
 Integers on the wire: big-endian with a clear top bit, so that a leading zero byte is added
 when the top bit is set. The writer fills a 16-byte buffer from the end.
 */
module IntegerCodec {
  import opened Bytes
  import opened RlpFormat
  import opened RlpReader

  /** Shortest big-endian form whose top bit is clear; at least one byte. */
  function SignedBytes(v: nat): (s: bytes)
    ensures s != [] && s[0] < 0x80
  {
    if v == 0 then [0] else if BigEndian(v)[0] < 0x80 then BigEndian(v) else [0] + BigEndian(v)
  }

  /** Half of what `width` bytes can hold: from here on the top bit is set. */
  function Half(width: nat): (h: nat)
    requires width >= 1
    ensures h >= 1
  {
    0x80 * Pow256(width - 1)
  }

  /** What the writer emits for a number of up to 128 bits: no room for a 17th byte. */
  function UintBytes(v: nat): (s: bytes)
    ensures s != []
  {
    if v < Half(16) then SignedBytes(v) else BigEndian(v)
  }

  lemma {:induction false} FromFirst(s: bytes)
    requires s != []
    ensures FromBigEndian(s) == s[0] * Pow256(|s| - 1) + FromBigEndian(s[1..])
    decreases |s|
  {
    var t := s[..|s| - 1];
    if t == [] {
      assert s[1..] == [];
    } else {
      FromFirst(t);
      assert s[1..][..|s| - 2] == t[1..];
      assert s[0] * Pow256(|s| - 1) == s[0] * Pow256(|t| - 1) * 256;
    }
  }

  lemma MulMonotone(a: nat, b: nat, p: nat)
    requires a <= b
    ensures a * p <= b * p
  {
  }

  /** The top bit decides which half a number of that many bytes lies in. */
  lemma TopBit(s: bytes)
    requires s != []
    ensures s[0] < 0x80 <==> FromBigEndian(s) < Half(|s|)
  {
    hide FromBigEndian, Pow256;
    FromFirst(s);
    FromBound(s[1..]);
    var p := Pow256(|s| - 1);
    var f: nat := s[0];
    assert (f + 1) * p == f * p + p;
    if f < 0x80 {
      MulMonotone(f + 1, 0x80, p);
    } else {
      MulMonotone(0x80, f, p);
    }
  }

  lemma {:induction false} PowMonotone(a: nat, b: nat)
    requires a <= b
    ensures Pow256(a) <= Pow256(b)
  {
    if a < b { PowMonotone(a, b - 1); }
  }

  /** A byte string with a clear top bit and no superfluous zero is the form the writer must find. */
  lemma SignedUnique(s: bytes)
    requires s != [] && s[0] < 0x80 && (s[0] == 0 && |s| > 1 ==> s[1] >= 0x80)
    ensures SignedBytes(FromBigEndian(s)) == s
  {
    if s[0] != 0 {
      BigEndianOfFrom(s);
    } else if |s| > 1 {
      var t := s[1..];
      assert s == [0] + t;
      FromZeroPrefix(t);
      BigEndianOfFrom(t);
    } else {
      assert s == [0] && s[..0] == [];
    }
  }

  lemma SignedValue(v: nat)
    ensures FromBigEndian(SignedBytes(v)) == v
  {
    FromOfBigEndian(v);
    if v == 0 {
      assert [0][..0] == [];
    } else {
      FromZeroPrefix(BigEndian(v));
    }
  }

  /** No shorter byte string with a clear top bit has the same value. */
  lemma SignedShortest(v: nat, s: bytes)
    requires s != [] && s[0] < 0x80 && FromBigEndian(s) == v
    ensures |SignedBytes(v)| <= |s|
  {
    if v > 0 {
      FromBound(s);
      BigEndianWidth(v, |s|);
      if BigEndian(v)[0] >= 0x80 && |BigEndian(v)| == |s| {
        FromOfBigEndian(v);
        TopBit(BigEndian(v));
        TopBit(s);
        assert false;
      }
    }
  }

  // -------------------------------------------------------------------- writing

  /** Fills the buffer from its last byte and stops as soon as nothing is left and the top bit is clear. */
  method EncodeUint(value: nat) returns (r: bytes)
    requires value < Pow256(16)
    ensures r == UintBytes(value)
  {
    hide Pow256, FromBigEndian, UintBytes;
    NothingWritten(value);
    if value == 0 {
      return [0];
    }
    var v: nat := value;
    var buffer := new byte[16](_ => 0);
    var i := 16;
    assert buffer[16..] == [];
    while i > 0
      invariant 0 <= i <= 16
      invariant value == v * Pow256(16 - i) + FromBigEndian(buffer[i..])
      invariant v == 0 ==> i < 16 && buffer[i] >= 0x80
    {
      i := i - 1;
      var b := v % 256;
      ghost var tail := buffer[i + 1..];
      buffer[i] := b;
      assert buffer[i..] == [b] + tail;
      ByteStep(v, tail);
      v := v / 256;
      if v == 0 && b < 0x80 {
        r := buffer[i..];
        ShortForm(r);
        return;
      }
    }
    r := buffer[..];
    assert buffer[0..] == r;
    FullForm(value, v, r);
  }

  lemma NothingWritten(value: nat)
    ensures UintBytes(0) == [0] && value == value * Pow256(0) + FromBigEndian([])
  {
  }

  /** One byte moves from the number to the front of the buffer. */
  lemma ByteStep(v: nat, tail: bytes)
    ensures v * Pow256(|tail|) + FromBigEndian(tail) == v / 256 * Pow256(|tail| + 1) + FromBigEndian([v % 256] + tail)
  {
    hide FromBigEndian;
    var s: bytes := [v % 256] + tail;
    FromFirst(s);
    assert s[1..] == tail;
    var q, b, p := v / 256, v % 256, Pow256(|tail|);
    assert v == 256 * q + b;
    assert (256 * q + b) * p == q * (256 * p) + b * p;
  }

  /** Stopped with a clear top bit, within 16 bytes. */
  lemma ShortForm(r: bytes)
    requires 1 <= |r| <= 16 && r[0] < 0x80 && (r[0] == 0 && |r| > 1 ==> r[1] >= 0x80)
    ensures UintBytes(FromBigEndian(r)) == r
  {
    hide FromBigEndian, Pow256, SignedBytes;
    SignedUnique(r);
    TopBit(r);
    PowMonotone(|r| - 1, 15);
  }

  /** All 16 bytes are used and the top bit is set. */
  lemma FullForm(value: nat, v: nat, r: bytes)
    requires |r| == 16 && value < Pow256(16) && value == v * Pow256(16) + FromBigEndian(r)
    requires v == 0 ==> r[0] >= 0x80
    ensures UintBytes(value) == r
  {
    hide FromBigEndian, Pow256, SignedBytes;
    var p := Pow256(16);
    if v >= 1 {
      MulMonotone(1, v, p);
      assert false;
    }
    assert v * p == 0;
    BigEndianOfFrom(r);
    TopBit(r);
  }

  // -------------------------------------------------------------------- reading

  /** Sum of the bytes, each shifted to its place. */
  method SumShifted(b: bytes) returns (res: nat)
    ensures res == FromBigEndian(b)
  {
    res := 0;
    var l := |b|;
    for i := 0 to l
      invariant res == FromBigEndian(b[..i]) * Pow256(l - i)
    {
      var shift := l - 1 - i;
      assert b[..i + 1][..i] == b[..i];
      var f := FromBigEndian(b[..i]);
      assert f * Pow256(shift + 1) == f * 256 * Pow256(shift);
      assert (f * 256 + b[i]) * Pow256(shift) == f * 256 * Pow256(shift) + b[i] * Pow256(shift);
      res := res + b[i] * Pow256(shift);
    }
    assert b[..l] == b;
  }

  /** Reads an unsigned integer of `width` bytes from an encoded item. */
  function DecodeUint(e: bytes, width: nat): Result<nat> {
    match DecodeValue(e)
    case Err(error) => Err(error)
    case Ok(v) => if |v| <= 1 || |v| <= width then Ok(FromBigEndian(v)) else Err(RlpIsTooBig)
  }

  method ReadUint(e: bytes, width: nat) returns (r: Result<nat>)
    ensures r == DecodeUint(e, width)
  {
    hide DecodeValue;
    var v := DecodeValue(e);
    if v.Err? { return Err(v.error); }
    if |v.value| == 0 {
      return Ok(0);
    } else if |v.value| == 1 {
      assert v.value[..0] == [] && FromBigEndian(v.value[..0]) == 0;
      return Ok(v.value[0]);
    } else if |v.value| <= width {
      var n := SumShifted(v.value);
      return Ok(n);
    }
    return Err(RlpIsTooBig);
  }

  /** Length of the signed form against a width. */
  lemma SignedLength(v: nat, width: nat)
    requires 1 <= width && v < Pow256(width)
    ensures |SignedBytes(v)| <= width + 1
    ensures |SignedBytes(v)| <= width <==> v < Half(width)
  {
    hide FromBigEndian, Pow256, BigEndian;
    SignedValue(v);
    var s := SignedBytes(v);
    if |s| <= width {
      TopBit(s);
      PowMonotone(|s| - 1, width - 1);
    }
    BigEndianWidth(v, width);
    if v < Half(width) && v > 0 {
      var t := BigEndian(v);
      FromOfBigEndian(v);
      if |t| == width { TopBit(t); }
    }
    if v == 0 { assert Half(width) > 0; }
  }

  lemma UintLength(v: nat, width: nat)
    requires 1 <= width <= 16 && v < Pow256(width)
    ensures FromBigEndian(UintBytes(v)) == v && |UintBytes(v)| <= 17
    ensures |UintBytes(v)| <= width <==> width == 16 || v < Half(width)
  {
    hide FromBigEndian, Pow256, SignedBytes, BigEndian;
    FromOfBigEndian(v);
    SignedValue(v);
    SignedLength(v, width);
    BigEndianWidth(v, width);
    PowMonotone(width - 1, 15);
    if width < 16 { PowMonotone(width, 15); HalfAbove(width); }
  }

  lemma HalfAbove(width: nat)
    requires 1 <= width < 16
    ensures Pow256(width) <= Half(16)
  {
    hide Pow256;
    PowMonotone(width, 15);
    MulMonotone(1, 0x80, Pow256(15));
  }

  /** Writing and reading back an integer of `width` bytes is the identity for every 128-bit number,
      and for narrower ones exactly when the top bit is clear; otherwise the reader finds it too big. */
  lemma UintRoundTrip(v: nat, width: nat)
    requires width in {2, 4, 8, 16} && v < Pow256(width)
    ensures DecodeUint(EncodeData(UintBytes(v)), width) ==
      if width == 16 || v < Half(width) then Ok(v) else Err(RlpIsTooBig)
  {
    hide DecodeValue;
    UintLength(v, width);
    ValueOfEncode(UintBytes(v));
  }
}
