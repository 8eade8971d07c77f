/**
 What the reader accepts and with what error it refuses the rest, on all bytes: headers and strings
 exactly in the form of Appendix B of the Ethereum Yellow Paper, and the library's null.
 */
module RlpStrict {
  import opened Bytes
  import opened RlpFormat
  import opened RlpReader

  // --------------------------------------------------------------------- headers

  /** A length prefix of the Yellow Paper for a payload of `n` bytes. */
  ghost predicate HasPrefix(b: bytes, offset: byte, n: nat) {
    var h := YellowHeader(offset, n);
    |h| <= |b| && b[..|h|] == h
  }

  ghost predicate Prefixed(b: bytes, offset: byte, info: PayloadInfo) {
    HasPrefix(b, offset, info.valueLen) && info.headerLen == |YellowHeader(offset, info.valueLen)|
  }

  /** The first item of `b`, laid out as it should be: a byte of its own, a string, a list or null. */
  ghost predicate LaidOut(b: bytes, info: PayloadInfo) {
    && b != [] && info.Total() <= |b| && info.valueLen < Pow256(8)
    && (|| (b[0] < 0x80 && info == PayloadInfo(0, 1))
        || Prefixed(b, STRING_OFFSET, info) || Prefixed(b, LIST_OFFSET, info)
        || (|b| >= 2 && b[0] == 0xf8 && b[1] == 0 && info == PayloadInfo(1, 1)))
  }

  /** A long prefix read back: its length bytes are the shortest for a length above 55. */
  lemma LongPrefix(b: bytes, k: nat, offset: byte)
    requires 1 <= k <= 8 && b != [] && b[0] == offset + 55 + k
    requires offset == STRING_OFFSET || offset == LIST_OFFSET
    ensures CalculatePayloadInfo(b, k).Ok? ==>
      var info := CalculatePayloadInfo(b, k).value; Prefixed(b, offset, info) && info.valueLen < Pow256(8)
  {
    hide FromBigEndian, BigEndian, Pow256;
    if CalculatePayloadInfo(b, k).Ok? {
      var digits := b[1..1 + k];
      FromBound(digits);
      BigEndianWidth(FromBigEndian(digits), 8);
      BigEndianOfFrom(digits);
      assert b[..1 + k] == [b[0]] + digits;
    }
  }

  lemma PrefixIsRead(b: bytes, offset: byte, n: nat)
    requires (offset == STRING_OFFSET || offset == LIST_OFFSET) && HasPrefix(b, offset, n) && n < Pow256(8)
    ensures PayloadInfoFrom(b) == Ok(PayloadInfo(|YellowHeader(offset, n)|, n))
  {
    hide FromBigEndian, BigEndian, Pow256;
    var h := YellowHeader(offset, n);
    assert b[0] == h[0];
    if n > 55 {
      var digits := BigEndian(n);
      FromOfBigEndian(n);
      BigEndianWidth(n, 8);
      assert h[1..] == digits;
      assert b[1..|h|] == h[1..];
      assert b[1] == digits[0];
    }
  }

  lemma ShortPrefix(b: bytes, offset: byte, n: nat)
    requires (offset == STRING_OFFSET || offset == LIST_OFFSET) && n <= 55 && b != [] && b[0] == offset + n
    ensures Prefixed(b, offset, PayloadInfo(1, n)) && n < Pow256(8)
  {
    Pow256Values();
    assert b[..1] == [b[0]];
  }

  /** The reader finds an item at the front of some bytes exactly when one is laid out there. */
  lemma HeaderExact(b: bytes, info: PayloadInfo)
    ensures InfoOf(b) == Ok(info) <==> LaidOut(b, info)
  {
    hide CalculatePayloadInfo, HasPrefix, Pow256, Prefixed;
    if InfoOf(b) == Ok(info) { HeaderFound(b, info); }
    if LaidOut(b, info) { HeaderRead(b, info); }
  }

  lemma HeaderFound(b: bytes, info: PayloadInfo)
    requires InfoOf(b) == Ok(info)
    ensures LaidOut(b, info)
  {
    hide CalculatePayloadInfo, HasPrefix, Pow256, Prefixed;
    Pow256Values();
    var l := b[0];
    if 0x80 <= l <= 0xb7 { ShortPrefix(b, STRING_OFFSET, l - 0x80); }
    else if 0xc0 <= l <= 0xf7 { ShortPrefix(b, LIST_OFFSET, l - 0xc0); }
    else if 0xb8 <= l <= 0xbf { LongPrefix(b, l - 0xb7, STRING_OFFSET); }
    else if l >= 0xf8 { LongPrefix(b, l - 0xf7, LIST_OFFSET); }
  }

  lemma HeaderRead(b: bytes, info: PayloadInfo)
    requires LaidOut(b, info)
    ensures InfoOf(b) == Ok(info)
  {
    hide CalculatePayloadInfo, HasPrefix, Pow256, YellowHeader;
    if Prefixed(b, STRING_OFFSET, info) { PrefixIsRead(b, STRING_OFFSET, info.valueLen); }
    else if Prefixed(b, LIST_OFFSET, info) { PrefixIsRead(b, LIST_OFFSET, info.valueLen); }
  }

  /** Number of length bytes a long prefix announces; zero for other bytes. */
  function LengthBytes(l: byte): nat { if 0xb8 <= l <= 0xbf then l - 0xb7 else if l >= 0xf8 then l - 0xf7 else 0 }

  /** Why there is no item: nothing there, a lone f8, length bytes that are cut, start with zero or could
      have been a short prefix, or a payload that is cut. */
  lemma HeaderErrors(b: bytes)
    requires InfoOf(b).Err?
    ensures var e, k := InfoOf(b).error, if b == [] then 0 else LengthBytes(b[0]);
      && (e == Panicked <==> b == [0xf8])
      && (e == RlpDataLenWithZeroPrefix <==> k > 0 && |b| > 1 && b[1] == 0)
      && (e == RlpInvalidIndirection <==> k > 0 && |b| > k && b[1] != 0 && FromBigEndian(b[1..1 + k]) <= 55)
      && (e != Panicked && e != RlpDataLenWithZeroPrefix && e != RlpInvalidIndirection ==> e == RlpIsTooShort)
  {
    hide FromBigEndian;
  }

  // --------------------------------------------------------------------- strings

  /** The reader takes a string `v` from the front of some bytes exactly when they begin with its
      encoding: no other form of it is accepted. */
  lemma StringExact(b: bytes, v: bytes)
    requires |v| < Pow256(8)
    ensures (FirstItem(b).Ok? && DecodeValue(FirstItem(b).value) == Ok(v)) <==>
      (|Yellow(Data(v))| <= |b| && b[..|Yellow(Data(v))|] == Yellow(Data(v)))
  {
    hide InfoOf, DecodeValue, Pow256, YellowHeader, FirstItem;
    if FirstItem(b).Ok? && DecodeValue(FirstItem(b).value) == Ok(v) { StringTaken(b, v); }
    if |Yellow(Data(v))| <= |b| && b[..|Yellow(Data(v))|] == Yellow(Data(v)) { StringGiven(b, v); }
  }

  lemma StringTaken(b: bytes, v: bytes)
    requires FirstItem(b).Ok? && DecodeValue(FirstItem(b).value) == Ok(v)
    ensures |Yellow(Data(v))| <= |b| && b[..|Yellow(Data(v))|] == Yellow(Data(v))
  {
    hide InfoOf, DecodeValue, Pow256, YellowHeader, HasPrefix;
    var info := InfoOf(b).value;
    HeaderExact(b, info);
    ItemOf(b, info);
    assert b[0] < 0xc0;
    if b[0] >= 0x80 {
      PrefixByte(b, info);
      assert b[..info.Total()] == b[..info.headerLen] + b[info.headerLen..info.Total()];
      StringByte(v);
      assert b[0] == b[..info.headerLen][0];
      if |v| == 1 { assert v[0] == b[1]; }
    } else {
      OwnByte(b);
      assert b[..1] == [b[0]] == b[0..1];
    }
  }

  /** A prefixed item shows what it is by its first byte. */
  lemma PrefixByte(b: bytes, info: PayloadInfo)
    requires LaidOut(b, info) && 0x80 <= b[0] < 0xc0
    ensures Prefixed(b, STRING_OFFSET, info) && b[..info.headerLen] == YellowHeader(STRING_OFFSET, info.valueLen)
  {
    hide Pow256, BigEndian;
  }

  /** What the value of a whole item is. */
  lemma ItemOf(b: bytes, info: PayloadInfo)
    requires InfoOf(b) == Ok(info)
    ensures DecodeValue(b[..info.Total()]) ==
      if b[0] >= 0xc0 then Err(RlpExpectedToBeData)
      else if b[0] == 0x81 && b[1] < 0x80 then Err(RlpInvalidIndirection)
      else Ok(b[info.headerLen..info.Total()])
  {
    hide FromBigEndian;
    var item := b[..info.Total()];
    assert item[0] == b[0];
    if b[0] < 0x80 {
      assert b[0..1] == [b[0]];
    } else if b[0] <= 0xb7 {
      assert item[1..info.Total()] == b[1..info.Total()];
    } else if b[0] <= 0xbf {
      var k := b[0] - 0xb7;
      assert item[1..1 + k] == b[1..1 + k];
      assert item[1 + k..info.Total()] == b[1 + k..info.Total()];
    }
  }

  lemma StringGiven(b: bytes, v: bytes)
    requires |v| < Pow256(8) && |Yellow(Data(v))| <= |b| && b[..|Yellow(Data(v))|] == Yellow(Data(v))
    ensures FirstItem(b).Ok? && DecodeValue(FirstItem(b).value) == Ok(v)
  {
    hide InfoOf, DecodeValue, Pow256, YellowHeader;
    var e := Yellow(Data(v));
    assert b[0] == e[0];
    if IsOwnEncoding(v) {
      OwnByte(b);
      ItemOf(b, PayloadInfo(0, 1));
      assert b[0..1] == b[..1] == v;
    } else {
      var h := YellowHeader(STRING_OFFSET, |v|);
      var info := PayloadInfo(|h|, |v|);
      assert b[..|h|] == b[..|e|][..|h|] == h;
      HeaderExact(b, info);
      ItemOf(b, info);
      assert b[|h|..|h| + |v|] == b[..|e|][|h|..] == v;
      StringByte(v);
      if |v| == 1 { assert b[1] == b[1..2][0] == v[0]; }
    }
  }

  lemma OwnByte(b: bytes)
    requires b != [] && b[0] < 0x80
    ensures InfoOf(b) == Ok(PayloadInfo(0, 1))
  {
  }

  lemma StringByte(v: bytes)
    ensures var h := YellowHeader(STRING_OFFSET, |v|);
      |v| < Pow256(8) ==> 0x80 <= h[0] < 0xc0 && (h[0] == 0x81 <==> |v| == 1)
    ensures |v| == 1 ==> |YellowHeader(STRING_OFFSET, |v|)| == 1
  {
    hide BigEndian, Pow256;
    BigEndianWidth(|v|, 8);
  }

  /** A value read from bytes that need not be one item: the payload its prefix announces, whatever
      follows; the shortest length is not asked for here. */
  lemma ValueForms(b: bytes)
    ensures b == [] ==> DecodeValue(b) == Err(RlpIsTooShort)
    ensures b != [] && b[0] >= 0xc0 ==> DecodeValue(b) == Err(RlpExpectedToBeData)
    ensures b != [] && 0x80 <= b[0] <= 0xb7 && |b| < 1 + b[0] - 0x80 ==>
      DecodeValue(b) == Err(RlpInconsistentLengthAndData)
    ensures b != [] && 0xb8 <= b[0] <= 0xbf ==>
      var k := b[0] - 0xb7;
      DecodeValue(b) == if |b| <= k then Err(RlpInconsistentLengthAndData)
        else if b[1] == 0 then Err(RlpInvalidIndirection)
        else if |b| < 1 + k + FromBigEndian(b[1..1 + k])
        then Err(if 1 + k + FromBigEndian(b[1..1 + k]) >= USIZE then RlpInvalidLength
                 else RlpInconsistentLengthAndData)
        else Ok(b[1 + k..][..FromBigEndian(b[1..1 + k])])
  {
    hide FromBigEndian;
    if b != [] && 0xb8 <= b[0] <= 0xbf && |b| > b[0] - 0xb7 {
      var k := b[0] - 0xb7;
      var n := FromBigEndian(b[1..1 + k]);
      if |b| >= 1 + k + n { assert b[1 + k..][..n] == b[1 + k..1 + k + n]; }
    }
  }
}
