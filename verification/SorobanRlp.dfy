/**
 The second codec: the functional encoder and decoder of the Soroban contracts. A panic of
 the contract is an outcome. Byte strings are shorter than 2^32, as the host's are.
 */
module SorobanRlp {
  import opened Bytes
  import opened RlpFormat
  import opened IntegerCodec
  import R = RlpReader

  datatype Outcome<+T> = Ok(value: T) | Panic | InvalidRlpLength {
    predicate IsFailure() { !Ok? }

    function PropagateFailure<U>(): Outcome<U>
      requires !Ok?
    {
      if Panic? then Outcome<U>.Panic else Outcome<U>.InvalidRlpLength
    }

    function Extract(): T
      requires Ok?
    {
      value
    }
  }

  const U64: nat := 0x1_0000_0000_0000_0000
  const U128: nat := 0x1_0000_0000_0000_0000_0000_0000_0000_0000

  // ------------------------------------------------------------------------- utils

  /** Drops the zeros at the front. */
  method TruncateZeros(b: bytes) returns (r: bytes)
    ensures r == BigEndian(FromBigEndian(b))
  {
    var i := 0;
    var started := false;
    r := [];
    while i < |b|
      invariant i <= |b| && (started <==> r != []) && (started ==> r[0] != 0)
      invariant FromBigEndian(r) == FromBigEndian(b[..i])
    {
      var val := b[i];
      assert b[..i + 1][..i] == b[..i];
      if val > 0 || started {
        started := true;
        ghost var before := r;
        r := r + [val];
        assert r[..|r| - 1] == before;
      }
      i := i + 1;
    }
    assert b[..|b|] == b;
    BigEndianOfFrom(r);
  }

  /** Bytes of an integer: without leading zeros, and with a zero in front when the top bit is set. */
  function ToSignedBytes(v: nat): bytes {
    if v == 0 then [] else SignedBytes(v)
  }

  method ToSigned(b: bytes, signed: bool) returns (r: bytes)
    ensures r == if signed then ToSignedBytes(FromBigEndian(b)) else BigEndian(FromBigEndian(b))
  {
    var truncated := TruncateZeros(b);
    if !signed { return truncated; }
    var first := if truncated == [] then 0 else truncated[0];
    r := if first >= 128 then [0] + truncated else truncated;
  }

  /** Big-endian value, the high bits shifted out. */
  method BytesToUint(b: bytes, modulus: nat) returns (num: nat)
    requires modulus > 0
    ensures num == FromBigEndian(b) % modulus
  {
    num := 0;
    for i := 0 to |b|
      invariant num == FromBigEndian(b[..i]) % modulus
    {
      assert b[..i + 1][..i] == b[..i];
      ShiftedModulo(FromBigEndian(b[..i]), b[i], modulus);
      num := (num * 256 + b[i]) % modulus;
    }
    assert b[..|b|] == b;
  }

  lemma ShiftedModulo(n: nat, d: nat, m: nat)
    requires m > 0
    ensures (n % m * 256 + d) % m == (n * 256 + d) % m
  {
    var q := n / m;
    assert n == q * m + n % m;
    assert n * 256 + d == (n % m * 256 + d) + (q * 256) * m;
    ModuloShift(n % m * 256 + d, q * 256, m);
  }

  lemma {:induction false} ModuloShift(x: nat, k: nat, m: nat)
    requires m > 0
    ensures (x + k * m) % m == x % m
    decreases k
  {
    if k > 0 {
      ModuloShift(x, k - 1, m);
      assert x + k * m == (x + (k - 1) * m) + m;
      AddModulo(x + (k - 1) * m, m);
    }
  }

  lemma AddModulo(x: nat, m: nat)
    requires m > 0
    ensures (x + m) % m == x % m
  {
    var q, r := x / m, x % m;
    assert x == q * m + r && x + m == (q + 1) * m + r;
    DivUnique(x + m, q + 1, r, m);
  }

  lemma DivUnique(x: nat, q: nat, r: nat, m: nat)
    requires m > 0 && r < m && x == q * m + r
    ensures x % m == r
  {
    var q', r' := x / m, x % m;
    var d := q - q';
    assert d * m == q * m - q' * m == r' - r;
    if d >= 1 {
      MulMonotone(1, d, m);
    } else if d <= -1 {
      MulMonotone(1, -d, m);
    }
  }

  function Slice(arr: bytes, start: nat, length: nat): Outcome<bytes> {
    if length == 0 then Ok([])
    else if start + length <= |arr| then Ok(arr[start..start + length])
    else Panic
  }

  /** Copies byte by byte; running past the end panics. */
  method SliceVector(arr: bytes, start: nat, length: nat) returns (r: Outcome<bytes>)
    ensures r == Slice(arr, start, length)
  {
    var sliced: bytes := [];
    var at := start;
    var end := start + length;
    while at < end
      invariant start <= at <= end && (at > start ==> at <= |arr|)
      invariant sliced == if at > start then arr[start..at] else []
    {
      if at >= |arr| { return Panic; }
      sliced := sliced + [arr[at]];
      at := at + 1;
    }
    return Ok(sliced);
  }

  // ----------------------------------------------------------------------- encoder

  /** For every 64-bit length the prefix of the Yellow Paper. */
  method EncodeLength(len: nat, offset: byte) returns (r: bytes)
    requires len < U64 && (offset == STRING_OFFSET || offset == LIST_OFFSET)
    ensures r == YellowHeader(offset, len)
    ensures len < U32 ==> r == Header(offset, len)
  {
    if len < 56 {
      r := [len + offset];
    } else {
      var info := TruncateZeros(BigEndian(len));
      assert info == BigEndian(len) by { FromOfBigEndian(len); }
      assert |info| <= 8 by { Pow256Values(); BigEndianWidth(len, 8); }
      r := [|info| + offset + 55] + info;
    }
    if len < U32 { HeaderIsYellow(offset, len); }
  }

  method EncodeBytes(b: bytes) returns (r: bytes)
    requires |b| < U32
    ensures r == EncodeData(b)
  {
    if |b| == 0 {
      r := [0x80];
    } else if |b| == 1 && b[0] < 128 {
      r := b;
    } else {
      var header := EncodeLength(|b|, 0x80);
      r := header + b;
    }
  }

  function Concat(list: seq<bytes>): bytes
    decreases |list|
  {
    if list == [] then [] else Concat(list[..|list| - 1]) + list[|list| - 1]
  }

  /** A list of already encoded items. */
  method EncodeList(list: seq<bytes>) returns (r: bytes)
    requires |Concat(list)| < U32
    ensures r == Header(LIST_OFFSET, |Concat(list)|) + Concat(list)
  {
    r := [];
    if |list| == 0 {
      return [0xc0];
    }
    for i := 0 to |list|
      invariant r == Concat(list[..i])
    {
      assert list[..i + 1][..i] == list[..i];
      r := r + list[i];
    }
    assert list[..|list|] == list;
    var header := EncodeLength(|r|, 0xc0);
    r := header + r;
  }

  // ----------------------------------------------------------------------- decoder

  /** Strips one layer of encoding. */
  function Decode(b: bytes): Outcome<bytes> {
    if b == [] then Panic else
    var l := b[0];
    if l == 0x80 || l == 0xc0 then Ok([])
    else if l < 0x80 then Ok(b)
    else if l < 0xb8 then Slice(b, 1, l - 0x80)
    else if l < 0xc0 then
      var lenBytes :- Slice(b, 1, l - 0xb7);
      Slice(b, |lenBytes| + 1, FromBigEndian(lenBytes) % U64)
    else if l <= 0xf7 then Slice(b, 1, l - 0xc0)
    else
      var lenBytes :- Slice(b, 1, l - 0xf7);
      Slice(b, |lenBytes| + 1, FromBigEndian(lenBytes) % U64)
  }

  /** Length of a list's payload; which form the length has is guessed from the size of the whole. */
  function DecodeLength(b: bytes, offset: byte): Outcome<nat> {
    if |b| == 0 then Ok(0)
    else if |b| < 56 then
      if b[0] < offset then Panic else Ok(b[0] - offset)
    else if b[0] < offset + 55 then Panic
    else
      var lenBytes :- Slice(b, 1, b[0] - offset - 55);
      Ok(FromBigEndian(lenBytes) % U64)
  }

  /** The first entry of a list payload and the bytes it takes: strings lose their prefix, lists
      keep it. */
  function FirstEntry(e: bytes): (r: Outcome<(bytes, nat)>)
    requires e != []
    ensures r.Ok? ==> 1 <= r.value.1 <= |e|
  {
    var l := e[0];
    if l == 0x80 || l == 0xc0 then Ok(([], 1))
    else if l < 0x80 then Ok(([l], 1))
    else if l < 0xb8 then
      var entry :- Slice(e, 1, l - 0x80);
      Ok((entry, l - 0x80 + 1))
    else if 0xc0 < l < 0xf7 then
      var entry :- Slice(e, 0, l - 0xc0 + 1);
      Ok((entry, l - 0xc0 + 1))
    else if 0xb7 < l < 0xc0 then
      var k := l - 0xb7;
      var lenBytes :- Slice(e, 1, k);
      var len := FromBigEndian(lenBytes) % U64;
      var entry :- Slice(e, k + 1, len);
      Ok((entry, k + len + 1))
    else if 0xf7 < l then
      var k := l - 0xf7;
      var lenBytes :- Slice(e, 1, k);
      var len := FromBigEndian(lenBytes) % U64;
      if l == 0xf8 && len == 0 then Ok(([], k + 1))
      else
        var entry :- Slice(e, 0, k + len + 1);
        Ok((entry, k + len + 1))
    else Panic
  }

  function Entries(e: bytes): Outcome<seq<bytes>>
    decreases |e|
  {
    if e == [] then Ok([]) else
    var (entry, size) :- FirstEntry(e);
    var rest :- Entries(e[size..]);
    Ok([entry] + rest)
  }

  function ListPayload(b: bytes): Outcome<bytes> {
    var len :- DecodeLength(b, LIST_OFFSET);
    if len > |b| then Panic else Slice(b, |b| - len, len)
  }

  function DecodeList(b: bytes): Outcome<seq<bytes>> {
    var payload :- ListPayload(b);
    Entries(payload)
  }

  /** Walks the payload entry by entry. */
  method ReadList(list: bytes) returns (r: Outcome<seq<bytes>>)
    ensures r == DecodeList(list)
  {
    hide FirstEntry, DecodeLength;
    var len := DecodeLength(list, 0xc0);
    if !len.Ok? { return if len.Panic? then Panic else InvalidRlpLength; }
    if len.value > |list| { return Panic; }
    var encoded :- SliceVector(list, |list| - len.value, len.value);
    var decoded: seq<bytes> := [];
    var i := 0;
    assert encoded[0..] == encoded;
    EntriesStart(encoded);
    while i < |encoded|
      invariant i <= |encoded|
      invariant EntriesContinue(Entries(encoded), decoded, Entries(encoded[i..]))
    {
      ghost var rest := encoded[i..];
      var first := FirstEntry(encoded[i..]);
      if !first.Ok? { return if first.Panic? then Panic else InvalidRlpLength; }
      var (entry, size) := first.value;
      assert rest[size..] == encoded[i + size..];
      EntriesStep(Entries(encoded), decoded, entry, Entries(rest[size..]));
      decoded := decoded + [entry];
      i := i + size;
    }
    assert encoded[i..] == [] && decoded + [] == decoded;
    return Ok(decoded);
  }

  ghost predicate EntriesContinue(whole: Outcome<seq<bytes>>, acc: seq<bytes>, rest: Outcome<seq<bytes>>) {
    match rest
    case Ok(es) => whole == Ok(acc + es)
    case Panic => whole == Panic
    case InvalidRlpLength => whole == InvalidRlpLength
  }

  lemma EntriesStart(e: bytes)
    ensures EntriesContinue(Entries(e), [], Entries(e))
  {
    hide Entries;
    if Entries(e).Ok? { assert [] + Entries(e).value == Entries(e).value; }
  }

  lemma EntriesStep(whole: Outcome<seq<bytes>>, acc: seq<bytes>, entry: bytes, rest: Outcome<seq<bytes>>)
    requires rest.Ok? ==> EntriesContinue(whole, acc, Ok([entry] + rest.value))
    requires !rest.Ok? ==> EntriesContinue(whole, acc, rest)
    ensures EntriesContinue(whole, acc + [entry], rest)
  {
    if rest.Ok? { assert acc + ([entry] + rest.value) == (acc + [entry]) + rest.value; }
  }

  // ----------------------------------------------- the decoder on encoded lists

  /** What the list decoder returns for an item: strings bare, lists whole, empty lists empty. */
  function Content(t: Item): bytes {
    match t
    case Null => []
    case Data(b) => b
    case List(ts) => if EncodeAll(ts) == [] then [] else Encode(t)
  }

  /** The one payload length whose prefix byte, f7, the list decoder does not know. */
  predicate Unreadable(t: Item) { t.List? && |EncodeAll(t.items)| == 55 }

  lemma EntryOfData(b: bytes, rest: bytes)
    requires |b| < U32
    ensures FirstEntry(Encode(Data(b)) + rest) == Ok((b, |Encode(Data(b))|))
  {
    hide FirstEntry, BigEndian;
    if IsOwnEncoding(b) {
      OwnEntry(b, rest);
    } else if |b| <= 55 {
      ShortEntry(b, rest);
    } else {
      LongEntry(b, rest);
    }
  }

  lemma OwnEntry(b: bytes, rest: bytes)
    requires IsOwnEncoding(b)
    ensures FirstEntry(b + rest) == Ok((b, 1))
  {
    assert b == [b[0]] && (b + rest)[0] == b[0];
  }

  lemma ShortEntry(b: bytes, rest: bytes)
    requires !IsOwnEncoding(b) && |b| <= 55
    ensures FirstEntry([STRING_OFFSET + |b|] + b + rest) == Ok((b, 1 + |b|))
  {
    var e := [STRING_OFFSET + |b|] + b + rest;
    assert e[0] == STRING_OFFSET + |b| && e[1..1 + |b|] == b;
  }

  lemma LongEntry(b: bytes, rest: bytes)
    requires 55 < |b| < U32
    ensures FirstEntry(Header(STRING_OFFSET, |b|) + b + rest) == Ok((b, |Header(STRING_OFFSET, |b|)| + |b|))
  {
    hide Header, BigEndian, FromBigEndian;
    var h := Header(STRING_OFFSET, |b|);
    var e := h + b + rest;
    LongHeader(STRING_OFFSET, |b|, b + rest);
    assert e == h + (b + rest);
    assert e[|h|..|h| + |b|] == b;
  }

  /** A long prefix: the length of the length, then the length. */
  lemma LongHeader(offset: byte, n: nat, rest: bytes)
    requires offset == STRING_OFFSET || offset == LIST_OFFSET
    requires 55 < n < U32
    ensures var h := Header(offset, n); var e := h + rest;
      && 2 <= |h| <= 5 && e[0] == offset + 55 + |h| - 1
      && Slice(e, 1, |h| - 1) == Ok(BigEndian(n)) && FromBigEndian(BigEndian(n)) % U64 == n
  {
    hide FromBigEndian, BigEndian, Pow256;
    var s := BigEndian(n);
    Pow256Values();
    BigEndianWidth(n, 4);
    FromOfBigEndian(n);
    var h := Header(offset, n);
    assert n % U32 == n && h == [offset + 55 + |s|] + s;
    var e := h + rest;
    assert e[1..1 + |s|] == s;
  }

  lemma EntryOfList(ts: seq<Item>, rest: bytes)
    requires |EncodeAll(ts)| < U32
    ensures FirstEntry(Encode(List(ts)) + rest) == if Unreadable(List(ts)) then Panic
      else Ok((Content(List(ts)), |Encode(List(ts))|))
  {
    hide FirstEntry, EncodeAll;
    if |EncodeAll(ts)| <= 55 {
      EntryOfShortList(EncodeAll(ts), rest);
    } else {
      EntryOfLongList(EncodeAll(ts), rest);
    }
  }

  lemma EntryOfShortList(p: bytes, rest: bytes)
    requires |p| <= 55
    ensures var list := Header(LIST_OFFSET, |p|) + p;
      FirstEntry(list + rest) == if |p| == 55 then Panic else Ok((if p == [] then [] else list, |list|))
  {
    var list := Header(LIST_OFFSET, |p|) + p;
    var e := list + rest;
    assert e[0] == 0xc0 + |p|;
    assert e[0..|list|] == list;
  }

  lemma EntryOfLongList(p: bytes, rest: bytes)
    requires 55 < |p| < U32
    ensures var list := Header(LIST_OFFSET, |p|) + p; FirstEntry(list + rest) == Ok((list, |list|))
  {
    hide FromBigEndian, BigEndian, Header;
    var h := Header(LIST_OFFSET, |p|);
    var list := h + p;
    var e := list + rest;
    LongHeader(LIST_OFFSET, |p|, p + rest);
    assert e == h + (p + rest);
    assert e[0..|list|] == list;
  }

  lemma EntryOfNull(rest: bytes)
    ensures FirstEntry(Encode(Null) + rest) == Ok(([], 2))
  {
    var e := Encode(Null) + rest;
    assert e[0] == 0xf8 && e[1..2] == [0];
    assert [0][..0] == [] && FromBigEndian([0]) == 0;
  }

  lemma EntryOfEncode(t: Item, rest: bytes)
    requires Fits(t)
    ensures FirstEntry(Encode(t) + rest) == if Unreadable(t) then Panic else Ok((Content(t), |Encode(t)|))
  {
    hide FirstEntry;
    match t
    case Null => EntryOfNull(rest);
    case Data(b) => EntryOfData(b, rest);
    case List(ts) => EntryOfList(ts, rest);
  }

  function Contents(ts: seq<Item>): (cs: seq<bytes>)
    ensures |cs| == |ts| && forall i :: 0 <= i < |ts| ==> cs[i] == Content(ts[i])
  {
    seq(|ts|, i requires 0 <= i < |ts| => Content(ts[i]))
  }

  ghost predicate AnyUnreadable(ts: seq<Item>) { exists t :: t in ts && Unreadable(t) }

  lemma {:induction false} EntriesOfEncode(ts: seq<Item>)
    requires R.AllFit(ts)
    ensures Entries(EncodeAll(ts)) == if AnyUnreadable(ts) then Panic else Ok(Contents(ts))
    decreases |ts|
  {
    hide FirstEntry, Encode, EncodeAll, Fits, Unreadable, Content;
    R.EmptyFacts();
    if ts == [] {
      assert Contents(ts) == [];
    } else {
      var t, rest := ts[0], ts[1..];
      var e := EncodeAll(ts);
      R.EncodeAllFirst(ts);
      EntryOfEncode(t, EncodeAll(rest));
      EntriesOfEncode(rest);
      assert e[|Encode(t)|..] == EncodeAll(rest);
      assert [Content(t)] + Contents(rest) == Contents(ts);
      assert AnyUnreadable(ts) <==> Unreadable(t) || AnyUnreadable(rest) by {
        assert forall x :: x in ts <==> x == t || x in rest by { assert ts == [t] + rest; }
      }
    }
  }

  /** The size of the whole decides how its length is read: with a payload of exactly 55 bytes the
      whole is 56 bytes, and the one-byte prefix is taken for a long one. */
  lemma PayloadOfEncode(p: bytes)
    requires |p| < U32
    ensures ListPayload(Header(LIST_OFFSET, |p|) + p) == Ok(if |p| == 55 then [] else p)
  {
    hide FromBigEndian, BigEndian;
    var h := Header(LIST_OFFSET, |p|);
    var b := h + p;
    assert b[0] == h[0];
    assert b[|b| - |p|..|b|] == p;
    if |p| > 55 {
      LongHeader(LIST_OFFSET, |p|, p);
    } else if |p| == 55 {
      assert Slice(b, 1, 0) == Ok([]);
      EmptyValue();
    }
  }

  lemma EmptyValue()
    ensures FromBigEndian([]) == 0 && BigEndian(0) == []
  {
  }

  lemma ListOfEncode(ts: seq<Item>)
    requires Fits(List(ts))
    ensures DecodeList(Encode(List(ts))) ==
      if |EncodeAll(ts)| == 55 then Ok([]) else if AnyUnreadable(ts) then Panic else Ok(Contents(ts))
  {
    hide EncodeAll, Entries, ListPayload, AnyUnreadable, Contents;
    PayloadOfEncode(EncodeAll(ts));
    EntriesOfEncode(ts);
    NoEntries();
  }

  lemma NoEntries()
    ensures Entries([]) == Ok([]) && DecodeList([]) == Ok([])
  {
  }

  // ------------------------------------------------------------ the second decode

  /** Decoding what the list decoder has stripped already: harmless exactly for non-empty strings
      that start below 0x80. */
  lemma DecodeFixed(s: bytes)
    ensures Decode(s) == Ok(s) <==> s != [] && s[0] < 0x80
  {
    hide FromBigEndian;
  }

  lemma DecodeOfEncode(b: bytes)
    requires |b| < U32
    ensures Decode(EncodeData(b)) == Ok(b)
  {
    hide FromBigEndian, BigEndian;
    var e := EncodeData(b);
    if !IsOwnEncoding(b) {
      var h := Header(STRING_OFFSET, |b|);
      assert e[0] == h[0];
      if |b| <= 55 {
        assert e[1..1 + |b|] == b;
      } else {
        LongHeader(STRING_OFFSET, |b|, b);
        assert e[|h|..|h| + |b|] == b;
      }
    }
  }

  // ------------------------------------------- what the decoder makes of any bytes

  /** A short prefix, of a string or a list, is taken off, and whatever follows the payload is ignored. */
  lemma DecodeShort(offset: byte, payload: bytes, rest: bytes)
    requires (offset == STRING_OFFSET || offset == LIST_OFFSET) && |payload| <= 55
    ensures Decode([offset + |payload|] + payload + rest) == Ok(payload)
  {
    hide FromBigEndian;
    var b := [offset + |payload|] + payload + rest;
    assert b[1..1 + |payload|] == payload;
  }

  /** So is a long one, with up to eight length bytes, leading zeros and short lengths included. */
  lemma DecodeLong(offset: byte, digits: bytes, payload: bytes, rest: bytes)
    requires (offset == STRING_OFFSET || offset == LIST_OFFSET) && 1 <= |digits| <= 8
    requires FromBigEndian(digits) == |payload|
    ensures Decode([offset + 55 + |digits|] + digits + payload + rest) == Ok(payload)
  {
    hide FromBigEndian, Decode;
    var k := |digits|;
    var b := [offset + 55 + k] + digits + payload + rest;
    assert b[1..1 + k] == digits && b[1 + k..1 + k + |payload|] == payload;
    DecodeDigits(b, k);
  }

  lemma DecodeDigits(b: bytes, k: nat)
    requires 1 <= k <= 8 && |b| > k && (b[0] == 0xb7 + k || b[0] == 0xf7 + k)
    ensures var n := FromBigEndian(b[1..1 + k]);
      Decode(b) == if 1 + k + n <= |b| then Ok(b[1 + k..1 + k + n]) else Panic
  {
    hide FromBigEndian;
    EightBytes(b[1..1 + k]);
    var n := FromBigEndian(b[1..1 + k]);
    assert Slice(b, 1, k) == Ok(b[1..1 + k]);
    if n == 0 { assert b[1 + k..1 + k + n] == []; }
  }

  lemma EightBytes(digits: bytes)
    requires |digits| <= 8
    ensures FromBigEndian(digits) % U64 == FromBigEndian(digits)
  {
    hide FromBigEndian, Pow256;
    FromBound(digits);
    PowMonotone(|digits|, 8);
    Pow256Values();
  }

  /** Length bytes behind the first byte of a long prefix. */
  function LengthBytes(l: byte): nat { if 0xb8 <= l < 0xc0 then l - 0xb7 else if l >= 0xf8 then l - 0xf7 else 0 }

  /** What the prefix says there is: its own length and that of the payload. */
  function Announced(b: bytes): nat
    requires b != [] && b[0] >= 0x80 && |b| > LengthBytes(b[0])
  {
    var k := LengthBytes(b[0]);
    if k > 0 then 1 + k + FromBigEndian(b[1..1 + k])
    else if b[0] < 0xc0 then 1 + b[0] - 0x80 else 1 + b[0] - 0xc0
  }

  /** Decoding panics exactly on nothing, on cut length bytes and on a cut payload. */
  lemma DecodePanics(b: bytes)
    ensures Decode(b).Ok? || Decode(b).Panic?
    ensures Decode(b).Panic? <==>
      b == [] || (b[0] >= 0x80 && (|b| <= LengthBytes(b[0]) || |b| < Announced(b)))
  {
    hide FromBigEndian;
    if b != [] && b[0] >= 0x80 && |b| > LengthBytes(b[0]) {
      var k := LengthBytes(b[0]);
      EightBytes(b[1..1 + k]);
    }
  }

  /** The payload of a list is what its prefix announces, counted from the end of the bytes; which prefix
      it is, is told from the number of bytes. */
  lemma ListPayloadForms(b: bytes)
    ensures b == [] ==> ListPayload(b) == Ok([])
    ensures 0 < |b| < 56 ==>
      ListPayload(b) == if b[0] < 0xc0 || b[0] - 0xc0 > |b| then Panic else Ok(b[|b| - (b[0] - 0xc0)..])
    ensures |b| >= 56 && b[0] < 0xf7 ==> ListPayload(b) == Panic
    ensures |b| >= 56 && b[0] >= 0xf7 ==>
      var n := FromBigEndian(b[1..1 + (b[0] - 0xf7)]);
      ListPayload(b) == if n > |b| then Panic else Ok(b[|b| - n..])
  {
    hide FromBigEndian;
    if 0 < |b| < 56 && 0xc0 <= b[0] && b[0] - 0xc0 <= |b| { LastBytes(b, b[0] - 0xc0); }
    if |b| >= 56 && b[0] >= 0xf7 {
      var k := b[0] - 0xf7;
      EightBytes(b[1..1 + k]);
      if k == 0 {
        NothingIsZero(b[1..1]);
        assert b[1..1] == [];
      }
      if FromBigEndian(b[1..1 + k]) <= |b| { LastBytes(b, FromBigEndian(b[1..1 + k])); }
    }
  }

  lemma LastBytes(b: bytes, n: nat)
    requires n <= |b|
    ensures Slice(b, |b| - n, n) == Ok(b[|b| - n..])
  {
    assert b[|b| - n..|b| - n + n] == b[|b| - n..];
    if n == 0 { assert b[|b| - n..] == []; }
  }

  lemma NothingIsZero(b: bytes)
    requires b == []
    ensures FromBigEndian(b) == 0
  {
  }

  /** The first entry of a payload: strings lose their prefix, lists keep it, for every form of prefix. */
  lemma EntryShort(offset: byte, payload: bytes, rest: bytes)
    requires (offset == STRING_OFFSET && |payload| <= 55) || (offset == LIST_OFFSET && 1 <= |payload| <= 54)
    ensures var e := [offset + |payload|] + payload;
      FirstEntry(e + rest) == Ok((if offset == STRING_OFFSET then payload else e, |e|))
  {
    hide FromBigEndian;
    var e := [offset + |payload|] + payload;
    var b := e + rest;
    assert b[1..1 + |payload|] == payload && b[0..|e|] == e;
  }

  lemma EntryLong(offset: byte, digits: bytes, payload: bytes, rest: bytes)
    requires (offset == STRING_OFFSET || offset == LIST_OFFSET) && 1 <= |digits| <= 8
    requires FromBigEndian(digits) == |payload| && (offset == LIST_OFFSET && |digits| == 1 ==> payload != [])
    ensures var e := [offset + 55 + |digits|] + digits + payload;
      FirstEntry(e + rest) == Ok((if offset == STRING_OFFSET then payload else e, |e|))
  {
    hide FromBigEndian;
    var k := |digits|;
    var e := [offset + 55 + k] + digits + payload;
    var b := e + rest;
    assert b[1..1 + k] == digits && b[1 + k..1 + k + |payload|] == payload && b[0..|e|] == e;
    EightBytes(digits);
  }
}
