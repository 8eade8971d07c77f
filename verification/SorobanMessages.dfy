/**
 The messages of the Soroban contract, written by the functional encoder and read back by the
 functional decoder, with the exact conditions under which reading undoes writing.
 */
module SorobanMessages {
  import opened Bytes
  import opened RlpFormat
  import opened IntegerCodec
  import opened SorobanRlp
  import M = Messages

  /** The contract keeps the message type as a 32-bit number. */
  datatype Request = Request(from: bytes, to: bytes, sn: nat, msgType: nat, data: bytes, protocols: seq<bytes>)

  // ----------------------------------------------------------------------- trees

  function RequestItems(r: Request): seq<Item> {
    [Data(r.from), Data(r.to), Data(ToSignedBytes(r.sn)), Data([r.msgType % 256]), Data(r.data),
      List(M.Strings(r.protocols))]
  }

  function ResultItems(r: M.ResultMsg): seq<Item> {
    [Data(ToSignedBytes(r.sn)), Data([r.code.AsInt()]), Data(r.message)]
  }

  function WrapperItems(w: M.Wrapper): seq<Item> {
    [Data(ToSignedBytes(w.kind.AsInt())), Data(w.payload)]
  }

  // --------------------------------------------------------------------- encoding

  lemma {:induction false} ConcatEncodes(list: seq<bytes>, ts: seq<Item>)
    requires |list| == |ts| && forall i :: 0 <= i < |ts| ==> list[i] == Encode(ts[i])
    ensures Concat(list) == EncodeAll(ts)
    decreases |list|
  {
    hide Encode;
    if list != [] { ConcatEncodes(list[..|list| - 1], ts[..|ts| - 1]); }
  }

  method EncodeUint(v: nat) returns (r: bytes)
    requires v < Pow256(16)
    ensures r == Encode(Data(ToSignedBytes(v)))
  {
    hide EncodeData, FromBigEndian, Pow256;
    SignedSize(v);
    FromOfBigEndian(v);
    var b := ToSigned(BigEndian(v), true);
    r := EncodeBytes(b);
  }

  lemma SignedSize(v: nat)
    requires v < Pow256(16)
    ensures |ToSignedBytes(v)| <= 17
  {
    SignedLength(v, 16);
  }

  method EncodeStrings(values: seq<bytes>) returns (r: bytes)
    requires Fits(List(M.Strings(values)))
    ensures r == Encode(List(M.Strings(values)))
  {
    hide Encode, EncodeAll, EncodeData;
    ghost var ts := M.Strings(values);
    AllSizes(ts);
    var list: seq<bytes> := [];
    for i := 0 to |values|
      invariant |list| == i && forall j :: 0 <= j < i ==> list[j] == Encode(ts[j])
    {
      var e := EncodeBytes(values[i]);
      DataIsEncoded(values[i]);
      list := list + [e];
    }
    ConcatEncodes(list, ts);
    r := EncodeList(list);
    ListIsEncoded(ts);
  }

  lemma AllSizes(ts: seq<Item>)
    requires Fits(List(ts))
    ensures |EncodeAll(ts)| < U32 && forall i :: 0 <= i < |ts| && ts[i].Data? ==> |ts[i].data| < U32
  {
    hide EncodeAll;
    forall i | 0 <= i < |ts| && ts[i].Data? ensures |ts[i].data| < U32 { assert Fits(ts[i]); }
  }

  lemma DataIsEncoded(b: bytes)
    ensures Encode(Data(b)) == EncodeData(b)
  {
  }

  lemma ListIsEncoded(ts: seq<Item>)
    ensures Encode(List(ts)) == Header(LIST_OFFSET, |EncodeAll(ts)|) + EncodeAll(ts)
  {
  }

  method EncodeRequest(r: Request) returns (out: bytes)
    requires r.sn < Pow256(16) && Fits(List(RequestItems(r)))
    ensures out == Encode(List(RequestItems(r)))
  {
    hide Encode, EncodeAll, EncodeData, Fits, Pow256, ToSignedBytes;
    ghost var items := RequestItems(r);
    AllSizes(items);
    assert |r.from| < U32 by { assert items[0] == Data(r.from); }
    assert |r.to| < U32 by { assert items[1] == Data(r.to); }
    assert |r.data| < U32 by { assert items[4] == Data(r.data); }
    FieldFits(items, 5);
    var from := EncodeBytes(r.from);
    DataIsEncoded(r.from);
    var to := EncodeBytes(r.to);
    DataIsEncoded(r.to);
    var sn := EncodeUint(r.sn);
    var t := EncodeBytes([r.msgType % 256]);
    DataIsEncoded([r.msgType % 256]);
    var data := EncodeBytes(r.data);
    DataIsEncoded(r.data);
    var protocols := EncodeStrings(r.protocols);
    var list := [from, to, sn, t, data, protocols];
    ConcatEncodes(list, items);
    out := EncodeList(list);
    ListIsEncoded(items);
  }

  lemma FieldFits(items: seq<Item>, i: nat)
    requires Fits(List(items)) && i < |items|
    ensures Fits(items[i])
  {
    hide EncodeAll;
    assert items[i] in items;
  }

  method EncodeResult(r: M.ResultMsg) returns (out: bytes)
    requires r.sn < Pow256(16) && Fits(List(ResultItems(r)))
    ensures out == Encode(List(ResultItems(r)))
  {
    hide Encode, EncodeAll, EncodeData, Fits, Pow256, ToSignedBytes;
    ghost var items := ResultItems(r);
    AllSizes(items);
    assert |r.message| < U32 by { assert items[2] == Data(r.message); }
    var sn := EncodeUint(r.sn);
    var code := EncodeBytes([r.code.AsInt()]);
    DataIsEncoded([r.code.AsInt()]);
    var message := EncodeBytes(r.message);
    DataIsEncoded(r.message);
    var list := [sn, code, message];
    ConcatEncodes(list, items);
    out := EncodeList(list);
    ListIsEncoded(items);
  }

  method EncodeWrapper(w: M.Wrapper) returns (out: bytes)
    requires Fits(List(WrapperItems(w)))
    ensures out == Encode(List(WrapperItems(w)))
  {
    hide Encode, EncodeAll, EncodeData, Fits, Pow256, ToSignedBytes;
    ghost var items := WrapperItems(w);
    AllSizes(items);
    assert |w.payload| < U32 by { assert items[1] == Data(w.payload); }
    SmallNumber(w.kind.AsInt());
    var kind := EncodeUint(w.kind.AsInt());
    var payload := EncodeBytes(w.payload);
    DataIsEncoded(w.payload);
    var list := [kind, payload];
    ConcatEncodes(list, items);
    out := EncodeList(list);
    ListIsEncoded(items);
  }

  lemma SmallNumber(b: byte)
    ensures b < Pow256(16)
  {
    PowMonotone(1, 16);
  }

  // --------------------------------------------------------------------- decoding

  function DecodeU8(b: bytes): Outcome<nat> {
    var d :- Decode(b);
    Ok(if d == [] then 0 else d[0])
  }

  function DecodeU32(b: bytes): Outcome<nat> {
    var d :- Decode(b);
    Ok(FromBigEndian(d) % U32)
  }

  function DecodeU128(b: bytes): Outcome<nat> {
    if |b| == 1 then Ok(b[0]) else
    var d :- Decode(b);
    Ok(FromBigEndian(d) % U128)
  }

  function DecodeRequest(b: bytes): Outcome<Request> {
    var fields :- DecodeList(b);
    if |fields| != 6 then InvalidRlpLength else
    var from :- Decode(fields[0]);
    var to :- Decode(fields[1]);
    var sn :- DecodeU128(fields[2]);
    var t :- DecodeU8(fields[3]);
    var protocols :- DecodeList(fields[5]);
    Ok(Request(from, to, sn, t, fields[4], protocols))
  }

  function CodeFrom(n: nat): Outcome<M.ResponseCode> {
    if n == 0 then Ok(M.Failure) else if n == 1 then Ok(M.Success) else Panic
  }

  function DecodeResult(b: bytes): Outcome<M.ResultMsg> {
    var fields :- DecodeList(b);
    if |fields| != 3 then InvalidRlpLength else
    var sn :- DecodeU128(fields[0]);
    var n :- DecodeU8(fields[1]);
    var code :- CodeFrom(n);
    Ok(M.ResultMsg(sn, code, fields[2]))
  }

  function DecodeWrapper(b: bytes): Outcome<M.Wrapper> {
    var fields :- DecodeList(b);
    if |fields| != 2 then InvalidRlpLength else
    var t :- DecodeU32(fields[0]);
    if t == 1 then Ok(M.Wrapper(M.RequestType, fields[1]))
    else if t == 2 then Ok(M.Wrapper(M.ResultType, fields[1]))
    else Panic
  }

  // -------------------------------------------------------------------- round trips

  predicate StartsLow(s: bytes) { s != [] && s[0] < 0x80 }

  lemma SnRoundTrip(sn: nat)
    requires sn < Pow256(16)
    ensures DecodeU128(ToSignedBytes(sn)) == if sn == 0 then Panic else Ok(sn)
  {
    hide Pow256, BigEndian;
    Pow256Values();
    if sn > 0 {
      var s := ToSignedBytes(sn);
      SignedValue(sn);
      DecodeFixed(s);
      if |s| == 1 { assert s[..0] == []; }
    }
  }

  lemma TypeRoundTrip(t: nat)
    ensures DecodeU8([t % 256]) == Ok(t) <==> t < 128
  {
    hide FromBigEndian;
  }

  lemma {:induction false} PlainStrings(ss: seq<bytes>)
    ensures !AnyUnreadable(M.Strings(ss)) && Contents(M.Strings(ss)) == ss
  {
  }

  lemma StringsRoundTrip(ss: seq<bytes>)
    requires Fits(List(M.Strings(ss))) && |EncodeAll(M.Strings(ss))| != 55
    ensures DecodeList(Content(List(M.Strings(ss)))) == Ok(ss)
  {
    hide Encode, EncodeAll, DecodeList, AnyUnreadable, Contents, Fits;
    NoEntries();
    NoItems(ss);
    ListOfEncode(M.Strings(ss));
    PlainStrings(ss);
  }

  lemma NoItems(ss: seq<bytes>)
    ensures EncodeAll(M.Strings(ss)) == [] ==> ss == []
  {
  }

  /** The request's list decodes to its six fields unless a payload is exactly 55 bytes. */
  lemma RequestFields(r: Request)
    requires Fits(List(RequestItems(r)))
    ensures var items := RequestItems(r); var nested := |EncodeAll(M.Strings(r.protocols))|;
      DecodeList(Encode(List(items))) ==
        if |EncodeAll(items)| == 55 then Ok([])
        else if nested == 55 then Panic
        else Ok([r.from, r.to, ToSignedBytes(r.sn), [r.msgType % 256], r.data, Content(List(M.Strings(r.protocols)))])
  {
    hide Encode, EncodeAll, DecodeList, Fits, ToSignedBytes, M.Strings;
    var items := RequestItems(r);
    ListOfEncode(items);
    assert AnyUnreadable(items) <==> Unreadable(items[5]) by {
      assert items[5] in items;
    }
    assert Contents(items) == [r.from, r.to, ToSignedBytes(r.sn), [r.msgType % 256], r.data, Content(items[5])];
  }

  /** What a request must satisfy to survive the contract's own encoder and decoder. */
  ghost predicate Survives(r: Request) {
    && r.sn >= 1 && r.msgType < 128 && StartsLow(r.from) && StartsLow(r.to)
    && |EncodeAll(RequestItems(r))| != 55 && |EncodeAll(M.Strings(r.protocols))| != 55
  }

  /** A request decodes back to itself exactly when its sequence number is not zero, its type is
      below 128, both addresses start with an ASCII byte, and neither list has a payload of
      exactly 55 bytes. */
  lemma RequestRoundTripIff(r: Request)
    requires r.sn < Pow256(16) && Fits(List(RequestItems(r)))
    ensures DecodeRequest(Encode(List(RequestItems(r)))) == Ok(r) <==> Survives(r)
  {
    hide Encode, EncodeAll, DecodeList, Decode, DecodeU8, DecodeU128, Fits, ToSignedBytes, M.Strings, Content, Pow256;
    RequestFields(r);
    DecodeFixed(r.from);
    DecodeFixed(r.to);
    SnRoundTrip(r.sn);
    TypeRoundTrip(r.msgType);
    FieldFits(RequestItems(r), 5);
    if |EncodeAll(M.Strings(r.protocols))| != 55 {
      StringsRoundTrip(r.protocols);
    }
  }

  lemma ResultRoundTripIff(r: M.ResultMsg)
    requires r.sn < Pow256(16) && Fits(List(ResultItems(r)))
    ensures DecodeResult(Encode(List(ResultItems(r)))) == Ok(r) <==> r.sn >= 1 && |EncodeAll(ResultItems(r))| != 55
  {
    hide Encode, EncodeAll, DecodeList, DecodeU8, DecodeU128, Fits, ToSignedBytes, Pow256;
    var items := ResultItems(r);
    ListOfEncode(items);
    assert !AnyUnreadable(items);
    assert Contents(items) == [ToSignedBytes(r.sn), [r.code.AsInt()], r.message];
    SnRoundTrip(r.sn);
    TypeRoundTrip(r.code.AsInt());
  }

  lemma KindRoundTrip(n: nat)
    requires 1 <= n <= 2
    ensures DecodeU32(ToSignedBytes(n)) == Ok(n)
  {
    assert BigEndian(n) == [n] by { assert BigEndian(0) == []; }
    assert [n][..0] == [];
    DecodeFixed([n]);
  }

  lemma WrapperRoundTripIff(w: M.Wrapper)
    requires Fits(List(WrapperItems(w)))
    ensures DecodeWrapper(Encode(List(WrapperItems(w)))) == Ok(w) <==> |EncodeAll(WrapperItems(w))| != 55
  {
    hide Encode, EncodeAll, DecodeList, DecodeU32, Fits, ToSignedBytes;
    var items := WrapperItems(w);
    ListOfEncode(items);
    assert !AnyUnreadable(items);
    assert Contents(items) == [ToSignedBytes(w.kind.AsInt()), w.payload];
    KindRoundTrip(w.kind.AsInt());
  }

  // ------------------------------------------------------ what the decoders accept

  /** A number of one byte is that byte, whatever it is; any other is decoded once more and cut to 128
      bits. */
  lemma NumberForms(x: byte, v: nat)
    requires |BigEndian(v)| >= 2 && |BigEndian(v)| < U32
    ensures DecodeU128([x]) == Ok(x as nat)
    ensures DecodeU128(EncodeData(BigEndian(v))) == Ok(v % U128)
  {
    hide BigEndian, FromBigEndian, Decode, EncodeData;
    DecodeOfEncode(BigEndian(v));
    FromOfBigEndian(v);
    MoreThanOne(BigEndian(v));
  }

  lemma MoreThanOne(b: bytes)
    requires |b| >= 2
    ensures |EncodeData(b)| >= 2
  {
  }

  /** A request is read exactly from a list of six fields whose texts, numbers and protocols are those of
      the request; any other number of fields is refused. */
  lemma RequestReadIff(b: bytes, r: Request)
    ensures DecodeRequest(b) == Ok(r) <==>
      && DecodeList(b).Ok? && |DecodeList(b).value| == 6
      && (var f := DecodeList(b).value;
          && Decode(f[0]) == Ok(r.from) && Decode(f[1]) == Ok(r.to) && DecodeU128(f[2]) == Ok(r.sn)
          && DecodeU8(f[3]) == Ok(r.msgType) && f[4] == r.data && DecodeList(f[5]) == Ok(r.protocols))
    ensures DecodeList(b).Ok? && |DecodeList(b).value| != 6 ==> DecodeRequest(b) == InvalidRlpLength
  {
    hide Decode, DecodeList, DecodeU128, DecodeU8;
  }

  /** A result's code is zero or one; anything else panics. */
  lemma ResultReadIff(b: bytes, r: M.ResultMsg)
    ensures DecodeResult(b) == Ok(r) <==>
      && DecodeList(b).Ok? && |DecodeList(b).value| == 3
      && (var f := DecodeList(b).value;
          DecodeU128(f[0]) == Ok(r.sn) && DecodeU8(f[1]) == Ok(r.code.AsInt() as nat) && f[2] == r.message)
    ensures DecodeList(b).Ok? && |DecodeList(b).value| != 3 ==> DecodeResult(b) == InvalidRlpLength
    ensures DecodeList(b).Ok? && |DecodeList(b).value| == 3 ==>
      var f := DecodeList(b).value;
      DecodeU128(f[0]).Ok? && DecodeU8(f[1]).Ok? && DecodeU8(f[1]).value > 1 ==> DecodeResult(b) == Panic
  {
    hide DecodeList, DecodeU128, DecodeU8;
  }

  /** A wrapper's type is one or two; anything else panics. */
  lemma WrapperReadIff(b: bytes, w: M.Wrapper)
    ensures DecodeWrapper(b) == Ok(w) <==>
      && DecodeList(b).Ok? && |DecodeList(b).value| == 2
      && DecodeU32(DecodeList(b).value[0]) == Ok(w.kind.AsInt() as nat) && DecodeList(b).value[1] == w.payload
    ensures DecodeList(b).Ok? && |DecodeList(b).value| != 2 ==> DecodeWrapper(b) == InvalidRlpLength
    ensures DecodeList(b).Ok? && |DecodeList(b).value| == 2 ==>
      var t := DecodeU32(DecodeList(b).value[0]);
      t.Ok? && t.value != 1 && t.value != 2 ==> DecodeWrapper(b) == Panic
  {
    hide DecodeList, DecodeU32;
  }
}
