/**
 Two independent encoders, one wire format: the stream writer of the Solana program and the
 functional encoder of the Soroban contract, message by message.
 */
module WireFormat {
  import opened Bytes
  import opened RlpFormat
  import opened IntegerCodec
  import opened Messages
  import R = RlpReader
  import Solana = SolanaMessages
  import Soroban = SorobanMessages
  import Codec = SorobanRlp

  function SorobanRequest(r: Request): Soroban.Request {
    Soroban.Request(r.from, r.to, r.sn, r.msgType.AsInt(), r.data, r.protocols)
  }

  /** The two integer encoders agree on the numbers from 1 below 2^127 and on no other. */
  lemma SameInteger(v: nat)
    requires v < Pow256(16)
    ensures Codec.ToSignedBytes(v) == UintBytes(v) <==> 1 <= v < Half(16)
  {
    hide Pow256, BigEndian;
    if v >= Half(16) {
      SignedLength(v, 16);
      UintLength(v, 16);
    }
  }

  lemma SameItems(a: seq<Item>, b: seq<Item>)
    requires Fits(List(a)) && Fits(List(b))
    ensures Encode(List(a)) == Encode(List(b)) <==> a == b
  {
    hide Encode, Fits;
    if Encode(List(a)) == Encode(List(b)) { R.EncodeInjective(List(a), List(b)); }
  }

  /** Both encoders on one request: the same bytes exactly when 1 <= sn < 2^127. */
  method EncodeRequestTwice(r: Request) returns (solana: bytes, soroban: bytes)
    requires r.sn < Pow256(16)
    requires Fits(List(RequestItems(r))) && Fits(List(Soroban.RequestItems(SorobanRequest(r))))
    ensures solana == soroban <==> 1 <= r.sn < Half(16)
  {
    hide Encode, Fits, UintBytes, Codec.ToSignedBytes, Pow256, Half, Strings;
    solana := Solana.EncodeRequest(r);
    soroban := Soroban.EncodeRequest(SorobanRequest(r));
    ghost var a, b := RequestItems(r), Soroban.RequestItems(SorobanRequest(r));
    SameItems(a, b);
    SameInteger(r.sn);
    assert a == b <==> a[2] == b[2];
  }

  method EncodeResultTwice(r: ResultMsg) returns (solana: bytes, soroban: bytes)
    requires r.sn < Pow256(16)
    requires Fits(List(ResultItems(r))) && Fits(List(Soroban.ResultItems(r)))
    ensures solana == soroban <==> 1 <= r.sn < Half(16)
  {
    hide Encode, Fits, UintBytes, Codec.ToSignedBytes, Pow256, Half;
    solana := Solana.EncodeResult(r);
    soroban := Soroban.EncodeResult(r);
    ghost var a, b := ResultItems(r), Soroban.ResultItems(r);
    SameItems(a, b);
    SameInteger(r.sn);
    assert a == b <==> a[0] == b[0];
  }

  method EncodeWrapperTwice(w: Wrapper) returns (solana: bytes, soroban: bytes)
    requires Fits(List(WrapperItems(w)))
    ensures solana == soroban
  {
    hide Encode, Fits, Codec.ToSignedBytes;
    SameKind(w.kind.AsInt());
    assert WrapperItems(w) == Soroban.WrapperItems(w);
    solana := Solana.EncodeWrapper(w);
    soroban := Soroban.EncodeWrapper(w);
  }

  lemma SameKind(n: nat)
    requires 1 <= n <= 2
    ensures Codec.ToSignedBytes(n) == [n]
  {
    assert BigEndian(n) == [n] by { assert BigEndian(0) == []; }
  }

  /** A wrapper around 53 bytes is a list of 55: either encoder writes it, the Solana reader reads
      it, and the Soroban reader sees an empty list. */
  lemma FiftyFiveIsLost(w: Wrapper)
    requires |w.payload| == 53
    ensures Fits(List(WrapperItems(w)))
    ensures Solana.DecodeWrapper(Encode(List(WrapperItems(w))), Solana.Near) == R.Ok(w)
    ensures Soroban.DecodeWrapper(Encode(List(WrapperItems(w)))) == Codec.InvalidRlpLength
  {
    hide Solana.DecodeWrapper, Codec.DecodeList, Codec.ToSignedBytes;
    var items := WrapperItems(w);
    SameKind(w.kind.AsInt());
    assert items == Soroban.WrapperItems(w);
    WrapperSize(w);
    Solana.WrapperRoundTrip(w);
    Codec.ListOfEncode(items);
  }

  lemma WrapperSize(w: Wrapper)
    requires |w.payload| == 53
    ensures |EncodeAll(WrapperItems(w))| == 55 && Fits(List(WrapperItems(w)))
  {
    var k: bytes := [w.kind.AsInt()];
    var items := WrapperItems(w);
    assert items == [Data(k)] + [Data(w.payload)];
    EncodeAllConcat([Data(k)], [Data(w.payload)]);
    EncodeAllOne(Data(k));
    EncodeAllOne(Data(w.payload));
    assert |Encode(Data(k))| == 1 && |Encode(Data(w.payload))| == 54;
  }
}
