/**
 What one Soroban contract hands to its connections and what another makes of it: a message is
 encoded twice, as its own list and as the payload of a wrapper. Which requests arrive as they were
 sent, which are lost and which arrive changed is decided by the codec.
 */
module SorobanWire {
  import opened Bytes
  import opened RlpFormat
  import opened IntegerCodec
  import opened Wrappers
  import opened XCall
  import M = Messages
  import C = SorobanRlp
  import S = SorobanMessages

  const SEPARATOR: byte := 47

  // ------------------------------------------------------------ network addresses

  function Join(address: NetworkAddress): bytes { address.nid + [SEPARATOR] + address.account }

  function FirstSeparator(b: bytes): (i: nat)
    ensures i <= |b| && SEPARATOR !in b[..i] && (i < |b| ==> b[i] == SEPARATOR)
    decreases |b|
  {
    if b == [] || b[0] == SEPARATOR then 0 else
    var i := FirstSeparator(b[1..]);
    assert b[..i + 1] == [b[0]] + b[1..][..i];
    i + 1
  }

  /** Texts of more than 255 bytes, or without a separator, make the contract panic. */
  function Split(b: bytes): Option<NetworkAddress> {
    var i := FirstSeparator(b);
    if |b| > 255 || i == |b| then None else Some(NetworkAddress(b[..i], b[i + 1..]))
  }

  /** Collects the network byte by byte up to the separator; the rest is the account. */
  method GetParts(b: bytes) returns (r: Option<NetworkAddress>)
    ensures r == Split(b)
  {
    if |b| > 255 { return None; }
    var nid: bytes := [];
    for i := 0 to |b|
      invariant nid == b[..i] && SEPARATOR !in nid
    {
      if b[i] == SEPARATOR {
        SeparatorAt(b, i);
        return Some(NetworkAddress(nid, b[i + 1..]));
      }
      nid := nid + [b[i]];
    }
    assert b[..|b|] == b;
    return None;
  }

  lemma SeparatorAt(b: bytes, i: nat)
    requires i < |b| && b[i] == SEPARATOR && SEPARATOR !in b[..i]
    ensures FirstSeparator(b) == i
  {
  }

  lemma SplitJoinIff(address: NetworkAddress)
    ensures Split(Join(address)) == Some(address) <==> SEPARATOR !in address.nid && |Join(address)| <= 255
  {
    var b, n := Join(address), |address.nid|;
    assert b[..n] == address.nid && b[n] == SEPARATOR && b[n + 1..] == address.account;
    if SEPARATOR !in address.nid { SeparatorAt(b, n); }
  }

  lemma JoinSplit(b: bytes)
    requires Split(b).Some?
    ensures Join(Split(b).value) == b
  {
    var i := FirstSeparator(b);
    assert b == b[..i] + [b[i]] + b[i + 1..];
  }

  // --------------------------------------------------------------------- messages

  function TypeInt(t: MessageType): nat { match t case Call => 0 case CallWithRollback => 1 case CallPersisted => 2 }

  function TypeOf(n: nat): Option<MessageType> {
    if n == 0 then Some(Call) else if n == 1 then Some(CallWithRollback) else if n == 2 then Some(CallPersisted)
      else None
  }

  function ToWire(r: CSRequest): S.Request {
    S.Request(Join(r.from), r.to, r.sn, TypeInt(r.msgType), r.data, r.protocols)
  }

  function FromWire(q: S.Request): Option<CSRequest> {
    if Split(q.from).None? || TypeOf(q.msgType).None? then None
    else Some(CSRequest(Split(q.from).value, q.to, q.sn, TypeOf(q.msgType).value, q.data, q.protocols))
  }

  lemma FromWireIff(q: S.Request, r: CSRequest)
    ensures FromWire(q) == Some(r) <==> q == ToWire(r) && SEPARATOR !in r.from.nid && |Join(r.from)| <= 255
  {
    SplitJoinIff(r.from);
    if Split(q.from).Some? { JoinSplit(q.from); }
  }

  /** What the contract sends: requests, and results without a reply. */
  predicate Sendable(m: CSMessage) { m.ResultMessage? ==> m.result.message.Empty? }

  function CodeOnWire(code: ResponseCode): M.ResponseCode { if code == Success then M.Success else M.Failure }

  function RequestTree(r: CSRequest): Item { List(S.RequestItems(ToWire(r))) }

  function ResultTree(x: CSResult): Item { List(S.ResultItems(M.ResultMsg(x.sn, CodeOnWire(x.code), []))) }

  function WrapperOf(m: CSMessage): M.Wrapper {
    match m
    case RequestMessage(r) => M.Wrapper(M.RequestType, Encode(RequestTree(r)))
    case ResultMessage(x) => M.Wrapper(M.ResultType, Encode(ResultTree(x)))
  }

  function WireTree(m: CSMessage): Item { List(S.WrapperItems(WrapperOf(m))) }

  /** The bytes handed to connections. */
  function Wire(m: CSMessage): bytes { Encode(WireTree(m)) }

  /** The message the other contract handles; nothing when decoding fails. */
  function Received(b: bytes): Option<CSMessage> {
    match S.DecodeWrapper(b)
    case Ok(w) =>
      if w.kind == M.RequestType then
        match S.DecodeRequest(w.payload)
        case Ok(q) => (match FromWire(q) case Some(r) => Some(RequestMessage(r)) case None => None)
        case _ => None
      else (
        match S.DecodeResult(w.payload)
        case Ok(x) =>
          if x.message != [] then None
          else Some(ResultMessage(CSResult(x.sn, if x.code == M.Success then Success else Failure, Empty)))
        case _ => None)
    case _ => None
  }

  /** A result is handled as it decodes, and only when it carries no reply. */
  lemma ReceivedResult(b: bytes, x: CSResult)
    ensures Received(b) == Some(ResultMessage(x)) <==>
      && x.message.Empty? && S.DecodeWrapper(b).Ok? && S.DecodeWrapper(b).value.kind == M.ResultType
      && S.DecodeResult(S.DecodeWrapper(b).value.payload) == C.Ok(M.ResultMsg(x.sn, CodeOnWire(x.code), []))
  {
    hide S.DecodeWrapper, S.DecodeResult, S.DecodeRequest;
  }

  // -------------------------------------------------------------------------- sizes

  lemma {:induction false} SmallFits(t: Item)
    requires |Encode(t)| < U32
    ensures Fits(t)
    decreases t, 0
  {
    if t.List? {
      assert |EncodeAll(t.items)| <= |Encode(t)|;
      AllSmallFit(t.items);
    }
  }

  lemma {:induction false} AllSmallFit(ts: seq<Item>)
    requires |EncodeAll(ts)| < U32
    ensures forall x :: x in ts ==> Fits(x)
    decreases ts, 1
  {
    if ts != [] {
      var front, last := ts[..|ts| - 1], ts[|ts| - 1];
      AllSmallFit(front);
      SmallFits(last);
      forall x | x in ts ensures Fits(x) {
        if x != last { assert x in front; }
      }
    }
  }

  /** A message within the contract's size limit is within the codec's. */
  lemma WireFits(m: CSMessage)
    requires |Wire(m)| <= MAX_DATA_SIZE
    ensures Fits(WireTree(m)) && Fits(if m.RequestMessage? then RequestTree(m.request) else ResultTree(m.result))
  {
    hide Encode;
    SmallFits(WireTree(m));
    var items := S.WrapperItems(WrapperOf(m));
    assert items[1] in items;
    assert |WrapperOf(m).payload| < U32;
    SmallFits(if m.RequestMessage? then RequestTree(m.request) else ResultTree(m.result));
  }

  // --------------------------------------------------------- what arrives as it was sent

  /** The request's own lists and the wrapper's are not 55 bytes, its texts start with an ASCII byte,
      its number is not zero, and its sender can be taken apart. */
  ghost predicate Travels(r: CSRequest) {
    && S.Survives(ToWire(r)) && |EncodeAll(S.WrapperItems(WrapperOf(RequestMessage(r))))| != 55
    && SEPARATOR !in r.from.nid && |Join(r.from)| <= 255
  }

  lemma TravelsIff(r: CSRequest)
    requires r.sn < Pow256(16) && |Wire(RequestMessage(r))| <= MAX_DATA_SIZE
    ensures Received(Wire(RequestMessage(r))) == Some(RequestMessage(r)) <==> Travels(r)
  {
    hide Encode, EncodeAll, S.DecodeWrapper, S.DecodeRequest, S.DecodeResult, FromWire, Fits, S.Survives, Pow256, Join,
      S.RequestItems, S.WrapperItems;
    var m := RequestMessage(r);
    WireFits(m);
    S.WrapperRoundTripIff(WrapperOf(m));
    S.RequestRoundTripIff(ToWire(r));
    WrapperReads(WrapperOf(m));
    if S.DecodeRequest(Encode(RequestTree(r))).Ok? {
      FromWireIff(S.DecodeRequest(Encode(RequestTree(r))).value, r);
    }
  }

  /** A wrapper is read back or refused. */
  lemma WrapperReads(w: M.Wrapper)
    requires Fits(List(S.WrapperItems(w)))
    ensures S.DecodeWrapper(Encode(List(S.WrapperItems(w)))) ==
      if |EncodeAll(S.WrapperItems(w))| == 55 then C.InvalidRlpLength else C.Ok(w)
  {
    hide Encode, EncodeAll, C.DecodeList, S.DecodeU32, Fits, C.ToSignedBytes;
    var items := S.WrapperItems(w);
    C.ListOfEncode(items);
    assert !C.AnyUnreadable(items);
    assert C.Contents(items) == [C.ToSignedBytes(w.kind.AsInt()), w.payload];
    S.KindRoundTrip(w.kind.AsInt());
  }

  /** Results always travel. */
  lemma ResultTravels(x: CSResult)
    requires x.message.Empty? && 1 <= x.sn < Pow256(16)
    ensures Received(Wire(ResultMessage(x))) == Some(ResultMessage(x))
  {
    hide Encode, EncodeAll, S.DecodeWrapper, S.DecodeRequest, S.DecodeResult, Fits, Pow256, S.ResultItems,
      S.WrapperItems;
    ResultSize(x);
    S.ResultRoundTripIff(M.ResultMsg(x.sn, CodeOnWire(x.code), []));
    WrapperReads(WrapperOf(ResultMessage(x)));
  }

  lemma ResultSize(x: CSResult)
    requires x.sn < Pow256(16)
    ensures |EncodeAll(S.ResultItems(M.ResultMsg(x.sn, CodeOnWire(x.code), [])))| < 55 && Fits(ResultTree(x))
    ensures |EncodeAll(S.WrapperItems(WrapperOf(ResultMessage(x))))| < 55 && Fits(WireTree(ResultMessage(x)))
  {
    hide Pow256, C.ToSignedBytes, Header, BigEndian;
    var items := S.ResultItems(M.ResultMsg(x.sn, CodeOnWire(x.code), []));
    S.SignedSize(x.sn);
    ThreeSizes(items);
    SmallData(C.ToSignedBytes(x.sn));
    SmallData([CodeOnWire(x.code).AsInt()]);
    SmallData([]);
    SmallList(items);
    SmallFits(ResultTree(x));
    var outer := S.WrapperItems(WrapperOf(ResultMessage(x)));
    TwoSizes(outer);
    KindSize();
    SmallData(outer[0].data);
    SmallData(outer[1].data);
    SmallList(outer);
    SmallFits(WireTree(ResultMessage(x)));
  }

  lemma KindSize()
    ensures |C.ToSignedBytes(2)| == 1
  {
    assert BigEndian(2) == [2] by { assert BigEndian(0) == []; }
  }

  lemma ThreeSizes(ts: seq<Item>)
    requires |ts| == 3
    ensures |EncodeAll(ts)| == |Encode(ts[0])| + |Encode(ts[1])| + |Encode(ts[2])|
  {
    hide Encode;
    TwoSizes(ts[..2]);
  }

  lemma TwoSizes(ts: seq<Item>)
    requires |ts| == 2
    ensures |EncodeAll(ts)| == |Encode(ts[0])| + |Encode(ts[1])|
  {
    hide Encode;
    assert ts[..1] == [ts[0]];
    EncodeAllOne(ts[0]);
  }

  lemma SmallData(b: bytes)
    requires |b| <= 55
    ensures |Encode(Data(b))| <= |b| + 1
  {
  }

  lemma SmallList(ts: seq<Item>)
    requires |EncodeAll(ts)| <= 55
    ensures |Encode(List(ts))| == |EncodeAll(ts)| + 1
  {
  }

  // ------------------------------------------------------------- what is received

  /** The request, its protocols or the wrapper is a list of exactly 55 bytes. */
  predicate AnyFiftyFive(r: CSRequest) {
    || |EncodeAll(S.RequestItems(ToWire(r)))| == 55 || |EncodeAll(M.Strings(r.protocols))| == 55
    || |EncodeAll(S.WrapperItems(WrapperOf(RequestMessage(r))))| == 55
  }

  /** What the other contract reads: its two texts, sender and account, are decoded once more than they
      were encoded. Number, type, data and protocols are as they were sent, or the whole is lost. */
  function Decoded(r: CSRequest): Option<CSRequest> {
    var from, to := C.Decode(Join(r.from)), C.Decode(r.to);
    if AnyFiftyFive(r) || r.sn == 0 || !from.Ok? || !to.Ok? || Split(from.value).None? then None
    else Some(r.(from := Split(from.value).value, to := to.value))
  }

  lemma DecodedIs(r: CSRequest)
    requires r.sn < Pow256(16) && |Wire(RequestMessage(r))| <= MAX_DATA_SIZE
    ensures Received(Wire(RequestMessage(r))) ==
      if Decoded(r).Some? then Some(RequestMessage(Decoded(r).value)) else None
  {
    hide Encode, EncodeAll, S.DecodeWrapper, S.DecodeU8, S.DecodeU128, Fits, C.DecodeList, C.Decode, S.RequestItems,
      S.WrapperItems, Pow256, Join, C.ToSignedBytes, C.Content, Split;
    var m, q := RequestMessage(r), ToWire(r);
    WireFits(m);
    WrapperReads(WrapperOf(m));
    S.RequestFields(q);
    S.SnRoundTrip(q.sn);
    S.TypeRoundTrip(q.msgType);
    if |EncodeAll(M.Strings(r.protocols))| != 55 { ProtocolsRead(r); }
  }

  /** A list of exactly 55 bytes, the request, its protocols or the wrapper, and the call is lost. */
  lemma FiftyFiveIsLost(r: CSRequest)
    requires |Wire(RequestMessage(r))| <= MAX_DATA_SIZE && AnyFiftyFive(r)
    ensures Received(Wire(RequestMessage(r))).None?
  {
    hide Encode, EncodeAll, S.DecodeWrapper, Fits, C.DecodeList, S.RequestItems, S.WrapperItems, Join;
    var m := RequestMessage(r);
    WireFits(m);
    WrapperReads(WrapperOf(m));
    S.RequestFields(ToWire(r));
  }

  lemma ProtocolsRead(r: CSRequest)
    requires Fits(RequestTree(r)) && |EncodeAll(M.Strings(r.protocols))| != 55
    ensures C.DecodeList(C.Content(List(M.Strings(r.protocols)))) == C.Ok(r.protocols)
  {
    hide Encode, EncodeAll, C.DecodeList, C.Content;
    S.FieldFits(S.RequestItems(ToWire(r)), 5);
    S.StringsRoundTrip(r.protocols);
  }

  /** A request with nothing wrong with it but its account: the account decides what arrives. It arrives
      as it was sent exactly when it starts with an ASCII byte. */
  lemma AccountDecides(r: CSRequest)
    requires r.sn < Pow256(16) && |Wire(RequestMessage(r))| <= MAX_DATA_SIZE
    requires r.sn >= 1 && S.StartsLow(Join(r.from)) && SEPARATOR !in r.from.nid && |Join(r.from)| <= 255
    requires !AnyFiftyFive(r)
    ensures Received(Wire(RequestMessage(r))) ==
      match C.Decode(r.to) case Ok(t) => Some(RequestMessage(r.(to := t))) case _ => None
    ensures C.Decode(r.to) == C.Ok(r.to) <==> r.to != [] && r.to[0] < 0x80
  {
    hide Encode, EncodeAll, Fits, C.Decode, S.RequestItems, S.WrapperItems, Pow256, Join, Split, AnyFiftyFive, Received,
      Wire;
    DecodedIs(r);
    C.DecodeFixed(Join(r.from));
    C.DecodeFixed(r.to);
    SplitJoinIff(r.from);
  }

  lemma OneByte(x: byte)
    ensures FromBigEndian([x]) == x
  {
    assert FromBigEndian([x][..0]) == 0;
  }

  /** An account that is itself an encoded text arrives as that text: `b8 38` and an address of 56
      characters as the address. */
  lemma EncodedAccount(address: bytes)
    requires |address| == 56
    ensures C.Decode([0xb8, 56] + address) == C.Ok(address)
  {
    hide FromBigEndian;
    var b := [0xb8, 56] + address;
    assert C.Slice(b, 1, 1) == C.Ok([56]);
    assert FromBigEndian([56]) == 56 by { OneByte(56); }
    assert b[2..2 + 56] == address;
  }

  /** What the other contract takes: it refuses a request whose sender is of another network than the
      one it came from. */
  function Image(r: CSRequest): (q: Option<CSRequest>)
    ensures q.Some? ==> q.value == r.(from := NetworkAddress(r.from.nid, q.value.from.account), to := q.value.to)
  {
    var q := Decoded(r);
    if q.Some? && q.value.from.nid == r.from.nid then q else None
  }

  lemma ImageIsItself(r: CSRequest)
    ensures Image(r) == Some(r) <==> Travels(r)
  {
    hide Encode, EncodeAll, C.Decode, S.RequestItems, S.WrapperItems, Join, Split;
    C.DecodeFixed(Join(r.from));
    C.DecodeFixed(r.to);
    SplitJoinIff(r.from);
    var from := C.Decode(Join(r.from));
    if from.Ok? && Split(from.value).Some? { JoinSplit(from.value); }
  }
}
