/** The messages both codecs carry, and their trees on the wire. Strings are their UTF-8 bytes. */
module Messages {
  import opened Bytes
  import opened RlpFormat
  import opened IntegerCodec

  datatype MessageType = Call | CallWithRollback | CallPersisted {
    function AsInt(): byte {
      match this case Call => 0 case CallWithRollback => 1 case CallPersisted => 2
    }
  }

  datatype Request = Request(from: bytes, to: bytes, sn: nat, msgType: MessageType, data: bytes, protocols: seq<bytes>)

  datatype ResponseCode = Failure | Success {
    function AsInt(): byte { if Success? then 1 else 0 }
  }

  datatype ResultMsg = ResultMsg(sn: nat, code: ResponseCode, message: bytes)

  datatype WrapperType = RequestType | ResultType {
    function AsInt(): byte { if RequestType? then 1 else 2 }
  }

  datatype Wrapper = Wrapper(kind: WrapperType, payload: bytes)

  datatype AnyMessage =
    | CallMessage(data: bytes)
    | CallMessageWithRollback(data: bytes, rollback: bytes)
    | CallMessagePersisted(data: bytes)
  {
    function Type(): MessageType {
      match this
      case CallMessage(_) => Call
      case CallMessageWithRollback(_, _) => CallWithRollback
      case CallMessagePersisted(_) => CallPersisted
    }
  }

  datatype Envelope = Envelope(message: AnyMessage, sources: seq<bytes>, destinations: seq<bytes>)

  // ------------------------------------------------------------------------ trees

  function Strings(ss: seq<bytes>): (ts: seq<Item>)
    ensures |ts| == |ss| && forall i :: 0 <= i < |ss| ==> ts[i] == Data(ss[i])
  {
    seq(|ss|, i requires 0 <= i < |ss| => Data(ss[i]))
  }

  function RequestItems(r: Request): seq<Item> {
    [Data(r.from), Data(r.to), Data(UintBytes(r.sn)), Data([r.msgType.AsInt()]), Data(r.data),
      List(Strings(r.protocols))]
  }

  function ResultItems(r: ResultMsg): seq<Item> {
    [Data(UintBytes(r.sn)), Data([r.code.AsInt()]), Data(r.message)]
  }

  function WrapperItems(w: Wrapper): seq<Item> {
    [Data([w.kind.AsInt()]), Data(w.payload)]
  }

  function AnyMessageItems(m: AnyMessage): seq<Item> {
    match m
    case CallMessage(d) => [Data(d)]
    case CallMessageWithRollback(d, r) => [Data(d), Data(r)]
    case CallMessagePersisted(d) => [Data(d)]
  }

  function EnvelopeItems(e: Envelope): seq<Item> {
    [Data([e.message.Type().AsInt()]), Data(Encode(List(AnyMessageItems(e.message)))),
     List(Strings(e.sources)), List(Strings(e.destinations))]
  }

  // ------------------------------------------------------------------------ UTF-8

  predicate Continuation(b: byte) { 0x80 <= b <= 0xbf }

  /** Length of the well-formed sequence at the front, zero when there is none (table 3-7 of the
      Unicode standard). */
  function SequenceLength(s: bytes): (n: nat)
    requires s != []
    ensures n <= |s| && n <= 4
  {
    var b := s[0];
    if b < 0x80 then 1
    else if 0xc2 <= b <= 0xdf then
      if |s| >= 2 && Continuation(s[1]) then 2 else 0
    else if 0xe0 <= b <= 0xef then
      if |s| >= 3 && Continuation(s[1]) && Continuation(s[2]) && (b == 0xe0 ==> s[1] >= 0xa0)
        && (b == 0xed ==> s[1] <= 0x9f)
      then 3 else 0
    else if 0xf0 <= b <= 0xf4 then
      if |s| >= 4 && Continuation(s[1]) && Continuation(s[2]) && Continuation(s[3]) && (b == 0xf0 ==> s[1] >= 0x90)
        && (b == 0xf4 ==> s[1] <= 0x8f)
      then 4 else 0
    else 0
  }

  predicate ValidUtf8(s: bytes)
    decreases |s|
  {
    s == [] || (SequenceLength(s) > 0 && ValidUtf8(s[SequenceLength(s)..]))
  }
}
