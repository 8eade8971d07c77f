/**
 The messages of the Solana program: written call by call into a stream, read back through
 caching views in the order the program reads them.
 */
module SolanaMessages {
  import opened Bytes
  import opened RlpFormat
  import opened RlpReader
  import opened IntegerCodec
  import opened Messages
  import opened Wrappers
  import S = RlpStream

  // --------------------------------------------------------------------- writing

  /** A list begun on `p` with its first `i` items in place; the last item finishes it. */
  ghost function Filled(p: S.Progress, items: seq<Item>, i: nat): S.Progress
    requires i <= |items|
  {
    if i < |items| then p.(frames := p.frames + [S.FrameOf(items[..i], Some(|items|))]) else S.AddAll(p, [List(items)])
  }

  method BeginFields(stream: S.RlpStream, len: nat, ghost items: seq<Item>)
    requires stream.Valid() && |items| == len
    modifies stream
    ensures stream.Valid() && stream.progress == Filled(old(stream.progress), items, 0)
  {
    stream.BeginList(len);
    assert items[..0] == [];
  }

  method AppendField(stream: S.RlpStream, value: bytes, ghost p: S.Progress, ghost items: seq<Item>, ghost i: nat)
    requires stream.Valid() && i < |items| && items[i] == Data(value) && stream.progress == Filled(p, items, i)
    modifies stream
    ensures stream.Valid() && stream.progress == Filled(p, items, i + 1)
  {
    stream.Append(Data(value));
    S.AddChild(p, items, i);
  }

  method AppendStrings(stream: S.RlpStream, ss: seq<bytes>, ghost p: S.Progress, ghost items: seq<Item>, ghost k: nat)
    requires stream.Valid() && k < |items| && items[k] == List(Strings(ss)) && stream.progress == Filled(p, items, k)
    modifies stream
    ensures stream.Valid() && stream.progress == Filled(p, items, k + 1)
  {
    ghost var q := stream.progress;
    ghost var ts := Strings(ss);
    BeginFields(stream, |ss|, ts);
    for i := 0 to |ss|
      invariant stream.Valid() && stream.progress == Filled(q, ts, i)
    {
      AppendField(stream, ss[i], q, ts, i);
    }
    S.AddChild(p, items, k);
  }

  method EncodeRequest(r: Request) returns (out: bytes)
    requires r.sn < Pow256(16)
    ensures out == Encode(List(RequestItems(r)))
  {
    hide Filled, Encode, UintBytes, Strings, Pow256, S.AddAll, S.RlpStream.Holds;
    var stream := new S.RlpStream([]);
    ghost var p, items := stream.progress, RequestItems(r);
    BeginFields(stream, 6, items);
    AppendField(stream, r.from, p, items, 0);
    AppendField(stream, r.to, p, items, 1);
    var sn := EncodeUint(r.sn);
    AppendField(stream, sn, p, items, 2);
    AppendField(stream, [r.msgType.AsInt()], p, items, 3);
    AppendField(stream, r.data, p, items, 4);
    AppendStrings(stream, r.protocols, p, items, 5);
    out := Finish(stream, items);
  }

  method Finish(stream: S.RlpStream, ghost items: seq<Item>) returns (out: bytes)
    requires stream.Valid() && stream.base == [] && stream.progress == Filled(S.Progress([], []), items, |items|)
    ensures out == Encode(List(items))
  {
    hide Encode;
    EncodeAllOne(List(items));
    assert [] + [List(items)] == [List(items)];
    out := stream.Out([]);
  }

  method EncodeResult(r: ResultMsg) returns (out: bytes)
    requires r.sn < Pow256(16)
    ensures out == Encode(List(ResultItems(r)))
  {
    hide Filled, Encode, UintBytes, Strings, Pow256, S.AddAll, S.RlpStream.Holds;
    var stream := new S.RlpStream([]);
    ghost var p, items := stream.progress, ResultItems(r);
    BeginFields(stream, 3, items);
    var sn := EncodeUint(r.sn);
    AppendField(stream, sn, p, items, 0);
    AppendField(stream, [r.code.AsInt()], p, items, 1);
    AppendField(stream, r.message, p, items, 2);
    out := Finish(stream, items);
  }

  method EncodeWrapper(w: Wrapper) returns (out: bytes)
    ensures out == Encode(List(WrapperItems(w)))
  {
    hide Filled, Encode, UintBytes, Strings, Pow256, S.AddAll, S.RlpStream.Holds;
    var stream := new S.RlpStream([]);
    ghost var p, items := stream.progress, WrapperItems(w);
    BeginFields(stream, 2, items);
    AppendField(stream, [w.kind.AsInt()], p, items, 0);
    AppendField(stream, w.payload, p, items, 1);
    out := Finish(stream, items);
  }

  method EncodeAnyMessage(m: AnyMessage) returns (out: bytes)
    ensures out == Encode(List(AnyMessageItems(m)))
  {
    hide Filled, Encode, UintBytes, Strings, Pow256, S.AddAll, S.RlpStream.Holds;
    var stream := new S.RlpStream([]);
    ghost var p, items := stream.progress, AnyMessageItems(m);
    if m.CallMessageWithRollback? {
      BeginFields(stream, 2, items);
      AppendField(stream, m.data, p, items, 0);
      AppendField(stream, m.rollback, p, items, 1);
    } else {
      BeginFields(stream, 1, items);
      AppendField(stream, m.data, p, items, 0);
    }
    out := Finish(stream, items);
  }

  method EncodeEnvelope(e: Envelope) returns (out: bytes)
    ensures out == Encode(List(EnvelopeItems(e)))
  {
    hide Filled, Encode, UintBytes, Strings, Pow256, S.AddAll, S.RlpStream.Holds;
    var stream := new S.RlpStream([]);
    ghost var p, items := stream.progress, EnvelopeItems(e);
    BeginFields(stream, 4, items);
    AppendField(stream, [e.message.Type().AsInt()], p, items, 0);
    var body := EncodeAnyMessage(e.message);
    AppendField(stream, body, p, items, 1);
    AppendStrings(stream, e.sources, p, items, 2);
    AppendStrings(stream, e.destinations, p, items, 3);
    out := Finish(stream, items);
  }

  // ------------------------------------------------------------- reading, as values

  /** How far a lookup sees: the list's payload only, or all bytes after the header. */
  datatype Reach = Near | Far

  function ItemAt(b: bytes, i: nat, reach: Reach): Result<bytes> {
    match reach
    case Near => FreshAt(b, i)
    case Far => (match ListInfo(b) case Err(e) => Err(e) case Ok(_) => FullAt(b, i))
  }

  function BytesAt(b: bytes, i: nat, reach: Reach): Result<bytes> {
    var item :- ItemAt(b, i, reach);
    DecodeValue(item)
  }

  function UintAt(b: bytes, i: nat, width: nat, reach: Reach): Result<nat> {
    var item :- ItemAt(b, i, reach);
    DecodeUint(item, width)
  }

  function AsString(v: bytes): Result<bytes> {
    if ValidUtf8(v) then Ok(v) else Err(RlpExpectedToBeData)
  }

  function StringAt(b: bytes, i: nat, reach: Reach): Result<bytes> {
    var v :- BytesAt(b, i, reach);
    AsString(v)
  }

  /** The strings of a list payload; iteration ends at the first item that cannot be read. */
  function StringsIn(p: bytes): Result<seq<bytes>>
    decreases |p|
  {
    match InfoOf(p)
    case Err(e) => if e == Panicked then Err(Panicked) else Ok([])
    case Ok(info) =>
      var v :- DecodeValue(p[..info.Total()]);
      var s :- AsString(v);
      var rest :- StringsIn(p[info.Total()..]);
      Ok([s] + rest)
  }

  /** `as_list` of strings; what is not a list has no items. */
  function AsStrings(b: bytes): Result<seq<bytes>> {
    match ListInfo(b)
    case Err(e) => if e == Panicked then Err(Panicked) else Ok([])
    case Ok(_) => StringsIn(Payload(b))
  }

  function StringsAt(b: bytes, i: nat, reach: Reach): Result<seq<bytes>> {
    var item :- ItemAt(b, i, reach);
    AsStrings(item)
  }

  function SlashCount(s: bytes): nat
    decreases |s|
  {
    if s == [] then 0 else SlashCount(s[..|s| - 1]) + (if s[|s| - 1] == 47 then 1 else 0)
  }

  /** A network address has exactly one separator. */
  function ParseAddress(s: bytes): Result<bytes> {
    if SlashCount(s) == 1 then Ok(s) else Err(RlpInvalidLength)
  }

  function TypeFrom(t: nat): Result<MessageType> {
    if t == 0 then Ok(Call) else if t == 1 then Ok(CallWithRollback) else if t == 2 then Ok(CallPersisted)
      else Err(Panicked)
  }

  /** The count: of the list, or of what iteration yields. */
  function CountTo(b: bytes, reach: Reach): Result<nat> {
    match reach
    case Near => ItemCount(b)
    case Far => CountedItems(b, None)
  }

  // Each decoder twice: `Near` is the plain reader, and `Far` what the program does on all bytes.
  // Lookups in increasing order see past the payload.

  function DecodeRequest(b: bytes, reach: Reach): Result<Request> {
    var count :- CountTo(b, reach);
    if count != 6 then Err(RlpIncorrectListLen) else RequestFields(b)
  }

  function RequestFields(b: bytes): Result<Request> {
    var protocols :- StringsAt(b, 5, Near);
    var from :- StringAt(b, 0, Near);
    var t :- UintAt(b, 3, 1, Near);
    var address :- ParseAddress(from);
    var to :- StringAt(b, 1, Near);
    var sn :- UintAt(b, 2, 16, Near);
    var msgType :- TypeFrom(t);
    var data :- BytesAt(b, 4, Near);
    Ok(Request(address, to, sn, msgType, data, protocols))
  }

  function DecodeResult(b: bytes, reach: Reach): Result<ResultMsg> {
    var head :- ResultHead(b);
    var message := BytesAt(b, 2, reach);
    if message == Err(Panicked) then Err(Panicked)
    else Ok(ResultMsg(head.0, head.1, if message.Ok? then message.value else []))
  }

  function ResultHead(b: bytes): Result<(nat, ResponseCode)> {
    var code :- UintAt(b, 1, 1, Near);
    var sn :- UintAt(b, 0, 16, Near);
    if code > 1 then Err(Custom) else Ok((sn, if code == 1 then Success else Failure))
  }

  function DecodeWrapper(b: bytes, reach: Reach): Result<Wrapper> {
    if KindOf(b) == PanicKind then Err(Panicked)
    else if KindOf(b) != ListKind then Err(RlpIncorrectListLen) else
    var count :- CountTo(b, reach);
    if count != 2 then Err(RlpIncorrectListLen) else WrapperFields(b, reach)
  }

  function WrapperFields(b: bytes, reach: Reach): Result<Wrapper> {
    var t :- UintAt(b, 0, 1, Near);
    if t != 1 && t != 2 then Err(Custom) else
    var payload :- BytesAt(b, 1, reach);
    Ok(Wrapper(if t == 1 then RequestType else ResultType, payload))
  }

  function DecodeAnyMessage(t: MessageType, b: bytes, reach: Reach): Result<AnyMessage> {
    match t
    case Call => var d :- BytesAt(b, 0, Near); Ok(CallMessage(d))
    case CallWithRollback =>
      var d :- BytesAt(b, 0, Near); var r :- BytesAt(b, 1, reach); Ok(CallMessageWithRollback(d, r))
    case CallPersisted => var d :- BytesAt(b, 0, Near); Ok(CallMessagePersisted(d))
  }

  function EnvelopeType(b: bytes): Result<MessageType> {
    var t :- UintAt(b, 0, 1, Near);
    TypeFrom(t)
  }

  function DecodeEnvelope(b: bytes, reach: Reach): Result<Envelope> {
    var msgType :- EnvelopeType(b);
    var body :- BytesAt(b, 1, reach);
    var message :- DecodeAnyMessage(msgType, body, reach);
    var sources :- StringsAt(b, 2, reach);
    var destinations :- StringsAt(b, 3, reach);
    Ok(Envelope(message, sources, destinations))
  }

  // ------------------------------------------------------------ reading, as written

  /** Iterates a view and decodes each item as a string; `b` is one whole item. */
  method ReadStrings(b: bytes) returns (r: Result<seq<bytes>>)
    requires ListInfo(b).Ok? ==> TrailingHarmless(b)
    ensures r == AsStrings(b)
  {
    hide InfoOf, Skip, StringsIn, TrailingHarmless, CachedAt, CacheOk, Read, DecodeValue, ValidUtf8, KindOf;
    var view := new Rlp(b);
    var acc: seq<bytes> := [];
    var i := 0;
    ghost var c := 0;
    if ListInfo(b).Ok? { StringsStart(Payload(b)); }
    while true
      invariant view.Valid() && view.raw == b
      invariant ListInfo(b).Err? ==> acc == []
      invariant ListInfo(b).Ok? ==>
        Skip(Payload(b), i) == Ok(c) && StringsContinue(StringsIn(Payload(b)), acc, StringsIn(Payload(b)[c..]))
      decreases |b| - i
    {
      AtWithin(b, view.offsetCache, i);
      var item := view.At(i);
      if ListInfo(b).Ok? { StringsNext(Payload(b), i, c, acc); }
      if item == Err(Panicked) { return Err(Panicked); }
      if item.Err? { return Ok(acc); }
      var v :- DecodeValue(item.value);
      var s :- AsString(v);
      acc := acc + [s];
      c := c + |item.value|;
      i := i + 1;
    }
  }

  ghost predicate StringsContinue(whole: Result<seq<bytes>>, acc: seq<bytes>, rest: Result<seq<bytes>>) {
    match rest
    case Ok(ss) => whole == Ok(acc + ss)
    case Err(e) => whole == Err(e)
  }

  lemma StringsStart(p: bytes)
    ensures Skip(p, 0) == Ok(0) && StringsContinue(StringsIn(p), [], StringsIn(p[0..]))
  {
    hide StringsIn;
    assert p[0..] == p;
    if StringsIn(p).Ok? { assert [] + StringsIn(p).value == StringsIn(p).value; }
  }

  lemma StringsNext(p: bytes, i: nat, c: nat, acc: seq<bytes>)
    requires Skip(p, i) == Ok(c) && StringsContinue(StringsIn(p), acc, StringsIn(p[c..]))
    ensures match Read(p, i)
      case Err(e) => StringsIn(p) == if e == Panicked then Err(Panicked) else Ok(acc)
      case Ok(slice) =>
        && Skip(p, i + 1) == Ok(c + |slice|)
        && (match DecodeValue(slice)
            case Err(e) => StringsIn(p) == Err(e)
            case Ok(v) =>
              if ValidUtf8(v) then StringsContinue(StringsIn(p), acc + [v], StringsIn(p[c + |slice|..]))
              else StringsIn(p) == Err(RlpExpectedToBeData))
  {
    hide InfoOf, Skip, DecodeValue, ValidUtf8;
    SkipNext(p, i);
    var rest := p[c..];
    if InfoOf(rest).Ok? {
      var k := InfoOf(rest).value.Total();
      assert rest[k..] == p[c + k..];
      if DecodeValue(rest[..k]).Ok? && StringsIn(rest[k..]).Ok? {
        var v, ss := DecodeValue(rest[..k]).value, StringsIn(rest[k..]).value;
        assert acc + ([v] + ss) == (acc + [v]) + ss;
      }
    } else {
      assert acc + [] == acc;
    }
  }

  /** What a lookup returns is exactly one item. */
  lemma AtExact(b: bytes, i: nat, reach: Reach)
    requires ItemAt(b, i, reach).Ok?
    ensures var item := ItemAt(b, i, reach).value; ListInfo(item).Ok? ==> TrailingHarmless(item)
  {
    hide InfoOf, Skip, ListInfo, TrailingHarmless, KindOf;
    var region := if reach.Near? then Payload(b) else b[ListInfo(b).value.headerLen..];
    SliceExact(region[Skip(region, i).value..]);
  }

  /** A lookup behind the remembered item sees past the payload. */
  function ReachOf(cache: Option<OffsetCache>, i: nat): Reach {
    if cache.Some? && cache.value.index <= i then Far else Near
  }

  method Item(view: Rlp, i: nat) returns (r: Result<bytes>)
    requires view.Valid()
    modifies view`offsetCache
    ensures view.Valid() && r == ItemAt(view.raw, i, ReachOf(old(view.offsetCache), i))
    ensures r.Ok? ==> view.offsetCache.Some? && view.offsetCache.value.index == i
  {
    hide CachedAt, FreshAt, FullAt, Read, Skip, InfoOf;
    CachedLookup(view.raw, view.offsetCache, i);
    FoundMoves(view.raw, view.offsetCache, i);
    r := view.At(i);
  }

  lemma FoundMoves(b: bytes, cache: Option<OffsetCache>, i: nat)
    ensures CachedAt(b, cache, i).0.Ok? ==> CachedAt(b, cache, i).1.Some? && CachedAt(b, cache, i).1.value.index == i
  {
    hide Skip, InfoOf, KindOf;
  }

  method BytesField(view: Rlp, i: nat) returns (r: Result<bytes>)
    requires view.Valid()
    modifies view`offsetCache
    ensures view.Valid() && r == BytesAt(view.raw, i, ReachOf(old(view.offsetCache), i))
    ensures r.Ok? ==> view.offsetCache.Some? && view.offsetCache.value.index == i
  {
    hide DecodeValue, ItemAt, ReachOf;
    var item :- Item(view, i);
    r := DecodeValue(item);
  }

  method UintField(view: Rlp, i: nat, width: nat) returns (r: Result<nat>)
    requires view.Valid()
    modifies view`offsetCache
    ensures view.Valid() && r == UintAt(view.raw, i, width, ReachOf(old(view.offsetCache), i))
    ensures r.Ok? ==> view.offsetCache.Some? && view.offsetCache.value.index == i
  {
    hide DecodeUint, ItemAt, ReachOf;
    var item :- Item(view, i);
    r := ReadUint(item, width);
  }

  method StringField(view: Rlp, i: nat) returns (r: Result<bytes>)
    requires view.Valid()
    modifies view`offsetCache
    ensures view.Valid() && r == StringAt(view.raw, i, ReachOf(old(view.offsetCache), i))
    ensures r.Ok? ==> view.offsetCache.Some? && view.offsetCache.value.index == i
  {
    hide BytesAt, ValidUtf8, ReachOf;
    var v :- BytesField(view, i);
    r := AsString(v);
  }

  method StringsField(view: Rlp, i: nat) returns (r: Result<seq<bytes>>)
    requires view.Valid()
    modifies view`offsetCache
    ensures view.Valid() && r == StringsAt(view.raw, i, ReachOf(old(view.offsetCache), i))
    ensures r.Ok? ==> view.offsetCache.Some? && view.offsetCache.value.index == i
  {
    hide ItemAt, AsStrings, ListInfo, TrailingHarmless, ReachOf;
    var reach := ReachOf(view.offsetCache, i);
    var item :- Item(view, i);
    AtExact(view.raw, i, reach);
    r := ReadStrings(item);
  }

  /** Bytes after the message are absent or harmless. */
  ghost predicate Clean(b: bytes) { ListInfo(b).Ok? ==> TrailingHarmless(b) }

  lemma CleanItem(b: bytes, i: nat)
    requires Clean(b)
    ensures ItemAt(b, i, Far) == ItemAt(b, i, Near)
  {
    hide InfoOf, TrailingHarmless, Read, KindOf;
    if ListInfo(b).Ok? { FullIsFresh(b, i); }
  }

  lemma CleanCount(b: bytes)
    requires Clean(b)
    ensures CountTo(b, Far) == CountTo(b, Near)
  {
    hide InfoOf, TrailingHarmless, Readable, Unread;
    if KindOf(b) == ListKind { SoundCount(b, None); }
  }

  /** Before an item of the payload both reaches see the same. */
  lemma NearEnough(b: bytes, i: nat, j: nat)
    requires i <= j && ItemAt(b, j, Near).Ok?
    ensures ItemAt(b, i, Far) == ItemAt(b, i, Near)
  {
    hide InfoOf, Read, KindOf, Readable, Unread;
    var info := ListInfo(b).value;
    assert b[info.headerLen..] == Payload(b) + b[info.Total()..];
    ReadBeyond(Payload(b), b[info.Total()..], i);
    ReadBeyond(Payload(b), [], j);
  }

  /** Counts the items, then reads the fields in the order 5, 0, 3, 1, 2, 4 through one view. The
      count sees past the payload, the fields do not: the fifth is read from the payload and vouches
      for the others. */
  method ReadRequest(b: bytes) returns (r: Result<Request>)
    ensures r == DecodeRequest(b, Far)
    ensures r == DecodeRequest(b, Near) <==> RequestAgrees(b)
    ensures Clean(b) ==> r == DecodeRequest(b, Near)
  {
    hide ListInfo, TrailingHarmless, ItemCount, CountedItems, AsStrings, DecodeValue, DecodeUint, ItemAt, SlashCount,
      CacheOk, ValidUtf8, RequestAgrees;
    RequestAgreesIff(b);
    if Clean(b) { CleanCount(b); }
    var view := new Rlp(b);
    var count :- view.Count();
    if count != 6 { return Err(RlpIncorrectListLen); }
    CountedNeedsList(b);
    var protocols :- StringsField(view, 5);
    forall i | 0 <= i <= 5 ensures ItemAt(b, i, Far) == ItemAt(b, i, Near) { NearEnough(b, i, 5); }
    var from :- StringField(view, 0);
    var t :- UintField(view, 3, 1);
    var address :- ParseAddress(from);
    var to :- StringField(view, 1);
    var sn :- UintField(view, 2, 16);
    var msgType :- TypeFrom(t);
    var data :- BytesField(view, 4);
    return Ok(Request(address, to, sn, msgType, data, protocols));
  }

  lemma CountedNeedsList(b: bytes)
    ensures CountedItems(b, None).Ok? && CountedItems(b, None).value > 0 ==> ListInfo(b).Ok?
  {
    hide InfoOf, Unread, KindOf, ListInfo;
    NothingToRead();
  }

  method ReadResult(b: bytes) returns (r: Result<ResultMsg>)
    ensures r == DecodeResult(b, Far)
    ensures r == DecodeResult(b, Near) <==> ResultAgrees(b)
    ensures Clean(b) ==> r == DecodeResult(b, Near)
  {
    hide ListInfo, TrailingHarmless, ItemAt, DecodeValue, DecodeUint, CacheOk, ResultAgrees;
    ResultAgreesIff(b);
    if Clean(b) { CleanItem(b, 2); }
    var view := new Rlp(b);
    var code :- UintField(view, 1, 1);
    var sn :- UintField(view, 0, 16);
    if code > 1 { return Err(Custom); }
    var message := BytesField(view, 2);
    if message == Err(Panicked) { return Err(Panicked); }
    return Ok(ResultMsg(sn, if code == 1 then Success else Failure, if message.Ok? then message.value else []));
  }

  method ReadWrapper(b: bytes) returns (r: Result<Wrapper>)
    ensures r == DecodeWrapper(b, Far)
    ensures r == DecodeWrapper(b, Near) <==> WrapperAgrees(b)
    ensures Clean(b) ==> r == DecodeWrapper(b, Near)
  {
    hide ListInfo, TrailingHarmless, ItemCount, CountedItems, ItemAt, DecodeValue, DecodeUint, CacheOk, KindOf,
      WrapperAgrees;
    WrapperAgreesIff(b);
    if Clean(b) {
      CleanItem(b, 1);
      CleanCount(b);
    }
    var view := new Rlp(b);
    if KindOf(b) == PanicKind { return Err(Panicked); }
    if KindOf(b) != ListKind { return Err(RlpIncorrectListLen); }
    var count :- view.Count();
    if count != 2 { return Err(RlpIncorrectListLen); }
    CountedNeedsList(b);
    var t :- UintField(view, 0, 1);
    if t != 1 && t != 2 { return Err(Custom); }
    var payload :- BytesField(view, 1);
    return Ok(Wrapper(if t == 1 then RequestType else ResultType, payload));
  }

  method ReadAnyMessage(t: MessageType, b: bytes) returns (r: Result<AnyMessage>)
    ensures r == DecodeAnyMessage(t, b, Far)
    ensures Clean(b) ==> r == DecodeAnyMessage(t, b, Near)
  {
    hide ListInfo, TrailingHarmless, ItemAt, DecodeValue, CacheOk;
    if Clean(b) { CleanItem(b, 1); }
    var view := new Rlp(b);
    var data :- BytesField(view, 0);
    match t
    case Call => return Ok(CallMessage(data));
    case CallWithRollback =>
      var rollback :- BytesField(view, 1);
      return Ok(CallMessageWithRollback(data, rollback));
    case CallPersisted => return Ok(CallMessagePersisted(data));
  }

  method ReadEnvelope(b: bytes) returns (r: Result<Envelope>)
    ensures r == DecodeEnvelope(b, Far)
    ensures r == DecodeEnvelope(b, Near) <==> EnvelopeAgrees(b)
    ensures Clean(b) && (BytesAt(b, 1, Near).Ok? ==> Clean(BytesAt(b, 1, Near).value)) ==> r == DecodeEnvelope(b, Near)
  {
    hide ListInfo, TrailingHarmless, ItemAt, DecodeValue, DecodeUint, AsStrings, CacheOk, DecodeAnyMessage, Clean,
      EnvelopeAgrees;
    EnvelopeAgreesIff(b);
    if Clean(b) {
      forall i ensures ItemAt(b, i, Far) == ItemAt(b, i, Near) { CleanItem(b, i); }
    }
    var view := new Rlp(b);
    var t :- UintField(view, 0, 1);
    var msgType :- TypeFrom(t);
    var body :- BytesField(view, 1);
    var message :- ReadAnyMessage(msgType, body);
    var sources :- StringsField(view, 2);
    var destinations :- StringsField(view, 3);
    return Ok(Envelope(message, sources, destinations));
  }

  // ------------------------------------------------ when bytes behind the list matter

  // Lookup errors: no lookup reports a wrong list length.

  lemma ItemNoLen(b: bytes, i: nat, reach: Reach)
    ensures ItemAt(b, i, reach) != Err(RlpIncorrectListLen)
  {
    hide InfoOf, Skip;
    if ListInfo(b).Ok? {
      ReadNoLen(Payload(b), i);
      ReadNoLen(b[ListInfo(b).value.headerLen..], i);
    } else {
      InfoNoLen(b);
    }
  }

  lemma InfoNoLen(b: bytes)
    ensures InfoOf(b) != Err(RlpIncorrectListLen)
  {
  }

  lemma ReadNoLen(b: bytes, i: nat)
    ensures Read(b, i) != Err(RlpIncorrectListLen)
  {
    hide InfoOf, Skip;
    SkipNoLen(b, i);
    if Skip(b, i).Ok? { InfoNoLen(b[Skip(b, i).value..]); }
  }

  lemma {:induction false} SkipNoLen(b: bytes, n: nat)
    ensures Skip(b, n) != Err(RlpIncorrectListLen)
    decreases n
  {
    hide InfoOf;
    if n > 0 {
      InfoNoLen(b);
      if InfoOf(b).Ok? { SkipNoLen(b[InfoOf(b).value.Total()..], n - 1); }
    }
  }

  lemma ValueNoLen(b: bytes)
    ensures DecodeValue(b) != Err(RlpIncorrectListLen)
  {
  }

  lemma {:induction false} StringsNoLen(p: bytes)
    ensures StringsIn(p) != Err(RlpIncorrectListLen)
    decreases |p|
  {
    hide InfoOf, DecodeValue, ValidUtf8;
    if InfoOf(p).Ok? {
      var k := InfoOf(p).value.Total();
      ValueNoLen(p[..k]);
      StringsNoLen(p[k..]);
    }
  }

  lemma FieldNoLen(b: bytes, i: nat, width: nat, reach: Reach)
    ensures BytesAt(b, i, reach) != Err(RlpIncorrectListLen) && StringAt(b, i, reach) != Err(RlpIncorrectListLen)
    ensures UintAt(b, i, width, reach) != Err(RlpIncorrectListLen)
    ensures StringsAt(b, i, reach) != Err(RlpIncorrectListLen)
  {
    hide ItemAt, DecodeValue, StringsIn, ListInfo, ValidUtf8;
    ItemNoLen(b, i, reach);
    if ItemAt(b, i, reach).Ok? {
      var item := ItemAt(b, i, reach).value;
      ValueNoLen(item);
      if ListInfo(item).Ok? { StringsNoLen(Payload(item)); }
    }
  }

  /** The first item that the payload does not hold: how the lookup fails near, and what it sees far. */
  lemma AtTheEnd(b: bytes, i: nat)
    requires ListInfo(b).Ok? && Readable(Payload(b)) == i
    ensures InfoOf(Unread(Payload(b))).Err? && ItemAt(b, i, Near) == Err(EndError(b))
    ensures ItemAt(b, i, Far) == FirstItem(Unread(Payload(b)) + Tail(b))
  {
    hide InfoOf, Read, Readable, Unread, FirstItem;
    var p := Payload(b);
    assert b[ListInfo(b).value.headerLen..] == p + Tail(b);
    ReadBeyond(p, Tail(b), i);
    ReadFirst(Unread(p) + Tail(b));
  }

  /** How reading past the last item of the payload fails. */
  function EndError(b: bytes): DecoderError
    requires ListInfo(b).Ok?
  {
    match InfoOf(Unread(Payload(b))) case Err(e) => e case Ok(_) => RlpIsTooShort
  }

  lemma NearMeans(b: bytes, i: nat)
    ensures ItemAt(b, i, Near).Ok? <==> ListInfo(b).Ok? && i < Readable(Payload(b))
  {
    hide InfoOf, Read, Readable, Unread;
    if ListInfo(b).Ok? { ReadBeyond(Payload(b), [], i); }
  }

  // Requests.

  /** When the program decodes a request as the plain reader does: the counts are equal or both wrong,
      or one of them panics and so do the fields. */
  predicate RequestAgrees(b: bytes) {
    var near, far := CountTo(b, Near), CountTo(b, Far);
    || near == far
    || (near.Ok? && far.Ok? && near.value != 6 && far.value != 6)
    || (((near == Ok(6) && far == Err(Panicked)) || (near == Err(Panicked) && far == Ok(6)))
        && RequestFields(b) == Err(Panicked))
  }

  lemma RequestAgreesIff(b: bytes)
    ensures DecodeRequest(b, Far) == DecodeRequest(b, Near) <==> RequestAgrees(b)
  {
    hide RequestFields, CountTo;
    FieldsNoLen(b);
    CountErrors(b);
  }

  lemma FieldsNoLen(b: bytes)
    ensures RequestFields(b) != Err(RlpIncorrectListLen)
  {
    hide StringsAt, StringAt, UintAt, BytesAt, SlashCount;
    FieldNoLen(b, 5, 0, Near);
    FieldNoLen(b, 0, 0, Near);
    FieldNoLen(b, 3, 1, Near);
    FieldNoLen(b, 1, 0, Near);
    FieldNoLen(b, 2, 16, Near);
    FieldNoLen(b, 4, 0, Near);
  }

  /** A count fails by a panic, or near and far alike. */
  lemma CountErrors(b: bytes)
    ensures CountTo(b, Near) != CountTo(b, Far) ==>
      && (CountTo(b, Near).Err? ==> CountTo(b, Near) == Err(Panicked))
      && (CountTo(b, Far).Err? ==> CountTo(b, Far) == Err(Panicked))
  {
    hide InfoOf, Readable, Unread;
  }

  /** A request the program accepts is what the plain reader reads, unless the plain count panics. */
  lemma RequestAccepted(b: bytes)
    requires DecodeRequest(b, Far).Ok?
    ensures DecodeRequest(b, Near) == DecodeRequest(b, Far) <==> CountTo(b, Near) != Err(Panicked)
  {
    hide InfoOf, Readable, Unread, StringsIn, ListInfo, UintAt, BytesAt, StringAt, SlashCount, ItemAt, AsStrings;
    assert ItemAt(b, 5, Near).Ok?;
    NearMeans(b, 5);
    FarCount(b);
  }

  lemma FarCount(b: bytes)
    requires ListInfo(b).Ok? && Readable(Payload(b)) > 0 && CountTo(b, Far).Ok?
    ensures Readable(Payload(b)) <= CountTo(b, Far).value
    ensures CountTo(b, Near) == Ok(Readable(Payload(b))) || CountTo(b, Near) == Err(Panicked)
  {
    hide InfoOf, Unread;
    assert b[ListInfo(b).value.headerLen..] == Payload(b) + Tail(b);
    ReadableGrows(Payload(b), Tail(b));
  }

  /** Five items and one more behind the list pass the count, and the request is refused by the fifth
      lookup instead. */
  lemma FiveAndOne(b: bytes)
    requires ListInfo(b).Ok? && Readable(Payload(b)) == 5
    requires Readable(Payload(b) + Tail(b)) == 6 && !Panics(Payload(b) + Tail(b))
    ensures CountTo(b, Far) == Ok(6)
    ensures ItemAt(b, 5, Near).Err? && DecodeRequest(b, Far) == Err(ItemAt(b, 5, Near).error)
    ensures DecodeRequest(b, Near) == Err(RlpIncorrectListLen) || DecodeRequest(b, Near) == Err(Panicked)
  {
    hide ListInfo, InfoOf, CountedItems, ItemCount, ItemAt, AsStrings, StringAt, UintAt, BytesAt, ParseAddress,
      TypeFrom, Readable, Unread, Panics;
    SixthMissing(b);
    FarCounts(b);
  }

  lemma FarCounts(b: bytes)
    requires ListInfo(b).Ok? && Readable(Payload(b)) > 0 && !Panics(Payload(b) + Tail(b))
    ensures CountTo(b, Far) == Ok(Readable(Payload(b) + Tail(b)))
  {
    hide InfoOf, Unread;
    assert b[ListInfo(b).value.headerLen..] == Payload(b) + Tail(b);
  }

  lemma SixthMissing(b: bytes)
    requires ListInfo(b).Ok? && Readable(Payload(b)) == 5
    ensures ItemAt(b, 5, Near).Err?
    ensures ItemCount(b) == Ok(5) || ItemCount(b) == Err(Panicked)
  {
    hide InfoOf, Read, Readable, Unread;
    ReadBeyond(Payload(b), [], 5);
  }

  // Wrappers.

  /** When the program decodes a wrapper as the plain reader does: the counts are equal or both wrong. */
  predicate WrapperAgrees(b: bytes) {
    var near, far := CountTo(b, Near), CountTo(b, Far);
    near == far || (near.Ok? && far.Ok? && near.value != 2 && far.value != 2)
  }

  lemma WrapperAgreesIff(b: bytes)
    ensures DecodeWrapper(b, Far) == DecodeWrapper(b, Near) <==> WrapperAgrees(b)
  {
    hide WrapperFields, CountTo, KindOf;
    CountErrors(b);
    if KindOf(b) != ListKind { NotAList(b); }
    WrapperNoLen(b, Near);
    WrapperNoLen(b, Far);
    if CountTo(b, Near) == Ok(2) { TwoNear(b); }
    if CountTo(b, Far) == Ok(2) && CountTo(b, Near) != CountTo(b, Far) { TwoFar(b); }
  }

  lemma NotAList(b: bytes)
    requires KindOf(b) != ListKind
    ensures CountTo(b, Near) == CountTo(b, Far)
  {
  }

  lemma WrapperNoLen(b: bytes, reach: Reach)
    ensures WrapperFields(b, reach) != Err(RlpIncorrectListLen)
  {
    hide UintAt, BytesAt;
    FieldNoLen(b, 0, 1, Near);
    FieldNoLen(b, 1, 0, reach);
  }

  /** Two items in the payload: both readings see them, and neither panics. */
  lemma TwoNear(b: bytes)
    requires CountTo(b, Near) == Ok(2)
    ensures WrapperFields(b, Far) == WrapperFields(b, Near) && WrapperFields(b, Near) != Err(Panicked)
  {
    hide ItemAt, DecodeValue, ListInfo, Readable, Unread, InfoOf;
    NothingToRead();
    NearMeans(b, 0);
    NearMeans(b, 1);
    NearEnough(b, 1, 1);
    ItemNoPanic(b, 0, Near);
    ItemNoPanic(b, 1, Near);
  }

  lemma TwoFar(b: bytes)
    requires CountTo(b, Far) == Ok(2) && CountTo(b, Near) != CountTo(b, Far)
    ensures WrapperFields(b, Far) != Err(Panicked)
  {
    hide ItemAt, DecodeValue, ListInfo, Readable, Unread, InfoOf;
    TwoFarItems(b);
    ItemNoPanic(b, 0, Near);
    ItemNoPanic(b, 1, Far);
  }

  lemma TwoFarItems(b: bytes)
    requires CountTo(b, Far) == Ok(2) && CountTo(b, Near) != CountTo(b, Far)
    ensures ItemAt(b, 0, Near).Ok? && ItemAt(b, 1, Far).Ok?
  {
    hide InfoOf, Read, Unread, Readable;
    NothingToRead();
    var p := Payload(b);
    assert b[ListInfo(b).value.headerLen..] == p + Tail(b);
    assert InfoOf(p).Ok?;
    FirstReadable(p);
    ReadBeyond(p, [], 0);
    ReadBeyond(p + Tail(b), [], 1);
  }

  lemma FirstReadable(p: bytes)
    requires InfoOf(p).Ok?
    ensures Readable(p) > 0
  {
    hide InfoOf;
  }

  /** A whole item decodes, or fails for what it is. */
  lemma ItemNoPanic(b: bytes, i: nat, reach: Reach)
    requires ItemAt(b, i, reach).Ok?
    ensures var v := DecodeValue(ItemAt(b, i, reach).value);
      v.Err? ==> v == Err(RlpInvalidIndirection) || v == Err(RlpExpectedToBeData)
  {
    hide InfoOf, Skip, DecodeValue, KindOf;
    var region := if reach.Near? then Payload(b) else b[ListInfo(b).value.headerLen..];
    ItemValueError(region[Skip(region, i).value..]);
  }

  // Results.

  /** When the program decodes a result as the plain reader does: the head fails, or the message lies in
      the payload, or what follows the payload is no non-empty string and panics like the payload's end. */
  predicate ResultAgrees(b: bytes) {
    || ListInfo(b).Err? || ResultHead(b).Err? || Readable(Payload(b)) >= 3
    || (var end := Unread(Payload(b));
        && (InfoOf(end) == Err(Panicked) <==> InfoOf(end + Tail(b)) == Err(Panicked))
        && !(BytesAt(b, 2, Far).Ok? && BytesAt(b, 2, Far).value != []))
  }

  lemma ResultAgreesIff(b: bytes)
    ensures DecodeResult(b, Far) == DecodeResult(b, Near) <==> ResultAgrees(b)
  {
    hide UintAt, ItemAt, DecodeValue, ListInfo, Readable, Unread, InfoOf;
    if ResultHead(b).Ok? {
      HeadNeedsTwo(b);
      if Readable(Payload(b)) >= 3 {
        NearMeans(b, 2);
        NearEnough(b, 2, 2);
      } else {
        AtTheEnd(b, 2);
        MessageErrors(b);
      }
    }
  }

  lemma HeadNeedsTwo(b: bytes)
    requires ResultHead(b).Ok?
    ensures ListInfo(b).Ok? && Readable(Payload(b)) >= 2
  {
    hide ItemAt, DecodeValue, Readable, InfoOf;
    NearMeans(b, 1);
  }

  lemma MessageErrors(b: bytes)
    requires ListInfo(b).Ok? && ItemAt(b, 2, Far) == FirstItem(Unread(Payload(b)) + Tail(b))
    ensures BytesAt(b, 2, Far) == Err(Panicked) <==> InfoOf(Unread(Payload(b)) + Tail(b)) == Err(Panicked)
  {
    hide ItemAt, DecodeValue, ListInfo, Unread, InfoOf;
    if ItemAt(b, 2, Far).Ok? { ItemNoPanic(b, 2, Far); }
  }

  // Messages and envelopes.

  /** The rollback data is looked up and is not in the payload. */
  predicate RollbackMissing(t: MessageType, b: bytes) {
    t == CallWithRollback && BytesAt(b, 0, Near).Ok? && ListInfo(b).Ok? && Readable(Payload(b)) < 2
  }

  /** When a message is decoded as the plain reader does: the rollback data lies in the payload, or what
      follows the payload changes no lookup. */
  lemma AnyMessageAgreesIff(t: MessageType, b: bytes)
    ensures DecodeAnyMessage(t, b, Far) == DecodeAnyMessage(t, b, Near) <==>
      !RollbackMissing(t, b) || TrailingHarmless(b)
  {
    hide ItemAt, DecodeValue, ListInfo, Readable, Unread, InfoOf, TrailingHarmless;
    if t == CallWithRollback && BytesAt(b, 0, Near).Ok? {
      NearMeans(b, 0);
      if Readable(Payload(b)) >= 2 {
        NearMeans(b, 1);
        NearEnough(b, 1, 1);
      } else {
        EndAgrees(b, 1);
      }
    }
  }

  /** The first lookup past the payload agrees exactly when the bytes there are harmless. */
  lemma EndAgrees(b: bytes, i: nat)
    requires ListInfo(b).Ok? && Readable(Payload(b)) == i
    ensures BytesAt(b, i, Near) == Err(EndError(b))
    ensures BytesAt(b, i, Far) == BytesAt(b, i, Near) <==> TrailingHarmless(b)
  {
    hide ItemAt, DecodeValue, ListInfo, Readable, Unread, InfoOf;
    AtTheEnd(b, i);
    var end := Unread(Payload(b));
    if !TrailingHarmless(b) {
      StableError(end, Tail(b));
      if ItemAt(b, i, Far).Ok? { ItemNoPanic(b, i, Far); }
    }
  }

  /** The bytes in which lookups find the items. */
  function Region(b: bytes, reach: Reach): bytes
    requires ListInfo(b).Ok?
  {
    match reach case Near => Payload(b) case Far => Payload(b) + Tail(b)
  }

  /** Why item `i` cannot be looked up: there is no list, or it has fewer items, counting those behind it
      when the lookup reaches that far, and ends as it does. */
  function LookupError(b: bytes, i: nat, reach: Reach): Option<DecoderError> {
    match ListInfo(b)
    case Err(e) => Some(e)
    case Ok(_) =>
      var region := Region(b, reach);
      if i < Readable(region) then None
      else (match InfoOf(Unread(region)) case Err(e) => Some(e) case Ok(_) => None)
  }

  lemma LookupFails(b: bytes, i: nat, reach: Reach)
    ensures ItemAt(b, i, reach).Err? <==> LookupError(b, i, reach).Some?
    ensures LookupError(b, i, reach).Some? ==> ItemAt(b, i, reach) == Err(LookupError(b, i, reach).value)
  {
    hide InfoOf, Read, Readable, Unread;
    if ListInfo(b).Ok? {
      assert b[ListInfo(b).value.headerLen..] == Payload(b) + Tail(b);
      ReadBeyond(Region(b, reach), [], i);
    }
  }

  /** Reaching behind the payload makes no difference to any lookup exactly when the bytes there are
      harmless. */
  lemma LookupsAgreeIff(b: bytes)
    requires ListInfo(b).Ok?
    ensures TrailingHarmless(b) <==> forall i: nat :: LookupError(b, i, Far) == LookupError(b, i, Near)
  {
    hide InfoOf, Read, Readable, Unread, LookupError, TrailingHarmless;
    forall i: nat ensures TrailingHarmless(b) ==> LookupError(b, i, Far) == LookupError(b, i, Near) {
      FullIsFresh(b, i);
      LookupFails(b, i, Near);
      LookupFails(b, i, Far);
    }
    var n := Readable(Payload(b));
    FullIsFresh(b, n);
    LookupFails(b, n, Near);
    LookupFails(b, n, Far);
    NearMeans(b, n);
  }

  /** A lookup that fails in the payload and does not fail behind it failed for want of bytes. */
  lemma FailsNear(b: bytes, i: nat)
    requires LookupError(b, i, Near).Some? && LookupError(b, i, Far) != LookupError(b, i, Near)
    ensures LookupError(b, i, Near) == Some(RlpIsTooShort) || LookupError(b, i, Near) == Some(Panicked)
  {
    hide InfoOf, Read, Readable, Unread;
    var p := Payload(b);
    ReadBeyond(p, Tail(b), i);
    ReadBeyond(p, [], i);
    ReadBeyond(p + Tail(b), [], i);
    if InfoOf(Unread(p) + Tail(b)) == InfoOf(Unread(p)) {
      SkipStops(Unread(p) + Tail(b), i - Readable(p));
    } else {
      StableError(Unread(p), Tail(b));
    }
  }

  lemma SkipStops(b: bytes, i: nat)
    requires InfoOf(b).Err?
    ensures Read(b, i) == Err(InfoOf(b).error)
  {
    hide InfoOf;
    ReadFirst(b);
  }

  /** The error of the first lookup that fails while a message is decoded. */
  function MissingIn(t: MessageType, b: bytes, reach: Reach): Option<DecoderError> {
    if LookupError(b, 0, Near).Some? then LookupError(b, 0, Near)
    else if t != CallWithRollback || BytesAt(b, 0, Near).Err? then None
    else LookupError(b, 1, reach)
  }

  /** The error of the first lookup that fails while an envelope is decoded, if none of the fields found
      before it is malformed. */
  function Missing(b: bytes, reach: Reach): Option<DecoderError> {
    if EnvelopeType(b).Err? then None
    else if LookupError(b, 1, reach).Some? then LookupError(b, 1, reach) else
    var t, body := EnvelopeType(b).value, BytesAt(b, 1, reach);
    if body.Err? then None
    else if MissingIn(t, body.value, reach).Some? then MissingIn(t, body.value, reach)
    else if DecodeAnyMessage(t, body.value, reach).Err? then None
    else if LookupError(b, 2, reach).Some? then LookupError(b, 2, reach)
    else if StringsAt(b, 2, reach).Err? then None
    else LookupError(b, 3, reach)
  }

  /** When the program decodes an envelope as the plain reader does: the plain reader finds every field
      it looks up, or the first lookup that fails fails with the same error in the payload and behind
      it, or it panics while the program finds all fields, one of them a list of strings that panics. */
  predicate EnvelopeAgrees(b: bytes) {
    || Missing(b, Near).None? || Missing(b, Far) == Missing(b, Near)
    || (&& Missing(b, Near) == Some(Panicked) && Missing(b, Far).None?
        && FarMessage(b).Ok? && (StringsAt(b, 2, Far) == Err(Panicked)
                                 || (StringsAt(b, 2, Far).Ok? && StringsAt(b, 3, Far) == Err(Panicked))))
  }

  /** The message as the program finds it. */
  function FarMessage(b: bytes): Result<AnyMessage> {
    var t :- EnvelopeType(b);
    var body :- BytesAt(b, 1, Far);
    DecodeAnyMessage(t, body, Far)
  }

  lemma EnvelopeAgreesIff(b: bytes)
    ensures DecodeEnvelope(b, Far) == DecodeEnvelope(b, Near) <==> EnvelopeAgrees(b)
  {
    hide DecodeEnvelope, Missing, FarMessage, StringsAt;
    if Missing(b, Near).None? {
      NothingMissing(b);
    } else {
      SomethingMissing(b, Near);
      if Missing(b, Far).Some? {
        SomethingMissing(b, Far);
      } else {
        FirstMissing(b);
        AllFound(b);
      }
    }
  }

  lemma SomethingMissing(b: bytes, reach: Reach)
    requires Missing(b, reach).Some?
    ensures DecodeEnvelope(b, reach) == Err(Missing(b, reach).value)
  {
    hide ItemAt, DecodeValue, LookupError, UintAt, AsStrings;
    forall i ensures LookupError(b, i, reach).Some? ==> ItemAt(b, i, reach) == Err(LookupError(b, i, reach).value) {
      LookupFails(b, i, reach);
    }
    var body := BytesAt(b, 1, reach);
    if body.Ok? {
      LookupFails(body.value, 0, Near);
      LookupFails(body.value, 1, reach);
    }
  }

  lemma NothingMissing(b: bytes)
    requires Missing(b, Near).None?
    ensures DecodeEnvelope(b, Far) == DecodeEnvelope(b, Near)
  {
    hide ItemAt, DecodeValue, LookupError, UintAt, AsStrings;
    forall i: nat | LookupError(b, i, Near).None? ensures ItemAt(b, i, Far) == ItemAt(b, i, Near) {
      LookupFails(b, i, Near);
      NearEnough(b, i, i);
    }
    var body := BytesAt(b, 1, Near);
    if body.Ok? && LookupError(body.value, 1, Near).None? {
      LookupFails(body.value, 1, Near);
      NearEnough(body.value, 1, 1);
    }
  }

  /** What is found behind the payload only was not found in it for want of bytes. */
  lemma FirstMissing(b: bytes)
    requires Missing(b, Near).Some? && Missing(b, Far).None?
    ensures EnvelopeType(b).Ok?
    ensures Missing(b, Near) == Some(RlpIsTooShort) || Missing(b, Near) == Some(Panicked)
  {
    hide ItemAt, DecodeValue, LookupError, UintAt, AsStrings;
    forall i: nat | LookupError(b, i, Near).None? ensures ItemAt(b, i, Far) == ItemAt(b, i, Near) {
      LookupFails(b, i, Near);
      NearEnough(b, i, i);
    }
    forall i: nat | LookupError(b, i, Near).Some? && LookupError(b, i, Far) != LookupError(b, i, Near)
      ensures LookupError(b, i, Near) == Some(RlpIsTooShort) || LookupError(b, i, Near) == Some(Panicked)
    {
      FailsNear(b, i);
    }
    var body := BytesAt(b, 1, Near);
    if body.Ok? {
      LookupFails(body.value, 1, Near);
      if LookupError(body.value, 1, Near).None? {
        NearEnough(body.value, 1, 1);
      } else if LookupError(body.value, 1, Far).None? {
        FailsNear(body.value, 1);
      }
    }
  }

  lemma FoundValue(b: bytes, i: nat, reach: Reach)
    requires LookupError(b, i, reach).None?
    ensures BytesAt(b, i, reach) != Err(RlpIsTooShort) && BytesAt(b, i, reach) != Err(Panicked)
    ensures StringsAt(b, i, reach) != Err(RlpIsTooShort)
  {
    hide ItemAt, DecodeValue, LookupError, StringsIn, ListInfo;
    LookupFails(b, i, reach);
    ItemNoPanic(b, i, reach);
    var item := ItemAt(b, i, reach).value;
    if ListInfo(item).Ok? { StringsNotShort(Payload(item)); }
  }

  lemma {:induction false} StringsNotShort(p: bytes)
    ensures StringsIn(p) != Err(RlpIsTooShort)
    decreases |p|
  {
    hide InfoOf, DecodeValue, ValidUtf8;
    if InfoOf(p).Ok? {
      var k := InfoOf(p).value.Total();
      ItemValueError(p);
      StringsNotShort(p[k..]);
    }
  }

  /** An envelope all of whose fields are found is refused for what a field is, or because a list of
      strings panics. */
  lemma AllFound(b: bytes)
    requires EnvelopeType(b).Ok? && Missing(b, Far).None?
    ensures DecodeEnvelope(b, Far) != Err(RlpIsTooShort)
    ensures DecodeEnvelope(b, Far) == Err(Panicked) <==>
      FarMessage(b).Ok? && (StringsAt(b, 2, Far) == Err(Panicked)
                            || (StringsAt(b, 2, Far).Ok? && StringsAt(b, 3, Far) == Err(Panicked)))
  {
    hide BytesAt, StringsAt, LookupError, UintAt;
    forall i: nat | LookupError(b, i, Far).None?
      ensures BytesAt(b, i, Far) != Err(Panicked) && BytesAt(b, i, Far) != Err(RlpIsTooShort)
      ensures StringsAt(b, i, Far) != Err(RlpIsTooShort)
    {
      FoundValue(b, i, Far);
    }
    var body := BytesAt(b, 1, Far);
    if body.Ok? {
      if LookupError(body.value, 0, Near).None? { FoundValue(body.value, 0, Near); }
      if LookupError(body.value, 1, Far).None? { FoundValue(body.value, 1, Far); }
    }
  }

  /** All four fields, and the rollback data if the message has one, lie in their payloads. */
  predicate EnvelopeInside(b: bytes) {
    && ListInfo(b).Ok? && Readable(Payload(b)) >= 4
    && (EnvelopeType(b) == Ok(CallWithRollback) && BytesAt(b, 1, Near).Ok? ==>
          var body := BytesAt(b, 1, Near).value; ListInfo(body).Ok? && Readable(Payload(body)) >= 2)
  }

  /** What the plain reader accepts the program accepts alike; what the program accepts is what the plain
      reader reads exactly when everything lies inside. */
  lemma EnvelopeAccepted(b: bytes)
    ensures DecodeEnvelope(b, Near).Ok? ==> DecodeEnvelope(b, Far) == DecodeEnvelope(b, Near)
    ensures DecodeEnvelope(b, Far).Ok? ==>
      (DecodeEnvelope(b, Far) == DecodeEnvelope(b, Near) <==> EnvelopeInside(b))
  {
    hide ItemAt, DecodeValue, Readable, UintAt, AsStrings, ListInfo, LookupError, Missing, EnvelopeAgrees;
    if Missing(b, Near).Some? { SomethingMissing(b, Near); } else { NothingMissing(b); }
    forall i: nat ensures ItemAt(b, i, Near).Ok? <==> ListInfo(b).Ok? && i < Readable(Payload(b)) { NearMeans(b, i); }
    if ItemAt(b, 1, Near).Ok? { NearEnough(b, 1, 1); }
    if ItemAt(b, 3, Near).Ok? { NearEnough(b, 2, 3); NearEnough(b, 3, 3); }
    if BytesAt(b, 1, Near).Ok? {
      var body := BytesAt(b, 1, Near).value;
      NearMeans(body, 1);
      if ItemAt(body, 1, Near).Ok? { NearEnough(body, 1, 1); }
    }
  }

  // Fields from behind the list, for every message.

  lemma BehindField(ts: seq<Item>, us: seq<Item>, i: nat)
    requires Fits(List(ts)) && AllFit(us)
    ensures var b := Followed(ts, us);
      && ItemAt(b, i, Near) == (if i < |ts| then Ok(Encode(ts[i])) else Err(RlpIsTooShort))
      && ItemAt(b, i, Far) == (if i < |ts + us| then Ok(Encode((ts + us)[i])) else Err(RlpIsTooShort))
  {
    hide FreshAt, FullAt, Encode, EncodeAll, Followed, Fits, ListInfo;
    BehindItem(ts, us, i);
  }

  lemma BehindFits(ts: seq<Item>, n: nat)
    requires Fits(List(ts)) && n <= |ts|
    ensures Fits(List(ts[..n])) && AllFit(ts[n..]) && ts[..n] + ts[n..] == ts
  {
    assert ts[..n] + ts[n..] == ts;
    EncodeAllConcat(ts[..n], ts[n..]);
  }

  lemma FieldValue(items: seq<Item>, i: nat)
    requires Fits(List(items)) && i < |items| && items[i].Data?
    ensures DecodeValue(Encode(items[i])) == Ok(items[i].data)
  {
    hide Encode, EncodeAll, DecodeValue;
    assert items[i] in items;
    ValueOfEncode(items[i].data);
  }

  /** A wrapper's payload may come from behind the list: any wrapper cut after its type is accepted whole,
      and refused by the plain reader. */
  lemma PayloadFromBehind(w: Wrapper)
    requires Fits(List(WrapperItems(w)))
    ensures var b := Followed(WrapperItems(w)[..1], WrapperItems(w)[1..]);
      DecodeWrapper(b, Far) == Ok(w) && DecodeWrapper(b, Near) == Err(RlpIncorrectListLen)
  {
    hide Encode, EncodeAll, Fits, ItemAt, DecodeValue, FromBigEndian, Followed, CountedItems, ItemCount;
    var items := WrapperItems(w);
    BehindFits(items, 1);
    BehindLayout(items[..1], items[1..]);
    BehindCount(items[..1], items[1..]);
    BehindField(items[..1], items[1..], 0);
    BehindField(items[..1], items[1..], 1);
    FieldValue(items, 0);
    FieldValue(items, 1);
    SmallValue(w.kind.AsInt());
  }

  /** A result's message may come from behind the list; the plain reader reads an empty one. */
  lemma MessageFromBehind(m: ResultMsg)
    requires m.sn < Pow256(16) && Fits(List(ResultItems(m)))
    ensures var b := Followed(ResultItems(m)[..2], ResultItems(m)[2..]);
      DecodeResult(b, Far) == Ok(m) && DecodeResult(b, Near) == Ok(m.(message := []))
  {
    hide Encode, EncodeAll, Fits, ItemAt, DecodeValue, FromBigEndian, Followed, UintBytes, Pow256;
    var items := ResultItems(m);
    BehindFits(items, 2);
    BehindField(items[..2], items[2..], 0);
    BehindField(items[..2], items[2..], 1);
    BehindField(items[..2], items[2..], 2);
    FieldValue(items, 0);
    FieldValue(items, 1);
    FieldValue(items, 2);
    SmallValue(m.code.AsInt());
    UintLength(m.sn, 16);
  }

  /** An envelope's destinations may come from behind the list; the plain reader refuses it. */
  lemma DestinationsFromBehind(e: Envelope)
    requires ValidEnvelope(e)
    ensures var b := Followed(EnvelopeItems(e)[..3], EnvelopeItems(e)[3..]);
      DecodeEnvelope(b, Far) == Ok(e) && DecodeEnvelope(b, Near) == Err(RlpIsTooShort)
  {
    hide Encode, EncodeAll, Fits, ItemAt, DecodeValue, FromBigEndian, Followed, AsStrings, DecodeAnyMessage, Strings,
      AnyMessageItems, ValidUtf8, Clean;
    var items := EnvelopeItems(e);
    BehindFits(items, 3);
    BehindField(items[..3], items[3..], 0);
    BehindField(items[..3], items[3..], 1);
    BehindField(items[..3], items[3..], 2);
    BehindField(items[..3], items[3..], 3);
    FieldValue(items, 0);
    FieldValue(items, 1);
    AsStringsOfEncode(e.sources);
    AsStringsOfEncode(e.destinations);
    SmallValue(e.message.Type().AsInt());
    InnerMessage(e.message);
  }

  lemma InnerMessage(m: AnyMessage)
    requires Fits(List(AnyMessageItems(m)))
    ensures forall reach :: DecodeAnyMessage(m.Type(), Encode(List(AnyMessageItems(m))), reach) == Ok(m)
  {
    hide Encode, EncodeAll, Fits, ItemAt, DecodeValue, Clean;
    AnyMessageRoundTrip(m);
    EncodedIsClean(AnyMessageItems(m));
    var b := Encode(List(AnyMessageItems(m)));
    CleanItem(b, 1);
    assert DecodeAnyMessage(m.Type(), b, Far) == DecodeAnyMessage(m.Type(), b, Near);
    forall reach: Reach ensures DecodeAnyMessage(m.Type(), b, reach) == Ok(m) {
      if reach == Far { } else { assert reach == Near; }
    }
  }

  // -------------------------------------------------------------------- round trips

  lemma {:induction false} StringsOfEncode(ss: seq<bytes>)
    requires AllFit(Strings(ss)) && forall s :: s in ss ==> ValidUtf8(s)
    ensures StringsIn(EncodeAll(Strings(ss))) == Ok(ss)
    decreases |ss|
  {
    hide InfoOf, Encode, EncodeAll, ValidUtf8, DecodeValue;
    EmptyFacts();
    if ss == [] {
      assert Strings(ss) == [];
    } else {
      var ts := Strings(ss);
      assert ts[1..] == Strings(ss[1..]);
      EncodeAllFirst(ts);
      InfoOfEncode(ts[0], EncodeAll(ts[1..]));
      ValueOfEncode(ss[0]);
      StringsOfEncode(ss[1..]);
      var b, k := EncodeAll(ts), |Encode(ts[0])|;
      assert b[..k] == Encode(ts[0]) && b[k..] == EncodeAll(ts[1..]);
      assert [ss[0]] + ss[1..] == ss;
    }
  }

  lemma AsStringsOfEncode(ss: seq<bytes>)
    requires Fits(List(Strings(ss))) && forall s :: s in ss ==> ValidUtf8(s)
    ensures AsStrings(Encode(List(Strings(ss)))) == Ok(ss)
  {
    hide StringsIn, Encode, EncodeAll, ListInfo, ValidUtf8;
    AtOfEncode(Strings(ss), 0);
    StringsOfEncode(ss);
  }

  /** A string field of an encoded message. */
  lemma BytesOfEncode(items: seq<Item>, i: nat)
    requires Fits(List(items)) && i < |items| && items[i].Data?
    ensures BytesAt(Encode(List(items)), i, Near) == Ok(items[i].data)
  {
    hide FreshAt, Encode, EncodeAll, DecodeValue;
    AtOfEncode(items, i);
    assert items[i] in items;
    ValueOfEncode(items[i].data);
  }

  lemma UintOfEncode(items: seq<Item>, i: nat, width: nat)
    requires Fits(List(items)) && i < |items| && items[i].Data? && |items[i].data| <= width
    ensures UintAt(Encode(List(items)), i, width, Near) == Ok(FromBigEndian(items[i].data))
  {
    hide FreshAt, Encode, EncodeAll, DecodeValue, FromBigEndian;
    AtOfEncode(items, i);
    assert items[i] in items;
    ValueOfEncode(items[i].data);
  }

  lemma ListOfEncode(items: seq<Item>, i: nat, ss: seq<bytes>)
    requires Fits(List(items)) && i < |items| && items[i] == List(Strings(ss)) && forall s :: s in ss ==> ValidUtf8(s)
    ensures StringsAt(Encode(List(items)), i, Near) == Ok(ss)
  {
    hide FreshAt, Encode, EncodeAll, AsStrings, ValidUtf8, Strings;
    AtOfEncode(items, i);
    assert items[i] in items;
    AsStringsOfEncode(ss);
  }

  lemma SmallValue(b: byte)
    ensures FromBigEndian([b]) == b
  {
    assert [b][..0] == [];
  }

  ghost predicate ValidRequest(r: Request) {
    && r.sn < Pow256(16) && Fits(List(RequestItems(r)))
    && ValidUtf8(r.from) && ValidUtf8(r.to) && forall s :: s in r.protocols ==> ValidUtf8(s)
  }

  /** Every request decodes back to itself exactly when its sender address has one separator. */
  lemma RequestRoundTrip(r: Request)
    requires ValidRequest(r)
    ensures DecodeRequest(Encode(List(RequestItems(r))), Near) == if SlashCount(r.from) == 1 then Ok(r)
      else Err(RlpInvalidLength)
  {
    hide Encode, EncodeAll, Fits, ItemCount, StringsAt, UintAt, BytesAt, ValidUtf8, SlashCount, UintBytes, Pow256,
      FromBigEndian, Strings;
    var items := RequestItems(r);
    CountOfEncode(items);
    ListOfEncode(items, 5, r.protocols);
    BytesOfEncode(items, 0);
    SmallValue(r.msgType.AsInt());
    UintOfEncode(items, 3, 1);
    BytesOfEncode(items, 1);
    UintLength(r.sn, 16);
    UintOfEncode(items, 2, 16);
    BytesOfEncode(items, 4);
  }

  lemma ResultRoundTrip(r: ResultMsg)
    requires r.sn < Pow256(16) && Fits(List(ResultItems(r)))
    ensures DecodeResult(Encode(List(ResultItems(r))), Near) == Ok(r)
  {
    hide Encode, EncodeAll, Fits, UintAt, BytesAt, UintBytes, Pow256, FromBigEndian;
    var items := ResultItems(r);
    SmallValue(r.code.AsInt());
    UintOfEncode(items, 1, 1);
    UintLength(r.sn, 16);
    UintOfEncode(items, 0, 16);
    BytesOfEncode(items, 2);
  }

  lemma WrapperRoundTrip(w: Wrapper)
    requires Fits(List(WrapperItems(w)))
    ensures DecodeWrapper(Encode(List(WrapperItems(w))), Near) == Ok(w)
  {
    hide Encode, EncodeAll, Fits, ItemCount, UintAt, BytesAt, KindOf, FromBigEndian;
    var items := WrapperItems(w);
    KindOfEncode(List(items));
    CountOfEncode(items);
    SmallValue(w.kind.AsInt());
    UintOfEncode(items, 0, 1);
    BytesOfEncode(items, 1);
  }

  lemma AnyMessageRoundTrip(m: AnyMessage)
    requires Fits(List(AnyMessageItems(m)))
    ensures DecodeAnyMessage(m.Type(), Encode(List(AnyMessageItems(m))), Near) == Ok(m)
  {
    hide Encode, EncodeAll, Fits, BytesAt;
    BytesOfEncode(AnyMessageItems(m), 0);
    if m.CallMessageWithRollback? { BytesOfEncode(AnyMessageItems(m), 1); }
  }

  ghost predicate ValidEnvelope(e: Envelope) {
    && Fits(List(AnyMessageItems(e.message))) && Fits(List(EnvelopeItems(e)))
    && (forall s :: s in e.sources ==> ValidUtf8(s)) && (forall s :: s in e.destinations ==> ValidUtf8(s))
  }

  lemma EnvelopeRoundTrip(e: Envelope)
    requires ValidEnvelope(e)
    ensures DecodeEnvelope(Encode(List(EnvelopeItems(e))), Near) == Ok(e)
  {
    hide Encode, EncodeAll, Fits, StringsAt, UintAt, BytesAt, ValidUtf8, FromBigEndian, Strings, DecodeAnyMessage,
      AnyMessageItems;
    var items := EnvelopeItems(e);
    SmallValue(e.message.Type().AsInt());
    UintOfEncode(items, 0, 1);
    BytesOfEncode(items, 1);
    AnyMessageRoundTrip(e.message);
    ListOfEncode(items, 2, e.sources);
    ListOfEncode(items, 3, e.destinations);
  }

  /** What the writer wrote is read without disturbance. */
  lemma EncodedIsClean(items: seq<Item>)
    requires Fits(List(items))
    ensures Clean(Encode(List(items)))
  {
    hide Encode, EncodeAll, Fits, InfoOf, Unread;
    var b := Encode(List(items));
    AtOfEncode(items, 0);
    assert Unread(Payload(b)) + b[|b|..] == Unread(Payload(b));
  }

  /** Through the stream writer and back through one caching view. */
  method RequestThere(r: Request) returns (back: Result<Request>)
    requires ValidRequest(r)
    ensures back == if SlashCount(r.from) == 1 then Ok(r) else Err(RlpInvalidLength)
  {
    hide Encode, DecodeRequest, Clean, Fits, SlashCount, ValidUtf8, Pow256;
    var wire := EncodeRequest(r);
    EncodedIsClean(RequestItems(r));
    back := ReadRequest(wire);
    RequestRoundTrip(r);
  }

  method EnvelopeThere(e: Envelope) returns (back: Result<Envelope>)
    requires ValidEnvelope(e)
    ensures back == Ok(e)
  {
    hide Encode, DecodeEnvelope, Clean, Fits, ValidUtf8, BytesAt;
    var wire := EncodeEnvelope(e);
    EncodedIsClean(EnvelopeItems(e));
    BytesOfEncode(EnvelopeItems(e), 1);
    EncodedIsClean(AnyMessageItems(e.message));
    back := ReadEnvelope(wire);
    EnvelopeRoundTrip(e);
  }

  // ------------------------------------------------------ what the decoders accept

  /** A request is read from some bytes exactly when they are a list of six fields, each read as that
      field of the request is written: one slash in the sender, a type from zero to two. */
  lemma RequestReadIff(b: bytes, r: Request)
    ensures DecodeRequest(b, Near) == Ok(r) <==>
      && ItemCount(b) == Ok(6)
      && StringAt(b, 0, Near) == Ok(r.from) && SlashCount(r.from) == 1
      && StringAt(b, 1, Near) == Ok(r.to) && UintAt(b, 2, 16, Near) == Ok(r.sn)
      && UintAt(b, 3, 1, Near) == Ok(r.msgType.AsInt())
      && BytesAt(b, 4, Near) == Ok(r.data) && StringsAt(b, 5, Near) == Ok(r.protocols)
  {
    hide StringAt, UintAt, BytesAt, StringsAt, ItemCount, SlashCount;
  }

  /** Types from three on make the program panic, once the fields before it are read. */
  lemma RequestTypePanics(b: bytes, t: nat)
    requires ItemCount(b) == Ok(6) && StringsAt(b, 5, Near).Ok? && StringAt(b, 0, Near).Ok?
    requires SlashCount(StringAt(b, 0, Near).value) == 1 && StringAt(b, 1, Near).Ok? && UintAt(b, 2, 16, Near).Ok?
    requires UintAt(b, 3, 1, Near) == Ok(t) && t >= 3
    ensures DecodeRequest(b, Near) == Err(Panicked)
  {
    hide StringAt, UintAt, BytesAt, StringsAt, ItemCount, SlashCount;
  }

  /** A result is read exactly when its number and a code of zero or one are; a message that is missing
      or malformed counts as empty. */
  lemma ResultReadIff(b: bytes, r: ResultMsg)
    ensures DecodeResult(b, Near) == Ok(r) <==>
      && UintAt(b, 0, 16, Near) == Ok(r.sn) && UintAt(b, 1, 1, Near) == Ok(r.code.AsInt())
      && BytesAt(b, 2, Near) != Err(Panicked)
      && r.message == if BytesAt(b, 2, Near).Ok? then BytesAt(b, 2, Near).value else []
    ensures UintAt(b, 0, 16, Near).Ok? && UintAt(b, 1, 1, Near).Ok? && UintAt(b, 1, 1, Near).value > 1 ==>
      DecodeResult(b, Near) == Err(Custom)
  {
    hide UintAt, BytesAt;
  }

  /** A wrapper is read exactly from a list of two fields, a type of one or two and a payload. */
  lemma WrapperReadIff(b: bytes, w: Wrapper)
    ensures DecodeWrapper(b, Near) == Ok(w) <==>
      KindOf(b) == ListKind && ItemCount(b) == Ok(2)
      && UintAt(b, 0, 1, Near) == Ok(w.kind.AsInt()) && BytesAt(b, 1, Near) == Ok(w.payload)
    ensures KindOf(b) == DataKind || KindOf(b) == NullKind ==> DecodeWrapper(b, Near) == Err(RlpIncorrectListLen)
    ensures ItemCount(b) == Ok(2) && UintAt(b, 0, 1, Near).Ok? && UintAt(b, 0, 1, Near).value !in {1, 2} ==>
      DecodeWrapper(b, Near) == Err(Custom)
  {
    hide UintAt, BytesAt, Readable, Unread, InfoOf, ListInfo;
  }

  /** An envelope is read exactly when its type, its message under that type and its two lists are. */
  lemma EnvelopeReadIff(b: bytes, e: Envelope)
    ensures DecodeEnvelope(b, Near) == Ok(e) <==>
      && UintAt(b, 0, 1, Near) == Ok(e.message.Type().AsInt())
      && BytesAt(b, 1, Near).Ok?
      && StringsAt(b, 2, Near) == Ok(e.sources) && StringsAt(b, 3, Near) == Ok(e.destinations)
      && (var body := BytesAt(b, 1, Near).value;
          && BytesAt(body, 0, Near) == Ok(e.message.data)
          && (e.message.CallMessageWithRollback? ==> BytesAt(body, 1, Near) == Ok(e.message.rollback)))
    ensures UintAt(b, 0, 1, Near).Ok? && UintAt(b, 0, 1, Near).value >= 3 ==> DecodeEnvelope(b, Near) == Err(Panicked)
  {
    hide UintAt, BytesAt, StringsAt;
  }
}
