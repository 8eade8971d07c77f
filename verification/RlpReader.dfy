/**
 The reader: views of encoded items. A list view answers `at(i)` from a remembered offset
 when it can. The plain reader, without memory, is the reference. Indexing past the end of a
 slice panics; a panic is an error value here, so that "the same error" includes it.
 */
module RlpReader {
  import opened Bytes
  import opened RlpFormat
  import opened Wrappers

  datatype DecoderError =
    | RlpIsTooBig | RlpIsTooShort | RlpExpectedToBeList | RlpExpectedToBeData | RlpIncorrectListLen
    | RlpDataLenWithZeroPrefix | RlpInvalidIndirection | RlpInconsistentLengthAndData | RlpInvalidLength
    | Custom | Panicked

  datatype Result<+T> = Ok(value: T) | Err(error: DecoderError) {
    predicate IsFailure() { Err? }

    function PropagateFailure<U>(): Result<U>
      requires Err?
    {
      Err(error)
    }

    function Extract(): T
      requires Ok?
    {
      value
    }
  }

  datatype PayloadInfo = PayloadInfo(headerLen: nat, valueLen: nat) {
    function Total(): nat { headerLen + valueLen }
  }

  // ------------------------------------------------------------------- headers

  const USIZE_BYTES: nat := 8
  const USIZE: nat := 0x1_0000_0000_0000_0000

  function DecodeUsize(b: bytes): Result<nat>
    requires b != []
  {
    if |b| > USIZE_BYTES then Err(RlpIsTooBig)
    else if b[0] == 0 then Err(RlpInvalidIndirection)
    else Ok(FromBigEndian(b))
  }

  function CalculatePayloadInfo(h: bytes, lenOfLen: nat): Result<PayloadInfo>
    requires 1 <= lenOfLen <= 8
  {
    if |h| <= 1 then Err(RlpIsTooShort)
    else if h[1] == 0 then Err(RlpDataLenWithZeroPrefix)
    else if |h| < 1 + lenOfLen then Err(RlpIsTooShort)
    else match DecodeUsize(h[1..1 + lenOfLen])
      case Err(e) => Err(e)
      case Ok(n) => if n <= 55 then Err(RlpInvalidIndirection) else Ok(PayloadInfo(1 + lenOfLen, n))
  }

  function PayloadInfoFrom(h: bytes): Result<PayloadInfo> {
    if h == [] then Err(RlpIsTooShort) else
    var l := h[0];
    if l <= 0x7f then Ok(PayloadInfo(0, 1))
    else if l <= 0xb7 then Ok(PayloadInfo(1, l - 0x80))
    else if l <= 0xbf then CalculatePayloadInfo(h, l - 0xb7)
    else if l <= 0xf7 then Ok(PayloadInfo(1, l - 0xc0))
    else if l == 0xf8 && |h| == 1 then Err(Panicked)
    else if l == 0xf8 && h[1] == 0 then Ok(PayloadInfo(1, 1))
    else CalculatePayloadInfo(h, l - 0xf7)
  }

  /** Header of the first item, which must be there in full. */
  function InfoOf(b: bytes): (r: Result<PayloadInfo>)
    ensures r.Ok? ==> 1 <= r.value.Total() <= |b|
  {
    match PayloadInfoFrom(b)
    case Err(e) => Err(e)
    case Ok(info) => if info.Total() <= |b| then Ok(info) else Err(RlpIsTooShort)
  }

  datatype Kind = NullKind | DataKind | ListKind | PanicKind

  function KindOf(b: bytes): Kind {
    if b == [] then NullKind
    else if b == [0xf8] then PanicKind
    else if b[0] == 0xf8 && b[1] == 0 then NullKind
    else if b[0] < 0xc0 then DataKind
    else ListKind
  }

  // ------------------------------------------------------------ the plain reader

  /** Bytes taken by the first `n` items. */
  function Skip(b: bytes, n: nat): (r: Result<nat>)
    ensures r.Ok? ==> r.value <= |b|
    decreases n
  {
    if n == 0 then Ok(0)
    else match InfoOf(b)
      case Err(e) => Err(e)
      case Ok(info) =>
        match Skip(b[info.Total()..], n - 1)
        case Err(e) => Err(e)
        case Ok(c) => Ok(info.Total() + c)
  }

  function FirstItem(b: bytes): Result<bytes> {
    match InfoOf(b)
    case Err(e) => Err(e)
    case Ok(info) => Ok(b[..info.Total()])
  }

  function Read(b: bytes, n: nat): Result<bytes> {
    match Skip(b, n)
    case Err(e) => Err(e)
    case Ok(c) => FirstItem(b[c..])
  }

  function ListInfo(b: bytes): (r: Result<PayloadInfo>)
    ensures r.Ok? ==> 1 <= r.value.headerLen && r.value.Total() <= |b|
  {
    match KindOf(b)
    case PanicKind => Err(Panicked)
    case ListKind => InfoOf(b)
    case _ => Err(RlpExpectedToBeList)
  }

  function Payload(b: bytes): bytes
    requires ListInfo(b).Ok?
  {
    b[ListInfo(b).value.headerLen..ListInfo(b).value.Total()]
  }

  /** The i-th item of a list, looked up without memory. */
  function FreshAt(b: bytes, i: nat): Result<bytes> {
    match ListInfo(b)
    case Err(e) => Err(e)
    case Ok(_) => Read(Payload(b), i)
  }

  // ---------------------------------------------------------- the cached reader

  datatype OffsetCache = OffsetCache(index: nat, offset: nat)

  /** The bytes a lookup scans, where they start, and how many items it skips. */
  function ScanFrom(b: bytes, cache: Option<OffsetCache>, i: nat): (r: Result<(nat, bytes, nat)>)
  {
    if cache.Some? && cache.value.index <= i then
      if |b| >= cache.value.offset then Ok((cache.value.offset, b[cache.value.offset..], i - cache.value.index))
      else Err(RlpIsTooShort)
    else match InfoOf(b)
      case Err(e) => Err(e)
      case Ok(info) => Ok((info.headerLen, b[info.headerLen..info.Total()], i))
  }

  /** `at` with memory: the answer and the remembered offset afterwards. */
  function CachedAt(b: bytes, cache: Option<OffsetCache>, i: nat): (Result<bytes>, Option<OffsetCache>) {
    match KindOf(b)
    case PanicKind => (Err(Panicked), cache)
    case ListKind =>
      (match ScanFrom(b, cache, i)
       case Err(e) => (Err(e), cache)
       case Ok((start, region, n)) =>
         (match Skip(region, n)
          case Err(e) => (Err(e), cache)
          case Ok(c) => (FirstItem(region[c..]), Some(OffsetCache(i, start + c)))))
    case _ => (Err(RlpExpectedToBeList), cache)
  }

  // -------------------------------------------------------------- scanning facts

  /** More bytes after a complete item do not change its header. */
  lemma InfoExtends(b: bytes, tail: bytes)
    requires InfoOf(b).Ok?
    ensures InfoOf(b + tail) == InfoOf(b)
  {
    var info := InfoOf(b).value;
    var c := b + tail;
    assert c[0] == b[0];
    if |b| > 1 { assert c[1] == b[1]; }
    if info.headerLen > 1 {
      assert c[1..info.headerLen] == b[1..info.headerLen];
    }
  }

  lemma InfoTruncates(b: bytes)
    requires InfoOf(b).Ok?
    ensures InfoOf(b[..InfoOf(b).value.Total()]) == InfoOf(b)
  {
    var info := InfoOf(b).value;
    var c := b[..info.Total()];
    assert c[0] == b[0];
    if |c| > 1 { assert c[1] == b[1]; }
    if info.headerLen > 1 {
      assert c[1..info.headerLen] == b[1..info.headerLen];
    }
  }

  lemma {:induction false} SkipExtends(b: bytes, tail: bytes, n: nat)
    requires Skip(b, n).Ok?
    ensures Skip(b + tail, n) == Skip(b, n)
    decreases n
  {
    hide InfoOf;
    if n > 0 {
      InfoExtends(b, tail);
      var k := InfoOf(b).value.Total();
      assert (b + tail)[k..] == b[k..] + tail;
      SkipExtends(b[k..], tail, n - 1);
    }
  }

  /** Skipping m and then n items is skipping m + n items. */
  lemma {:induction false} SkipSum(b: bytes, m: nat, n: nat)
    requires Skip(b, m).Ok?
    ensures var c := Skip(b, m).value;
      match Skip(b[c..], n)
      case Ok(d) => Skip(b, m + n) == Ok(c + d)
      case Err(e) => Skip(b, m + n) == Err(e)
    decreases m
  {
    hide InfoOf;
    if m == 0 {
      assert b[0..] == b;
    } else {
      var k := InfoOf(b).value.Total();
      var c := Skip(b, m).value;
      SkipSum(b[k..], m - 1, n);
      assert b[k..][c - k..] == b[c..];
    }
  }

  lemma ReadSum(b: bytes, m: nat, n: nat)
    requires Skip(b, m).Ok?
    ensures Read(b[Skip(b, m).value..], n) == Read(b, m + n)
  {
    hide InfoOf, Skip;
    var c := Skip(b, m).value;
    SkipSum(b, m, n);
    if Skip(b[c..], n).Ok? {
      var d := Skip(b[c..], n).value;
      assert b[c..][d..] == b[c + d..];
    }
  }

  // ---------------------------------------------------------- cache transparency

  /** What the cache holds: the header's length plus the size of the first `index` items. */
  ghost predicate CacheOk(b: bytes, cache: Option<OffsetCache>) {
    cache.Some? ==>
      && ListInfo(b).Ok?
      && (var h := ListInfo(b).value.headerLen;
          h <= cache.value.offset && Skip(b[h..], cache.value.index) == Ok(cache.value.offset - h))
  }

  /** The i-th item read from everything after the header, trailing bytes included. */
  function FullAt(b: bytes, i: nat): Result<bytes>
    requires ListInfo(b).Ok?
  {
    Read(b[ListInfo(b).value.headerLen..], i)
  }

  /** Where a lookup reads: behind the remembered offset there is no end of the payload. */
  function ScanRegion(b: bytes, cache: Option<OffsetCache>, i: nat): bytes
    requires ListInfo(b).Ok?
  {
    if cache.Some? && cache.value.index <= i then b[ListInfo(b).value.headerLen..] else Payload(b)
  }

  lemma CachedLookup(b: bytes, cache: Option<OffsetCache>, i: nat)
    requires CacheOk(b, cache)
    ensures CacheOk(b, CachedAt(b, cache, i).1)
    ensures CachedAt(b, cache, i).0 == if cache.Some? && cache.value.index <= i then FullAt(b, i) else FreshAt(b, i)
    ensures ListInfo(b).Ok? && Skip(ScanRegion(b, cache, i), i).Ok? ==>
      CachedAt(b, cache, i).1.Some? && CachedAt(b, cache, i).1.value.index == i
  {
    hide InfoOf, Skip, FirstItem;
    if ListInfo(b).Ok? {
      var info := ListInfo(b).value;
      var after := b[info.headerLen..];
      if cache.Some? && cache.value.index <= i {
        var OffsetCache(m, offset) := cache.value;
        assert after[offset - info.headerLen..] == b[offset..];
        ReadSum(after, m, i - m);
        SkipSum(after, m, i - m);
      } else {
        assert after == Payload(b) + b[info.Total()..];
        if Skip(Payload(b), i).Ok? { SkipExtends(Payload(b), b[info.Total()..], i); }
      }
    }
  }

  function CacheAfter(b: bytes, lookups: seq<nat>): Option<OffsetCache>
    decreases |lookups|
  {
    if lookups == [] then None else CachedAt(b, CacheAfter(b, lookups[..|lookups| - 1]), lookups[|lookups| - 1]).1
  }

  lemma {:induction false} CacheAfterOk(b: bytes, lookups: seq<nat>)
    ensures CacheOk(b, CacheAfter(b, lookups))
    decreases |lookups|
  {
    if lookups != [] {
      var front := lookups[..|lookups| - 1];
      CacheAfterOk(b, front);
      CachedLookup(b, CacheAfter(b, front), lookups[|lookups| - 1]);
    }
  }

  /** After every history of lookups every lookup answers as the plain reader does. */
  ghost predicate Transparent(b: bytes) {
    forall lookups: seq<nat>, i: nat :: CachedAt(b, CacheAfter(b, lookups), i).0 == FreshAt(b, i)
  }

  /** Number of items before the first one that cannot be read. */
  function Readable(b: bytes): nat
    decreases |b|
  {
    match InfoOf(b)
    case Err(_) => 0
    case Ok(info) => 1 + Readable(b[info.Total()..])
  }

  /** The part from the first item that cannot be read. */
  function Unread(b: bytes): bytes
    decreases |b|
  {
    match InfoOf(b)
    case Err(_) => b
    case Ok(info) => Unread(b[info.Total()..])
  }

  /** Trailing bytes leave the first unreadable item unreadable, with the same error. */
  predicate TrailingHarmless(b: bytes)
    requires ListInfo(b).Ok?
  {
    InfoOf(Unread(Payload(b)) + b[ListInfo(b).value.Total()..]) == InfoOf(Unread(Payload(b)))
  }

  lemma {:induction false} ReadBeyond(b: bytes, tail: bytes, i: nat)
    ensures InfoOf(Unread(b)).Err?
    ensures i < Readable(b) ==> Read(b + tail, i) == Read(b, i) && Read(b, i).Ok?
    ensures i >= Readable(b) ==> Read(b, i) == Err(InfoOf(Unread(b)).error)
    ensures i >= Readable(b) ==> Read(b + tail, i) == Read(Unread(b) + tail, i - Readable(b))
    decreases |b|
  {
    hide InfoOf;
    match InfoOf(b)
    case Err(_) =>
      if i == 0 {
        assert b[0..] == b;
      }
    case Ok(info) =>
      var k := info.Total();
      InfoExtends(b, tail);
      assert (b + tail)[k..] == b[k..] + tail;
      assert Skip(b, 1).Ok? && Skip(b + tail, 1).Ok? by {
        assert Skip(b[k..], 0) == Ok(0);
        assert Skip((b + tail)[k..], 0) == Ok(0);
      }
      if i == 0 {
        assert b[0..] == b && (b + tail)[0..] == b + tail;
        assert (b + tail)[..k] == b[..k];
        assert Readable(b) > 0;
        UnreadIsUnread(b);
      } else {
        ReadBeyond(b[k..], tail, i - 1);
        ReadSum(b, 1, i - 1);
        ReadSum(b + tail, 1, i - 1);
      }
  }

  lemma {:induction false} UnreadIsUnread(b: bytes)
    ensures InfoOf(Unread(b)).Err?
    decreases |b|
  {
    hide InfoOf;
    if InfoOf(b).Ok? { UnreadIsUnread(b[InfoOf(b).value.Total()..]); }
  }

  lemma ReadFirst(b: bytes)
    ensures Read(b, 0) == FirstItem(b)
  {
    assert b[0..] == b;
  }

  /** The condition, lookup by lookup. */
  lemma FullIsFresh(b: bytes, i: nat)
    requires ListInfo(b).Ok?
    ensures TrailingHarmless(b) ==> FullAt(b, i) == FreshAt(b, i)
    ensures !TrailingHarmless(b) && i == Readable(Payload(b)) ==> FullAt(b, i) != FreshAt(b, i)
  {
    var info := ListInfo(b).value;
    var payload, tail := Payload(b), b[info.Total()..];
    assert b[info.headerLen..] == payload + tail;
    ReadBeyond(payload, tail, i);
    if i >= Readable(payload) {
      var rest := Unread(payload) + tail;
      if i == Readable(payload) {
        ReadFirst(rest);
      }
    }
  }

  lemma CacheAfterFirst(b: bytes)
    requires ListInfo(b).Ok?
    ensures CacheAfter(b, [0]) == Some(OffsetCache(0, ListInfo(b).value.headerLen))
  {
    hide InfoOf, Read;
    assert [0][..0] == [];
  }

  /** The remembered offset never changes an answer, in any history, exactly when the bytes after
      the list do not complete its first unreadable item. */
  lemma CacheTransparentIff(b: bytes)
    requires ListInfo(b).Ok?
    ensures Transparent(b) <==> TrailingHarmless(b)
  {
    hide CachedAt, CacheOk, CacheAfter, InfoOf, Skip, Read, Readable;
    if TrailingHarmless(b) {
      forall lookups: seq<nat>, i: nat ensures CachedAt(b, CacheAfter(b, lookups), i).0 == FreshAt(b, i) {
        CacheAfterOk(b, lookups);
        CachedLookup(b, CacheAfter(b, lookups), i);
        FullIsFresh(b, i);
      }
    } else {
      var i := Readable(Payload(b));
      CacheAfterFirst(b);
      CacheAfterOk(b, [0]);
      CachedLookup(b, CacheAfter(b, [0]), i);
      FullIsFresh(b, i);
    }
  }

  /** The bytes are one list item and nothing else. */
  ghost predicate ExactList(b: bytes) { ListInfo(b).Ok? && ListInfo(b).value.Total() == |b| }

  lemma ExactIsTransparent(b: bytes)
    requires ExactList(b)
    ensures Transparent(b)
  {
    assert Unread(Payload(b)) + b[|b|..] == Unread(Payload(b));
    CacheTransparentIff(b);
  }

  lemma InfoOfSmall(b: bytes)
    ensures b == [] ==> InfoOf(b) == Err(RlpIsTooShort)
    ensures b != [] && b[0] < 0x80 ==> InfoOf(b) == Ok(PayloadInfo(0, 1))
  {
  }

  lemma SkipOne(b: bytes)
    requires InfoOf(b).Ok?
    ensures Skip(b, 1) == Ok(InfoOf(b).value.Total())
  {
    hide InfoOf;
    assert Skip(b[InfoOf(b).value.Total()..], 0) == Ok(0);
  }

  lemma InfoOfPair(b: bytes)
    requires |b| >= 2 && b[0] == 0xc1
    ensures InfoOf(b) == Ok(PayloadInfo(1, 1))
  {
  }

  /** A one-item list followed by one more item: the second lookup runs past the end of the list. */
  lemma TrailingByteShows(x: byte, y: byte)
    requires x < 0x80 && y < 0x80
    ensures var b := [0xc1, x, y];
      FreshAt(b, 1) == Err(RlpIsTooShort) && CachedAt(b, CacheAfter(b, [0]), 1).0 == Ok([y])
  {
    hide InfoOf;
    var b: bytes := [0xc1, x, y];
    InfoOfPair(b);
    var p: bytes, q: bytes := [x], [x, y];
    assert Payload(b) == p && b[1..] == q && q[1..] == [y] && p[1..] == [];
    InfoOfSmall(p);
    InfoOfSmall(q);
    SkipOne(p);
    SkipOne(q);
    InfoOfSmall([]);
    InfoOfSmall([y]);
    assert [0][..0] == [];
    assert CacheAfter(b, [0]) == CachedAt(b, None, 0).1;
    assert CacheAfter(b, [0]) == Some(OffsetCache(0, 1));
    var last: bytes := [y];
    assert last[..1] == last && FirstItem(last) == Ok(last);
    assert ScanFrom(b, Some(OffsetCache(0, 1)), 1) == Ok((1, q, 1));
  }

  // -------------------------------------------------------- reading what was written

  lemma HeaderInfo(offset: byte, n: nat, rest: bytes)
    requires offset == STRING_OFFSET || offset == LIST_OFFSET
    requires n < U32
    ensures PayloadInfoFrom(Header(offset, n) + rest) == Ok(PayloadInfo(|Header(offset, n)|, n))
  {
    var h := Header(offset, n);
    var b := h + rest;
    assert b[0] == h[0];
    if n > 55 {
      var s := BigEndian(n);
      assert |s| <= 4 by { Pow256Values(); BigEndianWidth(n, 4); }
      assert h[1..] == s && b[1..1 + |s|] == s;
      FromOfBigEndian(n);
      assert b[1] == s[0] && s[0] != 0;
    }
  }

  /** The header the reader finds at the start of an encoded item: the item's own. */
  lemma InfoOfEncode(t: Item, tail: bytes)
    requires Fits(t)
    ensures InfoOf(Encode(t) + tail).Ok? && InfoOf(Encode(t) + tail).value.Total() == |Encode(t)|
    ensures t.List? ==> InfoOf(Encode(t) + tail) == Ok(PayloadInfo(|Header(LIST_OFFSET, |EncodeAll(t.items)|)|,
      |EncodeAll(t.items)|))
  {
    match t
    case Null => assert (Encode(t) + tail)[1] == 0;
    case Data(b) =>
      if IsOwnEncoding(b) {
        assert (b + tail)[0] == b[0];
      } else {
        assert Encode(t) + tail == Header(STRING_OFFSET, |b|) + (b + tail);
        HeaderInfo(STRING_OFFSET, |b|, b + tail);
      }
    case List(ts) =>
      assert Encode(t) + tail == Header(LIST_OFFSET, |EncodeAll(ts)|) + (EncodeAll(ts) + tail);
      HeaderInfo(LIST_OFFSET, |EncodeAll(ts)|, EncodeAll(ts) + tail);
  }

  lemma KindOfEncode(t: Item)
    requires Fits(t)
    ensures KindOf(Encode(t)) == match t case Null => NullKind case Data(_) => DataKind case List(_) => ListKind
  {
    InfoOfEncode(t, []);
    if t.List? {
      var h := Header(LIST_OFFSET, |EncodeAll(t.items)|);
      assert Encode(t)[0] == h[0];
      if |EncodeAll(t.items)| > 55 { assert Encode(t)[1] == h[1]; }
    } else if t.Data? && !IsOwnEncoding(t.data) {
      var h := Header(STRING_OFFSET, |t.data|);
      assert Encode(t)[0] == h[0];
    }
  }

  /** No encoding is a proper prefix of another: what follows an item never changes where it ends. */
  lemma PrefixFree(a: Item, b: Item, x: bytes, y: bytes)
    requires Fits(a) && Fits(b) && Encode(a) + x == Encode(b) + y
    ensures Encode(a) == Encode(b) && x == y
  {
    InfoOfEncode(a, x);
    InfoOfEncode(b, y);
    var whole := Encode(a) + x;
    assert Encode(a) == whole[..|Encode(a)|] && Encode(b) == whole[..|Encode(b)|];
    assert x == whole[|Encode(a)|..] && y == whole[|Encode(b)|..];
  }

  lemma EmptyFacts()
    ensures EncodeAll([]) == [] && InfoOf([]) == Err(RlpIsTooShort)
  {
  }

  ghost predicate AllFit(ts: seq<Item>) { forall t :: t in ts ==> Fits(t) }

  lemma EncodeAllFirst(ts: seq<Item>)
    requires ts != []
    ensures EncodeAll(ts) == Encode(ts[0]) + EncodeAll(ts[1..])
  {
    assert ts == [ts[0]] + ts[1..];
    EncodeAllConcat([ts[0]], ts[1..]);
    EncodeAllOne(ts[0]);
  }

  /** The split that skipping finds is the one the writer made. */
  lemma {:induction false} SkipOfEncode(ts: seq<Item>, i: nat, tail: bytes)
    requires AllFit(ts) && i <= |ts|
    ensures Skip(EncodeAll(ts) + tail, i) == Ok(|EncodeAll(ts[..i])|)
    ensures (EncodeAll(ts) + tail)[|EncodeAll(ts[..i])|..] == EncodeAll(ts[i..]) + tail
    decreases i
  {
    hide InfoOf, Encode, EncodeAll, Fits;
    EmptyFacts();
    if i == 0 {
      assert ts[..0] == [] && ts[0..] == ts;
    } else {
      EncodeAllFirst(ts);
      var k := |Encode(ts[0])|;
      assert EncodeAll(ts) + tail == Encode(ts[0]) + (EncodeAll(ts[1..]) + tail);
      InfoOfEncode(ts[0], EncodeAll(ts[1..]) + tail);
      assert (EncodeAll(ts) + tail)[k..] == EncodeAll(ts[1..]) + tail;
      SkipOfEncode(ts[1..], i - 1, tail);
      assert ts[1..][..i - 1] == ts[1..i] && ts[1..][i - 1..] == ts[i..];
      EncodeAllFirst(ts[..i]);
      assert ts[..i][0] == ts[0] && ts[..i][1..] == ts[1..i];
    }
  }

  /** Reading a list the writer wrote: the i-th child's encoding, and an error past the last. */
  lemma AtOfEncode(ts: seq<Item>, i: nat)
    requires Fits(List(ts))
    ensures ExactList(Encode(List(ts))) && Payload(Encode(List(ts))) == EncodeAll(ts)
    ensures FreshAt(Encode(List(ts)), i) == if i < |ts| then Ok(Encode(ts[i])) else Err(RlpIsTooShort)
  {
    hide InfoOf, EncodeAll, Header, KindOf, Read, Fits;
    var t := List(ts);
    var b := Encode(t);
    InfoOfEncode(t, []);
    KindOfEncode(t);
    assert b + [] == b;
    assert Payload(b) == EncodeAll(ts);
    ReadOfList(ts, i);
  }

  lemma ReadOfList(ts: seq<Item>, i: nat)
    requires Fits(List(ts))
    ensures Read(EncodeAll(ts), i) == if i < |ts| then Ok(Encode(ts[i])) else Err(RlpIsTooShort)
  {
    hide Read, EncodeAll;
    ReadOfEncode(ts, i);
  }

  lemma ReadOfEncode(ts: seq<Item>, i: nat)
    requires AllFit(ts)
    ensures Read(EncodeAll(ts), i) == if i < |ts| then Ok(Encode(ts[i])) else Err(RlpIsTooShort)
  {
    hide Read, Encode, EncodeAll, Fits;
    if i < |ts| { ReadInside(ts, i); } else { ReadOutside(ts, i); }
  }

  lemma ReadInside(ts: seq<Item>, i: nat)
    requires AllFit(ts) && i < |ts|
    ensures Read(EncodeAll(ts), i) == Ok(Encode(ts[i]))
  {
    hide InfoOf, Encode, EncodeAll, Fits, Skip;
    var b := EncodeAll(ts);
    assert b + [] == b;
    SkipOfEncode(ts, i, []);
    EncodeAllFirst(ts[i..]);
    var rest := EncodeAll(ts[i..][1..]);
    InfoOfEncode(ts[i], rest);
    assert b[|EncodeAll(ts[..i])|..] == Encode(ts[i]) + rest;
  }

  lemma ReadOutside(ts: seq<Item>, i: nat)
    requires AllFit(ts) && i >= |ts|
    ensures Read(EncodeAll(ts), i) == Err(RlpIsTooShort)
  {
    hide InfoOf, Encode, EncodeAll, Fits;
    EmptyFacts();
    var b := EncodeAll(ts);
    assert b + [] == b;
    SkipOfEncode(ts, |ts|, []);
    assert ts[..|ts|] == ts && b[|b|..] == [];
    SkipSum(b, |ts|, i - |ts|);
  }

  // ------------------------------------------------------------- values and trees

  /** The bytes of a string item. */
  function DecodeValue(b: bytes): Result<bytes> {
    if b == [] then Err(RlpIsTooShort) else
    var l := b[0];
    if l <= 0x7f then Ok([l])
    else if l <= 0xb7 then
      var last := 1 + l - 0x80;
      if |b| < last then Err(RlpInconsistentLengthAndData)
      else if l == 0x81 && b[1] < 0x80 then Err(RlpInvalidIndirection)
      else Ok(b[1..last])
    else if l <= 0xbf then
      var begin := 1 + l - 0xb7;
      if |b| < begin then Err(RlpInconsistentLengthAndData)
      else match DecodeUsize(b[1..begin])
        case Err(e) => Err(e)
        case Ok(len) =>
          if |b| >= begin + len then Ok(b[begin..begin + len])
          else if begin + len >= USIZE then Err(RlpInvalidLength)
          else Err(RlpInconsistentLengthAndData)
    else Err(RlpExpectedToBeData)
  }

  lemma ValueOfEncode(b: bytes)
    requires |b| < U32
    ensures DecodeValue(Encode(Data(b))) == Ok(b)
  {
    hide DecodeValue, BigEndian;
    if IsOwnEncoding(b) {
      OwnValue(b);
    } else if |b| <= 55 {
      ShortValue(b);
    } else {
      LongValue(b);
    }
  }

  lemma OwnValue(b: bytes)
    requires IsOwnEncoding(b)
    ensures DecodeValue(b) == Ok(b)
  {
    assert b == [b[0]];
  }

  lemma ShortValue(b: bytes)
    requires !IsOwnEncoding(b) && |b| <= 55
    ensures DecodeValue([STRING_OFFSET + |b|] + b) == Ok(b)
  {
    hide DecodeUsize;
    var e := [STRING_OFFSET + |b|] + b;
    assert e[1..] == b && e[1..1 + |b|] == b;
  }

  lemma LongValue(b: bytes)
    requires 55 < |b| < U32
    ensures DecodeValue(Header(STRING_OFFSET, |b|) + b) == Ok(b)
  {
    hide FromBigEndian, BigEndian, Pow256;
    var h := Header(STRING_OFFSET, |b|);
    var s := BigEndian(|b|);
    Pow256Values();
    BigEndianWidth(|b|, 4);
    FromOfBigEndian(|b|);
    assert |b| % U32 == |b| && h == [STRING_OFFSET + 55 + |s|] + s;
    var e := h + b;
    assert e[1..1 + |s|] == s;
    assert e[1 + |s|..1 + |s| + |b|] == b;
  }

  /** Recursive decoding with the plain reader. Iteration over a list ends silently at the first
      item that cannot be read. */
  function DecodeTree(b: bytes): Result<Item>
    decreases |b|, 0
  {
    match KindOf(b)
    case PanicKind => Err(Panicked)
    case NullKind => Ok(Null)
    case DataKind => (match DecodeValue(b) case Ok(v) => Ok(Data(v)) case Err(e) => Err(e))
    case ListKind =>
      match ListInfo(b)
      case Err(_) => Ok(List([]))
      case Ok(_) => (match DecodeItems(Payload(b)) case Ok(ts) => Ok(List(ts)) case Err(e) => Err(e))
  }

  function DecodeItems(p: bytes): Result<seq<Item>>
    decreases |p|, 1
  {
    match InfoOf(p)
    case Err(e) => if e == Panicked then Err(Panicked) else Ok([])
    case Ok(info) =>
      match DecodeTree(p[..info.Total()])
      case Err(e) => Err(e)
      case Ok(t) =>
        match DecodeItems(p[info.Total()..])
        case Err(e) => Err(e)
        case Ok(ts) => Ok([t] + ts)
  }

  lemma {:induction false} ItemsOfEncode(ts: seq<Item>)
    requires AllFit(ts)
    ensures DecodeItems(EncodeAll(ts)) == Ok(ts)
    decreases ts, 1
  {
    hide InfoOf, Encode, EncodeAll, Fits, DecodeTree;
    EmptyFacts();
    if ts != [] {
      var b := EncodeAll(ts);
      EncodeAllFirst(ts);
      InfoOfEncode(ts[0], EncodeAll(ts[1..]));
      TreeOfEncode(ts[0]);
      ItemsOfEncode(ts[1..]);
      var k := |Encode(ts[0])|;
      assert b[..k] == Encode(ts[0]) && b[k..] == EncodeAll(ts[1..]);
      assert [ts[0]] + ts[1..] == ts;
    }
  }

  /** The reader undoes the writer: every tree decodes back to itself. */
  lemma {:induction false} TreeOfEncode(t: Item)
    requires Fits(t)
    ensures DecodeTree(Encode(t)) == Ok(t)
    decreases t, 0
  {
    hide Encode, EncodeAll, InfoOf, ListInfo, KindOf, DecodeValue, DecodeItems;
    KindOfEncode(t);
    match t
    case Null =>
    case Data(b) => ValueOfEncode(b);
    case List(ts) =>
      AtOfEncode(ts, 0);
      ItemsOfEncode(ts);
  }

  /** Different trees have different encodings. */
  lemma EncodeInjective(a: Item, b: Item)
    requires Fits(a) && Fits(b) && Encode(a) == Encode(b)
    ensures a == b
  {
    hide Encode, DecodeTree;
    TreeOfEncode(a);
    TreeOfEncode(b);
  }

  /** A concatenation of encodings splits in one way only. */
  lemma SplitUnique(a: seq<Item>, b: seq<Item>)
    requires AllFit(a) && AllFit(b) && EncodeAll(a) == EncodeAll(b)
    ensures a == b
  {
    hide EncodeAll, DecodeItems;
    ItemsOfEncode(a);
    ItemsOfEncode(b);
  }

  // ------------------------------------------------------------------ item count

  /** `item_count`: how many items iteration yields. */
  function ItemCount(b: bytes): Result<nat> {
    match KindOf(b)
    case PanicKind => Err(Panicked)
    case ListKind =>
      (match ListInfo(b)
       case Err(_) => Ok(0)
       case Ok(_) => if InfoOf(Unread(Payload(b))) == Err(Panicked) then Err(Panicked) else Ok(Readable(Payload(b))))
    case _ => Err(RlpExpectedToBeList)
  }

  /** What iterating a view reads. The first item comes from the payload, unless the view remembers
      the start of the list; every later one comes from all bytes after the header. */
  function Region(b: bytes, cache: Option<OffsetCache>): bytes {
    if ListInfo(b).Err? then []
    else if InfoOf(Payload(b)).Ok? || (cache.Some? && cache.value.index == 0) then b[ListInfo(b).value.headerLen..]
    else Payload(b)
  }

  /** `item_count` of a view that has not counted yet: how many items iteration yields. */
  function CountedItems(b: bytes, cache: Option<OffsetCache>): Result<nat> {
    match KindOf(b)
    case PanicKind => Err(Panicked)
    case ListKind =>
      var region := Region(b, cache);
      if InfoOf(Unread(region)) == Err(Panicked) then Err(Panicked) else Ok(Readable(region))
    case _ => Err(RlpExpectedToBeList)
  }

  lemma {:induction false} ReadableOfEncode(ts: seq<Item>)
    requires AllFit(ts)
    ensures Readable(EncodeAll(ts)) == |ts| && Unread(EncodeAll(ts)) == []
    decreases |ts|
  {
    hide InfoOf, Encode, EncodeAll, Fits;
    EmptyFacts();
    if ts != [] {
      EncodeAllFirst(ts);
      InfoOfEncode(ts[0], EncodeAll(ts[1..]));
      ReadableOfEncode(ts[1..]);
      var k := |Encode(ts[0])|;
      assert EncodeAll(ts)[k..] == EncodeAll(ts[1..]);
    }
  }

  lemma CountOfEncode(ts: seq<Item>)
    requires Fits(List(ts))
    ensures ItemCount(Encode(List(ts))) == Ok(|ts|)
  {
    hide Encode, EncodeAll, InfoOf, ListInfo, KindOf, Readable, Unread;
    KindOfEncode(List(ts));
    AtOfEncode(ts, 0);
    ReadableOfEncode(ts);
    EmptyFacts();
  }

  // -------------------------------------------------------------------- the view

  lemma {:induction false} SkipAtLeast(b: bytes, n: nat)
    requires Skip(b, n).Ok?
    ensures n <= Skip(b, n).value
    decreases n
  {
    hide InfoOf;
    if n > 0 { SkipAtLeast(b[InfoOf(b).value.Total()..], n - 1); }
  }

  lemma SkipNext(b: bytes, n: nat)
    requires Skip(b, n).Ok?
    ensures var rest := b[Skip(b, n).value..];
      match InfoOf(rest)
      case Err(e) => forall m :: m > n ==> Skip(b, m) == Err(e)
      case Ok(info) => Skip(b, n + 1) == Ok(Skip(b, n).value + info.Total())
  {
    hide InfoOf;
    var rest := b[Skip(b, n).value..];
    if InfoOf(rest).Err? {
      forall m | m > n ensures Skip(b, m) == Err(InfoOf(rest).error) {
        SkipSum(b, n, m - n);
      }
    } else {
      SkipOne(rest);
      SkipSum(b, n, 1);
    }
  }

  /** Drops `n` items from the front, one header at a time. */
  method ConsumeItems(b: bytes, n: nat) returns (r: Result<(bytes, nat)>)
    ensures match Skip(b, n)
      case Err(e) => r == Err(e)
      case Ok(c) => r == Ok((b[c..], c))
  {
    hide InfoOf;
    var result := b;
    var consumed := 0;
    for k := 0 to n
      invariant consumed <= |b| && result == b[consumed..]
      invariant Skip(b, k) == Ok(consumed)
    {
      SkipNext(b, k);
      var info := InfoOf(result);
      if info.Err? { return Err(info.error); }
      var toConsume := info.value.Total();
      result := result[toConsume..];
      consumed := consumed + toConsume;
    }
    return Ok((result, consumed));
  }

  /** A view of encoded bytes. Reading a list remembers where the last item started, and counting
      it remembers the count. */
  class Rlp {
    const raw: bytes
    var offsetCache: Option<OffsetCache>
    var countCache: Option<nat>

    /** The bytes after a list never change what is read from it. */
    ghost predicate Sound() { ListInfo(raw).Ok? ==> TrailingHarmless(raw) }

    ghost predicate Valid()
      reads this
    {
      && CacheOk(raw, offsetCache)
      && (countCache.Some? && Sound() ==> ItemCount(raw) == Ok(countCache.value))
    }

    constructor (b: bytes)
      ensures Valid() && raw == b && offsetCache == None && countCache == None
    {
      raw := b;
      offsetCache := None;
      countCache := None;
    }

    /** The i-th item. Where the bytes after the list are harmless, and so whenever the view is
        exactly one item, the answer is the plain reader's whatever was read before. */
    method At(i: nat) returns (r: Result<bytes>)
      requires Valid()
      modifies this`offsetCache
      ensures Valid()
      ensures (r, offsetCache) == CachedAt(raw, old(offsetCache), i)
      ensures Sound() ==> r == FreshAt(raw, i)
    {
      hide InfoOf, Skip, ItemCount;
      CachedLookup(raw, offsetCache, i);
      if ListInfo(raw).Ok? && TrailingHarmless(raw) { FullIsFresh(raw, i); }
      var kind := KindOf(raw);
      if kind == PanicKind { return Err(Panicked); }
      if kind != ListKind { return Err(RlpExpectedToBeList); }
      var scan := ScanFrom(raw, offsetCache, i);
      if scan.Err? { return Err(scan.error); }
      var (start, region, skip) := scan.value;
      var consumed := ConsumeItems(region, skip);
      if consumed.Err? { return Err(consumed.error); }
      var (rest, c) := consumed.value;
      offsetCache := Some(OffsetCache(i, start + c));
      r := FirstItem(rest);
    }

    /** The number of items, by reading them all the first time: exactly those of the region that
        iteration reads, and afterwards the view remembers the end. Where the bytes after the list
        are harmless it is the number of items of the list. */
    method Count() returns (r: Result<nat>)
      requires Valid()
      modifies this
      ensures Valid() && (Sound() ==> r == ItemCount(raw))
      ensures old(countCache).None? ==> r == CountedItems(raw, old(offsetCache))
      ensures old(countCache).None? && ListInfo(raw).Ok? ==>
        (r == ItemCount(raw) <==> CountAgrees(raw, old(offsetCache)))
      ensures old(countCache).Some? && KindOf(raw) == ListKind ==>
        r == Ok(old(countCache.value)) && offsetCache == old(offsetCache)
      ensures old(countCache).None? && r.Ok? && ListInfo(raw).Ok? ==>
        offsetCache.Some? && offsetCache.value.index == r.value
    {
      hide InfoOf, Skip, Read, Readable, Unread, TrailingHarmless, CacheOk, CachedAt, Region, CountAgrees;
      var kind := KindOf(raw);
      if kind == PanicKind { return Err(Panicked); }
      if kind != ListKind { return Err(RlpExpectedToBeList); }
      if countCache.Some? { return Ok(countCache.value); }
      ghost var start := offsetCache;
      ghost var region := Region(raw, start);
      if Sound() { SoundCount(raw, start); }
      if ListInfo(raw).Ok? { CountAgreesIff(raw, start); }
      var i := 0;
      while true
        invariant Valid() && countCache == None && IterAt(raw, start, offsetCache, i)
        decreases |region| + 1 - i
      {
        IterNext(raw, start, offsetCache, i);
        var item := At(i);
        if item == Err(Panicked) { return Err(Panicked); }
        if item.Err? { break; }
        i := i + 1;
      }
      countCache := Some(i);
      return Ok(i);
    }
  }

  // -------------------------------------------------------------------- iteration

  /** Iteration that began with the cache `start` has read `i` items and now holds `cache`. */
  ghost predicate IterAt(b: bytes, start: Option<OffsetCache>, cache: Option<OffsetCache>, i: nat) {
    && i <= Readable(Region(b, start))
    && (if i == 0 then cache == start else ListInfo(b).Ok? && cache.Some? && cache.value.index == i - 1)
  }

  /** The next lookup of an iteration reads the next item of its region, and ends where that ends. */
  lemma IterNext(b: bytes, start: Option<OffsetCache>, cache: Option<OffsetCache>, i: nat)
    requires KindOf(b) == ListKind && CacheOk(b, cache) && IterAt(b, start, cache, i)
    ensures var region := Region(b, start);
      var (item, cache') := CachedAt(b, cache, i);
      && (item.Ok? <==> i < Readable(region)) && (item.Ok? ==> item == Read(region, i) && i <= |region|)
      && (item == Err(Panicked) <==> i == Readable(region) && InfoOf(Unread(region)) == Err(Panicked))
      && (item.Ok? ==> IterAt(b, start, cache', i + 1))
      && (ListInfo(b).Ok? ==> cache'.Some? && cache'.value.index == i)
  {
    hide InfoOf, Skip, Read, Readable, Unread, CachedAt;
    var region := Region(b, start);
    CachedLookup(b, cache, i);
    ListDoesNotPanic(b);
    NothingToRead();
    ReadBeyond(region, [], i);
    assert region + [] == region;
    if ListInfo(b).Ok? {
      IterRegion(b, start, cache, i);
      SkipReadable(ScanRegion(b, cache, i), i);
    }
    if Read(region, i).Ok? { ReadWithin(region, i); }
  }

  lemma NothingToRead()
    ensures Readable([]) == 0 && Unread([]) == [] && InfoOf([]) == Err(RlpIsTooShort)
  {
  }

  /** The lookup agrees with the region, and the region has at least `i` items before it. */
  lemma IterRegion(b: bytes, start: Option<OffsetCache>, cache: Option<OffsetCache>, i: nat)
    requires ListInfo(b).Ok? && IterAt(b, start, cache, i)
    ensures Read(ScanRegion(b, cache, i), i) == Read(Region(b, start), i) && i <= Readable(ScanRegion(b, cache, i))
  {
    hide InfoOf, Skip, Read;
    var info := ListInfo(b).value;
    assert b[info.headerLen..] == Payload(b) + b[info.Total()..];
    if i == 0 && InfoOf(Payload(b)).Ok? {
      ReadBeyond(Payload(b), b[info.Total()..], 0);
    }
  }

  lemma {:induction false} SkipReadable(b: bytes, i: nat)
    requires i <= Readable(b)
    ensures Skip(b, i).Ok?
    decreases i
  {
    hide InfoOf;
    if i > 0 { SkipReadable(b[InfoOf(b).value.Total()..], i - 1); }
  }

  /** Bytes that do not complete the first unreadable item add nothing. */
  lemma {:induction false} ReadableBeyond(p: bytes, tail: bytes)
    requires InfoOf(Unread(p) + tail).Err?
    ensures Readable(p + tail) == Readable(p) && Unread(p + tail) == Unread(p) + tail
    decreases |p|
  {
    hide InfoOf;
    if InfoOf(p).Ok? {
      var k := InfoOf(p).value.Total();
      InfoExtends(p, tail);
      assert (p + tail)[k..] == p[k..] + tail;
      ReadableBeyond(p[k..], tail);
    }
  }

  /** The bytes after a list. */
  function Tail(b: bytes): bytes
    requires ListInfo(b).Ok?
  {
    b[ListInfo(b).value.Total()..]
  }

  predicate Panics(b: bytes) { InfoOf(Unread(b)) == Err(Panicked) }

  /** When the count of a view is the number of items of the list: iteration stays in the payload, or
      both readings end in a panic, or neither does and the bytes after the list complete no item. */
  predicate CountAgrees(b: bytes, cache: Option<OffsetCache>)
    requires ListInfo(b).Ok?
  {
    var p := Payload(b);
    || (InfoOf(p).Err? && !(cache.Some? && cache.value.index == 0))
    || (Panics(p) && Panics(p + Tail(b)))
    || (!Panics(p) && !Panics(p + Tail(b)) && InfoOf(Unread(p) + Tail(b)).Err?)
  }

  lemma {:induction false} ReadableGrows(p: bytes, tail: bytes)
    ensures Readable(p) <= Readable(p + tail)
    ensures InfoOf(Unread(p) + tail).Ok? ==> Readable(p) < Readable(p + tail)
    decreases |p|
  {
    hide InfoOf;
    if InfoOf(p).Ok? {
      var k := InfoOf(p).value.Total();
      InfoExtends(p, tail);
      assert (p + tail)[k..] == p[k..] + tail;
      ReadableGrows(p[k..], tail);
    }
  }

  lemma CountAgreesIff(b: bytes, cache: Option<OffsetCache>)
    requires ListInfo(b).Ok?
    ensures CountedItems(b, cache) == ItemCount(b) <==> CountAgrees(b, cache)
  {
    hide InfoOf, Readable, Unread;
    var p, tail := Payload(b), Tail(b);
    assert b[ListInfo(b).value.headerLen..] == p + tail;
    UnreadIsUnread(p);
    ReadableGrows(p, tail);
    if InfoOf(Unread(p) + tail).Err? { ReadableBeyond(p, tail); }
  }

  lemma SoundCount(b: bytes, start: Option<OffsetCache>)
    requires KindOf(b) == ListKind && (ListInfo(b).Ok? ==> TrailingHarmless(b))
    ensures CountedItems(b, start) == ItemCount(b)
  {
    hide InfoOf, Readable, Unread;
    NothingToRead();
    if ListInfo(b).Ok? {
      var info := ListInfo(b).value;
      var p, tail := Payload(b), b[info.Total()..];
      assert b[info.headerLen..] == p + tail;
      UnreadIsUnread(p);
      ReadableBeyond(p, tail);
    }
  }

  /** Only indexes below the number of bytes can be read. */
  lemma AtWithin(b: bytes, cache: Option<OffsetCache>, i: nat)
    requires CacheOk(b, cache)
    ensures CachedAt(b, cache, i).0.Ok? ==> i < |b|
  {
    hide InfoOf, Skip, CachedAt, Read;
    CachedLookup(b, cache, i);
    if CachedAt(b, cache, i).0.Ok? {
      var info := ListInfo(b).value;
      if cache.Some? && cache.value.index <= i {
        ReadWithin(b[info.headerLen..], i);
      } else {
        ReadWithin(Payload(b), i);
      }
    }
  }

  lemma ListDoesNotPanic(b: bytes)
    requires KindOf(b) == ListKind
    ensures InfoOf(b) != Err(Panicked)
  {
  }

  lemma ReadWithin(p: bytes, i: nat)
    requires Read(p, i).Ok?
    ensures i <= |p|
  {
    hide InfoOf;
    SkipAtLeast(p, i);
  }

  // ------------------------------------------- recursive decoding through views

  /** What iteration hands out is exactly one item, so reading it is never disturbed. */
  lemma SliceExact(b: bytes)
    requires InfoOf(b).Ok?
    ensures var slice := b[..InfoOf(b).value.Total()]; ListInfo(slice).Ok? ==> TrailingHarmless(slice)
  {
    hide PayloadInfoFrom, Unread;
    InfoTruncates(b);
    var slice := b[..InfoOf(b).value.Total()];
    if ListInfo(slice).Ok? {
      var rest := Unread(Payload(slice));
      assert rest + slice[|slice|..] == rest;
    }
  }

  /** `whole` is the outcome for a payload of which `acc` was decoded and `rest` remains. */
  ghost predicate Continues(whole: Result<seq<Item>>, acc: seq<Item>, rest: Result<seq<Item>>) {
    match rest
    case Ok(ts) => whole == Ok(acc + ts)
    case Err(e) => whole == Err(e)
  }

  /** One item further. */
  lemma DecodeNext(p: bytes, i: nat, c: nat, acc: seq<Item>)
    requires Skip(p, i) == Ok(c) && Continues(DecodeItems(p), acc, DecodeItems(p[c..]))
    ensures match Read(p, i)
      case Err(e) => DecodeItems(p) == if e == Panicked then Err(Panicked) else Ok(acc)
      case Ok(slice) =>
        && Skip(p, i + 1) == Ok(c + |slice|)
        && (ListInfo(slice).Ok? ==> TrailingHarmless(slice)) && |slice| <= |p|
        && (match DecodeTree(slice)
            case Err(e) => DecodeItems(p) == Err(e)
            case Ok(t) => Continues(DecodeItems(p), acc + [t], DecodeItems(p[c + |slice|..])))
  {
    hide InfoOf, DecodeTree, Skip, ListInfo, TrailingHarmless;
    SkipNext(p, i);
    var rest := p[c..];
    if InfoOf(rest).Ok? {
      SliceExact(rest);
      var k := InfoOf(rest).value.Total();
      assert rest[k..] == p[c + k..];
      if DecodeTree(rest[..k]).Ok? && DecodeItems(rest[k..]).Ok? {
        var t, ts := DecodeTree(rest[..k]).value, DecodeItems(rest[k..]).value;
        assert acc + ([t] + ts) == (acc + [t]) + ts;
      }
    } else {
      assert acc + [] == acc;
    }
  }

  /** What recursive decoding through views returns: the children of the region that iteration reads.
      They are whole items, so further down there is no difference to the plain reader. */
  function IteratedTree(b: bytes): Result<Item> {
    if KindOf(b) != ListKind then DecodeTree(b)
    else match DecodeItems(Region(b, None)) case Ok(ts) => Ok(List(ts)) case Err(e) => Err(e)
  }

  lemma {:induction false} ItemsBeyond(p: bytes, tail: bytes)
    requires InfoOf(Unread(p) + tail) == InfoOf(Unread(p)) && InfoOf(Unread(p)).Err?
    ensures DecodeItems(p + tail) == DecodeItems(p)
    decreases |p|
  {
    hide InfoOf, DecodeTree;
    if InfoOf(p).Ok? {
      var k := InfoOf(p).value.Total();
      InfoExtends(p, tail);
      assert (p + tail)[k..] == p[k..] + tail && (p + tail)[..k] == p[..k];
      ItemsBeyond(p[k..], tail);
    }
  }

  lemma IteratedIsPlain(b: bytes)
    requires ListInfo(b).Ok? ==> TrailingHarmless(b)
    ensures IteratedTree(b) == DecodeTree(b)
  {
    hide InfoOf, Unread, DecodeItems;
    assert DecodeItems([]) == Ok([]) by { EmptyItems(); }
    if KindOf(b) == ListKind && ListInfo(b).Ok? {
      var info := ListInfo(b).value;
      assert b[info.headerLen..] == Payload(b) + b[info.Total()..];
      UnreadIsUnread(Payload(b));
      ItemsBeyond(Payload(b), b[info.Total()..]);
    }
  }

  /** Some item before the end does not decode. */
  predicate ChildFails(p: bytes)
    decreases |p|
  {
    match InfoOf(p)
    case Err(_) => false
    case Ok(info) => DecodeTree(p[..info.Total()]).Err? || ChildFails(p[info.Total()..])
  }

  lemma {:induction false} ItemsSplit(p: bytes, tail: bytes)
    ensures ChildFails(p) ==> DecodeItems(p + tail) == DecodeItems(p)
    ensures !ChildFails(p) ==>
      (DecodeItems(p + tail) == DecodeItems(p) <==> DecodeItems(Unread(p) + tail) == DecodeItems(Unread(p)))
    decreases |p|
  {
    hide InfoOf, DecodeTree;
    if InfoOf(p).Ok? {
      var k := InfoOf(p).value.Total();
      InfoExtends(p, tail);
      assert (p + tail)[k..] == p[k..] + tail && (p + tail)[..k] == p[..k];
      ItemsSplit(p[k..], tail);
      if DecodeTree(p[..k]).Ok? {
        PrependSame(DecodeTree(p[..k]).value, DecodeItems(p[k..] + tail), DecodeItems(p[k..]));
      }
    }
  }

  lemma PrependSame(t: Item, a: Result<seq<Item>>, b: Result<seq<Item>>)
    ensures a.Ok? && b.Ok? && [t] + a.value == [t] + b.value ==> a == b
  {
    if a.Ok? && b.Ok? && [t] + a.value == [t] + b.value {
      assert ([t] + a.value)[1..] == a.value && ([t] + b.value)[1..] == b.value;
    }
  }

  /** When decoding through views gives the plain reader's tree: iteration stays in the payload, or an
      item in it does not decode, or what follows the list decodes to no further items. */
  lemma TreeAgreesIff(b: bytes)
    requires KindOf(b) == ListKind && ListInfo(b).Ok?
    ensures IteratedTree(b) == DecodeTree(b) <==>
      var p := Payload(b);
      InfoOf(p).Err? || ChildFails(p) || DecodeItems(Unread(p) + Tail(b)) == DecodeItems(Unread(p))
  {
    hide InfoOf, Unread, DecodeItems, ChildFails;
    assert b[ListInfo(b).value.headerLen..] == Payload(b) + Tail(b);
    ItemsSplit(Payload(b), Tail(b));
  }

  lemma EmptyItems()
    ensures DecodeItems([]) == Ok([])
  {
  }

  /** Recursive decoding through caching views: on all bytes what iteration yields, and the plain
      reader's tree wherever the bytes after the list are harmless. */
  method ReadTree(b: bytes) returns (r: Result<Item>)
    ensures r == IteratedTree(b)
    ensures (ListInfo(b).Ok? ==> TrailingHarmless(b)) ==> r == DecodeTree(b)
    decreases |b|
  {
    hide InfoOf, Skip, DecodeItems, TrailingHarmless, CachedAt, CacheOk, Read, DecodeValue, Region, Readable, ListInfo;
    if ListInfo(b).Ok? ==> TrailingHarmless(b) { IteratedIsPlain(b); }
    match KindOf(b) {
      case PanicKind => return Err(Panicked);
      case NullKind => return Ok(Null);
      case DataKind =>
        var v := DecodeValue(b);
        return if v.Ok? then Ok(Data(v.value)) else Err(v.error);
      case ListKind =>
    }
    ghost var p := Region(b, None);
    RegionShorter(b);
    var view := new Rlp(b);
    var acc: seq<Item> := [];
    var i := 0;
    ghost var c := 0;
    assert p[0..] == p;
    DecodeStart(p);
    while true
      invariant view.Valid() && view.raw == b && IterAt(b, None, view.offsetCache, i)
      invariant Skip(p, i) == Ok(c) && Continues(DecodeItems(p), acc, DecodeItems(p[c..]))
      decreases |p| + 1 - i
    {
      IterNext(b, None, view.offsetCache, i);
      DecodeNext(p, i, c, acc);
      ReadBeyond(p, [], i);
      var item := view.At(i);
      if item == Err(Panicked) { return Err(Panicked); }
      if item.Err? { return Ok(List(acc)); }
      var child := ReadTree(item.value);
      if child.Err? { return Err(child.error); }
      acc := acc + [child.value];
      c := c + |item.value|;
      i := i + 1;
    }
  }

  lemma RegionShorter(b: bytes)
    requires KindOf(b) == ListKind
    ensures |Region(b, None)| < |b|
  {
    hide InfoOf;
  }

  lemma DecodeStart(p: bytes)
    ensures Skip(p, 0) == Ok(0) && Continues(DecodeItems(p), [], DecodeItems(p[0..]))
  {
    hide DecodeItems;
    assert p[0..] == p;
    if DecodeItems(p).Ok? { assert [] + DecodeItems(p).value == DecodeItems(p).value; }
  }

  /** A one-item list followed by one more item: iterating a view yields both, and the count is two. */
  lemma TrailingByteJoins(x: byte, y: byte)
    requires x < 0x80 && y < 0x80
    ensures var b := [0xc1, x, y];
      && ItemCount(b) == Ok(1) && CountedItems(b, None) == Ok(2)
      && ListInfo(b).Ok? && FreshAt(b, 0) == Ok([x]) && FullAt(b, 1) == Ok([y])
      && DecodeTree(b) == Ok(List([Data([x])])) && IteratedTree(b) == Ok(List([Data([x]), Data([y])]))
  {
    hide InfoOf, DecodeValue;
    var b: bytes := [0xc1, x, y];
    var p: bytes, q: bytes := [x], [x, y];
    InfoOfPair(b);
    assert KindOf(b) == ListKind && Payload(b) == p && b[1..] == q;
    OneItem(x, []);
    OneItem(x, [y]);
    OneItem(y, []);
    assert p == [x] + [] && q == [x] + [y] && [y] == [y] + [];
    NothingToRead();
    EmptyItems();
    SkipOne(q);
    assert q[1..] == [y];
    assert [Data([x])] + [] == [Data([x])] && [Data([y])] + [] == [Data([y])];
    assert [Data([x])] + [Data([y])] == [Data([x]), Data([y])];
    assert DecodeItems(p) == Ok([Data([x])]) && DecodeItems(q) == Ok([Data([x]), Data([y])]);
  }

  lemma OneItem(x: byte, rest: bytes)
    requires x < 0x80
    ensures var p := [x] + rest;
      && InfoOf(p) == Ok(PayloadInfo(0, 1)) && Readable(p) == 1 + Readable(rest) && Unread(p) == Unread(rest)
      && Read(p, 0) == Ok([x])
      && DecodeItems(p) == match DecodeItems(rest) case Ok(ts) => Ok([Data([x])] + ts) case Err(e) => Err(e)
  {
    hide InfoOf, DecodeValue;
    var p := [x] + rest;
    InfoOfSmall(p);
    assert p[1..] == rest && p[..1] == [x];
    OwnValue([x]);
    assert KindOf([x]) == DataKind;
    ReadFirst(p);
  }

  // ------------------------------------------------------------ errors at the end

  /** Only a header that is cut off reads differently with more bytes after it. */
  lemma StableError(u: bytes, tail: bytes)
    requires InfoOf(u).Err? && InfoOf(u + tail) != InfoOf(u)
    ensures InfoOf(u) == Err(RlpIsTooShort) || InfoOf(u) == Err(Panicked)
  {
    hide DecodeUsize;
    var w := u + tail;
    if u != [] {
      assert w[0] == u[0] && (|u| > 1 ==> w[1] == u[1]);
      var n: nat := if 0xb8 <= u[0] <= 0xbf then u[0] - 0xb7 else if 0xf8 <= u[0] then u[0] - 0xf7 else 0;
      if 1 + n <= |u| { assert w[1..1 + n] == u[1..1 + n]; }
    }
  }

  /** A whole item that is no string says so; it is never too short. */
  lemma ItemValueError(b: bytes)
    requires InfoOf(b).Ok?
    ensures var v := DecodeValue(b[..InfoOf(b).value.Total()]);
      v.Err? ==> v == Err(RlpInvalidIndirection) || v == Err(RlpExpectedToBeData)
  {
    hide DecodeUsize;
    var k := InfoOf(b).value.Total();
    var item := b[..k];
    assert item[0] == b[0];
    if 0xb8 <= b[0] <= 0xbf {
      var n := b[0] - 0xb7;
      assert item[1..1 + n] == b[1..1 + n];
    }
  }

  // ------------------------------------------------------- items behind a list

  /** An encoded list with more items behind it. */
  function Followed(ts: seq<Item>, us: seq<Item>): bytes { Encode(List(ts)) + EncodeAll(us) }

  lemma BehindLayout(ts: seq<Item>, us: seq<Item>)
    requires Fits(List(ts)) && AllFit(us)
    ensures KindOf(Followed(ts, us)) == ListKind && ListInfo(Followed(ts, us)).Ok?
    ensures Payload(Followed(ts, us)) == EncodeAll(ts) && Tail(Followed(ts, us)) == EncodeAll(us)
    ensures Followed(ts, us)[ListInfo(Followed(ts, us)).value.headerLen..] == EncodeAll(ts + us)
  {
    hide Encode, EncodeAll, Fits, InfoOf, Header;
    var list, more := Encode(List(ts)), EncodeAll(us);
    var b := Followed(ts, us);
    KindOfEncode(List(ts));
    InfoOfEncode(List(ts), more);
    KindOfMore(list, more);
    var info := ListInfo(b).value;
    ListLayout(ts);
    assert b[info.headerLen..info.Total()] == EncodeAll(ts) && b[info.Total()..] == more;
    EncodeAllConcat(ts, us);
    assert b[info.headerLen..] == EncodeAll(ts) + more;
  }

  /** A lookup in the payload sees the list's items, one past it all of them. */
  lemma BehindItem(ts: seq<Item>, us: seq<Item>, i: nat)
    requires Fits(List(ts)) && AllFit(us)
    ensures FreshAt(Followed(ts, us), i) == if i < |ts| then Ok(Encode(ts[i])) else Err(RlpIsTooShort)
    ensures ListInfo(Followed(ts, us)).Ok?
    ensures FullAt(Followed(ts, us), i) == if i < |ts + us| then Ok(Encode((ts + us)[i])) else Err(RlpIsTooShort)
  {
    hide Encode, EncodeAll, Fits, Read, ListInfo, Followed;
    BehindLayout(ts, us);
    AllFitTogether(ts, us);
    ReadOfEncode(ts, i);
    ReadOfEncode(ts + us, i);
  }

  lemma BehindCount(ts: seq<Item>, us: seq<Item>)
    requires Fits(List(ts)) && AllFit(us)
    ensures ItemCount(Followed(ts, us)) == Ok(|ts|)
    ensures CountedItems(Followed(ts, us), None) == Ok(if ts == [] then 0 else |ts + us|)
  {
    hide Encode, EncodeAll, Fits, ListInfo, Followed, InfoOf, Readable, Unread, KindOf;
    BehindLayout(ts, us);
    AllFitTogether(ts, us);
    ReadableOfEncode(ts);
    ReadableOfEncode(ts + us);
    EmptyFacts();
    if ts != [] { FirstOfEncode(ts); }
  }

  lemma KindOfMore(b: bytes, tail: bytes)
    requires KindOf(b) == ListKind
    ensures KindOf(b + tail) == ListKind
  {
    assert (b + tail)[0] == b[0] && (|b| > 1 ==> (b + tail)[1] == b[1]);
  }

  lemma ListLayout(ts: seq<Item>)
    ensures var h := Header(LIST_OFFSET, |EncodeAll(ts)|); Encode(List(ts)) == h + EncodeAll(ts)
  {
  }

  lemma AllFitTogether(ts: seq<Item>, us: seq<Item>)
    requires Fits(List(ts)) && AllFit(us)
    ensures AllFit(ts) && AllFit(ts + us)
  {
  }

  lemma FirstOfEncode(ts: seq<Item>)
    requires ts != [] && AllFit(ts)
    ensures InfoOf(EncodeAll(ts)).Ok?
  {
    hide Encode, EncodeAll, InfoOf;
    EncodeAllFirst(ts);
    InfoOfEncode(ts[0], EncodeAll(ts[1..]));
  }
}
