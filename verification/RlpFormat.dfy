/**
 The wire format: Recursive Length Prefix (Appendix B of the Ethereum Yellow Paper) with a
 null item, `f8 00`. `Encode` is the format the stream writer produces for every tree: it
 keeps only 32 bits of a length. `Yellow` is the format of the Yellow Paper.
 */
module RlpFormat {
  import opened Bytes

  datatype Item = Null | Data(data: bytes) | List(items: seq<Item>)

  const STRING_OFFSET: byte := 0x80
  const LIST_OFFSET: byte := 0xc0
  const U32: nat := 0x1_0000_0000

  /** Length prefix: one byte up to 55, else the length of the length and the length, cut to 32 bits. */
  function Header(offset: byte, n: nat): (h: bytes)
    requires offset == STRING_OFFSET || offset == LIST_OFFSET
    ensures 1 <= |h| <= 5
  {
    if n <= 55 then [offset + n]
    else
      var s := BigEndian(n % U32);
      assert |s| <= 4 by { Pow256Values(); BigEndianWidth(n % U32, 4); }
      [offset + 55 + |s|] + s
  }

  predicate IsOwnEncoding(b: bytes) { |b| == 1 && b[0] < 0x80 }

  function EncodeData(b: bytes): (e: bytes)
    ensures e != []
  {
    if IsOwnEncoding(b) then b else Header(STRING_OFFSET, |b|) + b
  }

  const NULL_RLP: bytes := [0xf8, 0x00]

  function Encode(t: Item): (e: bytes)
    ensures e != []
    decreases t, 0
  {
    match t
    case Null => NULL_RLP
    case Data(b) => EncodeData(b)
    case List(ts) => Header(LIST_OFFSET, |EncodeAll(ts)|) + EncodeAll(ts)
  }

  /** A list payload: the encodings of the items one after the other. */
  function EncodeAll(ts: seq<Item>): bytes
    decreases ts, 1
  {
    if ts == [] then [] else EncodeAll(ts[..|ts| - 1]) + Encode(ts[|ts| - 1])
  }

  /** Every payload in the tree is shorter than 2^32 bytes. */
  ghost predicate Fits(t: Item)
    decreases t
  {
    match t
    case Null => true
    case Data(b) => |b| < U32
    case List(ts) => (forall x :: x in ts ==> Fits(x)) && |EncodeAll(ts)| < U32
  }

  // ------------------------------------------------- the Yellow Paper's format

  function YellowHeader(offset: int, n: nat): (h: seq<int>)
    ensures h != []
  {
    if n <= 55 then [offset + n] else [offset + 55 + |BigEndian(n)|] + BigEndian(n)
  }

  function Yellow(t: Item): (e: seq<int>)
    ensures e != []
    decreases t, 0
  {
    match t
    case Null => NULL_RLP
    case Data(b) => if IsOwnEncoding(b) then b else YellowHeader(STRING_OFFSET, |b|) + b
    case List(ts) => YellowHeader(LIST_OFFSET, |YellowAll(ts)|) + YellowAll(ts)
  }

  function YellowAll(ts: seq<Item>): seq<int>
    decreases ts, 1
  {
    if ts == [] then [] else YellowAll(ts[..|ts| - 1]) + Yellow(ts[|ts| - 1])
  }

  lemma HeaderIsYellow(offset: byte, n: nat)
    requires offset == STRING_OFFSET || offset == LIST_OFFSET
    requires n < U32
    ensures Header(offset, n) == YellowHeader(offset, n)
  {
  }

  /** The cut length loses bytes: the header is shorter than the Yellow Paper's. */
  lemma HeaderIsShorter(offset: byte, m: nat, n: nat)
    requires offset == STRING_OFFSET || offset == LIST_OFFSET
    requires m <= n
    ensures |Header(offset, m)| <= |YellowHeader(offset, n)|
    ensures n >= U32 ==> |Header(offset, m)| < |YellowHeader(offset, n)|
  {
    Pow256Values();
    BigEndianWidth(n, 4);
    BigEndianMonotone(m % U32, n);
  }

  lemma {:induction false} EncodeIsShorter(t: Item)
    ensures |Encode(t)| <= |Yellow(t)|
    ensures |Encode(t)| == |Yellow(t)| ==> Encode(t) == Yellow(t) && Fits(t)
    decreases t, 0
  {
    match t
    case Null =>
    case Data(b) =>
      if !IsOwnEncoding(b) {
        HeaderIsShorter(STRING_OFFSET, |b|, |b|);
        if |b| < U32 { HeaderIsYellow(STRING_OFFSET, |b|); }
      }
    case List(ts) =>
      EncodeAllIsShorter(ts);
      var p, q := EncodeAll(ts), YellowAll(ts);
      HeaderIsShorter(LIST_OFFSET, |p|, |q|);
      if |Encode(t)| == |Yellow(t)| {
        assert |q| < U32;
        HeaderIsYellow(LIST_OFFSET, |p|);
      }
  }

  lemma {:induction false} EncodeAllIsShorter(ts: seq<Item>)
    ensures |EncodeAll(ts)| <= |YellowAll(ts)|
    ensures |EncodeAll(ts)| == |YellowAll(ts)| ==> EncodeAll(ts) == YellowAll(ts) && forall x :: x in ts ==> Fits(x)
    decreases ts, 1
  {
    if ts != [] {
      var front := ts[..|ts| - 1];
      EncodeAllIsShorter(front);
      EncodeIsShorter(ts[|ts| - 1]);
    }
  }

  lemma {:induction false} FitsIsYellow(t: Item)
    requires Fits(t)
    ensures Encode(t) == Yellow(t)
    decreases t, 0
  {
    match t
    case Null =>
    case Data(b) => if !IsOwnEncoding(b) { HeaderIsYellow(STRING_OFFSET, |b|); }
    case List(ts) =>
      AllFitIsYellow(ts);
      HeaderIsYellow(LIST_OFFSET, |EncodeAll(ts)|);
  }

  lemma {:induction false} AllFitIsYellow(ts: seq<Item>)
    requires forall x :: x in ts ==> Fits(x)
    ensures EncodeAll(ts) == YellowAll(ts)
    decreases ts, 1
  {
    if ts != [] {
      AllFitIsYellow(ts[..|ts| - 1]);
      FitsIsYellow(ts[|ts| - 1]);
    }
  }

  /** The writer's format is the Yellow Paper's (plus null) exactly when every payload is below 2^32 bytes. */
  lemma EncodeExact(t: Item)
    ensures Encode(t) == Yellow(t) <==> Fits(t)
  {
    EncodeIsShorter(t);
    if Fits(t) { FitsIsYellow(t); }
  }

  // ------------------------------------------------------------------ payloads

  lemma {:induction false} EncodeAllConcat(a: seq<Item>, b: seq<Item>)
    ensures EncodeAll(a + b) == EncodeAll(a) + EncodeAll(b)
    decreases |b|
  {
    if b == [] {
      assert a + b == a;
    } else {
      var front := b[..|b| - 1];
      EncodeAllConcat(a, front);
      assert (a + b)[..|a + b| - 1] == a + front;
    }
  }

  lemma EncodeAllOne(t: Item)
    ensures EncodeAll([t]) == Encode(t)
  {
    assert [t][..0] == [];
  }
}
