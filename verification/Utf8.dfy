/** Which bytes are text: the encodings of sequences of Unicode scalar values, and nothing else. */
module Utf8 {
  import opened Bytes
  import opened Messages

  predicate Scalar(c: nat) { c < 0xd800 || 0xe000 <= c < 0x11_0000 }

  function EncodeScalar(c: nat): (e: bytes)
    requires Scalar(c)
    ensures 1 <= |e| <= 4
  {
    if c < 0x80 then [c]
    else if c < 0x800 then [0xc0 + c / 0x40, 0x80 + c % 0x40]
    else if c < 0x1_0000 then [0xe0 + c / 0x1000, 0x80 + c / 0x40 % 0x40, 0x80 + c % 0x40]
    else [0xf0 + c / 0x4_0000, 0x80 + c / 0x1000 % 0x40, 0x80 + c / 0x40 % 0x40, 0x80 + c % 0x40]
  }

  predicate Text(cs: seq<nat>) { forall i :: 0 <= i < |cs| ==> Scalar(cs[i]) }

  function EncodeText(cs: seq<nat>): bytes
    requires Text(cs)
  {
    if cs == [] then [] else EncodeScalar(cs[0]) + EncodeText(cs[1..])
  }

  /** A scalar value's encoding is recognized, whatever follows. */
  lemma ScalarIsRead(c: nat, rest: bytes)
    requires Scalar(c)
    ensures SequenceLength(EncodeScalar(c) + rest) == |EncodeScalar(c)|
  {
  }

  /** What is recognized is the encoding of a scalar value. */
  lemma ReadIsScalar(s: bytes) returns (c: nat)
    requires s != [] && SequenceLength(s) > 0
    ensures Scalar(c) && s[..SequenceLength(s)] == EncodeScalar(c)
  {
    var n := SequenceLength(s);
    if n == 1 {
      c := s[0];
      assert s[..1] == [s[0]];
    } else if n == 2 {
      var a: nat, b: nat := s[0] - 0xc0, s[1] - 0x80;
      c := a * 0x40 + b;
      assert s[..2] == [s[0], s[1]];
    } else if n == 3 {
      c := ThreeBytes(s[0], s[1], s[2]);
      assert s[..3] == [s[0], s[1], s[2]];
    } else {
      c := FourBytes(s[0], s[1], s[2], s[3]);
      assert s[..4] == [s[0], s[1], s[2], s[3]];
    }
  }

  lemma ThreeBytes(x: byte, y: byte, z: byte) returns (c: nat)
    requires 0xe0 <= x <= 0xef && Continuation(y) && Continuation(z)
    requires (x == 0xe0 ==> y >= 0xa0) && (x == 0xed ==> y <= 0x9f)
    ensures Scalar(c) && 0x800 <= c < 0x1_0000 && EncodeScalar(c) == [x, y, z]
  {
    var a, b, d := x - 0xe0, y - 0x80, z - 0x80;
    c := a * 0x1000 + b * 0x40 + d;
    assert c / 0x40 == a * 0x40 + b && c % 0x40 == d && c / 0x1000 == a;
    assert (a * 0x40 + b) % 0x40 == b;
  }

  lemma FourBytes(x: byte, y: byte, z: byte, t: byte) returns (c: nat)
    requires 0xf0 <= x <= 0xf4 && Continuation(y) && Continuation(z) && Continuation(t)
    requires (x == 0xf0 ==> y >= 0x90) && (x == 0xf4 ==> y <= 0x8f)
    ensures Scalar(c) && 0x1_0000 <= c && EncodeScalar(c) == [x, y, z, t]
  {
    var a, b, d, e := x - 0xf0, y - 0x80, z - 0x80, t - 0x80;
    c := a * 0x4_0000 + b * 0x1000 + d * 0x40 + e;
    assert c / 0x40 == a * 0x1000 + b * 0x40 + d && c % 0x40 == e;
    assert c / 0x1000 == a * 0x40 + b && c / 0x4_0000 == a;
    assert (a * 0x1000 + b * 0x40 + d) % 0x40 == d && (a * 0x40 + b) % 0x40 == b;
  }

  lemma {:induction false} TextIsValid(cs: seq<nat>)
    requires Text(cs)
    ensures ValidUtf8(EncodeText(cs))
    decreases |cs|
  {
    hide SequenceLength, EncodeScalar;
    if cs != [] {
      var e, rest := EncodeScalar(cs[0]), EncodeText(cs[1..]);
      ScalarIsRead(cs[0], rest);
      TextIsValid(cs[1..]);
      assert (e + rest)[|e|..] == rest;
    }
  }

  lemma {:induction false} ValidIsText(s: bytes) returns (cs: seq<nat>)
    requires ValidUtf8(s)
    ensures Text(cs) && EncodeText(cs) == s
    decreases |s|
  {
    hide SequenceLength, EncodeScalar;
    if s == [] {
      cs := [];
    } else {
      var n := SequenceLength(s);
      var c := ReadIsScalar(s);
      var rest := ValidIsText(s[n..]);
      cs := [c] + rest;
      assert cs[1..] == rest;
      assert s == s[..n] + s[n..];
    }
  }

  /** Bytes are taken for a string exactly when they encode scalar values: no overlong forms, no
      surrogates, nothing above 10ffff, nothing cut. */
  lemma Utf8Exact(s: bytes)
    ensures ValidUtf8(s) <==> exists cs :: Text(cs) && EncodeText(cs) == s
  {
    if ValidUtf8(s) { var cs := ValidIsText(s); }
    forall cs | Text(cs) && EncodeText(cs) == s ensures ValidUtf8(s) { TextIsValid(cs); }
  }
}
