/** Bytes and big-endian numbers, shared by the codec and the protocol models. */
module Bytes {

  type byte = x: int | 0 <= x < 256
  type bytes = seq<byte>

  /** Shortest big-endian form; the empty sequence stands for zero. */
  function BigEndian(n: nat): (s: bytes)
    ensures n > 0 ==> |s| > 0 && s[0] != 0
    ensures n == 0 ==> s == []
  {
    if n == 0 then [] else BigEndian(n / 256) + [n % 256]
  }

  /** Value of a big-endian byte string; leading zeros are allowed. */
  function FromBigEndian(s: bytes): (n: nat) {
    if s == [] then 0 else FromBigEndian(s[..|s| - 1]) * 256 + s[|s| - 1]
  }

  function Pow256(k: nat): (p: nat)
    ensures p >= 1
  {
    if k == 0 then 1 else 256 * Pow256(k - 1)
  }

  lemma {:induction false} FromOfBigEndian(n: nat)
    ensures FromBigEndian(BigEndian(n)) == n
  {
    if n > 0 {
      FromOfBigEndian(n / 256);
      assert BigEndian(n)[..|BigEndian(n)| - 1] == BigEndian(n / 256);
    }
  }

  /** Big-endian forms without a leading zero are the shortest ones. */
  lemma {:induction false} BigEndianOfFrom(s: bytes)
    requires s == [] || s[0] != 0
    ensures BigEndian(FromBigEndian(s)) == s
    ensures s != [] ==> FromBigEndian(s) > 0
  {
    if s != [] {
      var t := s[..|s| - 1];
      BigEndianOfFrom(t);
      var n := FromBigEndian(s);
      assert n / 256 == FromBigEndian(t) && n % 256 == s[|s| - 1];
      assert s == t + [s[|s| - 1]];
    }
  }

  lemma {:induction false} FromBound(s: bytes)
    ensures FromBigEndian(s) < Pow256(|s|)
  {
    if s != [] { FromBound(s[..|s| - 1]); }
  }

  /** The shortest form has at most `k` bytes exactly when the number is below 256^k. */
  lemma {:induction false} BigEndianWidth(n: nat, k: nat)
    ensures |BigEndian(n)| <= k <==> n < Pow256(k)
    decreases k
  {
    if k > 0 && n > 0 {
      BigEndianWidth(n / 256, k - 1);
    }
  }

  lemma {:induction false} BigEndianMonotone(m: nat, n: nat)
    requires m <= n
    ensures |BigEndian(m)| <= |BigEndian(n)|
    decreases m
  {
    if m > 0 { BigEndianMonotone(m / 256, n / 256); }
  }

  /** Leading zeros do not change the value. */
  lemma {:induction false} FromZeroPrefix(s: bytes)
    ensures FromBigEndian([0] + s) == FromBigEndian(s)
  {
    if s == [] {
      assert ([0] + s)[..0] == [];
    } else {
      FromZeroPrefix(s[..|s| - 1]);
      assert ([0] + s)[..|s|] == [0] + s[..|s| - 1];
    }
  }

  lemma Pow256Values()
    ensures Pow256(1) == 0x100 && Pow256(2) == 0x1_0000 && Pow256(4) == 0x1_0000_0000
    ensures Pow256(8) == 0x1_0000_0000_0000_0000
    ensures Pow256(16) == 0x1_0000_0000_0000_0000_0000_0000_0000_0000
  {
    assert Pow256(3) == 256 * Pow256(2);
    assert Pow256(5) == 256 * Pow256(4);
    assert Pow256(6) == 256 * Pow256(5);
    assert Pow256(7) == 256 * Pow256(6);
    assert Pow256(9) == 256 * Pow256(8);
    assert Pow256(10) == 256 * Pow256(9);
    assert Pow256(11) == 256 * Pow256(10);
    assert Pow256(12) == 256 * Pow256(11);
    assert Pow256(13) == 256 * Pow256(12);
    assert Pow256(14) == 256 * Pow256(13);
    assert Pow256(15) == 256 * Pow256(14);
  }
}
