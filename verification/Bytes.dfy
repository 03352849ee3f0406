/// Bytes and their big-endian reading, as libdevcore/CommonData.h does it.
module Bytes {
  type byte = x: int | 0 <= x < 256
  type bytes = seq<byte>

  /// 256 to the power k, the number of values k bytes can hold.
  function Pow256(k: nat): nat {
    if k == 0 then 1 else 256 * Pow256(k - 1)
  }

  /// The value of a big-endian byte string.
  function FromBE(b: bytes): nat {
    if b == [] then 0 else 256 * FromBE(b[..|b| - 1]) + b[|b| - 1]
  }

  /// The first bytes weigh most.
  lemma {:induction false} Weights(a: bytes, b: bytes)
    ensures FromBE(a + b) == FromBE(a) * Pow256(|b|) + FromBE(b)
  {
    if b == [] {
      NoWeight(a);
      assert a + b == a;
    } else {
      hide FromBE, Pow256;
      var c, x := b[..|b| - 1], b[|b| - 1];
      Weights(a, c);
      LastByte(c, x);
      LastByte(a + c, x);
      assert b == c + [x] && a + b == a + c + [x];
      TimesAgain(FromBE(a), Pow256(|c|), FromBE(c), x);
    }
  }

  lemma NoWeight(a: bytes)
    ensures FromBE(a) == FromBE(a) * Pow256(0) + FromBE([])
  {
  }

  lemma LastByte(b: bytes, x: byte)
    ensures FromBE(b + [x]) == 256 * FromBE(b) + x && Pow256(|b + [x]|) == 256 * Pow256(|b|)
  {
    assert (b + [x])[..|b|] == b;
  }

  lemma TimesAgain(n: nat, p: nat, m: nat, x: nat)
    ensures 256 * (n * p + m) + x == n * (256 * p) + (256 * m + x)
  {
  }

  /// A digit in base 256 is its byte.
  lemma TwoDigits(x: byte, y: byte)
    ensures FromBE([x]) == x && FromBE([x, y]) == 256 * x + y && Pow256(1) == 256
  {
    assert [x][..0] == [] && [x, y][..1] == [x];
  }

  /// The shortest big-endian byte string of a number; empty for zero.
  function BE(n: nat): bytes {
    if n == 0 then [] else BE(n / 256) + [n % 256]
  }

  lemma {:induction false} BERoundTrip(n: nat)
    ensures FromBE(BE(n)) == n
    ensures n > 0 ==> BE(n) != [] && BE(n)[0] != 0
  {
    if n > 0 {
      BERoundTrip(n / 256);
      assert BE(n)[..|BE(n)| - 1] == BE(n / 256);
    }
  }

  lemma {:induction false} BEUnique(b: bytes)
    requires b != [] ==> b[0] != 0
    ensures BE(FromBE(b)) == b
    ensures b != [] ==> FromBE(b) > 0
  {
    if b != [] {
      BEUnique(b[..|b| - 1]);
    }
  }

  /// A number fits k bytes exactly when its shortest form has at most k.
  lemma {:induction false} BESize(n: nat, k: nat)
    ensures |BE(n)| <= k <==> n < Pow256(k)
  {
    if n > 0 && k > 0 {
      BESize(n / 256, k - 1);
    } else if n > 0 {
      assert Pow256(0) == 1;
    } else {
      Pow256Positive(k);
    }
  }

  lemma {:induction false} Pow256Positive(k: nat)
    ensures Pow256(k) > 0
  {
    if k > 0 {
      Pow256Positive(k - 1);
    }
  }

  lemma EightBytes()
    ensures Pow256(8) == 0x1_0000_0000_0000_0000
  {
    assert Pow256(2) == 0x1_0000;
    assert Pow256(4) == 0x1_0000_0000;
    assert Pow256(6) == 0x1_0000_0000_0000;
  }

  /// bytesRequired: counts how often the value can be shifted right by eight bits.
  method BytesRequired(n: nat) returns (i: nat)
    ensures i == |BE(n)|
    ensures forall k: nat :: i <= k <==> n < Pow256(k)
  {
    i := 0;
    var v := n;
    while v != 0
      invariant i + |BE(v)| == |BE(n)|
    {
      i, v := i + 1, v / 256;
    }
    forall k: nat ensures i <= k <==> n < Pow256(k) {
      BESize(n, k);
    }
  }

  /// fromBigEndian over an unbounded integer type.
  method FromBigEndian(b: bytes) returns (r: nat)
    ensures r == FromBE(b)
  {
    r := 0;
    for i := 0 to |b|
      invariant r == FromBE(b[..i])
    {
      assert b[..i + 1][..i] == b[..i];
      r := r * 256 + b[i];
    }
    assert b[..|b|] == b;
  }
}
