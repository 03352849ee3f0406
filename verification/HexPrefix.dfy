/// Nibble paths and their hex-prefix form, Appendix C of the Ethereum Yellow Paper, as
/// libdevcore/TrieCommon.h and TrieCommon.cpp build and read them.
module HexPrefix {
  import opened Bytes

  type nibble = x: int | 0 <= x < 16
  type Nibbles = seq<nibble>

  /// nibble(_data, _i): high half first.
  function NibbleAt(data: bytes, i: nat): nibble
    requires i < 2 * |data|
  {
    if i % 2 == 1 then data[i / 2] % 16 else data[i / 2] / 16
  }

  /// All nibbles of a byte string; a NibbleSlice with offset o shows Unpack(data)[o..].
  function Unpack(data: bytes): (ns: Nibbles)
    ensures |ns| == 2 * |data|
  {
    if data == [] then [] else [data[0] / 16, data[0] % 16] + Unpack(data[1..])
  }

  lemma {:induction false} UnpackAt(data: bytes, i: nat)
    requires i < 2 * |data|
    ensures Unpack(data)[i] == NibbleAt(data, i)
  {
    if i >= 2 {
      UnpackAt(data[1..], i - 2);
      assert Unpack(data)[i] == Unpack(data[1..])[i - 2];
    }
  }

  /// The high half of a byte comes first.
  lemma {:induction false} Halves(data: bytes, i: nat)
    requires i < |data|
    ensures data[i] / 16 == Unpack(data)[2 * i] && data[i] % 16 == Unpack(data)[2 * i + 1]
  {
    if i > 0 {
      Halves(data[1..], i - 1);
      HalfAfter(data, 2 * i);
      HalfAfter(data, 2 * i + 1);
    }
  }

  lemma HalfAfter(data: bytes, i: nat)
    requires 2 <= i < 2 * |data|
    ensures Unpack(data)[i] == Unpack(data[1..])[i - 2]
  {
  }

  function TwoNibbles(high: nibble, low: nibble): (b: byte)
    ensures b / 16 == high && b % 16 == low && b / 32 == high / 2
  {
    var h: int := high;
    h * 16 + low
  }

  /// Two nibbles to a byte; a last odd one becomes the high half.
  function Pack(ns: Nibbles): (b: bytes)
    ensures |b| == (|ns| + 1) / 2
  {
    if ns == [] then []
    else if |ns| == 1 then [TwoNibbles(ns[0], 0)]
    else [TwoNibbles(ns[0], ns[1])] + Pack(ns[2..])
  }

  function Flag(length: nat, leaf: bool): nibble {
    (if leaf then 2 else 0) + length % 2
  }

  /// The nibbles of the hex-prefix form: a flag, a zero if needed to make them even, the path.
  function Flagged(ns: Nibbles, leaf: bool): Nibbles {
    if |ns| % 2 == 1 then [Flag(|ns|, leaf)] + ns else [Flag(|ns|, leaf), 0] + ns
  }

  function HP(ns: Nibbles, leaf: bool): bytes {
    Pack(Flagged(ns, leaf))
  }

  /// keyOf: drops one nibble when the odd flag is set and two otherwise.
  function KeyOf(hp: bytes): Nibbles {
    if hp == [] then []
    else if hp[0] / 16 % 2 == 1 then Unpack(hp)[1..]
    else Unpack(hp)[2..]
  }

  /// isLeaf: the 0x20 bit of the first byte.
  predicate LeafFlag(hp: bytes) {
    hp != [] && hp[0] / 32 % 2 == 1
  }

  lemma {:induction false} UnpackPack(ns: Nibbles)
    requires |ns| % 2 == 0
    ensures Unpack(Pack(ns)) == ns
  {
    if ns != [] {
      UnpackPack(ns[2..]);
      assert Pack(ns)[1..] == Pack(ns[2..]);
      assert ns == [ns[0], ns[1]] + ns[2..];
    }
  }

  lemma {:induction false} PackUnpack(data: bytes)
    ensures Pack(Unpack(data)) == data
  {
    if data != [] {
      PackUnpack(data[1..]);
      assert Unpack(data)[2..] == Unpack(data[1..]);
    }
  }

  /// The path and the leaf flag are read back exactly, so hex-prefix is injective.
  lemma {:induction false} HPRoundTrip(ns: Nibbles, leaf: bool)
    ensures HP(ns, leaf) != []
    ensures KeyOf(HP(ns, leaf)) == ns && LeafFlag(HP(ns, leaf)) == leaf
  {
    UnpackPack(Flagged(ns, leaf));
    FirstOfPacked(Flagged(ns, leaf));
    FlaggedFirst(ns, leaf);
    hide Pack, Unpack, Flagged, TwoNibbles;
  }

  lemma FirstOfPacked(f: Nibbles)
    requires |f| >= 2
    ensures Pack(f) != [] && Pack(f)[0] == TwoNibbles(f[0], f[1])
  {
  }

  lemma FlaggedFirst(ns: Nibbles, leaf: bool)
    ensures var f := Flagged(ns, leaf);
            && |f| >= 2 && |f| % 2 == 0
            && TwoNibbles(f[0], f[1]) / 16 % 2 == |ns| % 2
            && (TwoNibbles(f[0], f[1]) / 32 % 2 == 1 <==> leaf)
            && f[if |ns| % 2 == 1 then 1 else 2..] == ns
  {
  }

  /// The other direction: a byte string whose flag nibble is below four and whose padding is
  /// zero is the hex-prefix form of what keyOf and isLeaf read from it.
  lemma {:induction false} HPReadTrip(hp: bytes)
    requires hp != [] && hp[0] < 64 && (hp[0] / 16 % 2 == 0 ==> hp[0] % 16 == 0)
    ensures HP(KeyOf(hp), LeafFlag(hp)) == hp
  {
    PackUnpack(hp);
    UnpackAt(hp, 0);
    UnpackAt(hp, 1);
    assert Flagged(KeyOf(hp), LeafFlag(hp)) == Unpack(hp);
  }

  /// Appendix C in its own numbers: the flag is 2 for a leaf, and 1 more for an odd path, whose first
  /// nibble it stands before; then come pairs of nibbles.
  lemma AppendixC(ns: Nibbles, leaf: bool)
    ensures var e, odd := HP(ns, leaf), |ns| % 2;
            && |e| == |ns| / 2 + 1
            && e[0] / 16 == (if leaf then 2 else 0) + odd && e[0] % 16 == (if odd == 1 then ns[0] else 0)
            && forall i :: 0 < i < |e| ==> e[i] / 16 == ns[2 * i - 2 + odd] && e[i] % 16 == ns[2 * i - 1 + odd]
  {
    hide Flagged, Pack;
    var f, e, odd := Flagged(ns, leaf), HP(ns, leaf), |ns| % 2;
    FlaggedIs(ns, leaf);
    PackAt(f, 0);
    forall i | 0 < i < |e| ensures e[i] / 16 == ns[2 * i - 2 + odd] && e[i] % 16 == ns[2 * i - 1 + odd] {
      PackAt(f, i);
    }
  }

  lemma FlaggedIs(ns: Nibbles, leaf: bool)
    ensures var f, odd := Flagged(ns, leaf), |ns| % 2;
            && |f| == 2 * (|ns| / 2 + 1)
            && f[0] == (if leaf then 2 else 0) + odd && f[1] == (if odd == 1 then ns[0] else 0)
            && forall i :: 2 <= i < |f| ==> f[i] == ns[i - 2 + odd]
  {
  }

  lemma {:induction false} PackAt(ns: Nibbles, i: nat)
    requires |ns| % 2 == 0 && 2 * i + 1 < |ns|
    ensures i < |Pack(ns)| && Pack(ns)[i] / 16 == ns[2 * i] && Pack(ns)[i] % 16 == ns[2 * i + 1]
  {
    if i > 0 {
      PackAt(ns[2..], i - 1);
      assert ns[2..][2 * (i - 1)] == ns[2 * i] && ns[2..][2 * (i - 1) + 1] == ns[2 * i + 1];
    }
  }

  /// What one more nibble does to the packed bytes.
  lemma {:induction false} PackSnoc(ns: Nibbles, n: nibble)
    ensures |ns| % 2 == 0 ==> Pack(ns + [n]) == Pack(ns) + [TwoNibbles(n, 0)]
    ensures |ns| % 2 == 1 ==> Pack(ns)[|ns| / 2] % 16 == 0
    ensures |ns| % 2 == 1 ==> Pack(ns + [n]) == Pack(ns)[..|ns| / 2] + [Pack(ns)[|ns| / 2] + n]
  {
    if |ns| >= 2 {
      PackSnoc(ns[2..], n);
      var h, x, p := |ns| / 2, TwoNibbles(ns[0], ns[1]), Pack(ns[2..]);
      assert (ns + [n])[2..] == ns[2..] + [n];
      assert Pack(ns + [n]) == [x] + Pack(ns[2..] + [n]);
      hide TwoNibbles;
      if |ns| % 2 == 1 {
        assert ([x] + p)[..h] == [x] + p[..h - 1] && ([x] + p)[h] == p[h - 1];
      }
    } else {
      assert ns + [n] == if ns == [] then [n] else [ns[0], n];
      assert (ns + [n])[if ns == [] then 1 else 2..] == [];
    }
  }

  /// The nibbles done so far: those before the loop, and the part of the vector up to i.
  ghost predicate DoneTo(sofar: Nibbles, done: Nibbles, ns: Nibbles, begin: nat, i: nat) {
    begin <= i <= |ns| && sofar == done + ns[begin..i]
  }

  lemma DoneStart(done: Nibbles, ns: Nibbles, begin: nat)
    requires begin <= |ns|
    ensures DoneTo(done, done, ns, begin, begin)
  {
  }

  lemma DoneEnd(sofar: Nibbles, done: Nibbles, ns: Nibbles, begin: nat, end: nat)
    requires DoneTo(sofar, done, ns, begin, end)
    ensures sofar == done + ns[begin..end]
  {
  }

  lemma TwoMore(sofar: Nibbles, done: Nibbles, ns: Nibbles, begin: nat, i: nat)
    requires DoneTo(sofar, done, ns, begin, i) && i + 2 <= |ns|
    ensures DoneTo(sofar + [ns[i], ns[i + 1]], done, ns, begin, i + 2)
  {
    assert ns[begin..i] + [ns[i], ns[i + 1]] == ns[begin..i + 2];
  }

  method PushPair(ghost sofar: Nibbles, ghost half: nat, ret0: bytes, m: nibble, n: nibble)
      returns (ret: bytes, ghost more: Nibbles)
    requires |sofar| == 2 * half && ret0 == Pack(sofar)
    ensures more == sofar + [m, n] && ret == Pack(more)
  {
    hide *;
    PackPair(sofar, m, n);
    ret, more := ret0 + [TwoNibbles(m, n)], sofar + [m, n];
  }

  /// The loop over pairs of the nibble-vector overload.
  method PushPairs(ghost done: Nibbles, ghost half: nat, ret0: bytes, hexVector: Nibbles, begin: nat, end: nat,
                   ghost pairs: nat)
      returns (ret: bytes)
    requires begin <= end <= |hexVector| && end == begin + 2 * pairs
    requires ret0 == Pack(done) && |done| == 2 * half
    ensures ret == Pack(done + hexVector[begin..end])
  {
    hide Pack, DoneTo;
    DoneStart(done, hexVector, begin);
    ret := ret0;
    var i := begin;
    ghost var sofar, k := done, 0;
    while i < end
      invariant i == begin + 2 * k && k <= pairs && |sofar| == 2 * (half + k)
      invariant ret == Pack(sofar) && DoneTo(sofar, done, hexVector, begin, i)
      decreases pairs - k
    {
      TwoMore(sofar, done, hexVector, begin, i);
      ret, sofar := PushPair(sofar, half + k, ret, hexVector[i], hexVector[i + 1]);
      i, k := i + 2, k + 1;
    }
    DoneEnd(sofar, done, hexVector, begin, end);
  }

  lemma {:induction false} PackPair(ns: Nibbles, m: nibble, n: nibble)
    requires |ns| % 2 == 0
    ensures Pack(ns + [m, n]) == Pack(ns) + [TwoNibbles(m, n)]
  {
    if ns == [] {
      assert ns + [m, n] == [m, n] && [m, n][2..] == [];
    } else {
      PackPair(ns[2..], m, n);
      assert (ns + [m, n])[2..] == ns[2..] + [m, n];
    }
  }

  /// The first byte of the nibble-vector overload, which takes the first nibble of an odd path.
  method FirstByteVector(hexVector: Nibbles, leaf: bool, begin: nat, end: nat) returns (ret: bytes)
    requires begin <= end <= |hexVector|
    ensures var odd := (end - begin) % 2 == 1;
            ret == [TwoNibbles(Flag(end - begin, leaf), if odd then hexVector[begin] else 0)]
  {
    var odd := (end - begin) % 2 != 0;
    ret := [((if leaf then 2 else 0) + (if odd then 1 else 0)) * 16];
    if odd {
      ret := [ret[0] + hexVector[begin]];
    }
  }

  /// hexPrefixEncode over a vector of nibbles, from begin to end.
  method HexPrefixVector(hexVector: Nibbles, leaf: bool, begin: nat, end: nat) returns (ret: bytes)
    requires begin <= end <= |hexVector|
    ensures ret == HP(hexVector[begin..end], leaf)
  {
    var i := if (end - begin) % 2 != 0 then begin + 1 else begin;
    VectorParts(hexVector, leaf, begin, end, (end - begin) % 2 != 0);
    hide *;
    ret := FirstByteVector(hexVector, leaf, begin, end);
    ret := PushPairs(FirstTwo(hexVector[begin..end], leaf), 1, ret, hexVector, i, end, (end - begin) / 2);
  }

  /// The nibbles of the first byte.
  function FirstTwo(ns: Nibbles, leaf: bool): Nibbles {
    [Flag(|ns|, leaf), if |ns| % 2 == 1 then ns[0] else 0]
  }

  /// The path after those nibbles.
  lemma VectorParts(hexVector: Nibbles, leaf: bool, begin: nat, end: nat, odd: bool)
    requires begin <= end <= |hexVector| && (odd <==> (end - begin) % 2 == 1)
    ensures odd ==> begin < end
    ensures var first := FirstTwo(hexVector[begin..end], leaf);
            && Pack(first) == [TwoNibbles(Flag(end - begin, leaf), if odd then hexVector[begin] else 0)]
            && HP(hexVector[begin..end], leaf) == Pack(first + hexVector[if odd then begin + 1 else begin..end])
  {
    hide *;
    VectorStart(hexVector[begin..end], leaf, odd);
    SliceOfSlice(hexVector, begin, if odd then begin + 1 else begin, end);
  }

  lemma SliceOfSlice(ns: Nibbles, begin: nat, i: nat, end: nat)
    requires begin <= i <= end <= |ns|
    ensures ns[begin..end][i - begin..] == ns[i..end]
  {
  }

  /// The first byte holds the flag and, if the path is odd, its first nibble.
  lemma VectorStart(ns: Nibbles, leaf: bool, odd: bool)
    requires odd <==> |ns| % 2 == 1
    ensures odd ==> |ns| > 0
    ensures Pack(FirstTwo(ns, leaf)) == [TwoNibbles(Flag(|ns|, leaf), if odd then ns[0] else 0)]
    ensures HP(ns, leaf) == Pack(FirstTwo(ns, leaf) + ns[if odd then 1 else 0..])
  {
    assert FirstTwo(ns, leaf)[2..] == [];
    assert Flagged(ns, leaf) == FirstTwo(ns, leaf) + ns[if odd then 1 else 0..];
  }

  /// One turn of the loop of the byte-string overloads: d counts the nibbles already in ret
  /// and so says whether the next one goes into the low half, still zero, or opens a byte.
  method PushNibble(ghost done: Nibbles, ret0: bytes, d: nat, n: nibble) returns (ret: bytes)
    requires ret0 == Pack(done) && d == |done|
    ensures ret == Pack(done + [n])
  {
    PackSnoc(done, n);
    if d % 2 == 1 {
      ret := ret0[..|ret0| - 1] + [ret0[|ret0| - 1] + n];
    } else {
      ret := ret0 + [TwoNibbles(n, 0)];
    }
  }

  /// The loop over one slice.
  method PushSlice(ghost done: Nibbles, ret0: bytes, d0: nat, data: bytes, begin: nat, end: nat)
      returns (ret: bytes, d: nat)
    requires ret0 == Pack(done) && d0 == |done|
    requires begin <= end <= 2 * |data|
    ensures ret == Pack(done + Unpack(data)[begin..end])
    ensures d == d0 + end - begin
  {
    hide Pack;
    ret, d := ret0, d0;
    ghost var u := Unpack(data);
    assert done + u[begin..begin] == done;
    for i := begin to end
      invariant d == d0 + i - begin
      invariant ret == Pack(done + u[begin..i])
    {
      UnpackAt(data, i);
      ret := PushNibble(done + u[begin..i], ret, d, NibbleAt(data, i));
      assert done + u[begin..i] + [u[i]] == done + u[begin..i + 1];
      d := d + 1;
    }
  }

  /// The first byte, with the flag, and how many nibbles it holds for good.
  method FirstByte(ghost ns: Nibbles, odd: bool, leaf: bool) returns (ret: bytes, d: nat)
    requires odd <==> |ns| % 2 == 1
    ensures d == if odd then 1 else 2
    ensures ret == Pack(Flagged(ns, leaf)[..d])
  {
    ret := [((if leaf then 2 else 0) + (if odd then 1 else 0)) * 16];
    d := if odd then 1 else 2;
    ghost var f := Flagged(ns, leaf)[..d];
    assert f == if odd then [Flag(|ns|, leaf)] else [Flag(|ns|, leaf), 0];
    assert f[d..] == [];
  }

  /// hexPrefixEncode over the nibbles of a byte string; begin and end count from the offset.
  method HexPrefixBytes(data: bytes, leaf: bool, beginNibble: nat, endNibble: nat, offset: nat) returns (ret: bytes)
    requires beginNibble <= endNibble && endNibble + offset <= 2 * |data|
    ensures ret == HP(Unpack(data)[offset..][beginNibble..endNibble], leaf)
  {
    hide Pack, Unpack;
    var begin, end := beginNibble + offset, endNibble + offset;
    ghost var ns := Unpack(data)[offset..][beginNibble..endNibble];
    SliceOfRest(Unpack(data), offset, beginNibble, endNibble);
    FlaggedParts(ns, leaf);
    hide Flagged;
    var d;
    ret, d := FirstByte(ns, (end - begin) % 2 == 1, leaf);
    ret, d := PushSlice(Flagged(ns, leaf)[..d], ret, d, data, begin, end);
  }

  lemma SliceOfRest(ns: Nibbles, offset: nat, from: nat, to: nat)
    requires from <= to && to + offset <= |ns|
    ensures ns[offset..][from..to] == ns[from + offset..to + offset]
  {
  }

  lemma FlaggedParts(ns: Nibbles, leaf: bool)
    ensures var d := if |ns| % 2 == 1 then 1 else 2;
            |Flagged(ns, leaf)| >= d && Flagged(ns, leaf)[..d] + ns == Flagged(ns, leaf)
  {
  }

  /// hexPrefixEncode over two slices one after the other.
  method HexPrefixTwo(d1: bytes, o1: nat, d2: bytes, o2: nat, leaf: bool) returns (ret: bytes)
    requires o1 <= 2 * |d1| && o2 <= 2 * |d2|
    ensures ret == HP(Unpack(d1)[o1..] + Unpack(d2)[o2..], leaf)
  {
    hide Pack, Unpack;
    var end1, end2 := 2 * |d1|, 2 * |d2|;
    ghost var a, b := Unpack(d1)[o1..end1], Unpack(d2)[o2..end2];
    var d;
    ret, d := FirstByte(a + b, (end1 - o1 + end2 - o2) % 2 == 1, leaf);
    ghost var first := Flagged(a + b, leaf)[..d];
    ret, d := PushSlice(first, ret, d, d1, o1, end1);
    ret, d := PushSlice(first + a, ret, d, d2, o2, end2);
    assert a == Unpack(d1)[o1..] && b == Unpack(d2)[o2..];
    assert first + a + b == Flagged(a + b, leaf);
  }

  /// The length of the longest common prefix.
  function Shared(a: Nibbles, b: Nibbles): (n: nat)
    ensures n <= |a| && n <= |b| && a[..n] == b[..n]
    ensures n < |a| && n < |b| ==> a[n] != b[n]
  {
    if a == [] || b == [] || a[0] != b[0] then 0
    else
      var n := 1 + Shared(a[1..], b[1..]);
      assert a[..n] == [a[0]] + a[1..][..n - 1] && b[..n] == [b[0]] + b[1..][..n - 1];
      n
  }

  lemma {:induction false} SharedUnique(a: Nibbles, b: Nibbles, n: nat)
    requires n <= |a| && n <= |b| && a[..n] == b[..n]
    requires n < |a| && n < |b| ==> a[n] != b[n]
    ensures n == Shared(a, b)
  {
    var m := Shared(a, b);
    assert forall i :: 0 <= i < m ==> a[i] == a[..m][i] == b[..m][i] == b[i];
    assert forall i :: 0 <= i < n ==> a[i] == a[..n][i] == b[..n][i] == b[i];
  }

  /// sharedNibbles: counts equal nibbles of two ranges from their beginnings.
  method SharedNibbles(first: bytes, beginFirst: nat, endFirst: nat, second: bytes, beginSecond: nat, endSecond: nat)
      returns (ret: nat)
    requires beginFirst <= endFirst <= 2 * |first| && beginSecond <= endSecond <= 2 * |second|
    ensures ret == Shared(Unpack(first)[beginFirst..endFirst], Unpack(second)[beginSecond..endSecond])
  {
    hide Shared, Unpack;
    ghost var a, b := Unpack(first)[beginFirst..endFirst], Unpack(second)[beginSecond..endSecond];
    ret := 0;
    var i, j := beginFirst, beginSecond;
    while i < endFirst && j < endSecond && NibbleAt(first, i) == NibbleAt(second, j)
      invariant i == beginFirst + ret <= endFirst && j == beginSecond + ret <= endSecond
      invariant a[..ret] == b[..ret]
    {
      UnpackAt(first, i);
      UnpackAt(second, j);
      assert a[..ret + 1] == a[..ret] + [a[ret]] && b[..ret + 1] == b[..ret] + [b[ret]];
      i, j, ret := i + 1, j + 1, ret + 1;
    }
    if ret < |a| && ret < |b| {
      UnpackAt(first, i);
      UnpackAt(second, j);
    }
    SharedUnique(a, b, ret);
  }

  predicate Contains(k: Nibbles, prefix: Nibbles) {
    prefix <= k
  }

  /// contains: the argument is a prefix exactly when all of it is shared.
  lemma {:induction false} ContainsIsShared(k: Nibbles, prefix: Nibbles)
    ensures Contains(k, prefix) <==> Shared(k, prefix) == |prefix|
  {
    if prefix <= k {
      SharedUnique(k, prefix, |prefix|);
    }
  }

  /// A path made of two parts is followed by following one after the other.
  lemma {:induction false} PrefixAppend(a: Nibbles, b: Nibbles, j: Nibbles)
    ensures a + b <= j <==> a <= j && b <= j[|a|..]
    ensures a + b <= j ==> j[|a|..][|b|..] == j[|a + b|..]
    ensures a + b == j <==> a <= j && j[|a|..] == b
  {
    if a <= j {
      assert j == a + j[|a|..];
      assert a + b <= j ==> j[|a|..][..|b|] == b;
      if b <= j[|a|..] {
        assert j[|a|..] == b + j[|a|..][|b|..];
        assert j == (a + b) + j[|a|..][|b|..];
      }
    }
  }
}
