/// Recursive Linear Prefix data: the encoding of Appendix B of the Ethereum
/// Yellow Paper as a function on item trees, the strict reader of
/// libdevcore/RLP.cpp, and the two round trips between them.
module Rlp {
  import opened Bytes

  datatype Item = Data(payload: bytes) | List(items: seq<Item>)

  datatype RlpError = BadRLP | UndersizeRLP | OversizeRLP | BadCast

  datatype Result<+T> = Ok(value: T) | Err(error: RlpError) {
    predicate IsFailure() {
      Err?
    }

    function PropagateFailure<U>(): Result<U>
      requires Err?
    {
      Err(error)
    }

    function Extract(): T
      requires Ok?
    {
      value
    }
  }

  const DATA_START: nat := 0x80
  const LIST_START: nat := 0xc0
  const IMM_LEN_COUNT: nat := 56

  /// The first length the reader refuses: payload offset plus length must not wrap a size_t.
  const LENGTH_LIMIT: nat := 0xffff_ffff_ffff_ffff - 0x100

  // ------------------------------------------------------------------ writing

  /// The header of a payload of n bytes; start is 0x80 for data and 0xc0 for lists.
  function Header(n: nat, start: nat): (h: bytes)
    requires start == DATA_START || start == LIST_START
    ensures |h| >= 1
  {
    if n < IMM_LEN_COUNT then [start + n]
    else [(start + IMM_LEN_COUNT - 1 + |BE(n)|) % 256] + BE(n)
  }

  function EncodeData(b: bytes): bytes {
    if |b| == 1 && b[0] < DATA_START then b else Header(|b|, DATA_START) + b
  }

  function Encode(x: Item): (e: bytes)
    ensures e != []
    decreases x, 1
  {
    match x
    case Data(b) => EncodeData(b)
    case List(xs) => Header(|EncodeAll(xs)|, LIST_START) + EncodeAll(xs)
  }

  function EncodeAll(xs: seq<Item>): bytes
    decreases xs, 0
  {
    if xs == [] then [] else Encode(xs[0]) + EncodeAll(xs[1..])
  }

  lemma {:induction false} EncodeAllAppend(xs: seq<Item>, ys: seq<Item>)
    ensures EncodeAll(xs + ys) == EncodeAll(xs) + EncodeAll(ys)
  {
    if xs == [] {
      assert xs + ys == ys;
    } else {
      assert (xs + ys)[0] == xs[0] && (xs + ys)[1..] == xs[1..] + ys;
      EncodeAllAppend(xs[1..], ys);
    }
  }

  lemma EncodeOne(x: Item)
    ensures EncodeAll([x]) == Encode(x)
  {
    assert [x][1..] == [] && Encode(x) + [] == Encode(x);
  }

  /// A long payload behind its first byte, the bytes of its length without leading zeros, and no more.
  predicate LongForm(e: bytes, first: nat, payload: bytes) {
    |e| > 1 + |payload| &&
    var n := |e| - 1 - |payload|;
    && 1 <= n <= 8 && e[0] == first + n && e[1] != 0
    && FromBE(e[1..1 + n]) == |payload| && e[1 + n..] == payload
  }

  /// Appendix B in its own numbers, for byte arrays.
  lemma AppendixBData(b: bytes)
    ensures |b| == 1 && b[0] < 128 ==> Encode(Data(b)) == b
    ensures |b| < 56 && !(|b| == 1 && b[0] < 128) ==> Encode(Data(b)) == [128 + |b|] + b
    ensures 56 <= |b| < 0x1_0000_0000_0000_0000 ==> LongForm(Encode(Data(b)), 183, b)
  {
    if 56 <= |b| < 0x1_0000_0000_0000_0000 {
      LongFormed(|b|, 128, b);
    }
  }

  /// And for sequences.
  lemma AppendixBList(xs: seq<Item>)
    ensures var s := EncodeAll(xs);
            && (|s| < 56 ==> Encode(List(xs)) == [192 + |s|] + s)
            && (56 <= |s| < 0x1_0000_0000_0000_0000 ==> LongForm(Encode(List(xs)), 247, s))
  {
    var s := EncodeAll(xs);
    if 56 <= |s| < 0x1_0000_0000_0000_0000 {
      LongFormed(|s|, 192, s);
    }
  }

  lemma LongFormed(n: nat, start: nat, s: bytes)
    requires (start == 128 || start == 192) && n == |s| && 56 <= n < 0x1_0000_0000_0000_0000
    ensures LongForm(Header(n, start) + s, start + 55, s)
  {
    EightBytes();
    BESize(n, 8);
    BERoundTrip(n);
    hide BE, FromBE, Pow256;
    var e := Header(n, start) + s;
    assert e[1..1 + |BE(n)|] == BE(n);
  }

  // ------------------------------------------------------------------ reading

  predicate IsSingleByte(d: bytes) {
    d != [] && d[0] < DATA_START
  }

  predicate IsData(d: bytes) {
    d != [] && d[0] < LIST_START
  }

  predicate IsList(d: bytes) {
    d != [] && d[0] >= LIST_START
  }

  /// requireGood fails for the null item and for one byte spelled in two.
  predicate Good(d: bytes) {
    d != [] && (d[0] == DATA_START + 1 ==> |d| >= 2 && d[1] >= DATA_START)
  }

  /// How many bytes spell the length, for an item whose header is long.
  function LengthSize(d: bytes): nat {
    if IsData(d) && d[0] > DATA_START + IMM_LEN_COUNT - 1 then d[0] - (DATA_START + IMM_LEN_COUNT - 1)
    else if IsList(d) && d[0] > LIST_START + IMM_LEN_COUNT - 1 then d[0] - (LIST_START + IMM_LEN_COUNT - 1)
    else 0
  }

  function PayloadOffset(d: bytes): nat {
    if IsSingleByte(d) then 0 else 1 + LengthSize(d)
  }

  /// length(): the payload size the item's header announces.
  function Length(d: bytes): Result<nat> {
    if d == [] then Ok(0)
    else if !Good(d) then Err(BadRLP)
    else if d[0] < DATA_START then Ok(1)
    else if LengthSize(d) == 0 then Ok(d[0] - (if d[0] < LIST_START then DATA_START else LIST_START))
    else LongLength(d, LengthSize(d))
  }

  /// A length spelled in bytes of its own: no leading zero, not a length that fits the
  /// short form, and not so large that adding the offset would wrap.
  function LongLength(d: bytes, size: nat): Result<nat>
    requires size > 0
  {
    if |d| <= size then Err(BadRLP)
    else if d[1] == 0 then Err(BadRLP)
    else
      var n := FromBE(d[1..1 + size]);
      if n < IMM_LEN_COUNT then Err(BadRLP)
      else if n >= LENGTH_LIMIT then Err(UndersizeRLP)
      else Ok(n)
  }

  function ActualSize(d: bytes): (r: Result<nat>)
    ensures r.Ok? && d != [] ==> r.value > 0
    ensures d == [] ==> r == Ok(0)
  {
    if d == [] then Ok(0)
    else if IsSingleByte(d) then Ok(1)
    else
      var n :- Length(d);
      Ok(PayloadOffset(d) + n)
  }

  /// sizeAsEncoded: the size of the item at the front of d, which must be all there.
  function SizeAsEncoded(d: bytes): (r: Result<nat>)
    ensures r.Ok? ==> r.value <= |d| && (d != [] ==> r.value > 0)
  {
    var n :- ActualSize(d);
    if n > |d| then Err(UndersizeRLP) else Ok(n)
  }

  /// payload(): the bytes after the header.
  function Payload(d: bytes): Result<bytes> {
    var n :- Length(d);
    if n > |d| then Err(BadRLP)
    else if PayloadOffset(d) + n > |d| then Ok([])
    else Ok(d[PayloadOffset(d)..PayloadOffset(d) + n])
  }

  /// The RLP constructor with VeryStrict: the bytes must be exactly one item.
  function VeryStrict(d: bytes): (r: Result<bytes>)
    ensures r.Ok? ==> r.value == d
  {
    var n :- ActualSize(d);
    if n < |d| then Err(OversizeRLP)
    else if n > |d| then Err(UndersizeRLP)
    else Ok(d)
  }

  /// Reads a whole item tree: the outer item very strictly, every list item as operator[] cuts it.
  function Decode(d: bytes): Result<Item>
    decreases |d|, 0
  {
    var whole :- VeryStrict(d);
    if whole == [] then Err(BadRLP)
    else
      var p :- Payload(whole);
      if IsData(whole) then Ok(Data(p))
      else if |p| >= |d| then Err(BadRLP)
      else
        var xs :- DecodeAll(p);
        Ok(List(xs))
  }

  function DecodeAll(p: bytes): Result<seq<Item>>
    decreases |p|, 1
  {
    if p == [] then Ok([])
    else
      var n :- SizeAsEncoded(p);
      var x :- Decode(p[..n]);
      var xs :- DecodeAll(p[n..]);
      Ok([x] + xs)
  }

  // -------------------------------------------------------------- round trips

  /// The long header's first byte, without the byte cast.
  lemma LongHeader(n: nat, start: nat)
    requires start == DATA_START || start == LIST_START
    requires IMM_LEN_COUNT <= n < LENGTH_LIMIT
    ensures 1 <= |BE(n)| <= 8
    ensures Header(n, start) == [start + IMM_LEN_COUNT - 1 + |BE(n)|] + BE(n)
    ensures BE(n)[0] != 0 && FromBE(BE(n)) == n
  {
    EightBytes();
    BESize(n, 8);
    BERoundTrip(n);
  }

  /// What the reader makes of a header followed by at least its payload.
  lemma HeaderRead(n: nat, start: nat, rest: bytes)
    requires start == DATA_START || start == LIST_START
    requires n < LENGTH_LIMIT && n <= |rest|
    requires start == DATA_START && n == 1 ==> rest[0] >= DATA_START
    ensures var d := Header(n, start) + rest;
            && PayloadOffset(d) == |Header(n, start)|
            && Length(d) == Ok(n)
            && (start == DATA_START <==> IsData(d))
            && ActualSize(d) == Ok(|Header(n, start)| + n)
  {
    if n >= IMM_LEN_COUNT {
      LongHeaderRead(n, start, rest);
    } else {
      ShortHeaderRead(n, start, rest);
    }
  }

  lemma LongHeaderRead(n: nat, start: nat, rest: bytes)
    requires start == DATA_START || start == LIST_START
    requires IMM_LEN_COUNT <= n < LENGTH_LIMIT && n <= |rest|
    ensures var d := Header(n, start) + rest;
            && PayloadOffset(d) == |Header(n, start)|
            && Length(d) == Ok(n)
            && (start == DATA_START <==> IsData(d))
            && ActualSize(d) == Ok(|Header(n, start)| + n)
  {
    hide BE, FromBE;
    var d := Header(n, start) + rest;
    LongHeader(n, start);
    var size := |BE(n)|;
    assert LengthSize(d) == size;
    assert d[1..1 + size] == BE(n);
    assert Length(d) == LongLength(d, size);
  }

  lemma ShortHeaderRead(n: nat, start: nat, rest: bytes)
    requires start == DATA_START || start == LIST_START
    requires n < IMM_LEN_COUNT && n <= |rest|
    requires start == DATA_START && n == 1 ==> rest[0] >= DATA_START
    ensures var d := Header(n, start) + rest;
            && PayloadOffset(d) == |Header(n, start)|
            && Length(d) == Ok(n)
            && (start == DATA_START <==> IsData(d))
            && ActualSize(d) == Ok(|Header(n, start)| + n)
  {
    var d := Header(n, start) + rest;
    assert d[0] == start + n;
    assert LengthSize(d) == 0;
  }

  /// The reader finds exactly the encoded item at the front of a longer string.
  lemma EncodedSize(x: Item, rest: bytes)
    requires |Encode(x)| < LENGTH_LIMIT
    ensures SizeAsEncoded(Encode(x) + rest) == Ok(|Encode(x)|)
  {
    match x
    case Data(b) =>
      if !(|b| == 1 && b[0] < DATA_START) {
        assert Encode(x) + rest == Header(|b|, DATA_START) + (b + rest);
        HeaderRead(|b|, DATA_START, b + rest);
      }
    case List(xs) =>
      var p := EncodeAll(xs);
      assert Encode(x) + rest == Header(|p|, LIST_START) + (p + rest);
      HeaderRead(|p|, LIST_START, p + rest);
  }

  /// Reading back what was written gives the same tree, up to 256 bytes below the greatest size.
  lemma {:induction false} DecodeEncode(x: Item)
    requires |Encode(x)| < 0xffff_ffff_ffff_feff
    ensures Decode(Encode(x)) == Ok(x)
    decreases x, 1
  {
    var d := Encode(x);
    EncodedSize(x, []);
    assert d + [] == d;
    match x
    case Data(b) =>
      if !(|b| == 1 && b[0] < DATA_START) {
        HeaderRead(|b|, DATA_START, b);
        assert d[PayloadOffset(d)..PayloadOffset(d) + |b|] == b;
      }
    case List(xs) =>
      var p := EncodeAll(xs);
      HeaderRead(|p|, LIST_START, p);
      assert d[PayloadOffset(d)..PayloadOffset(d) + |p|] == p;
      DecodeEncodeAll(xs);
  }

  lemma {:induction false} DecodeEncodeAll(xs: seq<Item>)
    requires |EncodeAll(xs)| < LENGTH_LIMIT
    ensures DecodeAll(EncodeAll(xs)) == Ok(xs)
    decreases xs, 0
  {
    if xs != [] {
      var p, e := EncodeAll(xs), Encode(xs[0]);
      EncodedSize(xs[0], EncodeAll(xs[1..]));
      assert p[..|e|] == e && p[|e|..] == EncodeAll(xs[1..]);
      DecodeEncode(xs[0]);
      DecodeEncodeAll(xs[1..]);
      assert xs == [xs[0]] + xs[1..];
    }
  }

  /// A header the reader accepts is the one the writer would have produced.
  lemma HeaderCanonical(d: bytes)
    requires d != [] && !IsSingleByte(d)
    requires Length(d).Ok? && PayloadOffset(d) <= |d|
    ensures d[..PayloadOffset(d)] == Header(Length(d).value, if IsData(d) then DATA_START else LIST_START)
  {
    if LengthSize(d) > 0 {
      LongHeaderCanonical(d, LengthSize(d));
    }
  }

  lemma LongHeaderCanonical(d: bytes, size: nat)
    requires d != [] && size == LengthSize(d) > 0
    requires LongLength(d, size).Ok?
    ensures d[..1 + size] == Header(LongLength(d, size).value, if IsData(d) then DATA_START else LIST_START)
  {
    hide BE, FromBE;
    var spelled := d[1..1 + size];
    BEUnique(spelled);
    FirstByteCanonical(d, size);
    assert d[..1 + size] == [d[0]] + spelled;
  }

  /// The first byte tells the kind and how many bytes the length has.
  lemma FirstByteCanonical(d: bytes, size: nat)
    requires d != [] && size == LengthSize(d) > 0
    ensures d[0] == ((if IsData(d) then DATA_START else LIST_START) + IMM_LEN_COUNT - 1 + size) % 256
  {
  }

  /// An item read very strictly is its header and its payload, nothing more.
  lemma ExactSize(d: bytes)
    requires d != [] && !IsSingleByte(d) && VeryStrict(d).Ok?
    ensures Length(d).Ok? && PayloadOffset(d) + Length(d).value == |d|
    ensures Payload(d).Ok? && |Payload(d).value| == Length(d).value
    ensures d == d[..PayloadOffset(d)] + Payload(d).value
  {
  }

  /// Every byte string the reader accepts is the encoding of the tree it reads.
  lemma {:induction false} EncodeDecode(d: bytes)
    requires Decode(d).Ok?
    ensures Encode(Decode(d).value) == d
    decreases |d|, 0
  {
    var p := Payload(d).value;
    if IsSingleByte(d) {
      assert p == d;
    } else {
      ExactSize(d);
      HeaderCanonical(d);
      if IsList(d) {
        EncodeDecodeAll(p);
      } else {
        assert |p| == 1 ==> p[0] == d[1] >= DATA_START;
      }
    }
  }

  lemma {:induction false} EncodeDecodeAll(p: bytes)
    requires DecodeAll(p).Ok?
    ensures EncodeAll(DecodeAll(p).value) == p
    decreases |p|, 1
  {
    if p != [] {
      var n := SizeAsEncoded(p).value;
      EncodeDecode(p[..n]);
      EncodeDecodeAll(p[n..]);
      assert p == p[..n] + p[n..];
    }
  }

  /// Two different trees below the size limit never share an encoding.
  lemma EncodeInjective(x: Item, y: Item)
    requires |Encode(x)| < LENGTH_LIMIT
    requires Encode(x) == Encode(y)
    ensures x == y
  {
    DecodeEncode(x);
    DecodeEncode(y);
  }

  /// Two different byte strings never read as the same tree.
  lemma DecodeInjective(a: bytes, b: bytes)
    requires Decode(a).Ok? && Decode(a) == Decode(b)
    ensures a == b
  {
    EncodeDecode(a);
    EncodeDecode(b);
  }
}
