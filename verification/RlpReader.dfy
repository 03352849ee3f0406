/// Reading list items: RLP::operator[] with its last-index cache, items() and the iterator
/// of libdevcore/RLP.cpp, against one plain list of the item slices.
module RlpReader {
  import opened Bytes
  import opened Rlp

  /// The initial value of m_lastIndex: no index yet.
  const NO_INDEX: nat := 0xffff_ffff_ffff_ffff

  /// The slices of a payload, each as long as its own header says.
  function Split(p: bytes): Result<seq<bytes>> {
    if p == [] then Ok([])
    else
      var n :- SizeAsEncoded(p);
      var rest :- Split(p[n..]);
      Ok([p[..n]] + rest)
  }

  function Join(slices: seq<bytes>): bytes {
    if slices == [] then [] else slices[0] + Join(slices[1..])
  }

  lemma {:induction false} SplitJoin(p: bytes)
    requires Split(p).Ok?
    ensures Join(Split(p).value) == p
  {
    hide SizeAsEncoded;
    if p != [] {
      var n := SizeAsEncoded(p).value;
      SplitJoin(p[n..]);
      assert Split(p).value[1..] == Split(p[n..]).value;
    }
  }

  /// Every slice is an item of exactly its own size.
  lemma {:induction false} SliceSize(p: bytes, k: nat)
    requires Split(p).Ok? && k < |Split(p).value|
    ensures Split(p).value[k] != [] && ActualSize(Split(p).value[k]) == Ok(|Split(p).value[k]|)
  {
    hide ActualSize;
    var n := SizeAsEncoded(p).value;
    if k == 0 {
      FrontSize(p);
      assert Split(p).value[0] == p[..n];
    } else {
      SliceSize(p[n..], k - 1);
    }
  }

  /// Cutting a string to its first item does not change what its header says.
  lemma {:induction false} FrontSize(p: bytes)
    requires p != [] && SizeAsEncoded(p).Ok?
    ensures ActualSize(p[..SizeAsEncoded(p).value]) == SizeAsEncoded(p)
  {
    var n := SizeAsEncoded(p).value;
    if !IsSingleByte(p) && LengthSize(p) > 0 {
      assert p[..n][1..1 + LengthSize(p)] == p[1..1 + LengthSize(p)];
    }
  }

  /// A list whose bytes are one item exactly and whose payload splits into items.
  predicate WellFormed(d: bytes) {
    IsList(d) && VeryStrict(d).Ok? && Payload(d).Ok? && Split(Payload(d).value).Ok?
  }

  function Slices(d: bytes): seq<bytes>
    requires WellFormed(d)
  {
    Split(Payload(d).value).value
  }

  /// Where the k-th slice starts in the payload.
  function Offset(slices: seq<bytes>, k: nat): nat
    requires k <= |slices|
  {
    |Join(slices[..k])|
  }

  lemma {:induction false} JoinAppend(a: seq<bytes>, b: seq<bytes>)
    ensures Join(a + b) == Join(a) + Join(b)
  {
    if a == [] {
      assert a + b == b;
    } else {
      assert (a + b)[0] == a[0] && (a + b)[1..] == a[1..] + b;
      JoinAppend(a[1..], b);
    }
  }

  lemma {:induction false} OffsetNext(slices: seq<bytes>, k: nat)
    requires k < |slices|
    ensures Offset(slices, k + 1) == Offset(slices, k) + |slices[k]|
    ensures Offset(slices, k + 1) <= |Join(slices)|
    ensures Join(slices)[Offset(slices, k)..] == slices[k] + Join(slices[k + 1..])
  {
    assert slices[..k + 1] == slices[..k] + [slices[k]];
    assert slices == slices[..k + 1] + slices[k + 1..];
    var one: seq<bytes> := [slices[k]];
    assert one[1..] == [] && Join(one) == slices[k] + Join([]);
    JoinAppend(slices[..k], [slices[k]]);
    JoinAppend(slices[..k + 1], slices[k + 1..]);
  }

  /// The rest of a payload from the k-th slice on splits into the slices from k on.
  lemma {:induction false} SplitFrom(p: bytes, k: nat)
    requires Split(p).Ok? && k <= |Split(p).value|
    ensures Offset(Split(p).value, k) <= |p|
    ensures Split(p[Offset(Split(p).value, k)..]) == Ok(Split(p).value[k..])
  {
    var s := Split(p).value;
    if k == 0 {
      assert p[0..] == p && s[0..] == s && s[..0] == [];
    } else {
      var n := SizeAsEncoded(p).value;
      var t := Split(p[n..]).value;
      SplitFrom(p[n..], k - 1);
      assert s == [p[..n]] + t;
      OffsetLater(p, n, s, t, k);
      hide Split, SizeAsEncoded, Offset;
    }
  }

  /// The k-th slice of a payload is the one before it of what follows the first slice.
  lemma OffsetLater(p: bytes, n: nat, s: seq<bytes>, t: seq<bytes>, k: nat)
    requires n <= |p| && s == [p[..n]] + t && 0 < k <= |s| && Offset(t, k - 1) <= |p[n..]|
    ensures Offset(s, k) == n + Offset(t, k - 1) <= |p|
    ensures p[n..][Offset(t, k - 1)..] == p[Offset(s, k)..] && s[k..] == t[k - 1..]
  {
    assert s[..k] == [p[..n]] + t[..k - 1];
    assert s[..k][0] == p[..n] && s[..k][1..] == t[..k - 1];
    assert Offset(s, k) == n + Offset(t, k - 1);
  }

  /// What one step of any of the readers sees at the k-th slice.
  lemma {:induction false} SliceAt(p: bytes, k: nat)
    requires Split(p).Ok? && k <= |Split(p).value|
    ensures var s := Split(p).value;
            Offset(s, k) <= |p| &&
            var rest := p[Offset(s, k)..];
            if k == |s| then rest == []
            else rest != [] && SizeAsEncoded(rest) == Ok(|s[k]|) && rest[..|s[k]|] == s[k]
  {
    SplitFrom(p, k);
    var s := Split(p).value;
    if k < |s| {
      assert s[k..][0] == s[k];
    }
  }

  /// The i-th item, or the null item past the end.
  function Nth(d: bytes, i: nat): bytes
    requires WellFormed(d)
  {
    if i < |Slices(d)| then Slices(d)[i] else []
  }

  lemma {:induction false} SplitEncoded(xs: seq<Item>)
    requires |EncodeAll(xs)| < LENGTH_LIMIT
    ensures Split(EncodeAll(xs)).Ok? && |Split(EncodeAll(xs)).value| == |xs|
    ensures forall i :: 0 <= i < |xs| ==> Split(EncodeAll(xs)).value[i] == Encode(xs[i])
  {
    if xs != [] {
      var p, e := EncodeAll(xs), Encode(xs[0]);
      EncodedSize(xs[0], EncodeAll(xs[1..]));
      assert p[..|e|] == e && p[|e|..] == EncodeAll(xs[1..]);
      SplitEncoded(xs[1..]);
    }
  }

  /// The slices of an encoded list are its encoded items.
  lemma SlicesOfList(xs: seq<Item>)
    requires |Encode(List(xs))| < 0xffff_ffff_ffff_feff
    ensures var d := Encode(List(xs));
            && WellFormed(d) && |Slices(d)| == |xs|
            && forall i :: 0 <= i < |xs| ==> Slices(d)[i] == Encode(xs[i])
  {
    hide Split, Payload, IsList, VeryStrict, Encode;
    EncodedPayload(xs);
    SplitEncoded(xs);
  }

  lemma EncodedPayload(xs: seq<Item>)
    requires |Encode(List(xs))| < LENGTH_LIMIT
    ensures var d := Encode(List(xs));
            && IsList(d) && VeryStrict(d).Ok? && Payload(d) == Ok(EncodeAll(xs)) && |EncodeAll(xs)| <= |d|
  {
    hide Length, LengthSize, EncodeAll, FromBE, BE;
    var d, p := Encode(List(xs)), EncodeAll(xs);
    HeaderRead(|p|, LIST_START, p);
    assert d == Header(|p|, LIST_START) + p && d[PayloadOffset(d)..PayloadOffset(d) + |p|] == p;
  }

  lemma {:induction false} NthSize(d: bytes, k: nat)
    requires WellFormed(d)
    ensures Nth(d, k) == [] <==> k >= |Slices(d)|
    ensures ActualSize(Nth(d, k)) == Ok(|Nth(d, k)|)
  {
    if k < |Slices(d)| {
      SliceSize(Payload(d).value, k);
    }
  }

  /// Where the slice after the k-th one stands in the whole item, and what is cut there.
  lemma {:induction false} NextSlice(d: bytes, k: nat)
    requires WellFormed(d) && k < |Slices(d)|
    ensures Offset(Slices(d), k + 1) == Offset(Slices(d), k) + |Slices(d)[k]|
    ensures var at := PayloadOffset(d) + Offset(Slices(d), k + 1);
            && at <= |d|
            && (at == |d| <==> k + 1 == |Slices(d)|)
            && SizeAsEncoded(d[at..]) == Ok(|Nth(d, k + 1)|)
            && d[at..][..|Nth(d, k + 1)|] == Nth(d, k + 1)
  {
    hide *;
    PayloadStands(d);
    NthIs(d, k + 1);
    OffsetStep(Slices(d), k);
    NextItem(d, PayloadOffset(d), Payload(d).value, k + 1);
  }

  lemma NthIs(d: bytes, k: nat)
    requires WellFormed(d)
    ensures Nth(d, k) == if k < |Slices(d)| then Slices(d)[k] else []
  {
  }

  lemma NextItem(d: bytes, at: nat, p: bytes, k: nat)
    requires at + |p| == |d| && d[at..] == p && Split(p).Ok? && k <= |Split(p).value|
    ensures var s := Split(p).value;
            var item, from := if k < |s| then s[k] else [], at + Offset(s, k);
            && from <= |d| && (from == |d| <==> k == |s|)
            && SizeAsEncoded(d[from..]) == Ok(|item|) && d[from..][..|item|] == item
  {
    hide *;
    FrontOfRest(p, k);
    RestOfPayload(d, at, p, Offset(Split(p).value, k));
  }

  lemma OffsetStep(slices: seq<bytes>, k: nat)
    requires k < |slices|
    ensures Offset(slices, k + 1) == Offset(slices, k) + |slices[k]|
  {
    OffsetNext(slices, k);
  }

  /// What stands at the k-th slice, or behind the last.
  lemma FrontOfRest(p: bytes, k: nat)
    requires Split(p).Ok? && k <= |Split(p).value|
    ensures var s := Split(p).value;
            var item := if k < |s| then s[k] else [];
            Offset(s, k) <= |p|
            && (Offset(s, k) == |p| <==> k == |s|)
            && SizeAsEncoded(p[Offset(s, k)..]) == Ok(|item|)
            && |item| <= |p[Offset(s, k)..]| && p[Offset(s, k)..][..|item|] == item
  {
    SliceAt(p, k);
    EmptySize();
    hide *;
  }

  lemma EmptySize()
    ensures SizeAsEncoded([]) == Ok(0)
  {
  }

  /// The payload is what stands behind the header, and the slices are its own.
  lemma PayloadStands(d: bytes)
    requires WellFormed(d)
    ensures Payload(d).Ok? && PayloadOffset(d) + |Payload(d).value| == |d| && d[PayloadOffset(d)..] == Payload(d).value
    ensures Split(Payload(d).value) == Ok(Slices(d))
  {
    ExactSize(d);
  }

  lemma RestOfPayload(d: bytes, at: nat, p: bytes, from: nat)
    requires at + |p| == |d| && d[at..] == p && from <= |p|
    ensures d[at + from..] == p[from..]
  {
  }

  lemma {:induction false} OffsetZero(d: bytes)
    requires WellFormed(d)
    ensures Offset(Slices(d), 0) == 0
  {
    assert Slices(d)[..0] == [];
  }

  lemma {:induction false} EndOffset(d: bytes)
    requires WellFormed(d)
    ensures PayloadOffset(d) + Offset(Slices(d), |Slices(d)|) == |d|
  {
    ExactSize(d);
    SplitJoin(Payload(d).value);
    assert Slices(d)[..|Slices(d)|] == Slices(d);
  }

  class RLP {
    const data: bytes
    var lastIndex: nat
    var lastEnd: nat
    var lastItem: bytes

    /// On a well-formed list the cache is unset, or remembers one slice and where it ends, or
    /// remembers having run off the end.
    ghost predicate Valid()
      reads this
    {
      && (lastIndex == NO_INDEX ==> lastItem == [])
      && (lastIndex != NO_INDEX && WellFormed(data) ==>
            && lastIndex <= |Slices(data)|
            && lastItem == Nth(data, lastIndex)
            && lastEnd == Offset(Slices(data), lastIndex) + |lastItem|)
    }

    constructor (d: bytes)
      ensures Valid() && data == d
    {
      data, lastIndex, lastEnd, lastItem := d, NO_INDEX, 0, [];
    }

    /// operator[]: starts over for a smaller index, walks on from the cached one otherwise.
    /// Whatever was asked before, the answer is the i-th item.
    method At(i: nat) returns (r: Result<bytes>)
      requires Valid() && i < NO_INDEX
      modifies this
      ensures WellFormed(data) ==> Valid()
      ensures WellFormed(data) ==> r == Ok(if i < |Slices(data)| then Slices(data)[i] else [])
    {
      hide Split, ActualSize, Payload, VeryStrict, SizeAsEncoded, Offset, Slices;
      ghost var good := WellFormed(data);
      if good {
        OffsetZero(data);
      }
      if i < lastIndex {
        var first := TakeItem(0, 0);
        if first.Err? {
          return first;
        }
        lastEnd, lastItem, lastIndex := |first.value|, first.value, 0;
      }
      while lastIndex < i && lastItem != []
        invariant good ==> Valid()
        invariant lastIndex <= i
        decreases i - lastIndex
      {
        if good {
          NthSize(data, lastIndex);
          NextSlice(data, lastIndex);
        }
        var next := TakeItem(lastEnd, lastIndex + 1);
        if next.Err? {
          return next;
        }
        lastItem := next.value;
        lastEnd := lastEnd + |lastItem|;
        lastIndex := lastIndex + 1;
      }
      if good {
        NthSize(data, lastIndex);
      }
      var n := ActualSize(lastItem);
      if n.Err? {
        return Err(n.error);
      }
      r := if n.value > |lastItem| then Err(UndersizeRLP) else Ok(lastItem);
    }

    /// The item at an offset of the payload, cropped to its own size.
    method TakeItem(offset: nat, ghost k: nat) returns (r: Result<bytes>)
      ensures WellFormed(data) && k <= |Slices(data)| && offset == Offset(Slices(data), k) ==> r == Ok(Nth(data, k))
    {
      var p := Payload(data);
      if p.Err? {
        return Err(p.error);
      }
      var rest := if offset <= |p.value| then p.value[offset..] else [];
      var n := SizeAsEncoded(rest);
      r := if n.Err? then Err(n.error) else Ok(rest[..n.value]);
      if WellFormed(data) && k <= |Slices(data)| && offset == Offset(Slices(data), k) {
        SliceAt(p.value, k);
      }
    }

    /// items(): counts by cutting item after item off the payload.
    method Items() returns (r: Result<nat>)
      ensures WellFormed(data) ==> r == Ok(|Slices(data)|)
    {
      if !IsList(data) {
        return Ok(0);
      }
      var p := Payload(data);
      if p.Err? {
        return Err(p.error);
      }
      var d := p.value;
      var i := 0;
      while d != []
        invariant WellFormed(data) ==> Split(d).Ok? && i + |Split(d).value| == |Slices(data)|
        decreases |d|
      {
        var n := SizeAsEncoded(d);
        if n.Err? {
          return Err(n.error);
        }
        d := d[n.value..];
        i := i + 1;
      }
      return Ok(i);
    }
  }

  /// What follows the k-th item, where the iterator stands on it.
  lemma {:induction false} NextCursor(d: bytes, k: nat, start: nat, current: bytes, remaining: nat)
    requires WellFormed(d) && k <= |Slices(d)| && current == Nth(d, k)
    requires start == PayloadOffset(d) + Offset(Slices(d), k) && start + |current| + remaining == |d|
    ensures remaining > 0 <==> k + 1 < |Slices(d)|
    ensures var next, rest := if k < |Slices(d)| then k + 1 else k, d[start + |current|..start + |current| + remaining];
            && start + |current| == PayloadOffset(d) + Offset(Slices(d), next)
            && |Nth(d, next)| <= remaining
            && (remaining > 0 ==> SizeAsEncoded(rest) == Ok(|Nth(d, next)|) && rest[..|Nth(d, next)|] == Nth(d, next))
  {
    hide Split, ActualSize, Payload, VeryStrict, SizeAsEncoded, Offset, Slices, PayloadOffset, WellFormed;
    NthSize(d, k);
    if k < |Slices(d)| {
      NextSlice(d, k);
      NthSize(d, k + 1);
      assert d[start + |current|..start + |current| + remaining] == d[start + |current|..];
    } else {
      EndOffset(d);
    }
  }

  /// What there is to iterate over: nothing in an item that is not a list.
  function Parts(d: bytes): seq<bytes>
    requires IsList(d) ==> WellFormed(d)
  {
    if IsList(d) then Slices(d) else []
  }

  lemma PartsAre(d: bytes)
    requires IsList(d) ==> WellFormed(d)
    ensures if IsList(d) then Parts(d) == Slices(d) else Parts(d) == []
  {
  }

  /// RLP::iterator: the current item, where it stands, and how many payload bytes follow it.
  class Iterator {
    const data: bytes
    var start: nat
    var current: bytes
    var remaining: nat
    ghost var index: nat

    /// The iterator stands on the index-th item, or at the end.
    ghost predicate Valid()
      reads this
    {
      if IsList(data) then
        && WellFormed(data)
        && index <= |Slices(data)|
        && start == PayloadOffset(data) + Offset(Slices(data), index)
        && current == Nth(data, index)
        && start + |current| + remaining == |data|
      else
        index == 0 && start == |data| && current == [] && remaining == 0
    }

    constructor Begin(d: bytes)
      requires IsList(d) ==> WellFormed(d)
      ensures Valid() && data == d && index == 0
    {
      var at, item, left := |d|, [], 0;
      if IsList(d) {
        var pl := Payload(d).value;
        ExactSize(d);
        SliceAt(pl, 0);
        assert pl[0..] == pl && Slices(d)[..0] == [];
        var n := SizeAsEncoded(pl).value;
        at, item, left := PayloadOffset(d), pl[..n], |pl| - n;
      }
      data, start, current, remaining, index := d, at, item, left, 0;
    }

    method Advance()
      requires Valid()
      modifies this
      ensures Valid()
      ensures index == if old(index) < |Parts(data)| then old(index) + 1 else old(index)
    {
      hide Split, ActualSize, Payload, VeryStrict, SizeAsEncoded, Offset, Slices, PayloadOffset, WellFormed, Nth, IsList, Parts;
      PartsAre(data);
      if IsList(data) {
        NextCursor(data, index, start, current, remaining);
      }
      ghost var next := if index < |Parts(data)| then index + 1 else index;
      var at, left := start + |current|, remaining;
      var item := [];
      if left > 0 {
        item := data[at..at + left];
        item := item[..SizeAsEncoded(item).value];
        left := left - |item|;
      }
      start, current, remaining, index := at, item, left, next;
    }

    /// operator!= against end(): the end stands behind the last byte and is empty.
    method AtEnd() returns (b: bool)
      requires Valid()
      ensures b <==> index == |Parts(data)|
    {
      if IsList(data) {
        NthSize(data, index);
        if index == |Slices(data)| {
          EndOffset(data);
        }
      }
      b := start == |data| && current == [];
    }
  }

  /// toList: a loop over the iterator collects the same slices as indexing does; an item that is not
  /// a list gives none, or throws, as the flags say.
  method ToList(d: bytes, throwOnFail: bool) returns (r: Result<seq<bytes>>)
    requires IsList(d) ==> WellFormed(d)
    ensures r == if !IsList(d) && throwOnFail then Err(BadCast) else Ok(Parts(d))
    ensures IsList(d) ==> forall i :: 0 <= i < |r.value| ==> r.value[i] == Nth(d, i)
  {
    if !IsList(d) {
      return if throwOnFail then Err(BadCast) else Ok([]);
    }
    var items := [];
    var it := new Iterator.Begin(d);
    var end := it.AtEnd();
    while !end
      invariant it.Valid() && it.data == d && fresh(it)
      invariant items == Slices(d)[..it.index]
      invariant end <==> it.index == |Slices(d)|
      decreases |Slices(d)| - it.index
    {
      items := items + [it.current];
      it.Advance();
      end := it.AtEnd();
    }
    assert items == Slices(d);
    r := Ok(items);
  }
}
