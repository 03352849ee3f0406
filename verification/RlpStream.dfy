/// The RLP writer of libdevcore/RLP.cpp. A list is announced by its item count only; its
/// header is put in front of its payload when the last item arrives, by shifting the bytes
/// already written, under a stack of lists that are still open.
module RlpStream {
  import opened Bytes
  import opened Numbers
  import opened Options
  import opened Rlp

  /// The number of bytes a size_t can count.
  const SIZE_LIMIT: nat := U64

  /// What a stream holds, read without offsets: parts[0] is finished output and parts[i + 1] the
  /// payload so far of the i-th open list, which still waits for counts[i] items.
  datatype Frames = Frames(parts: seq<bytes>, counts: seq<nat>) {
    predicate Wf() {
      && |parts| == |counts| + 1
      && forall i :: 0 <= i < |counts| ==> counts[i] > 0
    }

    function Top(): bytes
      requires Wf()
    {
      parts[|parts| - 1]
    }

    function WithTop(b: bytes): (f: Frames)
      requires Wf()
      ensures f.Wf()
    {
      Frames(parts[..|parts| - 1] + [b], counts)
    }

    function Last(): nat
      requires Wf() && counts != []
    {
      counts[|counts| - 1]
    }

    function Open(n: nat): (f: Frames)
      requires Wf() && n > 0
      ensures f.Wf()
    {
      Frames(parts + [[]], counts + [n])
    }

    /// The innermost list gone, its header and payload now part of the list around it.
    function Closed(): (f: Frames)
      requires Wf() && counts != []
      ensures f.Wf()
    {
      var outer := parts[|parts| - 2];
      Frames(parts[..|parts| - 2] + [outer + Header(|Top()|, LIST_START) + Top()], counts[..|counts| - 1])
    }
  }

  /// noteAppended: n items were just added to the innermost open list. None is the exception.
  function Note(f: Frames, n: nat): (r: Option<Frames>)
    requires f.Wf()
    ensures r.Some? ==> r.value.Wf()
    decreases |f.counts|
  {
    if n == 0 || f.counts == [] then Some(f)
    else if f.Last() < n then None
    else if f.Last() > n then Some(f.(counts := f.counts[..|f.counts| - 1] + [f.Last() - n]))
    else if |f.Top()| >= SIZE_LIMIT then None
    else Note(f.Closed(), 1)
  }

  /// The bytes e, counted as n items, are written.
  function Add(f: Frames, e: bytes, n: nat): (r: Option<Frames>)
    requires f.Wf()
    ensures r.Some? ==> r.value.Wf()
  {
    Note(f.WithTop(f.Top() + e), n)
  }

  function Flat(parts: seq<bytes>): bytes {
    if parts == [] then [] else Flat(parts[..|parts| - 1]) + parts[|parts| - 1]
  }

  lemma FlatSnoc(parts: seq<bytes>, p: bytes)
    ensures Flat(parts + [p]) == Flat(parts) + p
  {
    assert (parts + [p])[..|parts|] == parts;
  }

  /// Where the payload of the i-th open list starts.
  ghost function Start(parts: seq<bytes>, i: nat): nat
    requires i < |parts|
  {
    |Flat(parts[..i + 1])|
  }

  /// pushInt: writes a number's bytes backwards, the last one at position last.
  method WriteBackwards(buf: bytes, last: nat, n: nat) returns (r: bytes)
    requires |BE(n)| <= last + 1 <= |buf|
    ensures r == buf[..last + 1 - |BE(n)|] + BE(n) + buf[last + 1..]
  {
    r := buf;
    var v, b := n, last;
    while v != 0
      invariant |r| == |buf| && b - last <= 0 && b + 1 == last + 1 - |BE(n)| + |BE(v)|
      invariant BE(n) == BE(v) + r[b + 1..last + 1]
      invariant r[..b + 1] == buf[..b + 1] && r[last + 1..] == buf[last + 1..]
    {
      ghost var o := r;
      r := r[b := v % 256];
      assert r[b..last + 1] == [v % 256] + o[b + 1..last + 1];
      assert BE(v) + o[b + 1..last + 1] == BE(v / 256) + r[b..last + 1];
      v, b := v / 256, b - 1;
    }
    assert r == r[..b + 1] + r[b + 1..last + 1] + r[last + 1..];
  }

  /// Writes a long list header over the bytes from position p on.
  method WriteLongHeader(buf: bytes, p: nat, n: nat, br: nat) returns (r: bytes)
    requires IMM_LEN_COUNT <= n < SIZE_LIMIT && br == |BE(n)| && p + br + 1 <= |buf|
    ensures r == buf[..p] + Header(n, LIST_START) + buf[p + br + 1..]
  {
    EightBytes();
    BESize(n, 8);
    var b := buf[p := LIST_START + IMM_LEN_COUNT - 1 + br];
    r := WriteBackwards(b, p + br, n);
    assert b[..p + 1] == buf[..p] + [LIST_START + IMM_LEN_COUNT - 1 + br];
    assert b[p + br + 1..] == buf[p + br + 1..];
    assert r == buf[..p] + ([LIST_START + IMM_LEN_COUNT - 1 + br] + BE(n)) + buf[p + br + 1..];
  }

  // ------------------------------------- writing a whole tree, by announcing its lists

  /// The calls that write a tree: append for data, appendList(n) and then the n items for a list.
  function Put(f: Frames, x: Item): (r: Option<Frames>)
    requires f.Wf()
    ensures r.Some? ==> r.value.Wf()
    decreases x, 1
  {
    match x
    case Data(b) => Add(f, EncodeData(b), 1)
    case List(xs) => if xs == [] then Add(f, [LIST_START], 1) else PutAll(f.Open(|xs|), xs)
  }

  function PutAll(f: Frames, xs: seq<Item>): (r: Option<Frames>)
    requires f.Wf()
    ensures r.Some? ==> r.value.Wf()
    decreases xs, 0
  {
    if xs == [] then Some(f)
    else match Put(f, xs[0]) { case None => None case Some(g) => PutAll(g, xs[1..]) }
  }

  /// A list that is full is one more item of the list around it.
  lemma ListCloses(f: Frames, xs: seq<Item>)
    requires f.Wf() && |Encode(List(xs))| < SIZE_LIMIT && xs != []
    ensures |f.Open(|xs|).Top()| + |EncodeAll(xs)| < SIZE_LIMIT
    ensures Add(f.Open(|xs|), EncodeAll(xs), |xs|) == Add(f, Encode(List(xs)), 1)
  {
    hide Note, EncodeAll;
    ListClosed(f, xs);
    NoteFull(f.Open(|xs|).WithTop(f.Open(|xs|).Top() + EncodeAll(xs)), |xs|);
  }

  lemma NoteFull(f: Frames, n: nat)
    requires f.Wf() && f.counts != [] && f.Last() == n > 0 && |f.Top()| < SIZE_LIMIT
    ensures Note(f, n) == Note(f.Closed(), 1)
  {
  }

  lemma ListClosed(f: Frames, xs: seq<Item>)
    requires f.Wf() && xs != []
    ensures var g := f.Open(|xs|);
            var full := g.WithTop(g.Top() + EncodeAll(xs));
            && full.Top() == EncodeAll(xs) && full.counts == f.counts + [|xs|]
            && full.Closed() == f.WithTop(f.Top() + Encode(List(xs)))
            && |EncodeAll(xs)| <= |Encode(List(xs))|
  {
    hide EncodeAll, Header, Note;
    var full := f.Open(|xs|).WithTop(f.Open(|xs|).Top() + EncodeAll(xs));
    assert f.Open(|xs|).Top() + EncodeAll(xs) == EncodeAll(xs);
    assert full.parts == f.parts + [EncodeAll(xs)];
    assert f.Top() + Header(|EncodeAll(xs)|, LIST_START) + EncodeAll(xs) == f.Top() + Encode(List(xs));
  }

  /// Writing a tree piece by piece adds exactly its Appendix B encoding as one item, however
  /// deep it is, whatever lists are open around it and however many of them this closes.
  lemma {:induction false} PutIsEncode(f: Frames, x: Item)
    requires f.Wf() && |Encode(x)| < SIZE_LIMIT
    ensures Put(f, x) == Add(f, Encode(x), 1)
    decreases x, 1
  {
    match x
    case Data(b) =>
    case List(xs) =>
      if xs != [] {
        PutAllIsEncode(f.Open(|xs|), xs);
        ListCloses(f, xs);
      } else {
        assert Encode(x) == [LIST_START];
      }
  }

  /// The same for the items of an open list that waits for at least that many.
  lemma {:induction false} PutAllIsEncode(f: Frames, xs: seq<Item>)
    requires f.Wf() && f.counts != [] && 0 < |xs| <= f.Last()
    requires |f.Top()| + |EncodeAll(xs)| < SIZE_LIMIT
    ensures PutAll(f, xs) == Add(f, EncodeAll(xs), |xs|)
    decreases xs, 0
  {
    hide Encode, EncodeAll, Header, Add, Note;
    FirstEncoded(xs);
    PutIsEncode(f, xs[0]);
    if |xs| > 1 {
      var e, rest := Encode(xs[0]), EncodeAll(xs[1..]);
      AddOne(f, e);
      var g := Counted(f, e);
      PutAllIsEncode(g, xs[1..]);
      AddMore(f, e, rest, |xs|);
    }
  }

  /// After one item that leaves its list open.
  function Counted(f: Frames, e: bytes): (g: Frames)
    requires f.Wf() && f.counts != [] && f.Last() > 1
    ensures g.Wf() && g.counts != [] && g.Last() == f.Last() - 1 && g.Top() == f.Top() + e
  {
    Frames(f.WithTop(f.Top() + e).parts, f.counts[..|f.counts| - 1] + [f.Last() - 1])
  }

  lemma AddOne(f: Frames, e: bytes)
    requires f.Wf() && f.counts != [] && f.Last() > 1
    ensures Add(f, e, 1) == Some(Counted(f, e))
  {
  }

  lemma AddMore(f: Frames, e: bytes, rest: bytes, n: nat)
    requires f.Wf() && f.counts != [] && 1 < n <= f.Last()
    ensures Add(Counted(f, e), rest, n - 1) == Add(f, e + rest, n)
  {
    hide Header, Note;
    var g := Counted(f, e);
    var a, b := g.WithTop(g.Top() + rest), f.WithTop(f.Top() + (e + rest));
    assert f.Top() + e + rest == f.Top() + (e + rest);
    assert a.parts == b.parts && a.counts == f.counts[..|f.counts| - 1] + [f.Last() - 1] && b.counts == f.counts;
    NoteOne(a, b, n);
  }

  /// One item more or less to count, where one more or less is waited for.
  lemma NoteOne(a: Frames, b: Frames, n: nat)
    requires a.Wf() && b.Wf() && b.counts != [] && 1 < n <= b.Last()
    requires a.parts == b.parts && a.counts == b.counts[..|b.counts| - 1] + [b.Last() - 1]
    ensures Note(a, n - 1) == Note(b, n)
  {
    hide Header;
    if b.Last() == n {
      assert a.Closed() == b.Closed();
    }
  }

  lemma FirstEncoded(xs: seq<Item>)
    requires xs != []
    ensures EncodeAll(xs) == Encode(xs[0]) + EncodeAll(xs[1..])
    ensures |xs| == 1 ==> EncodeAll(xs) == Encode(xs[0]) && xs[1..] == []
  {
  }

  lemma OneByte(buf: bytes, p: nat, b: byte)
    requires p < |buf|
    ensures buf[p := b] == buf[..p] + [b] + buf[p + 1..]
  {
  }

  class RLPStream {
    var out: bytes
    var stack: seq<(nat, nat)>
    ghost var frames: Frames

    /// The recorded start of every open list is where its payload really starts.
    ghost predicate Valid()
      reads this
    {
      && frames.Wf()
      && out == Flat(frames.parts)
      && |stack| == |frames.counts|
      && forall i :: 0 <= i < |stack| ==> stack[i].0 == frames.counts[i] && stack[i].1 == Start(frames.parts, i)
    }

    constructor ()
      ensures Valid() && frames == Frames([[]], [])
    {
      out, stack, frames := [], [], Frames([[]], []);
    }

    /// Shifts what stands from p on by n bytes.
    method OpenGap(p: nat, n: nat)
      requires p <= |out|
      modifies this`out
      ensures |out| == |old(out)| + n && out[..p] == old(out[..p]) && out[p + n..] == old(out[p..])
    {
      var os := |out|;
      out := out + seq(n, _ => 0);
      out := out[..p + n] + out[p..os];
    }

    /// Puts the header of the list whose payload starts at p in front of that payload.
    method InsertHeader(p: nat)
      requires p <= |out| && |out| - p < SIZE_LIMIT
      modifies this`out
      ensures out == old(out[..p]) + Header(|old(out)| - p, LIST_START) + old(out[p..])
    {
      var os := |out|;
      var s := os - p;
      var brs := BytesRequired(s);
      var encodeSize := if s < IMM_LEN_COUNT then 1 else 1 + brs;
      OpenGap(p, encodeSize);
      if s < IMM_LEN_COUNT {
        ghost var gap := out;
        out := out[p := LIST_START + s];
        OneByte(gap, p, LIST_START + s);
      } else {
        out := WriteLongHeader(out, p, s, brs);
      }
    }

    lemma ClosedOffsets()
      requires Valid() && stack != []
      ensures var p := stack[|stack| - 1].1;
              && p <= |out| && out[p..] == frames.Top()
              && out[..p] + Header(|frames.Top()|, LIST_START) + out[p..] == Flat(frames.Closed().parts)
              && forall i :: 0 <= i < |stack| - 1 ==>
                  stack[i].1 == Start(frames.Closed().parts, i)
    {
      var ps, n := frames.parts, |frames.parts|;
      var p, h := stack[n - 2].1, Header(|frames.Top()|, LIST_START);
      assert ps[..n - 1] == ps[..n - 2] + [ps[n - 2]];
      FlatSnoc(ps[..n - 2], ps[n - 2]);
      assert out == Flat(ps[..n - 1]) + ps[n - 1];
      FlatSnoc(ps[..n - 2], ps[n - 2] + h + ps[n - 1]);
      assert out[..p] == Flat(ps[..n - 2]) + ps[n - 2];
      assert out[..p] + h + out[p..] == Flat(ps[..n - 2]) + (ps[n - 2] + h + ps[n - 1]);
      forall i | 0 <= i < |stack| - 1 ensures Start(frames.Closed().parts, i) == Start(ps, i) {
        assert frames.Closed().parts[..i + 1] == ps[..i + 1];
      }
    }

    /// The innermost open list goes on waiting, for fewer items.
    method WaitFor(n: nat)
      requires Valid() && stack != [] && n < frames.Last()
      modifies this
      ensures Valid()
      ensures frames == old(frames).(counts := old(frames).counts[..|old(frames).counts| - 1] + [old(frames).Last() - n])
    {
      var last := |stack| - 1;
      stack := stack[last := (stack[last].0 - n, stack[last].1)];
      frames := frames.(counts := frames.counts[..last] + [frames.Last() - n]);
    }

    /// The innermost open list closes: its header goes in front of its payload.
    method CloseLast()
      requires Valid() && stack != [] && |frames.Top()| < SIZE_LIMIT
      modifies this
      ensures Valid() && frames == old(frames).Closed() && |stack| == |old(stack)| - 1
    {
      var last := |stack| - 1;
      ClosedOffsets();
      InsertHeader(stack[last].1);
      stack := stack[..last];
      frames := frames.Closed();
    }

    method NoteAppended(itemCount: nat) returns (ok: bool)
      requires Valid()
      modifies this
      ensures ok <==> Note(old(frames), itemCount).Some?
      ensures ok ==> Valid() && frames == Note(old(frames), itemCount).value
    {
      if itemCount == 0 {
        return true;
      }
      var n := itemCount;
      while stack != []
        invariant Valid() && n > 0
        invariant Note(frames, n) == Note(old(frames), itemCount)
        decreases |stack|
      {
        var last := |stack| - 1;
        if stack[last].0 < n {
          return false;
        }
        if stack[last].0 > n {
          WaitFor(n);
          return true;
        }
        ClosedOffsets();
        if |out| - stack[last].1 >= SIZE_LIMIT {
          return false;
        }
        CloseLast();
        n := 1;
      }
      return true;
    }

    /// appendRaw: bytes that are already RLP.
    method AppendRaw(s: bytes, itemCount: nat) returns (ok: bool)
      requires Valid()
      modifies this
      ensures ok <==> Add(old(frames), s, itemCount).Some?
      ensures ok ==> Valid() && frames == Add(old(frames), s, itemCount).value
    {
      GrowTop(s);
      ok := NoteAppended(itemCount);
    }

    /// Bytes go to the end of the output without being counted yet.
    method GrowTop(s: bytes)
      requires Valid()
      modifies this
      ensures Valid() && frames == old(frames.WithTop(frames.Top() + s))
    {
      ghost var ps := frames.parts;
      ghost var butLast := ps[..|ps| - 1];
      FlatSnoc(butLast, ps[|ps| - 1] + s);
      FlatSnoc(butLast, ps[|ps| - 1]);
      assert ps == butLast + [ps[|ps| - 1]];
      out := out + s;
      frames := frames.WithTop(frames.Top() + s);
      forall i | 0 <= i < |stack| ensures Start(frames.parts, i) == Start(ps, i) {
        assert frames.parts[..i + 1] == ps[..i + 1];
      }
      assert out == Flat(butLast) + (ps[|ps| - 1] + s);
    }

    /// appendList: opens a list of a known number of items.
    method AppendList(items: nat) returns (ok: bool)
      requires Valid()
      modifies this
      ensures items > 0 ==> ok && Valid() && frames == old(frames).Open(items)
      ensures items == 0 ==> (ok <==> Add(old(frames), [LIST_START], 1).Some?)
      ensures items == 0 && ok ==> Valid() && frames == Add(old(frames), [LIST_START], 1).value
    {
      if items > 0 {
        ghost var ps := frames.parts;
        FlatSnoc(ps, []);
        stack := stack + [(items, |out|)];
        frames := frames.Open(items);
        assert (ps + [[]])[..|ps|] == ps;
        forall i | 0 <= i < |stack| - 1 ensures Start(frames.parts, i) == Start(ps, i) {
          assert frames.parts[..i + 1] == ps[..i + 1];
        }
        ok := true;
      } else {
        ok := AppendRaw([LIST_START], 1);
      }
    }

    /// pushCount and pushInt: the long header of n bytes of data.
    method LongDataHeader(n: nat) returns (h: bytes)
      requires IMM_LEN_COUNT <= n < SIZE_LIMIT
      ensures h == Header(n, DATA_START)
    {
      EightBytes();
      var br := BytesRequired(n);
      h := [DATA_START + IMM_LEN_COUNT - 1 + br] + seq(br, _ => 0);
      h := WriteBackwards(h, br, n);
    }

    /// append of a byte string, as it is.
    method AppendData(d: bytes) returns (ok: bool)
      requires Valid() && |d| < SIZE_LIMIT
      modifies this
      ensures ok <==> Add(old(frames), EncodeData(d), 1).Some?
      ensures ok ==> Valid() && frames == Add(old(frames), EncodeData(d), 1).value
    {
      if |d| == 1 && d[0] < DATA_START {
        ok := AppendRaw(d, 1);
      } else if |d| < IMM_LEN_COUNT {
        ok := AppendRaw([DATA_START + |d|] + d, 1);
      } else {
        var h := LongDataHeader(|d|);
        ok := AppendRaw(h + d, 1);
      }
    }

    /// append, where compact drops leading zeros: then the bytes go in as the number they spell.
    method AppendBytes(s: bytes, compact: bool) returns (ok: bool)
      requires Valid() && |s| < SIZE_LIMIT
      modifies this
      ensures var d := if compact then BE(FromBE(s)) else s;
              && (ok <==> Add(old(frames), EncodeData(d), 1).Some?)
              && (ok ==> Valid() && frames == Add(old(frames), EncodeData(d), 1).value)
    {
      var d := s;
      if compact {
        d := Stripped(s);
      }
      ok := AppendData(d);
    }

    /// Writes a whole tree through the calls above.
    method WriteTree(x: Item) returns (ok: bool)
      requires Valid() && |Encode(x)| < SIZE_LIMIT
      modifies this
      ensures ok <==> Put(old(frames), x).Some?
      ensures ok ==> Valid() && frames == Put(old(frames), x).value
      decreases x
    {
      match x
      case Data(b) =>
        ok := AppendData(b);
      case List(xs) =>
        ok := AppendList(|xs|);
        ghost var start := if xs == [] then old(frames) else old(frames).Open(|xs|);
        for i := 0 to |xs|
          invariant ok ==> Valid() && (xs != [] ==> PutAll(start, xs) == PutAll(frames, xs[i..]))
          invariant xs != [] && !ok ==> PutAll(start, xs) == None
          invariant xs == [] ==> (ok <==> Put(old(frames), x).Some?) && (ok ==> frames == Put(old(frames), x).value)
        {
          if !ok {
            return;
          }
          ElementSize(xs, i);
          assert xs[i..][0] == xs[i] && xs[i..][1..] == xs[i + 1..];
          ok := WriteTree(xs[i]);
        }
    }

    static lemma ElementSize(xs: seq<Item>, i: nat)
      requires i < |xs|
      ensures |Encode(xs[i])| <= |EncodeAll(xs)|
    {
      assert xs == xs[..i] + xs[i..];
      EncodeAllAppend(xs[..i], xs[i..]);
    }

    /// out(): the bytes, once no list is left open.
    method Out() returns (r: Option<bytes>)
      requires Valid()
      ensures r == if frames.counts == [] then Some(frames.parts[0]) else None
    {
      if stack != [] {
        return None;
      }
      FlatSnoc([], frames.parts[0]);
      assert [] + [frames.parts[0]] == frames.parts;
      assert out == frames.parts[0];
      return Some(out);
    }
  }

  /// A tree written to a fresh stream: no call throws, no list stays open, and the output is
  /// the tree's encoding.
  method EncodeTree(x: Item) returns (e: bytes)
    requires |Encode(x)| < 0x1_0000_0000_0000_0000
    ensures e == Encode(x)
  {
    var s := new RLPStream();
    PutIsEncode(s.frames, x);
    var ok := s.WriteTree(x);
    var r := s.Out();
    e := r.value;
  }

  /// The loop over leading zeros in append.
  method Stripped(s: bytes) returns (d: bytes)
    ensures d == BE(FromBE(s)) && |d| <= |s|
  {
    d := s;
    while d != [] && d[0] == 0
      invariant |d| <= |s| && FromBE(d) == FromBE(s)
      decreases |d|
    {
      ZeroFirst(d);
      d := d[1..];
    }
    BEUnique(d);
  }

  /// A leading zero does not count.
  lemma {:induction false} ZeroFirst(d: bytes)
    requires d != [] && d[0] == 0
    ensures FromBE(d[1..]) == FromBE(d)
    decreases |d|
  {
    if |d| > 1 {
      ZeroFirst(d[..|d| - 1]);
      assert d[1..][..|d| - 2] == d[..|d| - 1][1..];
    }
  }
}
