/// Downloaded headers and bodies in chunks of consecutive numbers (libethereum/BlockChainSync.cpp).
module Chunks {
  import opened Options

  /// One entry of the std::map: its key and the vector that starts there.
  datatype Chunk<+T> = Chunk(begin: nat, items: seq<T>)

  /// The entries in the order of their keys.
  type Chunks<+T> = seq<Chunk<T>>

  function End<T>(c: Chunk<T>): nat {
    c.begin + |c.items|
  }

  predicate In<T>(c: Chunk<T>, n: nat) {
    c.begin <= n < End(c)
  }

  /// Not empty, and parted from the next by a gap.
  predicate Apart<T>(cs: Chunks<T>, j: int) {
    0 <= j < |cs| ==> cs[j].items != [] && (j + 1 < |cs| ==> End(cs[j]) < cs[j + 1].begin)
  }

  /// The chunks are sorted, not empty, disjoint and maximal.
  ghost predicate Good<T>(cs: Chunks<T>) {
    forall j :: Apart(cs, j)
  }

  /// The map from numbers to items that the chunks stand for.
  function Get<T>(cs: Chunks<T>, n: nat): Option<T> {
    if cs == [] then None
    else if In(cs[0], n) then Some(cs[0].items[n - cs[0].begin])
    else Get(cs[1..], n)
  }

  predicate Present<T>(cs: Chunks<T>, n: nat) {
    Get(cs, n).Some?
  }

  // ------------------------------------------------------------- chunks and the map

  lemma {:induction false} Sorted<T>(cs: Chunks<T>, i: nat, j: nat)
    requires Good(cs) && i < j < |cs|
    ensures End(cs[i]) < cs[j].begin
    decreases j - i
  {
    assert Apart(cs, i) && Apart(cs, i + 1);
    if i + 1 < j {
      Sorted(cs, i + 1, j);
    }
  }

  /// Of pieces of a list of chunks.
  lemma {:induction false} GetAppend<T>(a: Chunks<T>, b: Chunks<T>, n: nat)
    ensures Get(a + b, n) == if Present(a, n) then Get(a, n) else Get(b, n)
  {
    if a == [] {
      assert a + b == b;
    } else {
      GetAppend(a[1..], b, n);
      assert (a + b)[1..] == a[1..] + b;
    }
  }

  /// What is present lies in a chunk.
  lemma {:induction false} InWhich<T>(cs: Chunks<T>, n: nat) returns (j: nat)
    requires Present(cs, n)
    ensures j < |cs| && In(cs[j], n) && Get(cs, n) == Some(cs[j].items[n - cs[j].begin])
  {
    if In(cs[0], n) {
      return 0;
    }
    j := InWhich(cs[1..], n);
    j := j + 1;
  }

  /// What lies in a chunk is present.
  lemma {:induction false} GetIn<T>(cs: Chunks<T>, j: nat, n: nat)
    requires Good(cs) && j < |cs| && In(cs[j], n)
    ensures Get(cs, n) == Some(cs[j].items[n - cs[j].begin])
  {
    if j > 0 {
      Sorted(cs, 0, j);
      RestGood(cs);
      GetIn(cs[1..], j - 1, n);
    }
  }

  /// A number has the item that stands for it in the chunk it lies in.
  lemma GetMeans<T>(cs: Chunks<T>, n: nat, d: T)
    requires Good(cs)
    ensures Get(cs, n) == Some(d) <==>
              exists j :: 0 <= j < |cs| && cs[j].begin <= n < cs[j].begin + |cs[j].items| && cs[j].items[n - cs[j].begin] == d
  {
    if Get(cs, n) == Some(d) {
      var j := InWhich(cs, n);
    }
    if j :| 0 <= j < |cs| && cs[j].begin <= n < cs[j].begin + |cs[j].items| && cs[j].items[n - cs[j].begin] == d {
      GetIn(cs, j, n);
    }
  }

  lemma RestGood<T>(cs: Chunks<T>)
    requires Good(cs) && cs != []
    ensures Good(cs[1..])
  {
    forall j ensures Apart(cs[1..], j) {
      assert Apart(cs, j + 1);
    }
  }

  /// Nothing below the first chunk is present.
  lemma {:induction false} FromFirst<T>(cs: Chunks<T>, n: nat)
    requires Good(cs) && Present(cs, n)
    ensures cs != [] && n >= cs[0].begin
  {
    var j := InWhich(cs, n);
    if j > 0 {
      Sorted(cs, 0, j);
    }
  }

  /// Chunks do not overlap.
  lemma InOne<T>(cs: Chunks<T>, i: nat, j: nat, n: nat)
    requires Good(cs) && i < |cs| && j < |cs| && In(cs[i], n) && In(cs[j], n)
    ensures i == j
  {
    if i < j {
      Sorted(cs, i, j);
    } else if j < i {
      Sorted(cs, j, i);
    }
  }

  /// The first item of a chunk has nothing before it, and nothing follows the last.
  lemma {:induction false} AtEdges<T>(cs: Chunks<T>, j: nat)
    requires Good(cs) && j < |cs|
    ensures cs[j].begin > 0 ==> !Present(cs, cs[j].begin - 1)
    ensures !Present(cs, End(cs[j]))
  {
    assert Apart(cs, j);
    forall n: nat | n + 1 == cs[j].begin || n == End(cs[j]) ensures !Present(cs, n) {
      if Present(cs, n) {
        var i := InWhich(cs, n);
        assert Apart(cs, i);
        if i < j {
          Sorted(cs, i, j);
        } else if j < i {
          Sorted(cs, j, i);
        }
      }
    }
  }

  /// Where a number is missing and the next is not, the next is the head of a chunk: so looking a
  /// chunk up by it, as the header handler does, finds one.
  lemma HeadAfterGap<T>(cs: Chunks<T>, n: nat) returns (j: nat)
    requires Good(cs) && !Present(cs, n) && Present(cs, n + 1)
    ensures j < |cs| && cs[j].begin == n + 1
  {
    j := InWhich(cs, n + 1);
    if cs[j].begin <= n {
      GetIn(cs, j, n);
    }
  }

  /// Equal maps have one representation.
  lemma {:induction false} OneRepresentation<T>(a: Chunks<T>, b: Chunks<T>)
    requires Good(a) && Good(b) && forall n: nat :: Get(a, n) == Get(b, n)
    ensures a == b
  {
    if a == [] || b == [] {
      FirstPresent(a);
      FirstPresent(b);
    } else {
      SameFirst(a, b);
      RestGood(a);
      RestGood(b);
      forall n: nat ensures Get(a[1..], n) == Get(b[1..], n) {
        RestMissesFirst(a, n);
        RestMissesFirst(b, n);
      }
      OneRepresentation(a[1..], b[1..]);
    }
  }

  lemma FirstPresent<T>(cs: Chunks<T>)
    requires Good(cs)
    ensures cs != [] ==> Present(cs, cs[0].begin)
  {
    assert Apart(cs, 0);
  }

  lemma RestMissesFirst<T>(cs: Chunks<T>, n: nat)
    requires Good(cs) && cs != []
    ensures In(cs[0], n) ==> !Present(cs[1..], n)
    ensures !In(cs[0], n) ==> Get(cs[1..], n) == Get(cs, n)
  {
    RestGood(cs);
    assert Apart(cs, 0);
    if Present(cs[1..], n) {
      FromFirst(cs[1..], n);
    }
  }

  lemma {:induction false} SameFirst<T>(a: Chunks<T>, b: Chunks<T>)
    requires Good(a) && Good(b) && a != [] && b != [] && forall n: nat :: Get(a, n) == Get(b, n)
    ensures a[0] == b[0]
  {
    FirstPresent(a);
    FirstPresent(b);
    FromFirst(a, b[0].begin);
    FromFirst(b, a[0].begin);
    FirstNoLonger(a, b);
    FirstNoLonger(b, a);
    forall i | 0 <= i < |a[0].items| ensures a[0].items[i] == b[0].items[i] {
      GetIn(a, 0, a[0].begin + i);
      GetIn(b, 0, a[0].begin + i);
    }
  }

  lemma FirstNoLonger<T>(a: Chunks<T>, b: Chunks<T>)
    requires Good(a) && Good(b) && a != [] && b != [] && forall n: nat :: Get(a, n) == Get(b, n)
    requires a[0].begin == b[0].begin
    ensures |a[0].items| <= |b[0].items|
  {
    AtEdges(b, 0);
    if |b[0].items| < |a[0].items| {
      GetIn(a, 0, End(b[0]));
    }
  }

  // ------------------------------------------------------------- changes of the map

  /// lower_bound: the number of chunks with a smaller key.
  function LowerBound<T>(cs: Chunks<T>, n: nat): (k: nat)
    ensures k <= |cs|
    ensures k > 0 ==> cs[k - 1].begin < n
    ensures k < |cs| ==> cs[k].begin >= n
  {
    if cs == [] then 0
    else if cs[|cs| - 1].begin < n then |cs|
    else LowerBound(cs[..|cs| - 1], n)
  }

  /// Some neighbouring chunks give way to others.
  function Spliced<T>(cs: Chunks<T>, from: nat, to: nat, put: Chunks<T>): Chunks<T>
    requires from <= to <= |cs|
  {
    cs[..from] + put + cs[to..]
  }

  /// At most one chunk takes their place.
  lemma {:induction false} SplicedGood<T>(cs: Chunks<T>, from: nat, to: nat, put: Chunks<T>)
    requires Good(cs) && from <= to <= |cs| && |put| <= 1
    requires put != [] ==> put[0].items != []
    requires put != [] && from > 0 ==> End(cs[from - 1]) < put[0].begin
    requires put != [] && to < |cs| ==> End(put[0]) < cs[to].begin
    ensures Good(Spliced(cs, from, to, put))
  {
    var now := Spliced(cs, from, to, put);
    if put == [] && 0 < from && to < |cs| {
      Sorted(cs, from - 1, to);
    }
    forall j ensures Apart(now, j) {
      assert Apart(cs, j) && Apart(cs, j - |put| - from + to);
    }
  }

  /// Outside of the chunks that give way nothing changes.
  lemma {:induction false} SplicedGet<T>(cs: Chunks<T>, from: nat, to: nat, put: Chunks<T>, n: nat)
    requires Good(cs) && from <= to <= |cs|
    requires from > 0 && Present(put, n) ==> n >= End(cs[from - 1])
    ensures Get(Spliced(cs, from, to, put), n) ==
              if Present(put, n) then Get(put, n)
              else if Present(cs[from..to], n) then None
              else Get(cs, n)
  {
    GetAppend(cs[..from] + put, cs[to..], n);
    GetAppend(cs[..from], put, n);
    GetAppend(cs[..from], cs[from..], n);
    GetAppend(cs[from..to], cs[to..], n);
    assert cs[..from] + cs[from..] == cs && cs[from..to] + cs[to..] == cs[from..];
    if Present(cs[..from], n) {
      OnlyOnce(cs, from, n);
    }
    if Present(cs[from..to], n) {
      PieceIn(cs, from, to, n);
    }
  }

  /// What the first k chunks hold, the others do not, and it lies before their end.
  lemma {:induction false} OnlyOnce<T>(cs: Chunks<T>, k: nat, n: nat)
    requires Good(cs) && k <= |cs| && Present(cs[..k], n)
    ensures !Present(cs[k..], n) && n < End(cs[k - 1])
  {
    var i := InWhich(cs[..k], n);
    if i < k - 1 {
      Sorted(cs, i, k - 1);
      assert Apart(cs, k - 1);
    }
    if Present(cs[k..], n) {
      var j := InWhich(cs[k..], n);
      Sorted(cs, i, k + j);
    }
  }

  /// What a piece in the middle holds, the first chunks and the last do not.
  lemma {:induction false} PieceIn<T>(cs: Chunks<T>, from: nat, to: nat, n: nat)
    requires Good(cs) && from <= to <= |cs| && Present(cs[from..to], n)
    ensures !Present(cs[..from], n) && !Present(cs[to..], n)
  {
    var i := InWhich(cs[from..to], n);
    if Present(cs[..from], n) {
      var j := InWhich(cs[..from], n);
      Sorted(cs, j, from + i);
    }
    if Present(cs[to..], n) {
      var j := InWhich(cs[to..], n);
      Sorted(cs, from + i, to + j);
    }
  }

  /// One chunk in the place of some.
  lemma {:induction false} SplicedOne<T>(cs: Chunks<T>, from: nat, to: nat, c: Chunk<T>, n: nat)
    requires Good(cs) && from <= to <= |cs| && (from > 0 ==> End(cs[from - 1]) <= c.begin)
    ensures Get(Spliced(cs, from, to, [c]), n) ==
              if In(c, n) then Some(c.items[n - c.begin])
              else if exists j :: from <= j < to && In(cs[j], n) then None
              else Get(cs, n)
  {
    GetOne(c, n);
    SplicedGet(cs, from, to, [c], n);
    if Present(cs[from..to], n) {
      var i := InWhich(cs[from..to], n);
      assert In(cs[from + i], n);
    }
    if j :| from <= j < to && In(cs[j], n) {
      PieceGood(cs, from, to);
      GetIn(cs[from..to], j - from, n);
    }
  }

  /// One chunk over some.
  lemma {:induction false} SplicedOver<T>(cs: Chunks<T>, from: nat, to: nat, c: Chunk<T>, n: nat)
    requires Good(cs) && from <= to <= |cs| && (from > 0 ==> End(cs[from - 1]) <= c.begin)
    requires forall j :: from <= j < to ==> c.begin <= cs[j].begin && End(cs[j]) <= End(c)
    ensures Get(Spliced(cs, from, to, [c]), n) == if In(c, n) then Some(c.items[n - c.begin]) else Get(cs, n)
  {
    hide Get, Spliced, Good;
    SplicedOne(cs, from, to, c, n);
  }

  lemma GetOne<T>(c: Chunk<T>, n: nat)
    ensures Get([c], n) == if In(c, n) then Some(c.items[n - c.begin]) else None
  {
    assert [c][1..] == [];
  }

  lemma PieceGood<T>(cs: Chunks<T>, from: nat, to: nat)
    requires Good(cs) && from <= to <= |cs|
    ensures Good(cs[from..to])
  {
    forall j ensures Apart(cs[from..to], j) {
      assert Apart(cs, from + j);
    }
  }

  /// A number is present if its chunk starts there, or the chunk that starts before reaches it.
  lemma {:induction false} BoundHolds<T>(cs: Chunks<T>, n: nat)
    requires Good(cs)
    ensures var k := LowerBound(cs, n);
            Present(cs, n) <==> (k < |cs| && cs[k].begin == n) || (k > 0 && n < End(cs[k - 1]))
  {
    var k := LowerBound(cs, n);
    assert Apart(cs, k);
    if k < |cs| && cs[k].begin == n {
      GetIn(cs, k, n);
    } else if k > 0 && n < End(cs[k - 1]) {
      GetIn(cs, k - 1, n);
    }
    if Present(cs, n) {
      var j := InWhich(cs, n);
      if j + 1 < k {
        Sorted(cs, j, k - 1);
      } else if k < j {
        Sorted(cs, k, j);
      }
    }
  }

  lemma BoundIs<T>(cs: Chunks<T>, j: nat)
    requires Good(cs) && j < |cs|
    ensures LowerBound(cs, cs[j].begin) == j
  {
    var k := LowerBound(cs, cs[j].begin);
    if k < j {
      Sorted(cs, k, j);
    } else if j + 1 < k {
      Sorted(cs, j, k - 1);
    }
  }

  // -------------------------------------------------------------------- removal

  /// Nothing is missing from n up to and with x.
  ghost predicate Run<T>(cs: Chunks<T>, n: nat, x: nat) {
    n <= x && forall y: nat :: n <= y <= x ==> Present(cs, y)
  }

  /// The run from a number in a chunk is the rest of the chunk.
  lemma {:induction false} RunIs<T>(cs: Chunks<T>, j: nat, n: nat, x: nat)
    requires Good(cs) && j < |cs| && In(cs[j], n)
    ensures Run(cs, n, x) <==> n <= x < End(cs[j])
  {
    if n <= x < End(cs[j]) {
      forall y: nat | n <= y <= x ensures Present(cs, y) {
        GetIn(cs, j, y);
      }
    }
    AtEdges(cs, j);
  }

  /// The chunks without the rest of a chunk: removeItem.
  function Removed<T>(cs: Chunks<T>, n: nat): Chunks<T> {
    var k := LowerBound(cs, n);
    if k < |cs| && cs[k].begin == n then Spliced(cs, k, k + 1, [])
    else if k > 0 && n < End(cs[k - 1]) then Spliced(cs, k - 1, k, [Cut(cs[k - 1], n)])
    else cs
  }

  function Cut<T>(c: Chunk<T>, n: nat): Chunk<T>
    requires In(c, n)
  {
    Chunk(c.begin, c.items[..n - c.begin])
  }

  /// removeItem drops the run that starts at the number, not the number alone.
  lemma {:induction false} RemovedGet<T>(cs: Chunks<T>, n: nat, x: nat)
    requires Good(cs)
    ensures Get(Removed(cs, n), x) == if Run(cs, n, x) then None else Get(cs, x)
  {
    var k := LowerBound(cs, n);
    BoundHolds(cs, n);
    assert Apart(cs, k);
    if k < |cs| && cs[k].begin == n {
      RunIs(cs, k, n, x);
      RemovedHead(cs, k, x);
    } else if k > 0 && n < End(cs[k - 1]) {
      RunIs(cs, k - 1, n, x);
      RemovedTail(cs, k, n, x);
    }
  }

  lemma RemovedHead<T>(cs: Chunks<T>, k: nat, x: nat)
    requires Good(cs) && k < |cs|
    ensures Get(Spliced(cs, k, k + 1, []), x) == if In(cs[k], x) then None else Get(cs, x)
  {
    SplicedGet(cs, k, k + 1, [], x);
    assert cs[k..k + 1] == [cs[k]];
    GetOne(cs[k], x);
  }

  lemma RemovedTail<T>(cs: Chunks<T>, k: nat, n: nat, x: nat)
    requires Good(cs) && 0 < k <= |cs| && In(cs[k - 1], n)
    ensures Get(Spliced(cs, k - 1, k, [Cut(cs[k - 1], n)]), x)
         == if n <= x < End(cs[k - 1]) then None else Get(cs, x)
  {
    if k > 1 {
      Sorted(cs, k - 2, k - 1);
    }
    SplicedOne(cs, k - 1, k, Cut(cs[k - 1], n), x);
    if In(cs[k - 1], x) {
      GetIn(cs, k - 1, x);
    }
  }

  lemma {:induction false} RemovedGood<T>(cs: Chunks<T>, n: nat)
    requires Good(cs)
    ensures Good(Removed(cs, n))
  {
    var k := LowerBound(cs, n);
    if k < |cs| && cs[k].begin == n {
      SplicedGood(cs, k, k + 1, []);
    } else if k > 0 && n < End(cs[k - 1]) {
      CutGood(cs, k, k, n);
    }
  }

  /// A chunk is cut, and the ones after it may go.
  lemma CutGood<T>(cs: Chunks<T>, k: nat, to: nat, n: nat)
    requires Good(cs) && 0 < k <= to <= |cs| && In(cs[k - 1], n) && cs[k - 1].begin < n
    ensures Good(Spliced(cs, k - 1, to, [Cut(cs[k - 1], n)]))
  {
    if k > 1 {
      Sorted(cs, k - 2, k - 1);
    }
    if to < |cs| {
      Sorted(cs, k - 1, to);
    }
    SplicedGood(cs, k - 1, to, [Cut(cs[k - 1], n)]);
  }

  /// removeAllStartingWith.
  function Below<T>(cs: Chunks<T>, n: nat): Chunks<T> {
    var k := LowerBound(cs, n);
    if k > 0 && n < End(cs[k - 1]) then Spliced(cs, k - 1, |cs|, [Cut(cs[k - 1], n)]) else cs[..k]
  }

  lemma {:induction false} BelowGet<T>(cs: Chunks<T>, n: nat, x: nat)
    requires Good(cs)
    ensures Get(Below(cs, n), x) == if x >= n then None else Get(cs, x)
  {
    var k := LowerBound(cs, n);
    if k > 0 && n < End(cs[k - 1]) {
      BelowCut(cs, n, x, k);
    } else {
      BelowWhole(cs, n, x, k);
    }
  }

  lemma BelowCut<T>(cs: Chunks<T>, n: nat, x: nat, k: nat)
    requires Good(cs) && k == LowerBound(cs, n) > 0 && n < End(cs[k - 1])
    ensures Get(Spliced(cs, k - 1, |cs|, [Cut(cs[k - 1], n)]), x) == if x >= n then None else Get(cs, x)
  {
    Around(cs, k);
    SplicedOne(cs, k - 1, |cs|, Cut(cs[k - 1], n), x);
    if In(cs[k - 1], x) {
      GetIn(cs, k - 1, x);
    }
    hide Good, Get, Spliced, LowerBound;
    if Present(cs, x) {
      var j := InWhich(cs, x);
      BelowWhich(cs, n, x, j);
      forall i | 0 <= i < |cs| && In(cs[i], x) ensures i == j {
        InOne(cs, i, j, x);
      }
    }
  }

  lemma BelowWhole<T>(cs: Chunks<T>, n: nat, x: nat, k: nat)
    requires Good(cs) && k == LowerBound(cs, n) && (k > 0 ==> n >= End(cs[k - 1]))
    ensures Get(cs[..k], x) == if x >= n then None else Get(cs, x)
  {
    GetAppend(cs[..k], cs[k..], x);
    assert cs[..k] + cs[k..] == cs;
    if Present(cs[..k], x) {
      OnlyOnce(cs, k, x);
    }
    if Present(cs[k..], x) {
      PieceGood(cs, k, |cs|);
      assert cs[k..|cs|] == cs[k..];
      FromFirst(cs[k..], x);
    }
  }

  lemma BelowWhich<T>(cs: Chunks<T>, n: nat, x: nat, j: nat)
    requires Good(cs) && j < |cs| && In(cs[j], x) && LowerBound(cs, n) > 0 && n < End(cs[LowerBound(cs, n) - 1])
    ensures j + 1 < LowerBound(cs, n) ==> x < n
    ensures x < n ==> j < LowerBound(cs, n)
  {
    var k := LowerBound(cs, n);
    if j + 1 < k {
      Sorted(cs, j, k - 1);
    } else if k < j {
      Sorted(cs, k, j);
    }
  }

  lemma {:induction false} BelowGood<T>(cs: Chunks<T>, n: nat)
    requires Good(cs)
    ensures Good(Below(cs, n))
  {
    var k := LowerBound(cs, n);
    if k > 0 && n < End(cs[k - 1]) {
      CutGood(cs, k, |cs|, n);
    } else {
      PieceGood(cs, 0, k);
      assert cs[0..k] == cs[..k];
    }
  }

  // -------------------------------------------------------------------- mergeInto

  /// The chunks around a bound.
  lemma Around<T>(cs: Chunks<T>, k: nat)
    requires Good(cs) && k <= |cs|
    ensures k > 1 ==> End(cs[k - 2]) < cs[k - 1].begin
    ensures 0 < k < |cs| ==> End(cs[k - 1]) < cs[k].begin
    ensures k + 1 < |cs| ==> End(cs[k]) < cs[k + 1].begin
    ensures k < |cs| ==> cs[k].items != []
  {
    assert Apart(cs, k);
    if k > 0 {
      SortedPair(cs, k - 1);
    }
    if k > 1 {
      SortedPair(cs, k - 2);
    }
  }

  lemma SortedPair<T>(cs: Chunks<T>, j: nat)
    requires Good(cs)
    ensures j + 1 < |cs| ==> End(cs[j]) < cs[j + 1].begin
  {
    assert Apart(cs, j);
  }

  predicate JoinsBefore<T>(cs: Chunks<T>, k: nat, n: nat) {
    0 < k <= |cs| && End(cs[k - 1]) == n
  }

  predicate JoinsAfter<T>(cs: Chunks<T>, k: nat, n: nat) {
    k < |cs| && cs[k].begin == n + 1
  }

  /// The chunk a new item makes with its neighbours.
  function Joined<T>(cs: Chunks<T>, k: nat, n: nat, d: T): Chunk<T> {
    var tail := if JoinsAfter(cs, k, n) then [d] + cs[k].items else [d];
    if JoinsBefore(cs, k, n) then Chunk(cs[k - 1].begin, cs[k - 1].items + tail) else Chunk(n, tail)
  }

  /// It takes the place of those chunks.
  function Merged<T>(cs: Chunks<T>, n: nat, d: T): Chunks<T> {
    var k := LowerBound(cs, n);
    Spliced(cs, if JoinsBefore(cs, k, n) then k - 1 else k, if JoinsAfter(cs, k, n) then k + 1 else k, [Joined(cs, k, n, d)])
  }

  lemma {:induction false} MergedGood<T>(cs: Chunks<T>, n: nat, d: T)
    requires Good(cs) && !Present(cs, n)
    ensures Good(Merged(cs, n, d))
  {
    var k := LowerBound(cs, n);
    BoundHolds(cs, n);
    Around(cs, k);
    SplicedGood(cs, if JoinsBefore(cs, k, n) then k - 1 else k, if JoinsAfter(cs, k, n) then k + 1 else k,
                [Joined(cs, k, n, d)]);
  }

  lemma JoinedHolds<T>(cs: Chunks<T>, k: nat, n: nat, d: T, x: nat)
    requires Good(cs)
    ensures var c := Joined(cs, k, n, d);
            && (In(c, x) <==> x == n || (JoinsBefore(cs, k, n) && In(cs[k - 1], x)) || (JoinsAfter(cs, k, n) && In(cs[k], x)))
            && (In(c, x) ==> (if x == n then Some(d) else Get(cs, x)) == Some(c.items[x - c.begin]))
  {
    if JoinsBefore(cs, k, n) && In(cs[k - 1], x) {
      GetIn(cs, k - 1, x);
    }
    if JoinsAfter(cs, k, n) && In(cs[k], x) {
      GetIn(cs, k, x);
    }
  }

  /// mergeInto adds one binding.
  lemma {:induction false} MergedGet<T>(cs: Chunks<T>, n: nat, d: T, x: nat)
    requires Good(cs) && !Present(cs, n)
    ensures Get(Merged(cs, n, d), x) == if x == n then Some(d) else Get(cs, x)
  {
    hide *;
    var k := LowerBound(cs, n);
    JoinsIn(cs, k, n);
    var from, to := if JoinsBefore(cs, k, n) then k - 1 else k, if JoinsAfter(cs, k, n) then k + 1 else k;
    MergedIs(cs, n, d, from, to);
    JoinedOver(cs, n, d, k, from, to);
    JoinedHolds(cs, k, n, d, x);
    SplicedOver(cs, from, to, Joined(cs, k, n, d), x);
  }

  lemma JoinsIn<T>(cs: Chunks<T>, k: nat, n: nat)
    ensures JoinsBefore(cs, k, n) ==> 0 < k <= |cs|
    ensures JoinsAfter(cs, k, n) ==> k < |cs|
  {
  }

  lemma MergedIs<T>(cs: Chunks<T>, n: nat, d: T, from: nat, to: nat)
    requires var k := LowerBound(cs, n);
             from == (if JoinsBefore(cs, k, n) then k - 1 else k) && to == (if JoinsAfter(cs, k, n) then k + 1 else k)
    ensures from <= to <= |cs| && Merged(cs, n, d) == Spliced(cs, from, to, [Joined(cs, LowerBound(cs, n), n, d)])
  {
    hide Spliced, Joined;
  }

  /// It covers the chunks it takes the place of, and comes after the others before.
  lemma JoinedOver<T>(cs: Chunks<T>, n: nat, d: T, k: nat, from: nat, to: nat)
    requires Good(cs) && !Present(cs, n) && k == LowerBound(cs, n)
    requires from == (if JoinsBefore(cs, k, n) then k - 1 else k) && to == (if JoinsAfter(cs, k, n) then k + 1 else k)
    ensures from <= to <= |cs| && (from > 0 ==> End(cs[from - 1]) <= Joined(cs, k, n, d).begin)
    ensures forall j :: from <= j < to ==>
              Joined(cs, k, n, d).begin <= cs[j].begin && End(cs[j]) <= End(Joined(cs, k, n, d))
  {
    BoundHolds(cs, n);
    Around(cs, k);
    JoinedEnds(cs, k, n, d);
    hide Good, Get, LowerBound, Joined;
  }

  lemma JoinedEnds<T>(cs: Chunks<T>, k: nat, n: nat, d: T)
    ensures Joined(cs, k, n, d).begin == if JoinsBefore(cs, k, n) then cs[k - 1].begin else n
    ensures End(Joined(cs, k, n, d)) == if JoinsAfter(cs, k, n) then End(cs[k]) else n + 1
  {
  }

  /// The container the helper functions work on.
  class ChunkMap<T> {
    var chunks: Chunks<T>

    ghost predicate Valid()
      reads this
    {
      Good(chunks)
    }

    constructor ()
      ensures Valid() && chunks == []
    {
      chunks := [];
    }

    method HaveItem(number: nat) returns (have: bool)
      requires Valid()
      ensures have <==> Present(chunks, number)
    {
      BoundHolds(chunks, number);
      if chunks == [] {
        return false;
      }
      var lower := LowerBound(chunks, number);
      if lower != |chunks| && chunks[lower].begin == number {
        return true;
      }
      if lower == 0 {
        return false;
      }
      lower := lower - 1;
      return chunks[lower].begin <= number && End(chunks[lower]) > number;
    }

    method FindItem(number: nat) returns (item: Option<T>)
      requires Valid()
      ensures item == Get(chunks, number)
    {
      BoundHolds(chunks, number);
      if chunks == [] {
        return None;
      }
      var lower := LowerBound(chunks, number);
      assert Apart(chunks, lower);
      if lower != |chunks| && chunks[lower].begin == number {
        GetIn(chunks, lower, number);
        return Some(chunks[lower].items[0]);
      }
      if lower == 0 {
        return None;
      }
      lower := lower - 1;
      if chunks[lower].begin <= number && End(chunks[lower]) > number {
        GetIn(chunks, lower, number);
        return Some(chunks[lower].items[number - chunks[lower].begin]);
      }
      return None;
    }

    /// Drops the run that starts at the number.
    method RemoveItem(number: nat)
      requires Valid()
      modifies this
      ensures Valid()
      ensures chunks == Removed(old(chunks), number)
      ensures forall x: nat :: Get(chunks, x) == if Run(old(chunks), number, x) then None else Get(old(chunks), x)
    {
      hide Good, Get, Run;
      RemovedGood(chunks, number);
      forall x: nat ensures Get(Removed(chunks, number), x) == if Run(chunks, number, x) then None else Get(chunks, x) {
        RemovedGet(chunks, number, x);
      }
      ghost var result := Removed(chunks, number);
      if chunks == [] {
        return;
      }
      var lower := LowerBound(chunks, number);
      if lower != |chunks| && chunks[lower].begin == number {
        chunks := Spliced(chunks, lower, lower + 1, []);
        return;
      }
      if lower == 0 {
        return;
      }
      lower := lower - 1;
      if chunks[lower].begin <= number && End(chunks[lower]) > number {
        chunks := Spliced(chunks, lower, lower + 1, [Cut(chunks[lower], number)]);
      }
    }

    /// Keeps what is below the number.
    method RemoveAllStartingWith(number: nat)
      requires Valid()
      modifies this
      ensures Valid()
      ensures chunks == Below(old(chunks), number)
      ensures forall x: nat :: Get(chunks, x) == if x >= number then None else Get(old(chunks), x)
    {
      hide Good, Get;
      BelowGood(chunks, number);
      forall x: nat ensures Get(Below(chunks, number), x) == if x >= number then None else Get(chunks, x) {
        BelowGet(chunks, number, x);
      }
      ghost var was := chunks;
      if chunks == [] {
        return;
      }
      var lower := LowerBound(chunks, number);
      BoundEnds(chunks, number);
      if lower != |chunks| && chunks[lower].begin == number {
        chunks := chunks[..lower];
        return;
      }
      if lower == 0 {
        chunks := [];
        return;
      }
      lower := lower - 1;
      if chunks[lower].begin <= number && End(chunks[lower]) > number {
        chunks := chunks[lower := Cut(chunks[lower], number)];
      }
      chunks := chunks[..lower + 1];
      assert chunks == Below(was, number);
    }

    /// Adds one item, next to which there may be chunks to join. It begins with an assertion that
    /// the number is not there: where it is, nothing more happens.
    method MergeInto(number: nat, data: T) returns (asserted: bool)
      requires Valid()
      modifies this
      ensures Valid()
      ensures asserted <==> Present(old(chunks), number)
      ensures chunks == if asserted then old(chunks) else Merged(old(chunks), number, data)
      ensures !asserted ==> forall x: nat :: Get(chunks, x) == if x == number then Some(data) else Get(old(chunks), x)
    {
      hide Good, Get, Joined, Spliced;
      asserted := HaveItem(number);
      if asserted {
        return;
      }
      MergedGood(chunks, number, data);
      forall x: nat ensures Get(Merged(chunks, number, data), x) == if x == number then Some(data) else Get(chunks, x) {
        MergedGet(chunks, number, data, x);
      }
      var bound := LowerBound(chunks, number);
      NotAtBound(chunks, number);
      var lower := if bound > 0 then bound - 1 else bound;
      if lower != |chunks| && End(chunks[lower]) == number {
        Extend(lower, number, data);
      } else {
        Insert(bound, number, data);
      }
    }

    /// std::map::at, which throws unless a chunk starts at the number.
    method At(number: nat, ghost j: nat) returns (items: seq<T>)
      requires Valid() && j < |chunks| && chunks[j].begin == number
      ensures items == chunks[j].items
    {
      BoundIs(chunks, j);
      items := chunks[LowerBound(chunks, number)].items;
    }

    method Clear()
      modifies this
      ensures Valid() && chunks == []
    {
      chunks := [];
    }

    /// Takes items off the first chunk; what is left of it starts later.
    method DropFirst(i: nat)
      requires Valid() && chunks != [] && i <= |chunks[0].items|
      modifies this
      ensures Valid()
      ensures chunks == WithoutFirst(old(chunks), i)
      ensures forall x: nat :: Get(chunks, x) == if x < old(chunks)[0].begin + i then None else Get(old(chunks), x)
    {
      var first := chunks[0];
      DropFirstGet(chunks, i);
      ghost var was := chunks;
      chunks := chunks[1..];
      if i < |first.items| {
        chunks := [Chunk(first.begin + i, first.items[i..])] + chunks;
      }
      assert chunks == WithoutFirst(was, i);
    }

    /// Extends a chunk, and merges it with the next.
    method Extend(lower: nat, number: nat, data: T)
      requires lower < |chunks| && End(chunks[lower]) == number
      modifies this
      ensures var cs, k := old(chunks), lower + 1;
              chunks == Spliced(cs, lower, if JoinsAfter(cs, k, number) then k + 1 else k, [Joined(cs, k, number, data)])
    {
      var next := lower + 1;
      var grown := Chunk(chunks[lower].begin, chunks[lower].items + [data]);
      chunks := chunks[lower := grown];
      if next != |chunks| && End(grown) == chunks[next].begin {
        assert grown.items + chunks[next].items == old(chunks[lower]).items + ([data] + chunks[next].items);
        chunks := chunks[..lower] + [Chunk(grown.begin, grown.items + chunks[next].items)] + chunks[next + 1..];
      }
    }

    /// Inserts a new chunk, and merges it with the next.
    method Insert(at: nat, number: nat, data: T)
      requires at <= |chunks| && !JoinsBefore(chunks, at, number)
      modifies this
      ensures var cs := old(chunks);
              chunks == Spliced(cs, at, if JoinsAfter(cs, at, number) then at + 1 else at, [Joined(cs, at, number, data)])
    {
      chunks := chunks[..at] + [Chunk(number, [data])] + chunks[at..];
      var next := at + 1;
      if next != |chunks| && chunks[next].begin == number + 1 {
        chunks := chunks[..at] + [Chunk(number, [data] + chunks[next].items)] + chunks[next + 1..];
      }
    }
  }

  /// A chunk before one that starts at the number ends before it.
  lemma BoundEnds<T>(cs: Chunks<T>, n: nat)
    requires Good(cs)
    ensures var k := LowerBound(cs, n); 0 < k < |cs| && cs[k].begin == n ==> End(cs[k - 1]) < n
  {
    assert Apart(cs, LowerBound(cs, n) - 1);
  }

  /// No chunk starts at a missing number, and one that starts above it does not end there.
  lemma NotAtBound<T>(cs: Chunks<T>, n: nat)
    requires Good(cs) && !Present(cs, n)
    ensures var k := LowerBound(cs, n); k < |cs| ==> cs[k].begin > n && End(cs[k]) > n
  {
    BoundHolds(cs, n);
  }

  function WithoutFirst<T>(cs: Chunks<T>, i: nat): Chunks<T>
    requires cs != [] && i <= |cs[0].items|
  {
    (if i < |cs[0].items| then [Chunk(cs[0].begin + i, cs[0].items[i..])] else []) + cs[1..]
  }

  lemma {:induction false} DropFirstGet<T>(cs: Chunks<T>, i: nat)
    requires Good(cs) && cs != [] && i <= |cs[0].items|
    ensures Good(WithoutFirst(cs, i))
    ensures forall x: nat :: Get(WithoutFirst(cs, i), x) == if x < cs[0].begin + i then None else Get(cs, x)
  {
    var put := if i < |cs[0].items| then [Chunk(cs[0].begin + i, cs[0].items[i..])] else [];
    Around(cs, 0);
    SplicedGood(cs, 0, 1, put);
    assert Spliced(cs, 0, 1, put) == put + cs[1..];
    forall x: nat ensures Get(put + cs[1..], x) == if x < cs[0].begin + i then None else Get(cs, x) {
      DropFirstAt(cs, i, put, x);
    }
  }

  lemma DropFirstAt<T>(cs: Chunks<T>, i: nat, put: Chunks<T>, x: nat)
    requires Good(cs) && cs != [] && i <= |cs[0].items|
    requires put == if i < |cs[0].items| then [Chunk(cs[0].begin + i, cs[0].items[i..])] else []
    ensures Get(put + cs[1..], x) == if x < cs[0].begin + i then None else Get(cs, x)
  {
    GetAppend(put, cs[1..], x);
    if put != [] {
      GetOne(put[0], x);
    }
    RestMissesFirst(cs, x);
    if Present(cs, x) {
      FromFirst(cs, x);
    }
  }
}
