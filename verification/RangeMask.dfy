/// Sets of numbers as sorted ranges (libdevcore/RangeMask.h).
module RangeMask {
  import opened Numbers

  datatype Range = Range(begin: nat, end: nat)

  /// std::map from the beginning of a range to its end, in the order of the beginnings.
  type Ranges = seq<Range>

  predicate In(r: Range, x: nat) {
    r.begin <= x < r.end
  }

  predicate Has(rs: Ranges, x: nat) {
    exists j :: 0 <= j < |rs| && In(rs[j], x)
  }

  /// A range has its begin, but not its end.
  lemma HasMeans(rs: Ranges, x: nat)
    ensures Has(rs, x) <==> exists j :: 0 <= j < |rs| && rs[j].begin <= x < rs[j].end
  {
    if j :| 0 <= j < |rs| && rs[j].begin <= x < rs[j].end {
      assert In(rs[j], x);
    }
  }

  /// Not empty, and parted from the next by a gap.
  predicate Apart(rs: Ranges, j: int) {
    0 <= j < |rs| ==> rs[j].begin < rs[j].end && (j + 1 < |rs| ==> rs[j].end < rs[j + 1].begin)
  }

  /// The ranges are sorted, not empty, disjoint and not adjacent, within the ground.
  ghost predicate Good(rs: Ranges, ground: Range) {
    && (forall j :: Apart(rs, j))
    && (rs != [] ==> ground.begin <= rs[0].begin && rs[|rs| - 1].end <= ground.end)
  }

  lemma {:induction false} Sorted(rs: Ranges, ground: Range, i: nat, j: nat)
    requires Good(rs, ground) && i < j < |rs|
    ensures rs[i].end < rs[j].begin
    decreases j - i
  {
    assert Apart(rs, i) && Apart(rs, i + 1);
    if i + 1 < j {
      Sorted(rs, ground, i + 1, j);
    }
  }

  /// Every range lies within the ground.
  lemma {:induction false} Within(rs: Ranges, ground: Range, j: nat)
    requires Good(rs, ground) && j < |rs|
    ensures ground.begin <= rs[j].begin < rs[j].end <= ground.end
  {
    assert Apart(rs, j) && Apart(rs, 0) && Apart(rs, |rs| - 1);
    if 0 < j {
      Sorted(rs, ground, 0, j);
    }
    if j < |rs| - 1 {
      Sorted(rs, ground, j, |rs| - 1);
    }
  }

  lemma RestGood(rs: Ranges, ground: Range)
    requires Good(rs, ground) && rs != []
    ensures Good(rs[1..], Range(rs[0].end + 1, ground.end))
  {
    forall j ensures Apart(rs[1..], j) {
      assert Apart(rs, j + 1);
    }
    assert Apart(rs, 0);
  }

  lemma HasRest(rs: Ranges, x: nat)
    requires rs != []
    ensures Has(rs, x) <==> In(rs[0], x) || Has(rs[1..], x)
  {
    if Has(rs, x) {
      var j :| 0 <= j < |rs| && In(rs[j], x);
      assert j > 0 ==> rs[1..][j - 1] == rs[j];
    }
    if Has(rs[1..], x) {
      var j :| 0 <= j < |rs[1..]| && In(rs[1..][j], x);
      assert rs[j + 1] == rs[1..][j];
    }
  }

  /// What lies in the ranges lies in the ground.
  lemma HasWithin(rs: Ranges, ground: Range, x: nat)
    requires Good(rs, ground) && Has(rs, x)
    ensures In(ground, x)
  {
    var j :| 0 <= j < |rs| && In(rs[j], x);
    Within(rs, ground, j);
  }

  /// Equal sets have one representation.
  lemma {:induction false} OneRepresentation(a: Ranges, b: Ranges, ground: Range)
    requires Good(a, ground) && Good(b, ground) && forall x: nat :: Has(a, x) <==> Has(b, x)
    ensures a == b
  {
    if a == [] || b == [] {
      NoneEmpty(a, b, ground);
    } else {
      SameFirst(a, b, ground);
      RestGood(a, ground);
      RestGood(b, ground);
      var rest := Range(a[0].end + 1, ground.end);
      forall x: nat ensures Has(a[1..], x) <==> Has(b[1..], x) {
        HasRest(a, x);
        HasRest(b, x);
        if Has(a[1..], x) {
          HasWithin(a[1..], rest, x);
        }
        if Has(b[1..], x) {
          HasWithin(b[1..], rest, x);
        }
      }
      OneRepresentation(a[1..], b[1..], rest);
    }
  }

  lemma NoneEmpty(a: Ranges, b: Ranges, ground: Range)
    requires Good(a, ground) && Good(b, ground) && forall x: nat :: Has(a, x) <==> Has(b, x)
    requires a == [] || b == []
    ensures a == b
  {
    FirstHas(a, ground);
    FirstHas(b, ground);
  }

  lemma FirstHas(rs: Ranges, ground: Range)
    ensures Good(rs, ground) && rs != [] ==> Has(rs, rs[0].begin)
  {
    assert Apart(rs, 0) && rs != [] ==> In(rs[0], rs[0].begin);
  }

  /// The first range of one set is no shorter at either side than that of an equal set.
  lemma FirstCovers(a: Ranges, b: Ranges, ground: Range)
    requires Good(a, ground) && Good(b, ground) && a != [] && b != [] && forall x: nat :: Has(a, x) <==> Has(b, x)
    ensures b[0].begin <= a[0].begin && (a[0].begin == b[0].begin ==> a[0].end <= b[0].end)
  {
    assert Apart(a, 0) && In(a[0], a[0].begin) && Has(a, a[0].begin);
    var j :| 0 <= j < |b| && In(b[j], a[0].begin);
    Within(b, ground, j);
    if 0 < j {
      assert Apart(b, 0);
      Sorted(b, ground, 0, j);
    }
    if a[0].begin == b[0].begin && b[0].end < a[0].end {
      var x := b[0].end;
      assert In(a[0], x) && Has(a, x) && Apart(b, 0);
      var i :| 0 <= i < |b| && In(b[i], x);
      if 0 < i {
        Sorted(b, ground, 0, i);
      }
    }
  }

  lemma SameFirst(a: Ranges, b: Ranges, ground: Range)
    requires Good(a, ground) && Good(b, ground) && a != [] && b != [] && forall x: nat :: Has(a, x) <==> Has(b, x)
    ensures a[0] == b[0]
  {
    FirstCovers(a, b, ground);
    FirstCovers(b, a, ground);
  }

  // ------------------------------------------------------------ changes of the map

  /// upper_bound: the number of ranges that begin no later.
  function UpperBound(rs: Ranges, x: nat): (k: nat)
    ensures k <= |rs|
    ensures k > 0 ==> rs[k - 1].begin <= x
    ensures k < |rs| ==> rs[k].begin > x
  {
    if rs == [] then 0
    else if rs[|rs| - 1].begin <= x then |rs|
    else UpperBound(rs[..|rs| - 1], x)
  }

  /// A range goes in between two others, and takes the place of some.
  function Spliced(rs: Ranges, from: nat, to: nat, r: Range): Ranges
    requires from <= to <= |rs|
  {
    rs[..from] + [r] + rs[to..]
  }

  lemma {:induction false} SplicedGood(rs: Ranges, from: nat, to: nat, r: Range, ground: Range)
    requires Good(rs, ground) && from <= to <= |rs| && r.begin < r.end
    requires if from > 0 then rs[from - 1].end < r.begin else ground.begin <= r.begin
    requires if to < |rs| then r.end < rs[to].begin else r.end <= ground.end
    ensures Good(Spliced(rs, from, to, r), ground)
  {
    var now := Spliced(rs, from, to, r);
    forall j ensures Apart(now, j) {
      assert Apart(rs, j) && Apart(rs, j - 1 - from + to);
    }
    assert now[|now| - 1] == if to < |rs| then rs[|rs| - 1] else r;
  }

  lemma SplicedHas(rs: Ranges, from: nat, to: nat, r: Range, x: nat)
    requires from <= to <= |rs|
    requires forall j :: from <= j < to ==> r.begin <= rs[j].begin && rs[j].end <= r.end
    ensures Has(Spliced(rs, from, to, r), x) <==> In(r, x) || Has(rs, x)
  {
    var now := Spliced(rs, from, to, r);
    assert now[from] == r;
    if Has(rs, x) {
      var j :| 0 <= j < |rs| && In(rs[j], x);
      if j < from {
        assert now[j] == rs[j];
      } else if j >= to {
        assert now[j - to + from + 1] == rs[j];
      } else {
        assert In(now[from], x);
      }
    }
    if Has(now, x) {
      var j :| 0 <= j < |now| && In(now[j], x);
      if j < from {
        assert now[j] == rs[j];
      } else if j > from {
        assert now[j] == rs[j - 1 - from + to];
      }
    }
  }

  /// During unionWith: what was there, and the new range up to i.
  ghost predicate Joined(was: Ranges, rs: Ranges, r: Range, i: nat, ground: Range) {
    && Good(rs, ground)
    && (forall x: nat :: Has(rs, x) <==> Has(was, x) || (r.begin <= x < i && x < r.end))
    && (forall x: nat :: r.begin <= x < i ==> Has(rs, x))
  }

  /// One turn of unionWith with a new or wider range: it ends where the range to join ends, or
  /// where the next range ends.
  lemma {:induction false} JoinStep(was: Ranges, rs: Ranges, r: Range, i: nat, ground: Range, from: nat, to: nat,
                                    n: Range)
    requires Joined(was, rs, r, i, ground) && r.begin <= i < r.end && ground.begin <= r.begin && r.end <= ground.end
    requires from <= to <= |rs| && n.begin <= i < n.end
    requires if from > 0 then rs[from - 1].end < n.begin else ground.begin <= n.begin
    requires if to < |rs| then n.end < rs[to].begin else n.end <= ground.end
    requires forall j :: from <= j < to ==> n.begin <= rs[j].begin && rs[j].end <= n.end
    requires forall x: nat :: n.begin <= x < i ==> Has(rs, x)
    requires n.end <= r.end || (forall x: nat :: r.end <= x < n.end ==> Has(rs, x))
    ensures Joined(was, Spliced(rs, from, to, n), r, n.end, ground)
  {
    var now := Spliced(rs, from, to, n);
    SplicedGood(rs, from, to, n, ground);
    forall x: nat ensures Has(now, x) <==> Has(was, x) || (r.begin <= x < n.end && x < r.end)
                  ensures r.begin <= x < n.end ==> Has(now, x) {
      SplicedHas(rs, from, to, n, x);
    }
  }

  /// Where a range holds a number, so does the mask.
  lemma RangeHas(rs: Ranges, j: nat)
    requires j < |rs|
    ensures forall x: nat :: In(rs[j], x) ==> Has(rs, x)
  {
  }

  // ------------------------------------------------------------- the elements in order

  function Items(r: Range): (l: seq<nat>)
    ensures |l| == if r.begin < r.end then r.end - r.begin else 0
    ensures forall i :: 0 <= i < |l| ==> l[i] == r.begin + i
    decreases if r.begin < r.end then r.end - r.begin else 0
  {
    if r.begin >= r.end then [] else [r.begin] + Items(Range(r.begin + 1, r.end))
  }

  function List(rs: Ranges): seq<nat> {
    if rs == [] then [] else Items(rs[0]) + List(rs[1..])
  }

  lemma {:induction false} ListHas(rs: Ranges, x: nat)
    ensures x in List(rs) <==> Has(rs, x)
  {
    if rs != [] {
      ListHas(rs[1..], x);
      HasRest(rs, x);
      if In(rs[0], x) {
        assert Items(rs[0])[x - rs[0].begin] == x;
      }
    }
  }

  predicate Ordered(l: seq<nat>, i: int, j: int) {
    0 <= i < j < |l| ==> l[i] < l[j]
  }

  ghost predicate Ascends(l: seq<nat>) {
    forall i, j :: Ordered(l, i, j)
  }

  lemma JoinAscends(a: seq<nat>, b: seq<nat>, bound: nat)
    requires Ascends(a) && Ascends(b) && (forall x :: x in a ==> x < bound) && (forall x :: x in b ==> x >= bound)
    ensures Ascends(a + b)
  {
    var l := a + b;
    forall i, j ensures Ordered(l, i, j) {
      assert Ordered(a, i, j) && Ordered(b, i - |a|, j - |a|);
      if 0 <= i < |a| <= j < |l| {
        assert l[i] in a && l[j] in b;
      }
    }
  }

  lemma ItemsAscend(r: Range)
    ensures Ascends(Items(r))
  {
    forall i, j ensures Ordered(Items(r), i, j) {
    }
  }

  /// The elements come in ascending order, each once.
  lemma {:induction false} ListAscends(rs: Ranges, ground: Range)
    requires Good(rs, ground)
    ensures Ascends(List(rs))
  {
    if rs != [] {
      RestGood(rs, ground);
      var rest := Range(rs[0].end + 1, ground.end);
      ListAscends(rs[1..], rest);
      forall x | x in List(rs[1..]) ensures x >= rs[0].end {
        ListHas(rs[1..], x);
        HasWithin(rs[1..], rest, x);
      }
      ItemsAscend(rs[0]);
      assert Apart(rs, 0);
      JoinAscends(Items(rs[0]), List(rs[1..]), rs[0].end);
    }
  }

  /// There is room for the elements between the first and the end of the last.
  lemma {:induction false} ListFits(rs: Ranges, ground: Range)
    requires Good(rs, ground) && rs != []
    ensures 0 < |List(rs)| <= rs[|rs| - 1].end - rs[0].begin
  {
    assert Apart(rs, 0);
    if |rs| > 1 {
      RestGood(rs, ground);
      ListFits(rs[1..], Range(rs[0].end + 1, ground.end));
    }
  }

  lemma ListCons(r: Range, rest: Ranges)
    ensures List([r] + rest) == Items(r) + List(rest)
  {
    assert ([r] + rest)[1..] == rest;
  }

  /// Where lowest ends its copy of a range; the sum of two unsigned numbers may wrap around.
  function Cut(r: Range, items: nat): nat {
    if (r.begin + items) % U32 < r.end then (r.begin + items) % U32 else r.end
  }

  /// What is left of the number asked for.
  function Left(r: Range, items: nat): nat {
    (items + U32 - (Cut(r, items) + U32 - r.begin) % U32) % U32
  }

  function Lowest(rs: Ranges, items: nat): Ranges
    requires forall j :: 0 <= j < |rs| ==> rs[j].begin < U32
  {
    if rs == [] || items == 0 then []
    else [Range(rs[0].begin, Cut(rs[0], items))] + Lowest(rs[1..], Left(rs[0], items))
  }

  lemma CutLeft(r: Range, items: nat)
    requires r.begin < r.end < U32 && 0 < items < U32
    ensures r.begin + items < r.end ==> Cut(r, items) == r.begin + items && Left(r, items) == 0
    ensures r.end <= r.begin + items < U32 ==> Cut(r, items) == r.end && Left(r, items) == items - (r.end - r.begin)
    ensures r.begin + items >= U32 ==> Cut(r, items) == r.begin + items - U32 < r.begin && Left(r, items) == 0
  {
  }

  /// The smallest elements, as many as asked for or as there are.
  function Smallest(rs: Ranges, items: nat): seq<nat> {
    List(rs)[..if items < |List(rs)| then items else |List(rs)|]
  }

  /// No sum of lowest wraps around.
  predicate NoWrap(rs: Ranges, items: nat) {
    rs == [] || rs[|rs| - 1].end + items < U32 + |List(rs)|
  }

  lemma ItemsPrefix(r: Range, n: nat)
    requires r.begin + n <= r.end
    ensures Items(Range(r.begin, r.begin + n)) == Items(r)[..n]
  {
  }

  lemma LowestCuts(rs: Ranges, items: nat)
    requires rs != [] && rs[0].begin < rs[0].end < U32 && items < U32 && 0 < items < rs[0].end - rs[0].begin
    requires forall j :: 0 <= j < |rs| ==> rs[j].begin < U32
    ensures List(Lowest(rs, items)) == Smallest(rs, items)
  {
    var r := rs[0];
    CutLeft(r, items);
    ItemsPrefix(r, items);
    ListCons(Range(r.begin, r.begin + items), []);
    assert Lowest(rs, items) == [Range(r.begin, r.begin + items)] + [];
    assert List(rs)[..items] == Items(r)[..items];
  }

  lemma LowestCopies(rs: Ranges, items: nat)
    requires rs != [] && rs[0].begin < rs[0].end < U32 && rs[0].end <= rs[0].begin + items < U32 && items > 0
    requires forall j :: 0 <= j < |rs| ==> rs[j].begin < U32
    ensures var rest := items - (rs[0].end - rs[0].begin);
            && List(Lowest(rs, items)) == Items(rs[0]) + List(Lowest(rs[1..], rest))
            && Smallest(rs, items) == Items(rs[0]) + Smallest(rs[1..], rest)
  {
    CutLeft(rs[0], items);
    ListCons(rs[0], Lowest(rs[1..], Left(rs[0], items)));
  }

  lemma LowestLoses(rs: Ranges, items: nat)
    requires rs != [] && rs[0].begin < rs[0].end < U32 && items < U32 <= rs[0].begin + items
    requires forall j :: 0 <= j < |rs| ==> rs[j].begin < U32
    ensures List(Lowest(rs, items)) == []
  {
    CutLeft(rs[0], items);
    ListCons(Range(rs[0].begin, Cut(rs[0], items)), []);
    assert Lowest(rs, items) == [Range(rs[0].begin, Cut(rs[0], items))] + [];
  }

  lemma BeginsFit(rs: Ranges, ground: Range)
    requires Good(rs, ground) && ground.end < U32
    ensures forall j :: 0 <= j < |rs| ==> rs[j].begin < U32
  {
    forall j | 0 <= j < |rs| ensures rs[j].begin < U32 {
      Within(rs, ground, j);
    }
  }

  lemma SameStart(a: seq<nat>, b: seq<nat>, c: seq<nat>)
    ensures a + b == a + c <==> b == c
  {
    if a + b == a + c {
      assert (a + b)[|a|..] == b && (a + c)[|a|..] == c;
    }
  }

  lemma NoWrapRest(rs: Ranges, ground: Range, items: nat)
    requires Good(rs, ground) && rs != [] && ground.end < U32
    requires rs[0].end <= rs[0].begin + items < U32
    ensures NoWrap(rs, items) <==> NoWrap(rs[1..], items - (rs[0].end - rs[0].begin))
  {
    hide Good, List, Items;
    Within(rs, ground, 0);
    ListLength(rs);
    if |rs| > 1 {
      assert rs[1..][|rs| - 2] == rs[|rs| - 1];
    }
  }

  lemma ListLength(rs: Ranges)
    requires rs != [] && rs[0].begin <= rs[0].end
    ensures |List(rs)| == rs[0].end - rs[0].begin + |List(rs[1..])|
  {
  }

  lemma NoWrapEnds(rs: Ranges, ground: Range, items: nat)
    requires Good(rs, ground) && rs != [] && ground.end < U32
    ensures items <= rs[0].end - rs[0].begin ==> NoWrap(rs, items)
    ensures rs[0].begin + items >= U32 ==> !NoWrap(rs, items)
  {
    Within(rs, ground, 0);
    Within(rs, ground, |rs| - 1);
    ListFits(rs, ground);
  }

  /// lowest gives the smallest elements, as many as asked for or as there are, if and only if the
  /// number asked for does not exceed the number of elements by so much that counting on from the
  /// end of the last range wraps around.
  lemma {:induction false} LowestExactly(rs: Ranges, ground: Range, items: nat)
    requires Good(rs, ground) && ground.end < U32 && items < U32
    requires forall j :: 0 <= j < |rs| ==> rs[j].begin < U32
    ensures List(Lowest(rs, items)) == Smallest(rs, items) <==> NoWrap(rs, items)
    decreases rs, 1
  {
    if rs != [] && items > 0 {
      Within(rs, ground, 0);
      NoWrapEnds(rs, ground, items);
      if rs[0].begin + items >= U32 {
        LowestLoses(rs, items);
        ListFits(rs, ground);
      } else if items < rs[0].end - rs[0].begin {
        LowestCuts(rs, items);
      } else {
        LowestExactlyRest(rs, ground, items);
      }
    } else if rs != [] {
      Within(rs, ground, 0);
      NoWrapEnds(rs, ground, items);
    }
  }

  lemma {:induction false} LowestExactlyRest(rs: Ranges, ground: Range, items: nat)
    requires Good(rs, ground) && ground.end < U32 && rs != [] && 0 < items
    requires rs[0].end <= rs[0].begin + items < U32
    requires forall j :: 0 <= j < |rs| ==> rs[j].begin < U32
    ensures List(Lowest(rs, items)) == Smallest(rs, items) <==> NoWrap(rs, items)
    decreases rs, 0
  {
    hide Lowest, Smallest, NoWrap, List, Items;
    var more := items - (rs[0].end - rs[0].begin);
    Within(rs, ground, 0);
    RestGood(rs, ground);
    LowestExactly(rs[1..], Range(rs[0].end + 1, ground.end), more);
    LowestCopies(rs, items);
    NoWrapRest(rs, ground, items);
    SameStart(Items(rs[0]), List(Lowest(rs[1..], more)), Smallest(rs[1..], more));
  }

  /// Asked for everything, the mask of [5, 6) gives nothing.
  lemma LowestWraps()
    ensures Good([Range(5, 6)], Range(5, 6)) && List([Range(5, 6)]) == [5] && List(Lowest([Range(5, 6)], U32 - 1)) == []
  {
    var rs := [Range(5, 6)];
    forall j ensures Apart(rs, j) {
    }
    LowestLoses(rs, U32 - 1);
    ListCons(Range(5, 6), []);
    assert [Range(5, 6)] + [] == rs;
  }

  /// The ranges are good ones too where nothing wraps around.
  lemma {:induction false} LowestGood(rs: Ranges, ground: Range, items: nat)
    requires Good(rs, ground) && ground.end < U32 && items < U32 && NoWrap(rs, items)
    requires forall j :: 0 <= j < |rs| ==> rs[j].begin < U32
    ensures Good(Lowest(rs, items), ground)
  {
    if rs == [] || items == 0 {
      LowestNone(rs, ground, items);
    } else {
      hide NoWrap, Lowest, Good, Cut, Left;
      Within(rs, ground, 0);
      NoWrapEnds(rs, ground, items);
      if items < rs[0].end - rs[0].begin {
        LowestCutGood(rs, ground, items);
      } else {
        RestGood(rs, ground);
        NoWrapRest(rs, ground, items);
        LowestGood(rs[1..], Range(rs[0].end + 1, ground.end), items - (rs[0].end - rs[0].begin));
        LowestCopyGood(rs, ground, items);
      }
    }
  }

  lemma LowestNone(rs: Ranges, ground: Range, items: nat)
    requires (rs == [] || items == 0) && forall j :: 0 <= j < |rs| ==> rs[j].begin < U32
    ensures Good(Lowest(rs, items), ground)
  {
  }

  lemma LowestCopyGood(rs: Ranges, ground: Range, items: nat)
    requires rs != [] && ground.begin <= rs[0].begin < rs[0].end <= ground.end < U32
    requires rs[0].end <= rs[0].begin + items < U32 && forall j :: 0 <= j < |rs| ==> rs[j].begin < U32
    requires Good(Lowest(rs[1..], items - (rs[0].end - rs[0].begin)), Range(rs[0].end + 1, ground.end))
    ensures Good(Lowest(rs, items), ground)
  {
    CutLeft(rs[0], items);
    ConsGood(rs[0], Lowest(rs[1..], items - (rs[0].end - rs[0].begin)), ground);
  }

  lemma LowestCutGood(rs: Ranges, ground: Range, items: nat)
    requires rs != [] && ground.begin <= rs[0].begin < rs[0].end <= ground.end < U32
    requires 0 < items < rs[0].end - rs[0].begin && forall j :: 0 <= j < |rs| ==> rs[j].begin < U32
    ensures Good(Lowest(rs, items), ground)
  {
    CutLeft(rs[0], items);
    var one := [Range(rs[0].begin, rs[0].begin + items)];
    assert Lowest(rs, items) == one + [] == one;
    forall j ensures Apart(one, j) {
    }
  }

  lemma ConsGood(r: Range, rest: Ranges, ground: Range)
    requires ground.begin <= r.begin < r.end <= ground.end && Good(rest, Range(r.end + 1, ground.end))
    ensures Good([r] + rest, ground)
  {
    forall j ensures Apart([r] + rest, j) {
      assert Apart(rest, j - 1);
    }
    assert rest != [] ==> ([r] + rest)[|rest|] == rest[|rest| - 1];
  }

  /// The smallest element from s on, or the end of the ground.
  ghost predicate FirstFrom(rs: Ranges, ground: Range, s: nat, r: nat) {
    || (Has(rs, r) && r >= s && forall x: nat :: s <= x < r ==> !Has(rs, x))
    || (r == ground.end && forall x: nat :: x >= s ==> !Has(rs, x))
  }

  /// What lies before the range at an upper bound, but not below s, lies in the range before it.
  lemma {:induction false} AroundBound(rs: Ranges, ground: Range, s: nat, x: nat)
    requires Good(rs, ground) && Has(rs, x) && x >= s
    ensures var k := UpperBound(rs, s); (k > 0 && In(rs[k - 1], x)) || (k < |rs| && x >= rs[k].begin)
  {
    var k := UpperBound(rs, s);
    var j :| 0 <= j < |rs| && In(rs[j], x);
    assert Apart(rs, j);
    if j + 1 < k {
      Sorted(rs, ground, j, k - 1);
    } else if j > k {
      assert Apart(rs, k);
      Sorted(rs, ground, k, j);
    }
  }

  /// From one element in the list, the next is the one that follows.
  lemma NextInList(rs: Ranges, ground: Range, n: nat, r: nat)
    requires Good(rs, ground) && n < |List(rs)| && FirstFrom(rs, ground, List(rs)[n] + 1, r)
    ensures r == if n + 1 < |List(rs)| then List(rs)[n + 1] else ground.end
  {
    var l := List(rs);
    ListAscends(rs, ground);
    ListHas(rs, r);
    if n + 1 < |l| {
      ListHas(rs, l[n + 1]);
      assert Ordered(l, n, n + 1);
      var m :| 0 <= m < |l| && l[m] == r;
      assert Ordered(l, m, n) && Ordered(l, n + 1, m);
    } else if r in l {
      var m :| 0 <= m < |l| && l[m] == r;
      assert Ordered(l, m, n);
    }
  }

  /// The first of the list is where the first range begins.
  lemma ListStarts(rs: Ranges, ground: Range)
    requires Good(rs, ground) && rs != []
    ensures |List(rs)| > 0 && List(rs)[0] == rs[0].begin
  {
    assert Apart(rs, 0);
    assert List(rs) == Items(rs[0]) + List(rs[1..]);
  }

  class RangeMask {
    var all: Range
    var ranges: Ranges

    ghost predicate Valid()
      reads this
    {
      Good(ranges, all)
    }

    constructor (ground: Range)
      ensures all == ground && ranges == [] && Valid()
    {
      all, ranges := ground, [];
    }

    /// unionWith a range within the ground.
    method UnionWithRange(r: Range)
      requires Valid() && (r.begin < r.end ==> all.begin <= r.begin && r.end <= all.end)
      modifies this`ranges
      ensures Valid() && forall x: nat :: Has(ranges, x) <==> Has(old(ranges), x) || In(r, x)
    {
      ghost var was := ranges;
      var i := r.begin;
      while i < r.end
        invariant i >= r.begin && Joined(was, ranges, r, i, all)
        decreases r.end - i
      {
        i := UnionTurn(r, i, was);
      }
    }

    /// One turn of its loop.
    method UnionTurn(r: Range, i: nat, ghost was: Ranges) returns (next: nat)
      requires r.begin <= i < r.end && all.begin <= r.begin && r.end <= all.end
      requires Joined(was, ranges, r, i, all)
      modifies this`ranges
      ensures next > i && Joined(was, ranges, r, next, all)
    {
      hide Joined, Spliced;
      var after := UpperBound(ranges, i);
      TurnJoins(was, ranges, r, i, all, after);
      if after == 0 || ranges[after - 1].end < i {
        // The range to join cannot be merged with the one before; that the one after begins at i,
        // which the source also considers, cannot be, as it begins after i.
        if after == |ranges| || ranges[after].begin > r.end {
          ranges := Spliced(ranges, after, after, Range(i, r.end));
          next := r.end;
        } else {
          next := ranges[after].end;
          ranges := Spliced(ranges, after, after + 1, Range(i, next));
        }
      } else if ranges[after - 1].end == i {
        var begin := ranges[after - 1].begin;
        if after == |ranges| || ranges[after].begin > r.end {
          ranges := Spliced(ranges, after - 1, after, Range(begin, r.end));
          next := r.end;
        } else {
          next := ranges[after].end;
          ranges := Spliced(ranges, after - 1, after + 1, Range(begin, next));
        }
      } else {
        next := ranges[after - 1].end;
      }
    }

    /// unionWith another mask: the ground grows too. The other may be this one, which then stays.
    method UnionWith(m: RangeMask)
      requires Valid() && m.Valid()
      modifies this
      ensures Valid() && all == Hull(old(all), old(m.all))
      ensures forall x: nat :: Has(ranges, x) <==> Has(old(ranges), x) || Has(old(m.ranges), x)
      ensures m == this ==> ranges == old(ranges) && all == old(all)
    {
      GoodHull(ranges, all, m.all);
      all := Hull(all, m.all);
      var k := 0;
      while k < |m.ranges|
        invariant k <= |m.ranges| && Valid() && all == Hull(old(all), old(m.all)) && m.ranges == old(m.ranges)
        invariant forall x: nat :: Has(ranges, x) <==> Has(old(ranges), x) || Has(m.ranges[..k], x)
      {
        ghost var before := ranges;
        Within(m.ranges, if m == this then all else m.all, k);
        RangeHas(m.ranges, k);
        UnionWithRange(m.ranges[k]);
        if m == this {
          OneRepresentation(ranges, before, all);
        }
        forall x: nat ensures Has(m.ranges[..k + 1], x) <==> Has(m.ranges[..k], x) || In(m.ranges[k], x) {
          HasSnoc(m.ranges, k, x);
        }
        k := k + 1;
      }
      assert m.ranges[..k] == m.ranges;
    }

    /// inverted: the ranges of the complement.
    method Inverted() returns (ret: Ranges)
      requires Valid() && all.begin <= all.end
      ensures Good(ret, all)
      ensures forall x: nat :: Has(ret, x) <==> In(all, x) && !Has(ranges, x)
    {
      ret := [];
      var last := all.begin;
      var k := 0;
      while k < |ranges|
        invariant k <= |ranges| && Complement(ranges, all, k, ret, last)
      {
        ComplementStep(ranges, all, k, ret, last);
        if ranges[k].begin != last {
          ret := ret + [Range(last, ranges[k].begin)];
        }
        last := ranges[k].end;
        k := k + 1;
      }
      ComplementEnd(ranges, all, ret, last);
      if last != all.end {
        ret := ret + [Range(last, all.end)];
      }
    }

    /// invert.
    method Invert()
      requires Valid() && all.begin <= all.end
      modifies this`ranges
      ensures Valid()
      ensures forall x: nat :: Has(ranges, x) <==> In(all, x) && !Has(old(ranges), x)
    {
      ranges := Inverted();
    }

    /// operator-=: inverts, joins and inverts again. It is set difference if and only if all that
    /// the ground gains is in the argument; a mask taken from itself stays.
    method Minus(m: RangeMask)
      requires Valid() && m.Valid() && all.begin <= all.end && m.all.begin <= m.all.end
      modifies this
      ensures Valid() && all == Hull(old(all), old(m.all))
      ensures m == this ==> ranges == old(ranges) && all == old(all)
      ensures m != this ==> Subtracted(old(ranges), old(all), m.ranges, m.all, ranges)
      ensures m != this ==>
                (IsDifference(ranges, old(ranges), m.ranges) <==>
                 forall x: nat :: In(all, x) && !In(old(all), x) ==> Has(m.ranges, x))
    {
      ghost var was, ground, taken := ranges, all, m.ranges;
      Invert();
      ghost var inverse := ranges;
      UnionWith(m);
      ghost var joined := ranges;
      Invert();
      if m == this {
        InvertedTwice(was, inverse, ranges, ground);
      } else {
        forall x: nat ensures Has(was, x) ==> In(ground, x) {
          if Has(was, x) {
            HasWithin(was, ground, x);
          }
        }
        DifferenceExactly(was, ground, taken, all, ranges);
      }
    }

    method Contains(x: nat) returns (b: bool)
      requires Valid()
      ensures b <==> Has(ranges, x)
    {
      var k := UpperBound(ranges, x);
      ghost var rs, ground := ranges, all;
      if Has(rs, x) {
        AroundBound(rs, ground, x, x);
      }
      if k == 0 {
        return false;
      }
      RangeHas(ranges, k - 1);
      b := ranges[k - 1].end > x;
    }

    method Size() returns (c: nat)
      requires Valid()
      ensures c == |List(ranges)|
    {
      c := 0;
      var k := 0;
      while k < |ranges|
        invariant k <= |ranges| && c + |List(ranges[k..])| == |List(ranges)|
      {
        Within(ranges, all, k);
        assert ranges[k..][1..] == ranges[k + 1..];
        c := c + (ranges[k].end - ranges[k].begin);
        k := k + 1;
      }
    }

    /// lowest: the ranges of the result.
    method LowestRanges(items: nat) returns (ret: Ranges)
      requires Valid() && all.end < U32 && items < U32
      ensures forall j :: 0 <= j < |ranges| ==> ranges[j].begin < U32
      ensures ret == Lowest(ranges, items)
      ensures List(ret) == Smallest(ranges, items) <==> NoWrap(ranges, items)
      ensures NoWrap(ranges, items) ==> Good(ret, all)
    {
      BeginsFit(ranges, all);
      LowestExactly(ranges, all, items);
      if NoWrap(ranges, items) {
        LowestGood(ranges, all, items);
      }
      ret := [];
      var k, left := 0, items;
      while k < |ranges| && left != 0
        invariant k <= |ranges| && ret + Lowest(ranges[k..], left) == Lowest(ranges, items)
        decreases |ranges| - k
      {
        LowestTurn(ranges, k, left, ret);
        ret := ret + [Range(ranges[k].begin, Cut(ranges[k], left))];
        left := Left(ranges[k], left);
        k := k + 1;
      }
    }

    /// The smallest element above t or, when there is none, the end of the ground.
    method Next(t: nat) returns (r: nat)
      requires Valid() && t < U32
      ensures FirstFrom(ranges, all, (t + 1) % U32, r)
    {
      var s := (t + 1) % U32;
      var k := UpperBound(ranges, s);
      ghost var rs, ground := ranges, all;
      forall x: nat | Has(rs, x) && x >= s
        ensures (k > 0 && In(rs[k - 1], x)) || (k < |rs| && x >= rs[k].begin)
      {
        AroundBound(rs, ground, s, x);
      }
      BoundFacts(ranges, all, k);
      if k > 0 && ranges[k - 1].begin <= s && ranges[k - 1].end > s {
        RangeHas(ranges, k - 1);
        return s;
      }
      if k < |ranges| {
        RangeHas(ranges, k);
        return ranges[k].begin;
      }
      return all.end;
    }

    /// Iterating from begin() to end() shows each element once, in order.
    method Iterate() returns (l: seq<nat>)
      requires Valid() && all.end < U32
      ensures l == List(ranges)
    {
      ghost var whole := List(ranges);
      if ranges != [] {
        ListStarts(ranges, all);
      }
      l := [];
      var value := if ranges == [] then all.end else ranges[0].begin;
      while value != all.end
        invariant |l| <= |whole| && l == whole[..|l|]
        invariant value == if |l| < |whole| then whole[|l|] else all.end
        decreases |whole| - |l|
      {
        ghost var n := |l|;
        ListWithin(ranges, all, n);
        l := l + [value];
        value := Next(value);
        NextInList(ranges, all, n, value);
      }
      if |l| < |whole| {
        ListWithin(ranges, all, |l|);
      }
    }
  }

  ghost predicate IsDifference(now: Ranges, was: Ranges, taken: Ranges) {
    forall x: nat :: Has(now, x) <==> Has(was, x) && !Has(taken, x)
  }

  lemma DifferenceExactly(was: Ranges, ground: Range, taken: Ranges, hull: Range, now: Ranges)
    requires forall x: nat :: Has(was, x) ==> In(ground, x)
    requires hull.begin <= ground.begin && ground.end <= hull.end
    requires forall x: nat :: Has(now, x) <==> In(hull, x) && !Has(taken, x) && (Has(was, x) || !In(ground, x))
    ensures IsDifference(now, was, taken) <==> forall x: nat :: In(hull, x) && !In(ground, x) ==> Has(taken, x)
  {
    if IsDifference(now, was, taken) {
      forall x: nat | In(hull, x) && !In(ground, x) ensures Has(taken, x) {
        assert Has(now, x) <==> Has(was, x) && !Has(taken, x);
      }
    }
  }

  /// What operator-= leaves of a mask when it takes another away.
  ghost predicate Subtracted(was: Ranges, ground: Range, taken: Ranges, takenGround: Range, now: Ranges) {
    && Good(now, Hull(ground, takenGround))
    && forall x: nat :: Has(now, x) <==>
         In(Hull(ground, takenGround), x) && !Has(taken, x) && (Has(was, x) || !In(ground, x))
  }

  /// Taking the empty mask of [0, 3) from the mask {0} of [0, 2) leaves {0, 2}.
  lemma MinusGains(now: Ranges)
    requires Subtracted([Range(0, 1)], Range(0, 2), [], Range(0, 3), now)
    ensures !Has([Range(0, 1)], 2) && Has(now, 2) && now == [Range(0, 1), Range(2, 3)]
  {
    var was, other := [Range(0, 1)], [Range(0, 1), Range(2, 3)];
    forall j ensures Apart(other, j) {
    }
    forall x: nat ensures Has(was, x) <==> x == 0 {
      assert In(was[0], 0);
    }
    forall x: nat ensures Has(other, x) <==> x == 0 || x == 2 {
      assert In(other[0], 0) && In(other[1], 2);
    }
    OneRepresentation(now, other, Range(0, 3));
  }

  function Hull(a: Range, b: Range): Range {
    Range(if b.begin < a.begin then b.begin else a.begin, if b.end > a.end then b.end else a.end)
  }

  /// The hull begins and ends with one of the two, and has both.
  lemma HullMeans(a: Range, b: Range)
    ensures var h := Hull(a, b);
            && h.begin <= a.begin && h.begin <= b.begin && (h.begin == a.begin || h.begin == b.begin)
            && h.end >= a.end && h.end >= b.end && (h.end == a.end || h.end == b.end)
  {
  }

  lemma GoodHull(rs: Ranges, a: Range, b: Range)
    requires Good(rs, a)
    ensures Good(rs, Hull(a, b))
  {
  }

  lemma HasSnoc(rs: Ranges, k: nat, x: nat)
    requires k < |rs|
    ensures Has(rs[..k + 1], x) <==> Has(rs[..k], x) || In(rs[k], x)
  {
    if Has(rs[..k], x) {
      var j :| 0 <= j < k && In(rs[..k][j], x);
      assert rs[..k + 1][j] == rs[..k][j];
    }
    if In(rs[k], x) {
      assert rs[..k + 1][k] == rs[k];
    }
    if Has(rs[..k + 1], x) {
      var j :| 0 <= j < k + 1 && In(rs[..k + 1][j], x);
      assert j < k ==> rs[..k][j] == rs[..k + 1][j];
    }
  }

  /// After k ranges: the gaps before the end of the last of them.
  ghost predicate Complement(rs: Ranges, ground: Range, k: nat, ret: Ranges, last: nat)
    requires k <= |rs|
  {
    && (forall j :: Apart(ret, j))
    && (ret != [] ==> ground.begin <= ret[0].begin && ret[|ret| - 1].end < last)
    && last == (if k == 0 then ground.begin else rs[k - 1].end)
    && forall x: nat :: Has(ret, x) <==> ground.begin <= x < last && !Has(rs[..k], x)
  }

  lemma {:induction false} ComplementStep(rs: Ranges, ground: Range, k: nat, ret: Ranges, last: nat)
    requires Good(rs, ground) && k < |rs| && Complement(rs, ground, k, ret, last)
    ensures Complement(rs, ground, k + 1, if rs[k].begin != last then ret + [Range(last, rs[k].begin)] else ret, rs[k].end)
  {
    BoundFacts(rs, ground, k);
    var now := if rs[k].begin != last then ret + [Range(last, rs[k].begin)] else ret;
    forall j ensures Apart(now, j) {
      assert Apart(ret, j);
    }
    forall x: nat ensures Has(now, x) <==> ground.begin <= x < rs[k].end && !Has(rs[..k + 1], x) {
      HasSnoc(rs, k, x);
      if rs[k].begin != last {
        assert now[..|ret|] == ret && now[..|ret| + 1] == now;
        HasSnoc(now, |ret|, x);
      }
      if Has(rs[..k], x) {
        BelowEnd(rs, ground, k, x);
      }
    }
  }

  /// What lies in the first k ranges lies before their end.
  lemma BelowEnd(rs: Ranges, ground: Range, k: nat, x: nat)
    requires Good(rs, ground) && k <= |rs| && Has(rs[..k], x)
    ensures k > 0 && x < rs[k - 1].end
  {
    var j :| 0 <= j < k && In(rs[..k][j], x);
    if j < k - 1 {
      assert Apart(rs, k - 1);
      Sorted(rs, ground, j, k - 1);
    }
  }

  lemma {:induction false} ComplementEnd(rs: Ranges, ground: Range, ret: Ranges, last: nat)
    requires Good(rs, ground) && Complement(rs, ground, |rs|, ret, last) && ground.begin <= ground.end
    ensures var now := if last != ground.end then ret + [Range(last, ground.end)] else ret;
            Good(now, ground) && forall x: nat :: Has(now, x) <==> In(ground, x) && !Has(rs, x)
  {
    var now := if last != ground.end then ret + [Range(last, ground.end)] else ret;
    if rs != [] {
      Within(rs, ground, |rs| - 1);
    }
    forall j ensures Apart(now, j) {
      assert Apart(ret, j);
    }
    assert rs[..|rs|] == rs;
    forall x: nat ensures Has(now, x) <==> In(ground, x) && !Has(rs, x) {
      if last != ground.end {
        assert now[..|ret|] == ret && now[..|ret| + 1] == now;
        HasSnoc(now, |ret|, x);
      }
      if Has(rs, x) {
        BelowEnd(rs, ground, |rs|, x);
      }
    }
  }

  /// Inverting twice gives the mask back.
  lemma InvertedTwice(rs: Ranges, once: Ranges, twice: Ranges, ground: Range)
    requires Good(rs, ground) && Good(once, ground) && Good(twice, ground)
    requires forall x: nat :: Has(once, x) <==> In(ground, x) && !Has(rs, x)
    requires forall x: nat :: Has(twice, x) <==> In(ground, x) && !Has(once, x)
    ensures twice == rs
  {
    forall x: nat ensures Has(twice, x) <==> Has(rs, x) {
      if Has(rs, x) {
        HasWithin(rs, ground, x);
      }
    }
    OneRepresentation(twice, rs, ground);
  }

  /// What each case of the loop does.
  lemma {:induction false} TurnJoins(was: Ranges, rs: Ranges, r: Range, i: nat, ground: Range, k: nat)
    requires r.begin <= i < r.end && ground.begin <= r.begin && r.end <= ground.end
    requires Joined(was, rs, r, i, ground) && k == UpperBound(rs, i)
    ensures var far := k == |rs| || rs[k].begin > r.end;
            if k == 0 || rs[k - 1].end < i then
              if far then Joined(was, Spliced(rs, k, k, Range(i, r.end)), r, r.end, ground)
              else rs[k].end > i && Joined(was, Spliced(rs, k, k + 1, Range(i, rs[k].end)), r, rs[k].end, ground)
            else if rs[k - 1].end == i then
              if far then Joined(was, Spliced(rs, k - 1, k, Range(rs[k - 1].begin, r.end)), r, r.end, ground)
              else rs[k].end > i
                   && Joined(was, Spliced(rs, k - 1, k + 1, Range(rs[k - 1].begin, rs[k].end)), r, rs[k].end, ground)
            else Joined(was, rs, r, rs[k - 1].end, ground)
  {
    BoundFacts(rs, ground, k);
    if k == 0 || rs[k - 1].end < i {
      JoinApart(was, rs, r, i, ground, k);
    } else if rs[k - 1].end == i {
      JoinTouching(was, rs, r, i, ground, k);
    } else {
      RangeHas(rs, k - 1);
    }
  }

  lemma {:induction false} JoinApart(was: Ranges, rs: Ranges, r: Range, i: nat, ground: Range, k: nat)
    requires r.begin <= i < r.end && ground.begin <= r.begin && r.end <= ground.end
    requires Joined(was, rs, r, i, ground) && k == UpperBound(rs, i) && (k == 0 || rs[k - 1].end < i)
    ensures if k == |rs| || rs[k].begin > r.end then Joined(was, Spliced(rs, k, k, Range(i, r.end)), r, r.end, ground)
            else rs[k].end > i && Joined(was, Spliced(rs, k, k + 1, Range(i, rs[k].end)), r, rs[k].end, ground)
  {
    BoundFacts(rs, ground, k);
    if k == |rs| || rs[k].begin > r.end {
      JoinStep(was, rs, r, i, ground, k, k, Range(i, r.end));
    } else {
      RangeHas(rs, k);
      JoinStep(was, rs, r, i, ground, k, k + 1, Range(i, rs[k].end));
    }
  }

  lemma {:induction false} JoinTouching(was: Ranges, rs: Ranges, r: Range, i: nat, ground: Range, k: nat)
    requires r.begin <= i < r.end && ground.begin <= r.begin && r.end <= ground.end
    requires Joined(was, rs, r, i, ground) && k == UpperBound(rs, i) && k > 0 && rs[k - 1].end == i
    ensures if k == |rs| || rs[k].begin > r.end
            then Joined(was, Spliced(rs, k - 1, k, Range(rs[k - 1].begin, r.end)), r, r.end, ground)
            else rs[k].end > i
                   && Joined(was, Spliced(rs, k - 1, k + 1, Range(rs[k - 1].begin, rs[k].end)), r, rs[k].end, ground)
  {
    BoundFacts(rs, ground, k);
    RangeHas(rs, k - 1);
    if k == |rs| || rs[k].begin > r.end {
      JoinStep(was, rs, r, i, ground, k - 1, k, Range(rs[k - 1].begin, r.end));
    } else {
      RangeHas(rs, k);
      JoinStep(was, rs, r, i, ground, k - 1, k + 1, Range(rs[k - 1].begin, rs[k].end));
    }
  }

  /// What surrounds an upper bound.
  lemma BoundFacts(rs: Ranges, ground: Range, k: nat)
    requires Good(rs, ground) && k <= |rs|
    ensures k > 0 ==> rs[k - 1].begin < rs[k - 1].end <= ground.end && ground.begin <= rs[k - 1].begin
    ensures k > 1 ==> rs[k - 2].end < rs[k - 1].begin
    ensures k < |rs| ==> rs[k].begin < rs[k].end <= ground.end
    ensures 0 < k < |rs| ==> rs[k - 1].end < rs[k].begin
    ensures k + 1 < |rs| ==> rs[k].end < rs[k + 1].begin
  {
    assert Apart(rs, k) && Apart(rs, k - 1) && Apart(rs, k - 2);
    if k > 0 {
      Within(rs, ground, k - 1);
    }
    if k < |rs| {
      Within(rs, ground, k);
    }
  }

  lemma LowestTurn(rs: Ranges, k: nat, left: nat, ret: Ranges)
    requires forall j :: 0 <= j < |rs| ==> rs[j].begin < U32
    requires k < |rs| && left != 0
    ensures ret + Lowest(rs[k..], left)
         == ret + [Range(rs[k].begin, Cut(rs[k], left))] + Lowest(rs[k + 1..], Left(rs[k], left))
  {
    assert rs[k..][1..] == rs[k + 1..];
  }

  lemma ListWithin(rs: Ranges, ground: Range, n: nat)
    requires Good(rs, ground) && n < |List(rs)|
    ensures In(ground, List(rs)[n])
  {
    ListHas(rs, List(rs)[n]);
    HasWithin(rs, ground, List(rs)[n]);
  }
}
