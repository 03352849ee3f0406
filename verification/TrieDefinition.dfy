/// What a trie is by Appendix D of the Ethereum Yellow Paper, told of the map alone: no tree, no
/// insertion and no sorted list. The nodes of every canonical trie are shown to be these.
module TrieDefinition {
  import opened Bytes
  import opened HexPrefix
  import opened Rlp
  import opened TrieMap
  import opened TrieNode
  import opened TrieShape

  type Paths = map<Nibbles, bytes>

  /// The map with its keys spelt out in nibbles.
  function PathsOf(m: Contents): Paths {
    map j | j in (set k | k in m :: Unpack(k)) :: Bound(m, j)
  }

  predicate AllBegin(m: Paths, p: Nibbles) {
    forall k <- m :: p <= k
  }

  ghost predicate Longest(m: Paths, p: Nibbles) {
    AllBegin(m, p) && forall q :: AllBegin(m, q) ==> |q| <= |p|
  }

  /// What goes on below a path, without it.
  function Below(m: Paths, p: Nibbles): Paths {
    map k | k in (set j | j in m && p <= j :: j[|p|..]) :: if p + k in m then m[p + k] else []
  }

  predicate NoLonger(m: Paths, n: nat) {
    forall k <- m :: |k| <= n
  }

  /// The structural composition function c: a leaf for one path, an extension where all go on
  /// alike, and a branch otherwise; n bounds the paths.
  ghost function Structural(m: Paths, n: nat): Item
    requires m != map[] && NoLonger(m, n)
    decreases n, 1
  {
    if |m| == 1 then
      var k :| k in m;
      List([Data(HP(k, true)), Data(m[k])])
    else
      HasLongest(m);
      var p :| Longest(m, p);
      if p != [] then
        BelowShorter(m, p, n);
        List([Data(HP(p, false)), Composed(Below(m, p), n - |p|)])
      else
        SomeLong(m, n);
        List(seq(16, i requires 0 <= i < 16 => Slot(m, n, i)) + [Data(if [] in m then m[[]] else [])])
  }

  ghost function Slot(m: Paths, n: nat, i: nibble): Item
    requires NoLonger(m, n) && n > 0
    decreases n, 0
  {
    BelowShorter(m, [i], n);
    Composed(Below(m, [i]), n - 1)
  }

  /// The node cap function n: nothing, the node itself below 32 bytes, or its hash.
  ghost function Composed(m: Paths, n: nat): Item
    requires NoLonger(m, n)
    decreases n, 2
  {
    if m == map[] then Data([])
    else
      var c := Structural(m, n);
      if |Encode(c)| < 32 then c else Data(Sha3(Encode(c)))
  }

  /// The node whose hash is the root.
  ghost function RootNode(m: Paths, n: nat): Item
    requires NoLonger(m, n)
  {
    if m == map[] then Data([]) else Structural(m, n)
  }

  lemma HasLongest(m: Paths)
    requires m != map[]
    ensures exists p :: Longest(m, p)
  {
    var k :| k in m;
    LongestUpTo(m, k, |k|);
  }

  lemma {:induction false} LongestUpTo(m: Paths, k: Nibbles, i: nat)
    requires k in m && i <= |k| && forall q :: AllBegin(m, q) ==> |q| <= i
    ensures exists p :: Longest(m, p)
  {
    if AllBegin(m, k[..i]) {
      assert Longest(m, k[..i]);
    } else {
      forall q | AllBegin(m, q) ensures |q| < i {
        assert q <= k && q == k[..|q|];
      }
      LongestUpTo(m, k, i - 1);
    }
  }

  lemma BelowShorter(m: Paths, p: Nibbles, n: nat)
    requires NoLonger(m, n) && ((AllBegin(m, p) && m != map[]) || |p| <= n)
    ensures |p| <= n && NoLonger(Below(m, p), n - |p|)
  {
  }

  lemma SomeLong(m: Paths, n: nat)
    requires m != map[] && |m| != 1 && NoLonger(m, n)
    ensures n > 0
  {
    var k :| k in m;
    if forall j <- m :: j == k {
      OneKey(m, k);
    }
  }

  lemma OneKey(m: Paths, k: Nibbles)
    requires k in m && forall j <- m :: j == k
    ensures |m| == 1
  {
    assert m.Keys == {k};
  }

  lemma TwoKeys(m: Paths, x: Nibbles, y: Nibbles)
    requires x in m && y in m && x != y
    ensures |m| > 1
  {
    assert {x, y} <= m.Keys;
    assert |m.Keys| == |{x, y}| + |m.Keys - {x, y}|;
  }

  // ------------------------------------------------------------------ the theorem

  /// The trie binds these paths, and no others.
  ghost predicate Shows(t: Trie, m: Paths) {
    && Wf(t)
    && forall k: Nibbles :: ShowsAt(t, m, k)
  }

  predicate ShowsAt(t: Trie, m: Paths, k: Nibbles)
    requires Wf(t)
  {
    if k in m then Get(t, k) == m[k] && m[k] != [] else Get(t, k) == []
  }

  /// Every canonical trie's node is the one of the definition.
  lemma {:induction false} NodeIsStructural(t: Trie, m: Paths, n: nat)
    requires Canonical(t) && Shows(t, m) && NoLonger(m, n) && t != Empty
    ensures m != map[] && Structural(m, n) == NodeItem(t)
    decreases t, 1
  {
    var k := SomeKey(t);
    assert ShowsAt(t, m, k);
    match t
    case Leaf(key, value) => LeafIsStructural(t, m, n);
    case Ext(key, child) => ExtIsStructural(t, m, n);
    case Branch(children, value) => BranchIsStructural(t, m, n);
  }

  lemma {:induction false} RefIsComposed(t: Trie, m: Paths, n: nat)
    requires Canonical(t) && Shows(t, m) && NoLonger(m, n)
    ensures Composed(m, n) == Ref(t)
    decreases t, 2
  {
    if t == Empty {
      ShowsNone(m);
      RefEmpty(t);
    } else {
      NodeIsStructural(t, m, n);
    }
  }

  lemma ShowsNone(m: Paths)
    requires Shows(Empty, m)
    ensures m == map[]
  {
    forall k: Nibbles ensures k !in m {
      assert ShowsAt(Empty, m, k);
    }
  }

  lemma LeafIsStructural(t: Trie, m: Paths, n: nat)
    requires t.Leaf? && Shows(t, m) && NoLonger(m, n) && m != map[]
    ensures Structural(m, n) == NodeItem(t)
  {
    assert ShowsAt(t, m, t.key);
    forall j | j in m ensures j == t.key {
      assert ShowsAt(t, m, j);
    }
    OneKey(m, t.key);
  }

  /// What is below a path, where the trie below binds what goes on from it.
  lemma ShowsBelow(t: Trie, m: Paths, p: Nibbles, u: Trie)
    requires Shows(t, m) && Wf(u) && forall k: Nibbles :: SameBelow(t, p, u, k)
    ensures Shows(u, Below(m, p))
  {
    hide Get, Wf, Below;
    forall k: Nibbles ensures ShowsAt(u, Below(m, p), k) {
      assert ShowsAt(t, m, p + k) && SameBelow(t, p, u, k);
      BelowAt(m, p, k);
    }
  }

  predicate SameBelow(t: Trie, p: Nibbles, u: Trie, k: Nibbles)
    requires Wf(t) && Wf(u)
  {
    Get(u, k) == Get(t, p + k)
  }

  lemma BelowAt(m: Paths, p: Nibbles, k: Nibbles)
    ensures k in Below(m, p) <==> p + k in m
    ensures p + k in m ==> Below(m, p)[k] == m[p + k]
  {
    assert (p + k)[|p|..] == k && forall j :: p <= j ==> p + j[|p|..] == j;
  }

  lemma LongestIs(m: Paths, p: Nibbles, x: Nibbles, y: Nibbles)
    requires AllBegin(m, p) && p + x in m && p + y in m && Apart(x, y)
    ensures forall q :: Longest(m, q) ==> q == p
    ensures |m| > 1
  {
    assert (p + x)[|p|..] == x && (p + y)[|p|..] == y;
    TwoKeys(m, p + x, p + y);
    forall q | Longest(m, q) ensures q == p {
      CommonStart(q, p, x, y);
    }
  }

  lemma {:induction false} ExtIsStructural(t: Trie, m: Paths, n: nat)
    requires t.Ext? && Canonical(t) && Shows(t, m) && NoLonger(m, n) && m != map[]
    ensures Structural(m, n) == NodeItem(t)
    decreases t, 0, 1
  {
    hide Structural, Composed, Ref, HP, Get, Wf, Canonical, Below, Longest, Shows, AllBegin;
    ExtSpreads(t, m);
    ChildCanonical(t);
    ExtGet(t);
    ShowsBelow(t, m, t.key, t.child);
    BelowShorter(m, t.key, n);
    RefIsComposed(t.child, Below(m, t.key), n - |t.key|);
    StructuralExt(m, n, t.key);
  }

  lemma ChildCanonical(t: Trie)
    requires Canonical(t)
    ensures Wf(t)
    ensures t.Ext? ==> t.key != [] && Canonical(t.child) && Wf(t.child)
    ensures t.Branch? ==> |t.children| == 16 && forall i :: 0 <= i < 16 ==> Canonical(t.children[i]) && Wf(t.children[i])
  {
    CanonicalWf(t);
  }

  /// An extension's path is the longest with which all paths begin.
  lemma ExtSpreads(t: Trie, m: Paths)
    requires t.Ext? && Canonical(t) && Shows(t, m)
    ensures t.key != [] && |m| > 1 && AllBegin(m, t.key)
    ensures forall q :: Longest(m, q) ==> q == t.key
  {
    var x, y := SpreadExt(t);
    assert ShowsAt(t, m, t.key + x) && ShowsAt(t, m, t.key + y);
    forall j | j in m ensures t.key <= j {
      assert ShowsAt(t, m, j);
    }
    LongestIs(m, t.key, x, y);
  }

  /// The paths of a branch part at once.
  lemma BranchSpreads(t: Trie, m: Paths)
    requires t.Branch? && Canonical(t) && Shows(t, m)
    ensures |m| > 1 && forall q :: Longest(m, q) ==> q == []
  {
    var x, y := Spread(t);
    assert ShowsAt(t, m, x) && ShowsAt(t, m, y) && [] + x == x && [] + y == y;
    LongestIs(m, [], x, y);
  }

  lemma ExtGet(t: Trie)
    requires t.Ext? && Wf(t)
    ensures forall k: Nibbles :: SameBelow(t, t.key, t.child, k)
  {
    forall k: Nibbles ensures SameBelow(t, t.key, t.child, k) {
      assert (t.key + k)[|t.key|..] == k;
    }
  }

  lemma BranchGet(t: Trie, i: nibble)
    requires t.Branch? && Wf(t)
    ensures forall k: Nibbles :: SameBelow(t, [i], t.children[i], k)
  {
    forall k: Nibbles ensures SameBelow(t, [i], t.children[i], k) {
      assert ([i] + k)[1..] == k;
    }
  }

  lemma StructuralExt(m: Paths, n: nat, p: Nibbles)
    requires m != map[] && |m| > 1 && NoLonger(m, n) && p != [] && AllBegin(m, p)
    requires forall q :: Longest(m, q) ==> q == p
    ensures |p| <= n && NoLonger(Below(m, p), n - |p|)
    ensures Structural(m, n) == List([Data(HP(p, false)), Composed(Below(m, p), n - |p|)])
  {
    hide Below, Composed, HP;
    HasLongest(m);
    BelowShorter(m, p, n);
  }

  lemma {:induction false} BranchIsStructural(t: Trie, m: Paths, n: nat)
    requires t.Branch? && Canonical(t) && Shows(t, m) && NoLonger(m, n) && m != map[]
    ensures Structural(m, n) == NodeItem(t)
    decreases t, 0, 1
  {
    hide Structural, Composed, Ref, HP, Get, Wf, Canonical, Below, Longest, AllBegin, Slot;
    BranchSpreads(t, m);
    SomeLong(m, n);
    ChildCanonical(t);
    forall i: nibble ensures Slot(m, n, i) == Ref(t.children[i]) {
      SlotIsRef(t, m, n, i);
    }
    BranchValue(t, m);
    StructuralBranch(m, n);
    assert seq(16, i requires 0 <= i < 16 => Slot(m, n, i)) == seq(16, i requires 0 <= i < 16 => Ref(t.children[i]));
  }

  lemma BranchValue(t: Trie, m: Paths)
    requires t.Branch? && Shows(t, m)
    ensures t.value == if [] in m then m[[]] else []
  {
    assert ShowsAt(t, m, []);
  }

  lemma {:induction false} SlotIsRef(t: Trie, m: Paths, n: nat, i: nibble)
    requires t.Branch? && Canonical(t) && Shows(t, m) && NoLonger(m, n) && n > 0
    ensures |t.children| == 16 && Slot(m, n, i) == Ref(t.children[i])
    decreases t, 0, 0
  {
    hide Structural, Composed, Ref, HP, Get, Wf, Canonical, Below, Longest, AllBegin, Shows;
    ChildCanonical(t);
    BranchGet(t, i);
    ShowsBelow(t, m, [i], t.children[i]);
    BelowShorter(m, [i], n);
    RefIsComposed(t.children[i], Below(m, [i]), n - 1);
  }

  lemma StructuralBranch(m: Paths, n: nat)
    requires m != map[] && |m| > 1 && NoLonger(m, n) && n > 0 && forall q :: Longest(m, q) ==> q == []
    ensures Structural(m, n)
         == List(seq(16, i requires 0 <= i < 16 => Slot(m, n, i)) + [Data(if [] in m then m[[]] else [])])
  {
    hide Below, Composed, HP, Slot;
    HasLongest(m);
  }

  lemma ShowsPaths(t: Trie, m: Contents)
    requires Binds(t, m) && NoEmptyValues(m)
    ensures Shows(t, PathsOf(m))
  {
    hide PathsOf, Get, Pack, Wf;
    forall j: Nibbles ensures ShowsAt(t, PathsOf(m), j) {
      assert Get(t, j) == Bound(m, j);
      PathsAt(m, j);
    }
  }

  lemma PathsAt(m: Contents, j: Nibbles)
    ensures j in PathsOf(m) <==> |j| % 2 == 0 && Pack(j) in m
    ensures j in PathsOf(m) ==> PathsOf(m)[j] == m[Pack(j)]
  {
    hide Pack, Unpack;
    if |j| % 2 == 0 && Pack(j) in m {
      PathOfKey(j, Pack(j));
    }
    forall k | k in m && j == Unpack(k) ensures |j| % 2 == 0 && Pack(j) == k {
      PathOfKey(j, k);
    }
  }

  /// The root node of every canonical trie over a map is the one of the definition.
  lemma RootIsDefined(t: Trie, m: Contents, n: nat)
    requires Canonical(t) && Binds(t, m) && NoEmptyValues(m) && NoLonger(PathsOf(m), n)
    ensures NodeItem(t) == RootNode(PathsOf(m), n)
  {
    ShowsPaths(t, m);
    if t == Empty {
      ShowsNone(PathsOf(m));
    } else {
      NodeIsStructural(t, PathsOf(m), n);
    }
  }
}
