/// The one-shot trie of libdevcore/TrieHash.cpp: a single recursive pass over a sorted map that
/// writes the root node, hashing the larger nodes below it.
module TrieHash {
  import opened Bytes
  import opened HexPrefix
  import opened Options
  import opened Rlp
  import opened RlpStream
  import opened TrieDefinition
  import opened TrieMap
  import opened TrieNode
  import opened TrieShape

  type Entry = (Nibbles, bytes)

  /// The order of std::map over byte vectors.
  predicate Less(a: Nibbles, b: Nibbles) {
    if b == [] then false
    else if a == [] then true
    else if a[0] != b[0] then a[0] < b[0]
    else Less(a[1..], b[1..])
  }

  const KEY_LIMIT: nat := 0xffff_ffff
  const VALUE_LIMIT: nat := 0x4000_0000_0000_0000

  /// A HexMap: strictly ascending, values not empty, lengths the machine can count.
  predicate HexMap(s: seq<Entry>) {
    && (forall i, j :: 0 <= i < j < |s| ==> Less(s[i].0, s[j].0))
    && (forall i :: 0 <= i < |s| ==> |s[i].0| < KEY_LIMIT && 0 < |s[i].1| < VALUE_LIMIT)
  }

  /// The entries from b to e have at least n nibbles and agree on the first n.
  predicate AllShare(s: seq<Entry>, b: nat, e: nat, n: nat)
    requires e <= |s|
  {
    forall i :: b <= i < e ==> n <= |s[b].0| && n <= |s[i].0| && s[i].0[..n] == s[b].0[..n]
  }

  /// The trie binds exactly the entries from b to e, each under its path from the n-th nibble on.
  ghost predicate Matches(t: Trie, s: seq<Entry>, b: nat, e: nat, n: nat)
    requires e <= |s| && AllShare(s, b, e, n)
  {
    && Wf(t)
    && (forall i :: b <= i < e ==> Get(t, s[i].0[n..]) == s[i].1)
    && (forall j :: Get(t, j) != [] ==> exists i :: b <= i < e && s[i].0[n..] == j)
  }

  lemma {:induction false} LessNibble(a: Nibbles, b: Nibbles, n: nat)
    requires Less(a, b) && n <= |a| && n <= |b| && a[..n] == b[..n]
    ensures |b| > n
    ensures |a| > n ==> a[n] <= b[n]
  {
    if n > 0 {
      assert a[0] == a[..n][0] == b[..n][0] == b[0];
      assert a[1..][..n - 1] == a[..n][1..] && b[1..][..n - 1] == b[..n][1..];
      LessNibble(a[1..], b[1..], n - 1);
    }
  }

  // ------------------------------------------------------- sizes of canonical nodes

  lemma EncodeDataSize(b: bytes)
    requires |b| < VALUE_LIMIT
    ensures |EncodeData(b)| <= |b| + 9
  {
    if |b| >= IMM_LEN_COUNT {
      LongHeader(|b|, DATA_START);
    }
  }

  lemma RefSize(t: Trie)
    ensures |Encode(Ref(t))| <= 33
  {
    if |Encode(NodeItem(t))| >= 32 {
      EncodeDataSize(NodeHash(NodeItem(t)));
    }
  }

  // ---------------------------------------------------- a list written item by item

  /// The stream of a node whose list header is still to come: payload written, n items missing.
  function Partial(payload: bytes, n: nat): (f: Frames)
    requires n > 0
    ensures f.Wf()
  {
    Frames([[], payload], [n])
  }

  lemma AddPartial(payload: bytes, n: nat, e: bytes)
    requires n > 0 && |payload + e| < SIZE_LIMIT
    ensures Add(Partial(payload, n), e, 1) == Some(
              if n > 1 then Partial(payload + e, n - 1)
              else Frames([Header(|payload + e|, LIST_START) + (payload + e)], []))
  {
    var f := Partial(payload, n).WithTop(payload + e);
    assert Partial(payload, n).Top() == payload && f == Partial(payload + e, n);
    if n == 1 {
      var h := Header(|payload + e|, LIST_START);
      assert [] + h + (payload + e) == h + (payload + e);
      assert f.Top() == payload + e && f.Last() == 1 && f.counts[..0] == [];
      assert f.Closed() == Frames([h + (payload + e)], []);
      assert Note(f.Closed(), 1) == Some(f.Closed());
    } else {
      assert f.counts[..0] + [n - 1] == [n - 1];
    }
  }

  lemma EncodeSnoc(xs: seq<Item>, x: Item)
    ensures EncodeAll(xs + [x]) == EncodeAll(xs) + Encode(x)
  {
    EncodeAllAppend(xs, [x]);
    assert [x][1..] == [];
    assert EncodeAll([x]) == Encode(x) + EncodeAll([]);
  }

  // ----------------------------------------------------------------- the builder

  /// Entries that agree on the first nibbles agree on fewer of them.
  lemma SharesLess(a: Nibbles, b: Nibbles, n: nat, m: nat)
    requires m <= n <= |a| && n <= |b| && a[..n] == b[..n]
    ensures a[..m] == b[..m]
  {
    hide *;
    assert a[..n][..m] == a[..m] && b[..n][..m] == b[..m];
  }

  lemma DifferAt(a: Nibbles, b: Nibbles, n: nat)
    requires n < |a| && n < |b| && a[n] != b[n]
    ensures a[..n + 1] != b[..n + 1]
  {
    hide *;
    assert a[..n + 1][n] != b[..n + 1][n];
  }

  /// One more entry: all agree as far as those before did and this one does with the first, and no further.
  lemma OneMoreShares(s: seq<Entry>, b: nat, i: nat, was: nat, shared: nat)
    requires b < i < |s|
    requires i > b + 1 ==> AllShare(s, b, i, was) && !AllShare(s, b, i, was + 1)
    requires i == b + 1 ==> was >= |s[b].0|
    requires shared <= |s[b].0| && shared <= |s[i].0| && s[b].0[..shared] == s[i].0[..shared]
    requires shared >= was || shared == |s[b].0| || shared == |s[i].0| || s[b].0[shared] != s[i].0[shared]
    ensures var n := if shared < was then shared else was; AllShare(s, b, i + 1, n) && !AllShare(s, b, i + 1, n + 1)
  {
    var n := if shared < was then shared else was;
    forall j | b <= j < i + 1
      ensures n <= |s[b].0| && n <= |s[j].0| && s[j].0[..n] == s[b].0[..n]
    {
      if b < j {
        SharesLess(s[j].0, s[b].0, if j < i then was else shared, n);
      }
    }
    if shared < was && shared < |s[b].0| && shared < |s[i].0| {
      DifferAt(s[b].0, s[i].0, shared);
    }
  }

  /// The number of leading nibbles all entries share: compares the first entry with each other.
  method SharedPrefix(s: seq<Entry>, begin: nat, end: nat, preLen: nat) returns (sharedPre: nat)
    requires HexMap(s) && begin + 1 < end <= |s| && AllShare(s, begin, end, preLen)
    ensures sharedPre >= preLen && AllShare(s, begin, end, sharedPre) && !AllShare(s, begin, end, sharedPre + 1)
  {
    sharedPre := KEY_LIMIT;
    var first := s[begin].0;
    var i := begin + 1;
    while i != end && sharedPre != 0
      invariant begin < i <= end && sharedPre >= preLen
      invariant i > begin + 1 ==> AllShare(s, begin, i, sharedPre) && !AllShare(s, begin, i, sharedPre + 1)
      invariant i == begin + 1 ==> sharedPre == KEY_LIMIT
      decreases end - i
    {
      var other := s[i].0;
      var x := if |first| < |other| then |first| else |other|;
      x := if sharedPre < x then sharedPre else x;
      var shared := preLen;
      assert AllShare(s, begin, end, preLen) ==> first[..preLen] == other[..preLen];
      while shared < x && first[shared] == other[shared]
        invariant preLen <= shared <= x
        invariant first[..shared] == other[..shared]
      {
        assert first[..shared + 1] == first[..shared] + [first[shared]];
        assert other[..shared + 1] == other[..shared] + [other[shared]];
        shared := shared + 1;
      }
      ghost var was := sharedPre;
      sharedPre := if shared < sharedPre then shared else sharedPre;
      OneMoreShares(s, begin, i, was, shared);
      i := i + 1;
    }
    if i != end {
      forall j | begin <= j < end ensures s[j].0[..0] == first[..0] {}
      assert !AllShare(s, begin, end, 1);
    }
  }

  /// What hash256rlp promises of the trie whose node it wrote.
  ghost predicate Built(t: Trie, s: seq<Entry>, begin: nat, end: nat, preLen: nat)
    requires end <= |s| && AllShare(s, begin, end, preLen)
  {
    && Canonical(t) && Matches(t, s, begin, end, preLen)
    && (begin < end ==> t != Empty)
    && (begin + 1 < end && !AllShare(s, begin, end, preLen + 1) ==> t.Branch?)
  }

  /// An append that stays inside the open list of the node.
  method AppendItem(rlp: RLPStream, x: Item, ghost items: seq<Item>, ghost n: nat)
    requires x.Data? && |x.payload| < VALUE_LIMIT
    requires rlp.Valid() && n > 0 && rlp.frames == Partial(EncodeAll(items), n)
    requires |EncodeAll(items)| + |Encode(x)| < SIZE_LIMIT
    modifies rlp
    ensures rlp.Valid()
    ensures rlp.frames == if n > 1 then Partial(EncodeAll(items + [x]), n - 1) else Frames([Encode(List(items + [x]))], [])
  {
    AddPartial(EncodeAll(items), n, Encode(x));
    EncodeSnoc(items, x);
    var ok := rlp.AppendData(x.payload);
  }

  /// hash256aux: the node below goes in raw if it is small and by its hash otherwise.
  method Hash256Aux(s: seq<Entry>, begin: nat, end: nat, preLen: nat, rlp: RLPStream, ghost items: seq<Item>,
                    ghost n: nat)
      returns (ghost t: Trie)
    requires HexMap(s) && begin < end <= |s| && AllShare(s, begin, end, preLen)
    requires rlp.Valid() && n > 0 && rlp.frames == Partial(EncodeAll(items), n)
    requires |EncodeAll(items)| + 33 < SIZE_LIMIT
    modifies rlp
    ensures Built(t, s, begin, end, preLen)
    ensures rlp.Valid()
    ensures rlp.frames == if n > 1 then Partial(EncodeAll(items + [Ref(t)]), n - 1)
                          else Frames([Encode(List(items + [Ref(t)]))], [])
    decreases end - begin, |s[begin].0| - preLen, 4
  {
    var below := new RLPStream();
    t := Hash256Rlp(s, begin, end, preLen, below);
    var out := below.Out();
    RefSize(t);
    AddPartial(EncodeAll(items), n, Encode(Ref(t)));
    EncodeSnoc(items, Ref(t));
    if |out.value| < 32 {
      var ok := rlp.AppendRaw(out.value, 1);
    } else {
      var ok := rlp.AppendData(Sha3(out.value));
    }
  }

  /// hash256rlp: the node of the entries from begin to end, on a fresh stream.
  method Hash256Rlp(s: seq<Entry>, begin: nat, end: nat, preLen: nat, rlp: RLPStream) returns (ghost t: Trie)
    requires HexMap(s) && begin <= end <= |s| && AllShare(s, begin, end, preLen)
    requires rlp.Valid() && rlp.frames == Frames([[]], [])
    modifies rlp
    ensures Built(t, s, begin, end, preLen)
    ensures rlp.Valid() && rlp.frames == Frames([Encode(NodeItem(t))], [])
    decreases end - begin, if begin < end then |s[begin].0| - preLen else 0, 3
  {
    if begin == end {
      t := Empty;
      var ok := rlp.AppendData([]);
      assert [] + EncodeData([]) == Encode(NodeItem(t));
    } else if begin + 1 == end {
      t := Hash256Leaf(s, begin, preLen, rlp);
    } else {
      var sharedPre := SharedPrefix(s, begin, end, preLen);
      if sharedPre > preLen {
        t := Hash256Ext(s, begin, end, preLen, sharedPre, rlp);
      } else {
        t := Hash256Branch(s, begin, end, preLen, rlp);
      }
    }
  }

  /// hash256rlp, the leaf: only one entry is left.
  method Hash256Leaf(s: seq<Entry>, begin: nat, preLen: nat, rlp: RLPStream) returns (ghost t: Trie)
    requires HexMap(s) && begin < |s| && AllShare(s, begin, begin + 1, preLen)
    requires rlp.Valid() && rlp.frames == Frames([[]], [])
    modifies rlp
    ensures Built(t, s, begin, begin + 1, preLen)
    ensures rlp.Valid() && rlp.frames == Frames([Encode(NodeItem(t))], [])
  {
    var key, value := s[begin].0, s[begin].1;
    ghost var hp := Data(HP(key[preLen..|key|], true));
    t := Leaf(key[preLen..], value);
    assert key[preLen..|key|] == t.key && NodeItem(t) == List([hp, Data(value)]);
    HPSize(key[preLen..|key|], true);
    PairSize(hp, Data(value));
    hide HP, Encode, NodeItem, Header, Add, Note;
    StartPair(key, true, preLen, |key|, rlp);
    AppendItem(rlp, Data(value), [hp], 1);
    assert [hp] + [Data(value)] == [hp, Data(value)];
  }

  /// The first item of a pair.
  method StartPair(key: Nibbles, leaf: bool, from: nat, to: nat, rlp: RLPStream)
    requires from <= to <= |key| < KEY_LIMIT
    requires rlp.Valid() && rlp.frames == Frames([[]], [])
    modifies rlp
    ensures rlp.Valid() && rlp.frames == Partial(EncodeAll([Data(HP(key[from..to], leaf))]), 1)
  {
    hide HP, Encode;
    var hp := HexPrefixVector(key, leaf, from, to);
    HPSize(key[from..to], leaf);
    PairSize(Data(hp), Data([]));
    var ok := rlp.AppendList(2);
    assert rlp.frames == Partial(EncodeAll([]), 2);
    AppendItem(rlp, Data(hp), [], 2);
    assert [] + [Data(hp)] == [Data(hp)];
  }

  /// hash256rlp, the extension: all entries go on alike up to sharedPre.
  method Hash256Ext(s: seq<Entry>, begin: nat, end: nat, preLen: nat, sharedPre: nat, rlp: RLPStream)
      returns (ghost t: Trie)
    requires HexMap(s) && begin + 1 < end <= |s| && preLen < sharedPre
    requires AllShare(s, begin, end, preLen) && AllShare(s, begin, end, sharedPre)
             && !AllShare(s, begin, end, sharedPre + 1)
    requires rlp.Valid() && rlp.frames == Frames([[]], [])
    modifies rlp
    ensures Built(t, s, begin, end, preLen)
    ensures rlp.Valid() && rlp.frames == Frames([Encode(NodeItem(t))], [])
    decreases end - begin, |s[begin].0| - preLen, 0
  {
    StartPair(s[begin].0, false, preLen, sharedPre, rlp);
    ghost var key := s[begin].0[preLen..sharedPre];
    HPSize(key, false);
    PairSize(Data(HP(key, false)), Data([]));
    ghost var child := Hash256Aux(s, begin, end, sharedPre, rlp, [Data(HP(key, false))], 1);
    t := Ext(key, child);
    assert [Data(HP(key, false))] + [Ref(child)] == NodeItem(t).items;
    ExtBuilt(t, s, begin, end, preLen, sharedPre);
  }

  lemma HPSize(ns: Nibbles, leaf: bool)
    requires |ns| < KEY_LIMIT
    ensures |HP(ns, leaf)| < VALUE_LIMIT / 2
  {
  }

  lemma PairSize(x: Item, y: Item)
    requires x.Data? && |x.payload| < VALUE_LIMIT && y.Data? && |y.payload| < VALUE_LIMIT
    ensures EncodeAll([]) == []
    ensures |EncodeAll([x])| + |Encode(y)| < SIZE_LIMIT && |EncodeAll([x])| + 33 < SIZE_LIMIT
    ensures |EncodeAll([])| + |Encode(x)| < SIZE_LIMIT
  {
    EncodeSnoc([], x);
    assert [] + [x] == [x];
    EncodeDataSize(x.payload);
    EncodeDataSize(y.payload);
  }

  /// An entry of a range that agrees up to sharedPre, read from preLen on.
  lemma ShareMore(s: seq<Entry>, begin: nat, end: nat, preLen: nat, sharedPre: nat, i: nat)
    requires begin <= i < end <= |s| && preLen < sharedPre && AllShare(s, begin, end, sharedPre)
    ensures sharedPre <= |s[i].0| && sharedPre <= |s[begin].0|
    ensures s[i].0[preLen..] == s[begin].0[preLen..sharedPre] + s[i].0[sharedPre..]
    ensures s[i].0[..preLen + 1] == s[begin].0[..preLen + 1]
  {
    var x, y := s[i].0, s[begin].0;
    assert x[..sharedPre] == y[..sharedPre];
    assert x[preLen..sharedPre] == x[..sharedPre][preLen..] == y[..sharedPre][preLen..] == y[preLen..sharedPre];
    assert x[..preLen + 1] == x[..sharedPre][..preLen + 1] == y[..sharedPre][..preLen + 1] == y[..preLen + 1];
  }

  lemma ExtBuilt(t: Trie, s: seq<Entry>, begin: nat, end: nat, preLen: nat, sharedPre: nat)
    requires HexMap(s) && begin + 1 < end <= |s| && preLen < sharedPre
    requires AllShare(s, begin, end, preLen) && AllShare(s, begin, end, sharedPre)
             && !AllShare(s, begin, end, sharedPre + 1)
    requires t.Ext? && t.key == s[begin].0[preLen..sharedPre] && Built(t.child, s, begin, end, sharedPre)
    ensures Built(t, s, begin, end, preLen)
  {
    forall i | begin <= i < end ensures Get(t, s[i].0[preLen..]) == s[i].1 {
      ShareMore(s, begin, end, preLen, sharedPre, i);
      assert s[i].0[preLen..][|t.key|..] == s[i].0[sharedPre..];
    }
    assert AllShare(s, begin, end, preLen + 1) by {
      forall i | begin <= i < end
        ensures preLen + 1 <= |s[i].0| && s[i].0[..preLen + 1] == s[begin].0[..preLen + 1]
      {
        ShareMore(s, begin, end, preLen, sharedPre, i);
      }
    }
    forall j | Get(t, j) != [] ensures exists i :: begin <= i < end && s[i].0[preLen..] == j {
      assert Get(t.child, j[|t.key|..]) != [];
      var i :| begin <= i < end && s[i].0[sharedPre..] == j[|t.key|..];
      ShareMore(s, begin, end, preLen, sharedPre, i);
      assert j == t.key + j[|t.key|..];
    }
  }

  /// The children written so far bind exactly the entries from b0 to b, one nibble further on.
  ghost predicate ChildrenMatch(children: seq<Trie>, s: seq<Entry>, b0: nat, b: nat, n: nat)
    requires b <= |s| && forall e :: b0 <= e < b ==> |s[e].0| > n
  {
    && (forall c :: 0 <= c < |children| ==> Canonical(children[c]) && Wf(children[c]))
    && (forall e :: b0 <= e < b ==> s[e].0[n] < |children| && Get(children[s[e].0[n]], s[e].0[n + 1..]) == s[e].1)
    && (forall c, j :: 0 <= c < |children| && Get(children[c], j) != [] ==>
          exists e :: b0 <= e < b && s[e].0[n] == c && s[e].0[n + 1..] == j)
  }

  lemma ChildAdded(children: seq<Trie>, c: Trie, s: seq<Entry>, b0: nat, b: nat, m: nat, n: nat)
    requires b0 <= b <= m <= |s| && |children| < 16
    requires forall e :: b0 <= e < m ==> |s[e].0| > n
    requires forall e :: b <= e < m ==> s[e].0[n] == |children|
    requires ChildrenMatch(children, s, b0, b, n)
    requires if b == m then c == Empty else AllShare(s, b, m, n + 1) && Built(c, s, b, m, n + 1)
    ensures ChildrenMatch(children + [c], s, b0, m, n)
  {
    var cs := children + [c];
    if b < m {
      CanonicalWf(c);
    }
    forall d, j | 0 <= d < |cs| && Get(cs[d], j) != []
      ensures exists e :: b0 <= e < m && s[e].0[n] == d && s[e].0[n + 1..] == j
    {
      if d == |children| {
        var e :| b <= e < m && s[e].0[n + 1..] == j;
      } else {
        var e :| b0 <= e < b && s[e].0[n] == d && s[e].0[n + 1..] == j;
      }
    }
  }

  /// hash256rlp, the branch: the entries that go on with nibble i stand together, for each i.
  method Hash256Branch(s: seq<Entry>, begin: nat, end: nat, preLen: nat, rlp: RLPStream) returns (ghost t: Trie)
    requires HexMap(s) && begin + 1 < end <= |s|
    requires AllShare(s, begin, end, preLen) && !AllShare(s, begin, end, preLen + 1)
    requires rlp.Valid() && rlp.frames == Frames([[]], [])
    modifies rlp
    ensures Built(t, s, begin, end, preLen)
    ensures rlp.Valid() && rlp.frames == Frames([Encode(NodeItem(t))], [])
    decreases end - begin, |s[begin].0| - preLen, 2
  {
    var ok := rlp.AppendList(17);
    var b := begin;
    if preLen == |s[b].0| {
      b := b + 1;
    }
    ghost var b0 := b;
    Nibbled(s, begin, end, preLen, b0);
    ghost var children, items := Hash256Children(s, begin, end, preLen, b, rlp);
    var value: bytes := if preLen == |s[begin].0| then s[begin].1 else [];
    EncodeDataSize(value);
    AppendItem(rlp, Data(value), items, 1);
    t := Branch(children, value);
    assert NodeItem(t).items == items + [Data(value)];
    BranchBuilt(t, s, begin, end, preLen, b0);
  }

  /// hash256rlp, the loop over the 16 children.
  method Hash256Children(s: seq<Entry>, begin: nat, end: nat, preLen: nat, b0: nat, rlp: RLPStream)
      returns (ghost children: seq<Trie>, ghost items: seq<Item>)
    requires HexMap(s) && begin + 1 < end <= |s| && AllShare(s, begin, end, preLen)
    requires begin <= b0 <= end
    requires forall e :: b0 <= e < end ==> |s[e].0| > preLen
    requires forall e, f :: b0 <= e < f < end ==> s[e].0[preLen] <= s[f].0[preLen]
    requires rlp.Valid() && rlp.frames == Partial(EncodeAll([]), 17)
    modifies rlp
    ensures |children| == |items| == 16 && ChildrenMatch(children, s, b0, end, preLen)
    ensures forall c :: 0 <= c < 16 ==> items[c] == Ref(children[c])
    ensures rlp.Valid() && rlp.frames == Partial(EncodeAll(items), 1)
    ensures |EncodeAll(items)| <= 33 * 16
    decreases end - begin, |s[begin].0| - preLen, 1
  {
    hide Wf, Get, Canonical, Ref, Encode, AllShare, Partial;
    var b := b0;
    children, items := [], [];
    for i := 0 to 16
      invariant b0 <= b <= end && |children| == |items| == i
      invariant forall c :: 0 <= c < i ==> items[c] == Ref(children[c])
      invariant forall e :: b <= e < end ==> s[e].0[preLen] >= i
      invariant ChildrenMatch(children, s, b0, b, preLen)
      invariant rlp.Valid() && rlp.frames == Partial(EncodeAll(items), 17 - i)
      invariant |EncodeAll(items)| <= 33 * i
    {
      var n;
      ghost var c;
      n, c := Hash256Child(s, begin, end, preLen, b0, b, i, rlp, items);
      RefSize(c);
      EncodeSnoc(items, Ref(c));
      ChildAdded(children, c, s, b0, b, n, preLen);
      children, items := children + [c], items + [Ref(c)];
      b := n;
    }
  }

  /// One child of a branch: the run of entries from b on that go on with nibble i.
  method Hash256Child(s: seq<Entry>, begin: nat, end: nat, preLen: nat, ghost b0: nat, b: nat, i: nibble,
                      rlp: RLPStream, ghost items: seq<Item>)
      returns (n: nat, ghost c: Trie)
    requires HexMap(s) && begin + 1 < end <= |s| && AllShare(s, begin, end, preLen)
    requires begin <= b0 <= b <= end && |items| == i && |EncodeAll(items)| <= 33 * i
    requires forall e :: b0 <= e < end ==> |s[e].0| > preLen
    requires forall e, f :: b0 <= e < f < end ==> s[e].0[preLen] <= s[f].0[preLen]
    requires forall e :: b <= e < end ==> s[e].0[preLen] >= i
    requires rlp.Valid() && rlp.frames == Partial(EncodeAll(items), 17 - i)
    modifies rlp
    ensures b <= n <= end
    ensures forall e :: b <= e < n ==> s[e].0[preLen] == i
    ensures forall e :: n <= e < end ==> s[e].0[preLen] >= i + 1
    ensures if b == n then c == Empty else AllShare(s, b, n, preLen + 1) && Built(c, s, b, n, preLen + 1)
    ensures rlp.Valid() && rlp.frames == Partial(EncodeAll(items + [Ref(c)]), 17 - i - 1)
    decreases end - begin, |s[begin].0| - preLen, 0
  {
    n := b;
    while n != end && s[n].0[preLen] == i
      invariant b <= n <= end
      invariant forall e :: b <= e < n ==> s[e].0[preLen] == i
      decreases end - n
    {
      n := n + 1;
    }
    if b == n {
      c := Empty;
      RefEmpty(c);
      EncodeDataSize([]);
      AppendItem(rlp, Data([]), items, 17 - i);
    } else {
      SubShare(s, begin, end, preLen, b, n);
      c := Hash256Aux(s, b, n, preLen + 1, rlp, items, 17 - i);
    }
  }

  /// Only the first entry can end with the common prefix, and the next nibbles ascend.
  lemma Nibbled(s: seq<Entry>, begin: nat, end: nat, n: nat, b0: nat)
    requires HexMap(s) && begin + 1 < end <= |s| && AllShare(s, begin, end, n)
    requires b0 == if n == |s[begin].0| then begin + 1 else begin
    ensures forall e :: b0 <= e < end ==> |s[e].0| > n
    ensures forall e, f :: b0 <= e < f < end ==> s[e].0[n] <= s[f].0[n]
  {
    forall e | b0 <= e < end ensures |s[e].0| > n {
      if e > begin {
        LessNibble(s[begin].0, s[e].0, n);
      }
    }
    forall e, f | b0 <= e < f < end ensures s[e].0[n] <= s[f].0[n] {
      LessNibble(s[e].0, s[f].0, n);
    }
  }

  lemma SubShare(s: seq<Entry>, begin: nat, end: nat, n: nat, b: nat, m: nat)
    requires begin <= b < m <= end <= |s| && AllShare(s, begin, end, n)
    requires |s[b].0| > n && forall e :: b <= e < m ==> |s[e].0| > n && s[e].0[n] == s[b].0[n]
    ensures AllShare(s, b, m, n + 1)
  {
    forall i | b <= i < m ensures n + 1 <= |s[i].0| && s[i].0[..n + 1] == s[b].0[..n + 1] {
      assert s[i].0[..n] == s[begin].0[..n] == s[b].0[..n];
      assert s[i].0[..n + 1] == s[i].0[..n] + [s[i].0[n]] && s[b].0[..n + 1] == s[b].0[..n] + [s[b].0[n]];
    }
  }

  lemma BranchBuilt(t: Trie, s: seq<Entry>, begin: nat, end: nat, n: nat, b0: nat)
    requires HexMap(s) && begin + 1 < end <= |s| && AllShare(s, begin, end, n) && !AllShare(s, begin, end, n + 1)
    requires b0 == if n == |s[begin].0| then begin + 1 else begin
    requires forall e :: b0 <= e < end ==> |s[e].0| > n
    requires t.Branch? && |t.children| == 16 && ChildrenMatch(t.children, s, b0, end, n)
    requires t.value == if n == |s[begin].0| then s[begin].1 else []
    ensures Built(t, s, begin, end, n)
  {
    BranchUses(t, s, begin, end, n, b0);
    forall i | begin <= i < end ensures Get(t, s[i].0[n..]) == s[i].1 {
      BranchEntry(t, s, begin, end, n, b0, i);
    }
    forall j | Get(t, j) != [] ensures exists i :: begin <= i < end && s[i].0[n..] == j {
      var i := BranchWitness(t, s, begin, end, n, b0, j);
    }
  }

  lemma BranchEntry(t: Trie, s: seq<Entry>, begin: nat, end: nat, n: nat, b0: nat, i: nat)
    requires begin <= i < end <= |s| && AllShare(s, begin, end, n)
    requires b0 == if n == |s[begin].0| then begin + 1 else begin
    requires forall e :: b0 <= e < end ==> |s[e].0| > n
    requires t.Branch? && |t.children| == 16 && ChildrenMatch(t.children, s, b0, end, n)
    requires t.value == if n == |s[begin].0| then s[begin].1 else []
    ensures Wf(t) && Get(t, s[i].0[n..]) == s[i].1
  {
    if i >= b0 {
      assert s[i].0[n..][0] == s[i].0[n] && s[i].0[n..][1..] == s[i].0[n + 1..];
    }
  }

  lemma BranchWitness(t: Trie, s: seq<Entry>, begin: nat, end: nat, n: nat, b0: nat, j: Nibbles) returns (i: nat)
    requires begin < end <= |s| && AllShare(s, begin, end, n)
    requires b0 == if n == |s[begin].0| then begin + 1 else begin
    requires forall e :: b0 <= e < end ==> |s[e].0| > n
    requires t.Branch? && |t.children| == 16 && ChildrenMatch(t.children, s, b0, end, n)
    requires t.value == if n == |s[begin].0| then s[begin].1 else []
    requires Wf(t) && Get(t, j) != []
    ensures begin <= i < end && s[i].0[n..] == j
  {
    if j == [] {
      i := begin;
    } else {
      assert Get(t.children[j[0]], j[1..]) != [];
      var e :| b0 <= e < end && s[e].0[n] == j[0] && s[e].0[n + 1..] == j[1..];
      assert s[e].0[n..] == [s[e].0[n]] + s[e].0[n + 1..] == j;
      i := e;
    }
  }

  lemma BranchUses(t: Trie, s: seq<Entry>, begin: nat, end: nat, n: nat, b0: nat)
    requires HexMap(s) && begin + 1 < end <= |s| && AllShare(s, begin, end, n) && !AllShare(s, begin, end, n + 1)
    requires b0 == if n == |s[begin].0| then begin + 1 else begin
    requires forall e :: b0 <= e < end ==> |s[e].0| > n
    requires t.Branch? && |t.children| == 16 && ChildrenMatch(t.children, s, b0, end, n)
    requires t.value == if n == |s[begin].0| then s[begin].1 else []
    ensures TwoUses(t)
  {
    assert forall e :: b0 <= e < end ==> InUse(t, s[e].0[n]);
    if b0 > begin {
      assert InUse(t, s[b0].0[n]) && InUse(t, 16);
    } else if forall e :: begin <= e < end ==> s[e].0[n] == s[begin].0[n] {
      SubShare(s, begin, end, n, begin, end);
    } else {
      var e :| begin <= e < end && s[e].0[n] != s[begin].0[n];
      var x, y := s[e].0[n], s[begin].0[n];
      assert InUse(t, if x < y then x else y) && InUse(t, if x < y then y else x);
    }
  }

  // ------------------------------------------------------- from a map of byte keys

  /// asNibbles: both halves of each byte, high half first.
  method AsNibbles(data: bytes) returns (ret: Nibbles)
    ensures ret == Unpack(data)
  {
    ret := [];
    for i := 0 to |data|
      invariant ret == Unpack(data)[..2 * i]
    {
      UnpackAt(data, 2 * i);
      UnpackAt(data, 2 * i + 1);
      ret := ret + [data[i] / 16];
      ret := ret + [data[i] % 16];
    }
  }

  lemma {:induction false} LessTotal(a: Nibbles, b: Nibbles)
    ensures !(Less(a, b) && Less(b, a)) && !Less(a, a)
    ensures Less(a, b) || Less(b, a) || a == b
  {
    if a != [] && b != [] && a[0] == b[0] {
      LessTotal(a[1..], b[1..]);
      assert a == [a[0]] + a[1..] && b == [b[0]] + b[1..];
    } else if a != [] {
      LessTotal(a[1..], a[1..]);
    }
  }

  lemma {:induction false} LessTransitive(a: Nibbles, b: Nibbles, c: Nibbles)
    requires Less(a, b) && Less(b, c)
    ensures Less(a, c)
  {
    if a != [] && a[0] == b[0] && b[0] == c[0] {
      LessTransitive(a[1..], b[1..], c[1..]);
    }
  }

  /// operator[] of the sorted map, for a key it does not hold yet.
  method InsertSorted(s: seq<Entry>, e: Entry) returns (r: seq<Entry>)
    requires HexMap(s) && |e.0| < KEY_LIMIT && 0 < |e.1| < VALUE_LIMIT
    requires forall x <- s :: x.0 != e.0
    ensures HexMap(r)
    ensures forall x :: x in r <==> x in s || x == e
  {
    var p := 0;
    while p < |s| && Less(s[p].0, e.0)
      invariant p <= |s| && forall i :: 0 <= i < p ==> Less(s[i].0, e.0)
    {
      p := p + 1;
    }
    r := s[..p] + [e] + s[p..];
    forall i | p <= i < |s| ensures Less(e.0, s[i].0) {
      assert s[p] in s;
      LessTotal(s[p].0, e.0);
      if i > p {
        LessTransitive(e.0, s[p].0, s[i].0);
      }
    }
    assert forall x :: x in s <==> x in s[..p] || x in s[p..];
  }

  /// The sorted map holds the entries of m under their nibble paths, for the keys given.
  ghost predicate Holds(s: seq<Entry>, m: Contents, keys: set<bytes>)
    requires keys <= m.Keys
  {
    && (forall x <- s :: exists k :: k in keys && x == (Unpack(k), m[k]))
    && (forall k: bytes :: Held(s, m, keys, k))
  }

  predicate Held(s: seq<Entry>, m: Contents, keys: set<bytes>, k: bytes)
    requires keys <= m.Keys
  {
    k in keys ==> (Unpack(k), m[k]) in s
  }

  /// rlp256: the root node of the trie over a map, byte for byte the node that any canonical
  /// trie with the same bindings has, however it came about, and the one Appendix D defines.
  method Rlp256(m: Contents) returns (r: bytes)
    requires forall k <- m :: |k| < 0x7fff_ffff && 0 < |m[k]| < 0x4000_0000_0000_0000
    ensures exists t :: Canonical(t) && Binds(t, m)
    ensures forall t :: Canonical(t) && Binds(t, m) ==> r == Encode(NodeItem(t))
    ensures forall n: nat :: NoLonger(PathsOf(m), n) ==> r == Encode(RootNode(PathsOf(m), n))
  {
    ghost var u;
    if m == map[] {
      r := [DATA_START];
      u := Empty;
      assert r == Encode(NodeItem(u));
      assert Binds(u, m);
    } else {
      var hexMap := SortedPaths(m);
      var s := new RLPStream();
      assert AllShare(hexMap, 0, |hexMap|, 0);
      u := Hash256Rlp(hexMap, 0, |hexMap|, 0, s);
      MatchesBinds(u, hexMap, m);
      var out := s.Out();
      r := out.value;
    }
    forall t | Canonical(t) && Binds(t, m) ensures r == Encode(NodeItem(t)) {
      SameMapSameTrie(t, u, m);
    }
    forall n: nat | NoLonger(PathsOf(m), n) ensures r == Encode(RootNode(PathsOf(m), n)) {
      RootIsDefined(u, m, n);
    }
  }

  /// The loop that fills the HexMap; the keys may come in any order.
  method SortedPaths(m: Contents) returns (s: seq<Entry>)
    requires forall k <- m :: |k| < KEY_LIMIT / 2 && 0 < |m[k]| < VALUE_LIMIT
    ensures HexMap(s) && Holds(s, m, m.Keys)
  {
    s := [];
    var todo := m.Keys;
    while todo != {}
      invariant todo <= m.Keys && HexMap(s) && Holds(s, m, m.Keys - todo)
      decreases todo
    {
      var k :| k in todo;
      ghost var done := m.Keys - todo;
      assert m.Keys - (todo - {k}) == done + {k};
      hide HexMap, Holds;
      s := AddPath(s, m, done, k);
      todo := todo - {k};
    }
    assert m.Keys - todo == m.Keys;
  }

  method AddPath(s: seq<Entry>, m: Contents, ghost keys: set<bytes>, k: bytes) returns (r: seq<Entry>)
    requires keys <= m.Keys && k in m && k !in keys && HexMap(s) && Holds(s, m, keys)
    requires |k| < KEY_LIMIT / 2 && 0 < |m[k]| < VALUE_LIMIT
    ensures HexMap(r) && Holds(r, m, keys + {k})
  {
    hide Less, Unpack, Pack, HexMap, Holds;
    NewPath(s, m, keys, k);
    var path := AsNibbles(k);
    r := InsertSorted(s, (path, m[k]));
    HoldsMore(s, r, m, keys, k);
  }

  lemma NewPath(s: seq<Entry>, m: Contents, keys: set<bytes>, k: bytes)
    requires keys <= m.Keys && Holds(s, m, keys) && k !in keys
    ensures forall x <- s :: x.0 != Unpack(k)
  {
    forall x | x in s ensures x.0 != Unpack(k) {
      var k' :| k' in keys && x == (Unpack(k'), m[k']);
      PathOfKey(Unpack(k), k);
      PathOfKey(Unpack(k), k');
    }
  }

  lemma HoldsMore(s: seq<Entry>, r: seq<Entry>, m: Contents, keys: set<bytes>, k: bytes)
    requires keys <= m.Keys && Holds(s, m, keys) && k in m
    requires forall x :: x in r <==> x in s || x == (Unpack(k), m[k])
    ensures Holds(r, m, keys + {k})
  {
    forall k': bytes ensures Held(r, m, keys + {k}, k') {
      assert Held(s, m, keys, k');
    }
  }

  lemma MatchesBinds(t: Trie, s: seq<Entry>, m: Contents)
    requires AllShare(s, 0, |s|, 0) && Matches(t, s, 0, |s|, 0) && Holds(s, m, m.Keys)
    requires forall k <- m :: m[k] != []
    ensures Binds(t, m)
  {
    forall j ensures Get(t, j) == Bound(m, j) {
      if |j| % 2 == 0 && Pack(j) in m {
        var k := Pack(j);
        PathOfKey(j, k);
        assert Held(s, m, m.Keys, k);
        var i :| 0 <= i < |s| && s[i] == (Unpack(k), m[k]);
        assert s[i].0[0..] == j;
      }
      if Get(t, j) != [] {
        var i :| 0 <= i < |s| && s[i].0[0..] == j;
        assert s[i] in s;
        var k :| k in m.Keys && s[i] == (Unpack(k), m[k]);
        PathOfKey(j, k);
      }
    }
  }
}
