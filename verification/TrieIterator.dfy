/// The trie's iterator (libdevcore/TrieDB.h): an explicit stack of half-visited nodes that
/// yields every entry once, in the order of the keys, and can start at a lower bound.
module TrieIterator {
  import opened Bytes
  import opened HexPrefix
  import opened Options
  import opened Rlp
  import opened Sequences
  import TrieDB
  import opened TrieHash
  import opened TrieMap
  import opened TrieNode
  import opened TrieShape
  import opened TrieWalk

  /// isEarlierThan: a counter loop that decides the order of a key and a path that the key does
  /// not go through.
  method IsEarlierThan(key: Nibbles, path: Nibbles) returns (b: bool)
    ensures b == Less(key, path)
  {
    var i := 0;
    while i < |path| && i < |key|
      invariant i <= |path| && i <= |key| && key[..i] == path[..i]
      invariant Less(key, path) == Less(key[i..], path[i..])
    {
      assert key[i..][1..] == key[i + 1..] && path[i..][1..] == path[i + 1..];
      if key[i] < path[i] {
        return true;
      } else if key[i] > path[i] {
        return false;
      }
      assert key[..i + 1] == key[..i] + [key[i]] && path[..i + 1] == path[..i] + [path[i]];
      i := i + 1;
    }
    if i >= |path| {
      return false;
    }
    return true;
  }

  // ------------------------------------------------------------------ the iterator

  /// Where keyOf starts reading.
  function KeyOffset(hp: bytes): (o: nat)
    ensures o <= 2 * |hp| && KeyOf(hp) == Unpack(hp)[o..]
  {
    if hp == [] then 0 else if hp[0] / 16 % 2 == 1 then 1 else 2
  }

  datatype Frame = Frame(node: Item, key: bytes, child: nat)

  ghost predicate FrameShows(f: Frame, s: Stop, db: Store) {
    f.node == NodeItem(s.t) && f.key == HP(s.p, false) && f.child == s.child && Stored(s.t, db)
  }

  /// The loop of the iterator that moves over empty slots; it forgets the key when it does.
  method SeekChild(node: Item, ghost t: Trie, child: nat, k: Nibbles) returns (c: nat, rest: Nibbles)
    requires t.Branch? && |t.children| == 16 && node == NodeItem(t) && child <= EXITING
    ensures c == Seek(t, child) && rest == if c == child && c != EXITING then k else []
  {
    c, rest := child, k;
    while true
      invariant c <= EXITING && Seek(t, c) == Seek(t, child)
      invariant rest == if c == child then k else []
      invariant c != child ==> Seek(t, child) != child
      decreases if c == AT_VALUE then 17 else 16 - c
    {
      if c == EXITING {
        return c, [];
      }
      if c < 16 {
        RefEmpty(t.children[c]);
      }
      if !IsEmptyItem(node.items[c]) {
        return c, rest;
      }
      rest := [];
      c := NextChild(c);
    }
  }

  lemma UnpackOne(n: nibble)
    ensures Unpack([n])[1..] == [n]
  {
    assert [n][1..] == [];
  }

  /// The path to a child: the path so far and one nibble more.
  method ChildKey(key: bytes, ghost p: Nibbles, n: nibble) returns (hp: bytes)
    requires key == HP(p, false)
    ensures hp == HP(p + [n], false)
  {
    HPRoundTrip(p, false);
    UnpackOne(n);
    hp := HexPrefixTwo(key, KeyOffset(key), [n], 1, false);
  }

  /// The frames show the stack, node by node.
  ghost predicate Shown(trail: seq<Frame>, stops: seq<Stop>, db: Store) {
    && AllOk(stops) && |trail| == |stops|
    && forall i :: 0 <= i < |stops| ==> FrameShows(trail[i], stops[i], db)
  }

  lemma {:induction false} ShownSnoc(trail: seq<Frame>, stops: seq<Stop>, f: Frame, s: Stop, db: Store)
    requires Shown(trail, stops, db) && s.Ok() && FrameShows(f, s, db)
    ensures Shown(trail + [f], stops + [s], db)
  {
  }

  lemma {:induction false} ShownBelow(trail: seq<Frame>, stops: seq<Stop>, db: Store)
    requires Shown(trail, stops, db) && stops != []
    ensures Shown(trail[..|trail| - 1], stops[..|stops| - 1], db)
    ensures var s := stops[|stops| - 1]; s.Ok() && FrameShows(trail[|trail| - 1], s, db)
  {
    assert stops[|stops| - 1] in stops;
  }

  lemma {:induction false} ChildNode(t: Trie, c: nat, db: Store)
    requires t.Branch? && Wf(t) && c < 16 && InUse(t, c) && Stored(t, db) && CollisionFree(db)
    ensures Wf(t.children[c]) && Stored(t.children[c], db)
    ensures NodeItem(t).List? && |NodeItem(t).items| == 17
    ensures Deref(NodeItem(t).items[c], db) == Some(NodeItem(t.children[c]))
  {
    var u := t.children[c];
    assert NodeItem(t).items[c] == Ref(u);
    assert StoredNode(u, db);
    DerefRef(u, db);
  }

  /// The frame of child c of a branch.
  method ChildFrame(b: Frame, ghost t: Trie, ghost p: Nibbles, c: nat, db: Store) returns (f: Frame)
    requires t.Branch? && Wf(t) && |t.children| == 16 && c < 16 && InUse(t, c) && CollisionFree(db)
    requires FrameShows(b, Stop(t, p, c), db)
    ensures FrameShows(f, ChildStop(t, p, c), db) && ChildStop(t, p, c).Ok()
  {
    ChildNode(t, c, db);
    var n: nibble := c;
    var hp := ChildKey(b.key, p, n);
    f := Frame(Deref(b.node.items[c], db).value, hp, ENTERING);
  }

  /// On the branch on top, from slot c0 on.
  method SlotFrames(b0: Frame, base: seq<Frame>, ghost t: Trie, ghost p: Nibbles, ghost below: seq<Stop>, c0: nat,
                    k0: Nibbles, db: Store)
      returns (trail: seq<Frame>, k: Nibbles, found: bool)
    requires Shown(base, below, db) && CollisionFree(db)
    requires t.Branch? && Wf(t) && |t.children| == 16 && Stored(t, db) && c0 <= EXITING
    requires b0.node == NodeItem(t) && b0.key == HP(p, false)
    ensures var to := SlotPlace(t, p, below, c0, k0);
            Shown(trail, to.stops, db) && found == to.found && (to.found || k == to.k)
  {
    var c;
    c, k := SeekChild(b0.node, t, c0, k0);
    found := c == AT_VALUE;
    if c == EXITING {
      trail := base;
    } else {
      var b := b0.(child := c);
      ShownSnoc(base, below, b, Stop(t, p, c), db);
      trail := base + [b];
      if c != AT_VALUE {
        var f := ChildFrame(b, t, p, c, db);
        ShownSnoc(trail, below + [Stop(t, p, c)], f, ChildStop(t, p, c), db);
        trail := trail + [f];
      }
    }
  }

  /// The path through a leaf or an extension.
  method PairPath(b: Frame, ghost t: Trie, ghost p: Nibbles) returns (hp: bytes)
    requires (t.Leaf? || t.Ext?) && b.node == NodeItem(t) && b.key == HP(p, false)
    ensures hp == HP(p + t.key, false)
  {
    PairOfNode(t);
    HPRoundTrip(p, false);
    var pairKey := b.node.items[0].payload;
    hp := HexPrefixTwo(b.key, KeyOffset(b.key), pairKey, KeyOffset(pairKey), false);
  }

  /// Entering the leaf or extension on top.
  method PairFrames(b: Frame, base: seq<Frame>, ghost t: Trie, ghost p: Nibbles, ghost below: seq<Stop>, k0: Nibbles,
                    db: Store)
      returns (trail: seq<Frame>, k: Nibbles, found: bool)
    requires Shown(base, below, db) && CollisionFree(db)
    requires (t.Leaf? || t.Ext?) && Wf(t) && FrameShows(b, Stop(t, p, ENTERING), db)
    ensures var to := PairPlace(t, p, below, k0);
            Shown(trail, to.stops, db) && k == to.k && found == to.found
  {
    PairOfNode(t);
    k, found, trail := k0, false, base;
    var q := PairKey(b.node);
    if !Contains(k, q) {
      var earlier := IsEarlierThan(k, q);
      if !earlier {
        k := [];
        return;
      }
      k := [];
    }
    k := k[if |k| < |q| then |k| else |q|..];
    var hp := PairPath(b, t, p);
    if PairLeaf(b.node) {
      if k == [] {
        var f := Frame(b.node, hp, 0);
        ShownSnoc(base, below, f, Stop(t, p + q, 0), db);
        trail, found := base + [f], true;
      } else {
        k := [];
      }
    } else {
      DerefRef(t.child, db);
      var f := Frame(Deref(b.node.items[1], db).value, hp, ENTERING);
      ShownSnoc(base, below, f, Stop(t.child, p + q, ENTERING), db);
      trail := base + [f];
    }
  }

  /// One turn of the loop. Its last case, a node that is neither a pair nor a branch, cannot be
  /// reached from a trie's root.
  method TurnFrames(trail0: seq<Frame>, ghost stops: seq<Stop>, k0: Nibbles, db: Store)
      returns (trail: seq<Frame>, k: Nibbles, found: bool)
    requires Shown(trail0, stops, db) && stops != [] && CollisionFree(db)
    ensures var to := Turn(stops, k0);
            Shown(trail, to.stops, db) && found == to.found && (to.found || k == to.k)
  {
    ShownBelow(trail0, stops, db);
    var b, base := trail0[|trail0| - 1], trail0[..|trail0| - 1];
    ghost var s, below := stops[|stops| - 1], stops[..|stops| - 1];
    KindOf(s.t);
    if b.child == ENTERING && IsEmptyItem(b.node) {
      trail, k, found := base, [], false;
    } else if b.child == ENTERING && IsPair(b.node) {
      trail, k, found := PairFrames(b, base, s.t, s.p, below, k0, db);
    } else if b.child == ENTERING {
      if k0 != [] {
        trail, k, found := SlotFrames(b, base, s.t, s.p, below, k0[0], k0[1..], db);
      } else {
        trail, k, found := SlotFrames(b, base, s.t, s.p, below, AT_VALUE, [], db);
      }
    } else if !IsBranch(b.node) {
      trail, k, found := base, [], false;
    } else {
      trail, k, found := SlotFrames(b, base, s.t, s.p, below, NextChild(b.child), k0, db);
    }
  }

  lemma KindOf(t: Trie)
    requires Wf(t)
    ensures IsEmptyItem(NodeItem(t)) <==> t.Empty?
    ensures IsPair(NodeItem(t)) <==> t.Leaf? || t.Ext?
    ensures IsBranch(NodeItem(t)) <==> t.Branch?
    ensures t.Branch? ==> |t.children| == 16
  {
  }

  class Iterator {
    const db: Store
    var trail: seq<Frame>
    ghost var stops: seq<Stop>

    ghost predicate Valid()
      reads this
    {
      CollisionFree(db) && Shown(trail, stops, db) && (trail == [] || Standing(stops))
    }

    /// The entries from the current one on; none at the end.
    ghost function Pending(): seq<Entry>
      requires Valid()
      reads this
    {
      Owed(stops, trail != [])
    }

    /// next(_key): turns the loop until an entry is found or the stack is empty.
    method Search(ghost key: Nibbles, k0: Nibbles) returns (ghost pre: seq<Entry>)
      requires CollisionFree(db) && Shown(trail, stops, db) && Fits(stops, k0, key)
      modifies this
      ensures Valid()
      ensures AllOk(old(stops)) && Rest(old(stops)) == pre + Pending()
      ensures AllBelow(pre, key) && NoneBelow(Pending(), key)
      ensures k0 == [] ==> pre == []
    {
      var k, found := k0, false;
      pre := [];
      EmptyPlus(Rest(stops));
      while trail != []
        invariant CollisionFree(db) && Shown(trail, stops, db) && Fits(stops, k, key)
        invariant AllOk(old(stops)) && Rest(old(stops)) == pre + Rest(stops) && AllBelow(pre, key)
        invariant k0 == [] ==> k == [] && pre == []
        decreases Work(stops)
      {
        ghost var more := TurnPasses(stops, k, key);
        ghost var to := Turn(stops, k);
        trail, k, found := TurnFrames(trail, stops, k, db);
        stops := to.stops;
        PlusAssoc(pre, more, Owed(stops, to.found));
        pre := pre + more;
        if found {
          return;
        }
      }
    }

    /// begin(): the first entry.
    constructor Begin(db: Store, root: Hash, ghost t: Trie)
      requires Wf(t) && Stored(t, db) && NodeItem(t) in db && root == NodeHash(NodeItem(t)) && CollisionFree(db)
      ensures Valid() && Pending() == Entries(t, [])
    {
      RootStack(db, root, t);
      this.db := db;
      trail, stops := [Frame(Lookup(db, root).value, [0], ENTERING)], [Stop(t, [], ENTERING)];
      new;
      NothingBelow(Rest(stops));
      ghost var pre := Search([], []);
      EmptyPlus(Pending());
    }

    /// lower_bound(): the first entry whose key is not below the given one.
    constructor LowerBound(db: Store, root: Hash, fullKey: bytes, ghost t: Trie)
      requires Wf(t) && Stored(t, db) && NodeItem(t) in db && root == NodeHash(NodeItem(t)) && CollisionFree(db)
      ensures Valid() && Pending() == Above(Entries(t, []), Unpack(fullKey))
    {
      RootStack(db, root, t);
      this.db := db;
      trail, stops := [Frame(Lookup(db, root).value, [0], ENTERING)], [Stop(t, [], ENTERING)];
      new;
      RootFits(t, Unpack(fullKey));
      ghost var pre := Search(Unpack(fullKey), Unpack(fullKey));
      AboveIs(pre, Pending(), Unpack(fullKey));
    }

    /// next(): on to the entry after the current one.
    method Next()
      requires Valid() && trail != []
      modifies this
      ensures Valid() && Pending() == old(Pending())[1..]
    {
      ghost var rest := Rest(stops);
      NothingBelow(rest);
      ghost var pre := Search([], []);
      EmptyPlus(Pending());
    }

    /// at(): the current entry, for a path that spells a byte key.
    method At() returns (key: bytes, value: bytes)
      requires Valid() && trail != [] && |Pending()[0].0| % 2 == 0
      ensures (Unpack(key), value) == Pending()[0]
    {
      var b := trail[|trail| - 1];
      ghost var s := stops[|stops| - 1];
      assert FrameShows(b, s, db);
      assert s in stops && s.Ok();
      CroppedKey(s.p);
      KindOf(s.t);
      key := b.key[1..];
      value := b.node.items[if |b.node.items| == 2 then 1 else 16].payload;
    }
  }

  lemma RootStack(db: Store, root: Hash, t: Trie)
    requires Wf(t) && Stored(t, db) && NodeItem(t) in db && root == NodeHash(NodeItem(t)) && CollisionFree(db)
    ensures Lookup(db, root) == Some(NodeItem(t))
    ensures Shown([Frame(NodeItem(t), [0], ENTERING)], [Stop(t, [], ENTERING)], db)
    ensures AllOk([Stop(t, [], ENTERING)]) && Rest([Stop(t, [], ENTERING)]) == Entries(t, [])
  {
    RootPath();
    RestOne(Stop(t, [], ENTERING));
  }

  lemma RestOne(s: Stop)
    requires s.Ok()
    ensures AllOk([s]) && Rest([s]) == s.Rest()
  {
    assert [s][..0] == [];
  }

  /// One null byte is the hex-prefix form of the empty path.
  lemma RootPath()
    ensures HP([], false) == [0]
  {
    assert Flagged([], false) == [0, 0];
    assert [0, 0][2..] == [];
    assert Pack([0, 0]) == [TwoNibbles(0, 0)] + Pack([]) == [TwoNibbles(0, 0)];
  }

  lemma RootFits(t: Trie, k: Nibbles)
    requires Wf(t)
    ensures AllOk([Stop(t, [], ENTERING)]) && Fits([Stop(t, [], ENTERING)], k, k)
  {
    NothingBelow(Rest([Stop(t, [], ENTERING)]));
    assert [] + k == k;
  }

  lemma NothingBelow(es: seq<Entry>)
    ensures NoneBelow(es, [])
  {
  }

  /// The key of a frame without its first byte spells the path.
  lemma CroppedKey(p: Nibbles)
    requires |p| % 2 == 0
    ensures HP(p, false) != [] && Unpack(HP(p, false)[1..]) == p
  {
    assert Flagged(p, false)[2..] == p;
    UnpackPack(p);
  }

  // ------------------------------------------------------ the trie as a sorted map

  predicate KeyIn(es: seq<Entry>, m: Contents, k: bytes) {
    k in m ==> (Unpack(k), m[k]) in es
  }

  /// The entries are the pairs of the map, with the keys spelt in nibbles, in ascending order.
  ghost predicate Lists(es: seq<Entry>, m: Contents) {
    && Ascending(es)
    && (forall e <- es :: |e.0| % 2 == 0 && Pack(e.0) in m && m[Pack(e.0)] == e.1)
    && (forall k: bytes :: KeyIn(es, m, k))
  }

  /// The entries of a trie are the pairs of its map.
  lemma {:induction false} EntriesAreContents(t: Trie, m: Contents)
    requires Binds(t, m) && NoEmptyValues(m)
    ensures Lists(Entries(t, []), m)
  {
    var es := Entries(t, []);
    EntriesAscend(t, []);
    forall e | e in es ensures |e.0| % 2 == 0 && Pack(e.0) in m && m[Pack(e.0)] == e.1 {
      EntryInMap(t, m, e);
    }
    forall k: bytes ensures KeyIn(es, m, k) {
      if k in m {
        KeyListed(t, m, k);
      }
    }
  }

  lemma {:induction false} EntryInMap(t: Trie, m: Contents, e: Entry)
    requires Binds(t, m) && e in Entries(t, [])
    ensures |e.0| % 2 == 0 && Pack(e.0) in m && m[Pack(e.0)] == e.1
  {
    var i :| 0 <= i < |Entries(t, [])| && Entries(t, [])[i] == e;
    EntryBinds(t, [], i);
    assert e.0[0..] == e.0;
    assert Get(t, e.0) == Bound(m, e.0);
  }

  lemma {:induction false} KeyListed(t: Trie, m: Contents, k: bytes)
    requires Binds(t, m) && NoEmptyValues(m) && k in m
    ensures (Unpack(k), m[k]) in Entries(t, [])
  {
    PathOfKey(Unpack(k), k);
    assert Get(t, Unpack(k)) == Bound(m, Unpack(k));
    BindingListed(t, [], Unpack(k));
    assert [] + Unpack(k) == Unpack(k);
  }

  /// What lower_bound leaves out is exactly what lies below the key.
  lemma {:induction false} AboveKeeps(es: seq<Entry>, key: Nibbles, e: Entry)
    requires Ascending(es)
    ensures e in Above(es, key) <==> e in es && !Less(e.0, key)
  {
    if es != [] {
      if Less(es[0].0, key) {
        assert e in es <==> e == es[0] || e in es[1..];
        AboveKeeps(es[1..], key, e);
      } else if e in es && Less(e.0, key) {
        var i :| 0 <= i < |es| && es[i] == e;
        if i > 0 {
          TrieHash.LessTransitive(es[0].0, e.0, key);
        }
      }
    }
  }

  /// The order of byte keys.
  predicate KeyLess(a: bytes, b: bytes) {
    if b == [] then false
    else if a == [] then true
    else if a[0] != b[0] then a[0] < b[0]
    else KeyLess(a[1..], b[1..])
  }

  /// It is decided where the keys part: there the smaller one ends or has the smaller byte.
  lemma {:induction false} KeyLessMeans(a: bytes, b: bytes)
    ensures KeyLess(a, b) <==> exists i :: PartsBelow(a, b, i)
  {
    if a != [] && b != [] && a[0] == b[0] {
      KeyLessMeans(a[1..], b[1..]);
      if i :| PartsBelow(a[1..], b[1..], i) {
        PartsLater(a, b, i);
      }
      if i :| PartsBelow(a, b, i) {
        assert i > 0;
        PartsLater(a, b, i - 1);
      }
    } else {
      assert KeyLess(a, b) ==> PartsBelow(a, b, 0);
      if i :| PartsBelow(a, b, i) {
        assert i > 0 ==> a[..i][0] == b[..i][0];
      }
    }
  }

  predicate PartsBelow(a: bytes, b: bytes, i: int) {
    0 <= i <= |a| && i < |b| && a[..i] == b[..i] && (i == |a| || a[i] < b[i])
  }

  lemma PartsLater(a: bytes, b: bytes, i: nat)
    requires a != [] && b != [] && a[0] == b[0]
    ensures PartsBelow(a, b, i + 1) <==> PartsBelow(a[1..], b[1..], i)
  {
    if i < |a| && i < |b| {
      assert a[..i + 1] == [a[0]] + a[1..][..i] && b[..i + 1] == [b[0]] + b[1..][..i];
      assert a[..i + 1] == b[..i + 1] ==> a[..i + 1][1..] == b[..i + 1][1..];
      assert a[..i + 1][1..] == a[1..][..i] && b[..i + 1][1..] == b[1..][..i];
    }
  }

  lemma {:induction false} KeyOrder(a: bytes, b: bytes)
    ensures KeyLess(a, b) <==> Less(Unpack(a), Unpack(b))
  {
    if a != [] && b != [] {
      KeyOrder(a[1..], b[1..]);
      TwoSteps(a[0], b[0], Unpack(a[1..]), Unpack(b[1..]));
    }
  }

  /// Two nibbles of the same byte are compared like the byte.
  lemma TwoSteps(m: byte, n: byte, a: Nibbles, b: Nibbles)
    ensures Less([m / 16, m % 16] + a, [n / 16, n % 16] + b) <==> if m != n then m < n else Less(a, b)
  {
    var x, y := [m / 16, m % 16] + a, [n / 16, n % 16] + b;
    assert x[1..] == [m % 16] + a && y[1..] == [n % 16] + b;
    assert x[1..][1..] == a && y[1..][1..] == b;
  }

  /// The pairs, their keys spelt in nibbles, are the entries.
  ghost predicate Spelt(pairs: seq<(bytes, bytes)>, es: seq<Entry>) {
    |pairs| == |es| && forall i :: 0 <= i < |pairs| ==> Unpack(pairs[i].0) == es[i].0 && pairs[i].1 == es[i].1
  }

  lemma {:induction false} SpeltPair(pairs: seq<(bytes, bytes)>, es: seq<Entry>, m: Contents, i: nat)
    requires Spelt(pairs, es) && Lists(es, m) && i < |pairs|
    ensures pairs[i].0 in m && m[pairs[i].0] == pairs[i].1
  {
    assert es[i] in es;
    PackUnpack(pairs[i].0);
  }

  lemma {:induction false} SpeltKey(pairs: seq<(bytes, bytes)>, es: seq<Entry>, m: Contents, k: bytes)
    requires Spelt(pairs, es) && Lists(es, m) && k in m
    ensures (k, m[k]) in pairs
  {
    assert KeyIn(es, m, k);
    var i :| 0 <= i < |es| && es[i] == (Unpack(k), m[k]);
    PackUnpack(k);
    PackUnpack(pairs[i].0);
    assert pairs[i] == (k, m[k]);
  }

  /// A list of pairs that is the whole map, each pair once, in the order of the keys.
  ghost predicate SortedPairs(pairs: seq<(bytes, bytes)>, m: Contents) {
    && (forall i, j :: 0 <= i < j < |pairs| ==> KeyLess(pairs[i].0, pairs[j].0))
    && (forall p <- pairs :: p.0 in m && m[p.0] == p.1)
    && (forall k <- m :: (k, m[k]) in pairs)
  }

  lemma {:induction false} SpeltMap(pairs: seq<(bytes, bytes)>, es: seq<Entry>, m: Contents)
    requires Spelt(pairs, es) && Lists(es, m)
    ensures SortedPairs(pairs, m)
  {
    forall i, j | 0 <= i < j < |pairs| ensures KeyLess(pairs[i].0, pairs[j].0) {
      KeyOrder(pairs[i].0, pairs[j].0);
    }
    forall i | 0 <= i < |pairs| ensures pairs[i].0 in m && m[pairs[i].0] == pairs[i].1 {
      SpeltPair(pairs, es, m, i);
    }
    forall k | k in m ensures (k, m[k]) in pairs {
      SpeltKey(pairs, es, m, k);
    }
  }

  /// Iterating from begin() to end() gives the pairs of the map, each once, in key order.
  method ListAll(s: TrieDB.State, ghost t: Trie, ghost m: Contents) returns (pairs: seq<(bytes, bytes)>)
    requires TrieDB.Represents(s, t, m) && CollisionFree(s.db)
    ensures SortedPairs(pairs, m)
  {
    EntriesAreContents(t, m);
    var it := new Iterator.Begin(s.db, s.root, t);
    pairs := ListPending(it, m);
  }

  /// Iterating from lower_bound() to end() gives those whose keys are not below the given one.
  method ListFrom(s: TrieDB.State, fullKey: bytes, ghost t: Trie, ghost m: Contents)
      returns (pairs: seq<(bytes, bytes)>)
    requires TrieDB.Represents(s, t, m) && CollisionFree(s.db)
    ensures SortedPairs(pairs, map k | k in m && !KeyLess(k, fullKey) :: m[k])
  {
    EntriesAreContents(t, m);
    ListsAbove(Entries(t, []), m, fullKey);
    var it := new Iterator.LowerBound(s.db, s.root, fullKey, t);
    pairs := ListPending(it, map k | k in m && !KeyLess(k, fullKey) :: m[k]);
  }

  lemma ListsAbove(es: seq<Entry>, m: Contents, fullKey: bytes)
    requires Lists(es, m)
    ensures Lists(Above(es, Unpack(fullKey)), map k | k in m && !KeyLess(k, fullKey) :: m[k])
  {
    var key, above, left := Unpack(fullKey), Above(es, Unpack(fullKey)), map k | k in m && !KeyLess(k, fullKey) :: m[k];
    AboveAscends(es, key);
    forall e | e in above ensures |e.0| % 2 == 0 && Pack(e.0) in left && left[Pack(e.0)] == e.1 {
      AboveKeeps(es, key, e);
      UnpackPack(e.0);
      KeyOrder(Pack(e.0), fullKey);
    }
    forall k: bytes ensures KeyIn(above, left, k) {
      assert KeyIn(es, m, k);
      if k in left {
        AboveKeeps(es, key, (Unpack(k), m[k]));
        KeyOrder(k, fullKey);
      }
    }
  }

  lemma {:induction false} AboveAscends(es: seq<Entry>, key: Nibbles)
    requires Ascending(es)
    ensures Ascending(Above(es, key))
  {
    if es != [] && Less(es[0].0, key) {
      AboveAscends(es[1..], key);
    }
  }

  /// The loop up to end().
  method ListPending(it: Iterator, ghost m: Contents) returns (pairs: seq<(bytes, bytes)>)
    requires it.Valid() && Lists(it.Pending(), m)
    modifies it
    ensures SortedPairs(pairs, m)
  {
    ghost var es := it.Pending();
    pairs := [];
    assert es[0..] == es && Spelt(pairs, es[..0]);
    hide Lists, CollisionFree, Shown, Listing, Spelt, Owed;
    while it.trail != []
      invariant it.Valid() && Listing(pairs, es, it.Pending())
      decreases |es| - |pairs|
    {
      NextListed(pairs, es, it.Pending(), m);
      var key, value := it.At();
      MoreListed(pairs, es, it.Pending(), key, value);
      it.Next();
      pairs := pairs + [(key, value)];
    }
    NextListed(pairs, es, it.Pending(), m);
    SpeltMap(pairs, es, m);
  }

  /// While the pairs are listed: those so far, and what is still to come, are the entries.
  ghost predicate Listing(pairs: seq<(bytes, bytes)>, es: seq<Entry>, pending: seq<Entry>) {
    |pairs| <= |es| && pending == es[|pairs|..] && Spelt(pairs, es[..|pairs|])
  }

  lemma NextListed(pairs: seq<(bytes, bytes)>, es: seq<Entry>, pending: seq<Entry>, m: Contents)
    requires Listing(pairs, es, pending) && Lists(es, m)
    ensures pending != [] ==> |pending[0].0| % 2 == 0 && |pairs| < |es|
    ensures pending == [] ==> Spelt(pairs, es)
  {
    assert pending != [] ==> pending[0] in es;
    assert pending == [] ==> es[..|pairs|] == es;
  }

  lemma MoreListed(pairs: seq<(bytes, bytes)>, es: seq<Entry>, pending: seq<Entry>, key: bytes, value: bytes)
    requires Listing(pairs, es, pending) && pending != [] && (Unpack(key), value) == pending[0]
    ensures Listing(pairs + [(key, value)], es, pending[1..])
  {
    assert es[|pairs|..][1..] == es[|pairs| + 1..];
    assert es[..|pairs| + 1] == es[..|pairs|] + [es[|pairs|]];
  }
}
