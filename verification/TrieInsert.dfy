/// Insertion: mergeAt with place, cleve and branch (libdevcore/TrieDB.h) on stored nodes, and
/// on the trees they stand for.
module TrieInsert {
  import opened Bytes
  import opened HexPrefix
  import opened Options
  import opened Rlp
  import opened Sequences
  import opened TrieNode
  import opened TrieShape

  datatype Node = Node(item: Item, db: Store)

  // ------------------------------------------------------------ on stored nodes

  function Pair(key: Nibbles, leaf: bool, second: Item): (x: Item)
    ensures IsPair(x) && PairKey(x) == key && PairLeaf(x) == leaf && !IsEmptyItem(x)
  {
    HPRoundTrip(key, leaf);
    List([Data(HP(key, leaf)), second])
  }

  /// place: the value goes into this very node.
  function Place(orig: Item, k: Nibbles, v: bytes): Item
    requires IsEmptyItem(orig) || IsPair(orig) || IsBranch(orig)
  {
    if IsEmptyItem(orig) then Pair(k, true, Data(v))
    else if IsPair(orig) then List([orig.items[0], Data(v)])
    else List(orig.items[16 := Data(v)])
  }

  /// cleve: an extension by the first s nibbles above what remains of the pair.
  function CleveNode(orig: Item, s: nat, db: Store): Node
    requires IsPair(orig) && 0 < s <= |PairKey(orig)|
  {
    var bottom := Pair(PairKey(orig)[s..], PairLeaf(orig), orig.items[1]);
    Node(Pair(PairKey(orig)[..s], false, Pointer(bottom)), db + Written(bottom))
  }

  function NoItems(): (xs: seq<Item>)
    ensures |xs| == 16 && forall i :: 0 <= i < 16 ==> xs[i] == Data([])
  {
    seq(16, _ => Data([]))
  }

  /// branch: a pair that shares nothing with the path becomes a branch with one use.
  function BranchNode(orig: Item, db: Store): (n: Outcome<Node>)
    requires IsPair(orig)
    ensures n.Done? ==> IsBranch(n.value.item)
  {
    var k, leaf := PairKey(orig), PairLeaf(orig);
    if k == [] then
      if leaf then Done(Node(List(NoItems() + [orig.items[1]]), db)) else Corrupt
    else if leaf || |k| > 1 then
      var rest := Pair(k[1..], leaf, orig.items[1]);
      Done(Node(List(NoItems()[k[0] := Pointer(rest)] + [Data([])]), db + Written(rest)))
    else Done(Node(List(NoItems()[k[0] := orig.items[1]] + [Data([])]), db))
  }

  function Rank(orig: Item, k: Nibbles): nat {
    if IsPair(orig) && (PairLeaf(orig) || !Contains(k, PairKey(orig))) then 1 else 0
  }

  /// mergeAt: the new node, and the store with everything written below it.
  function MergeAt(orig: Item, k: Nibbles, v: bytes, db: Store): Outcome<Node>
    decreases |k|, Rank(orig, k), 0
  {
    if IsEmptyItem(orig) then Done(Node(Place(orig, k, v), db))
    else if IsPair(orig) then
      var key := PairKey(orig);
      if key == k && PairLeaf(orig) then Done(Node(Place(orig, k, v), db))
      else if Contains(k, key) && !PairLeaf(orig) then
        if key == [] then Corrupt
        else match MergeAtAux(orig.items[1], k[|key|..], v, db) {
          case Corrupt => Corrupt
          case Done(n) => Done(Node(List([orig.items[0], n.item]), n.db))
        }
      else
        var sh := Shared(k, key);
        if sh > 0 then
          var cleved := CleveNode(orig, sh, db);
          MergeAt(cleved.item, k, v, cleved.db)
        else match BranchNode(orig, db) {
          case Corrupt => Corrupt
          case Done(branched) => MergeAt(branched.item, k, v, branched.db)
        }
    else if IsBranch(orig) then
      if k == [] then Done(Node(Place(orig, k, v), db))
      else match MergeAtAux(orig.items[k[0]], k[1..], v, db) {
        case Corrupt => Corrupt
        case Done(n) => Done(Node(List(orig.items[k[0] := n.item]), n.db))
      }
    else Corrupt
  }

  /// mergeAtAux: follows a hash if need be, merges, and leaves a pointer to the result.
  function MergeAtAux(orig: Item, k: Nibbles, v: bytes, db: Store): Outcome<Node>
    decreases |k|, 2, 1
  {
    match (if IsEmptyItem(orig) then Some(orig) else Deref(orig, db)) {
      case None => Corrupt
      case Some(r) =>
        match MergeAt(r, k, v, db) {
          case Corrupt => Corrupt
          case Done(b) => Done(Node(Pointer(b.item), b.db + Written(b.item)))
        }
    }
  }

  // ---------------------------------------------------------------- on the trees

  /// A leaf may lose its whole path to an extension above it, an extension may not.
  predicate Cuttable(t: Trie, s: nat) {
    (t.Leaf? && s <= |t.key|) || (t.Ext? && s < |t.key|)
  }

  /// Neither this very leaf nor a node on the way to the path.
  predicate Parting(t: Trie, k: Nibbles) {
    (t.Leaf? && t.key != k) || (t.Ext? && !Contains(k, t.key))
  }

  function Cleve(t: Trie, s: nat): (u: Trie)
    requires Wf(t) && s > 0 && Cuttable(t, s)
    ensures Wf(u) && u == Ext(t.key[..s], Bottom(t, s))
  {
    Ext(t.key[..s], Bottom(t, s))
  }

  function Bottom(t: Trie, s: nat): (u: Trie)
    requires Wf(t) && Cuttable(t, s)
    ensures Wf(u)
  {
    if t.Leaf? then Leaf(t.key[s..], t.value) else Ext(t.key[s..], t.child)
  }

  function NoChildren(): (ts: seq<Trie>)
    ensures |ts| == 16 && forall i :: 0 <= i < 16 ==> ts[i] == Empty
  {
    seq(16, _ => Empty)
  }

  function BranchOf(t: Trie): (u: Trie)
    requires Wf(t) && (t.Leaf? || t.Ext?)
    ensures u.Branch? && Wf(u)
  {
    if t.Leaf? then
      if t.key == [] then Branch(NoChildren(), t.value)
      else Branch(NoChildren()[t.key[0] := Leaf(t.key[1..], t.value)], [])
    else if |t.key| > 1 then Branch(NoChildren()[t.key[0] := Ext(t.key[1..], t.child)], [])
    else Branch(NoChildren()[t.key[0] := t.child], [])
  }

  function TreeRank(t: Trie, k: Nibbles): nat {
    if t.Leaf? || (t.Ext? && !Contains(k, t.key)) then 1 else 0
  }

  /// What mergeAt does to the tree.
  function Ins(t: Trie, k: Nibbles, v: bytes): (u: Trie)
    requires Wf(t) && v != []
    ensures Wf(u) && u != Empty
    decreases |k|, TreeRank(t, k)
  {
    match t
    case Empty => Leaf(k, v)
    case Leaf(key, _) =>
      if key == k then Leaf(key, v) else InsPair(t, k, v)
    case Ext(key, child) =>
      if Contains(k, key) then Ext(key, Ins(child, k[|key|..], v)) else InsPair(t, k, v)
    case Branch(children, value) =>
      if k == [] then Branch(children, v)
      else Branch(children[k[0] := Ins(children[k[0]], k[1..], v)], value)
  }

  function InsPair(t: Trie, k: Nibbles, v: bytes): (u: Trie)
    requires Wf(t) && v != [] && Parting(t, k)
    ensures Wf(u) && u != Empty
    decreases |k|, 1, 0
  {
    var sh := Shared(k, t.key);
    if sh > 0 then
      Ins(Cleve(t, sh), k, v)
    else Ins(BranchOf(t), k, v)
  }

  /// What mergeAt writes to the store, in order.
  function InsWrites(t: Trie, k: Nibbles, v: bytes): Store
    requires Wf(t) && v != []
    decreases |k|, TreeRank(t, k)
  {
    match t
    case Empty => []
    case Leaf(key, _) =>
      if key == k then [] else InsPairWrites(t, k, v)
    case Ext(key, child) =>
      if Contains(k, key) then
        InsWrites(child, k[|key|..], v) + Written(NodeItem(Ins(child, k[|key|..], v)))
      else InsPairWrites(t, k, v)
    case Branch(children, value) =>
      if k == [] then []
      else InsWrites(children[k[0]], k[1..], v) + Written(NodeItem(Ins(children[k[0]], k[1..], v)))
  }

  function InsPairWrites(t: Trie, k: Nibbles, v: bytes): Store
    requires Wf(t) && v != [] && Parting(t, k)
    decreases |k|, 1, 0
  {
    var sh := Shared(k, t.key);
    if sh > 0 then
      Written(NodeItem(Bottom(t, sh))) + InsWrites(Cleve(t, sh), k, v)
    else BranchWrites(t) + InsWrites(BranchOf(t), k, v)
  }

  function BranchWrites(t: Trie): Store
    requires Wf(t) && (t.Leaf? || t.Ext?)
  {
    if t.key != [] && (t.Leaf? || |t.key| > 1) then Written(NodeItem(Bottom(t, 1))) else []
  }

  // ------------------------------------------------- the nodes follow the trees

  lemma CleveFollows(t: Trie, s: nat, db: Store)
    requires Wf(t) && s > 0 && Cuttable(t, s)
    ensures IsPair(NodeItem(t)) && s <= |PairKey(NodeItem(t))|
    ensures CleveNode(NodeItem(t), s, db) == Node(NodeItem(Cleve(t, s)), db + Written(NodeItem(Bottom(t, s))))
  {
    PairOfNode(t);
  }

  lemma BranchFollows(t: Trie, db: Store)
    requires Wf(t) && (t.Leaf? || t.Ext?)
    ensures IsPair(NodeItem(t))
    ensures BranchNode(NodeItem(t), db) == Done(Node(NodeItem(BranchOf(t)), db + BranchWrites(t)))
  {
    PairOfNode(t);
    if t.key == [] {
      BranchRow(0, Empty, t.value);
      assert NoChildren()[0 := Empty] == NoChildren() && NoItems()[0 := Ref(Empty)] == NoItems();
    } else {
      BranchRow(t.key[0], if t.Ext? && |t.key| == 1 then t.child else Bottom(t, 1), []);
    }
    assert db + [] == db;
  }

  lemma BranchRow(i: nibble, c: Trie, value: bytes)
    ensures Ref(Empty) == Data([])
    ensures NodeItem(Branch(NoChildren()[i := c], value)) == List(NoItems()[i := Ref(c)] + [Data(value)])
  {
    RefEmpty(Empty);
    var children := NoChildren()[i := c];
    assert seq(|children|, j requires 0 <= j < |children| => Ref(children[j])) == NoItems()[i := Ref(c)];
  }

  lemma PlaceFollows(t: Trie, k: Nibbles, v: bytes)
    requires Wf(t) && v != []
    requires t.Empty? || (t.Leaf? && t.key == k) || (t.Branch? && k == [])
    ensures var x := NodeItem(t); IsEmptyItem(x) || IsPair(x) || IsBranch(x)
    ensures Place(NodeItem(t), k, v) == NodeItem(Ins(t, k, v))
  {
    if t.Leaf? {
      PairOfNode(t);
    } else if t.Branch? {
      assert Place(NodeItem(t), k, v).items == NodeItem(Branch(t.children, v)).items;
    }
  }

  lemma BranchItems(children: seq<Trie>, value: bytes, i: nat, c: Trie)
    requires |children| == 16 && i < 16
    ensures NodeItem(Branch(children, value)).items[i] == Ref(children[i])
    ensures NodeItem(Branch(children, value)).items[i := Ref(c)] == NodeItem(Branch(children[i := c], value)).items
  {
  }

  /// mergeAt on the stored node of a tree gives the stored node of the inserted-into tree.
  lemma {:induction false} MergeAtFollows(t: Trie, k: Nibbles, v: bytes, db: Store)
    requires Wf(t) && v != []
    requires Stored(t, db) && CollisionFree(db + InsWrites(t, k, v))
    ensures MergeAt(NodeItem(t), k, v, db) == Done(Node(NodeItem(Ins(t, k, v)), db + InsWrites(t, k, v)))
    ensures Stored(Ins(t, k, v), db + InsWrites(t, k, v))
    decreases |k|, TreeRank(t, k)
  {
    assert db + [] == db;
    match t
    case Empty => PlaceFollows(t, k, v);
    case Leaf(key, _) =>
      PairOfNode(t);
      if key == k {
        PlaceFollows(t, k, v);
      } else {
        MergePairFollows(t, k, v, db);
      }
    case Ext(key, child) =>
      PairOfNode(t);
      if Contains(k, key) {
        MergeAuxFollows(child, k[|key|..], v, db, InsWrites(t, k, v));
      } else {
        MergePairFollows(t, k, v, db);
      }
    case Branch(children, value) =>
      if k == [] {
        PlaceFollows(t, k, v);
      } else {
        var c := children[k[0]];
        assert StoredNode(c, db) && Stored(c, db);
        BranchItems(children, value, k[0], Ins(c, k[1..], v));
        MergeAuxFollows(c, k[1..], v, db, InsWrites(t, k, v));
        forall i | 0 <= i < 16 && i != k[0]
          ensures StoredNode(children[i], db + InsWrites(t, k, v)) && Stored(children[i], db + InsWrites(t, k, v))
        {
          StoredMore(children[i], db, InsWrites(t, k, v));
        }
      }
  }

  lemma {:induction false} MergeAuxFollows(c: Trie, k: Nibbles, v: bytes, db: Store, writes: Store)
    requires Wf(c) && v != []
    requires writes == InsWrites(c, k, v) + Written(NodeItem(Ins(c, k, v)))
    requires StoredNode(c, db) && Stored(c, db) && CollisionFree(db + writes)
    ensures MergeAtAux(Ref(c), k, v, db) == Done(Node(Ref(Ins(c, k, v)), db + writes))
    ensures StoredNode(Ins(c, k, v), db + writes) && Stored(Ins(c, k, v), db + writes)
    decreases |k|, 2
  {
    var w, last := InsWrites(c, k, v), Written(NodeItem(Ins(c, k, v)));
    assert db + writes == db + w + last;
    CollisionFreeSub(db + w, last);
    CollisionFreeSub(db, w);
    RefEmpty(c);
    if c != Empty {
      DerefRef(c, db);
    }
    MergeAtFollows(c, k, v, db);
    StoredMore(Ins(c, k, v), db + w, last);
  }

  lemma {:induction false} MergePairFollows(t: Trie, k: Nibbles, v: bytes, db: Store)
    requires Wf(t) && v != [] && Parting(t, k)
    requires Stored(t, db) && CollisionFree(db + InsPairWrites(t, k, v))
    ensures IsPair(NodeItem(t)) && TreeRank(t, k) == 1
    ensures MergeAt(NodeItem(t), k, v, db) == Done(Node(NodeItem(InsPair(t, k, v)), db + InsPairWrites(t, k, v)))
    ensures Stored(InsPair(t, k, v), db + InsPairWrites(t, k, v))
    decreases |k|, 1, 1
  {
    if Shared(k, t.key) > 0 {
      MergeCleveFollows(t, k, v, db);
    } else {
      MergeBranchFollows(t, k, v, db);
    }
  }

  lemma {:induction false} MergeCleveFollows(t: Trie, k: Nibbles, v: bytes, db: Store)
    requires Wf(t) && v != [] && Parting(t, k) && Shared(k, t.key) > 0
    requires Stored(t, db) && CollisionFree(db + InsPairWrites(t, k, v))
    ensures IsPair(NodeItem(t)) && TreeRank(t, k) == 1
    ensures MergeAt(NodeItem(t), k, v, db) == Done(Node(NodeItem(InsPair(t, k, v)), db + InsPairWrites(t, k, v)))
    ensures Stored(InsPair(t, k, v), db + InsPairWrites(t, k, v))
    decreases |k|, 1, 0
  {
    var sh := Shared(k, t.key);
    var u, w := Cleve(t, sh), Written(NodeItem(Bottom(t, sh)));
    CleveStep(t, k, v, db);
    CleveStored(t, sh, db);
    hide *;
    PlusAssoc(db, w, InsWrites(u, k, v));
    MergeAtFollows(u, k, v, db + w);
  }

  lemma CleveStep(t: Trie, k: Nibbles, v: bytes, db: Store)
    requires Wf(t) && v != [] && Parting(t, k) && Shared(k, t.key) > 0
    ensures var u, w := Cleve(t, Shared(k, t.key)), Written(NodeItem(Bottom(t, Shared(k, t.key))));
            && TreeRank(t, k) == 1 && TreeRank(u, k) == 0 && IsPair(NodeItem(t))
            && InsPair(t, k, v) == Ins(u, k, v)
            && InsPairWrites(t, k, v) == w + InsWrites(u, k, v)
            && MergeAt(NodeItem(t), k, v, db) == MergeAt(NodeItem(u), k, v, db + w)
  {
    PairOfNode(t);
    MergeAtParts(NodeItem(t), k, v, db);
    CleveFollows(t, Shared(k, t.key), db);
    hide MergeAt, NodeItem, Written, Ins, InsWrites;
  }

  lemma CleveStored(t: Trie, s: nat, db: Store)
    requires Wf(t) && s > 0 && Cuttable(t, s) && Stored(t, db)
    ensures Stored(Cleve(t, s), db + Written(NodeItem(Bottom(t, s))))
  {
    StoredMore(t, db, Written(NodeItem(Bottom(t, s))));
  }

  lemma {:induction false} MergeBranchFollows(t: Trie, k: Nibbles, v: bytes, db: Store)
    requires Wf(t) && v != [] && Parting(t, k) && Shared(k, t.key) == 0
    requires Stored(t, db) && CollisionFree(db + InsPairWrites(t, k, v))
    ensures IsPair(NodeItem(t)) && TreeRank(t, k) == 1
    ensures MergeAt(NodeItem(t), k, v, db) == Done(Node(NodeItem(InsPair(t, k, v)), db + InsPairWrites(t, k, v)))
    ensures Stored(InsPair(t, k, v), db + InsPairWrites(t, k, v))
    decreases |k|, 1, 0
  {
    var u, w := BranchOf(t), BranchWrites(t);
    BranchStep(t, k, v, db);
    BranchStored(t, db);
    hide *;
    PlusAssoc(db, w, InsWrites(u, k, v));
    MergeAtFollows(u, k, v, db + w);
  }

  lemma BranchStep(t: Trie, k: Nibbles, v: bytes, db: Store)
    requires Wf(t) && v != [] && Parting(t, k) && Shared(k, t.key) == 0
    ensures var u, w := BranchOf(t), BranchWrites(t);
            && TreeRank(t, k) == 1 && TreeRank(u, k) == 0 && IsPair(NodeItem(t))
            && InsPair(t, k, v) == Ins(u, k, v)
            && InsPairWrites(t, k, v) == w + InsWrites(u, k, v)
            && MergeAt(NodeItem(t), k, v, db) == MergeAt(NodeItem(u), k, v, db + w)
  {
    hide MergeAt, NodeItem, BranchWrites, Ins, InsWrites;
    PairOfNode(t);
    MergeAtParts(NodeItem(t), k, v, db);
    BranchFollows(t, db);
  }

  /// A pair that is neither the node for the path nor on the way to it is cut or branched first.
  lemma MergeAtParts(orig: Item, k: Nibbles, v: bytes, db: Store)
    requires IsPair(orig) && (if PairLeaf(orig) then PairKey(orig) != k else !Contains(k, PairKey(orig)))
    ensures var sh := Shared(k, PairKey(orig));
            if sh > 0 then
              MergeAt(orig, k, v, db) == MergeAt(CleveNode(orig, sh, db).item, k, v, CleveNode(orig, sh, db).db)
            else if BranchNode(orig, db).Done? then
              MergeAt(orig, k, v, db) == MergeAt(BranchNode(orig, db).value.item, k, v, BranchNode(orig, db).value.db)
            else true
  {
  }

  lemma BranchStored(t: Trie, db: Store)
    requires Wf(t) && (t.Leaf? || t.Ext?) && Stored(t, db)
    ensures Stored(BranchOf(t), db + BranchWrites(t))
  {
    StoredMore(t, db, BranchWrites(t));
    RefEmpty(Empty);
    var u, d := BranchOf(t), db + BranchWrites(t);
    forall i | 0 <= i < 16 ensures StoredNode(u.children[i], d) && Stored(u.children[i], d) {
      assert StoredNode(Empty, d) by { assert |Encode(Data([]))| == 1; }
      if t.key != [] && i == t.key[0] {
        assert u.children[i] == if t.Ext? && |t.key| == 1 then t.child else Bottom(t, 1);
      }
    }
  }

  // ------------------------------------------------------ what insertion keeps

  /// After an insertion the path is bound to the value and every other path as before.
  lemma {:induction false} InsGet(t: Trie, k: Nibbles, v: bytes, j: Nibbles)
    requires Wf(t) && v != []
    ensures Get(Ins(t, k, v), j) == if j == k then v else Get(t, j)
    decreases |k|, TreeRank(t, k)
  {
    match t
    case Empty =>
    case Leaf(key, _) =>
      if key != k {
        InsPairGet(t, k, v, j);
      }
    case Ext(key, child) =>
      if key <= k {
        assert k == key + k[|key|..];
        if key <= j {
          assert j == key + j[|key|..];
          InsGet(child, k[|key|..], v, j[|key|..]);
        }
      } else {
        InsPairGet(t, k, v, j);
      }
    case Branch(children, value) =>
      if k != [] && j != [] && j[0] == k[0] {
        assert k == [k[0]] + k[1..] && j == [j[0]] + j[1..];
        InsGet(children[k[0]], k[1..], v, j[1..]);
      }
  }

  lemma {:induction false} InsPairGet(t: Trie, k: Nibbles, v: bytes, j: Nibbles)
    requires Wf(t) && v != [] && Parting(t, k)
    ensures Get(InsPair(t, k, v), j) == if j == k then v else Get(t, j)
    decreases |k|, 1, 0
  {
    var sh := Shared(k, t.key);
    if sh > 0 {
      CleveGet(t, sh, j);
      InsGet(Cleve(t, sh), k, v, j);
    } else {
      BranchGet(t, j);
      InsGet(BranchOf(t), k, v, j);
    }
  }

  lemma CleveGet(t: Trie, s: nat, j: Nibbles)
    requires Wf(t) && s > 0 && Cuttable(t, s)
    ensures Get(Cleve(t, s), j) == Get(t, j)
  {
    var a, b := t.key[..s], t.key[s..];
    assert t.key == a + b;
    if a <= j {
      assert j == a + j[s..];
      if t.Ext? && b <= j[s..] {
        assert j[s..][|b|..] == j[|t.key|..];
      }
    }
  }

  lemma BranchGet(t: Trie, j: Nibbles)
    requires Wf(t) && (t.Leaf? || t.Ext?)
    ensures Get(BranchOf(t), j) == Get(t, j)
  {
    if t.key != [] {
      assert t.key == [t.key[0]] + t.key[1..];
      if j != [] && j[0] == t.key[0] {
        assert j == [j[0]] + j[1..];
        if t.Ext? && t.key[1..] <= j[1..] {
          assert j[1..][|t.key| - 1..] == j[|t.key|..];
        }
      }
    }
  }

  /// Insertion keeps a trie canonical, and a branch stays a branch.
  lemma {:induction false} InsCanonical(t: Trie, k: Nibbles, v: bytes)
    requires Canonical(t) && Wf(t) && v != []
    ensures Canonical(Ins(t, k, v))
    ensures t.Branch? ==> Ins(t, k, v).Branch?
    decreases |k|, TreeRank(t, k)
  {
    match t
    case Empty =>
    case Leaf(key, _) =>
      if key != k {
        InsPairCanonical(t, k, v);
      }
    case Ext(key, child) =>
      CanonicalWf(child);
      if Contains(k, key) {
        InsCanonical(child, k[|key|..], v);
      } else {
        InsPairCanonical(t, k, v);
      }
    case Branch(children, value) =>
      var i, j :| 0 <= i < j < 17 && InUse(t, i) && InUse(t, j);
      var u := Ins(t, k, v);
      if k != [] {
        InsCanonical(children[k[0]], k[1..], v);
      }
      assert InUse(u, i) && InUse(u, j);
  }

  /// Where the paths part there will be a branch with two uses, under an extension if the
  /// paths have something in common.
  lemma {:induction false} InsPairCanonical(t: Trie, k: Nibbles, v: bytes)
    requires Canonical(t) && Wf(t) && v != [] && Parting(t, k)
    ensures Canonical(InsPair(t, k, v)) && !InsPair(t, k, v).Empty?
  {
    var sh := Shared(k, t.key);
    if sh > 0 {
      var a, bottom := t.key[..sh], Bottom(t, sh);
      assert k == a + k[sh..] && t.key == a + t.key[sh..];
      assert Shared(k[sh..], t.key[sh..]) == 0 by {
        SharedUnique(k[sh..], t.key[sh..], 0);
      }
      assert t.Ext? ==> !Contains(k[sh..], t.key[sh..]);
      assert Ins(Cleve(t, sh), k, v) == Ext(a, Ins(bottom, k[sh..], v));
      assert Ins(bottom, k[sh..], v) == InsPair(bottom, k[sh..], v);
      PartCanonical(bottom, k[sh..], v);
    } else {
      PartCanonical(t, k, v);
    }
  }

  lemma {:induction false} PartCanonical(t: Trie, k: Nibbles, v: bytes)
    requires Canonical(t) && Wf(t) && v != [] && ((t.Leaf? && t.key != k) || t.Ext?)
    requires Shared(k, t.key) == 0
    ensures var u := Ins(BranchOf(t), k, v); u.Branch? && Canonical(u)
  {
    var b := BranchOf(t);
    var u := Ins(b, k, v);
    var i: nat := if k == [] then 16 else k[0];
    var j: nat := if t.key == [] then 16 else t.key[0];
    assert i != j;
    assert InUse(u, i) by {
      if k != [] {
        assert b.children[k[0]] == Empty;
      }
    }
    assert InUse(u, j);
    assert TwoUses(u) by {
      assert InUse(u, if i < j then i else j) && InUse(u, if i < j then j else i);
    }
    forall n | 0 <= n < 16 ensures Canonical(u.children[n]) {
      BranchOfCanonical(t, n);
      if k != [] && n == k[0] {
        assert u == Branch(b.children[n := Ins(b.children[n], k[1..], v)], b.value);
        assert b.children[n] == Empty && Ins(Empty, k[1..], v) == Leaf(k[1..], v);
      } else {
        assert u.children[n] == b.children[n];
      }
    }
  }

  lemma BranchOfCanonical(t: Trie, n: nat)
    requires Canonical(t) && Wf(t) && (t.Leaf? || t.Ext?) && n < 16
    ensures Canonical(BranchOf(t).children[n])
    ensures BranchOf(t).children[n] != Empty <==> t.key != [] && t.key[0] == n
  {
    if t.Ext? && |t.key| > 1 && t.key[0] == n {
      assert BranchOf(t).children[n] == Ext(t.key[1..], t.child);
    }
  }
}
