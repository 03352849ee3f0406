/// The trie's nodes as RLP items in a content-addressed store (libdevcore/TrieDB.h and
/// libdevcore/MemoryDB.cpp): a node below 32 bytes stands inside its parent, a larger one is
/// stored under its hash and its parent holds that hash.
module TrieNode {
  import opened Bytes
  import opened HexPrefix
  import opened Options
  import opened Rlp
  import opened TrieShape

  type Hash = h: bytes | |h| == 32 witness seq(32, _ => 0)

  /// sha3, of which nothing is known but that it has 32 bytes.
  const Sha3: bytes -> Hash

  /// Everything that was ever inserted into the store, oldest first.
  type Store = seq<Item>

  /// What node(h) finds: the last item inserted under the hash.
  function Lookup(db: Store, h: bytes): (r: Option<Item>)
    ensures r.Some? ==> r.value in db && NodeHash(r.value) == h
    ensures r.None? ==> forall x <- db :: NodeHash(x) != h
  {
    if db == [] then None
    else if NodeHash(db[|db| - 1]) == h then Some(db[|db| - 1])
    else Lookup(db[..|db| - 1], h)
  }

  function NodeHash(x: Item): Hash {
    Sha3(Encode(x))
  }

  /// The assumption about sha3: no two different nodes in the store share a hash.
  ghost predicate CollisionFree(db: Store) {
    forall x <- db, y <- db :: NodeHash(x) == NodeHash(y) ==> x == y
  }

  /// It is the usual one: sha3 is injective on the byte strings that were stored.
  lemma CollisionFreeBytes(db: Store)
    requires forall x <- db :: |Encode(x)| < LENGTH_LIMIT
    requires forall x <- db, y <- db :: Sha3(Encode(x)) == Sha3(Encode(y)) ==> Encode(x) == Encode(y)
    ensures CollisionFree(db)
  {
    forall x, y | x in db && y in db && NodeHash(x) == NodeHash(y) ensures x == y {
      EncodeInjective(x, y);
    }
  }

  lemma CollisionFreeSub(db: Store, more: Store)
    requires CollisionFree(db + more)
    ensures CollisionFree(db)
  {
    forall x, y | x in db && y in db && NodeHash(x) == NodeHash(y) ensures x == y {
      assert x in db + more && y in db + more;
    }
  }

  /// streamNode: what a parent keeps of a child node.
  function Pointer(x: Item): Item {
    if |Encode(x)| < 32 then x else Data(NodeHash(x))
  }

  /// streamNode: what it puts into the store on the way.
  function Written(x: Item): Store {
    if |Encode(x)| < 32 then [] else [x]
  }

  function NodeItem(t: Trie): Item
    decreases t, 0
  {
    match t
    case Empty => Data([])
    case Leaf(key, value) => List([Data(HP(key, true)), Data(value)])
    case Ext(key, child) => List([Data(HP(key, false)), Ref(child)])
    case Branch(children, value) =>
      List(seq(|children|, i requires 0 <= i < |children| => Ref(children[i])) + [Data(value)])
  }

  function Ref(t: Trie): Item
    decreases t, 1
  {
    Pointer(NodeItem(t))
  }

  /// A child stands in its parent if and only if it takes less than 32 bytes, and is else there by its
  /// hash; what a parent keeps is below 32 bytes or exactly 33.
  lemma RefBySize(t: Trie)
    ensures Ref(t) == NodeItem(t) <==> |Encode(NodeItem(t))| < 32
    ensures |Encode(NodeItem(t))| >= 32 ==> Ref(t) == Data(Sha3(Encode(NodeItem(t))))
    ensures |Encode(Ref(t))| < 32 || |Encode(Ref(t))| == 33
  {
    if |Encode(NodeItem(t))| >= 32 {
      assert |Encode(Data(Sha3(Encode(NodeItem(t)))))| == 33;
      assert t == Empty ==> Encode(NodeItem(t)) == [0x80];
    }
  }

  /// Every node a trie refers to by hash is in the store.
  ghost predicate Stored(t: Trie, db: Store) {
    match t
    case Empty => true
    case Leaf(_, _) => true
    case Ext(_, child) => StoredNode(child, db) && Stored(child, db)
    case Branch(children, _) =>
      forall i :: 0 <= i < |children| ==> StoredNode(children[i], db) && Stored(children[i], db)
  }

  ghost predicate StoredNode(t: Trie, db: Store) {
    |Encode(NodeItem(t))| >= 32 ==> NodeItem(t) in db
  }

  lemma {:induction false} StoredMore(t: Trie, db: Store, more: Store)
    requires Stored(t, db)
    ensures Stored(t, db + more)
  {
    match t
    case Empty =>
    case Leaf(_, _) =>
    case Ext(_, child) => StoredMore(child, db, more);
    case Branch(children, _) =>
      forall i | 0 <= i < |children| ensures StoredNode(children[i], db + more) && Stored(children[i], db + more) {
        StoredMore(children[i], db, more);
      }
  }

  // ----------------------------------------------------------------- reading

  /// isEmpty on an item of a node.
  predicate IsEmptyItem(x: Item) {
    x == Data([]) || x == List([])
  }

  predicate IsPair(x: Item) {
    x.List? && |x.items| == 2 && x.items[0].Data?
  }

  predicate IsBranch(x: Item) {
    x.List? && |x.items| == 17
  }

  function PairKey(x: Item): Nibbles
    requires IsPair(x)
  {
    KeyOf(x.items[0].payload)
  }

  predicate PairLeaf(x: Item)
    requires IsPair(x)
  {
    LeafFlag(x.items[0].payload)
  }

  /// toHash: at most 32 bytes, filled up with zeros in front.
  function ToHash(b: bytes): Option<Hash> {
    if |b| <= 32 then
      var h: bytes := seq(32 - |b|, _ => 0) + b;
      Some(h)
    else None
  }

  /// A node reached through an item of its parent: itself if it stands there, else by its hash.
  function Deref(x: Item, db: Store): Option<Item> {
    if x.List? then Some(x)
    else match ToHash(x.payload) { case None => None case Some(h) => Lookup(db, h) }
  }

  lemma DerefRef(t: Trie, db: Store)
    requires t != Empty && StoredNode(t, db) && CollisionFree(db)
    ensures Deref(Ref(t), db) == Some(NodeItem(t))
    ensures !IsEmptyItem(Ref(t))
  {
    var x := NodeItem(t);
    if |Encode(x)| >= 32 {
      var h := NodeHash(x);
      assert seq(0, _ => 0) + h == h;
      assert Ref(t) == Data(h) && ToHash(h) == Some(h);
    }
  }

  lemma RefEmpty(t: Trie)
    ensures IsEmptyItem(Ref(t)) <==> t == Empty
    ensures t == Empty ==> Ref(t) == Data([])
  {
    if t == Empty {
      assert Encode(Data([])) == [0x80];
    } else if |Encode(NodeItem(t))| >= 32 {
      assert |NodeHash(NodeItem(t))| == 32;
    }
  }

  /// What the readers of a pair see of a leaf or an extension.
  lemma PairOfNode(t: Trie)
    requires t.Leaf? || t.Ext?
    ensures IsPair(NodeItem(t)) && PairKey(NodeItem(t)) == t.key && PairLeaf(NodeItem(t)) == t.Leaf?
    ensures !IsEmptyItem(NodeItem(t)) && !IsBranch(NodeItem(t))
  {
    HPRoundTrip(t.key, t.Leaf?);
  }

  datatype Outcome<+T> = Corrupt | Done(value: T)

  /// atAux. Corrupt stands for a failed assertion, a failed conversion or an extension without
  /// a path, on which the original would never return.
  function At(here: Item, k: Nibbles, db: Store): Outcome<bytes>
    decreases |k|
  {
    if IsEmptyItem(here) then Done([])
    else if IsPair(here) then
      var key := PairKey(here);
      if k == key && PairLeaf(here) then Done(if here.items[1].Data? then here.items[1].payload else [])
      else if Contains(k, key) && !PairLeaf(here) then
        if key == [] then Corrupt
        else match Deref(here.items[1], db) {
          case None => Done([])
          case Some(n) => At(n, k[|key|..], db)
        }
      else Done([])
    else if IsBranch(here) then
      if k == [] then Done(if here.items[16].Data? then here.items[16].payload else [])
      else if IsEmptyItem(here.items[k[0]]) then Done([])
      else match Deref(here.items[k[0]], db) {
        case None => Done([])
        case Some(n) => At(n, k[1..], db)
      }
    else Corrupt
  }

  /// Reading through the store gives what the trie binds.
  lemma {:induction false} AtIsGet(t: Trie, k: Nibbles, db: Store)
    requires Wf(t) && Stored(t, db) && CollisionFree(db)
    ensures At(NodeItem(t), k, db) == Done(Get(t, k))
    decreases t
  {
    match t
    case Empty =>
    case Leaf(key, _) => PairOfNode(t);
    case Ext(key, child) =>
      PairOfNode(t);
      if key <= k {
        DerefRef(child, db);
        AtIsGet(child, k[|key|..], db);
      }
    case Branch(children, _) =>
      if k != [] {
        var c := children[k[0]];
        assert NodeItem(t).items[k[0]] == Ref(c);
        assert StoredNode(c, db);
        RefEmpty(c);
        if c != Empty {
          DerefRef(c, db);
          AtIsGet(c, k[1..], db);
        }
      }
  }
}
