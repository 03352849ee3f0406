/// Removal: deleteAt with merge and graft (libdevcore/TrieDB.h) on stored nodes, and on the
/// trees they stand for, over keys of one fixed length.
module TrieRemove {
  import opened Bytes
  import opened HexPrefix
  import opened Options
  import opened Rlp
  import opened Sequences
  import opened TrieInsert
  import opened TrieNode
  import opened TrieShape

  const NONE_USED: nat := 255

  predicate Used(items: seq<Item>, except: nat, i: nat) {
    i < 17 == |items| && i != except && !IsEmptyItem(items[i])
  }

  /// uniqueInUse from index i on, with what was found before; a second use ends the search.
  function UniqueFrom(items: seq<Item>, except: nat, i: nat, used: nat): nat
    requires |items| == 17 && i <= 17
    decreases 17 - i
  {
    if i == 17 then used
    else if !Used(items, except, i) then UniqueFrom(items, except, i + 1, used)
    else if used == NONE_USED then UniqueFrom(items, except, i + 1, i)
    else NONE_USED
  }

  function UniqueInUse(items: seq<Item>, except: nat): nat
    requires |items| == 17
  {
    UniqueFrom(items, except, 0, NONE_USED)
  }

  /// The only item in use if there is exactly one, and 255 otherwise.
  lemma {:induction false} UniqueInUseMeans(items: seq<Item>, except: nat)
    requires |items| == 17
    ensures var r := UniqueInUse(items, except);
            if r == NONE_USED then forall i :: Used(items, except, i) ==> exists j :: j != i && Used(items, except, j)
            else Used(items, except, r) && forall i :: Used(items, except, i) ==> i == r
  {
    UniqueFromMeans(items, except, 0, NONE_USED);
  }

  lemma {:induction false} UniqueFromMeans(items: seq<Item>, except: nat, i: nat, used: nat)
    requires |items| == 17 && i <= 17
    requires used == NONE_USED ==> forall j :: 0 <= j < i ==> !Used(items, except, j)
    requires used != NONE_USED ==>
               used < i && Used(items, except, used) && forall j :: 0 <= j < i && Used(items, except, j) ==> j == used
    ensures var r := UniqueFrom(items, except, i, used);
            if r == NONE_USED then forall n :: Used(items, except, n) ==> exists j :: j != n && Used(items, except, j)
            else Used(items, except, r) && forall n :: Used(items, except, n) ==> n == r
    decreases 17 - i
  {
    if i < 17 {
      if !Used(items, except, i) {
        UniqueFromMeans(items, except, i + 1, used);
      } else if used == NONE_USED {
        UniqueFromMeans(items, except, i + 1, i);
      } else {
        assert Used(items, except, i) && Used(items, except, used) && used != i;
      }
    }
  }

  /// uniqueInUse as the loop it is.
  method UniqueInUseLoop(items: seq<Item>, except: nat) returns (used: nat)
    requires |items| == 17
    ensures used == UniqueInUse(items, except)
  {
    used := NONE_USED;
    for i := 0 to 17
      invariant UniqueFrom(items, except, i, used) == UniqueInUse(items, except)
    {
      if i != except && !IsEmptyItem(items[i]) {
        if used == NONE_USED {
          used := i;
        } else {
          return NONE_USED;
        }
      }
    }
  }

  // ------------------------------------------------------------ on stored nodes

  /// isTwoItemNode, on an item of a node.
  function IsTwoItemNode(x: Item, db: Store): Outcome<bool> {
    if x.List? then Done(|x.items| == 2)
    else match ToHash(x.payload) {
      case None => Corrupt
      case Some(h) => Done(match Lookup(db, h) { case None => false case Some(n) => n.List? && |n.items| == 2 })
    }
  }

  /// merge: the one item left of a branch, under its nibble or as a leaf.
  function MergeNode(orig: Item, i: nat): (x: Item)
    requires IsBranch(orig) && i < 17
    ensures IsPair(x)
  {
    if i != 16 then Pair([i], false, orig.items[i]) else Pair([], true, orig.items[16])
  }

  /// graft: the path of a pair and that of the pair below it become one.
  function GraftNode(orig: Item, db: Store): Outcome<Item>
    requires IsPair(orig)
  {
    match Deref(orig.items[1], db) {
      case None => Corrupt
      case Some(n) =>
        if IsPair(n) then Done(Pair(PairKey(orig) + PairKey(n), PairLeaf(n), n.items[1])) else Corrupt
    }
  }

  /// A pair above a node that may itself be a pair.
  function GraftIfPair(orig: Item, db: Store): Outcome<Item>
    requires IsPair(orig)
  {
    match IsTwoItemNode(orig.items[1], db) {
      case Corrupt => Corrupt
      case Done(two) => if two then GraftNode(orig, db) else Done(orig)
    }
  }

  /// The end of both branch cases of deleteAt: a branch with one use left is merged.
  function Rejig(orig: Item, db: Store): Outcome<Item>
    requires IsBranch(orig)
  {
    var used := UniqueInUse(orig.items, NONE_USED);
    if used == NONE_USED then Done(orig)
    else
      UniqueInUseMeans(orig.items, NONE_USED);
      match IsTwoItemNode(orig.items[used], db) {
        case Corrupt => Corrupt
        case Done(two) =>
          var merged := MergeNode(orig, used);
          if two then GraftNode(merged, db) else Done(merged)
      }
  }

  /// deleteAt: None stands for the empty byte string, no change. Corrupt also covers a path
  /// that ends at a branch without a value, where the original reads past the path's end.
  function DeleteAt(orig: Item, k: Nibbles, db: Store): Outcome<Option<Node>>
    decreases |k|, 0
  {
    if IsEmptyItem(orig) then Done(None)
    else if IsPair(orig) then
      var key := PairKey(orig);
      if key == k && PairLeaf(orig) then Done(Some(Node(Data([]), db)))
      else if Contains(k, key) then
        if key == [] then Corrupt
        else match DeleteAtAux(orig.items[1], k[|key|..], db) {
          case Corrupt => Corrupt
          case Done(None) => Done(None)
          case Done(Some(n)) =>
            match GraftIfPair(List([orig.items[0], n.item]), n.db) {
              case Corrupt => Corrupt
              case Done(x) => Done(Some(Node(x, n.db)))
            }
        }
      else Done(None)
    else if IsBranch(orig) then
      if k == [] then
        if IsEmptyItem(orig.items[16]) then Corrupt
        else match Rejig(List(orig.items[16 := Data([])]), db) {
          case Corrupt => Corrupt
          case Done(x) => Done(Some(Node(x, db)))
        }
      else match DeleteAtAux(orig.items[k[0]], k[1..], db) {
        case Corrupt => Corrupt
        case Done(None) => Done(None)
        case Done(Some(n)) =>
          match Rejig(List(orig.items[k[0] := n.item]), n.db) {
            case Corrupt => Corrupt
            case Done(x) => Done(Some(Node(x, n.db)))
          }
      }
    else Corrupt
  }

  function DeleteAtAux(orig: Item, k: Nibbles, db: Store): Outcome<Option<Node>>
    decreases |k|, 1
  {
    if IsEmptyItem(orig) then Done(None)
    else match Deref(orig, db) {
      case None => Corrupt
      case Some(r) =>
        match DeleteAt(r, k, db) {
          case Corrupt => Corrupt
          case Done(None) => Done(None)
          case Done(Some(b)) => Done(Some(Node(Pointer(b.item), b.db + Written(b.item))))
        }
    }
  }

  // ---------------------------------------------------------------- on the trees

  /// Every path bound below has exactly n nibbles.
  predicate KeysLen(t: Trie, n: nat) {
    match t
    case Empty => true
    case Leaf(key, _) => |key| == n
    case Ext(key, child) => |key| <= n && KeysLen(child, n - |key|)
    case Branch(children, value) =>
      n > 0 && value == [] && forall i :: 0 <= i < |children| ==> KeysLen(children[i], n - 1)
  }

  function Graft(key: Nibbles, t: Trie): (u: Trie)
    requires key != [] && Wf(t) && t != Empty
    ensures Wf(u) && u != Empty
  {
    match t
    case Leaf(k, v) => Leaf(key + k, v)
    case Ext(k, c) => Ext(key + k, c)
    case Branch(_, _) => Ext(key, t)
  }

  /// Whether exactly one slot of a branch is in use, and which.
  function SoleUse(t: Trie): nat
    requires t.Branch? && |t.children| == 16
  {
    UniqueInUse(NodeItem(t).items, NONE_USED)
  }

  lemma UsedIsInUse(t: Trie, i: nat)
    requires t.Branch? && |t.children| == 16 && i < 17
    ensures Used(NodeItem(t).items, NONE_USED, i) <==> InUse(t, i)
  {
    if i < 16 {
      RefEmpty(t.children[i]);
    }
  }

  lemma {:induction false} SoleUseMeans(t: Trie)
    requires t.Branch? && |t.children| == 16
    ensures SoleUse(t) == NONE_USED || SoleUse(t) < 17
    ensures SoleUse(t) < 17 ==> InUse(t, SoleUse(t)) && forall i: nat :: i < 17 && InUse(t, i) ==> i == SoleUse(t)
    ensures SoleUse(t) == NONE_USED ==> TwoUses(t) || forall i: nat :: i < 17 ==> !InUse(t, i)
  {
    var items, r := NodeItem(t).items, SoleUse(t);
    UniqueInUseMeans(items, NONE_USED);
    assert r == UniqueInUse(items, NONE_USED);
    hide *;
    if r != NONE_USED {
      InUseSlot(t, r);
      forall i: nat | i < 17 && InUse(t, i) ensures i == r {
        UsedIsInUse(t, i);
      }
    } else if exists i: nat :: i < 17 && InUse(t, i) {
      var i: nat :| i < 17 && InUse(t, i);
      UsedIsInUse(t, i);
      var j :| j != i && Used(items, NONE_USED, j);
      InUseSlot(t, j);
      TwoUsesIntro(t, i, j);
    }
  }

  lemma InUseSlot(t: Trie, i: nat)
    requires t.Branch? && |t.children| == 16 && Used(NodeItem(t).items, NONE_USED, i)
    ensures i < 17 && InUse(t, i)
  {
    UsedIsInUse(t, i);
  }

  lemma TwoUsesIntro(t: Trie, i: nat, j: nat)
    requires t.Branch? && |t.children| == 16 && i < 17 && j < 17 && i != j && InUse(t, i) && InUse(t, j)
    ensures TwoUses(t)
  {
    assert InUse(t, if i < j then i else j) && InUse(t, if i < j then j else i);
  }

  function Collapse(t: Trie): (u: Trie)
    requires Wf(t) && t.Branch? && SomeUse(t)
    ensures Wf(u) && u != Empty
  {
    SoleUseMeans(t);
    var i := SoleUse(t);
    if i == NONE_USED then t
    else if i == 16 then Leaf([], t.value)
    else Graft([i], t.children[i])
  }

  /// At least one slot is still in use.
  predicate SomeUse(t: Trie)
    requires t.Branch? && |t.children| == 16
  {
    exists i: nat :: i < 17 && InUse(t, i)
  }

  lemma {:induction false} StillUsed(t: Trie, i: nat, c: Trie)
    requires Wf(t) && t.Branch? && TwoUses(t) && i < 16
    ensures SomeUse(Branch(t.children[i := c], t.value))
  {
    var x, y :| 0 <= x < y < 17 && InUse(t, x) && InUse(t, y);
    assert InUse(Branch(t.children[i := c], t.value), if x == i then y else x);
  }

  /// What deleteAt does to the tree; None if the path was not bound.
  function Del(t: Trie, k: Nibbles): (u: Option<Trie>)
    requires Wf(t) && Canonical(t) && KeysLen(t, |k|)
    ensures u.Some? ==> Wf(u.value)
    ensures u.Some? && !t.Leaf? ==> u.value != Empty
    decreases t, 1
  {
    match t
    case Empty => None
    case Leaf(key, _) => if key == k then Some(Empty) else None
    case Ext(key, child) =>
      if Contains(k, key) then
        match Del(child, k[|key|..]) { case None => None case Some(c) => Some(Graft(key, c)) }
      else None
    case Branch(children, value) => DelBranch(t, k)
  }

  function DelBranch(t: Trie, k: Nibbles): (u: Option<Trie>)
    requires t.Branch? && Wf(t) && Canonical(t) && KeysLen(t, |k|)
    ensures u.Some? ==> Wf(u.value) && u.value != Empty
    decreases t, 0
  {
    if t.children[k[0]] == Empty then None
    else match Del(t.children[k[0]], k[1..]) {
      case None => None
      case Some(c) =>
        StillUsed(t, k[0], c);
        Some(Collapse(Branch(t.children[k[0] := c], t.value)))
    }
  }

  /// What deleteAt writes to the store, in order; nothing if the path was not bound.
  function DelWrites(t: Trie, k: Nibbles): Store
    requires Wf(t) && Canonical(t) && KeysLen(t, |k|)
    decreases t, 0
  {
    match t
    case Empty => []
    case Leaf(_, _) => []
    case Ext(key, child) => if Contains(k, key) then BelowWrites(child, k[|key|..]) else []
    case Branch(children, _) => BelowWrites(children[k[0]], k[1..])
  }

  function BelowWrites(c: Trie, k: Nibbles): Store
    requires Wf(c) && Canonical(c) && KeysLen(c, |k|)
    decreases c, 1
  {
    match Del(c, k)
    case None => []
    case Some(u) => DelWrites(c, k) + Written(NodeItem(u))
  }

  // ------------------------------------------------- the nodes follow the trees

  lemma TwoItemFollows(c: Trie, db: Store)
    requires c != Empty && Wf(c) && StoredNode(c, db) && CollisionFree(db)
    ensures IsTwoItemNode(Ref(c), db) == Done(!c.Branch?)
  {
    DerefRef(c, db);
    if !c.Branch? {
      PairOfNode(c);
    }
  }

  lemma GraftNodeFollows(key: Nibbles, c: Trie, db: Store)
    requires key != [] && c != Empty && Wf(c) && !c.Branch? && StoredNode(c, db) && CollisionFree(db)
    ensures GraftNode(Pair(key, false, Ref(c)), db) == Done(NodeItem(Graft(key, c)))
  {
    DerefRef(c, db);
    PairOfNode(c);
    hide HP;
  }

  lemma GraftFollows(key: Nibbles, c: Trie, db: Store)
    requires key != [] && c != Empty && Wf(c) && StoredNode(c, db) && CollisionFree(db)
    ensures GraftIfPair(Pair(key, false, Ref(c)), db) == Done(NodeItem(Graft(key, c)))
  {
    TwoItemFollows(c, db);
    if !c.Branch? {
      GraftNodeFollows(key, c, db);
    }
  }

  lemma CollapseFollows(t: Trie, db: Store)
    requires t.Branch? && Wf(t) && SomeUse(t) && t.value == [] && Stored(t, db) && CollisionFree(db)
    ensures Rejig(NodeItem(t), db) == Done(NodeItem(Collapse(t)))
  {
    SoleUseMeans(t);
    UniqueInUseMeans(NodeItem(t).items, NONE_USED);
    var i := SoleUse(t);
    if i != NONE_USED {
      var c := t.children[i];
      assert StoredNode(c, db) && NodeItem(t).items[i] == Ref(c);
      TwoItemFollows(c, db);
      if !c.Branch? {
        GraftNodeFollows([i], c, db);
      }
    }
  }

  lemma GraftStored(key: Nibbles, c: Trie, db: Store)
    requires key != [] && c != Empty && Wf(c) && StoredNode(c, db) && Stored(c, db)
    ensures Stored(Graft(key, c), db)
  {
  }

  lemma CollapseStored(t: Trie, db: Store)
    requires t.Branch? && Wf(t) && SomeUse(t) && Stored(t, db)
    ensures Stored(Collapse(t), db)
  {
    SoleUseMeans(t);
    var i := SoleUse(t);
    if i < 16 {
      GraftStored([i], t.children[i], db);
    }
  }

  function Outgoing(u: Option<Trie>, db: Store): Outcome<Option<Node>> {
    match u
    case None => Done(None)
    case Some(t) => Done(Some(Node(NodeItem(t), db)))
  }

  /// deleteAt on the stored node of a canonical trie over keys of one length gives the stored
  /// node of the trie without the path, or reports that the path is not bound.
  lemma {:induction false} DeleteAtFollows(t: Trie, k: Nibbles, db: Store)
    requires Wf(t) && Canonical(t) && KeysLen(t, |k|)
    requires Stored(t, db) && CollisionFree(db + DelWrites(t, k))
    ensures DeleteAt(NodeItem(t), k, db) == Outgoing(Del(t, k), db + DelWrites(t, k))
    ensures Del(t, k).Some? ==> Stored(Del(t, k).value, db + DelWrites(t, k))
    decreases t, 0
  {
    hide *;
    match t
    case Branch(_, _) => DeleteBranchFollows(t, k, db);
    case Ext(key, child) =>
      if Contains(k, key) {
        BelowExt(t, k, db);
        DeleteAuxFollows(child, k[|key|..], db);
        DeleteExtFollows(t, k, db, Del(child, k[|key|..]), db + BelowWrites(child, k[|key|..]));
      } else {
        DeleteElsewhere(t, k, db);
      }
    case _ => DeleteElsewhere(t, k, db);
  }

  /// The path does not go on below.
  lemma DeleteElsewhere(t: Trie, k: Nibbles, db: Store)
    requires Wf(t) && Canonical(t) && KeysLen(t, |k|) && !t.Branch? && (t.Ext? ==> !Contains(k, t.key))
    ensures DeleteAt(NodeItem(t), k, db) == Outgoing(Del(t, k), db + DelWrites(t, k))
    ensures Del(t, k).Some? ==> Stored(Del(t, k).value, db + DelWrites(t, k))
  {
    NothingWritten(db);
    if t != Empty {
      PairOfNode(t);
    }
  }

  lemma BelowExt(t: Trie, k: Nibbles, db: Store)
    requires t.Ext? && Wf(t) && Canonical(t) && KeysLen(t, |k|) && Contains(k, t.key)
    requires Stored(t, db) && CollisionFree(db + DelWrites(t, k))
    ensures |t.key| <= |k|
    ensures var rest := k[|t.key|..];
            && Wf(t.child) && Canonical(t.child) && KeysLen(t.child, |rest|)
            && StoredNode(t.child, db) && Stored(t.child, db) && CollisionFree(db + BelowWrites(t.child, rest))
  {
    DelExtIs(t, k);
  }

  /// Below an extension nothing was bound, or the rest is grafted onto it.
  lemma DeleteExtNone(t: Trie, k: Nibbles, db: Store)
    requires t.Ext? && Wf(t) && Canonical(t) && KeysLen(t, |k|) && Contains(k, t.key)
    requires Del(t.child, k[|t.key|..]) == None && DeleteAtAux(Ref(t.child), k[|t.key|..], db) == Done(None)
    ensures DeleteAt(NodeItem(t), k, db) == Outgoing(Del(t, k), db + DelWrites(t, k)) && Del(t, k) == None
  {
    hide *;
    DelExtIs(t, k);
    DeleteExtUnfolds(t, k, db);
    NotDelivered(t, k, db);
  }

  lemma DeleteExtSome(t: Trie, k: Nibbles, db: Store, c: Trie, d: Store)
    requires t.Ext? && Wf(t) && Canonical(t) && KeysLen(t, |k|) && Contains(k, t.key)
    requires Del(t.child, k[|t.key|..]) == Some(c) && d == db + BelowWrites(t.child, k[|t.key|..])
    requires DeleteAtAux(Ref(t.child), k[|t.key|..], db) == Done(Some(Node(Ref(c), d)))
    requires StoredNode(c, d) && Stored(c, d) && CollisionFree(d)
    ensures DeleteAt(NodeItem(t), k, db) == Outgoing(Del(t, k), db + DelWrites(t, k))
    ensures Del(t, k).Some? && Stored(Del(t, k).value, db + DelWrites(t, k))
  {
    hide *;
    DelExtIs(t, k);
    DeleteExtUnfolds(t, k, db);
    GraftFollows(t.key, c, d);
    GraftStored(t.key, c, d);
    Delivered(t, k, db, Graft(t.key, c), d);
  }

  lemma {:induction false} DeleteExtFollows(t: Trie, k: Nibbles, db: Store, u: Option<Trie>, d: Store)
    requires t.Ext? && Wf(t) && Canonical(t) && KeysLen(t, |k|) && Contains(k, t.key)
    requires Del(t.child, k[|t.key|..]) == u && d == db + BelowWrites(t.child, k[|t.key|..]) && CollisionFree(d)
    requires DeleteAtAux(Ref(t.child), k[|t.key|..], db)
          == (match u { case None => Done(None) case Some(b) => Done(Some(Node(Ref(b), d))) })
    requires u.Some? ==> StoredNode(u.value, d) && Stored(u.value, d)
    ensures DeleteAt(NodeItem(t), k, db) == Outgoing(Del(t, k), db + DelWrites(t, k))
    ensures Del(t, k).Some? ==> Stored(Del(t, k).value, db + DelWrites(t, k))
  {
    hide *;
    match u
    case None => DeleteExtNone(t, k, db);
    case Some(c) => DeleteExtSome(t, k, db, c, d);
  }

  lemma NothingWritten(db: Store)
    ensures db + [] == db
  {
  }

  lemma NotDelivered(t: Trie, k: Nibbles, db: Store)
    requires Wf(t) && Canonical(t) && KeysLen(t, |k|)
    requires Del(t, k) == None && DelWrites(t, k) == [] && DeleteAt(NodeItem(t), k, db) == Done(None)
    ensures DeleteAt(NodeItem(t), k, db) == Outgoing(Del(t, k), db + DelWrites(t, k))
  {
  }

  lemma DelExtIs(t: Trie, k: Nibbles)
    requires t.Ext? && Wf(t) && Canonical(t) && KeysLen(t, |k|) && Contains(k, t.key)
    ensures var rest := k[|t.key|..];
            && t.key != [] && DelWrites(t, k) == BelowWrites(t.child, rest)
            && match Del(t.child, rest) {
                 case None => Del(t, k) == None && BelowWrites(t.child, rest) == []
                 case Some(c) => c != Empty && Wf(c) && Del(t, k) == Some(Graft(t.key, c))
               }
  {
  }

  /// The node that comes out, in the store that comes out.
  lemma Delivered(t: Trie, k: Nibbles, db: Store, u: Trie, d: Store)
    requires Wf(t) && Canonical(t) && KeysLen(t, |k|)
    requires Del(t, k) == Some(u) && db + DelWrites(t, k) == d && Stored(u, d)
    requires DeleteAt(NodeItem(t), k, db) == Done(Some(Node(NodeItem(u), d)))
    ensures DeleteAt(NodeItem(t), k, db) == Outgoing(Del(t, k), db + DelWrites(t, k))
    ensures Del(t, k).Some? ==> Stored(Del(t, k).value, db + DelWrites(t, k))
  {
  }

  lemma DeleteExtUnfolds(t: Trie, k: Nibbles, db: Store)
    requires t.Ext? && t.key != [] && Contains(k, t.key)
    ensures match DeleteAtAux(Ref(t.child), k[|t.key|..], db)
            case Corrupt => true
            case Done(None) => DeleteAt(NodeItem(t), k, db) == Done(None)
            case Done(Some(n)) =>
              DeleteAt(NodeItem(t), k, db) == (match GraftIfPair(Pair(t.key, false, n.item), n.db) {
                case Corrupt => Corrupt
                case Done(x) => Done(Some(Node(x, n.db)))
              })
  {
    PairOfNode(t);
  }

  lemma {:induction false} DeleteAuxFollows(c: Trie, k: Nibbles, db: Store)
    requires Wf(c) && Canonical(c) && KeysLen(c, |k|)
    requires StoredNode(c, db) && Stored(c, db) && CollisionFree(db + BelowWrites(c, k))
    ensures var u, d := Del(c, k), db + BelowWrites(c, k);
            && DeleteAtAux(Ref(c), k, db) == (match u { case None => Done(None) case Some(b) => Done(Some(Node(Ref(b), d))) })
            && (u.Some? ==> StoredNode(u.value, d) && Stored(u.value, d))
    decreases c, 1
  {
    if c == Empty {
      AuxOfEmpty(k, db);
    } else {
      RefEmpty(c);
      BelowIs(c, k);
      NothingWritten(db);
      var u, w := Del(c, k), DelWrites(c, k);
      if u.None? {
        DerefRef(c, db);
        DeleteAtFollows(c, k, db);
        hide *;
        AuxNone(c, k, db);
      } else {
        var last := Written(NodeItem(u.value));
        PlusAssoc(db, w, last);
        CollisionFreeSub(db + w, last);
        CollisionFreeSub(db, w);
        DerefRef(c, db);
        DeleteAtFollows(c, k, db);
        hide *;
        StoredMore(u.value, db + w, last);
        WrittenStored(u.value, db + w);
        AuxUnfolds(c, k, db, u.value, db + w);
      }
    }
  }

  lemma AuxOfEmpty(k: Nibbles, db: Store)
    ensures DeleteAtAux(Ref(Empty), k, db) == Done(None) && Del(Empty, k) == None
  {
    RefEmpty(Empty);
  }

  lemma BelowIs(c: Trie, k: Nibbles)
    requires Wf(c) && Canonical(c) && KeysLen(c, |k|)
    ensures match Del(c, k) {
              case None => DelWrites(c, k) == [] && BelowWrites(c, k) == []
              case Some(u) => BelowWrites(c, k) == DelWrites(c, k) + Written(NodeItem(u))
            }
  {
    if Del(c, k) == None {
      DelNoneWrites(c, k);
    }
  }

  lemma AuxNone(c: Trie, k: Nibbles, db: Store)
    requires !IsEmptyItem(Ref(c)) && Deref(Ref(c), db) == Some(NodeItem(c))
    requires Wf(c) && Canonical(c) && KeysLen(c, |k|) && Del(c, k) == None
    requires DeleteAt(NodeItem(c), k, db) == Outgoing(Del(c, k), db)
    ensures DeleteAtAux(Ref(c), k, db) == Done(None)
  {
  }

  lemma AuxUnfolds(c: Trie, k: Nibbles, db: Store, u: Trie, d: Store)
    requires !IsEmptyItem(Ref(c)) && Deref(Ref(c), db) == Some(NodeItem(c))
    requires DeleteAt(NodeItem(c), k, db) == Done(Some(Node(NodeItem(u), d)))
    ensures DeleteAtAux(Ref(c), k, db) == Done(Some(Node(Ref(u), d + Written(NodeItem(u)))))
  {
  }

  lemma WrittenStored(u: Trie, db: Store)
    ensures StoredNode(u, db + Written(NodeItem(u)))
  {
    if |Encode(NodeItem(u))| >= 32 {
      assert (db + [NodeItem(u)])[|db|] == NodeItem(u);
    }
  }

  lemma {:induction false} DelNoneWrites(t: Trie, k: Nibbles)
    requires Wf(t) && Canonical(t) && KeysLen(t, |k|) && Del(t, k) == None
    ensures DelWrites(t, k) == []
  {
    match t
    case Empty =>
    case Leaf(_, _) =>
    case Ext(key, child) =>
    case Branch(children, _) =>
      assert children[k[0]] == Empty ==> Del(children[k[0]], k[1..]) == None;
  }

  lemma {:induction false} DeleteBranchFollows(t: Trie, k: Nibbles, db: Store)
    requires t.Branch? && Wf(t) && Canonical(t) && KeysLen(t, |k|)
    requires Stored(t, db) && CollisionFree(db + DelWrites(t, k))
    ensures DeleteAt(NodeItem(t), k, db) == Outgoing(Del(t, k), db + DelWrites(t, k))
    ensures Del(t, k).Some? ==> Stored(Del(t, k).value, db + DelWrites(t, k))
    decreases t, 0, 0
  {
    var n, c := k[0], t.children[k[0]];
    assert StoredNode(c, db) && Stored(c, db) && NodeItem(t).items[n] == Ref(c);
    DeleteAuxFollows(c, k[1..], db);
    DeleteBranchUnfolds(t, k, db);
    assert db + [] == db;
    hide DeleteAt, DeleteAtAux, NodeItem, Rejig, Collapse, Stored, StoredNode;
    match Del(c, k[1..])
    case None =>
    case Some(b) =>
      var u, d := Branch(t.children[n := b], t.value), db + BelowWrites(c, k[1..]);
      BranchReplaced(t, k, db, b);
      BranchCollapses(NodeItem(t), k, db, u, d);
      Delivered(t, k, db, Collapse(u), d);
  }

  /// With a child replaced, a branch is rejigged into the node of the collapsed branch.
  lemma BranchCollapses(x: Item, k: Nibbles, db: Store, u: Trie, d: Store)
    requires u.Branch? && Wf(u) && SomeUse(u) && u.value == [] && Stored(u, d) && CollisionFree(d)
    requires DeleteAt(x, k, db) == (match Rejig(NodeItem(u), d) {
               case Corrupt => Corrupt
               case Done(y) => Done(Some(Node(y, d)))
             })
    ensures DeleteAt(x, k, db) == Done(Some(Node(NodeItem(Collapse(u)), d)))
    ensures Stored(Collapse(u), d)
  {
    CollapseFollows(u, d);
    CollapseStored(u, d);
  }

  /// What removal makes of a branch whose child changes.
  lemma DelBranchIs(t: Trie, k: Nibbles, b: Trie)
    requires t.Branch? && Wf(t) && Canonical(t) && KeysLen(t, |k|) && Del(t.children[k[0]], k[1..]) == Some(b)
    ensures var u := Branch(t.children[k[0] := b], t.value);
            && Wf(u) && SomeUse(u) && u.value == []
            && Del(t, k) == Some(Collapse(u)) && DelWrites(t, k) == BelowWrites(t.children[k[0]], k[1..])
  {
    StillUsed(t, k[0], b);
  }

  lemma BranchReplaced(t: Trie, k: Nibbles, db: Store, b: Trie)
    requires t.Branch? && Wf(t) && Canonical(t) && KeysLen(t, |k|)
    requires Stored(t, db) && CollisionFree(db + DelWrites(t, k)) && Del(t.children[k[0]], k[1..]) == Some(b)
    requires var d := db + BelowWrites(t.children[k[0]], k[1..]); StoredNode(b, d) && Stored(b, d)
    ensures var u, d := Branch(t.children[k[0] := b], t.value), db + BelowWrites(t.children[k[0]], k[1..]);
            && Wf(u) && SomeUse(u) && u.value == [] && Stored(u, d) && CollisionFree(d)
            && NodeItem(u) == List(NodeItem(t).items[k[0] := Ref(b)])
            && Del(t, k) == Some(Collapse(u)) && db + DelWrites(t, k) == d
  {
    var more := BelowWrites(t.children[k[0]], k[1..]);
    DelBranchIs(t, k, b);
    hide Del, DelWrites, BelowWrites, Collapse, Canonical, KeysLen, Stored, StoredNode, CollisionFree;
    BranchItems(t.children, t.value, k[0], b);
    ChildReplacedStored(t, k[0], b, db, more);
  }

  lemma DeleteBranchUnfolds(t: Trie, k: Nibbles, db: Store)
    requires t.Branch? && Wf(t) && Canonical(t) && KeysLen(t, |k|)
    ensures var x, c := NodeItem(t), t.children[k[0]];
            match DeleteAtAux(Ref(c), k[1..], db)
            case Corrupt => true
            case Done(None) => DeleteAt(x, k, db) == Done(None)
            case Done(Some(n)) =>
              DeleteAt(x, k, db) == (match Rejig(List(x.items[k[0] := n.item]), n.db) {
                case Corrupt => Corrupt
                case Done(y) => Done(Some(Node(y, n.db)))
              })
    ensures Del(t.children[k[0]], k[1..]) == None ==> Del(t, k) == None
    ensures match Del(t.children[k[0]], k[1..]) {
              case None => true
              case Some(b) => SomeUse(Branch(t.children[k[0] := b], t.value))
                && Del(t, k) == Some(Collapse(Branch(t.children[k[0] := b], t.value)))
            }
  {
    assert NodeItem(t).items[k[0]] == Ref(t.children[k[0]]);
    match Del(t.children[k[0]], k[1..])
    case None =>
    case Some(b) => StillUsed(t, k[0], b);
  }

  lemma ChildReplacedStored(t: Trie, n: nibble, b: Trie, db: Store, more: Store)
    requires t.Branch? && |t.children| == 16 && Stored(t, db)
    requires StoredNode(b, db + more) && Stored(b, db + more)
    ensures Stored(Branch(t.children[n := b], t.value), db + more)
  {
    var u := Branch(t.children[n := b], t.value);
    forall i | 0 <= i < 16 ensures StoredNode(u.children[i], db + more) && Stored(u.children[i], db + more) {
      if i != n {
        StoredMore(t.children[i], db, more);
        assert StoredNode(t.children[i], db);
      }
    }
  }

  // --------------------------------------------------------- what removal keeps

  lemma GraftGet(key: Nibbles, c: Trie, j: Nibbles)
    requires key != [] && Wf(c) && c != Empty
    ensures Get(Graft(key, c), j) == if key <= j then Get(c, j[|key|..]) else []
  {
    if !c.Branch? {
      PrefixAppend(key, c.key, j);
    }
  }

  lemma CollapseGet(t: Trie, j: Nibbles)
    requires Wf(t) && t.Branch? && SomeUse(t)
    ensures Get(Collapse(t), j) == Get(t, j)
  {
    SoleUseMeans(t);
    var i := SoleUse(t);
    if i < 16 {
      GraftGet([i], t.children[i], j);
      assert !InUse(t, 16);
      if j != [] && j[0] != i {
        assert !InUse(t, j[0]);
      }
    } else if i == 16 && j != [] {
      assert !InUse(t, j[0]);
    }
  }

  /// Removal unbinds the path and nothing else; it changes nothing exactly when the path was
  /// not bound.
  lemma {:induction false} DelGet(t: Trie, k: Nibbles, j: Nibbles)
    requires Wf(t) && Canonical(t) && KeysLen(t, |k|)
    ensures Del(t, k) == None <==> Get(t, k) == []
    ensures Del(t, k).Some? ==> Get(Del(t, k).value, j) == if j == k then [] else Get(t, j)
    decreases t
  {
    match t
    case Empty =>
    case Leaf(_, _) =>
    case Ext(key, child) =>
      if key <= k {
        DelGet(child, k[|key|..], if key <= j then j[|key|..] else []);
        DelExtGet(t, k, j);
      }
    case Branch(children, value) =>
      DelGet(children[k[0]], k[1..], if j != [] then j[1..] else []);
      DelBranchGet(t, k, j);
  }

  lemma {:induction false} DelExtGet(t: Trie, k: Nibbles, j: Nibbles)
    requires t.Ext? && Wf(t) && Canonical(t) && KeysLen(t, |k|) && t.key <= k
    requires var below, rest := Del(t.child, k[|t.key|..]), if t.key <= j then j[|t.key|..] else [];
             && (below == None <==> Get(t.child, k[|t.key|..]) == [])
             && (below.Some? ==> Get(below.value, rest) == if rest == k[|t.key|..] then [] else Get(t.child, rest))
    ensures Del(t, k) == None <==> Get(t, k) == []
    ensures Del(t, k).Some? ==> Get(Del(t, k).value, j) == if j == k then [] else Get(t, j)
  {
    match Del(t.child, k[|t.key|..])
    case None =>
    case Some(c) =>
      GraftGet(t.key, c, j);
      PrefixAppend(t.key, k[|t.key|..], j);
      assert k == t.key + k[|t.key|..];
  }

  lemma PathParts(k: Nibbles)
    requires k != []
    ensures k == [k[0]] + k[1..]
  {
  }

  lemma {:induction false} DelBranchGet(t: Trie, k: Nibbles, j: Nibbles)
    requires t.Branch? && Wf(t) && Canonical(t) && KeysLen(t, |k|)
    requires var below, rest := Del(t.children[k[0]], k[1..]), if j != [] then j[1..] else [];
             && (below == None <==> Get(t.children[k[0]], k[1..]) == [])
             && (below.Some? ==> Get(below.value, rest) == if rest == k[1..] then [] else Get(t.children[k[0]], rest))
    ensures Del(t, k) == None <==> Get(t, k) == []
    ensures Del(t, k).Some? ==> Get(Del(t, k).value, j) == if j == k then [] else Get(t, j)
  {
    var below := Del(t.children[k[0]], k[1..]);
    PathParts(k);
    if j != [] {
      PathParts(j);
    }
    match below
    case None =>
    case Some(b) =>
      DelBranchIs(t, k, b);
      hide Del, DelWrites, Canonical, KeysLen, BelowWrites, Collapse;
      CollapseGet(Branch(t.children[k[0] := b], t.value), j);
  }

  lemma GraftCanonical(key: Nibbles, c: Trie, n: nat)
    requires key != [] && c != Empty && Wf(c) && Canonical(c) && KeysLen(c, n)
    ensures Canonical(Graft(key, c)) && KeysLen(Graft(key, c), |key| + n)
  {
  }

  lemma CollapseCanonical(t: Trie, n: nat)
    requires t.Branch? && Wf(t) && SomeUse(t) && KeysLen(t, n)
    requires forall i :: 0 <= i < 16 ==> Canonical(t.children[i])
    ensures Canonical(Collapse(t)) && KeysLen(Collapse(t), n)
  {
    SoleUseMeans(t);
    var i := SoleUse(t);
    if i < 16 {
      GraftCanonical([i], t.children[i], n - 1);
    }
  }

  /// Removal keeps a trie canonical and its paths as long as they were.
  lemma {:induction false} DelCanonical(t: Trie, k: Nibbles)
    requires Wf(t) && Canonical(t) && KeysLen(t, |k|)
    ensures Del(t, k).Some? ==> Canonical(Del(t, k).value) && KeysLen(Del(t, k).value, |k|)
    decreases t
  {
    match t
    case Empty =>
    case Leaf(_, _) =>
    case Ext(key, child) =>
      if key <= k {
        DelCanonical(child, k[|key|..]);
        match Del(child, k[|key|..])
        case None =>
        case Some(c) => GraftCanonical(key, c, |k| - |key|);
      }
    case Branch(children, value) =>
      var n, c := k[0], children[k[0]];
      DelCanonical(c, k[1..]);
      match Del(c, k[1..])
      case None =>
      case Some(b) =>
        StillUsed(t, n, b);
        CollapseCanonical(Branch(children[n := b], value), |k|);
  }

  /// Insertion keeps the lengths of the paths too.
  lemma {:induction false} InsKeysLen(t: Trie, k: Nibbles, v: bytes)
    requires Wf(t) && v != [] && KeysLen(t, |k|)
    ensures KeysLen(Ins(t, k, v), |k|)
    decreases |k|, TreeRank(t, k)
  {
    match t
    case Empty =>
    case Leaf(key, _) =>
      if key != k {
        InsPairKeysLen(t, k, v);
      }
    case Ext(key, child) =>
      if Contains(k, key) {
        InsKeysLen(child, k[|key|..], v);
      } else {
        InsPairKeysLen(t, k, v);
      }
    case Branch(children, value) => InsKeysLen(children[k[0]], k[1..], v);
  }

  lemma {:induction false} InsPairKeysLen(t: Trie, k: Nibbles, v: bytes)
    requires Wf(t) && v != [] && Parting(t, k) && KeysLen(t, |k|)
    ensures KeysLen(InsPair(t, k, v), |k|)
    decreases |k|, 1, 0
  {
    if Shared(k, t.key) > 0 {
      InsKeysLen(Cleve(t, Shared(k, t.key)), k, v);
    } else {
      assert t.Leaf? && t.key == [] ==> k == [];
      InsKeysLen(BranchOf(t), k, v);
    }
  }
}
