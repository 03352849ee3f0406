/// Radix-16 tries as trees: what a node stands for once every hash is followed, which trees
/// are canonical, and why a canonical tree is determined by the keys and values it holds.
/// Appendix D of the Ethereum Yellow Paper.
module TrieShape {
  import opened Bytes
  import opened HexPrefix

  datatype Trie =
    | Empty
    | Leaf(key: Nibbles, value: bytes)
    | Ext(key: Nibbles, child: Trie)
    | Branch(children: seq<Trie>, value: bytes)

  /// The value bound to a path; the empty string stands for no binding, as at() returns it.
  function Get(t: Trie, k: Nibbles): bytes
    requires Wf(t)
  {
    match t
    case Empty => []
    case Leaf(key, value) => if key == k then value else []
    case Ext(key, child) => if key <= k then Get(child, k[|key|..]) else []
    case Branch(children, value) => if k == [] then value else Get(children[k[0]], k[1..])
  }

  /// Well-formed: values of leaves are not empty, extensions have a path and lead somewhere.
  predicate Wf(t: Trie) {
    match t
    case Empty => true
    case Leaf(_, value) => value != []
    case Ext(key, child) => key != [] && child != Empty && Wf(child)
    case Branch(children, _) => |children| == 16 && forall i :: 0 <= i < 16 ==> Wf(children[i])
  }

  /// Slot 16 of a branch is its value, the others its children.
  predicate InUse(t: Trie, i: nat)
    requires t.Branch? && |t.children| == 16 && i < 17
  {
    if i == 16 then t.value != [] else t.children[i] != Empty
  }

  predicate TwoUses(t: Trie)
    requires t.Branch? && |t.children| == 16
  {
    exists i, j :: 0 <= i < j < 17 && InUse(t, i) && InUse(t, j)
  }

  /// Canonical: no extension above anything but a branch, no branch with fewer than two uses.
  predicate Canonical(t: Trie) {
    match t
    case Empty => true
    case Leaf(_, value) => value != []
    case Ext(key, child) => key != [] && child.Branch? && Canonical(child)
    case Branch(children, _) =>
      |children| == 16 && (forall i :: 0 <= i < 16 ==> Canonical(children[i])) && TwoUses(t)
  }

  lemma {:induction false} CanonicalWf(t: Trie)
    requires Canonical(t)
    ensures Wf(t)
  {
    match t
    case Empty =>
    case Leaf(_, _) =>
    case Ext(_, child) => CanonicalWf(child);
    case Branch(children, _) =>
      forall i | 0 <= i < 16 ensures Wf(children[i]) {
        CanonicalWf(children[i]);
      }
  }

  // ------------------------------------------------------------- uniqueness

  ghost predicate SameBindings(t: Trie, u: Trie)
    requires Wf(t) && Wf(u)
  {
    forall k :: Get(t, k) == Get(u, k)
  }

  /// A canonical trie that is not empty binds some path.
  lemma {:induction false} SomeKey(t: Trie) returns (k: Nibbles)
    requires Canonical(t) && t != Empty
    ensures Wf(t) && Get(t, k) != []
  {
    CanonicalWf(t);
    match t
    case Leaf(key, _) => k := key;
    case Ext(key, child) =>
      var rest := SomeKey(child);
      k := key + rest;
      assert k[|key|..] == rest;
    case Branch(_, _) =>
      var i: nat :| i < 17 && InUse(t, i);
      k := SlotKey(t, i);
  }

  /// A slot in use gives a bound path that starts with the slot's nibble.
  lemma {:induction false} SlotKey(t: Trie, i: nat) returns (k: Nibbles)
    requires t.Branch? && Canonical(t) && i < 17 && InUse(t, i)
    ensures Wf(t) && Get(t, k) != []
    ensures if i == 16 then k == [] else k != [] && k[0] == i
    decreases t, 0
  {
    CanonicalWf(t);
    if i == 16 {
      k := [];
    } else {
      var rest := SomeKey(t.children[i]);
      var n: nibble := i;
      k := [n] + rest;
      assert k[1..] == rest;
    }
  }

  /// Two paths that share no first nibble.
  predicate Apart(x: Nibbles, y: Nibbles) {
    x != y && (x == [] || y == [] || x[0] != y[0])
  }

  /// A canonical branch binds two paths that share no first nibble.
  lemma {:induction false} Spread(t: Trie) returns (x: Nibbles, y: Nibbles)
    requires t.Branch? && Canonical(t)
    ensures Wf(t) && Get(t, x) != [] && Get(t, y) != [] && Apart(x, y)
  {
    var i, j :| 0 <= i < j < 17 && InUse(t, i) && InUse(t, j);
    x := SlotKey(t, i);
    y := SlotKey(t, j);
  }

  /// A canonical extension binds two paths that share exactly its own path.
  lemma {:induction false} SpreadExt(t: Trie) returns (x: Nibbles, y: Nibbles)
    requires t.Ext? && Canonical(t)
    ensures Wf(t) && Get(t, t.key + x) != [] && Get(t, t.key + y) != [] && Apart(x, y)
    ensures t.key + x != t.key + y
  {
    CanonicalWf(t);
    x, y := Spread(t.child);
    assert (t.key + x)[|t.key|..] == x && (t.key + y)[|t.key|..] == y;
  }

  /// A path that begins two paths which part right after p is no longer than p.
  lemma {:induction false} CommonStart(q: Nibbles, p: Nibbles, x: Nibbles, y: Nibbles)
    requires Apart(x, y) && q <= p + x && q <= p + y
    ensures q <= p
  {
    assert forall i :: 0 <= i < |q| ==> q[i] == (p + x)[i] == (p + y)[i];
    assert x != [] && y != [] ==> (p + x)[|p|] == x[0] && (p + y)[|p|] == y[0];
    assert |q| <= |p|;
  }

  /// A canonical trie is determined by its bindings.
  lemma {:induction false} CanonicalUnique(t: Trie, u: Trie)
    requires Canonical(t) && Canonical(u)
    requires Wf(t) && Wf(u) && SameBindings(t, u)
    ensures t == u
    decreases t
  {
    if t == Empty || u == Empty {
      EmptyUnique(t, u);
    } else if t.Leaf? || u.Leaf? {
      LeafUnique(t, u);
    } else if t.Ext? || u.Ext? {
      ExtUnique(t, u);
      forall k ensures Get(t.child, k) == Get(u.child, k) {
        assert (t.key + k)[|t.key|..] == k;
        assert Get(t, t.key + k) == Get(u, t.key + k);
      }
      CanonicalUnique(t.child, u.child);
    } else {
      assert Get(t, []) == Get(u, []);
      forall i: nibble | 0 <= i < 16 ensures t.children[i] == u.children[i] {
        forall k ensures Get(t.children[i], k) == Get(u.children[i], k) {
          assert ([i] + k)[1..] == k;
          assert Get(t, [i] + k) == Get(u, [i] + k);
        }
        CanonicalUnique(t.children[i], u.children[i]);
      }
      assert t.children == u.children;
    }
  }

  lemma {:induction false} EmptyUnique(t: Trie, u: Trie)
    requires Canonical(t) && Canonical(u) && (t == Empty || u == Empty)
    requires Wf(t) && Wf(u) && SameBindings(t, u)
    ensures t == u
  {
    if t != Empty {
      var k := SomeKey(t);
    } else if u != Empty {
      var k := SomeKey(u);
    }
  }

  /// A canonical trie that binds one path only is a leaf.
  lemma {:induction false} OneKeyIsLeaf(t: Trie, key: Nibbles)
    requires Canonical(t) && t != Empty
    requires Wf(t) && forall k :: Get(t, k) != [] ==> k == key
    ensures t.Leaf? && t.key == key
  {
    match t
    case Leaf(k, _) => assert Get(t, k) != [];
    case Ext(k, _) =>
      var x, y := SpreadExt(t);
    case Branch(_, _) => var x, y := Spread(t);
  }

  lemma {:induction false} LeafUnique(t: Trie, u: Trie)
    requires Canonical(t) && Canonical(u) && t != Empty && u != Empty && (t.Leaf? || u.Leaf?)
    requires Wf(t) && Wf(u) && SameBindings(t, u)
    ensures t == u
  {
    if t.Leaf? {
      forall k | Get(u, k) != [] ensures k == t.key { assert Get(t, k) == Get(u, k); }
      OneKeyIsLeaf(u, t.key);
      assert Get(t, t.key) == Get(u, t.key);
    } else {
      forall k | Get(t, k) != [] ensures k == u.key { assert Get(t, k) == Get(u, k); }
      OneKeyIsLeaf(t, u.key);
    }
  }

  lemma {:induction false} ExtUnique(t: Trie, u: Trie)
    requires Canonical(t) && Canonical(u) && (t.Ext? || t.Branch?) && (u.Ext? || u.Branch?) && (t.Ext? || u.Ext?)
    requires Wf(t) && Wf(u) && SameBindings(t, u)
    ensures t.Ext? && u.Ext? && t.key == u.key
  {
    var p, q := PathOf(t), PathOf(u);
    PathBelow(t, u);
    PathBelow(u, t);
  }

  function PathOf(t: Trie): Nibbles {
    if t.Ext? then t.key else []
  }

  /// The path of one trie is a prefix of the path of any other with the same bindings.
  lemma {:induction false} PathBelow(t: Trie, u: Trie)
    requires Canonical(t) && Canonical(u) && (t.Ext? || t.Branch?) && (u.Ext? || u.Branch?)
    requires Wf(t) && Wf(u) && SameBindings(t, u)
    ensures PathOf(t) <= PathOf(u)
  {
    var x, y;
    if u.Ext? {
      x, y := SpreadExt(u);
    } else {
      x, y := Spread(u);
      assert [] + x == x && [] + y == y;
    }
    var p := PathOf(u);
    assert Get(t, p + x) == Get(u, p + x) && Get(t, p + y) == Get(u, p + y);
    CommonStart(PathOf(t), p, x, y);
  }
}
