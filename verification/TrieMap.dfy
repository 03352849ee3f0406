/// What a trie means: a map from byte keys to values that are not empty.
module TrieMap {
  import opened Bytes
  import opened HexPrefix
  import opened Options
  import opened TrieInsert
  import opened TrieRemove
  import opened TrieShape

  type Contents = map<bytes, bytes>

  /// The value a map gives a path: paths of odd length spell no key.
  function Bound(m: Contents, j: Nibbles): bytes {
    if |j| % 2 == 0 && Pack(j) in m then m[Pack(j)] else []
  }

  ghost predicate Binds(t: Trie, m: Contents) {
    Wf(t) && forall j :: Get(t, j) == Bound(m, j)
  }

  predicate NoEmptyValues(m: Contents) {
    forall k <- m :: m[k] != []
  }

  /// A path and the key it spells.
  lemma {:induction false} PathOfKey(j: Nibbles, k: bytes)
    ensures |j| % 2 == 0 && Pack(j) == k <==> j == Unpack(k)
  {
    PackUnpack(k);
    if |j| % 2 == 0 {
      UnpackPack(j);
    }
  }

  lemma {:induction false} BoundUpdate(m: Contents, k: bytes, v: bytes, j: Nibbles)
    ensures Bound(m[k := v], j) == if j == Unpack(k) then v else Bound(m, j)
    ensures Bound(m - {k}, j) == if j == Unpack(k) then [] else Bound(m, j)
  {
    PathOfKey(j, k);
  }

  /// Canonical tries are determined by the maps they stand for, so no history shows in them.
  lemma {:induction false} SameMapSameTrie(t: Trie, u: Trie, m: Contents)
    requires Canonical(t) && Canonical(u) && Binds(t, m) && Binds(u, m)
    ensures t == u
  {
    CanonicalUnique(t, u);
  }

  lemma {:induction false} InsBinds(t: Trie, m: Contents, k: bytes, v: bytes)
    requires Binds(t, m) && v != []
    ensures Binds(Ins(t, Unpack(k), v), m[k := v])
  {
    forall j ensures Get(Ins(t, Unpack(k), v), j) == Bound(m[k := v], j) {
      InsGet(t, Unpack(k), v, j);
      BoundUpdate(m, k, v, j);
    }
  }

  lemma {:induction false} DelBinds(t: Trie, m: Contents, k: bytes)
    requires Canonical(t) && Binds(t, m) && KeysLen(t, |Unpack(k)|) && NoEmptyValues(m)
    ensures Del(t, Unpack(k)) == None <==> k !in m
    ensures Binds(AfterDel(t, Unpack(k)), m - {k})
  {
    PathOfKey(Unpack(k), k);
    DelGet(t, Unpack(k), []);
    forall j ensures Get(AfterDel(t, Unpack(k)), j) == Bound(m - {k}, j) {
      DelGet(t, Unpack(k), j);
      BoundUpdate(m, k, [], j);
    }
  }

  /// The trie after a removal, found or not.
  function AfterDel(t: Trie, k: Nibbles): (u: Trie)
    requires Wf(t) && Canonical(t) && KeysLen(t, |k|)
    ensures Wf(u)
  {
    match Del(t, k) { case None => t case Some(u) => u }
  }
}
