/// The trie over its store: GenericTrieDB's insert, remove and at (libdevcore/TrieDB.h), runs of
/// them, and the store of libdevcore/MemoryDB.cpp underneath.
module TrieDB {
  import opened Bytes
  import opened HexPrefix
  import opened Options
  import opened Rlp
  import opened Sequences
  import opened TrieDefinition
  import TrieHash
  import opened TrieInsert
  import opened TrieMap
  import opened TrieNode
  import opened TrieRemove
  import opened TrieShape

  // ------------------------------------------------------------------- the store

  /// MemoryDB without enforced reference counts: a byte string and a count under each hash.
  class MemoryDB {
    var main: map<Hash, (bytes, nat)>
    ghost var log: Store

    /// The map answers every lookup as the log of all insertions does.
    ghost predicate Valid()
      reads this
    {
      forall h: Hash :: match Lookup(log, h) {
        case None => h !in main
        case Some(x) => h in main && main[h].0 == Encode(x)
      }
    }

    constructor ()
      ensures Valid() && log == []
    {
      main, log := map[], [];
    }

    method Insert(h: Hash, v: bytes, ghost x: Item)
      requires Valid() && v == Encode(x) && h == NodeHash(x)
      modifies this
      ensures Valid() && log == old(log) + [x]
      ensures main == old(main)[h := (v, if h in old(main) then old(main)[h].1 + 1 else 1)]
    {
      if h in main {
        main := main[h := (v, main[h].1 + 1)];
      } else {
        main := main[h := (v, 1)];
      }
      ghost var was := log;
      log := log + [x];
      assert log[..|log| - 1] == was;
    }

    /// kill: lowers the count, and no lookup ever notices.
    method Kill(h: Hash) returns (done: bool)
      requires Valid()
      modifies this
      ensures Valid() && log == old(log) && main.Keys == old(main).Keys
      ensures done <==> h in old(main) && old(main)[h].1 > 0
      ensures done ==> main[h] == (old(main)[h].0, old(main)[h].1 - 1)
      ensures forall g <- main :: main[g].0 == old(main)[g].0 && (g != h || !done ==> main[g].1 == old(main)[g].1)
    {
      if h in main && main[h].1 > 0 {
        main := main[h := (main[h].0, main[h].1 - 1)];
        return true;
      }
      return false;
    }

    /// lookup: the empty string if there is nothing under the hash.
    method LookUp(h: Hash) returns (s: bytes)
      requires Valid()
      ensures s == match Lookup(log, h) { case None => [] case Some(x) => Encode(x) }
    {
      s := if h in main then main[h].0 else [];
    }
  }

  // ------------------------------------------------------------ single operations

  datatype Op = Put(key: bytes, value: bytes) | Erase(key: bytes)

  datatype State = State(root: Hash, db: Store)

  /// init(): the empty node is inserted whatever its size.
  const INIT: State := State(NodeHash(Data([])), [Data([])])

  function ReadAt(root: Hash, db: Store, key: bytes): Outcome<bytes> {
    match Lookup(db, root)
    case None => Done([])
    case Some(n) => At(n, Unpack(key), db)
  }

  /// insert and remove: the root is looked up, changed, and inserted again by its hash.
  function Step(s: State, op: Op): Outcome<State> {
    match Lookup(s.db, s.root)
    case None => Corrupt
    case Some(r) =>
      match op
      case Put(key, value) =>
        (match MergeAt(r, Unpack(key), value, s.db)
         case Corrupt => Corrupt
         case Done(n) => Done(State(NodeHash(n.item), n.db + [n.item])))
      case Erase(key) =>
        (match DeleteAt(r, Unpack(key), s.db)
         case Corrupt => Corrupt
         case Done(None) => Done(s)
         case Done(Some(n)) => Done(State(NodeHash(n.item), n.db + [n.item])))
  }

  /// The operations the trie is for: no empty values, and removal only among keys of one length.
  predicate Allowed(t: Trie, op: Op) {
    match op
    case Put(_, value) => value != []
    case Erase(key) => KeysLen(t, 2 * |key|)
  }

  function TreeStep(t: Trie, op: Op): (u: Trie)
    requires Wf(t) && Canonical(t) && Allowed(t, op)
    ensures Wf(u)
  {
    match op
    case Put(key, value) => Ins(t, Unpack(key), value)
    case Erase(key) => AfterDel(t, Unpack(key))
  }

  /// What one operation writes to the store.
  function StepWrites(t: Trie, op: Op): Store
    requires Wf(t) && Canonical(t) && Allowed(t, op)
  {
    match op
    case Put(key, value) => InsWrites(t, Unpack(key), value) + [NodeItem(Ins(t, Unpack(key), value))]
    case Erase(key) =>
      match Del(t, Unpack(key))
      case None => []
      case Some(u) => DelWrites(t, Unpack(key)) + [NodeItem(u)]
  }

  function MapStep(m: Contents, op: Op): Contents {
    match op
    case Put(key, value) => m[key := value]
    case Erase(key) => m - {key}
  }

  /// The state holds the trie, and the trie holds the map.
  ghost predicate Represents(s: State, t: Trie, m: Contents) {
    && Canonical(t) && Binds(t, m) && NoEmptyValues(m)
    && s.root == NodeHash(NodeItem(t))
    && NodeItem(t) in s.db && Stored(t, s.db)
  }

  lemma InitRepresents()
    ensures Represents(INIT, Empty, map[])
  {
  }

  lemma RootFound(s: State, t: Trie)
    requires s.root == NodeHash(NodeItem(t)) && NodeItem(t) in s.db && CollisionFree(s.db)
    ensures Lookup(s.db, s.root) == Some(NodeItem(t))
  {
  }

  /// at() returns what the map binds, and nothing for a key the map lacks.
  lemma ReadAtIsMap(s: State, t: Trie, m: Contents, key: bytes)
    requires Represents(s, t, m) && CollisionFree(s.db)
    ensures ReadAt(s.root, s.db, key) == Done(if key in m then m[key] else [])
  {
    RootFound(s, t);
    AtIsGet(t, Unpack(key), s.db);
    PathOfKey(Unpack(key), key);
  }

  /// Whatever is written later, a root still answers as it did.
  lemma EarlierRootAnswers(s: State, t: Trie, m: Contents, more: Store, key: bytes)
    requires Represents(s, t, m) && CollisionFree(s.db + more)
    ensures ReadAt(s.root, s.db + more, key) == Done(if key in m then m[key] else [])
  {
    StoredMore(t, s.db, more);
    ReadAtIsMap(State(s.root, s.db + more), t, m, key);
  }

  /// One insertion or removal: the state goes on to hold the canonical trie of the changed map.
  lemma StepFollows(s: State, t: Trie, m: Contents, op: Op)
    requires Represents(s, t, m) && Allowed(t, op) && CollisionFree(s.db + StepWrites(t, op))
    ensures var u := TreeStep(t, op);
            && Step(s, op) == Done(State(NodeHash(NodeItem(u)), s.db + StepWrites(t, op)))
            && Represents(Step(s, op).value, u, MapStep(m, op))
  {
    CollisionFreeSub(s.db, StepWrites(t, op));
    RootFound(s, t);
    match op
    case Put(key, value) => PutFollows(s, t, m, key, value);
    case Erase(key) => EraseFollows(s, t, m, key);
  }

  lemma PutFollows(s: State, t: Trie, m: Contents, key: bytes, value: bytes)
    requires Represents(s, t, m) && value != []
    requires Lookup(s.db, s.root) == Some(NodeItem(t))
    requires CollisionFree(s.db + StepWrites(t, Put(key, value)))
    ensures var u, op := Ins(t, Unpack(key), value), Put(key, value);
            && Step(s, op) == Done(State(NodeHash(NodeItem(u)), s.db + StepWrites(t, op)))
            && Represents(Step(s, op).value, u, m[key := value])
  {
    var k := Unpack(key);
    var w, u := InsWrites(t, k, value), Ins(t, k, value);
    assert s.db + (w + [NodeItem(u)]) == (s.db + w) + [NodeItem(u)];
    CollisionFreeSub(s.db + w, [NodeItem(u)]);
    MergeAtFollows(t, k, value, s.db);
    StoredMore(u, s.db + w, [NodeItem(u)]);
    InsCanonical(t, k, value);
    InsBinds(t, m, key, value);
  }

  lemma EraseFollows(s: State, t: Trie, m: Contents, key: bytes)
    requires Represents(s, t, m) && KeysLen(t, 2 * |key|)
    requires Lookup(s.db, s.root) == Some(NodeItem(t))
    requires CollisionFree(s.db + StepWrites(t, Erase(key)))
    ensures var u, op := AfterDel(t, Unpack(key)), Erase(key);
            && Step(s, op) == Done(State(NodeHash(NodeItem(u)), s.db + StepWrites(t, op)))
            && Represents(Step(s, op).value, u, m - {key})
  {
    var k := Unpack(key);
    DelBinds(t, m, key);
    match Del(t, k)
    case None =>
      DelNoneWrites(t, k);
      DeleteAtFollows(t, k, s.db);
      ErasedNone(s, t, key);
    case Some(u) =>
      var w := DelWrites(t, k);
      PlusAssoc(s.db, w, [NodeItem(u)]);
      CollisionFreeSub(s.db + w, [NodeItem(u)]);
      DeleteAtFollows(t, k, s.db);
      StoredMore(u, s.db + w, [NodeItem(u)]);
      DelCanonical(t, k);
      hide DeleteAt, Del, DelWrites, NodeItem, Unpack, Stored, CollisionFree, Canonical, KeysLen;
  }

  lemma ErasedNone(s: State, t: Trie, key: bytes)
    requires Wf(t) && Canonical(t) && KeysLen(t, |Unpack(key)|) && KeysLen(t, 2 * |key|)
    requires Del(t, Unpack(key)) == None && DelWrites(t, Unpack(key)) == []
    requires Lookup(s.db, s.root) == Some(NodeItem(t))
    requires DeleteAt(NodeItem(t), Unpack(key), s.db) == Outgoing(Del(t, Unpack(key)), s.db + [])
    ensures Step(s, Erase(key)) == Done(s) && StepWrites(t, Erase(key)) == [] && s.db + [] == s.db
  {
    hide DeleteAt, Del, NodeItem, Unpack;
    assert s.db + [] == s.db;
  }

  // ------------------------------------------------------------------ whole runs

  /// A run of operations that respects the limits: either there are no removals, or every key
  /// has n bytes.
  predicate RunAllowed(ops: seq<Op>, n: nat) {
    && (forall op <- ops :: op.Put? ==> op.value != [])
    && ((forall op <- ops :: op.Put?) || (forall op <- ops :: |op.key| == n))
  }

  function RunMap(ops: seq<Op>): Contents {
    if ops == [] then map[] else MapStep(RunMap(ops[..|ops| - 1]), ops[|ops| - 1])
  }

  function Run(ops: seq<Op>): Outcome<State> {
    if ops == [] then Done(INIT)
    else match Run(ops[..|ops| - 1]) {
      case Corrupt => Corrupt
      case Done(s) => Step(s, ops[|ops| - 1])
    }
  }

  /// The trie a run leads to.
  function RunTree(ops: seq<Op>, n: nat): (t: Trie)
    requires RunAllowed(ops, n)
    ensures Wf(t) && Canonical(t)
    ensures (forall op <- ops :: |op.key| == n) ==> KeysLen(t, 2 * n)
  {
    if ops == [] then Empty
    else
      var t := RunTree(ops[..|ops| - 1], n);
      var op := ops[|ops| - 1];
      StepKeeps(t, op, n, forall op <- ops :: |op.key| == n);
      TreeStep(t, op)
  }

  lemma StepKeeps(t: Trie, op: Op, n: nat, fixed: bool)
    requires Wf(t) && Canonical(t) && (op.Put? ==> op.value != []) && (op.Put? || fixed)
    requires fixed ==> |op.key| == n && KeysLen(t, 2 * n)
    ensures Allowed(t, op) && Canonical(TreeStep(t, op))
    ensures fixed ==> KeysLen(TreeStep(t, op), 2 * n)
  {
    match op
    case Put(key, value) =>
      InsCanonical(t, Unpack(key), value);
      if fixed {
        InsKeysLen(t, Unpack(key), value);
      }
    case Erase(key) => DelCanonical(t, Unpack(key));
  }

  /// Everything a run writes to the store.
  function RunWrites(ops: seq<Op>, n: nat): Store
    requires RunAllowed(ops, n)
  {
    if ops == [] then [Data([])]
    else
      StepKeeps(RunTree(ops[..|ops| - 1], n), ops[|ops| - 1], n, forall op <- ops :: |op.key| == n);
      RunWrites(ops[..|ops| - 1], n) + StepWrites(RunTree(ops[..|ops| - 1], n), ops[|ops| - 1])
  }

  /// Every run of insertions and removals ends in a state that holds the canonical trie of the
  /// run's map, and has written exactly RunWrites.
  lemma {:induction false} RunFollows(ops: seq<Op>, n: nat)
    requires RunAllowed(ops, n) && CollisionFree(RunWrites(ops, n))
    ensures var t := RunTree(ops, n);
            && Run(ops) == Done(State(NodeHash(NodeItem(t)), RunWrites(ops, n)))
            && Represents(Run(ops).value, t, RunMap(ops))
  {
    if ops == [] {
      InitRepresents();
    } else {
      var before, op := ops[..|ops| - 1], ops[|ops| - 1];
      StepKeeps(RunTree(before, n), op, n, forall op <- ops :: |op.key| == n);
      CollisionFreeSub(RunWrites(before, n), StepWrites(RunTree(before, n), op));
      RunFollows(before, n);
      StepFollows(Run(before).value, RunTree(before, n), RunMap(before), op);
    }
  }

  /// Two runs with the same resulting map end with the same root, whatever their histories;
  /// and the root node is the one rlp256 writes for that map (see TrieHash.Rlp256).
  lemma {:induction false} RootForgetsHistory(ops: seq<Op>, more: seq<Op>, n: nat, n': nat)
    requires RunAllowed(ops, n) && CollisionFree(RunWrites(ops, n))
    requires RunAllowed(more, n') && CollisionFree(RunWrites(more, n'))
    requires RunMap(ops) == RunMap(more)
    ensures Run(ops).Done? && Run(more).Done? && Run(ops).value.root == Run(more).value.root
    ensures RunTree(ops, n) == RunTree(more, n')
  {
    RunFollows(ops, n);
    RunFollows(more, n');
    SameMapSameTrie(RunTree(ops, n), RunTree(more, n'), RunMap(ops));
  }

  /// The root after a run is the hash of the node that Appendix D defines for the run's map.
  lemma {:induction false} RunRootIsDefined(ops: seq<Op>, n: nat, longest: nat)
    requires RunAllowed(ops, n) && CollisionFree(RunWrites(ops, n))
    requires NoLonger(PathsOf(RunMap(ops)), longest)
    ensures Run(ops).Done? && Run(ops).value.root == Sha3(Encode(RootNode(PathsOf(RunMap(ops)), longest)))
  {
    RunFollows(ops, n);
    RootIsDefined(RunTree(ops, n), RunMap(ops), longest);
  }

  /// Without any operation it is the hash of the one byte 0x80.
  lemma EmptyRoot()
    ensures Run([]) == Done(State(Sha3([0x80]), [Data([])]))
  {
    assert Encode(Data([])) == [0x80];
  }

  // ------------------------------------------------------------------- the class

  class GenericTrieDB {
    var root: Hash
    var db: Store
    ghost var trie: Trie
    ghost var contents: Contents

    ghost predicate Valid()
      reads this
    {
      Represents(State(root, db), trie, contents) && CollisionFree(db)
    }

    constructor ()
      ensures Valid() && contents == map[]
    {
      InitRepresents();
      root, db, trie, contents := INIT.root, INIT.db, Empty, map[];
    }

    method At(key: bytes) returns (value: Outcome<bytes>)
      requires Valid()
      ensures value == Done(if key in contents then contents[key] else [])
    {
      ReadAtIsMap(State(root, db), trie, contents, key);
      value := ReadAt(root, db, key);
    }

    method Insert(key: bytes, value: bytes) returns (ok: bool)
      requires Valid() && value != []
      requires CollisionFree(db + StepWrites(trie, Put(key, value)))
      modifies this
      ensures ok && Valid() && contents == old(contents)[key := value] && old(db) <= db
    {
      ghost var op := Put(key, value);
      StepFollows(State(root, db), trie, contents, op);
      match Lookup(db, root) {
        case None => ok := false;
        case Some(rootValue) =>
          match MergeAt(rootValue, Unpack(key), value, db) {
            case Corrupt => ok := false;
            case Done(n) =>
              ok, root, db := true, NodeHash(n.item), n.db + [n.item];
              trie, contents := TreeStep(trie, op), contents[key := value];
          }
      }
    }

    method Remove(key: bytes) returns (ok: bool)
      requires Valid() && KeysLen(trie, 2 * |key|)
      requires CollisionFree(db + StepWrites(trie, Erase(key)))
      modifies this
      ensures ok && Valid() && contents == old(contents) - {key} && old(db) <= db
    {
      ghost var op := Erase(key);
      StepFollows(State(root, db), trie, contents, op);
      match Lookup(db, root) {
        case None => ok := false;
        case Some(rv) =>
          match DeleteAt(rv, Unpack(key), db) {
            case Corrupt => ok := false;
            case Done(None) => ok := true;
            case Done(Some(n)) => ok, root, db := true, NodeHash(n.item), n.db + [n.item];
          }
      }
      trie, contents := TreeStep(trie, op), contents - {key};
    }

    /// The stored root node is byte for byte what the one-shot builder writes for the contents.
    method RootNodeIsOneShot(m: Contents) returns (stored: bytes, oneShot: bytes)
      requires Valid() && m == contents
      requires forall k <- m :: |k| < 0x7fff_ffff && |m[k]| < 0x4000_0000_0000_0000
      ensures stored == oneShot && root == Sha3(oneShot)
      ensures forall n: nat :: NoLonger(PathsOf(m), n) ==> oneShot == Encode(RootNode(PathsOf(m), n))
    {
      RootFound(State(root, db), trie);
      oneShot := TrieHash.Rlp256(m);
      stored := Encode(Lookup(db, root).value);
    }
  }
}
