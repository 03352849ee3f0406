/// The walk of the trie's iterator (libdevcore/TrieDB.h) on whole trees: the entries of a trie in
/// order, a stack of half-visited trees, and one turn of the loop as a function on it.
module TrieWalk {
  import opened Bytes
  import opened HexPrefix
  import opened Sequences
  import opened TrieHash
  import opened TrieShape

  const ENTERING: nat := 255
  const AT_VALUE: nat := 16
  const EXITING: nat := 17

  // ------------------------------------------------------- the entries of a trie

  /// The entries below a trie that hangs under path p, the value of a branch before its children.
  function Entries(t: Trie, p: Nibbles): seq<Entry>
    requires Wf(t)
    decreases t, 17
  {
    match t
    case Empty => []
    case Leaf(key, value) => [(p + key, value)]
    case Ext(key, child) => Entries(child, p + key)
    case Branch(children, value) => ValueEntry(value, p) + EntriesFrom(t, p, 0)
  }

  function ValueEntry(value: bytes, p: Nibbles): seq<Entry> {
    if value == [] then [] else [(p, value)]
  }

  function EntriesFrom(t: Trie, p: Nibbles, i: nat): seq<Entry>
    requires t.Branch? && Wf(t) && i <= 16
    decreases t, 16 - i
  {
    if i == 16 then [] else
      var n: nibble := i;
      Entries(t.children[i], p + [n]) + EntriesFrom(t, p, i + 1)
  }

  predicate Ascending(es: seq<Entry>) {
    forall i, j :: 0 <= i < j < |es| ==> Less(es[i].0, es[j].0)
  }

  lemma {:induction false} LessUnder(p: Nibbles, x: Nibbles, y: Nibbles)
    ensures Less(p + x, p + y) <==> Less(x, y)
  {
    if p == [] {
      assert p + x == x && p + y == y;
    } else {
      assert (p + x)[1..] == p[1..] + x && (p + y)[1..] == p[1..] + y;
      LessUnder(p[1..], x, y);
    }
  }

  /// Every entry is a binding of the trie under its path, and has a value.
  lemma {:induction false} EntryBinds(t: Trie, p: Nibbles, i: nat)
    requires Wf(t) && i < |Entries(t, p)|
    ensures var e := Entries(t, p)[i]; p <= e.0 && e.1 != [] && Get(t, e.0[|p|..]) == e.1
    decreases t, 17
  {
    match t
    case Leaf(key, value) => assert (p + key)[|p|..] == key;
    case Ext(key, child) =>
      EntryBinds(child, p + key, i);
      PrefixAppend(p, key, Entries(t, p)[i].0);
    case Branch(_, value) =>
      var n := |ValueEntry(value, p)|;
      if i < n {
        assert p[|p|..] == [];
      } else {
        EntryFromBinds(t, p, 0, i - n);
      }
  }

  lemma {:induction false} EntryFromBinds(t: Trie, p: Nibbles, c: nat, i: nat)
    requires t.Branch? && Wf(t) && c <= 16 && i < |EntriesFrom(t, p, c)|
    ensures var e := EntriesFrom(t, p, c)[i];
            p <= e.0 && |e.0| > |p| && e.0[|p|] >= c && e.1 != [] && Get(t, e.0[|p|..]) == e.1
    decreases t, 16 - c
  {
    var n: nibble := c;
    var first := Entries(t.children[c], p + [n]);
    if i < |first| {
      EntryBinds(t.children[c], p + [n], i);
      var e := first[i].0;
      assert e == (p + [n]) + e[|p| + 1..];
      assert e[|p|..][0] == n && e[|p|..][1..] == e[|p| + 1..];
    } else {
      EntryFromBinds(t, p, c + 1, i - |first|);
    }
  }

  /// Every binding is an entry.
  lemma {:induction false} BindingListed(t: Trie, p: Nibbles, k: Nibbles)
    requires Wf(t) && Get(t, k) != []
    ensures (p + k, Get(t, k)) in Entries(t, p)
    decreases t, 17
  {
    match t
    case Leaf(_, _) =>
    case Ext(key, child) =>
      BindingListed(child, p + key, k[|key|..]);
      assert p + key + k[|key|..] == p + k;
    case Branch(children, value) =>
      if k == [] {
        assert p + k == p && (p, value) in ValueEntry(value, p);
      } else {
        BindingListedFrom(t, p, k, 0);
      }
  }

  lemma {:induction false} BindingListedFrom(t: Trie, p: Nibbles, k: Nibbles, c: nat)
    requires t.Branch? && Wf(t) && k != [] && Get(t, k) != [] && c <= k[0]
    ensures (p + k, Get(t, k)) in EntriesFrom(t, p, c)
    decreases t, 16 - c
  {
    if c == k[0] {
      BindingListed(t.children[c], p + [k[0]], k[1..]);
      assert p + [k[0]] + k[1..] == p + k;
    } else {
      BindingListedFrom(t, p, k, c + 1);
    }
  }

  /// The entries come in strictly ascending order of their keys, so each key comes once.
  lemma {:induction false} EntriesAscend(t: Trie, p: Nibbles)
    requires Wf(t)
    ensures Ascending(Entries(t, p))
    decreases t, 17
  {
    match t
    case Empty =>
    case Leaf(_, _) =>
    case Ext(key, child) => EntriesAscend(child, p + key);
    case Branch(_, value) =>
      EntriesFromAscend(t, p, 0);
      if value != [] {
        forall j | 0 <= j < |EntriesFrom(t, p, 0)| ensures Less(p, EntriesFrom(t, p, 0)[j].0) {
          EntryFromBinds(t, p, 0, j);
          ProperPrefixLess(p, EntriesFrom(t, p, 0)[j].0);
        }
      }
  }

  lemma {:induction false} ProperPrefixLess(p: Nibbles, q: Nibbles)
    requires p <= q && |p| < |q|
    ensures Less(p, q) && !Less(q, p)
  {
    assert p + [] == p && p + q[|p|..] == q;
    LessUnder(p, [], q[|p|..]);
    LessUnder(p, q[|p|..], []);
  }

  lemma {:induction false} EntriesFromAscend(t: Trie, p: Nibbles, c: nat)
    requires t.Branch? && Wf(t) && c <= 16
    ensures Ascending(EntriesFrom(t, p, c))
    decreases t, 16 - c
  {
    if c < 16 {
      var n: nibble := c;
      var a, b := Entries(t.children[c], p + [n]), EntriesFrom(t, p, c + 1);
      EntriesAscend(t.children[c], p + [n]);
      EntriesFromAscend(t, p, c + 1);
      forall i, j | 0 <= i < |a| && 0 <= j < |b| ensures Less(a[i].0, b[j].0) {
        EntryBinds(t.children[c], p + [n], i);
        EntryFromBinds(t, p, c + 1, j);
        BranchOff(p, n, a[i].0, b[j].0);
      }
    }
  }

  /// A path through nibble n of a branch comes before one through a higher nibble.
  lemma {:induction false} BranchOff(p: Nibbles, n: nibble, x: Nibbles, y: Nibbles)
    requires p + [n] <= x && p <= y && |y| > |p| && y[|p|] > n
    ensures Less(x, y) && !Less(y, x)
  {
    assert x[|p|] == (p + [n])[|p|] == n;
    assert x == p + x[|p|..] && y == p + y[|p|..];
    LessUnder(p, x[|p|..], y[|p|..]);
    LessUnder(p, y[|p|..], x[|p|..]);
  }

  // ----------------------------------------------------------- what is still to come

  /// A node on the stack: its tree, the path to it, and which child is being visited.
  datatype Stop = Stop(t: Trie, p: Nibbles, child: nat) {
    predicate Ok() {
      && Wf(t)
      && match t
         case Empty => child == ENTERING
         case Leaf(_, _) => child == ENTERING || child == 0
         case Ext(_, _) => child == ENTERING
         case Branch(_, _) => child == ENTERING || child <= AT_VALUE
    }

    /// The entries this node still owes.
    function Rest(): seq<Entry>
      requires Ok()
    {
      if child == ENTERING then Entries(t, p)
      else if !t.Branch? then []
      else EntriesFrom(t, p, if child == AT_VALUE then 0 else child + 1)
    }

    /// A bound on the turns the loop still spends on this node.
    function Work(): nat
      requires Ok()
    {
      if child == ENTERING then TrieWork(t)
      else if !t.Branch? then 1
      else 1 + WorkFrom(t, if child == AT_VALUE then 0 else child + 1)
    }
  }

  function TrieWork(t: Trie): nat
    requires Wf(t)
    decreases t, 17
  {
    match t
    case Empty => 1
    case Leaf(_, _) => 2
    case Ext(_, child) => 1 + TrieWork(child)
    case Branch(_, _) => 2 + WorkFrom(t, 0)
  }

  function WorkFrom(t: Trie, i: nat): nat
    requires t.Branch? && Wf(t) && i <= 16
    decreases t, 16 - i
  {
    if i == 16 then 0 else 1 + TrieWork(t.children[i]) + WorkFrom(t, i + 1)
  }

  predicate AllOk(stops: seq<Stop>) {
    forall s <- stops :: s.Ok()
  }

  /// The entries the whole stack still owes, the top first.
  function Rest(stops: seq<Stop>): seq<Entry>
    requires AllOk(stops)
  {
    if stops == [] then [] else stops[|stops| - 1].Rest() + Rest(stops[..|stops| - 1])
  }

  function Work(stops: seq<Stop>): nat
    requires AllOk(stops)
  {
    if stops == [] then 0 else stops[|stops| - 1].Work() + Work(stops[..|stops| - 1])
  }

  /// The children are visited as 16, 0, 1, ..., 15, 17.
  function NextChild(child: nat): nat {
    if child == AT_VALUE then 0 else if child == 15 then EXITING else child + 1
  }

  /// The first slot in use from one on, in visiting order.
  function Seek(t: Trie, child: nat): (c: nat)
    requires t.Branch? && |t.children| == 16 && child <= EXITING
    ensures c <= EXITING && (c < EXITING ==> InUse(t, c))
    decreases if child == AT_VALUE then 17 else 16 - child
  {
    if child == EXITING || InUse(t, child) then child
    else Seek(t, NextChild(child))
  }

  /// What a branch owes from a slot on, in visiting order.
  function SlotEntries(t: Trie, p: Nibbles, child: nat): seq<Entry>
    requires t.Branch? && Wf(t) && child <= EXITING
  {
    if child == AT_VALUE then Entries(t, p) else if child == EXITING then [] else EntriesFrom(t, p, child)
  }

  function SlotWork(t: Trie, child: nat): nat
    requires t.Branch? && Wf(t) && child <= EXITING
  {
    if child == AT_VALUE then 1 + WorkFrom(t, 0) else if child == EXITING then 0 else WorkFrom(t, child)
  }

  /// Passing over empty slots loses no entry and makes no work.
  lemma {:induction false} SeekSkips(t: Trie, p: Nibbles, child: nat)
    requires t.Branch? && Wf(t) && child <= EXITING
    ensures SlotEntries(t, p, Seek(t, child)) == SlotEntries(t, p, child)
    ensures SlotWork(t, Seek(t, child)) <= SlotWork(t, child)
    decreases if child == AT_VALUE then 17 else 16 - child
  {
    if child != EXITING && !InUse(t, child) {
      SeekSkips(t, p, NextChild(child));
      if child == AT_VALUE {
        assert [] + EntriesFrom(t, p, 0) == EntriesFrom(t, p, 0);
      } else {
        var n: nibble := child;
        assert [] + EntriesFrom(t, p, child + 1) == EntriesFrom(t, p, child + 1);
        assert Entries(t.children[child], p + [n]) == [];
      }
    }
  }

  /// The entries of a branch before slot n, from slot c on, and how they compare.
  lemma {:induction false} BeforeSlot(t: Trie, p: Nibbles, c: nat, n: nibble) returns (pre: seq<Entry>)
    requires t.Branch? && Wf(t) && c <= n
    ensures EntriesFrom(t, p, c) == pre + EntriesFrom(t, p, n)
    ensures forall e <- pre :: p <= e.0 && |e.0| > |p| && e.0[|p|] < n
    decreases n - c
  {
    if c == n {
      pre := [];
    } else {
      var m: nibble := c;
      var first := Entries(t.children[c], p + [m]);
      var rest := BeforeSlot(t, p, c + 1, n);
      pre := first + rest;
      PlusAssoc(first, rest, EntriesFrom(t, p, n));
      forall e | e in first ensures p <= e.0 && |e.0| > |p| && e.0[|p|] < n {
        UnderSlot(t, p, c, e);
      }
      hide Entries;
    }
  }

  lemma {:induction false} UnderSlot(t: Trie, p: Nibbles, c: nibble, e: Entry)
    requires t.Branch? && Wf(t) && e in Entries(t.children[c], p + [c])
    ensures p <= e.0 && |e.0| > |p| && e.0[|p|] == c
  {
    var first := Entries(t.children[c], p + [c]);
    var i :| 0 <= i < |first| && first[i] == e;
    EntryBinds(t.children[c], p + [c], i);
    assert e.0[|p|] == (p + [c])[|p|];
  }

  predicate AllBelow(es: seq<Entry>, key: Nibbles) {
    forall e <- es :: Less(e.0, key)
  }

  predicate NoneBelow(es: seq<Entry>, key: Nibbles) {
    forall e <- es :: !Less(e.0, key)
  }

  lemma {:induction false} NoneBelowPlus(a: seq<Entry>, b: seq<Entry>, key: Nibbles)
    ensures NoneBelow(a + b, key) <==> NoneBelow(a, key) && NoneBelow(b, key)
  {
    if NoneBelow(a + b, key) {
      forall e | e in a || e in b ensures !Less(e.0, key) {
        assert e in a + b;
      }
    }
  }

  /// Entering a branch with the key p + [n] + rest: what lies before slot n is below the key,
  /// what lies after it is not.
  lemma {:induction false} EnterBranch(t: Trie, p: Nibbles, n: nibble, rest: Nibbles, key: Nibbles)
      returns (pre: seq<Entry>)
    requires t.Branch? && Wf(t) && key == p + ([n] + rest)
    ensures Entries(t, p) == pre + EntriesFrom(t, p, n)
    ensures AllBelow(pre, key) && NoneBelow(EntriesFrom(t, p, n + 1), key)
  {
    hide EntriesFrom, Less;
    assert key == (p + [n]) + rest && p + [n] <= key && p <= key && key[|p|] == n;
    var pre0 := BeforeSlot(t, p, 0, n);
    pre := ValueEntry(t.value, p) + pre0;
    PlusAssoc(ValueEntry(t.value, p), pre0, EntriesFrom(t, p, n));
    forall e | e in pre ensures Less(e.0, key) {
      if e in pre0 {
        assert e.0 == (p + [e.0[|p|]]) + e.0[|p| + 1..];
        BranchOff(p, e.0[|p|], e.0, key);
      } else {
        ProperPrefixLess(p, key);
      }
    }
    AfterSlot(t, p, n, key);
  }

  lemma {:induction false} AfterSlot(t: Trie, p: Nibbles, n: nibble, key: Nibbles)
    requires t.Branch? && Wf(t) && p + [n] <= key
    ensures NoneBelow(EntriesFrom(t, p, n + 1), key)
  {
    var after := EntriesFrom(t, p, n + 1);
    forall e | e in after ensures !Less(e.0, key) {
      var i :| 0 <= i < |after| && after[i] == e;
      EntryFromBinds(t, p, n + 1, i);
      BranchOff(p, n, key, e.0);
    }
  }

  /// A key k below path p against everything below p + q, where k does not go through q.
  lemma {:induction false} PairOrder(t: Trie, p: Nibbles, q: Nibbles, k: Nibbles, key: Nibbles)
    requires Wf(t) && key == p + k && !(q <= k)
    ensures Less(k, q) ==> NoneBelow(Entries(t, p + q), key)
    ensures !Less(k, q) ==> AllBelow(Entries(t, p + q), key)
  {
    var es := Entries(t, p + q);
    forall e | e in es ensures Less(k, q) ==> !Less(e.0, key) ensures !Less(k, q) ==> Less(e.0, key) {
      var i :| 0 <= i < |es| && es[i] == e;
      EntryBinds(t, p + q, i);
      var x := e.0[|p + q|..];
      assert e.0 == p + (q + x);
      LessUnder(p, q + x, k);
      ForkOrder(q, k, x);
    }
  }

  /// Where a path parts from a key, everything below the path is on the same side of the key.
  lemma {:induction false} ForkOrder(q: Nibbles, k: Nibbles, x: Nibbles)
    requires !(q <= k)
    ensures Less(k, q) <==> !Less(q + x, k)
  {
    if k != [] && q[0] == k[0] {
      assert (q + x)[1..] == q[1..] + x;
      assert q == [q[0]] + q[1..] && k == [k[0]] + k[1..];
      ForkOrder(q[1..], k[1..], x);
    }
  }

  // ------------------------------------------------------------ order, once more

  /// No entry under a path is below the path itself.
  lemma {:induction false} NoneBelowPath(t: Trie, p: Nibbles)
    requires Wf(t)
    ensures NoneBelow(Entries(t, p), p)
  {
    var es := Entries(t, p);
    forall e | e in es ensures !Less(e.0, p) {
      var i :| 0 <= i < |es| && es[i] == e;
      EntryBinds(t, p, i);
      if |e.0| == |p| {
        assert e.0 == p;
        LessTotal(p, p);
      } else {
        ProperPrefixLess(p, e.0);
      }
    }
  }

  /// The three outcomes of comparing a key with the path of a leaf or an extension.
  lemma {:induction false} PairSides(t: Trie, p: Nibbles, k: Nibbles, key: Nibbles)
    requires (t.Leaf? || t.Ext?) && Wf(t) && key == p + k
    ensures !(t.key <= k) && Less(k, t.key) ==> NoneBelow(Entries(t, p), key)
    ensures !(t.key <= k) && !Less(k, t.key) ==> AllBelow(Entries(t, p), key)
    ensures t.key == k ==> NoneBelow(Entries(t, p), key)
    ensures t.key <= k && t.key != k && t.Leaf? ==> AllBelow(Entries(t, p), key)
    ensures t.key <= k ==> (p + t.key) + k[|t.key|..] == key
  {
    var q := t.key;
    var u := if t.Leaf? then Leaf([], t.value) else t.child;
    if t.Leaf? {
      assert p + q + [] == p + q;
    }
    assert Entries(u, p + q) == Entries(t, p);
    if q <= k {
      assert k == q + k[|q|..];
      assert key == (p + q) + k[|q|..];
      if q == k {
        NoneBelowPath(u, p + q);
      } else {
        ProperPrefixLess(p + q, key);
      }
    } else {
      PairOrder(u, p, q, k, key);
    }
  }

  function Above(es: seq<Entry>, key: Nibbles): seq<Entry> {
    if es != [] && Less(es[0].0, key) then Above(es[1..], key) else es
  }

  lemma {:induction false} AboveIs(pre: seq<Entry>, es: seq<Entry>, key: Nibbles)
    requires AllBelow(pre, key) && NoneBelow(es, key)
    ensures Above(pre + es, key) == es
  {
    if pre == [] {
      assert pre + es == es;
    } else {
      assert pre[0] in pre && (pre + es)[1..] == pre[1..] + es;
      AboveIs(pre[1..], es, key);
    }
  }

  function ChildStop(t: Trie, p: Nibbles, c: nat): Stop
    requires t.Branch? && |t.children| == 16 && c < 16
  {
    var n: nibble := c;
    Stop(t.children[c], p + [n], ENTERING)
  }

  /// A path and what is left of the key after it.
  function Joined(p: Nibbles, k: Nibbles): Nibbles {
    p + k
  }

  /// The rest k of the key is to be looked for below slot c, and nothing after that slot is below
  /// the key; without a rest, nothing from slot c on is.
  ghost predicate Ahead(t: Trie, p: Nibbles, c: nat, k: Nibbles, key: Nibbles)
    requires t.Branch? && Wf(t) && c <= EXITING && (|k| > 0 ==> c < 16)
  {
    if |k| == 0 then NoneBelow(SlotEntries(t, p, c), key)
    else var n: nibble := c; Joined(p + [n], k) == key && NoneBelow(EntriesFrom(t, p, c + 1), key)
  }

  /// The key is given up only where the slot it leads to is empty.
  lemma {:induction false} SkipKey(t: Trie, p: Nibbles, c0: nat, k0: Nibbles, key: Nibbles)
    requires t.Branch? && Wf(t) && c0 <= EXITING
    requires (|k0| > 0 ==> c0 < 16) && Ahead(t, p, c0, k0, key)
    ensures var c := Seek(t, c0);
            Ahead(t, p, c, if c == c0 && c != EXITING then k0 else [], key)
  {
    SeekSkips(t, p, c0);
    if |k0| > 0 && !InUse(t, c0) {
      var n: nibble := c0;
      assert Entries(t.children[c0], p + [n]) == [];
      assert SlotEntries(t, p, c0) == [] + EntriesFrom(t, p, c0 + 1);
    }
  }

  lemma SlotValue(t: Trie, p: Nibbles)
    requires t.Branch? && Wf(t)
    ensures t.value != [] ==> SlotEntries(t, p, AT_VALUE) == [(p, t.value)] + EntriesFrom(t, p, 0)
    ensures SlotEntries(t, p, EXITING) == [] && SlotWork(t, EXITING) == 0
    ensures |t.children| == 16
  {
  }

  // ------------------------------------------------------- one turn of the loop

  /// The key still to be looked for belongs to the node being entered; without one, nothing
  /// that is still to come lies below the key.
  ghost predicate Fits(stops: seq<Stop>, k: Nibbles, key: Nibbles)
    requires AllOk(stops)
  {
    if |k| == 0 then NoneBelow(Rest(stops), key)
    else
      && stops != [] && stops[|stops| - 1].child == ENTERING && Joined(stops[|stops| - 1].p, k) == key
      && NoneBelow(Rest(stops[..|stops| - 1]), key)
  }

  /// The walk stands on an entry: a leaf, or a branch at its value.
  predicate Standing(stops: seq<Stop>) {
    stops != [] &&
    var s := stops[|stops| - 1];
    (s.t.Leaf? && s.child == 0) || (s.t.Branch? && s.child == AT_VALUE && s.t.value != [])
  }

  function Here(stops: seq<Stop>): Entry
    requires Standing(stops)
  {
    (stops[|stops| - 1].p, stops[|stops| - 1].t.value)
  }

  /// The entries from the current one on, if the walk stands on one.
  function Owed(stops: seq<Stop>, standing: bool): seq<Entry>
    requires AllOk(stops) && (standing ==> Standing(stops))
  {
    if standing then [Here(stops)] + Rest(stops) else Rest(stops)
  }

  /// Where a turn ends: the stack, what is left of the key, and whether an entry was found.
  datatype Place = Place(stops: seq<Stop>, k: Nibbles, found: bool)

  function Leave(below: seq<Stop>): Place {
    Place(below, [], false)
  }

  /// On a branch, from slot c0 on: the branch is left, or stood on at its value, or the child in
  /// the first slot in use is entered. The key is given up when its own slot is empty.
  function SlotPlace(t: Trie, p: Nibbles, below: seq<Stop>, c0: nat, k0: Nibbles): Place
    requires t.Branch? && |t.children| == 16 && c0 <= EXITING
  {
    var c := Seek(t, c0);
    if c == EXITING then Leave(below)
    else if c == AT_VALUE then Place(below + [Stop(t, p, c)], [], true)
    else Place(below + [Stop(t, p, c)] + [ChildStop(t, p, c)], if c == c0 then k0 else [], false)
  }

  /// Entering a leaf or an extension: if the key goes elsewhere, the node is passed over when it
  /// lies below the key, and the key is given up when it does not.
  function PairPlace(t: Trie, p: Nibbles, below: seq<Stop>, k0: Nibbles): Place
    requires t.Leaf? || t.Ext?
  {
    if !(t.key <= k0) && !Less(k0, t.key) then Leave(below)
    else
      var k := if t.key <= k0 then k0[|t.key|..] else [];
      if t.Ext? then Place(below + [Stop(t.child, p + t.key, ENTERING)], k, false)
      else if k == [] then Place(below + [Stop(t, p + t.key, 0)], [], true)
      else Leave(below)
  }

  function Turn(stops: seq<Stop>, k: Nibbles): Place
    requires AllOk(stops) && stops != []
  {
    var s, below := stops[|stops| - 1], stops[..|stops| - 1];
    assert s in stops;
    if s.child == ENTERING then
      match s.t
      case Empty => Leave(below)
      case Branch(_, _) =>
        if k == [] then SlotPlace(s.t, s.p, below, AT_VALUE, []) else SlotPlace(s.t, s.p, below, k[0], k[1..])
      case _ => PairPlace(s.t, s.p, below, k)
    else if s.t.Branch? then SlotPlace(s.t, s.p, below, NextChild(s.child), k)
    else Leave(below)
  }

  /// What a turn achieves: pre is passed over, all of it below the key, nothing else is lost, and
  /// unless an entry was found there is less work left.
  ghost predicate Passed(to: Place, key: Nibbles, pre: seq<Entry>, rest: seq<Entry>, work: nat) {
    && AllOk(to.stops) && Fits(to.stops, to.k, key)
    && (to.found ==> to.k == [] && Standing(to.stops) && NoneBelow(Owed(to.stops, true), key))
    && AllBelow(pre, key) && rest == pre + Owed(to.stops, to.found)
    && (!to.found ==> Work(to.stops) < work)
  }

  lemma {:induction false} RestSnoc(below: seq<Stop>, s: Stop)
    requires AllOk(below) && s.Ok()
    ensures AllOk(below + [s])
    ensures Rest(below + [s]) == s.Rest() + Rest(below)
    ensures Work(below + [s]) == s.Work() + Work(below)
  {
    assert (below + [s])[..|below|] == below;
  }

  lemma {:induction false} LeaveAll(below: seq<Stop>, pre: seq<Entry>, key: Nibbles, work: nat)
    requires AllOk(below) && AllBelow(pre, key) && NoneBelow(Rest(below), key) && Work(below) < work
    ensures Passed(Leave(below), key, pre, pre + Rest(below), work)
  {
  }

  /// A branch at slot c with the child there on top of it owes what the slots from c on hold.
  lemma {:induction false} SlotStops(t: Trie, p: Nibbles, c: nat)
    requires t.Branch? && Wf(t) && |t.children| == 16 && c < 16
    ensures var s1, s2 := Stop(t, p, c), ChildStop(t, p, c);
            && s1.Ok() && s2.Ok()
            && s2.Rest() + s1.Rest() == SlotEntries(t, p, c) && s1.Rest() == EntriesFrom(t, p, c + 1)
            && s2.Work() + s1.Work() == SlotWork(t, c)
  {
  }

  lemma {:induction false} ChildRest(below: seq<Stop>, t: Trie, p: Nibbles, c: nat)
    requires AllOk(below) && t.Branch? && Wf(t) && |t.children| == 16 && c < 16
    ensures var stops := below + [Stop(t, p, c)] + [ChildStop(t, p, c)];
            && AllOk(stops) && Rest(stops) == SlotEntries(t, p, c) + Rest(below)
            && Work(stops) == SlotWork(t, c) + Work(below)
  {
    var s1, s2 := Stop(t, p, c), ChildStop(t, p, c);
    SlotStops(t, p, c);
    RestSnoc(below, s1);
    RestSnoc(below + [s1], s2);
    PlusAssoc(s2.Rest(), s1.Rest(), Rest(below));
  }

  lemma {:induction false} ChildFits(below: seq<Stop>, t: Trie, p: Nibbles, c: nat, k: Nibbles, key: Nibbles)
    requires AllOk(below) && t.Branch? && Wf(t) && |t.children| == 16 && c < 16
    requires NoneBelow(Rest(below), key) && Ahead(t, p, c, k, key)
    ensures var stops := below + [Stop(t, p, c)] + [ChildStop(t, p, c)];
            AllOk(stops) && Fits(stops, k, key)
  {
    ChildRest(below, t, p, c);
    if |k| == 0 {
      NoneBelowPlus(SlotEntries(t, p, c), Rest(below), key);
    } else {
      var stops := below + [Stop(t, p, c)] + [ChildStop(t, p, c)];
      assert stops[..|stops| - 1] == below + [Stop(t, p, c)];
      SlotStops(t, p, c);
      RestSnoc(below, Stop(t, p, c));
      NoneBelowPlus(EntriesFrom(t, p, c + 1), Rest(below), key);
    }
  }

  lemma {:induction false} ChildPasses(below: seq<Stop>, t: Trie, p: Nibbles, c: nat, k: Nibbles, key: Nibbles,
                                       work: nat)
    requires AllOk(below) && t.Branch? && Wf(t) && |t.children| == 16 && c < 16 && NoneBelow(Rest(below), key)
    requires Ahead(t, p, c, k, key) && SlotWork(t, c) + Work(below) < work
    ensures Passed(Place(below + [Stop(t, p, c)] + [ChildStop(t, p, c)], k, false), key, [],
                   SlotEntries(t, p, c) + Rest(below), work)
  {
    ChildRest(below, t, p, c);
    ChildFits(below, t, p, c, k, key);
    EmptyPlus(SlotEntries(t, p, c) + Rest(below));
  }

  lemma {:induction false} ValuePasses(below: seq<Stop>, t: Trie, p: Nibbles, key: Nibbles, work: nat)
    requires AllOk(below) && t.Branch? && Wf(t) && t.value != [] && NoneBelow(Rest(below), key)
    requires Ahead(t, p, AT_VALUE, [], key)
    ensures Passed(Place(below + [Stop(t, p, AT_VALUE)], [], true), key, [], SlotEntries(t, p, AT_VALUE) + Rest(below), work)
  {
    var s, later := Stop(t, p, AT_VALUE), EntriesFrom(t, p, 0);
    SlotValue(t, p);
    RestSnoc(below, s);
    NoneBelowPlus([(p, t.value)], later, key);
    NoneBelowPlus(later, Rest(below), key);
    PlusAssoc([(p, t.value)], later, Rest(below));
    NoneBelowPlus(SlotEntries(t, p, AT_VALUE), Rest(below), key);
    EmptyPlus(SlotEntries(t, p, AT_VALUE) + Rest(below));
  }

  /// From slot c0 on.
  lemma {:induction false} SlotPasses(below: seq<Stop>, t: Trie, p: Nibbles, c0: nat, k0: Nibbles, key: Nibbles,
                                      work: nat)
    requires AllOk(below) && t.Branch? && Wf(t) && |t.children| == 16 && c0 <= EXITING && NoneBelow(Rest(below), key)
    requires (|k0| > 0 ==> c0 < 16) && Ahead(t, p, c0, k0, key) && SlotWork(t, c0) + Work(below) < work
    ensures Passed(SlotPlace(t, p, below, c0, k0), key, [], SlotEntries(t, p, c0) + Rest(below), work)
  {
    hide Passed, Seek, SlotEntries, SlotWork, Rest, Work, AllOk, NoneBelow;
    var c := Seek(t, c0);
    SkipKey(t, p, c0, k0, key);
    SeekSkips(t, p, c0);
    if c == EXITING {
      LeaveAll(below, [], key, work);
      SlotValue(t, p);
    } else if c == AT_VALUE {
      ValuePasses(below, t, p, key, work);
    } else {
      ChildPasses(below, t, p, c, if c == c0 then k0 else [], key, work);
    }
  }

  /// Entering a leaf or an extension.
  lemma {:induction false} PairPasses(below: seq<Stop>, t: Trie, p: Nibbles, k: Nibbles, key: Nibbles, work: nat)
      returns (pre: seq<Entry>)
    requires AllOk(below) && (t.Leaf? || t.Ext?) && Wf(t) && NoneBelow(Rest(below), key)
    requires if |k| == 0 then NoneBelow(Entries(t, p), key) else Joined(p, k) == key
    requires TrieWork(t) + Work(below) <= work
    ensures Passed(PairPlace(t, p, below, k), key, pre, Entries(t, p) + Rest(below), work)
    ensures |k| == 0 ==> pre == []
  {
    if k != [] {
      PairSides(t, p, k, key);
    }
    pre := [];
    EmptyPlus(Entries(t, p) + Rest(below));
    SomeWork(t);
    hide Passed, Rest, Work, TrieWork, AllOk, Less, Wf, Entries, NoneBelow;
    if !(t.key <= k) && !Less(k, t.key) {
      pre := Entries(t, p);
      LeaveAll(below, pre, key, work);
    } else if t.Ext? {
      ExtPasses(below, t, p, if t.key <= k then k[|t.key|..] else [], key, work);
    } else if k == t.key || !(t.key <= k) {
      LeafPasses(below, t, p, key, work);
    } else {
      pre := Entries(t, p);
      LeaveAll(below, pre, key, work);
    }
  }

  lemma SomeWork(t: Trie)
    requires Wf(t)
    ensures TrieWork(t) > 0
  {
  }

  lemma {:induction false} LeafPasses(below: seq<Stop>, t: Trie, p: Nibbles, key: Nibbles, work: nat)
    requires AllOk(below) && t.Leaf? && Wf(t) && NoneBelow(Rest(below), key) && NoneBelow(Entries(t, p), key)
    ensures Passed(Place(below + [Stop(t, p + t.key, 0)], [], true), key, [], Entries(t, p) + Rest(below), work)
  {
    RestSnoc(below, Stop(t, p + t.key, 0));
    EmptyPlus(Rest(below));
    NoneBelowPlus(Entries(t, p), Rest(below), key);
    EmptyPlus(Entries(t, p) + Rest(below));
  }

  lemma {:induction false} ExtPasses(below: seq<Stop>, t: Trie, p: Nibbles, k: Nibbles, key: Nibbles, work: nat)
    requires AllOk(below) && t.Ext? && Wf(t) && NoneBelow(Rest(below), key)
    requires if |k| == 0 then NoneBelow(Entries(t, p), key) else Joined(p + t.key, k) == key
    requires TrieWork(t) + Work(below) <= work
    ensures Passed(Place(below + [Stop(t.child, p + t.key, ENTERING)], k, false), key, [], Entries(t, p) + Rest(below), work)
  {
    var stops := below + [Stop(t.child, p + t.key, ENTERING)];
    RestSnoc(below, Stop(t.child, p + t.key, ENTERING));
    assert stops[..|stops| - 1] == below;
    NoneBelowPlus(Entries(t, p), Rest(below), key);
    EmptyPlus(Entries(t, p) + Rest(below));
  }

  /// Entering a branch.
  lemma {:induction false} BranchPasses(below: seq<Stop>, t: Trie, p: Nibbles, k: Nibbles, key: Nibbles, work: nat)
      returns (pre: seq<Entry>)
    requires AllOk(below) && t.Branch? && Wf(t) && |t.children| == 16 && NoneBelow(Rest(below), key)
    requires if |k| == 0 then NoneBelow(Entries(t, p), key) else Joined(p, k) == key
    requires TrieWork(t) + Work(below) <= work
    ensures Passed(if k == [] then SlotPlace(t, p, below, AT_VALUE, []) else SlotPlace(t, p, below, k[0], k[1..]),
                   key, pre, Entries(t, p) + Rest(below), work)
    ensures |k| == 0 ==> pre == []
  {
    if k == [] {
      pre := [];
      SlotPasses(below, t, p, AT_VALUE, [], key, work);
    } else {
      var n, rest := k[0], k[1..];
      assert k == [n] + rest;
      pre := EnterBranch(t, p, n, rest, key);
      KeyAhead(t, p, n, rest, key);
      WorkFromLess(t, 0, n);
      SlotPasses(below, t, p, n, rest, key, work);
      PrePasses(SlotPlace(t, p, below, n, rest), key, pre, EntriesFrom(t, p, n) + Rest(below), work);
      PlusAssoc(pre, EntriesFrom(t, p, n), Rest(below));
    }
  }

  lemma PrePasses(to: Place, key: Nibbles, pre: seq<Entry>, rest: seq<Entry>, work: nat)
    requires Passed(to, key, [], rest, work) && AllBelow(pre, key)
    ensures Passed(to, key, pre, pre + rest, work)
  {
    EmptyPlus(Owed(to.stops, to.found));
  }

  lemma {:induction false} WorkFromLess(t: Trie, i: nat, j: nat)
    requires t.Branch? && Wf(t) && i <= j <= 16
    ensures WorkFrom(t, j) <= WorkFrom(t, i)
    decreases j - i
  {
    if i < j {
      WorkFromLess(t, i + 1, j);
    }
  }

  lemma {:induction false} KeyAhead(t: Trie, p: Nibbles, n: nibble, rest: Nibbles, key: Nibbles)
    requires t.Branch? && Wf(t) && |t.children| == 16 && key == p + ([n] + rest)
    requires NoneBelow(EntriesFrom(t, p, n + 1), key)
    ensures Ahead(t, p, n, rest, key)
  {
    assert key == p + [n] + rest;
    if rest == [] {
      assert key == p + [n];
      NoneBelowPath(t.children[n], p + [n]);
      NoneBelowPlus(Entries(t.children[n], p + [n]), EntriesFrom(t, p, n + 1), key);
    }
  }

  /// Every turn passes over entries below the key only, and gets closer to the end or finds one.
  lemma {:induction false} TurnPasses(stops: seq<Stop>, k: Nibbles, key: Nibbles) returns (pre: seq<Entry>)
    requires AllOk(stops) && stops != [] && Fits(stops, k, key)
    ensures Passed(Turn(stops, k), key, pre, Rest(stops), Work(stops))
    ensures k == [] ==> pre == [] && Turn(stops, k).k == []
  {
    var s, below := stops[|stops| - 1], stops[..|stops| - 1];
    assert s in stops && s.Ok();
    var t, p, work := s.t, s.p, Work(stops);
    assert Rest(stops) == s.Rest() + Rest(below);
    NoneBelowPlus(s.Rest(), Rest(below), key);
    if s.child == ENTERING && t.Branch? {
      pre := BranchPasses(below, t, p, k, key, work);
    } else if s.child == ENTERING && !t.Empty? {
      pre := PairPasses(below, t, p, k, key, work);
    } else if t.Branch? {
      pre := [];
      SlotPasses(below, t, p, NextChild(s.child), [], key, work);
    } else {
      pre := [];
      LeaveAll(below, [], key, work);
    }
  }
}
