/// Fork choice of the block chain (libethereum/BlockChain.cpp): the head, the route from one
/// branch of the tree to another, the number index, and the bloom index along the canonical chain.
module BlockChain {
  import opened BloomIndex
  import opened Numbers

  type Hash = nat

  datatype Details = Details(number: nat, totalDifficulty: nat, parent: Hash)

  /// A block as far as the chain looks at it; its bloom is entered with its author's bits.
  datatype Info = Info(hash: Hash, parentHash: Hash, number: nat, difficulty: nat, gasUsed: nat, bloom: Bloom)

  type Tree = map<Hash, Details>

  // -------------------------------------------------------------------- the tree

  predicate IsTree(d: Tree, genesis: Hash) {
    && genesis in d && d[genesis].number == 0
    && forall h {:trigger d[h].parent} :: h in d && h != genesis ==>
         d[h].parent in d && d[h].number == d[d[h].parent].number + 1
  }

  /// The blocks from genesis to a block.
  function Line(d: Tree, genesis: Hash, h: Hash): (line: seq<Hash>)
    requires IsTree(d, genesis) && h in d
    ensures |line| == d[h].number + 1 && line[d[h].number] == h && line[0] == genesis
    ensures forall n :: 0 <= n < |line| ==> line[n] in d && d[line[n]].number == n
    decreases d[h].number
  {
    if h == genesis then [genesis] else Line(d, genesis, d[h].parent) + [h]
  }

  /// The line to an ancestor is the beginning of the line.
  lemma {:induction false} LineTo(d: Tree, genesis: Hash, h: Hash, n: nat)
    requires IsTree(d, genesis) && h in d && n <= d[h].number
    ensures Line(d, genesis, Line(d, genesis, h)[n]) == Line(d, genesis, h)[..n + 1]
    decreases d[h].number
  {
    var line := Line(d, genesis, h);
    if n == d[h].number {
      assert line[..n + 1] == line;
    } else {
      LineTo(d, genesis, d[h].parent, n);
      assert line[..n + 1] == Line(d, genesis, d[h].parent)[..n + 1];
    }
  }

  lemma {:induction false} ParentBefore(d: Tree, genesis: Hash, h: Hash, n: nat)
    requires IsTree(d, genesis) && h in d && 0 < n <= d[h].number
    ensures d[Line(d, genesis, h)[n]].parent == Line(d, genesis, h)[n - 1]
  {
    var line := Line(d, genesis, h);
    LineTo(d, genesis, h, n);
    var a := line[n];
    assert a != genesis;
    assert Line(d, genesis, a) == Line(d, genesis, d[a].parent) + [a];
    assert line[..n + 1][n - 1] == line[n - 1];
  }

  /// Two lines that meet at a height are the same up to it.
  lemma {:induction false} MeetOnce(d: Tree, genesis: Hash, g: Hash, h: Hash, n: nat)
    requires IsTree(d, genesis) && g in d && h in d && n <= d[g].number && n <= d[h].number
    requires Line(d, genesis, g)[n] == Line(d, genesis, h)[n]
    ensures Line(d, genesis, g)[..n + 1] == Line(d, genesis, h)[..n + 1]
  {
    LineTo(d, genesis, g, n);
    LineTo(d, genesis, h, n);
  }

  /// A block that joins the tree, or is there already, changes no line.
  lemma {:induction false} LineStays(d: Tree, genesis: Hash, h: Hash, new_: Hash, details: Details)
    requires IsTree(d, genesis) && h in d && (new_ in d ==> d[new_] == details)
    requires details.parent in d && details.number == d[details.parent].number + 1
    ensures IsTree(d[new_ := details], genesis)
    ensures Line(d[new_ := details], genesis, h) == Line(d, genesis, h)
    decreases d[h].number
  {
    if new_ in d {
      assert d[new_ := details] == d;
    } else if h != genesis {
      LineStays(d, genesis, d[h].parent, new_, details);
    }
  }

  // ------------------------------------------------------------------- the route

  function Rev(s: seq<Hash>): seq<Hash> {
    if s == [] then [] else Rev(s[1..]) + [s[0]]
  }

  lemma {:induction false} RevAppend(a: seq<Hash>, b: seq<Hash>)
    ensures Rev(a + b) == Rev(b) + Rev(a)
  {
    if a == [] {
      assert a + b == b;
    } else {
      assert (a + b)[1..] == a[1..] + b;
      RevAppend(a[1..], b);
    }
  }

  predicate ApartAbove(a: seq<Hash>, b: seq<Hash>, n: nat) {
    forall i :: n < i < |a| && i < |b| ==> a[i] != b[i]
  }

  /// The height of the lowest common ancestor.
  predicate IsFork(a: seq<Hash>, b: seq<Hash>, n: nat) {
    n < |a| && n < |b| && a[..n + 1] == b[..n + 1] && ApartAbove(a, b, n)
  }

  /// What stands above a height, from the top down.
  function Back(line: seq<Hash>, n: nat): (r: seq<Hash>)
    requires n < |line|
    ensures |r| == |line| - n - 1
    decreases |line| - n
  {
    if n + 1 == |line| then [] else Back(line, n + 1) + [line[n + 1]]
  }

  lemma {:induction false} BackIsRev(line: seq<Hash>, n: nat)
    requires n < |line|
    ensures Rev(Back(line, n)) == line[n + 1..]
    decreases |line| - n
  {
    if n + 1 < |line| {
      BackIsRev(line, n + 1);
      RevAppend(Back(line, n + 1), [line[n + 1]]);
      assert Rev([line[n + 1]]) == Rev([]) + [line[n + 1]];
    }
  }

  /// Down from one block to the common ancestor, and up to the other.
  function Route(a: seq<Hash>, b: seq<Hash>, n: nat): seq<Hash>
    requires n < |a| && n < |b|
  {
    Back(a, n) + [a[n]] + b[n + 1..]
  }

  /// A list of blocks each of which is the parent of the next.
  predicate Walk(d: Tree, line: seq<Hash>) {
    && line != []
    && (forall n :: 0 <= n < |line| ==> line[n] in d)
    && (forall n {:trigger d[line[n]].parent} :: 0 < n < |line| ==> d[line[n]].parent == line[n - 1])
  }

  lemma LineWalks(d: Tree, genesis: Hash, h: Hash)
    requires IsTree(d, genesis) && h in d
    ensures Walk(d, Line(d, genesis, h))
  {
    var line := Line(d, genesis, h);
    forall n | 0 < n < |line| ensures d[line[n]].parent == line[n - 1] {
      ParentBefore(d, genesis, h, n);
    }
  }

  /// The first two loops of treeRoute: down from a block to a height.
  method Descend(d: Tree, ghost line: seq<Hash>, h: Hash, top: nat, low: nat) returns (path: seq<Hash>, at: Hash)
    requires Walk(d, line) && low <= top && |line| == top + 1 && line[top] == h
    ensures at == line[low] && path == Back(line, low)
  {
    var n := top;
    path, at := [], h;
    while n > low
      invariant low <= n <= top && at == line[n] && path == Back(line, n)
    {
      path := path + [at];
      at := d[at].parent;
      n := n - 1;
    }
  }

  /// Its last loop: down from one height on both sides until they meet.
  method Meet(d: Tree, ghost a: seq<Hash>, ghost b: seq<Hash>, ghost top: nat, from0: Hash, to0: Hash,
              ret0: seq<Hash>, back0: seq<Hash>)
      returns (ret: seq<Hash>, back: seq<Hash>, common: Hash, ghost n: nat)
    requires Walk(d, a) && Walk(d, b) && a[0] == b[0] && top + 1 == Min(|a|, |b|)
    requires from0 == a[top] && to0 == b[top] && ret0 == Back(a, top) && back0 == Back(b, top)
    ensures n <= top && a[n] == b[n] && ApartAbove(a, b, n)
    ensures common == a[n] && ret == Back(a, n) + [a[n]] && back == Back(b, n)
  {
    var from, to := from0, to0;
    ret, back, n := ret0, back0, top;
    while from != to
      invariant n <= top && from == a[n] && to == b[n]
      invariant ret == Back(a, n) && back == Back(b, n)
      invariant ApartAbove(a, b, n)
      decreases n
    {
      ret, back := ret + [from], back + [to];
      from, to := d[from].parent, d[to].parent;
      n := n - 1;
    }
    ret := ret + [from];
    common := from;
  }

  /// treeRoute between two known blocks, with the common ancestor in the route. The index is that
  /// of the common ancestor if and only if this is not the target itself.
  method TreeRoute(d: Tree, genesis: Hash, from0: Hash, to0: Hash)
      returns (ret: seq<Hash>, common: Hash, i: nat, ghost n: nat)
    requires IsTree(d, genesis) && from0 in d && to0 in d
    ensures var a, b := Line(d, genesis, from0), Line(d, genesis, to0);
            && IsFork(a, b, n) && common == a[n] && ret == Route(a, b, n)
            && i == |a| - n - (if common == to0 then 0 else 1)
    ensures i < |ret| && ret[i] == common <==> common != to0
  {
    ghost var a, b := Line(d, genesis, from0), Line(d, genesis, to0);
    LineWalks(d, genesis, from0);
    LineWalks(d, genesis, to0);
    var fn, tn := d[from0].number, d[to0].number;
    var from, back, to;
    ret, from := Descend(d, a, from0, fn, Min(fn, tn));
    back, to := Descend(d, b, to0, tn, Min(fn, tn));
    ret, back, common, n := Meet(d, a, b, Min(fn, tn), from, to, ret, back);
    MeetOnce(d, genesis, from0, to0, n);
    var forward := Reversed(back);
    BackIsRev(b, n);
    assert d[common].number == n;
    i := |ret| - if ret != [] && back != [] then 1 else 0;
    ret := ret + forward;
  }

  method Reversed(s: seq<Hash>) returns (r: seq<Hash>)
    ensures r == Rev(s)
  {
    r := [];
    var i := 0;
    assert s[0..] == s;
    while i < |s|
      invariant i <= |s| && Rev(s) == Rev(s[i..]) + r
    {
      assert s[i..][1..] == s[i + 1..];
      r := [s[i]] + r;
      i := i + 1;
    }
  }

  // ----------------------------------------------------------------- what is indexed

  type Infos = map<Hash, Info>

  predicate InfosOk(d: Tree, infos: Infos) {
    forall h <- d :: h in infos && infos[h].hash == h && infos[h].number == d[h].number
  }

  /// The number index holds the hashes of a line, from block 1 on.
  predicate Indexed(line: seq<Hash>, numbers: map<nat, Hash>) {
    forall n :: 0 < n < |line| ==> n in numbers && numbers[n] == line[n]
  }

  /// The lower slots of the bloom index hold the blooms of a line, from block 1 on, and no more.
  ghost predicate BloomsFollow(line: seq<Hash>, infos: Infos, chunks: Chunks)
    requires forall h <- line :: h in infos
  {
    && Collated(chunks)
    && forall n :: 0 <= n < U32 ==> Slot(chunks, 0, n) == if 0 < n < |line| then infos[line[n]].bloom else {}
  }

  /// The old line has lost what stood above a height.
  ghost predicate ClearedAbove(line: seq<Hash>, n: nat, infos: Infos, chunks: Chunks)
    requires forall h <- line :: h in infos
  {
    && Collated(chunks)
    && forall i :: 0 <= i < U32 ==> Slot(chunks, 0, i) == if 0 < i < |line| && i <= n then infos[line[i]].bloom else {}
  }

  /// The new line is entered from its top down to a height; below the fork nothing changed.
  ghost predicate Entered(line: seq<Hash>, fork: nat, m: nat, infos: Infos, chunks: Chunks, numbers: map<nat, Hash>)
    requires forall h <- line :: h in infos
  {
    && Collated(chunks)
    && (forall i :: 0 <= i < U32 ==>
          Slot(chunks, 0, i) == if 0 < i < |line| && (i <= fork || i > m) then infos[line[i]].bloom else {})
    && (forall i :: 0 < i < |line| && (i <= fork || i > m) ==> i in numbers && numbers[i] == line[i])
  }

  lemma EnteredStart(old_: seq<Hash>, line: seq<Hash>, fork: nat, infos: Infos, chunks: Chunks, numbers: map<nat, Hash>)
    requires forall h <- old_ :: h in infos
    requires forall h <- line :: h in infos
    requires IsFork(old_, line, fork) && ClearedAbove(old_, fork, infos, chunks) && Indexed(old_, numbers)
    ensures Entered(line, fork, |line| - 1, infos, chunks, numbers)
  {
    assert forall i :: 0 <= i <= fork ==> old_[i] == old_[..fork + 1][i] == line[..fork + 1][i] == line[i];
  }

  lemma EnteredStep(line: seq<Hash>, fork: nat, m: nat, infos: Infos, chunks: Chunks, numbers: map<nat, Hash>)
    requires forall h <- line :: h in infos
    requires Entered(line, fork, m, infos, chunks, numbers) && fork < m < |line| <= U32
    ensures Entered(line, fork, m - 1, infos, Added(chunks, m, infos[line[m]].bloom), numbers[m := line[m]])
  {
    AddedCollates(chunks, m, infos[line[m]].bloom);
  }

  lemma EnteredAll(line: seq<Hash>, fork: nat, infos: Infos, chunks: Chunks, numbers: map<nat, Hash>)
    requires forall h <- line :: h in infos
    requires Entered(line, fork, fork, infos, chunks, numbers)
    ensures Indexed(line, numbers) && BloomsFollow(line, infos, chunks)
  {
  }

  /// The route with the new block at its end, seen from the common ancestor.
  lemma RouteAt(a: seq<Hash>, b: seq<Hash>, block: Hash, n: nat, route: seq<Hash>)
    requires n < |a| && n < |b| && route == Route(a, b, n) + [block]
    ensures var line, p := b + [block], |a| - n - 1;
            && |route| == p + |line| - n
            && route[..p] == Back(a, n) && route[p] == a[n] && route[p + 1..] == line[n + 1..]
            && forall i :: p < i < |route| ==> route[i] == line[n + i - p]
  {
    var p := |a| - n - 1;
    assert route == Back(a, n) + ([a[n]] + (b[n + 1..] + [block]));
    assert b[n + 1..] + [block] == (b + [block])[n + 1..];
  }

  /// The loop that takes a route apart around the common ancestor; alive is what the source calls fresh.
  method DeadAndAlive(route: seq<Hash>, common: Hash, ghost p: nat) returns (dead: seq<Hash>, alive: seq<Hash>)
    requires p < |route| && route[p] == common && forall i :: 0 <= i < |route| && i != p ==> route[i] != common
    ensures dead == route[..p] && alive == route[p + 1..]
  {
    dead, alive := [], [];
    var isOld := true;
    for i := 0 to |route|
      invariant isOld == (i <= p)
      invariant dead == route[..if i <= p then i else p]
      invariant alive == if i <= p then [] else route[p + 1..i]
    {
      if route[i] == common {
        isOld := false;
      } else if isOld {
        dead := dead + [route[i]];
      } else {
        alive := alive + [route[i]];
      }
    }
  }

  /// Heavier, or as heavy and with more gas used if that breaks ties.
  predicate Better(tieBreakingGas: bool, td: nat, gasUsed: nat, headTd: nat, headGas: nat) {
    td > headTd || (tieBreakingGas && td == headTd && gasUsed > headGas)
  }

  /// No known block has a greater total difficulty than the head, and if ties are broken none that
  /// is as heavy has used more gas.
  predicate Maximal(tieBreakingGas: bool, d: Tree, infos: Infos, head: Hash)
    requires head in d && head in infos && InfosOk(d, infos)
  {
    forall h <- d :: NotAbove(tieBreakingGas, d, infos, head, h)
  }

  predicate NotAbove(tieBreakingGas: bool, d: Tree, infos: Infos, head: Hash, h: Hash) {
    && h in d && h in infos && head in d && head in infos
    && d[h].totalDifficulty <= d[head].totalDifficulty
    && (tieBreakingGas && d[h].totalDifficulty == d[head].totalDifficulty ==> infos[h].gasUsed <= infos[head].gasUsed)
  }

  /// Clearing the blooms from above a height to the head.
  lemma ClearedIs(line: seq<Hash>, n: nat, infos: Infos, was: Chunks, chunks: Chunks)
    requires forall h <- line :: h in infos
    requires BloomsFollow(line, infos, was) && Collated(chunks) && n < |line| < U32
    requires forall i :: 0 <= i < U32 ==> Slot(chunks, 0, i) == if n + 1 <= i < |line| then {} else Slot(was, 0, i)
    ensures ClearedAbove(line, n, infos, chunks)
  {
  }

  lemma ShorterLine(line: seq<Hash>, n: nat, infos: Infos, numbers: map<nat, Hash>, chunks: Chunks)
    requires forall h <- line :: h in infos
    requires Indexed(line, numbers) && ClearedAbove(line, n, infos, chunks) && n < |line|
    ensures Follows(line[..n + 1], infos, numbers, chunks)
  {
  }

  /// What is known of a line does not change with a block that is not in it.
  lemma KnownSame(line: seq<Hash>, n: nat, infos: Infos, block: Info, chunks: Chunks)
    requires forall h <- line :: h in infos
    requires block.hash !in line && ClearedAbove(line, n, infos, chunks)
    ensures ClearedAbove(line, n, infos[block.hash := block], chunks)
  {
  }

  lemma NothingAbove(line: seq<Hash>, n: nat, infos: Infos, chunks: Chunks)
    requires forall h <- line :: h in infos
    requires BloomsFollow(line, infos, chunks) && n + 1 >= |line|
    ensures ClearedAbove(line, n, infos, chunks)
  {
  }

  /// The numbers of the blocks of the two lines.
  lemma LineNumbers(d: Tree, genesis: Hash, h: Hash, infos: Infos, block: Info)
    requires IsTree(d, genesis) && InfosOk(d, infos) && h in d && block.number == d[h].number + 1
    requires block.hash in d ==> d[block.hash].number > d[h].number
    ensures var line, known := Line(d, genesis, h) + [block.hash], infos[block.hash := block];
            && (forall i :: 0 <= i < |line| ==> line[i] in known && known[line[i]].number == i)
            && (forall k <- line :: k in known)
            && block.hash !in Line(d, genesis, h)
  {
    var b := Line(d, genesis, h);
    forall i | 0 <= i < |b| ensures b[i] != block.hash && infos[b[i]].number == i {
      assert b[i] in d && d[b[i]].number == i;
    }
  }

  lemma {:induction false} BackAt(line: seq<Hash>, n: nat, i: nat)
    requires n < |line| && i < |line| - n - 1
    ensures Back(line, n)[i] == line[|line| - 1 - i]
    decreases |line| - n
  {
    if i < |line| - n - 2 {
      BackAt(line, n + 1, i);
    }
  }

  /// The common ancestor comes once in the route.
  lemma CommonOnce(a: seq<Hash>, line: seq<Hash>, infos: Infos, n: nat, route: seq<Hash>)
    requires n < |a| && n < |line| && a[n] == line[n]
    requires forall i :: 0 <= i < |a| ==> a[i] in infos && infos[a[i]].number == i
    requires forall i :: 0 <= i < |line| ==> line[i] in infos && infos[line[i]].number == i
    requires var p := |a| - n - 1;
             && |route| == p + |line| - n && route[..p] == Back(a, n) && route[p] == a[n]
             && forall i :: p < i < |route| ==> route[i] == line[n + i - p]
    ensures forall i :: 0 <= i < |route| && i != |a| - n - 1 ==> route[i] != a[n]
  {
    var p := |a| - n - 1;
    forall i | 0 <= i < |route| && i != p ensures route[i] != a[n] {
      if i < p {
        BackAt(a, n, i);
        assert route[i] == route[..p][i] == a[|a| - 1 - i];
      } else {
        assert route[i] == line[n + i - p];
      }
    }
  }

  lemma MaximalAfter(tie: bool, d: Tree, infos: Infos, head: Hash, block: Info, details: Details)
    requires head in d && InfosOk(d, infos) && Maximal(tie, d, infos, head) && details.number == block.number
    requires block.hash in d ==> d[block.hash] == details && infos[block.hash] == block
    ensures var now, known := d[block.hash := details], infos[block.hash := block];
            && InfosOk(now, known)
            && Maximal(tie, now, known,
                       if Better(tie, details.totalDifficulty, block.gasUsed, d[head].totalDifficulty, infos[head].gasUsed)
                       then block.hash else head)
  {
  }

  /// A new block on top of one branch parts from another branch where the branch did.
  lemma ForkStays(a: seq<Hash>, b: seq<Hash>, block: Hash, n: nat)
    requires IsFork(a, b, n) && block !in a
    ensures IsFork(a, b + [block], n)
  {
    assert (b + [block])[..n + 1] == b[..n + 1];
  }

  /// The route from the head of one line to the head of another: what dies from the top down, the
  /// common ancestor once, and what comes alive from the bottom up.
  ghost predicate RouteOk(a: seq<Hash>, line: seq<Hash>, n: nat, route: seq<Hash>, common: Hash) {
    && IsFork(a, line, n) && n < |a| && n < |line| && common == a[n]
    && var p := |a| - n - 1;
       && |route| == p + |line| - n && route[..p] == Back(a, n) && route[p] == common && route[p + 1..] == line[n + 1..]
       && (forall i :: p < i < |route| ==> route[i] == line[n + i - p])
       && (forall i :: 0 <= i < |route| && i != p ==> route[i] != common)
  }

  /// The route from the head to a new block.
  method RouteTo(d: Tree, genesis: Hash, infos: Infos, head: Hash, block: Info)
      returns (route: seq<Hash>, common: Hash, ghost n: nat)
    requires IsTree(d, genesis) && InfosOk(d, infos) && head in d && block.parentHash in d
    requires block.number == d[block.parentHash].number + 1
    requires block.hash in d ==> block.number == d[block.hash].number > d[head].number
    ensures RouteOk(Line(d, genesis, head), Line(d, genesis, block.parentHash) + [block.hash], n, route, common)
    ensures block.hash !in Line(d, genesis, head)
  {
    ghost var a, b := Line(d, genesis, head), Line(d, genesis, block.parentHash);
    ghost var line, known := b + [block.hash], infos[block.hash := block];
    var i;
    route, common, i, n := TreeRoute(d, genesis, head, block.parentHash);
    route := route + [block.hash];
    LineNumbers(d, genesis, block.parentHash, infos, block);
    HeadNumbers(d, genesis, head, infos, block);
    RouteIsOk(a, b, block.hash, known, n, route);
  }

  lemma RouteIsOk(a: seq<Hash>, b: seq<Hash>, block: Hash, known: Infos, n: nat, route: seq<Hash>)
    requires IsFork(a, b, n) && route == Route(a, b, n) + [block] && block !in a
    requires forall i :: 0 <= i < |a| ==> a[i] in known && known[a[i]].number == i
    requires var line := b + [block]; forall i :: 0 <= i < |line| ==> line[i] in known && known[line[i]].number == i
    ensures RouteOk(a, b + [block], n, route, a[n])
  {
    var line := b + [block];
    RouteAt(a, b, block, n, route);
    ForkStays(a, b, block, n);
    assert a[n] == a[..n + 1][n] == line[..n + 1][n] == line[n];
    CommonOnce(a, line, known, n, route);
  }

  lemma HeadNumbers(d: Tree, genesis: Hash, head: Hash, infos: Infos, block: Info)
    requires IsTree(d, genesis) && InfosOk(d, infos) && head in d
    requires block.hash in d ==> d[block.hash].number > d[head].number
    ensures var a, known := Line(d, genesis, head), infos[block.hash := block];
            (forall i :: 0 <= i < |a| ==> a[i] in known && known[a[i]].number == i) && block.hash !in a
  {
    LineNumbers(d, genesis, head, infos, block.(number := d[head].number + 1));
  }

  /// Both indices follow a line.
  ghost predicate Follows(line: seq<Hash>, infos: Infos, numbers: map<nat, Hash>, chunks: Chunks) {
    (forall h <- line :: h in infos) && Indexed(line, numbers) && BloomsFollow(line, infos, chunks)
  }

  /// With the new block in the tree the lines to it and to all others are what they were said to be.
  lemma NewLines(d: Tree, genesis: Hash, head: Hash, infos: Infos, block: Info, details: Details)
    requires IsTree(d, genesis) && InfosOk(d, infos) && head in d && block.parentHash in d
    requires block.hash in d ==> d[block.hash] == details && infos[block.hash] == block
    requires details.parent == block.parentHash && details.number == block.number == d[block.parentHash].number + 1
    ensures var now, known := d[block.hash := details], infos[block.hash := block];
            && IsTree(now, genesis) && InfosOk(now, known)
            && Line(now, genesis, head) == Line(d, genesis, head)
            && Line(now, genesis, block.hash) == Line(d, genesis, block.parentHash) + [block.hash]
  {
    LineStays(d, genesis, head, block.hash, details);
    LineStays(d, genesis, block.parentHash, block.hash, details);
  }

  /// A line without the new block is followed as before.
  lemma FollowsSame(line: seq<Hash>, infos: Infos, block: Info, numbers: map<nat, Hash>, chunks: Chunks)
    requires Follows(line, infos, numbers, chunks) && block.hash !in line
    ensures Follows(line, infos[block.hash := block], numbers, chunks)
  {
  }

  /// What an import does to the canonical chain: nothing, or it becomes the line to the new block,
  /// and what left it and what joined it are told apart at the lowest common ancestor.
  ghost predicate Switched(better: bool, was: seq<Hash>, now: seq<Hash>, dead: seq<Hash>, alive: seq<Hash>, n: nat) {
    if better then IsFork(was, now, n) && n < |was| && n < |now| && dead == Back(was, n) && alive == now[n + 1..]
    else now == was && dead == [] && alive == []
  }

  /// The head is known, and both indices follow the line to it.
  ghost predicate GoodChain(d: Tree, genesis: Hash, infos: Infos, numbers: map<nat, Hash>, last: Hash, number: nat,
                            chunks: Chunks) {
    && IsTree(d, genesis) && InfosOk(d, infos)
    && last in d && number == d[last].number && number + 1 < U32
    && Follows(Line(d, genesis, last), infos, numbers, chunks)
  }

  lemma RewoundGood(d: Tree, genesis: Hash, infos: Infos, numbers: map<nat, Hash>, last: Hash, number: nat, was: Chunks,
                    n: nat, chunks: Chunks)
    requires GoodChain(d, genesis, infos, numbers, last, number, was) && n < number
    requires var line := Line(d, genesis, last); (forall h <- line :: h in infos) && ClearedAbove(line, n, infos, chunks)
    ensures var line := Line(d, genesis, last);
            && GoodChain(d, genesis, infos, numbers, line[n], n, chunks)
            && Line(d, genesis, line[n]) == line[..n + 1] && (n > 0 ==> n in numbers)
            && line[n] == if n == 0 then genesis else numbers[n]
  {
    LineTo(d, genesis, last, n);
    ShorterLine(Line(d, genesis, last), n, infos, numbers, chunks);
  }

  lemma InsertedGood(d: Tree, genesis: Hash, infos: Infos, numbers: map<nat, Hash>, last: Hash, number: nat,
                     chunks: Chunks, block: Info, details: Details, better: bool)
    requires IsTree(d, genesis) && InfosOk(d, infos) && last in d && number == d[last].number && number + 1 < U32
    requires block.hash in d ==> d[block.hash] == details && infos[block.hash] == block
    requires block.parentHash in d && block.number + 1 < U32
    requires details.parent == block.parentHash && details.number == block.number == d[block.parentHash].number + 1
    requires Follows(if better then Line(d, genesis, block.parentHash) + [block.hash] else Line(d, genesis, last),
                     infos[block.hash := block], numbers, chunks)
    ensures var now, known := d[block.hash := details], infos[block.hash := block];
            && GoodChain(now, genesis, known, numbers, if better then block.hash else last,
                         if better then block.number else number, chunks)
            && Line(now, genesis, if better then block.hash else last)
            == if better then Line(d, genesis, block.parentHash) + [block.hash] else Line(d, genesis, last)
  {
    NewLines(d, genesis, last, infos, block, details);
  }

  /// What is stored of a block never changes.
  predicate Kept(d: Tree, infos: Infos, d': Tree, infos': Infos) {
    forall h <- d :: h in d' && d'[h] == d[h] && h in infos && h in infos' && infos'[h] == infos[h]
  }

  lemma KnownInfo(d: Tree, infos: Infos, h: Hash)
    requires InfosOk(d, infos) && h in d
    ensures h in infos && Kept(d, infos, d, infos)
  {
  }

  /// Each block weighs what its parent does and its own difficulty.
  predicate Weighed(d: Tree, genesis: Hash, infos: Infos)
    requires IsTree(d, genesis) && InfosOk(d, infos)
  {
    forall h {:trigger d[h].parent} :: h in d && h != genesis ==>
      d[h].parent == infos[h].parentHash && d[h].totalDifficulty == d[d[h].parent].totalDifficulty + infos[h].difficulty
  }

  /// What is entered for a block.
  function Entry(d: Tree, block: Info): Details
    requires block.parentHash in d
  {
    Details(block.number, d[block.parentHash].totalDifficulty + block.difficulty, block.parentHash)
  }

  /// For a block that is there it is what is there.
  lemma EntryStays(d: Tree, genesis: Hash, infos: Infos, block: Info)
    requires IsTree(d, genesis) && InfosOk(d, infos) && Weighed(d, genesis, infos)
    requires block.hash in d && block.hash != genesis && infos[block.hash] == block
    ensures block.parentHash in d && d[block.hash] == Entry(d, block)
  {
    assert d[block.hash].parent == block.parentHash;
  }

  lemma WeighedMore(d: Tree, genesis: Hash, infos: Infos, block: Info)
    requires IsTree(d, genesis) && InfosOk(d, infos) && Weighed(d, genesis, infos)
    requires block.parentHash in d && block.number == d[block.parentHash].number + 1
    requires block.hash in d ==> block.hash != genesis && infos[block.hash] == block
    ensures block.hash in d ==> d[block.hash] == Entry(d, block)
    ensures var now, known := d[block.hash := Entry(d, block)], infos[block.hash := block];
            IsTree(now, genesis) && InfosOk(now, known) && Weighed(now, genesis, known) && Kept(d, infos, now, known)
  {
    if block.hash in d {
      EntryStays(d, genesis, infos, block);
      assert d[block.hash := Entry(d, block)] == d && infos[block.hash := block] == infos;
    }
  }

  function Difficulties(infos: Infos, line: seq<Hash>): nat
    requires forall h <- line :: h in infos
  {
    if line == [] then 0
    else Difficulties(infos, line[..|line| - 1]) + infos[line[|line| - 1]].difficulty
  }

  /// A block's total difficulty is that of genesis and the difficulties of all blocks after it on
  /// its line.
  lemma {:induction false} TotalIsSum(d: Tree, genesis: Hash, infos: Infos, h: Hash)
    requires IsTree(d, genesis) && InfosOk(d, infos) && Weighed(d, genesis, infos) && h in d
    ensures d[h].totalDifficulty == d[genesis].totalDifficulty + Difficulties(infos, Line(d, genesis, h)[1..])
    decreases d[h].number
  {
    if h != genesis {
      var p := d[h].parent;
      TotalIsSum(d, genesis, infos, p);
      var up := Line(d, genesis, h)[1..];
      assert up == Line(d, genesis, p)[1..] + [h];
      assert up[..|up| - 1] == Line(d, genesis, p)[1..];
    }
  }

  datatype ImportResult = AlreadyHave | UnknownParent | Invalid | Imported

  class BlockChain {
    const genesis: Hash
    const tieBreakingGas: bool
    const blooms: Blooms
    var details: Tree
    var infos: Infos
    var numbers: map<nat, Hash>
    var lastBlockHash: Hash
    var lastBlockNumber: nat

    constructor (genesis: Info, totalDifficulty: nat, tieBreakingGas: bool)
      requires genesis.number == 0
      ensures Valid() && fresh(blooms) && lastBlockHash == this.genesis == genesis.hash
      ensures this.tieBreakingGas == tieBreakingGas
      ensures details == map[genesis.hash := Details(0, totalDifficulty, genesis.parentHash)]
      ensures infos == map[genesis.hash := genesis]
      ensures Maximal(tieBreakingGas, details, infos, lastBlockHash)
    {
      this.genesis, this.tieBreakingGas := genesis.hash, tieBreakingGas;
      blooms := new Blooms();
      details := map[genesis.hash := Details(0, totalDifficulty, genesis.parentHash)];
      infos := map[genesis.hash := genesis];
      numbers := map[];
      lastBlockHash, lastBlockNumber := genesis.hash, 0;
    }

    ghost predicate Valid()
      reads this, blooms
    {
      && GoodChain(details, genesis, infos, numbers, lastBlockHash, lastBlockNumber, blooms.chunks)
      && Weighed(details, genesis, infos)
    }

    /// isKnown: a block above the head is not, if it has to be current.
    predicate IsKnown(h: Hash, isCurrent: bool)
      reads this
    {
      h == genesis || (h in details && (!isCurrent || details[h].number <= lastBlockNumber))
    }

    /// A block may be imported that is not known, or that was until the head was set back; in the
    /// database a hash is of one block only.
    ghost predicate Importable(block: Info)
      reads this
    {
      && !IsKnown(block.hash, true)
      && (block.hash in details ==> block.hash in infos && infos[block.hash] == block)
      && block.parentHash in details && block.number == details[block.parentHash].number + 1 && block.number + 1 < U32
    }

    /// The blocks from genesis to the head.
    ghost function Canonical(): (line: seq<Hash>)
      requires IsTree(details, genesis) && lastBlockHash in details
      reads this
    {
      Line(details, genesis, lastBlockHash)
    }

    /// numberHash.
    method NumberHash(n: nat) returns (h: Hash)
      requires Valid() && n <= lastBlockNumber
      ensures h == Canonical()[n]
    {
      h := if n == 0 then genesis else numbers[n];
    }

    /// withBlockBloom: a canonical block in the range whose bloom contains the query is found if and
    /// only if rounding up the last number does not wrap around or the block's number is below 256;
    /// but the bloom of block 0 is never entered, so that one is found for an empty query only.
    /// A caller that stops at the head, whose number is far smaller, finds them all. What is found
    /// above the last number lies in the upper chunk after its.
    method WithBlockBloom(b: Bloom, earliest: nat, latest: nat) returns (ret: seq<nat>)
      requires Valid() && earliest < U32 && latest < U32
      ensures forall n :: 0 < n <= lastBlockNumber && earliest <= n <= latest ==> b <= infos[Canonical()[n]].bloom ==>
                (n in ret <==> latest + 255 < U32 || n < 256)
      ensures 0 in ret <==> earliest == 0 && b == {}
      ensures forall n <- ret :: earliest <= n && (n > latest ==> n / 256 == latest / 256 + 1)
      ensures forall n <- ret :: 0 < n <= lastBlockNumber ==> b <= infos[Canonical()[n]].bloom
      ensures forall i, j :: 0 <= i < j < |ret| ==> ret[i] < ret[j]
    {
      ret := With(blooms.chunks, b, earliest, latest);
      forall n | 0 < n <= lastBlockNumber && earliest <= n <= latest && Contains(infos[Canonical()[n]].bloom, b)
        ensures n in ret <==> latest + 255 < U32 || n < 256
      {
        SearchFinds(blooms.chunks, b, earliest, latest, ret, n);
      }
      forall n | n in ret && n > latest ensures n / 256 == latest / 256 + 1 {
        SearchEnds(blooms.chunks, b, earliest, latest, ret, n);
      }
    }

    /// rewind to a lower block.
    method Rewind(newHead: nat)
      requires Valid()
      modifies this`lastBlockHash, this`lastBlockNumber, blooms
      ensures Valid()
      ensures Canonical() == if newHead >= old(lastBlockNumber) then old(Canonical()) else old(Canonical())[..newHead + 1]
    {
      hide Line, BloomsFollow, IsTree, InfosOk, ClearedAbove;
      if newHead >= lastBlockNumber {
        return;
      }
      var h := NumberHash(newHead);
      ghost var was := blooms.chunks;
      ClearReverted(h, newHead);
      RewoundGood(details, genesis, infos, numbers, lastBlockHash, lastBlockNumber, was, newHead, blooms.chunks);
      lastBlockHash, lastBlockNumber := h, newHead;
    }

    /// The loop of insertBlockAndExtras: back from the new head to the common ancestor.
    method EnterRoute(route: seq<Hash>, common: Hash, known: Infos, ghost line: seq<Hash>, ghost fork: nat,
                      ghost p: nat)
      requires forall h <- line :: h in known
      requires |line| <= U32 && fork < |line| && Entered(line, fork, |line| - 1, known, blooms.chunks, numbers)
      requires |route| == p + |line| - fork && route[p] == common
      requires forall i :: p < i < |route| ==> route[i] == line[fork + i - p] && route[i] != common
      requires forall i :: 0 <= i < |line| ==> known[line[i]].number == i
      modifies this`numbers, blooms
      ensures Entered(line, fork, fork, known, blooms.chunks, numbers)
    {
      var i := |route|;
      hide Entered;
      while i > 0 && route[i - 1] != common
        invariant p < i <= |route|
        invariant Entered(line, fork, fork + i - 1 - p, known, blooms.chunks, numbers)
      {
        i := i - 1;
        assert route[i] == line[fork + i - p];
        EnterBlock(route[i], known[route[i]], known, line, fork, fork + i - p);
      }
    }

    /// One block: its bloom and its hash are indexed under its number.
    method EnterBlock(h: Hash, tbi: Info, ghost known: Infos, ghost line: seq<Hash>, ghost fork: nat, ghost m: nat)
      requires forall h <- line :: h in known
      requires fork < m < |line| <= U32 && h == line[m] && tbi == known[h] && tbi.number == m
      requires Entered(line, fork, m, known, blooms.chunks, numbers)
      modifies this`numbers, blooms
      ensures Entered(line, fork, m - 1, known, blooms.chunks, numbers)
    {
      EnteredStep(line, fork, m, known, blooms.chunks, numbers);
      assert Wf(blooms.chunks);
      hide Entered, Added;
      blooms.Add(tbi.number, tbi.bloom);
      numbers := numbers[tbi.number := h];
    }

    /// A better block: the indices follow the line to it.
    method Reorganise(block: Info) returns (route: seq<Hash>, common: Hash, ghost n: nat)
      requires Valid() && Importable(block)
      modifies this`numbers, blooms
      ensures RouteOk(Canonical(), Line(details, genesis, block.parentHash) + [block.hash], n, route, common)
      ensures Follows(Line(details, genesis, block.parentHash) + [block.hash], infos[block.hash := block], numbers, blooms.chunks)
    {
      assert block.hash in details ==> details[block.hash].number == block.number;
      hide Line, BloomsFollow, ClearedAbove, Entered, IsFork, IsTree, Indexed, InfosOk, Weighed;
      ghost var a, line := Canonical(), Line(details, genesis, block.parentHash) + [block.hash];
      LineNumbers(details, genesis, block.parentHash, infos, block);
      route, common, n := RouteTo(details, genesis, infos, lastBlockHash, block);
      assert |a| < U32 && |line| <= U32 && n < |a| && n < |line| && details[common].number == n;
      var known := infos[block.hash := block];
      hide Line, BloomsFollow, ClearedAbove, Entered, IsFork, Indexed, IsTree, Follows, RouteOk;
      ClearReverted(common, n);
      KnownSame(a, n, infos, block, blooms.chunks);
      FollowRoute(route, common, known, a, line, n);
    }

    method FollowRoute(route: seq<Hash>, common: Hash, known: Infos, ghost a: seq<Hash>, ghost line: seq<Hash>,
                       ghost n: nat)
      requires RouteOk(a, line, n, route, common) && |line| <= U32
      requires forall h <- a :: h in known
      requires forall h <- line :: h in known
      requires forall i :: 0 <= i < |line| ==> known[line[i]].number == i
      requires Indexed(a, numbers) && ClearedAbove(a, n, known, blooms.chunks)
      modifies this`numbers, blooms
      ensures Follows(line, known, numbers, blooms.chunks)
    {
      hide Entered, Indexed, ClearedAbove, BloomsFollow;
      EnteredStart(a, line, n, known, blooms.chunks, numbers);
      EnterRoute(route, common, known, line, n, |a| - n - 1);
      EnteredAll(line, n, known, blooms.chunks, numbers);
    }

    /// clearCachesDuringChainReversion, if the head is not on the line to the new block.
    method ClearReverted(common: Hash, ghost n: nat)
      requires Valid() && n < |Canonical()| && common == Canonical()[n]
      modifies blooms
      ensures ClearedAbove(Canonical(), n, infos, blooms.chunks)
    {
      ghost var a, was := Canonical(), blooms.chunks;
      assert details[common].number == n && |a| == lastBlockNumber + 1 && a[|a| - 1] == lastBlockHash && Collated(was);
      hide Line, BloomsFollow, ClearedAbove, Slot, Collated, Indexed, IsTree;
      if common != lastBlockHash {
        blooms.Clear(details[common].number + 1, lastBlockNumber + 1);
        ClearedIs(a, n, infos, was, blooms.chunks);
      } else {
        NothingAbove(a, n, infos, was);
      }
    }

    /// insertBlockAndExtras: the block joins the tree, and becomes the head if it is better than the
    /// head; then the blocks that left the canonical chain and those that joined it are returned.
    method Insert(block: Info) returns (dead: seq<Hash>, alive: seq<Hash>, ghost n: nat)
      requires Valid() && Importable(block)
      modifies this`details, this`infos, this`numbers, this`lastBlockHash, this`lastBlockNumber, blooms
      ensures Valid()
      ensures details == old(details[block.hash := Entry(details, block)])
      ensures infos == old(infos)[block.hash := block]
      ensures Kept(old(details), old(infos), details, infos)
      ensures var better := Better(tieBreakingGas, details[block.hash].totalDifficulty, block.gasUsed,
                                   old(details[lastBlockHash]).totalDifficulty, old(infos[lastBlockHash]).gasUsed);
              lastBlockHash == (if better then block.hash else old(lastBlockHash))
              && Switched(better, old(Canonical()), Canonical(), dead, alive, n)
      ensures old(Maximal(tieBreakingGas, details, infos, lastBlockHash)) ==>
                Maximal(tieBreakingGas, details, infos, lastBlockHash)
    {
      hide Line, Switched, Follows, Maximal, Weighed, IsTree, InfosOk, Better, Kept;
      var totalDifficulty := details[block.parentHash].totalDifficulty + block.difficulty;
      var d := Details(block.number, totalDifficulty, block.parentHash);
      WeighedMore(details, genesis, infos, block);
      KnownInfo(details, infos, lastBlockHash);
      if Maximal(tieBreakingGas, details, infos, lastBlockHash) {
        MaximalAfter(tieBreakingGas, details, infos, lastBlockHash, block, d);
      }
      ghost var better := Better(tieBreakingGas, totalDifficulty, block.gasUsed,
                                 details[lastBlockHash].totalDifficulty, infos[lastBlockHash].gasUsed);
      var newLast, newNumber;
      newLast, newNumber, dead, alive, n := ChooseHead(block, totalDifficulty);
      InsertedGood(details, genesis, infos, numbers, lastBlockHash, lastBlockNumber, blooms.chunks, block, d, better);
      hide GoodChain;
      details := details[block.hash := d];
      infos := infos[block.hash := block];
      lastBlockHash, lastBlockNumber := newLast, newNumber;
    }

    /// import: what is known is refused, and what has no known parent or fails verification; that is
    /// whether all checks but that of the number pass.
    method Import(block: Info, verified: bool)
        returns (r: ImportResult, dead: seq<Hash>, alive: seq<Hash>, ghost n: nat)
      requires Valid() && block.number + 1 < U32 && (block.hash in details ==> infos[block.hash] == block)
      modifies this`details, this`infos, this`numbers, this`lastBlockHash, this`lastBlockNumber, blooms
      ensures Valid()
      ensures r == if block.hash == genesis
                      || (block.hash in old(details) && old(details)[block.hash].number <= old(lastBlockNumber)) then AlreadyHave
                   else if block.parentHash !in old(details) then UnknownParent
                   else if !verified || block.number != old(details)[block.parentHash].number + 1 then Invalid
                   else Imported
      ensures !r.Imported? ==> unchanged(this) && unchanged(blooms) && dead == [] && alive == []
      ensures r.Imported? ==> details == old(details[block.hash := Entry(details, block)])
                              && infos == old(infos)[block.hash := block]
      ensures Kept(old(details), old(infos), details, infos)
      ensures r.Imported? ==>
                var td, headTd := details[block.hash].totalDifficulty, old(details[lastBlockHash]).totalDifficulty;
                var better := td > headTd || (tieBreakingGas && td == headTd
                                              && block.gasUsed > old(infos[lastBlockHash]).gasUsed);
                && lastBlockHash == (if better then block.hash else old(lastBlockHash))
                && Switched(better, old(Canonical()), Canonical(), dead, alive, n)
      ensures old(Maximal(tieBreakingGas, details, infos, lastBlockHash)) ==>
                Maximal(tieBreakingGas, details, infos, lastBlockHash)
    {
      hide Line, Switched, Follows, Maximal, Weighed, IsTree, InfosOk, Kept;
      KnownInfo(details, infos, lastBlockHash);
      dead, alive, n := [], [], 0;
      if IsKnown(block.hash, true) {
        return AlreadyHave, dead, alive, n;
      }
      if !IsKnown(block.parentHash, false) {
        return UnknownParent, dead, alive, n;
      }
      if !verified || block.number != details[block.parentHash].number + 1 {
        return Invalid, dead, alive, n;
      }
      r := Imported;
      dead, alive, n := Insert(block);
    }

    /// The part of insertBlockAndExtras that decides on the head and lets the indices follow it.
    method ChooseHead(block: Info, totalDifficulty: nat)
        returns (newLast: Hash, newNumber: nat, dead: seq<Hash>, alive: seq<Hash>, ghost n: nat)
      requires Valid() && Importable(block)
      modifies this`numbers, blooms
      ensures var a, known := Canonical(), infos[block.hash := block];
              var line := Line(details, genesis, block.parentHash) + [block.hash];
              var better := Better(tieBreakingGas, totalDifficulty, block.gasUsed,
                                   details[lastBlockHash].totalDifficulty, infos[lastBlockHash].gasUsed);
              var now := if better then line else a;
              && Follows(now, known, numbers, blooms.chunks) && Switched(better, a, now, dead, alive, n)
              && newLast == (if better then block.hash else lastBlockHash)
              && newNumber == (if better then block.number else lastBlockNumber)
    {
      hide IsTree, InfosOk, IsFork, Follows;
      dead, alive, n := [], [], 0;
      newLast, newNumber := lastBlockHash, lastBlockNumber;
      HeadNumbers(details, genesis, lastBlockHash, infos, block);
      FollowsSame(Canonical(), infos, block, numbers, blooms.chunks);
      if Better(tieBreakingGas, totalDifficulty, block.gasUsed,
                details[lastBlockHash].totalDifficulty, infos[lastBlockHash].gasUsed)
      {
        var route, common;
        route, common, n := Reorganise(block);
        dead, alive := DeadAndAlive(route, common, |Canonical()| - n - 1);
        newLast, newNumber := block.hash, block.number;
      }
    }
  }
}
