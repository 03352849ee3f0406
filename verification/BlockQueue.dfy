/// The block queue (libethereum/BlockQueue.cpp, BlockQueue.h): verifier threads take blocks from
/// one end and finish in any order; a reorder buffer releases them in the order they came in.
/// Every region under the locks is one method, so every interleaving is a sequence of calls.
module BlockQueue {
  import opened Numbers
  import opened Options
  import opened Sequences

  type Hash = nat

  /// Whether a hash is that of a list of uncles. It is assumed that no block has such a hash.
  const IsUnclesHash: Hash -> bool

  datatype Header = Header(hash: Hash, parentHash: Hash, sha3Uncles: Hash)

  datatype Unverified = Unverified(hash: Hash, parentHash: Hash, blockData: seq<nat>)

  /// A block in m_verifying or m_verified. While its data is empty it is not finished, and its
  /// header carries the block's own hash in the place of the uncles' hash.
  datatype Verified = Verified(info: Header, blockData: seq<nat>)

  // -------------------------------------------------------------- the line of blocks

  datatype Job = Job(hash: Hash, parent: Hash)

  function JobOf(v: Verified): Job {
    Job(if v.blockData == [] then v.info.sha3Uncles else v.info.hash, v.info.parentHash)
  }

  function Jobs(q: seq<Verified>): (js: seq<Job>)
    ensures |js| == |q| && forall i :: 0 <= i < |q| ==> js[i] == JobOf(q[i])
  {
    seq(|q|, i requires 0 <= i < |q| => JobOf(q[i]))
  }

  function RawJobs(q: seq<Unverified>): (js: seq<Job>)
    ensures |js| == |q| && forall i :: 0 <= i < |q| ==> js[i] == Job(q[i].hash, q[i].parentHash)
  {
    seq(|q|, i requires 0 <= i < |q| => Job(q[i].hash, q[i].parentHash))
  }

  ghost predicate Distinct(line: seq<Job>) {
    forall i, j :: Differ(line, i, j)
  }

  predicate Differ(line: seq<Job>, i: int, j: int) {
    0 <= i < j < |line| ==> line[i].hash != line[j].hash
  }

  predicate Listed(line: seq<Job>, h: Hash) {
    exists i :: 0 <= i < |line| && line[i].hash == h
  }

  function Cut(line: seq<Job>, r: nat): seq<Job>
    requires r < |line|
  {
    line[..r] + line[r + 1..]
  }

  /// The parent of every block is in the chain, being imported, or earlier in the line; only of
  /// blocks that are not verified yet it may also be known to be bad.
  ghost predicate ParentsOk(line: seq<Job>, verified: nat, settled: set<Hash>, bad: set<Hash>) {
    forall i :: ParentOk(line, i, verified, settled, bad)
  }

  ghost predicate ParentOk(line: seq<Job>, i: int, verified: nat, settled: set<Hash>, bad: set<Hash>) {
    0 <= i < |line| ==>
      line[i].parent in settled || Listed(line[..i], line[i].parent) || (i >= verified && line[i].parent in bad)
  }

  // ------------------------------------------------------- the history of the line

  /// What became of a block that entered m_unverified.
  datatype Verdict = Waiting | Passed | Threw | BadParent

  datatype Entry = Entry(job: Job, verdict: Verdict)

  function With(log: seq<Entry>, v: Verdict): seq<Job> {
    if log == [] then [] else (if log[0].verdict == v then [log[0].job] else []) + With(log[1..], v)
  }

  /// The blocks that were not thrown out.
  function Kept(log: seq<Entry>): seq<Job> {
    if log == [] then []
    else (if log[0].verdict.Waiting? || log[0].verdict.Passed? then [log[0].job] else []) + Kept(log[1..])
  }

  /// No block has passed while one before it still waits.
  ghost predicate InOrder(log: seq<Entry>) {
    forall i, j :: PassesLater(log, i, j)
  }

  predicate PassesLater(log: seq<Entry>, i: int, j: int) {
    0 <= i < j < |log| && log[i].verdict.Waiting? ==> !log[j].verdict.Passed?
  }

  lemma InOrderRest(log: seq<Entry>)
    requires InOrder(log) && log != []
    ensures InOrder(log[1..])
    ensures log[0].verdict.Waiting? ==> forall j :: 0 <= j < |log[1..]| ==> !log[1..][j].verdict.Passed?
  {
    forall i, j ensures PassesLater(log[1..], i, j) {
      assert PassesLater(log, i + 1, j + 1);
    }
    forall j | 0 <= j < |log[1..]| && log[0].verdict.Waiting? ensures !log[1..][j].verdict.Passed? {
      assert PassesLater(log, 0, j + 1);
    }
  }

  /// In such a history the blocks that passed, and then those that wait, are all that was kept,
  /// in the order they came in.
  lemma {:induction false} KeptInOrder(log: seq<Entry>)
    requires InOrder(log)
    ensures Kept(log) == With(log, Passed) + With(log, Waiting)
  {
    if log != [] {
      InOrderRest(log);
      KeptInOrder(log[1..]);
      if log[0].verdict.Waiting? {
        NonePassed(log[1..]);
        assert [log[0].job] + ([] + With(log[1..], Waiting)) == [] + ([log[0].job] + With(log[1..], Waiting));
      } else if log[0].verdict.Passed? {
        assert [log[0].job] + (With(log[1..], Passed) + With(log[1..], Waiting))
            == [log[0].job] + With(log[1..], Passed) + With(log[1..], Waiting);
      }
    }
  }

  lemma {:induction false} NonePassed(log: seq<Entry>)
    requires forall j :: 0 <= j < |log| ==> !log[j].verdict.Passed?
    ensures With(log, Passed) == []
  {
    if log != [] {
      NonePassed(log[1..]);
    }
  }

  lemma {:induction false} WithSnoc(log: seq<Entry>, e: Entry, v: Verdict)
    ensures With(log + [e], v) == With(log, v) + if e.verdict == v then [e.job] else []
  {
    if log != [] {
      assert (log + [e])[1..] == log[1..] + [e];
      WithSnoc(log[1..], e, v);
    } else {
      assert (log + [e])[1..] == [];
    }
  }

  /// Where the n-th waiting block stands in the history.
  function Position(log: seq<Entry>, n: nat): (p: nat)
    requires n < |With(log, Waiting)|
    ensures p < |log| && log[p] == Entry(With(log, Waiting)[n], Waiting)
    ensures n == 0 ==> forall i :: 0 <= i < p ==> !log[i].verdict.Waiting?
  {
    if log[0].verdict.Waiting? then
      if n == 0 then 0 else 1 + Position(log[1..], n - 1)
    else 1 + Position(log[1..], n)
  }

  /// The n-th waiting block gets its verdict.
  function Settle(log: seq<Entry>, n: nat, v: Verdict): seq<Entry>
    requires n < |With(log, Waiting)|
  {
    log[Position(log, n) := Entry(With(log, Waiting)[n], v)]
  }

  /// What that does to those that wait and those that passed.
  lemma {:induction false} SettleWaiting(log: seq<Entry>, n: nat, v: Verdict)
    requires n < |With(log, Waiting)| && !v.Waiting?
    ensures With(Settle(log, n, v), Waiting) == Cut(With(log, Waiting), n)
    ensures !v.Passed? ==> With(Settle(log, n, v), Passed) == With(log, Passed)
  {
    if n == 0 && log[0].verdict.Waiting? {
      SettleFirst(log, v);
    } else {
      SettleLater(log, n, v);
      SettleWaiting(log[1..], if log[0].verdict.Waiting? then n - 1 else n, v);
      if log[0].verdict.Waiting? {
        CutLater(log[0].job, With(log[1..], Waiting), n - 1);
      }
      hide Settle, Cut;
    }
  }

  lemma {:induction false} SettleFirst(log: seq<Entry>, v: Verdict)
    requires log != [] && log[0].verdict.Waiting? && !v.Waiting?
    ensures With(Settle(log, 0, v), Waiting) == Cut(With(log, Waiting), 0)
    ensures !v.Passed? ==> With(Settle(log, 0, v), Passed) == With(log, Passed)
  {
    var done := Settle(log, 0, v);
    assert done[0] == Entry(log[0].job, v) && done[1..] == log[1..];
    assert Cut(With(log, Waiting), 0) == With(log[1..], Waiting);
  }

  lemma {:induction false} SettleLater(log: seq<Entry>, n: nat, v: Verdict)
    requires n < |With(log, Waiting)| && (log[0].verdict.Waiting? ==> n > 0)
    ensures var m := if log[0].verdict.Waiting? then n - 1 else n;
            && m < |With(log[1..], Waiting)|
            && Settle(log, n, v)[0] == log[0] && Settle(log, n, v)[1..] == Settle(log[1..], m, v)
  {
  }

  lemma CutLater(first: Job, line: seq<Job>, n: nat)
    requires n < |line|
    ensures Cut([first] + line, n + 1) == [first] + Cut(line, n)
  {
  }

  /// The first waiting block passes: it comes after all that passed before.
  lemma {:induction false} SettlePassed(log: seq<Entry>)
    requires With(log, Waiting) != [] && InOrder(log)
    ensures With(Settle(log, 0, Passed), Passed) == With(log, Passed) + [With(log, Waiting)[0]]
  {
    var done := Settle(log, 0, Passed);
    InOrderRest(log);
    if log[0].verdict.Waiting? {
      assert done[1..] == log[1..];
      NonePassed(log[1..]);
    } else {
      assert done[0] == log[0] && done[1..] == Settle(log[1..], 0, Passed);
      SettlePassed(log[1..]);
    }
  }

  lemma {:induction false} SettleInOrder(log: seq<Entry>, n: nat, v: Verdict)
    requires n < |With(log, Waiting)| && InOrder(log) && !v.Waiting? && (v.Passed? ==> n == 0)
    ensures InOrder(Settle(log, n, v))
  {
    forall i, j ensures PassesLater(Settle(log, n, v), i, j) {
      assert PassesLater(log, i, j);
    }
  }

  /// A later history: the old entries are still there, only waiting ones got a verdict; those that
  /// threw since are in one set of hashes, those with a bad parent have it in the other.
  ghost predicate Follows(was: seq<Entry>, now: seq<Entry>, thrown: set<Hash>, bad: set<Hash>) {
    && |was| <= |now|
    && (forall i :: 0 <= i < |was| ==>
          && now[i].job == was[i].job
          && (!was[i].verdict.Waiting? ==> now[i] == was[i])
          && (was[i].verdict.Waiting? ==> Blamed(now[i], thrown, bad)))
    && (forall i :: |was| <= i < |now| ==> Blamed(now[i], thrown, bad))
  }

  predicate Blamed(e: Entry, thrown: set<Hash>, bad: set<Hash>) {
    && (e.verdict.Threw? ==> e.job.hash in thrown)
    && (e.verdict.BadParent? ==> e.job.parent in bad)
  }

  // ----------------------------------------------------------- changes of the line

  lemma CutDistinct(line: seq<Job>, r: nat)
    requires Distinct(line) && r < |line|
    ensures Distinct(Cut(line, r))
    ensures forall h :: Listed(Cut(line, r), h) <==> Listed(line, h) && h != line[r].hash
  {
    var cut := Cut(line, r);
    forall i, j ensures Differ(cut, i, j) {
      assert Differ(line, if i < r then i else i + 1, if j < r then j else j + 1);
    }
    forall i | 0 <= i < |line| && i != r ensures line[i].hash != line[r].hash {
      assert Differ(line, i, r) && Differ(line, r, i);
    }
    forall h ensures Listed(cut, h) <==> Listed(line, h) && h != line[r].hash {
      if Listed(cut, h) {
        var i :| 0 <= i < |cut| && cut[i].hash == h;
        assert line[if i < r then i else i + 1].hash == h;
      }
      if Listed(line, h) && h != line[r].hash {
        var i :| 0 <= i < |line| && line[i].hash == h;
        assert cut[if i < r then i else i - 1].hash == h;
      }
    }
  }

  /// Taking out a block that is known to be bad leaves its children with a bad parent.
  lemma CutParents(line: seq<Job>, r: nat, verified: nat, settled: set<Hash>, bad: set<Hash>)
    requires ParentsOk(line, verified, settled, bad) && verified <= r < |line|
    ensures ParentsOk(Cut(line, r), verified, settled, bad + {line[r].hash})
  {
    var cut := Cut(line, r);
    forall i ensures ParentOk(cut, i, verified, settled, bad + {line[r].hash}) {
      var j := if i < r then i else i + 1;
      assert ParentOk(line, j, verified, settled, bad);
      if 0 <= i < |cut| && Listed(line[..j], line[j].parent) {
        var k :| 0 <= k < j && line[..j][k].hash == line[j].parent;
        if k < r {
          assert cut[..i][k].hash == cut[i].parent;
        } else if k > r {
          assert cut[..i][k - 1].hash == cut[i].parent;
        }
      }
    }
  }

  lemma SnocLine(line: seq<Job>, job: Job, verified: nat, settled: set<Hash>, bad: set<Hash>)
    requires Distinct(line) && ParentsOk(line, verified, settled, bad)
    requires !Listed(line, job.hash) && (job.parent in settled || Listed(line, job.parent))
    ensures Distinct(line + [job]) && ParentsOk(line + [job], verified, settled, bad)
    ensures forall h :: Listed(line + [job], h) <==> Listed(line, h) || h == job.hash
  {
    var more := line + [job];
    forall i, j ensures Differ(more, i, j) {
      assert Differ(line, i, j);
    }
    forall i ensures ParentOk(more, i, verified, settled, bad) {
      assert ParentOk(line, i, verified, settled, bad);
      if 0 <= i < |more| {
        assert more[..i] == line[..i];
        assert line[..|line|] == line;
      }
    }
    forall h ensures Listed(more, h) <==> Listed(line, h) || h == job.hash {
      assert more[|line|].hash == job.hash;
      if Listed(line, h) {
        var i :| 0 <= i < |line| && line[i].hash == h;
        assert more[i].hash == h;
      }
    }
  }

  /// The hashes of a part of the line.
  function Hashes(line: seq<Job>): set<Hash> {
    set i | 0 <= i < |line| :: line[i].hash
  }

  lemma TakeLine(line: seq<Job>, n: nat, verified: nat, settled: set<Hash>, bad: set<Hash>)
    requires Distinct(line) && ParentsOk(line, verified, settled, bad) && n <= verified <= |line|
    ensures Distinct(line[n..]) && ParentsOk(line[n..], verified - n, settled + Hashes(line[..n]), bad)
    ensures forall h :: Listed(line[n..], h) <==> Listed(line, h) && h !in Hashes(line[..n])
    ensures forall i :: 0 <= i < n ==> line[i].parent in settled || Listed(line[..i], line[i].parent)
  {
    var rest := line[n..];
    forall i, j ensures Differ(rest, i, j) {
      assert Differ(line, n + i, n + j);
    }
    forall i | 0 <= i < n ensures line[i].parent in settled || Listed(line[..i], line[i].parent) {
      assert ParentOk(line, i, verified, settled, bad);
    }
    var left, more := verified - n, settled + Hashes(line[..n]);
    forall i ensures ParentOk(rest, i, left, more, bad) {
      assert ParentOk(line, n + i, verified, settled, bad);
      if 0 <= i < |rest| && Listed(line[..n + i], rest[i].parent) {
        var k :| 0 <= k < n + i && line[..n + i][k].hash == rest[i].parent;
        if k < n {
          assert line[..n][k].hash == rest[i].parent;
        } else {
          assert rest[..i][k - n].hash == rest[i].parent;
        }
      }
    }
    forall k | 0 <= k < n ensures line[k].hash in Hashes(line[..n]) {
      assert line[..n][k] == line[k];
    }
    forall h ensures Listed(rest, h) <==> Listed(line, h) && h !in Hashes(line[..n]) {
      if Listed(rest, h) {
        var i :| 0 <= i < |rest| && rest[i].hash == h;
        assert line[n + i].hash == h;
        forall k | 0 <= k < n ensures line[..n][k].hash != h {
          assert Differ(line, k, n + i);
        }
      }
      if Listed(line, h) && h !in Hashes(line[..n]) {
        var i :| 0 <= i < |line| && line[i].hash == h;
        assert rest[i - n].hash == h;
      }
    }
  }

  // ----------------------------------------------------------- the unknown parents

  function HashSet(us: seq<Unverified>): set<Hash> {
    set u | u in us :: u.hash
  }

  predicate Unique(us: seq<Unverified>) {
    forall i, j :: 0 <= i < j < |us| ==> us[i].hash != us[j].hash
  }

  /// removeByKeyEqual: the blocks whose parent it is, in the order they came, and the others.
  function Children(us: seq<Unverified>, parent: Hash): (r: seq<Unverified>)
    ensures forall u :: u in r <==> u in us && u.parentHash == parent
  {
    if us == [] then [] else (if us[0].parentHash == parent then [us[0]] else []) + Children(us[1..], parent)
  }

  function Others(us: seq<Unverified>, parent: Hash): (r: seq<Unverified>)
    ensures forall u :: u in r <==> u in us && u.parentHash != parent
    ensures |r| + |Children(us, parent)| == |us|
  {
    if us == [] then [] else (if us[0].parentHash != parent then [us[0]] else []) + Others(us[1..], parent)
  }

  lemma {:induction false} SplitUnique(us: seq<Unverified>, parent: Hash)
    requires Unique(us)
    ensures Unique(Children(us, parent)) && Unique(Others(us, parent))
    ensures HashSet(Children(us, parent)) !! HashSet(Others(us, parent))
    ensures HashSet(Children(us, parent)) + HashSet(Others(us, parent)) == HashSet(us)
  {
    SplitOrder(us, parent);
    forall a, b | a in Children(us, parent) && b in Others(us, parent) ensures a.hash != b.hash {
      var i :| 0 <= i < |us| && us[i] == a;
      var j :| 0 <= j < |us| && us[j] == b;
    }
  }

  lemma UniqueCons(u: Unverified, us: seq<Unverified>)
    requires Unique(us) && forall v <- us :: v.hash != u.hash
    ensures Unique([u] + us)
  {
  }

  lemma {:induction false} SplitOrder(us: seq<Unverified>, parent: Hash)
    requires Unique(us)
    ensures Unique(Children(us, parent)) && Unique(Others(us, parent))
  {
    if us != [] {
      SplitOrder(us[1..], parent);
      forall u | u in us[1..] ensures u.hash != us[0].hash {
        var i :| 0 <= i < |us[1..]| && us[1..][i] == u;
        assert us[i + 1] == u;
      }
      UniqueCons(us[0], Children(us[1..], parent));
      UniqueCons(us[0], Others(us[1..], parent));
      assert [] + Children(us[1..], parent) == Children(us[1..], parent);
      assert [] + Others(us[1..], parent) == Others(us[1..], parent);
    }
  }

  function Names(us: seq<Unverified>): (hs: seq<Hash>)
    ensures |hs| == |us| && forall i :: 0 <= i < |us| ==> hs[i] == us[i].hash
  {
    seq(|us|, i requires 0 <= i < |us| => us[i].hash)
  }

  /// noteReady as a whole: the blocks that wait for one of these parents, and for those in turn.
  function Awake(us: seq<Unverified>, parents: seq<Hash>): seq<Unverified>
    decreases |us|, |parents|
  {
    if parents == [] then []
    else
      var woken := Children(us, parents[0]);
      woken + Awake(Others(us, parents[0]), parents[1..] + Names(woken))
  }

  /// The blocks that go on waiting.
  function Asleep(us: seq<Unverified>, parents: seq<Hash>): seq<Unverified>
    decreases |us|, |parents|
  {
    if parents == [] then us
    else Asleep(Others(us, parents[0]), parents[1..] + Names(Children(us, parents[0])))
  }

  /// Every block is in one of the two, once.
  lemma {:induction false} AwakeOrAsleep(us: seq<Unverified>, parents: seq<Hash>)
    ensures multiset(us) == multiset(Awake(us, parents)) + multiset(Asleep(us, parents))
    decreases |us|, |parents|
  {
    if parents != [] {
      SplitAll(us, parents[0]);
      AwakeOrAsleep(Others(us, parents[0]), parents[1..] + Names(Children(us, parents[0])));
    }
  }

  lemma {:induction false} SplitAll(us: seq<Unverified>, parent: Hash)
    ensures multiset(us) == multiset(Children(us, parent)) + multiset(Others(us, parent))
  {
    if us == [] {
      assert Children(us, parent) == [] && Others(us, parent) == [];
    } else {
      SplitAll(us[1..], parent);
      SplitFirst(us, parent);
      SplitStep(us, Children(us[1..], parent), Others(us[1..], parent), Children(us, parent), Others(us, parent));
    }
  }

  lemma SplitFirst(us: seq<Unverified>, parent: Hash)
    requires us != []
    ensures Children(us, parent) ==
              if us[0].parentHash == parent then [us[0]] + Children(us[1..], parent) else Children(us[1..], parent)
    ensures Others(us, parent) ==
              if us[0].parentHash != parent then [us[0]] + Others(us[1..], parent) else Others(us[1..], parent)
  {
    EmptyPlus(Children(us[1..], parent));
    EmptyPlus(Others(us[1..], parent));
  }

  /// Both stay in the order they came.
  lemma {:induction false} SplitAppend(us: seq<Unverified>, u: Unverified, parent: Hash)
    ensures Children(us + [u], parent) == Children(us, parent) + if u.parentHash == parent then [u] else []
    ensures Others(us + [u], parent) == Others(us, parent) + if u.parentHash == parent then [] else [u]
  {
    if us == [] {
      SplitOne(u, parent);
    } else {
      hide *;
      SplitAppend(us[1..], u, parent);
      SplitFirst(us, parent);
      FirstOfMore(us, u, parent);
      var c, o := Children(us[1..], parent), Others(us[1..], parent);
      FirstThenLast(us[0], us[0].parentHash == parent, c, if u.parentHash == parent then [u] else []);
      FirstThenLast(us[0], us[0].parentHash != parent, o, if u.parentHash == parent then [] else [u]);
    }
  }

  lemma FirstOfMore(us: seq<Unverified>, u: Unverified, parent: Hash)
    requires us != []
    ensures Children(us + [u], parent) ==
              if us[0].parentHash == parent then [us[0]] + Children(us[1..] + [u], parent) else Children(us[1..] + [u], parent)
    ensures Others(us + [u], parent) ==
              if us[0].parentHash != parent then [us[0]] + Others(us[1..] + [u], parent) else Others(us[1..] + [u], parent)
  {
    hide *;
    assert (us + [u])[1..] == us[1..] + [u] && (us + [u])[0] == us[0];
    SplitFirst(us + [u], parent);
  }

  lemma FirstThenLast(u: Unverified, first: bool, s: seq<Unverified>, last: seq<Unverified>)
    ensures (if first then [u] + (s + last) else s + last) == (if first then [u] + s else s) + last
  {
    PlusAssoc([u], s, last);
  }

  lemma SplitOne(u: Unverified, parent: Hash)
    ensures Children([] + [u], parent) == Children([], parent) + if u.parentHash == parent then [u] else []
    ensures Others([] + [u], parent) == Others([], parent) + if u.parentHash == parent then [] else [u]
  {
    assert [] + [u] == [u];
    SplitFirst([u], parent);
    assert [u][1..] == [];
  }

  lemma SplitStep(us: seq<Unverified>, c: seq<Unverified>, o: seq<Unverified>, c': seq<Unverified>, o': seq<Unverified>)
    requires us != [] && multiset(us[1..]) == multiset(c) + multiset(o)
    requires (c' == [us[0]] + c && o' == o) || (c' == c && o' == [us[0]] + o)
    ensures multiset(us) == multiset(c') + multiset(o')
  {
    CountFirst(us[0], us[1..]);
    CountFirst(us[0], c);
    CountFirst(us[0], o);
    assert [us[0]] + us[1..] == us;
  }

  lemma CountFirst(u: Unverified, us: seq<Unverified>)
    ensures multiset([u] + us) == multiset{u} + multiset(us)
  {
  }

  lemma InAsleep(us: seq<Unverified>, parents: seq<Hash>, u: Unverified)
    requires u in Asleep(us, parents)
    ensures u in us
  {
    AwakeOrAsleep(us, parents);
    assert u in multiset(us);
  }

  /// No block goes on waiting for one of the parents, or for a block that no longer waits.
  lemma {:induction false} NoneLeftBehind(us: seq<Unverified>, parents: seq<Hash>, u: Unverified)
    requires u in Asleep(us, parents)
    ensures u.parentHash !in parents && u.parentHash !in Names(Awake(us, parents))
    decreases |us|, |parents|
  {
    if parents != [] {
      var woken, others := Children(us, parents[0]), Others(us, parents[0]);
      var next := parents[1..] + Names(woken);
      NoneLeftBehind(others, next, u);
      InAsleep(others, next, u);
      NamesPlus(woken, Awake(others, next));
      hide Asleep, Children, Others, Names;
      assert Awake(us, parents) == woken + Awake(others, next);
      hide Awake;
      InParts(parents, Names(woken), u.parentHash);
    }
  }

  lemma InParts(parents: seq<Hash>, more: seq<Hash>, h: Hash)
    requires parents != [] && h != parents[0] && h !in parents[1..] + more
    ensures h !in parents && h !in more
  {
    assert parents == [parents[0]] + parents[1..];
  }

  lemma NamesPlus(a: seq<Unverified>, b: seq<Unverified>)
    ensures Names(a + b) == Names(a) + Names(b)
  {
  }

  /// Each woken block comes after the parent it waited for.
  lemma {:induction false} WokenByParent(us: seq<Unverified>, parents: seq<Hash>, i: nat)
    requires i < |Awake(us, parents)|
    ensures var a := Awake(us, parents); a[i].parentHash in parents || a[i].parentHash in Names(a[..i])
    decreases |us|, |parents|
  {
    var woken, others := Children(us, parents[0]), Others(us, parents[0]);
    var next := parents[1..] + Names(woken);
    var a, rest := Awake(us, parents), Awake(others, next);
    if i < |woken| {
      assert a[i] in woken;
    } else {
      var j := i - |woken|;
      WokenByParent(others, next, j);
      assert a[..i] == woken + rest[..j];
      NamesPlus(woken, rest[..j]);
    }
  }

  lemma AwakeStep(front: seq<Unverified>, us: seq<Unverified>, q: seq<Hash>)
    requires q != []
    ensures var woken, others := Children(us, q[0]), Others(us, q[0]);
            && front + Awake(us, q) == front + woken + Awake(others, q[1..] + Names(woken))
            && Asleep(us, q) == Asleep(others, q[1..] + Names(woken))
            && |us| == |others| + |woken|
  {
    hide Children, Others, Names, Awake, Asleep;
    var woken, others := Children(us, q[0]), Others(us, q[0]);
    AwakeIs(us, q);
    PlusAssoc(front, woken, Awake(others, q[1..] + Names(woken)));
  }

  lemma AwakeIs(us: seq<Unverified>, q: seq<Hash>)
    requires q != []
    ensures var woken, others := Children(us, q[0]), Others(us, q[0]);
            && Awake(us, q) == woken + Awake(others, q[1..] + Names(woken))
            && Asleep(us, q) == Asleep(others, q[1..] + Names(woken))
  {
  }

  lemma AwakeNone(front: seq<Unverified>, us: seq<Unverified>)
    ensures front + Awake(us, []) == front && Asleep(us, []) == us
  {
  }

  lemma NextWoken(front: seq<Unverified>, hs: seq<Hash>, us: seq<Unverified>)
    requires us != []
    ensures front + [us[0]] + us[1..] == front + us
    ensures hs + [us[0].hash] + Names(us[1..]) == hs + Names(us)
  {
  }

  // --------------------------------------------------------- the queue in one value

  /// The line, how much of it is verified, and what the sets and the history say about it.
  datatype View = View(line: seq<Job>, verified: nat, ready: set<Hash>, settled: set<Hash>, bad: set<Hash>,
                       log: seq<Entry>, drained: seq<Job>)

  /// m_readySet is exactly the set of the line's hashes, none of which comes twice; parents are
  /// known; and what entered m_verified, before and after draining, and then what waits, are the
  /// blocks that entered m_unverified, in the same order, without those that were thrown out.
  ghost predicate Good(v: View) {
    && v.verified <= |v.line|
    && Distinct(v.line) && (forall h :: h in v.ready <==> Listed(v.line, h))
    && ParentsOk(v.line, v.verified, v.settled, v.bad)
    && With(v.log, Passed) == v.drained + v.line[..v.verified]
    && With(v.log, Waiting) == v.line[v.verified..]
    && InOrder(v.log)
  }

  /// The n-th waiting block is thrown out.
  function Rejected(v: View, n: nat, verdict: Verdict): View
    requires v.verified + n < |v.line| && With(v.log, Waiting) == v.line[v.verified..]
  {
    var r := v.verified + n;
    v.(line := Cut(v.line, r), ready := v.ready - {v.line[r].hash}, bad := v.bad + {v.line[r].hash},
       log := Settle(v.log, n, verdict))
  }

  lemma {:induction false} SettleFollows(log: seq<Entry>, n: nat, verdict: Verdict)
    requires n < |With(log, Waiting)| && !verdict.Waiting?
    ensures var job := With(log, Waiting)[n];
            Follows(log, Settle(log, n, verdict), if verdict.Threw? then {job.hash} else {},
                    if verdict.BadParent? then {job.parent} else {})
  {
  }

  lemma {:induction false} RejectedLog(v: View, n: nat, verdict: Verdict)
    requires Good(v) && v.verified + n < |v.line| && (verdict.Threw? || verdict.BadParent?)
    ensures var w := Rejected(v, n, verdict);
            && w.verified <= |w.line|
            && With(w.log, Passed) == w.drained + w.line[..w.verified]
            && With(w.log, Waiting) == w.line[w.verified..] && InOrder(w.log)
  {
    SettleWaiting(v.log, n, verdict);
    SettleInOrder(v.log, n, verdict);
    CutAfter(v.line, v.verified, n);
  }

  lemma CutAfter(line: seq<Job>, verified: nat, n: nat)
    requires verified + n < |line|
    ensures Cut(line, verified + n)[..verified] == line[..verified]
    ensures Cut(line, verified + n)[verified..] == Cut(line[verified..], n)
  {
  }

  lemma {:induction false} RejectedGood(v: View, n: nat, verdict: Verdict)
    requires Good(v) && v.verified + n < |v.line| && (verdict.Threw? || verdict.BadParent?)
    ensures Good(Rejected(v, n, verdict))
    ensures Follows(v.log, Rejected(v, n, verdict).log, if verdict.Threw? then {v.line[v.verified + n].hash} else {},
                    if verdict.BadParent? then {v.line[v.verified + n].parent} else {})
  {
    hide Distinct, ParentsOk, InOrder, With, Follows, Settle, Cut, Listed;
    var r := v.verified + n;
    CutDistinct(v.line, r);
    CutParents(v.line, r, v.verified, v.settled, v.bad);
    RejectedLog(v, n, verdict);
    SettleFollows(v.log, n, verdict);
  }

  /// The first waiting block is verified.
  function Accepted(v: View): View
    requires v.verified < |v.line| && With(v.log, Waiting) == v.line[v.verified..]
  {
    v.(verified := v.verified + 1, log := Settle(v.log, 0, Passed))
  }

  lemma {:induction false} AcceptedGood(v: View)
    requires Good(v) && v.verified < |v.line| && v.line[v.verified].parent !in v.bad
    ensures Good(Accepted(v)) && Follows(v.log, Accepted(v).log, {}, {})
  {
    hide Distinct, ParentsOk, InOrder, With, Follows, Settle, Cut, Listed;
    SettleWaiting(v.log, 0, Passed);
    SettlePassed(v.log);
    SettleInOrder(v.log, 0, Passed);
    SettleFollows(v.log, 0, Passed);
    AcceptParents(v.line, v.verified, v.settled, v.bad);
    AcceptLine(v.line, v.verified, v.drained);
  }

  lemma AcceptParents(line: seq<Job>, verified: nat, settled: set<Hash>, bad: set<Hash>)
    requires ParentsOk(line, verified, settled, bad) && verified < |line| && line[verified].parent !in bad
    ensures ParentsOk(line, verified + 1, settled, bad)
  {
    var more := verified + 1;
    forall i ensures ParentOk(line, i, more, settled, bad) {
      assert ParentOk(line, i, verified, settled, bad);
    }
  }

  lemma AcceptLine(line: seq<Job>, verified: nat, drained: seq<Job>)
    requires verified < |line|
    ensures Cut(line[verified..], 0) == line[verified + 1..]
    ensures drained + line[..verified + 1] == drained + line[..verified] + [line[verified..][0]]
  {
  }

  /// A block joins the line at its end.
  function Joined(v: View, job: Job): View {
    v.(line := v.line + [job], ready := v.ready + {job.hash}, log := v.log + [Entry(job, Waiting)])
  }

  lemma {:induction false} JoinedGood(v: View, job: Job)
    requires Good(v) && job.hash !in v.ready && (job.parent in v.settled || job.parent in v.ready)
    ensures Good(Joined(v, job)) && Follows(v.log, Joined(v, job).log, {}, {})
  {
    SnocLine(v.line, job, v.verified, v.settled, v.bad);
    forall i, j ensures PassesLater(v.log + [Entry(job, Waiting)], i, j) {
      assert PassesLater(v.log, i, j);
    }
    WithSnoc(v.log, Entry(job, Waiting), Waiting);
    WithSnoc(v.log, Entry(job, Waiting), Passed);
    assert (v.line + [job])[..v.verified] == v.line[..v.verified];
    assert (v.line + [job])[v.verified..] == v.line[v.verified..] + [job];
  }

  /// The first n verified blocks are drained.
  function Taken(v: View, n: nat): View
    requires n <= v.verified <= |v.line|
  {
    v.(line := v.line[n..], verified := v.verified - n, ready := v.ready - Hashes(v.line[..n]),
       settled := v.settled + Hashes(v.line[..n]), drained := v.drained + v.line[..n])
  }

  lemma {:induction false} TakenGood(v: View, n: nat)
    requires Good(v) && n <= v.verified
    ensures Good(Taken(v, n))
    ensures forall i :: 0 <= i < n ==> v.line[i].parent in v.settled || Listed(v.line[..i], v.line[i].parent)
  {
    TakeLine(v.line, n, v.verified, v.settled, v.bad);
    assert v.line[..n] + v.line[n..][..v.verified - n] == v.line[..v.verified];
    assert v.drained + v.line[..n] + v.line[n..][..v.verified - n] == v.drained + v.line[..v.verified];
    assert v.line[n..][v.verified - n..] == v.line[v.verified..];
  }

  /// Thus in a good queue all that entered m_verified, and then all that waits, is exactly what
  /// entered m_unverified and was not thrown out, in the same order.
  lemma {:induction false} GoodKeepsOrder(v: View)
    requires Good(v)
    ensures Kept(v.log) == v.drained + v.line
  {
    KeptInOrder(v.log);
    assert v.drained + v.line[..v.verified] + v.line[v.verified..] == v.drained + v.line;
  }

  lemma FollowsSame(a: seq<Entry>, b: seq<Entry>, c: seq<Entry>)
    requires Follows(a, b, {}, {}) && Follows(b, c, {}, {})
    ensures Follows(a, c, {}, {})
  {
  }

  lemma EmptyGood(settled: set<Hash>)
    ensures Good(View([], 0, {}, settled + {}, {}, [], []))
  {
  }

  lemma FollowsOn(a: seq<Entry>, b: seq<Entry>, c: seq<Entry>, thrown: set<Hash>, bad: set<Hash>, more: set<Hash>)
    requires Follows(a, b, thrown, bad) && Follows(b, c, {}, more)
    ensures Follows(a, c, thrown, bad + more)
  {
  }

  // ---------------------------------------------------------------------- the queue

  /// The line as it is while a finished block is between m_verifying and m_verified.
  lemma FrontLine(verified: seq<Verified>, block: Verified, slots: seq<Verified>, raw: seq<Unverified>)
    ensures var line := Jobs(verified) + Jobs([block] + slots) + RawJobs(raw);
            && |verified| < |line| && line[|verified|] == JobOf(block)
            && Jobs(verified) + Jobs(slots) + RawJobs(raw) == Cut(line, |verified|)
            && Jobs(verified + [block]) + Jobs(slots) + RawJobs(raw) == line
  {
  }

  /// The line does not notice that a verifier takes a block.
  lemma StartLine(slots: seq<Verified>, raw: seq<Unverified>)
    requires raw != []
    ensures Jobs(slots + [Verified(Header(0, raw[0].parentHash, raw[0].hash), [])]) + RawJobs(raw[1..])
         == Jobs(slots) + RawJobs(raw)
  {
  }

  /// The places of the other verifiers are still marked.
  ghost predicate SlotsKept(was: seq<Verified>, now: seq<Verified>, except: set<Hash>) {
    forall v <- was :: v.blockData == [] && v.info.sha3Uncles !in except ==> v in now
  }

  lemma FrontKept(slots: seq<Verified>, res: Verified, h: Hash)
    requires slots != [] && slots[0].info.sha3Uncles == h
    ensures [res] + slots[1..] == slots[0 := res] && SlotsKept(slots, slots[1..], {h})
  {
  }

  lemma KeptOn(a: seq<Verified>, b: seq<Verified>, c: seq<Verified>, except: set<Hash>)
    requires SlotsKept(a, b, except) && SlotsKept(b, c, {})
    ensures SlotsKept(a, c, except)
  {
  }

  /// Unfinished slots carry hashes of blocks, finished ones hashes of lists of uncles.
  predicate SlotsOk(verified: seq<Verified>, slots: seq<Verified>, raw: seq<Unverified>) {
    && (forall v <- verified :: v.blockData != [])
    && (forall v <- slots :: v.blockData != [] <==> IsUnclesHash(v.info.sha3Uncles))
    && (forall u <- raw :: u.blockData != [] && !IsUnclesHash(u.hash))
  }

  predicate UnknownOk(us: seq<Unverified>, unknownSet: set<Hash>, readySet: set<Hash>) {
    && Unique(us) && unknownSet == HashSet(us) && unknownSet !! readySet
    && forall u <- us :: u.blockData != [] && !IsUnclesHash(u.hash)
  }

  /// A verifier's work has its slot until the verifier is done with it.
  predicate Marked(slots: seq<Verified>, work: Unverified) {
    Verified(Header(0, work.parentHash, work.hash), []) in slots && work.blockData != []
  }

  lemma StartSlots(verified: seq<Verified>, slots: seq<Verified>, raw: seq<Unverified>)
    requires SlotsOk(verified, slots, raw) && raw != []
    ensures var more := slots + [Verified(Header(0, raw[0].parentHash, raw[0].hash), [])];
            SlotsOk(verified, more, raw[1..]) && Marked(more, raw[0]) && SlotsKept(slots, more, {})
  {
    assert raw[0] in raw;
    forall u | u in raw[1..] ensures u in raw {
    }
  }

  /// SizedBlockQueue::remove: takes out every slot whose header has this for the uncles' hash.
  function Remove(slots: seq<Verified>, h: Hash): (r: seq<Verified>)
    ensures forall v :: v in r <==> v in slots && v.info.sha3Uncles != h
  {
    if slots == [] then []
    else (if slots[0].info.sha3Uncles != h then [slots[0]] else []) + Remove(slots[1..], h)
  }

  lemma {:induction false} RemoveNone(slots: seq<Verified>, h: Hash)
    requires forall v <- slots :: v.info.sha3Uncles != h
    ensures Remove(slots, h) == slots
  {
    if slots != [] {
      RemoveNone(slots[1..], h);
    }
  }

  lemma {:induction false} RemoveOne(slots: seq<Verified>, h: Hash, n: nat)
    requires n < |slots| && slots[n].info.sha3Uncles == h
    requires forall i :: 0 <= i < |slots| && i != n ==> slots[i].info.sha3Uncles != h
    ensures Remove(slots, h) == slots[..n] + slots[n + 1..]
  {
    var rest := slots[1..];
    forall i | 0 <= i < |rest| && i + 1 != n ensures rest[i].info.sha3Uncles != h {
      assert rest[i] == slots[i + 1];
    }
    if n == 0 {
      RemoveNone(rest, h);
      assert slots[..0] + rest == rest;
    } else {
      RemoveOne(rest, h, n - 1);
      WithoutLater(slots, n);
    }
    hide Remove;
  }

  lemma WithoutLater(slots: seq<Verified>, n: nat)
    requires 0 < n < |slots|
    ensures slots[..n] + slots[n + 1..] == [slots[0]] + (slots[1..][..n - 1] + slots[1..][n..])
  {
  }

  /// What remove by hash takes out of a queue without duplicates is the one slot of the work.
  lemma {:induction false} RemoveSlot(verified: seq<Verified>, slots: seq<Verified>, raw: seq<Unverified>,
                                      work: Unverified)
      returns (n: nat)
    requires SlotsOk(verified, slots, raw) && Marked(slots, work)
             && Distinct(Jobs(verified) + Jobs(slots) + RawJobs(raw))
    ensures var line, r, left := Jobs(verified) + Jobs(slots) + RawJobs(raw), |verified| + n, Remove(slots, work.hash);
            && r < |line| && line[r] == Job(work.hash, work.parentHash)
            && Jobs(verified) + Jobs(left) + RawJobs(raw) == Cut(line, r)
            && SlotsOk(verified, left, raw) && SlotsKept(slots, left, {work.hash})
  {
    var mark := Verified(Header(0, work.parentHash, work.hash), []);
    n :| 0 <= n < |slots| && slots[n] == mark;
    OnlySlot(verified, slots, raw, n);
    RemoveOne(slots, work.hash, n);
    CutSlot(verified, slots, raw, n);
  }

  lemma OnlySlot(verified: seq<Verified>, slots: seq<Verified>, raw: seq<Unverified>, n: nat)
    requires SlotsOk(verified, slots, raw) && Distinct(Jobs(verified) + Jobs(slots) + RawJobs(raw))
    requires n < |slots| && slots[n].blockData == []
    ensures forall i :: 0 <= i < |slots| && i != n ==> slots[i].info.sha3Uncles != slots[n].info.sha3Uncles
  {
    var line := Jobs(verified) + Jobs(slots) + RawJobs(raw);
    forall i | 0 <= i < |slots| && i != n ensures slots[i].info.sha3Uncles != slots[n].info.sha3Uncles {
      assert slots[i] in slots && slots[n] in slots;
      assert line[|verified| + i] == JobOf(slots[i]) && line[|verified| + n] == JobOf(slots[n]);
      assert Differ(line, |verified| + i, |verified| + n) && Differ(line, |verified| + n, |verified| + i);
    }
  }

  lemma CutSlot(verified: seq<Verified>, slots: seq<Verified>, raw: seq<Unverified>, n: nat)
    requires n < |slots|
    ensures var line := Jobs(verified) + Jobs(slots) + RawJobs(raw);
            && line[|verified| + n] == JobOf(slots[n])
            && Jobs(verified) + Jobs(slots[..n] + slots[n + 1..]) + RawJobs(raw) == Cut(line, |verified| + n)
  {
  }

  /// What it does to a queue whose verification threw is to reject that block.
  lemma {:induction false} FailedIs(v: View, verified: seq<Verified>, slots: seq<Verified>, raw: seq<Unverified>,
                                    work: Unverified)
      returns (n: nat)
    requires v.line == Jobs(verified) + Jobs(slots) + RawJobs(raw) && v.verified == |verified| && Distinct(v.line)
    requires With(v.log, Waiting) == v.line[v.verified..]
    requires SlotsOk(verified, slots, raw) && Marked(slots, work)
    ensures var left := Remove(slots, work.hash);
            && v.verified + n < |v.line| && v.line[v.verified + n].hash == work.hash
            && Rejected(v, n, Threw)
               == v.(line := Jobs(verified) + Jobs(left) + RawJobs(raw), ready := v.ready - {work.hash},
                     bad := v.bad + {work.hash}, log := Settle(v.log, n, Threw))
            && SlotsOk(verified, left, raw) && SlotsKept(slots, left, {work.hash})
  {
    hide SlotsOk, SlotsKept, Remove, Settle, Cut, Jobs, RawJobs, With, Rejected, Distinct;
    n := RemoveSlot(verified, slots, raw, work);
    RejectedAs(v, n, Cut(v.line, v.verified + n), work.hash);
  }

  lemma RejectedAs(v: View, n: nat, line: seq<Job>, h: Hash)
    requires v.verified + n < |v.line| && With(v.log, Waiting) == v.line[v.verified..]
    requires line == Cut(v.line, v.verified + n) && h == v.line[v.verified + n].hash
    ensures Rejected(v, n, Threw)
         == v.(line := line, ready := v.ready - {h}, bad := v.bad + {h}, log := Settle(v.log, n, Threw))
  {
  }

  /// All that holds between two steps, but for the front of the line.
  ghost predicate Whole(v: View, verified: seq<Verified>, slots: seq<Verified>, raw: seq<Unverified>,
                        us: seq<Unverified>, unknownSet: set<Hash>)
  {
    Good(v) && SlotsOk(verified, slots, raw) && UnknownOk(us, unknownSet, v.ready)
  }

  lemma {:induction false} FailedWhole(v: View, verified: seq<Verified>, slots: seq<Verified>, raw: seq<Unverified>,
                                       us: seq<Unverified>, unknownSet: set<Hash>, work: Unverified) returns (log: seq<Entry>)
    requires Whole(v, verified, slots, raw, us, unknownSet) && Marked(slots, work)
    requires v.line == Jobs(verified) + Jobs(slots) + RawJobs(raw) && v.verified == |verified|
    ensures var left := Remove(slots, work.hash);
            && Whole(v.(line := Jobs(verified) + Jobs(left) + RawJobs(raw), ready := v.ready - {work.hash},
                        bad := v.bad + {work.hash}, log := log), verified, left, raw, us, unknownSet)
            && Follows(v.log, log, {work.hash}, {}) && SlotsKept(slots, left, {work.hash})
  {
    var n := FailedIs(v, verified, slots, raw, work);
    RejectedGood(v, n, Threw);
    RemoveUnknown(v, us, unknownSet, work.hash);
    log := Settle(v.log, n, Threw);
    hide Good, Follows, SlotsOk, UnknownOk, SlotsKept, Remove, Settle, Cut, Jobs, RawJobs, With, Rejected;
  }

  /// A finished block in the place of its mark, wherever that is, changes nothing in the line.
  lemma {:induction false} Finished(verified: seq<Verified>, slots: seq<Verified>, raw: seq<Unverified>,
                                    work: Unverified, res: Verified)
    requires SlotsOk(verified, slots, raw) && Marked(slots, work)
             && Distinct(Jobs(verified) + Jobs(slots) + RawJobs(raw))
    requires res.info.hash == work.hash && res.info.parentHash == work.parentHash && res.blockData == work.blockData
    requires IsUnclesHash(res.info.sha3Uncles)
    ensures exists v <- slots :: v.info.sha3Uncles == work.hash
    ensures forall n :: 0 <= n < |slots| && slots[n].info.sha3Uncles == work.hash ==>
              Jobs(slots[n := res]) == Jobs(slots)
              && SlotsOk(verified, slots[n := res], raw) && SlotsKept(slots, slots[n := res], {work.hash})
  {
    var mark := Verified(Header(0, work.parentHash, work.hash), []);
    var m :| 0 <= m < |slots| && slots[m] == mark;
    OnlySlot(verified, slots, raw, m);
    forall n | 0 <= n < |slots| && slots[n].info.sha3Uncles == work.hash
      ensures Jobs(slots[n := res]) == Jobs(slots)
           && SlotsOk(verified, slots[n := res], raw) && SlotsKept(slots, slots[n := res], {work.hash})
    {
      FinishedAt(verified, slots, raw, n, res);
    }
  }

  lemma {:induction false} FinishedWhole(v: View, verified: seq<Verified>, slots: seq<Verified>, raw: seq<Unverified>,
                                         us: seq<Unverified>, unknownSet: set<Hash>, work: Unverified, res: Verified)
    requires Whole(v, verified, slots, raw, us, unknownSet) && Marked(slots, work)
    requires v.line == Jobs(verified) + Jobs(slots) + RawJobs(raw)
    requires res.info.hash == work.hash && res.info.parentHash == work.parentHash && res.blockData == work.blockData
    requires IsUnclesHash(res.info.sha3Uncles)
    ensures exists s <- slots :: s.info.sha3Uncles == work.hash
    ensures forall n :: 0 <= n < |slots| && slots[n].info.sha3Uncles == work.hash ==>
              Jobs(slots[n := res]) == Jobs(slots)
              && Whole(v, verified, slots[n := res], raw, us, unknownSet) && SlotsKept(slots, slots[n := res], {work.hash})
  {
    Finished(verified, slots, raw, work, res);
  }

  lemma FinishedAt(verified: seq<Verified>, slots: seq<Verified>, raw: seq<Unverified>, n: nat, res: Verified)
    requires SlotsOk(verified, slots, raw) && n < |slots| && JobOf(res) == JobOf(slots[n]) && slots[n].blockData == []
    requires res.blockData != [] && IsUnclesHash(res.info.sha3Uncles)
    ensures Jobs(slots[n := res]) == Jobs(slots) && SlotsOk(verified, slots[n := res], raw)
    ensures SlotsKept(slots, slots[n := res], {slots[n].info.sha3Uncles})
  {
    var now := slots[n := res];
    forall v | v in now && v != res ensures v in slots {
    }
    forall v | v in slots && v != slots[n] ensures v in now {
      var i :| 0 <= i < |slots| && slots[i] == v;
      assert now[i] == v;
    }
  }

  // ------------------------------------------------------------ what is released

  /// What is left of m_verifying: from the first block on that is not finished.
  function Left(slots: seq<Verified>): seq<Verified> {
    if slots == [] || slots[0].blockData == [] then slots else Left(slots[1..])
  }

  /// The blocks before it that go to m_verified.
  function Passing(slots: seq<Verified>, bad: set<Hash>): seq<Verified> {
    if slots == [] || slots[0].blockData == [] then []
    else if slots[0].info.parentHash in bad then Passing(slots[1..], bad + {slots[0].info.hash})
    else [slots[0]] + Passing(slots[1..], bad)
  }

  /// And all that is known to be bad then.
  function Spoilt(slots: seq<Verified>, bad: set<Hash>): set<Hash> {
    if slots == [] || slots[0].blockData == [] then bad
    else Spoilt(slots[1..], if slots[0].info.parentHash in bad then bad + {slots[0].info.hash} else bad)
  }

  /// All finished blocks before the first unfinished one are released: with a parent that is not bad
  /// they pass, and otherwise they are bad too.
  lemma {:induction false} Released(slots: seq<Verified>, bad: set<Hash>) returns (k: nat)
    ensures k <= |slots| && Left(slots) == slots[k..] && (k < |slots| ==> slots[k].blockData == [])
    ensures forall i :: 0 <= i < k ==> slots[i].blockData != []
    ensures bad <= Spoilt(slots, bad)
    ensures forall v <- Passing(slots, bad) :: v in slots[..k] && v.info.parentHash !in bad
    ensures forall i :: 0 <= i < k ==>
              slots[i] in Passing(slots, bad)
              || (slots[i].info.parentHash in Spoilt(slots, bad) && slots[i].info.hash in Spoilt(slots, bad))
    ensures forall h <- Spoilt(slots, bad) :: h in bad || exists i :: 0 <= i < k && slots[i].info.hash == h
  {
    if slots == [] || slots[0].blockData == [] {
      return 0;
    }
    var more := if slots[0].info.parentHash in bad then bad + {slots[0].info.hash} else bad;
    var n := Released(slots[1..], more);
    k := n + 1;
    assert slots[..k] == [slots[0]] + slots[1..][..n];
    forall h | h in Spoilt(slots, bad) && h !in bad ensures exists i :: 0 <= i < k && slots[i].info.hash == h {
      if h in more {
        assert slots[0].info.hash == h;
      } else {
        var i :| 0 <= i < n && slots[1..][i].info.hash == h;
        assert slots[i + 1].info.hash == h;
      }
    }
    forall i | 0 <= i < k
      ensures slots[i].blockData != []
      ensures slots[i] in Passing(slots, bad)
              || (slots[i].info.parentHash in Spoilt(slots, bad) && slots[i].info.hash in Spoilt(slots, bad))
    {
      if i > 0 {
        assert slots[1..][i - 1] == slots[i];
      }
    }
  }

  lemma ReleaseFirst(passed: seq<Verified>, slots: seq<Verified>, bad: set<Hash>)
    requires slots != [] && slots[0].blockData != []
    ensures var spoils := slots[0].info.parentHash in bad;
            var more, now := if spoils then bad + {slots[0].info.hash} else bad, if spoils then passed else passed + [slots[0]];
            && Left(slots) == Left(slots[1..]) && Spoilt(slots, bad) == Spoilt(slots[1..], more)
            && passed + Passing(slots, bad) == now + Passing(slots[1..], more)
  {
  }

  lemma ReleaseNone(passed: seq<Verified>, slots: seq<Verified>, bad: set<Hash>)
    requires slots == [] || slots[0].blockData == []
    ensures Left(slots) == slots && Spoilt(slots, bad) == bad && passed + Passing(slots, bad) == passed
  {
  }

  lemma SameLog(log: seq<Entry>, bad: set<Hash>)
    ensures Follows(log, log, {}, bad)
  {
  }

  lemma RawSnoc(verified: seq<Verified>, slots: seq<Verified>, raw: seq<Unverified>, u: Unverified)
    requires SlotsOk(verified, slots, raw) && u.blockData != [] && !IsUnclesHash(u.hash)
    ensures SlotsOk(verified, slots, raw + [u])
    ensures Jobs(verified) + Jobs(slots) + RawJobs(raw + [u])
         == Jobs(verified) + Jobs(slots) + RawJobs(raw) + [Job(u.hash, u.parentHash)]
  {
  }

  /// While children are taken over one by one: those from the i-th on are still unknown.
  ghost predicate Pending(us: seq<Unverified>, removed: seq<Unverified>, parent: Hash, unknownSet: set<Hash>,
                          readySet: set<Hash>) {
    && UnknownOk(us, HashSet(us), readySet)
    && UnknownOk(removed, HashSet(removed), readySet)
    && unknownSet == HashSet(us) + HashSet(removed) && HashSet(us) !! HashSet(removed)
    && forall u <- removed :: u.parentHash == parent
  }

  lemma PendingStart(us: seq<Unverified>, parent: Hash, unknownSet: set<Hash>, readySet: set<Hash>)
    requires UnknownOk(us, unknownSet, readySet)
    ensures Pending(Others(us, parent), Children(us, parent), parent, unknownSet, readySet)
  {
    SplitUnique(us, parent);
  }

  lemma PendingStep(us: seq<Unverified>, removed: seq<Unverified>, parent: Hash, unknownSet: set<Hash>,
                    readySet: set<Hash>)
    requires Pending(us, removed, parent, unknownSet, readySet) && removed != []
    ensures var u := removed[0];
            && u.hash !in readySet && u.hash in unknownSet && u.parentHash == parent
            && u.blockData != [] && !IsUnclesHash(u.hash)
            && Pending(us, removed[1..], parent, unknownSet - {u.hash}, readySet + {u.hash})
  {
    var u, rest := removed[0], removed[1..];
    assert u in removed && u.hash in HashSet(removed);
    forall v | v in rest ensures v in removed && v.hash != u.hash {
      var i :| 0 <= i < |rest| && rest[i] == v;
      assert removed[i + 1] == v;
    }
    assert HashSet(rest) == HashSet(removed) - {u.hash} by {
      forall h | h in HashSet(removed) && h != u.hash ensures h in HashSet(rest) {
        var v :| v in removed && v.hash == h;
        var i :| 0 <= i < |removed| && removed[i] == v;
        assert rest[i - 1] == v;
      }
    }
  }

  lemma PendingEnd(us: seq<Unverified>, parent: Hash, unknownSet: set<Hash>, readySet: set<Hash>)
    requires Pending(us, [], parent, unknownSet, readySet)
    ensures UnknownOk(us, unknownSet, readySet)
  {
    assert HashSet(us) + HashSet([]) == HashSet(us);
  }

  lemma HashesSnoc(line: seq<Job>, i: nat)
    requires i < |line|
    ensures Hashes(line[..i + 1]) == Hashes(line[..i]) + {line[i].hash}
  {
    var more := line[..i + 1];
    assert more[i] == line[i];
    forall k | 0 <= k < i ensures line[..i][k].hash in Hashes(more) && more[k].hash in Hashes(line[..i]) {
      assert line[..i][k] == more[k];
    }
  }

  lemma MoreSettled(v: View, hashes: set<Hash>)
    requires Good(v)
    ensures Good(v.(settled := v.settled + hashes))
  {
    forall i ensures ParentOk(v.line, i, v.verified, v.settled + hashes, v.bad) {
      assert ParentOk(v.line, i, v.verified, v.settled, v.bad);
    }
  }

  lemma UnknownSnoc(us: seq<Unverified>, unknownSet: set<Hash>, readySet: set<Hash>, u: Unverified)
    requires UnknownOk(us, unknownSet, readySet)
    requires u.hash !in unknownSet && u.hash !in readySet && u.blockData != [] && !IsUnclesHash(u.hash)
    ensures UnknownOk(us + [u], unknownSet + {u.hash}, readySet)
  {
    forall i | 0 <= i < |us| ensures us[i].hash in HashSet(us) {
    }
    assert u in us + [u];
  }

  /// The first n verified blocks are the first n of the line.
  lemma DrainedLine(verified: seq<Verified>, slots: seq<Verified>, raw: seq<Unverified>, n: nat)
    requires n <= |verified| && SlotsOk(verified, slots, raw)
    ensures var line := Jobs(verified) + Jobs(slots) + RawJobs(raw);
            && line[..n] == Jobs(verified[..n])
            && line[n..] == Jobs(verified[n..]) + Jobs(slots) + RawJobs(raw)
            && forall i :: 0 <= i < n ==> line[i] == Job(verified[i].info.hash, verified[i].info.parentHash)
    ensures SlotsOk(verified[n..], slots, raw) && SlotsOk(verified[..n], slots, raw)
  {
    forall i | 0 <= i < |verified| ensures verified[i].blockData != [] {
      assert verified[i] in verified;
    }
  }

  lemma {:induction false} DrainGood(v: View, verified: seq<Verified>, slots: seq<Verified>, raw: seq<Unverified>,
                                     n: nat, chain: set<Hash>)
    requires Good(v) && v.line == Jobs(verified) + Jobs(slots) + RawJobs(raw) && v.verified == |verified|
    requires n <= |verified| && SlotsOk(verified, slots, raw) && v.settled == chain + {}
    ensures var out := Jobs(verified[..n]);
            && Good(View(Jobs(verified[n..]) + Jobs(slots) + RawJobs(raw), |verified[n..]|, v.ready - Hashes(out),
                         chain + ({} + Hashes(out)), v.bad, v.log, v.drained + out))
            && SlotsOk(verified[n..], slots, raw) && SlotsOk(verified[..n], slots, raw)
            && ParentsFirst(verified[..n], chain)
  {
    TakenGood(v, n);
    DrainedLine(verified, slots, raw, n);
    assert chain + ({} + Hashes(v.line[..n])) == v.settled + Hashes(v.line[..n]);
    forall i | 0 <= i < n ensures ParentBefore(verified[..n], i, chain) {
      if v.line[i].parent !in v.settled {
        var k :| 0 <= k < i && v.line[..i][k].hash == v.line[i].parent;
        assert verified[..n][k].info.hash == verified[i].info.parentHash;
      }
    }
  }

  /// The parent of every block of a batch is in the chain or comes earlier in the batch.
  ghost predicate ParentsFirst(out: seq<Verified>, chain: set<Hash>) {
    forall i :: 0 <= i < |out| ==> ParentBefore(out, i, chain)
  }

  ghost predicate ParentBefore(out: seq<Verified>, i: nat, chain: set<Hash>)
    requires i < |out|
  {
    out[i].info.parentHash in chain || exists k :: 0 <= k < i && out[k].info.hash == out[i].info.parentHash
  }

  lemma {:induction false} DrainWhole(v: View, verified: seq<Verified>, slots: seq<Verified>, raw: seq<Unverified>,
                                      us: seq<Unverified>, unknownSet: set<Hash>, n: nat, chain: set<Hash>)
    requires Whole(v, verified, slots, raw, us, unknownSet)
    requires v.line == Jobs(verified) + Jobs(slots) + RawJobs(raw) && v.verified == |verified|
    requires n <= |verified| && v.settled == chain + {}
    ensures var out := Jobs(verified[..n]);
            && Whole(View(Jobs(verified[n..]) + Jobs(slots) + RawJobs(raw), |verified[n..]|, v.ready - Hashes(out),
                          chain + ({} + Hashes(out)), v.bad, v.log, v.drained + out), verified[n..], slots, raw, us, unknownSet)
            && ParentsFirst(verified[..n], chain) && (forall b <- verified[..n] :: b.blockData != [])
  {
    DrainGood(v, verified, slots, raw, n, chain);
    FewerReady(us, unknownSet, v.ready, Hashes(Jobs(verified[..n])));
  }

  lemma NoBatch(chain: set<Hash>)
    ensures Jobs([]) == [] && Hashes(Jobs([])) == {} && ParentsFirst([], chain)
  {
  }

  lemma FewerReady(us: seq<Unverified>, unknownSet: set<Hash>, readySet: set<Hash>, gone: set<Hash>)
    requires UnknownOk(us, unknownSet, readySet)
    ensures UnknownOk(us, unknownSet, readySet - gone)
  {
  }

  lemma RemoveUnknown(v: View, us: seq<Unverified>, unknownSet: set<Hash>, h: Hash)
    requires UnknownOk(us, unknownSet, v.ready)
    ensures UnknownOk(us, unknownSet, v.ready - {h})
  {
  }

  datatype ImportResult = Success | UnknownParent | AlreadyInChain | AlreadyKnown | Malformed | Future

  class BlockQueue {
    var chain: set<Hash>
    var drainingSet: set<Hash>
    var readySet: set<Hash>
    var unknownSet: set<Hash>
    var knownBad: set<Hash>
    var unknown: seq<Unverified>
    var verified: seq<Verified>
    var verifying: seq<Verified>
    var unverified: seq<Unverified>

    /// Every block that ever entered m_unverified, and every block that was ever drained.
    ghost var log: seq<Entry>
    ghost var drained: seq<Job>

    constructor (chain: set<Hash>)
      ensures Valid() && this.chain == chain && log == [] && drained == []
      ensures drainingSet == readySet == unknownSet == knownBad == {}
    {
      this.chain, drainingSet, readySet, unknownSet, knownBad := chain, {}, {}, {}, {};
      unknown, verified, verifying, unverified := [], [], [], [];
      log, drained := [], [];
      new;
      EmptyGood(chain);
      assert Seen(verifying) == View([], 0, {}, chain + {}, {}, [], []);
      hide Good;
    }

    /// All blocks that are ready for the chain or on their way, in order.
    ghost function Line(slots: seq<Verified>): seq<Job>
      reads this
    {
      Jobs(verified) + Jobs(slots) + RawJobs(unverified)
    }

    ghost function Seen(slots: seq<Verified>): View
      reads this
    {
      View(Line(slots), |verified|, readySet, chain + drainingSet, knownBad, log, drained)
    }

    ghost predicate Core(slots: seq<Verified>)
      reads this
    {
      Whole(Seen(slots), verified, slots, unverified, unknown, unknownSet)
    }

    /// Between the locked regions the first block being verified is not finished.
    ghost predicate Valid()
      reads this
    {
      Core(verifying) && (verifying != [] ==> verifying[0].blockData == [])
    }

    predicate InFlight(work: Unverified)
      reads this
    {
      Marked(verifying, work)
    }

    /// verifierBody, first region: a verifier takes the next block and marks its place.
    method Start() returns (work: Unverified)
      requires Valid() && unverified != []
      modifies this`unverified, this`verifying
      ensures Valid() && InFlight(work) && work == old(unverified[0]) && unverified == old(unverified)[1..]
      ensures Line(verifying) == old(Line(verifying))
      ensures verifying == old(verifying) + [Verified(Header(0, work.parentHash, work.hash), [])]
      ensures SlotsKept(old(verifying), verifying, {})
    {
      hide Good, Jobs, RawJobs, SlotsOk, UnknownOk, SlotsKept, Marked;
      StartLine(verifying, unverified);
      StartSlots(verified, verifying, unverified);
      PlusAssoc(Jobs(verified), Jobs(verifying), RawJobs(unverified));
      work := unverified[0];
      unverified := unverified[1..];
      var bi := Header(0, work.parentHash, work.hash);
      verifying := verifying + [Verified(bi, [])];
      PlusAssoc(Jobs(verified), Jobs(verifying), RawJobs(unverified));
      assert Seen(verifying) == old(Seen(verifying));
    }

    /// A finished block that has left m_verifying by its front: it is released, unless its parent
    /// is known to be bad.
    method Release(block: Verified)
      requires Core([block] + verifying) && block.blockData != []
      modifies this`verified, this`readySet, this`knownBad, this`log
      ensures Core(verifying)
      ensures Follows(old(log), log, {}, knownBad) && old(knownBad) <= knownBad && readySet <= old(readySet)
      ensures if block.info.parentHash in old(knownBad)
              then verified == old(verified) && knownBad == old(knownBad) + {block.info.hash}
              else verified == old(verified) + [block] && knownBad == old(knownBad)
    {
      ghost var was := Seen([block] + verifying);
      FrontLine(verified, block, verifying, unverified);
      if block.info.parentHash in knownBad {
        RejectedGood(was, 0, BadParent);
        readySet := readySet - {block.info.hash};
        knownBad := knownBad + {block.info.hash};
        log := Settle(log, 0, BadParent);
        assert Seen(verifying) == Rejected(was, 0, BadParent);
      } else {
        AcceptedGood(was);
        verified := verified + [block];
        log := Settle(log, 0, Passed);
        assert Seen(verifying) == Accepted(was);
      }
    }

    /// drainVerified: releases what is finished at the front.
    method DrainVerified()
      requires Core(verifying)
      modifies this`verified, this`verifying, this`readySet, this`knownBad, this`log
      ensures Valid()
      ensures Follows(old(log), log, {}, knownBad) && old(knownBad) <= knownBad && readySet <= old(readySet)
      ensures SlotsKept(old(verifying), verifying, {})
      ensures verified == old(verified) + Passing(old(verifying), old(knownBad))
      ensures verifying == Left(old(verifying)) && knownBad == Spoilt(old(verifying), old(knownBad))
    {
      hide Whole, Jobs, RawJobs, Follows, Passing, Left, Spoilt;
      SameLog(log, knownBad);
      while verifying != [] && verifying[0].blockData != []
        invariant Core(verifying)
        invariant Follows(old(log), log, {}, knownBad) && old(knownBad) <= knownBad && readySet <= old(readySet)
        invariant SlotsKept(old(verifying), verifying, {})
        invariant verified + Passing(verifying, knownBad) == old(verified) + Passing(old(verifying), old(knownBad))
        invariant Left(verifying) == Left(old(verifying))
        invariant Spoilt(verifying, knownBad) == Spoilt(old(verifying), old(knownBad))
        decreases |verifying|
      {
        var block := verifying[0];
        ghost var slots, before, bad := verifying, log, knownBad;
        ReleaseFirst(verified, slots, bad);
        verifying := verifying[1..];
        assert [block] + verifying == slots;
        Release(block);
        FollowsOn(old(log), before, log, {}, bad, knownBad);
        assert bad + knownBad == knownBad;
      }
      ReleaseNone(verified, verifying, knownBad);
    }

    /// verifierBody, after verifyBlock threw: the block is known to be bad and loses its place.
    method Failed(work: Unverified)
      requires Valid() && InFlight(work)
      modifies this`verified, this`verifying, this`readySet, this`knownBad, this`log
      ensures Valid() && work.hash in knownBad && work.hash !in readySet
      ensures Follows(old(log), log, {work.hash}, knownBad) && old(knownBad) <= knownBad && readySet <= old(readySet)
      ensures SlotsKept(old(verifying), verifying, {work.hash})
      ensures var slots, bad := Remove(old(verifying), work.hash), old(knownBad) + {work.hash};
              && verified == old(verified) + Passing(slots, bad)
              && verifying == Left(slots) && knownBad == Spoilt(slots, bad)
    {
      hide Whole, Jobs, RawJobs, SlotsKept, Marked, Remove, Follows, Passing, Left, Spoilt;
      ghost var was := Seen(verifying);
      ghost var settled := FailedWhole(was, verified, verifying, unverified, unknown, unknownSet, work);
      readySet := readySet - {work.hash};
      knownBad := knownBad + {work.hash};
      verifying := Remove(verifying, work.hash);
      log := settled;
      ghost var before, left := log, verifying;
      DrainVerified();
      FollowsOn(old(log), before, log, {work.hash}, {}, knownBad);
      assert {} + knownBad == knownBad;
      KeptOn(old(verifying), left, verifying, {work.hash});
    }

    /// A finished block that was first in line, and all that waited for it only.
    method ReleaseFrom(res: Verified)
      requires Core([res] + verifying) && res.blockData != []
      modifies this`verified, this`verifying, this`readySet, this`knownBad, this`log
      ensures Valid()
      ensures Follows(old(log), log, {}, knownBad) && old(knownBad) <= knownBad && readySet <= old(readySet)
      ensures SlotsKept(old(verifying), verifying, {})
      ensures var slots := [res] + old(verifying);
              && verified == old(verified) + Passing(slots, old(knownBad))
              && verifying == Left(slots) && knownBad == Spoilt(slots, old(knownBad))
    {
      hide Whole, Follows, SlotsKept;
      Release(res);
      ghost var before, bad := log, knownBad;
      DrainVerified();
      FollowsOn(old(log), before, log, {}, bad, knownBad);
      assert bad + knownBad == knownBad;
    }

    /// SizedBlockQueue::replace: the first slot with this for the uncles' hash.
    method Replace(h: Hash, t: Verified) returns (done: bool, ghost n: nat)
      modifies this`verifying
      ensures done ==> n < |old(verifying)| && old(verifying)[n].info.sha3Uncles == h && verifying == old(verifying)[n := t]
      ensures !done ==> verifying == old(verifying) && forall v <- verifying :: v.info.sha3Uncles != h
    {
      var it := 0;
      while it < |verifying| && verifying[it].info.sha3Uncles != h
        invariant it <= |verifying| && forall i :: 0 <= i < it ==> verifying[i].info.sha3Uncles != h
      {
        it := it + 1;
      }
      done, n := it < |verifying|, it;
      if done {
        verifying := verifying[it := t];
      }
    }

    /// verifierBody, after verifyBlock came back: the first in line is released, and with it all
    /// that only waited for it; any other takes its finished block to its slot.
    method Succeeded(work: Unverified, info: Header) returns (ready: bool)
      requires Valid() && InFlight(work)
      requires info.hash == work.hash && info.parentHash == work.parentHash && IsUnclesHash(info.sha3Uncles)
      modifies this`verified, this`verifying, this`readySet, this`knownBad, this`log
      ensures Valid()
      ensures Follows(old(log), log, {}, knownBad) && old(knownBad) <= knownBad && readySet <= old(readySet)
      ensures SlotsKept(old(verifying), verifying, {work.hash})
      ensures !ready ==> old(Seen(verifying)) == Seen(verifying)
      ensures ready <==> old(verifying)[0].info.sha3Uncles == work.hash
      ensures ready ==>
                var slots := old(verifying)[0 := Verified(info, work.blockData)];
                && verified == old(verified) + Passing(slots, old(knownBad))
                && verifying == Left(slots) && knownBad == Spoilt(slots, old(knownBad))
      ensures !ready ==>
                exists n :: 0 < n < |old(verifying)| && old(verifying)[n].info.sha3Uncles == work.hash
                            && verifying == old(verifying)[n := Verified(info, work.blockData)]
    {
      var res := Verified(info, work.blockData);
      ghost var slots := verifying;
      FinishedWhole(Seen(verifying), verified, verifying, unverified, unknown, unknownSet, work, res);
      hide Whole, Jobs, RawJobs, Marked, Remove, Follows;
      if verifying != [] && verifying[0].info.sha3Uncles == work.hash {
        FrontKept(slots, res, work.hash);
        verifying := verifying[1..];
        ReleaseFrom(res);
        KeptOn(slots, slots[1..], verifying, {work.hash});
        ready := true;
      } else {
        var done;
        ghost var n;
        done, n := Replace(work.hash, res);
        ready := false;
        SameLog(log, knownBad);
      }
    }

    /// A block joins the end of m_unverified.
    method Enqueue(u: Unverified)
      requires Good(Seen(verifying)) && SlotsOk(verified, verifying, unverified)
      requires u.hash !in readySet && u.blockData != [] && !IsUnclesHash(u.hash)
      requires u.parentHash in chain + drainingSet || u.parentHash in readySet
      modifies this`unverified, this`readySet, this`log
      ensures Seen(verifying) == Joined(old(Seen(verifying)), Job(u.hash, u.parentHash))
      ensures Good(Seen(verifying)) && SlotsOk(verified, verifying, unverified)
      ensures Follows(old(log), log, {}, {}) && readySet == old(readySet) + {u.hash}
      ensures unverified == old(unverified) + [u]
    {
      hide Good, Jobs, RawJobs, Follows;
      ghost var was, job := Seen(verifying), Job(u.hash, u.parentHash);
      JoinedGood(was, job);
      RawSnoc(verified, verifying, unverified, u);
      unverified := unverified + [u];
      readySet := readySet + {u.hash};
      log := log + [Entry(job, Waiting)];
      assert Seen(verifying) == Joined(was, job);
    }

    /// noteReady: the blocks that waited for this parent are ready, and those that waited for them;
    /// the others go on waiting.
    method NoteReady(good: Hash)
      requires Valid() && (good in chain + drainingSet || good in readySet)
      modifies this`unverified, this`readySet, this`unknownSet, this`unknown, this`log
      ensures Valid() && Follows(old(log), log, {}, {}) && old(readySet) <= readySet
      ensures old(readySet + unknownSet) == readySet + unknownSet
      ensures unverified == old(unverified) + Awake(old(unknown), [good]) && unknown == Asleep(old(unknown), [good])
    {
      var goodQueue := [good];
      SameLog(log, {});
      hide Good, SlotsOk, UnknownOk, Follows, Awake, Asleep, Children, Others, Names;
      while goodQueue != []
        invariant Valid() && Follows(old(log), log, {}, {}) && old(readySet) <= readySet
        invariant forall g <- goodQueue :: g in chain + drainingSet || g in readySet
        invariant old(readySet + unknownSet) == readySet + unknownSet
        invariant Asleep(unknown, goodQueue) == Asleep(old(unknown), [good])
        invariant unverified + Awake(unknown, goodQueue) == old(unverified) + Awake(old(unknown), [good])
        decreases |unknown|, |goodQueue|
      {
        var parent := goodQueue[0];
        ghost var before := log;
        AwakeStep(unverified, unknown, goodQueue);
        goodQueue := goodQueue[1..];
        var readied := ReadyChildren(parent);
        goodQueue := goodQueue + readied;
        FollowsSame(old(log), before, log);
      }
      AwakeNone(unverified, unknown);
    }

    /// The loop over the blocks that waited for one parent.
    method ReadyChildren(parent: Hash) returns (readied: seq<Hash>)
      requires Valid() && (parent in chain + drainingSet || parent in readySet)
      modifies this`unverified, this`readySet, this`unknownSet, this`unknown, this`log
      ensures Valid() && Follows(old(log), log, {}, {}) && old(readySet) <= readySet
      ensures forall g <- readied :: g in readySet
      ensures old(readySet + unknownSet) == readySet + unknownSet
      ensures unverified == old(unverified) + Children(old(unknown), parent) && unknown == Others(old(unknown), parent)
      ensures readied == Names(Children(old(unknown), parent))
    {
      hide Good, SlotsOk, Pending, Follows, UnknownOk, Jobs, RawJobs, Children, Others, Names;
      PendingStart(unknown, parent, unknownSet, readySet);
      var removed := Children(unknown, parent);
      unknown := Others(unknown, parent);
      readied := [];
      SameLog(log, {});
      ghost var kids, others := removed, unknown;
      assert Names([]) == [];
      while removed != []
        modifies this`unverified, this`readySet, this`unknownSet, this`log
        invariant unverified + removed == old(unverified) + kids && readied + Names(removed) == Names(kids)
        invariant Good(Seen(verifying)) && SlotsOk(verified, verifying, unverified)
        invariant Follows(old(log), log, {}, {}) && old(readySet) <= readySet
        invariant Pending(unknown, removed, parent, unknownSet, readySet)
        invariant parent in chain + drainingSet || parent in readySet
        invariant forall g <- readied :: g in readySet
        invariant old(readySet + unknownSet) == readySet + unknownSet
        decreases |removed|
      {
        ghost var before, waiting := log, unverified;
        var newReady := removed[0];
        ReadyOne(newReady, removed, parent);
        FollowsSame(old(log), before, log);
        NextWoken(waiting, readied, removed);
        readied := readied + [newReady.hash];
        removed := removed[1..];
      }
      PendingEnd(unknown, parent, unknownSet, readySet);
    }

    /// A block that waited for its parent.
    method ReadyOne(newReady: Unverified, ghost removed: seq<Unverified>, ghost parent: Hash)
      requires Good(Seen(verifying)) && SlotsOk(verified, verifying, unverified)
      requires removed != [] && newReady == removed[0] && Pending(unknown, removed, parent, unknownSet, readySet)
      requires parent in chain + drainingSet || parent in readySet
      modifies this`unverified, this`readySet, this`unknownSet, this`log
      ensures Good(Seen(verifying)) && SlotsOk(verified, verifying, unverified)
      ensures Pending(unknown, removed[1..], parent, unknownSet, readySet)
      ensures Follows(old(log), log, {}, {})
      ensures readySet == old(readySet) + {newReady.hash} && readySet + unknownSet == old(readySet + unknownSet)
      ensures unverified == old(unverified) + [newReady]
    {
      hide Good, SlotsOk, Pending, Follows;
      PendingStep(unknown, removed, parent, unknownSet, readySet);
      Enqueue(newReady);
      unknownSet := unknownSet - {newReady.hash};
    }

    /// import, where no bad parent and no queue of the future is involved: the checks, in order.
    method Import(h: Hash, header: Option<Header>, blockData: seq<nat>, inFuture: bool, isOurs: bool)
        returns (r: ImportResult)
      requires Valid() && !IsUnclesHash(h)
      requires header.Some? ==> header.value.hash == h && blockData != [] && header.value.parentHash !in knownBad
      modifies this`unverified, this`readySet, this`unknownSet, this`unknown, this`log
      ensures Valid() && Follows(old(log), log, {}, {})
      ensures r == if h in old(readySet + drainingSet + unknownSet + knownBad) then AlreadyKnown
                   else if header.None? then Malformed
                   else if h in chain then AlreadyInChain
                   else if inFuture && !isOurs then Future
                   else if header.value.parentHash in old(readySet) + drainingSet + chain then Success
                   else UnknownParent
      ensures r.Success? ==> h in readySet && readySet + unknownSet == old(readySet + unknownSet) + {h}
      ensures r.Success? ==>
                unverified == old(unverified) + [Unverified(h, header.value.parentHash, blockData)] + Awake(old(unknown), [h])
                             && unknown == Asleep(old(unknown), [h])
      ensures r.UnknownParent? ==> readySet == old(readySet) && unknownSet == old(unknownSet) + {h}
                                   && unknown == old(unknown) + [Unverified(h, header.value.parentHash, blockData)]
      ensures !r.Success? ==> Seen(verifying) == old(Seen(verifying))
      ensures !r.Success? && !r.UnknownParent? ==> unknownSet == old(unknownSet) && unknown == old(unknown)
    {
      hide Good, SlotsOk, UnknownOk, Follows, Awake, Asleep, Jobs, RawJobs;
      SameLog(log, {});
      if h in readySet || h in drainingSet || h in unknownSet || h in knownBad {
        return AlreadyKnown;
      }
      if header.None? {
        return Malformed;
      }
      if h in chain {
        return AlreadyInChain;
      }
      if inFuture && !isOurs {
        return Future;
      }
      var u := Unverified(h, header.value.parentHash, blockData);
      if u.parentHash !in readySet && u.parentHash !in drainingSet && u.parentHash !in chain {
        AddUnknown(u);
        return UnknownParent;
      }
      AddReady(u);
      r := Success;
    }

    method AddUnknown(u: Unverified)
      requires Valid() && u.hash !in unknownSet && u.hash !in readySet && u.blockData != [] && !IsUnclesHash(u.hash)
      modifies this`unknownSet, this`unknown
      ensures Valid() && unknownSet == old(unknownSet) + {u.hash} && unknown == old(unknown) + [u]
      ensures Seen(verifying) == old(Seen(verifying))
    {
      hide Good, SlotsOk, UnknownOk;
      UnknownSnoc(unknown, unknownSet, readySet, u);
      ghost var was := Seen(verifying);
      unknown := unknown + [u];
      unknownSet := unknownSet + {u.hash};
      assert Seen(verifying) == was;
    }

    method AddReady(u: Unverified)
      requires Valid() && u.hash !in unknownSet && u.hash !in readySet && u.blockData != [] && !IsUnclesHash(u.hash)
      requires u.parentHash in chain + drainingSet || u.parentHash in readySet
      modifies this`unverified, this`readySet, this`unknownSet, this`unknown, this`log
      ensures Valid() && Follows(old(log), log, {}, {})
      ensures u.hash in readySet && readySet + unknownSet == old(readySet + unknownSet) + {u.hash}
      ensures unverified == old(unverified) + [u] + Awake(old(unknown), [u.hash])
              && unknown == Asleep(old(unknown), [u.hash])
    {
      hide Good, SlotsOk, Follows;
      Enqueue(u);
      ghost var before := log;
      NoteReady(u.hash);
      FollowsSame(old(log), before, log);
    }

    /// drain: hands over the first verified blocks, unless some are still being imported. Their
    /// parents are in the chain or come earlier in the same batch.
    method Drain(max: nat) returns (out: seq<Verified>)
      requires Valid()
      modifies this`verified, this`readySet, this`drainingSet, this`drained
      ensures Valid()
      ensures out == if old(drainingSet) != {} then [] else old(verified)[..Min(max, |old(verified)|)]
      ensures drainingSet == old(drainingSet) + Hashes(Jobs(out))
      ensures readySet == old(readySet) - Hashes(Jobs(out)) && verified == old(verified)[|out|..]
      ensures drained == old(drained) + Jobs(out)
      ensures ParentsFirst(out, chain)
    {
      if drainingSet == {} {
        out := TakeBatch(max);
      } else {
        out := [];
        NoBatch(chain);
      }
    }

    method TakeBatch(max: nat) returns (out: seq<Verified>)
      requires Valid() && drainingSet == {}
      modifies this`verified, this`readySet, this`drainingSet, this`drained
      ensures Valid()
      ensures out == old(verified)[..Min(max, |old(verified)|)] && verified == old(verified)[|out|..]
      ensures drainingSet == {} + Hashes(Jobs(out)) && readySet == old(readySet) - Hashes(Jobs(out))
      ensures drained == old(drained) + Jobs(out) && ParentsFirst(out, chain)
    {
      hide Whole, Jobs, RawJobs, Hashes, ParentsFirst;
      var n := Min(max, |verified|);
      DrainWhole(Seen(verifying), verified, verifying, unverified, unknown, unknownSet, n, chain);
      out := verified[..n];
      ghost var gone := Hashes(Jobs(out));
      ghost var now := View(Jobs(verified[n..]) + Jobs(verifying) + RawJobs(unverified), |verified[n..]|, readySet - gone,
                            chain + ({} + gone), knownBad, log, drained + Jobs(out));
      verified := verified[n..];
      HandOver(out);
      drained := drained + Jobs(out);
      assert Seen(verifying) == now;
    }

    /// The loop over the drained blocks.
    method HandOver(out: seq<Verified>)
      requires forall v <- out :: v.blockData != []
      modifies this`drainingSet, this`readySet
      ensures drainingSet == old(drainingSet) + Hashes(Jobs(out)) && readySet == old(readySet) - Hashes(Jobs(out))
    {
      var i := 0;
      while i < |out|
        invariant i <= |out|
        invariant drainingSet == old(drainingSet) + Hashes(Jobs(out)[..i])
        invariant readySet == old(readySet) - Hashes(Jobs(out)[..i])
      {
        var h := out[i].info.hash;
        HashesSnoc(Jobs(out), i);
        drainingSet := drainingSet + {h};
        readySet := readySet - {h};
        i := i + 1;
      }
      assert Jobs(out)[..|out|] == Jobs(out);
    }

    /// doneDrain without bad blocks, after all that was drained has got into the chain.
    method DoneDrain() returns (more: bool)
      requires Valid() && drainingSet <= chain
      modifies this`drainingSet
      ensures Valid() && drainingSet == {} && more == (readySet != {})
    {
      ghost var was := Seen(verifying);
      assert chain + drainingSet == chain + {};
      drainingSet := {};
      assert Seen(verifying) == was;
      more := readySet != {};
    }

    /// The chain grows by imported blocks.
    method ChainGrows(hashes: set<Hash>)
      requires Valid()
      modifies this`chain
      ensures Valid() && chain == old(chain) + hashes
    {
      hide Good;
      MoreSettled(Seen(verifying), hashes);
      ghost var was := Seen(verifying);
      chain := chain + hashes;
      assert Seen(verifying) == was.(settled := was.settled + hashes);
    }
  }
}
