/// Whole runs of the block queue: any number of verifiers, the importer of blocks and the thread
/// that drains them take turns at the locks in any order.
module BlockQueueRuns {
  import opened Numbers
  import opened Options
  import opened Sequences
  import opened Q = BlockQueue

  /// What the next thread at the locks does; a verifier is named by its place among the works in flight.
  datatype Turn =
    | Starts
    | Throws(n: nat)
    | Verifies(n: nat, sha3Uncles: Hash)
    | Offers(hash: Hash, header: Option<Header>, blockData: seq<nat>, inFuture: bool, isOurs: bool)
    | Drains(max: nat)
    | Grows(hashes: set<Hash>)
    | Ends

  /// Every work in flight has its mark, and no two are of one block.
  ghost predicate AllMarked(slots: seq<Verified>, works: seq<Unverified>) {
    Unique(works) && forall w <- works :: Marked(slots, w)
  }

  /// What was handed over is in the chain or being imported, came once, and is not in line again.
  ghost predicate Once(out: seq<Verified>, gone: set<Hash>, here: set<Hash>) {
    && (forall b <- out :: b.blockData != [])
    && Distinct(Jobs(out)) && Hashes(Jobs(out)) <= gone && Hashes(Jobs(out)) !! here
  }

  /// What holds between two turns.
  ghost predicate Sound(q: Q.BlockQueue, works: seq<Unverified>, out: seq<Verified>, thrown: set<Hash>)
    reads q
  {
    && q.Valid() && AllMarked(q.verifying, works) && q.drained == Jobs(out)
    && Follows([], q.log, thrown, q.knownBad)
    && ParentsFirst(out, q.chain) && Once(out, q.chain + q.drainingSet, q.readySet + q.unknownSet)
  }

  /// In every run, whatever the turns: what was handed over and then all that is in line are the
  /// blocks that entered m_unverified, in that order, but for those that threw or whose parent was
  /// bad; parents are handed over before children, and no block twice.
  method Run(chain: set<Hash>, turns: seq<Turn>)
      returns (q: Q.BlockQueue, works: seq<Unverified>, out: seq<Verified>, ghost thrown: set<Hash>)
    ensures q.Valid() && forall w <- works :: q.InFlight(w)
    ensures Kept(q.log) == Jobs(out) + q.Line(q.verifying)
    ensures forall e <- q.log :: (e.verdict.Threw? ==> e.job.hash in thrown)
              && (e.verdict.BadParent? ==> e.job.parent in q.knownBad)
    ensures forall i :: 0 <= i < |out| ==> ParentBefore(out, i, q.chain)
    ensures forall i, j :: 0 <= i < j < |out| ==> out[i].info.hash != out[j].info.hash
  {
    hide Good, SlotsOk, UnknownOk, Jobs, RawJobs, Distinct, Once;
    q := new Q.BlockQueue(chain);
    works, out, thrown := [], [], {};
    RunStarts(chain);
    for i := 0 to |turns|
      invariant fresh(q) && Sound(q, works, out, thrown)
    {
      works, out, thrown := Take(q, turns[i], works, out, thrown);
    }
    GoodKeepsOrder(q.Seen(q.verifying));
    OnceEach(out, q.chain + q.drainingSet, q.readySet + q.unknownSet);
  }

  method Take(q: Q.BlockQueue, turn: Turn, works: seq<Unverified>, out: seq<Verified>, ghost thrown: set<Hash>)
      returns (works': seq<Unverified>, out': seq<Verified>, ghost thrown': set<Hash>)
    requires Sound(q, works, out, thrown)
    modifies q
    ensures Sound(q, works', out', thrown')
  {
    works', out', thrown' := works, out, thrown;
    match turn
    case Starts =>
      if q.unverified != [] {
        works' := Begin(q, works, out, thrown);
      }
    case Throws(n) =>
      if n < |works| {
        works', thrown' := Without(works, n), thrown + {works[n].hash};
        Throw(q, n, works, out, thrown);
      }
    case Verifies(n, sha3Uncles) =>
      if n < |works| && IsUnclesHash(sha3Uncles) {
        works' := Without(works, n);
        Verify(q, n, sha3Uncles, works, out, thrown);
      }
    case Offers(h, header, blockData, inFuture, isOurs) =>
      if !IsUnclesHash(h)
         && (header.Some? ==> header.value.hash == h && blockData != [] && header.value.parentHash !in q.knownBad)
      {
        Offer(q, h, header, blockData, inFuture, isOurs, works, out, thrown);
      }
    case Drains(max) =>
      out' := HandOut(q, max, works, out, thrown);
    case Grows(hashes) =>
      Grow(q, hashes, works, out, thrown);
    case Ends =>
      if q.drainingSet <= q.chain {
        End(q, works, out, thrown);
      }
  }

  function Without(works: seq<Unverified>, n: nat): seq<Unverified>
    requires n < |works|
  {
    works[..n] + works[n + 1..]
  }

  lemma RunStarts(chain: set<Hash>)
    ensures Follows([], [], {}, {}) && ParentsFirst([], chain) && Once([], chain + {}, {} + {}) && Jobs([]) == []
  {
    NoBatch(chain);
  }

  // ------------------------------------------------------------------ the verifiers

  method Begin(q: Q.BlockQueue, works: seq<Unverified>, ghost out: seq<Verified>, ghost thrown: set<Hash>)
      returns (works': seq<Unverified>)
    requires Sound(q, works, out, thrown) && q.unverified != []
    modifies q
    ensures Sound(q, works', out, thrown)
  {
    NotFirst(q.verified, q.verifying, q.unverified, works);
    ghost var was := q.verifying;
    var work := q.Start();
    works' := works + [work];
    AllKept(was, q.verifying, works);
    MarkedSnoc(q.verifying, works, work);
  }

  /// The first block that is not verified yet is none of those in flight.
  lemma NotFirst(verified: seq<Verified>, slots: seq<Verified>, raw: seq<Unverified>, works: seq<Unverified>)
    requires Distinct(Jobs(verified) + Jobs(slots) + RawJobs(raw)) && AllMarked(slots, works) && raw != []
    ensures forall w <- works :: w.hash != raw[0].hash
  {
    var line := Jobs(verified) + Jobs(slots) + RawJobs(raw);
    forall w | w in works ensures w.hash != raw[0].hash {
      var i :| 0 <= i < |slots| && slots[i] == Verified(Header(0, w.parentHash, w.hash), []);
      assert line[|verified| + i] == JobOf(slots[i]) && line[|verified| + |slots|] == RawJobs(raw)[0];
      assert Differ(line, |verified| + i, |verified| + |slots|);
    }
  }

  lemma MarkedSnoc(slots: seq<Verified>, works: seq<Unverified>, work: Unverified)
    requires AllMarked(slots, works) && Marked(slots, work) && forall w <- works :: w.hash != work.hash
    ensures AllMarked(slots, works + [work])
  {
  }

  lemma AllKept(was: seq<Verified>, now: seq<Verified>, works: seq<Unverified>)
    requires AllMarked(was, works) && SlotsKept(was, now, {})
    ensures AllMarked(now, works)
  {
  }

  lemma OthersKept(was: seq<Verified>, now: seq<Verified>, works: seq<Unverified>, n: nat)
    requires AllMarked(was, works) && n < |works| && SlotsKept(was, now, {works[n].hash})
    ensures AllMarked(now, Without(works, n))
  {
    forall w | w in Without(works, n) ensures Marked(now, w) {
      var i :| 0 <= i < |works| && i != n && works[i] == w;
      assert Marked(was, works[i]) && works[i].hash != works[n].hash;
    }
  }

  lemma LogGrows(was: seq<Entry>, now: seq<Entry>, thrown: set<Hash>, bad: set<Hash>, more: set<Hash>, worse: set<Hash>)
    requires Follows([], was, thrown, bad) && Follows(was, now, more, worse) && bad <= worse
    ensures Follows([], now, thrown + more, worse)
  {
  }

  lemma LogKept(was: seq<Entry>, now: seq<Entry>, thrown: set<Hash>, bad: set<Hash>)
    requires Follows([], was, thrown, bad) && Follows(was, now, {}, {})
    ensures Follows([], now, thrown, bad)
  {
  }

  method Throw(q: Q.BlockQueue, n: nat, works: seq<Unverified>, ghost out: seq<Verified>, ghost thrown: set<Hash>)
    requires Sound(q, works, out, thrown) && n < |works|
    modifies q
    ensures Sound(q, Without(works, n), out, thrown + {works[n].hash})
  {
    ghost var was, log, bad := q.verifying, q.log, q.knownBad;
    q.Failed(works[n]);
    OthersKept(was, q.verifying, works, n);
    LogGrows(log, q.log, thrown, bad, {works[n].hash}, q.knownBad);
  }

  method Verify(q: Q.BlockQueue, n: nat, sha3Uncles: Hash, works: seq<Unverified>, ghost out: seq<Verified>,
                ghost thrown: set<Hash>)
    requires Sound(q, works, out, thrown) && n < |works| && IsUnclesHash(sha3Uncles)
    modifies q
    ensures Sound(q, Without(works, n), out, thrown)
  {
    ghost var was, log, bad := q.verifying, q.log, q.knownBad;
    var ready := q.Succeeded(works[n], Header(works[n].hash, works[n].parentHash, sha3Uncles));
    OthersKept(was, q.verifying, works, n);
    LogGrows(log, q.log, thrown, bad, {}, q.knownBad);
  }

  // ------------------------------------------------------- what goes in and comes out

  method Offer(q: Q.BlockQueue, h: Hash, header: Option<Header>, blockData: seq<nat>, inFuture: bool, isOurs: bool,
               ghost works: seq<Unverified>, ghost out: seq<Verified>, ghost thrown: set<Hash>)
    requires Sound(q, works, out, thrown) && !IsUnclesHash(h)
    requires header.Some? ==> header.value.hash == h && blockData != [] && header.value.parentHash !in q.knownBad
    modifies q
    ensures Sound(q, works, out, thrown)
  {
    hide Follows, AllMarked, ParentsFirst, Once, Good, SlotsOk, UnknownOk, Jobs, RawJobs, Awake, Asleep;
    ghost var log, gone, here := q.log, q.chain + q.drainingSet, q.readySet + q.unknownSet;
    var r := q.Import(h, header, blockData, inFuture, isOurs);
    LogKept(log, q.log, thrown, q.knownBad);
    OnceOffered(out, gone, here, h);
    if r.Success? || r.UnknownParent? {
      assert q.readySet + q.unknownSet == here + {h};
    } else {
      assert q.Seen(q.verifying).ready + q.unknownSet == here;
    }
  }

  method HandOut(q: Q.BlockQueue, max: nat, ghost works: seq<Unverified>, out: seq<Verified>, ghost thrown: set<Hash>)
      returns (out': seq<Verified>)
    requires Sound(q, works, out, thrown)
    modifies q
    ensures Sound(q, works, out', thrown)
  {
    hide Good, SlotsOk, UnknownOk, Jobs, RawJobs, Hashes, Distinct, AllMarked, Follows, ParentsFirst, Once;
    ghost var verified, n := q.verified, if q.drainingSet == {} then Min(max, |q.verified|) else 0;
    BatchReady(verified, q.verifying, q.unverified, q.Seen(q.verifying), q.unknown, q.unknownSet, n);
    ghost var gone, here := q.chain + q.drainingSet, q.readySet + q.unknownSet;
    var batch := q.Drain(max);
    assert batch == verified[..n];
    out' := out + batch;
    OnceMore(out, batch, gone, here, q.chain + q.drainingSet, q.readySet + q.unknownSet);
    JobsPlus(out, batch);
    ParentsMore(out, batch, q.chain);
  }

  /// The blocks at the front of the line are ready ones, and no two are the same.
  lemma BatchReady(verified: seq<Verified>, slots: seq<Verified>, raw: seq<Unverified>, v: View, us: seq<Unverified>,
                   unknownSet: set<Hash>, n: nat)
    requires Good(v) && v.line == Jobs(verified) + Jobs(slots) + RawJobs(raw) && n <= |verified|
    requires SlotsOk(verified, slots, raw) && UnknownOk(us, unknownSet, v.ready)
    ensures Distinct(Jobs(verified[..n])) && Hashes(Jobs(verified[..n])) <= v.ready
    ensures Hashes(Jobs(verified[..n])) !! unknownSet
    ensures forall b <- verified[..n] :: b.blockData != []
  {
    var batch := Jobs(verified[..n]);
    forall i | 0 <= i < n ensures batch[i] == v.line[i] && batch[i].hash in v.ready {
      assert Listed(v.line, v.line[i].hash);
    }
    forall i, j ensures Differ(batch, i, j) {
      assert Differ(v.line, i, j);
    }
  }

  lemma JobsPlus(a: seq<Verified>, b: seq<Verified>)
    ensures Jobs(a + b) == Jobs(a) + Jobs(b)
  {
  }

  lemma HashesPlus(a: seq<Job>, b: seq<Job>)
    ensures Hashes(a + b) == Hashes(a) + Hashes(b)
  {
    forall i | 0 <= i < |a| ensures a[i].hash in Hashes(a + b) {
      assert (a + b)[i] == a[i];
    }
    forall i | 0 <= i < |b| ensures b[i].hash in Hashes(a + b) {
      assert (a + b)[|a| + i] == b[i];
    }
  }

  lemma DistinctPlus(a: seq<Job>, b: seq<Job>)
    requires Distinct(a) && Distinct(b) && Hashes(a) !! Hashes(b)
    ensures Distinct(a + b)
  {
    forall i, j ensures Differ(a + b, i, j) {
      assert Differ(a, i, j) && Differ(b, i - |a|, j - |a|);
      if 0 <= i < |a| <= j < |a + b| {
        assert a[i].hash in Hashes(a) && b[j - |a|].hash in Hashes(b);
      }
    }
  }

  lemma OnceMore(out: seq<Verified>, batch: seq<Verified>, gone: set<Hash>, here: set<Hash>, gone': set<Hash>,
                 here': set<Hash>)
    requires Once(out, gone, here) && Distinct(Jobs(batch)) && Hashes(Jobs(batch)) <= here
    requires gone' == gone + Hashes(Jobs(batch)) && here' == here - Hashes(Jobs(batch))
    requires forall b <- batch :: b.blockData != []
    ensures Once(out + batch, gone', here')
  {
    hide Jobs, Hashes, Distinct;
    JobsPlus(out, batch);
    HashesPlus(Jobs(out), Jobs(batch));
    DistinctPlus(Jobs(out), Jobs(batch));
  }

  lemma ParentsMore(out: seq<Verified>, batch: seq<Verified>, chain: set<Hash>)
    requires ParentsFirst(out, chain) && ParentsFirst(batch, chain)
    ensures ParentsFirst(out + batch, chain)
  {
    var more := out + batch;
    forall i | 0 <= i < |more| ensures ParentBefore(more, i, chain) {
      if i < |out| {
        assert ParentBefore(out, i, chain);
        if out[i].info.parentHash !in chain {
          var k :| 0 <= k < i && out[k].info.hash == out[i].info.parentHash;
          assert more[k].info.hash == more[i].info.parentHash;
        }
      } else if batch[i - |out|].info.parentHash !in chain {
        assert ParentBefore(batch, i - |out|, chain);
        var k :| 0 <= k < i - |out| && batch[k].info.hash == batch[i - |out|].info.parentHash;
        assert more[|out| + k].info.hash == more[i].info.parentHash;
      }
    }
  }

  lemma OnceOffered(out: seq<Verified>, gone: set<Hash>, here: set<Hash>, h: Hash)
    requires Once(out, gone, here)
    ensures h !in gone ==> Once(out, gone, here + {h})
  {
  }

  lemma OnceEach(out: seq<Verified>, gone: set<Hash>, here: set<Hash>)
    requires Once(out, gone, here)
    ensures forall i, j :: 0 <= i < j < |out| ==> out[i].info.hash != out[j].info.hash
  {
    forall i, j | 0 <= i < j < |out| ensures out[i].info.hash != out[j].info.hash {
      assert Differ(Jobs(out), i, j) && out[i] in out && out[j] in out;
    }
  }

  lemma MoreChain(out: seq<Verified>, chain: set<Hash>, more: set<Hash>)
    requires ParentsFirst(out, chain) && chain <= more
    ensures ParentsFirst(out, more)
  {
    forall i | 0 <= i < |out| ensures ParentBefore(out, i, more) {
      assert ParentBefore(out, i, chain);
    }
  }

  method Grow(q: Q.BlockQueue, hashes: set<Hash>, ghost works: seq<Unverified>, ghost out: seq<Verified>,
              ghost thrown: set<Hash>)
    requires Sound(q, works, out, thrown)
    modifies q
    ensures Sound(q, works, out, thrown)
  {
    ghost var was := q.chain;
    q.ChainGrows(hashes);
    MoreChain(out, was, q.chain);
  }

  method End(q: Q.BlockQueue, ghost works: seq<Unverified>, ghost out: seq<Verified>, ghost thrown: set<Hash>)
    requires Sound(q, works, out, thrown) && q.drainingSet <= q.chain
    modifies q
    ensures Sound(q, works, out, thrown)
  {
    var more := q.DoneDrain();
  }
}
