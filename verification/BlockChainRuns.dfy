/// Whole runs of the block chain: any blocks are offered in any order, any number of times, and the
/// head is set back in between.
module BlockChainRuns {
  import opened BloomIndex
  import opened C = BlockChain
  import opened Numbers
  import opened Options

  datatype Op = Offered(block: Info, verified: bool) | SetBack(newHead: nat)

  /// No two blocks have the same hash.
  ghost predicate OnePerHash(first: Info, ops: seq<Op>) {
    forall a: Info, b: Info :: Among(first, ops, a) && Among(first, ops, b) && a.hash == b.hash ==> a == b
  }

  ghost predicate Among(first: Info, ops: seq<Op>, block: Info) {
    block == first || exists i :: 0 <= i < |ops| && ops[i].Offered? && ops[i].block == block
  }

  /// All that is stored was offered.
  ghost predicate AllAmong(first: Info, ops: seq<Op>, d: Tree, infos: Infos) {
    forall h <- d :: h in infos && infos[h].hash == h && Among(first, ops, infos[h])
  }

  /// From an operation to another the head is not set back.
  predicate NoneSetBack(ops: seq<Op>, from: nat, to: nat) {
    forall j :: from <= j < to && j < |ops| ==> ops[j].Offered?
  }

  /// Of what was imported since the head was last set back nothing is better than the head.
  ghost predicate BestSince(tie: bool, d: Tree, infos: Infos, head: Hash, ops: seq<Op>, results: seq<Option<ImportResult>>) {
    && |results| <= |ops|
    && forall i :: 0 <= i < |results| && results[i] == Some(Imported) && NoneSetBack(ops, i, |results|) ==>
         ops[i].Offered? && NotAbove(tie, d, infos, head, ops[i].block.hash)
  }

  /// What holds between two operations.
  ghost predicate Sound(c: C.BlockChain, first: Info, totalDifficulty: nat, ops: seq<Op>, results: seq<Option<ImportResult>>)
    reads c, c.blooms
  {
    && c.Valid() && c.genesis == first.hash && c.details[c.genesis].totalDifficulty == totalDifficulty
    && AllAmong(first, ops, c.details, c.infos)
    && BestSince(c.tieBreakingGas, c.details, c.infos, c.lastBlockHash, ops, results)
    && (NoneSetBack(ops, 0, |results|) ==> Maximal(c.tieBreakingGas, c.details, c.infos, c.lastBlockHash))
  }

  /// In every run the number index and the blooms follow the line to the head, whose weight is the sum
  /// of the difficulties on it; and nothing that was imported since the head was last set back, or
  /// without that nothing at all, is better than the head.
  method Run(first: Info, totalDifficulty: nat, tie: bool, ops: seq<Op>)
      returns (c: C.BlockChain, results: seq<Option<ImportResult>>)
    requires first.number == 0 && OnePerHash(first, ops)
    requires forall i :: 0 <= i < |ops| && ops[i].Offered? ==> ops[i].block.number + 1 < U32
    ensures c.Valid() && |results| == |ops|
    ensures Follows(c.Canonical(), c.infos, c.numbers, c.blooms.chunks)
    ensures (forall h <- c.Canonical()[1..] :: h in c.infos)
         && c.details[c.lastBlockHash].totalDifficulty == totalDifficulty + Difficulties(c.infos, c.Canonical()[1..])
    ensures BestSince(tie, c.details, c.infos, c.lastBlockHash, ops, results)
    ensures NoneSetBack(ops, 0, |ops|) ==> Maximal(tie, c.details, c.infos, c.lastBlockHash)
    ensures NoneSetBack(ops, 0, |ops|) ==>
              forall h <- c.details :: c.details[h].totalDifficulty <= c.details[c.lastBlockHash].totalDifficulty
  {
    c := new C.BlockChain(first, totalDifficulty, tie);
    results := [];
    for i := 0 to |ops|
      invariant fresh(c) && fresh(c.blooms) && c.tieBreakingGas == tie && |results| == i
      invariant Sound(c, first, totalDifficulty, ops, results)
    {
      var r := Take(c, first, totalDifficulty, ops, results);
      results := results + [r];
    }
    TotalIsSum(c.details, c.genesis, c.infos, c.lastBlockHash);
  }

  /// One operation.
  method Take(c: C.BlockChain, first: Info, ghost totalDifficulty: nat, ops: seq<Op>, results: seq<Option<ImportResult>>)
      returns (r: Option<ImportResult>)
    requires Sound(c, first, totalDifficulty, ops, results) && OnePerHash(first, ops) && |results| < |ops|
    requires ops[|results|].Offered? ==> ops[|results|].block.number + 1 < U32
    modifies c, c.blooms
    ensures Sound(c, first, totalDifficulty, ops, results + [r])
  {
    hide Line, Follows, Weighed, IsTree, InfosOk, Switched, Maximal, BestSince, AllAmong, OnePerHash, Kept, NoneSetBack;
    match ops[|results|]
    case SetBack(newHead) =>
      r := None;
      c.Rewind(newHead);
      SetBackStep(c.tieBreakingGas, c.details, c.infos, c.lastBlockHash, ops, results);
    case Offered(block, verified) =>
      OffersKnown(first, ops, c.details, c.infos, block, |results|);
      ghost var d, infos, head := c.details, c.infos, c.lastBlockHash;
      var result, dead, alive;
      ghost var n;
      result, dead, alive, n := c.Import(block, verified);
      r := Some(result);
      MoreAmong(first, ops, d, infos, c.details, c.infos, block, |results|);
      OfferStep(c.tieBreakingGas, d, infos, head, c.details, c.infos, c.lastBlockHash, ops, results, result);
  }

  lemma OffersKnown(first: Info, ops: seq<Op>, d: Tree, infos: Infos, block: Info, k: nat)
    requires OnePerHash(first, ops) && AllAmong(first, ops, d, infos)
    requires k < |ops| && ops[k].Offered? && ops[k].block == block
    ensures block.hash in d ==> infos[block.hash] == block
  {
    assert Among(first, ops, block);
  }

  lemma MoreAmong(first: Info, ops: seq<Op>, d: Tree, infos: Infos, d': Tree, infos': Infos, block: Info, k: nat)
    requires AllAmong(first, ops, d, infos) && k < |ops| && ops[k].Offered? && ops[k].block == block
    requires (d' == d && infos' == infos) || (d'.Keys == d.Keys + {block.hash} && infos' == infos[block.hash := block])
    ensures AllAmong(first, ops, d', infos')
  {
    assert Among(first, ops, block);
  }

  lemma SetBackStep(tie: bool, d: Tree, infos: Infos, head: Hash, ops: seq<Op>, results: seq<Option<ImportResult>>)
    requires |results| < |ops| && ops[|results|].SetBack?
    ensures BestSince(tie, d, infos, head, ops, results + [None]) && !NoneSetBack(ops, 0, |results| + 1)
  {
    var more := results + [None];
    assert more[|results|] == None && ops[|results|].SetBack?;
  }

  /// The head only gets better.
  lemma StillNotAbove(tie: bool, d: Tree, infos: Infos, head: Hash, d': Tree, infos': Infos, head': Hash, h: Hash)
    requires NotAbove(tie, d, infos, head, h) && Kept(d, infos, d', infos') && head' in d' && head' in infos'
    requires head' == head || Better(tie, d'[head'].totalDifficulty, infos'[head'].gasUsed,
                                     d[head].totalDifficulty, infos[head].gasUsed)
    ensures NotAbove(tie, d', infos', head', h)
  {
  }

  lemma OfferStep(tie: bool, d: Tree, infos: Infos, head: Hash, d': Tree, infos': Infos, head': Hash, ops: seq<Op>,
                  results: seq<Option<ImportResult>>, result: ImportResult)
    requires |results| < |ops| && ops[|results|].Offered? && BestSince(tie, d, infos, head, ops, results)
    requires Kept(d, infos, d', infos') && head in d && head' in d' && head' in infos'
    requires result.Imported? ==>
               var h := ops[|results|].block.hash;
               && h in d' && h in infos'
               && head' == if Better(tie, d'[h].totalDifficulty, infos'[h].gasUsed,
                                     d[head].totalDifficulty, infos[head].gasUsed) then h else head
    requires !result.Imported? ==> head' == head
    ensures BestSince(tie, d', infos', head', ops, results + [Some(result)])
    ensures NoneSetBack(ops, 0, |results| + 1) <==> NoneSetBack(ops, 0, |results|)
  {
    var k, more := |results|, results + [Some(result)];
    forall i | 0 <= i <= k && more[i] == Some(Imported) && NoneSetBack(ops, i, k + 1)
      ensures NotAbove(tie, d', infos', head', ops[i].block.hash)
    {
      if i < k {
        assert NoneSetBack(ops, i, k);
        StillNotAbove(tie, d, infos, head, d', infos', head', ops[i].block.hash);
      }
    }
  }
}
