/// What each event does to the headers and bodies that are kept, told number by number
/// (libethereum/BlockChainSync.cpp).
module SyncMeaning {
  import opened BlockSync
  import opened Chunks
  import opened Options

  /// The next and the last number in 32 bits.
  function Next(n: nat): nat {
    if n == 0xffff_ffff then 0 else n + 1
  }

  function Prev(n: nat): nat {
    if n == 0 then 0xffff_ffff else n - 1
  }

  predicate Narrow(n: nat) {
    n <= 0xffff_ffff
  }

  // ---------------------------------------------------------------------- headers

  /// Headers before the start, headers that are there, and after a common header those not above the
  /// last imported block are passed over.
  lemma PassedOver(start: nat, s: Sync, number: nat, header: Header, known: bool, empty: bool, chainNumber: nat, chainHash: Hash)
    requires number < start || Get(s.headers, number).Some? || (s.haveCommon && number <= s.last)
    ensures Step(start, s, HeaderArrives(number, header, known, empty, chainNumber, chainHash)) == Some(s)
  {
  }

  /// Any other header of a known block is the common header.
  lemma CommonFound(start: nat, s: Sync, number: nat, header: Header, empty: bool, chainNumber: nat, chainHash: Hash)
    requires start <= number && Get(s.headers, number).None? && (s.haveCommon ==> s.last < number)
    ensures Step(start, s, HeaderArrives(number, header, true, empty, chainNumber, chainHash))
         == Some(Sync(s.headers, s.bodies, true, number, header.hash, if number > s.highest then number else s.highest))
  {
  }

  /// What a header is checked against: the one before it, and the last imported block.
  lemma MisfitMeans(h: Chunks<Header>, number: nat, header: Header, last: nat, lastHash: Hash)
    requires Narrow(number) && Narrow(last)
    ensures Misfit(h, number, header, last, lastHash) <==>
              || (Get(h, Prev(number)).Some? && Get(h, Prev(number)).value.hash != header.parent)
              || (number == Next(last) && header.parent != lastHash)
  {
  }

  /// So the header after the last imported block, with its hash for the parent, fits unless another
  /// one stands before it.
  lemma NextFits(h: Chunks<Header>, header: Header, last: nat, lastHash: Hash)
    requires Narrow(last) && header.parent == lastHash
    requires Get(h, last).Some? ==> Get(h, last).value.hash == lastHash
    ensures !Misfit(h, Next(last), header, last, lastHash)
  {
    MisfitMeans(h, Next(last), header, last, lastHash);
  }

  /// One that does not fit restarts all.
  lemma MisfitRestarts(start: nat, s: Sync, number: nat, header: Header, empty: bool, chainNumber: nat, chainHash: Hash)
    requires start <= number && Get(s.headers, number).None? && s.haveCommon && s.last < number && Narrow(number)
    requires || (Get(s.headers, Prev(number)).Some? && Get(s.headers, Prev(number)).value.hash != header.parent)
             || (number == Next(s.last) && header.parent != s.lastHash)
    ensures Step(start, s, HeaderArrives(number, header, false, empty, chainNumber, chainHash))
         == Some(Sync([], [], false, chainNumber, chainHash, 0))
  {
    MisfitMeans(s.headers, number, header, s.last, s.lastHash);
  }

  /// Whether what follows a header goes: after a common header, if the next one has another parent.
  predicate CutsOff(s: Sync, number: nat, header: Header) {
    s.haveCommon && Get(s.headers, Next(number)).Some? && Get(s.headers, Next(number)).value.parent != header.hash
  }

  /// What stands under a number after one more item, and perhaps without what follows.
  function Then<T>(was: Chunks<T>, number: nat, item: Option<T>, cut: bool, x: nat): Option<T> {
    if x == number && item.Some? then item
    else if cut && x >= Next(number) then None
    else Get(was, x)
  }

  /// Any other header goes in, with an empty body if it has one; nothing else changes but what it
  /// cuts off.
  lemma HeaderGoesIn(start: nat, s: Sync, number: nat, header: Header, empty: bool, chainNumber: nat, chainHash: Hash, x: nat)
    requires Wf(s) && Narrow(number)
    requires start <= number && Get(s.headers, number).None? && (s.haveCommon ==> s.last < number)
    requires s.haveCommon ==> !Misfit(s.headers, number, header, s.last, s.lastHash)
    requires Step(start, s, HeaderArrives(number, header, false, empty, chainNumber, chainHash)).Some?
    ensures var t, cut := Step(start, s, HeaderArrives(number, header, false, empty, chainNumber, chainHash)).value,
                          CutsOff(s, number, header);
            && Get(t.headers, x) == Then(s.headers, number, Some(header), cut, x)
            && Get(t.bodies, x) == Then(s.bodies, number, if empty then Some([0xc2, 0xc0, 0xc0]) else None, cut, x)
            && t.haveCommon == s.haveCommon && t.last == s.last && t.lastHash == s.lastHash
            && t.highest == if number > s.highest then number else s.highest
  {
    hide Get, Good, Bounded, Merged, Below, Placed, Misfit;
    var u, cut := s.(highest := if number > s.highest then number else s.highest), CutsOff(s, number, header);
    StepAdds(start, s, number, header, empty, chainNumber, chainHash);
    AddedPlaced(u, number, header, empty);
    var t := Added(Trimmed(u, number, header), number, header, empty).value;
    PlacedAt(s.headers, t.headers, number, Some(header), cut, x);
    PlacedAt(s.bodies, t.bodies, number, if empty then Some([0xc2, 0xc0, 0xc0]) else None, cut, x);
  }

  lemma StepAdds(start: nat, s: Sync, number: nat, header: Header, empty: bool, chainNumber: nat, chainHash: Hash)
    requires start <= number && Get(s.headers, number).None? && (s.haveCommon ==> s.last < number)
    requires s.haveCommon ==> !Misfit(s.headers, number, header, s.last, s.lastHash)
    ensures Step(start, s, HeaderArrives(number, header, false, empty, chainNumber, chainHash))
         == Added(Trimmed(s.(highest := if number > s.highest then number else s.highest), number, header), number, header, empty)
  {
    hide Added, Trimmed, Misfit;
  }

  lemma PlacedAt<T>(was: Chunks<T>, now: Chunks<T>, number: nat, item: Option<T>, cut: bool, x: nat)
    requires Placed(was, now, number, item, cut) && Narrow(number)
    ensures Get(now, x) == Then(was, number, item, cut, x)
  {
  }

  // ------------------------------------------------------------------ other events

  /// A body goes in where its header is and no body.
  lemma BodyGoesIn(start: nat, s: Sync, id: Option<nat>, body: Body, x: nat)
    requires Wf(s)
    ensures var t := Step(start, s, BodyArrives(id, body)).value;
            && Step(start, s, BodyArrives(id, body)).Some?
            && t.headers == s.headers && t.haveCommon == s.haveCommon && t.last == s.last && t.lastHash == s.lastHash
            && t.highest == s.highest
            && Get(t.bodies, x) == if id == Some(x) && Get(s.headers, x).Some? && Get(s.bodies, x).None? then Some(body)
                                   else Get(s.bodies, x)
  {
    BodyKeeps(s, id, body);
  }

  /// The block after the last one, or an earlier one, was imported: the runs that start at it go, and
  /// all bodies if no header is left.
  lemma ImportedGoes(start: nat, s: Sync, block: nat, hash: Hash, x: nat)
    requires Wf(s) && Narrow(block) && block <= Next(s.last)
    ensures var t := Step(start, s, BlockImported(block, hash)).value;
            && Step(start, s, BlockImported(block, hash)).Some?
            && t.haveCommon == s.haveCommon
            && t.last == (if block > s.last then block else s.last)
            && t.lastHash == (if block > s.last then hash else s.lastHash)
            && t.highest == (if t.last > s.highest then t.last else s.highest)
            && Get(t.headers, x) == (if InRun(s.headers, block, x) then None else Get(s.headers, x))
            && Get(t.bodies, x) == (if InRun(s.bodies, block, x) || t.headers == [] then None else Get(s.bodies, x))
  {
    RemovedAll(s.headers, block);
    RemovedAll(s.bodies, block);
    RunMeans(s.headers, block, x);
    RunMeans(s.bodies, block, x);
    hide Removed, Run, Good, InRun;
  }

  /// All numbers from one to the other are there.
  ghost predicate InRun<T>(cs: Chunks<T>, from: nat, x: nat) {
    from <= x && forall y: nat :: from <= y <= x ==> Get(cs, y).Some?
  }

  lemma RunMeans<T>(cs: Chunks<T>, from: nat, x: nat)
    ensures Run(cs, from, x) <==> InRun(cs, from, x)
  {
    if Run(cs, from, x) {
      forall y: nat | from <= y <= x ensures Get(cs, y).Some? {
        assert Present(cs, y);
      }
    }
    if InRun(cs, from, x) {
      forall y: nat | from <= y <= x ensures Present(cs, y) {
      }
    }
  }

  /// A later block changes nothing here.
  lemma ImportedLater(start: nat, s: Sync, block: nat, hash: Hash)
    requires Narrow(s.last) && block > Next(s.last)
    ensures Step(start, s, BlockImported(block, hash)) == Some(s)
  {
    hide Removed;
  }

  /// Blocks are collected where the first headers and the first bodies start after the last imported
  /// block: as many as both chunks have go from both maps, and the last one the queue took is the last
  /// imported block.
  lemma CollectedGo(start: nat, s: Sync, answers: seq<Answer>, chainNumber: nat, chainHash: Hash, x: nat) returns (k: nat)
    requires Wf(s) && s.haveCommon && s.headers != [] && s.bodies != []
    requires s.headers[0].begin == s.bodies[0].begin == Next(s.last)
    requires Step(start, s, Collected(answers, false, chainNumber, chainHash)).Some?
    ensures var h, b := |s.headers[0].items|, |s.bodies[0].items|;
            OfferedUpTo(answers, if h < b then h else b, k)
    ensures var t := Step(start, s, Collected(answers, false, chainNumber, chainHash)).value;
            var h, b := |s.headers[0].items|, |s.bodies[0].items|;
            var n := if h < b then h else b;
            if k < n && answers[k] == Bad then t == Sync([], [], false, chainNumber, chainHash, 0)
            else
              && LastTaken(s.headers[0], answers, k, s.last, s.lastHash, t.last, t.lastHash) && t.highest == s.highest
              && if k < n then
                   if s.headers[0].begin + k > t.last then t.headers == [] && t.bodies == [] && !t.haveCommon
                   else t.headers == s.headers && t.bodies == s.bodies && t.haveCommon
                 else
                   && t.haveCommon
                   && Get(t.headers, x) == (if x < Next(s.last) + n then None else Get(s.headers, x))
                   && Get(t.bodies, x) == (if x < Next(s.last) + n then None else Get(s.bodies, x))
  {
    k := OfferMeans(s.headers[0], Whole(s), answers, 0, s.last, s.lastHash, s.last, s.lastHash);
    DropFirstGet(s.headers, Whole(s));
    DropFirstGet(s.bodies, Whole(s));
    hide Good, WithoutFirst, Offer, LastTaken, Get;
  }

  /// Elsewhere nothing happens.
  lemma NotCollected(start: nat, s: Sync, answers: seq<Answer>, full: bool, chainNumber: nat, chainHash: Hash)
    requires Narrow(s.last)
    requires !s.haveCommon || s.headers == [] || s.bodies == [] || s.headers[0].begin != s.bodies[0].begin
             || s.headers[0].begin != Next(s.last)
    ensures Step(start, s, Collected(answers, full, chainNumber, chainHash)) == Some(s)
  {
  }

  /// While no common header is known, the next request is for the block before the first header, or the
  /// last imported block if that is earlier; at the start of the chain it is taken for common.
  lemma RequestGoesBack(start: nat, s: Sync, hash: Hash)
    requires Narrow(s.last) && (s.headers != [] ==> Narrow(s.headers[0].begin)) && start < 0xffff_ffff
    ensures Step(start, s, Requested(hash)) ==
              if s.haveCommon then Some(s)
              else
                var first := if s.headers == [] then s.last else Prev(s.headers[0].begin);
                var from := if first < s.last then first else s.last;
                Some(Sync(s.headers, s.bodies, from <= start + 1, from, hash, s.highest))
  {
  }

  /// A higher block of another source counts as the last imported one.
  lemma MinedCounts(start: nat, s: Sync, number: nat, hash: Hash)
    requires Narrow(number)
    ensures Step(start, s, Mined(number, hash)) ==
              Some(if number <= s.last then s
                   else Sync(s.headers, s.bodies, s.haveCommon, number, hash, if number > s.highest then number else s.highest))
  {
  }
}
