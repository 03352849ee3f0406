/// Headers and bodies as they arrive from peers (libethereum/BlockChainSync.cpp).
module BlockSync {
  import opened Chunks
  import opened Numbers
  import opened Options

  type Hash = nat

  type Body = seq<nat>

  datatype Header = Header(hash: Hash, parent: Hash)

  /// What the handlers keep.
  datatype Sync = Sync(headers: Chunks<Header>, bodies: Chunks<Body>, haveCommon: bool, last: nat, lastHash: Hash,
                       highest: nat)

  /// What the queue says of a collected block: it took it; it is malformed or of a bad chain; its
  /// parent is not known, or the block itself is; or anything else.
  datatype Answer = Took | Bad | Strange | Other

  /// What happens to it. Known is a block that the queue has ready or is importing, or that the
  /// chain has; the number of a body is that of the header it goes with, if any is known; full says
  /// that too many blocks wait for their parents. A chain's number and hash are those of its head,
  /// and the hash of a request that of the chain's block it goes back to.
  datatype Event =
    | HeaderArrives(number: nat, header: Header, known: bool, empty: bool, chainNumber: nat, chainHash: Hash)
    | BodyArrives(id: Option<nat>, body: Body)
    | BlockImported(block: nat, hash: Hash)
    | Collected(answers: seq<Answer>, full: bool, chainNumber: nat, chainHash: Hash)
    | Requested(startHash: Hash)
    | Mined(number: nat, hash: Hash)
    | Restarted(chainNumber: nat, chainHash: Hash)
    | Reset

  /// Two empty lists in a list.
  const EMPTY_BODY: Body := [0xc2, 0xc0, 0xc0]

  /// Every body has its header.
  ghost predicate Covered(h: Chunks<Header>, b: Chunks<Body>) {
    forall n: nat :: Get(b, n).Some? ==> Get(h, n).Some?
  }

  ghost predicate Bounded(h: Chunks<Header>) {
    forall n: nat :: Get(h, n).Some? ==> n < U32
  }

  predicate LinkedAt(h: Chunks<Header>, n: nat, next: nat) {
    Present(h, n) && Present(h, next) ==> Get(h, next).value.parent == Get(h, n).value.hash
  }

  /// Each header names the one before as its parent.
  ghost predicate Linked(h: Chunks<Header>) {
    forall n: nat, next: nat :: next == n + 1 ==> LinkedAt(h, n, next)
  }

  /// What the handler checks a header against, where a common header is known.
  predicate Misfit(h: Chunks<Header>, number: nat, header: Header, last: nat, lastHash: Hash) {
    var prev := Get(h, (number + U32 - 1) % U32);
    || (prev.Some? && prev.value.hash != header.parent)
    || (number == (last + 1) % U32 && header.parent != lastHash)
  }

  /// Whether what follows is dropped.
  predicate Disowned(h: Chunks<Header>, number: nat, header: Header) {
    var next := Get(h, (number + 1) % U32);
    next.Some? && next.value.parent != header.hash
  }

  /// After the removal of what follows, if it is disowned, and the addition of one item.
  ghost predicate Placed<T>(was: Chunks<T>, now: Chunks<T>, number: nat, item: Option<T>, cut: bool) {
    forall x: nat :: Get(now, x) == PlacedItem(was, number, item, cut, x)
  }

  function PlacedItem<T>(was: Chunks<T>, number: nat, item: Option<T>, cut: bool, x: nat): Option<T> {
    if x == number && item.Some? then item
    else if cut && x >= (number + 1) % U32 then None
    else Get(was, x)
  }

  /// A header that fits, among what follows only if that fits too, keeps all headers linked.
  lemma PlacedLinked(was: Chunks<Header>, now: Chunks<Header>, number: nat, header: Header, last: nat, lastHash: Hash)
    requires Linked(was) && Bounded(was) && number < U32 && !Misfit(was, number, header, last, lastHash)
    requires Placed(was, now, number, Some(header), Disowned(was, number, header))
    ensures Linked(now)
  {
    forall n: nat, next: nat | next == n + 1 ensures LinkedAt(now, n, next) {
      assert LinkedAt(was, n, next);
      if n == number || next == number {
        assert Present(was, next) ==> next < U32;
      }
    }
  }

  /// Without a common header nothing is checked: then the headers stay linked if and only if the
  /// new one fits its neighbours.
  lemma UncheckedLinked(was: Chunks<Header>, now: Chunks<Header>, number: nat, header: Header)
    requires Linked(was) && !Present(was, number)
    requires Placed(was, now, number, Some(header), false)
    ensures Linked(now) <==>
              && (number > 0 && Present(was, number - 1) ==> Get(was, number - 1).value.hash == header.parent)
              && (Present(was, number + 1) ==> Get(was, number + 1).value.parent == header.hash)
  {
    forall n: nat, next: nat | next == n + 1 && n != number && next != number ensures LinkedAt(now, n, next) {
      assert LinkedAt(was, n, next);
    }
    assert Linked(now) ==> LinkedAt(now, number, number + 1);
    if number > 0 {
      assert Linked(now) ==> LinkedAt(now, number - 1, number);
    }
  }

  lemma PlacedCovered(h: Chunks<Header>, h': Chunks<Header>, b: Chunks<Body>, b': Chunks<Body>, number: nat,
                      header: Header, body: Option<Body>, cut: bool)
    requires Covered(h, b) && Placed(h, h', number, Some(header), cut) && Placed(b, b', number, body, cut)
    ensures Covered(h', b')
  {
  }

  /// After removeItem of one number on both: every body still has its header if and only if each
  /// body that goes with a dropped header is dropped too, that is, no body is missing between.
  lemma DroppedCovered(h: Chunks<Header>, h': Chunks<Header>, b: Chunks<Body>, b': Chunks<Body>, number: nat)
    requires Covered(h, b)
    requires forall x: nat :: Get(h', x) == if Run(h, number, x) then None else Get(h, x)
    requires forall x: nat :: Get(b', x) == if Run(b, number, x) then None else Get(b, x)
    ensures Covered(h', b') <==> forall x: nat :: Run(h, number, x) && Present(b, x) ==> Run(b, number, x)
  {
    if Covered(h', b') {
      forall x: nat | Run(h, number, x) && Present(b, x) ensures Run(b, number, x) {
        assert !Present(h', x);
      }
    }
  }

  // ------------------------------------------------------------------- the steps

  ghost predicate Wf(s: Sync) {
    Good(s.headers) && Good(s.bodies) && Bounded(s.headers) && s.last < U32
  }

  /// Numbers are unsigned.
  predicate EventOk(e: Event) {
    match e
    case HeaderArrives(number, _, _, _, chainNumber, _) => number < U32 && chainNumber < U32
    case BlockImported(block, _) => block < U32
    case Collected(_, _, chainNumber, _) => chainNumber < U32
    case Restarted(chainNumber, _) => chainNumber < U32
    case _ => true
  }

  /// Headers the handler passes over.
  predicate Skips(start: nat, s: Sync, number: nat) {
    number < start || Present(s.headers, number) || (number <= s.last && s.haveCommon)
  }

  function Restart(chainNumber: nat, chainHash: Hash): Sync {
    Sync([], [], false, chainNumber, chainHash, 0)
  }

  /// What follows a header goes, where it is disowned.
  function Trimmed(s: Sync, number: nat, header: Header): Sync {
    if s.haveCommon && Disowned(s.headers, number, header) then
      s.(headers := Below(s.headers, (number + 1) % U32), bodies := Below(s.bodies, (number + 1) % U32))
    else s
  }

  /// The header goes in, and an empty body right away; None is a failed assertion of mergeInto.
  function Added(s: Sync, number: nat, header: Header, empty: bool): Option<Sync> {
    if !empty then Some(s.(headers := Merged(s.headers, number, header)))
    else if Present(s.bodies, number) then None
    else Some(s.(headers := Merged(s.headers, number, header), bodies := Merged(s.bodies, number, EMPTY_BODY)))
  }

  /// One header of onPeerBlockHeaders.
  function HeaderStep(start: nat, s: Sync, number: nat, header: Header, known: bool, empty: bool,
                      chainNumber: nat, chainHash: Hash): Option<Sync> {
    if Skips(start, s, number) then Some(s)
    else
      var t := s.(highest := Max(s.highest, number));
      if known then Some(t.(haveCommon := true, last := number, lastHash := header.hash))
      else if s.haveCommon && Misfit(s.headers, number, header, s.last, s.lastHash) then
        Some(Restart(chainNumber, chainHash))
      else Added(Trimmed(t, number, header), number, header, empty)
  }

  /// One body of onPeerBlockBodies.
  function BodyStep(s: Sync, id: Option<nat>, body: Body): Sync {
    if id.Some? && Present(s.headers, id.value) && !Present(s.bodies, id.value)
    then s.(bodies := Merged(s.bodies, id.value, body))
    else s
  }

  /// onPeerNewBlock, where the queue takes the block.
  function ImportStep(s: Sync, block: nat, hash: Hash): Sync {
    if block > (s.last + 1) % U32 then s
    else
      var headers, last := Removed(s.headers, block), Max(s.last, block);
      Sync(headers, if headers == [] then [] else Removed(s.bodies, block), s.haveCommon, last,
           if block > s.last then hash else s.lastHash, Max(last, s.highest))
  }

  /// Whether collectBlocks has anything to do.
  predicate Ready(s: Sync) {
    && s.haveCommon && s.headers != [] && s.bodies != []
    && s.headers[0].begin == s.bodies[0].begin == (s.last + 1) % U32
  }

  /// How many blocks it puts together.
  function Whole(s: Sync): nat
    requires Ready(s)
  {
    Min(|s.headers[0].items|, |s.bodies[0].items|)
  }

  function AnswerAt(answers: seq<Answer>, i: nat): Answer {
    if i < |answers| then answers[i] else Other
  }

  /// How offering the collected blocks to the queue ends, with the last one it took.
  datatype Tally =
    | Done(last: nat, lastHash: Hash)
    | Broken
    | Forked(last: nat, lastHash: Hash)
    | Stopped(last: nat, lastHash: Hash)

  function Offer(first: Chunk<Header>, n: nat, answers: seq<Answer>, i: nat, last: nat, lastHash: Hash): Tally
    requires i <= n <= |first.items|
    decreases n - i
  {
    if i == n then Done(last, lastHash)
    else match AnswerAt(answers, i)
      case Took =>
        if first.begin + i > last then Offer(first, n, answers, i + 1, first.begin + i, first.items[i].hash)
        else Offer(first, n, answers, i + 1, last, lastHash)
      case Bad => Broken
      case Strange => if first.begin + i > last then Forked(last, lastHash) else Stopped(last, lastHash)
      case Other => Offer(first, n, answers, i + 1, last, lastHash)
  }

  /// So many blocks are offered before the queue objects to one.
  predicate OfferedUpTo(answers: seq<Answer>, n: nat, k: nat) {
    && k <= n
    && (forall i :: 0 <= i < k && i < |answers| ==> answers[i] == Took || answers[i] == Other)
    && (k < n ==> k < |answers| && (answers[k] == Bad || answers[k] == Strange))
  }

  /// The queue took the j-th of the first k, and it lies above a number.
  predicate TookAbove(first: Chunk<Header>, answers: seq<Answer>, k: nat, above: nat, j: int) {
    0 <= j < k && j < |answers| && answers[j] == Took && first.begin + j > above
  }

  /// The number and the hash are those of the last such block, or the old ones if there is none.
  ghost predicate LastTaken(first: Chunk<Header>, answers: seq<Answer>, k: nat, above: nat, hash0: Hash, last: nat, hash: Hash)
    requires k <= |first.items|
  {
    || (last == above && hash == hash0 && forall j :: !TookAbove(first, answers, k, above, j))
    || exists j :: IsLast(first, answers, k, above, last, hash, j)
  }

  ghost predicate IsLast(first: Chunk<Header>, answers: seq<Answer>, k: nat, above: nat, last: nat, hash: Hash, j: int)
    requires k <= |first.items|
  {
    && TookAbove(first, answers, k, above, j) && (forall i :: TookAbove(first, answers, k, above, i) ==> i <= j)
    && last == first.begin + j && hash == first.items[j].hash
  }

  /// One more block.
  lemma TakenStep(first: Chunk<Header>, answers: seq<Answer>, k: nat, above: nat, hash0: Hash, last: nat, hash: Hash)
    requires k < |first.items| && LastTaken(first, answers, k, above, hash0, last, hash)
    ensures AnswerAt(answers, k) == Took && first.begin + k > last ==>
              LastTaken(first, answers, k + 1, above, hash0, first.begin + k, first.items[k].hash)
    ensures AnswerAt(answers, k) != Took || first.begin + k <= last ==>
              LastTaken(first, answers, k + 1, above, hash0, last, hash)
  {
    if AnswerAt(answers, k) == Took && first.begin + k > last {
      TakenMore(first, answers, k, above, hash0, last, hash);
    } else {
      TakenSame(first, answers, k, above, hash0, last, hash);
    }
  }

  lemma TakenMore(first: Chunk<Header>, answers: seq<Answer>, k: nat, above: nat, hash0: Hash, last: nat, hash: Hash)
    requires k < |first.items| && LastTaken(first, answers, k, above, hash0, last, hash)
    requires AnswerAt(answers, k) == Took && first.begin + k > last
    ensures IsLast(first, answers, k + 1, above, first.begin + k, first.items[k].hash, k)
  {
    assert last >= above;
  }

  lemma TakenSame(first: Chunk<Header>, answers: seq<Answer>, k: nat, above: nat, hash0: Hash, last: nat, hash: Hash)
    requires k < |first.items| && LastTaken(first, answers, k, above, hash0, last, hash)
    requires AnswerAt(answers, k) != Took || first.begin + k <= last
    ensures LastTaken(first, answers, k + 1, above, hash0, last, hash)
  {
    var next := k + 1;
    if last == above && hash == hash0 && forall j :: !TookAbove(first, answers, k, above, j) {
      forall j ensures !TookAbove(first, answers, next, above, j) {
        assert !TookAbove(first, answers, k, above, j);
      }
    } else {
      var j :| IsLast(first, answers, k, above, last, hash, j);
      forall i | TookAbove(first, answers, next, above, i) ensures i <= j {
        assert TookAbove(first, answers, k, above, i);
      }
      assert IsLast(first, answers, next, above, last, hash, j);
    }
  }

  /// What offering comes to.
  lemma {:induction false} OfferMeans(first: Chunk<Header>, n: nat, answers: seq<Answer>, i: nat, above: nat, hash0: Hash,
                                      last: nat, hash: Hash) returns (k: nat)
    requires i <= n <= |first.items| && LastTaken(first, answers, i, above, hash0, last, hash)
    requires forall j :: 0 <= j < i && j < |answers| ==> answers[j] == Took || answers[j] == Other
    ensures OfferedUpTo(answers, n, k)
    ensures match Offer(first, n, answers, i, last, hash)
            case Done(l, h) => k == n && LastTaken(first, answers, k, above, hash0, l, h)
            case Broken => k < n && answers[k] == Bad
            case Forked(l, h) =>
              k < n && answers[k] == Strange && LastTaken(first, answers, k, above, hash0, l, h) && first.begin + k > l
            case Stopped(l, h) =>
              k < n && answers[k] == Strange && LastTaken(first, answers, k, above, hash0, l, h) && first.begin + k <= l
    decreases n - i
  {
    if i == n {
      return i;
    }
    TakenStep(first, answers, i, above, hash0, last, hash);
    hide LastTaken;
    match AnswerAt(answers, i)
    case Took =>
      if first.begin + i > last {
        k := OfferMeans(first, n, answers, i + 1, above, hash0, first.begin + i, first.items[i].hash);
      } else {
        k := OfferMeans(first, n, answers, i + 1, above, hash0, last, hash);
      }
    case Other =>
      k := OfferMeans(first, n, answers, i + 1, above, hash0, last, hash);
    case _ =>
      k := i;
  }

  /// collectBlocks; None is its own failed assertion.
  function CollectStep(s: Sync, answers: seq<Answer>, full: bool, chainNumber: nat, chainHash: Hash): Option<Sync> {
    if !Ready(s) then Some(s)
    else match Offer(s.headers[0], Whole(s), answers, 0, s.last, s.lastHash)
      case Broken => Some(Restart(chainNumber, chainHash))
      case Forked(last, lastHash) =>
        Some(s.(headers := [], bodies := [], haveCommon := false, last := last, lastHash := lastHash))
      case Stopped(last, lastHash) => Some(s.(last := last, lastHash := lastHash))
      case Done(last, lastHash) =>
        if full then Some(Restart(chainNumber, chainHash)) else WithoutBlocks(s, last, lastHash)
  }

  /// The collected blocks go from both maps.
  function WithoutBlocks(s: Sync, last: nat, lastHash: Hash): Option<Sync>
    requires Ready(s)
  {
    var headers, bodies := WithoutFirst(s.headers, Whole(s)), WithoutFirst(s.bodies, Whole(s));
    if headers == [] && bodies != [] then None
    else Some(s.(headers := headers, bodies := bodies, last := last, lastHash := lastHash))
  }

  /// requestBlocks goes backwards until a common header is found or the start of the chain.
  function RequestStep(start: nat, s: Sync, hash: Hash): Sync {
    if s.haveCommon then s
    else
      var from := if s.headers == [] then s.last else Min(s.last, (s.headers[0].begin + U32 - 1) % U32);
      s.(last := from, lastHash := hash, haveCommon := from <= (start + 1) % U32)
  }

  /// onBlockImported, of a block that did not come from here.
  function MinedStep(s: Sync, number: nat, hash: Hash): Sync {
    if number <= s.last then s
    else s.(last := number % U32, lastHash := hash, highest := Max(number % U32, s.highest))
  }

  function Step(start: nat, s: Sync, e: Event): Option<Sync> {
    match e
    case HeaderArrives(number, header, known, empty, chainNumber, chainHash) =>
      HeaderStep(start, s, number, header, known, empty, chainNumber, chainHash)
    case BodyArrives(id, body) => Some(BodyStep(s, id, body))
    case BlockImported(block, hash) => Some(ImportStep(s, block, hash))
    case Collected(answers, full, chainNumber, chainHash) => CollectStep(s, answers, full, chainNumber, chainHash)
    case Requested(hash) => Some(RequestStep(start, s, hash))
    case Mined(number, hash) => Some(MinedStep(s, number, hash))
    case Restarted(chainNumber, chainHash) => Some(Restart(chainNumber, chainHash))
    case Reset => Some(s.(headers := [], bodies := []))
  }

  // ------------------------------------------------------------ when an assertion fails

  /// A header is added whose empty body is there already.
  predicate Clash(start: nat, s: Sync, number: nat, header: Header, known: bool, empty: bool) {
    && !Skips(start, s, number) && !known && empty && Present(s.bodies, number)
    && (s.haveCommon ==> !Misfit(s.headers, number, header, s.last, s.lastHash))
    && (s.haveCommon && Disowned(s.headers, number, header) ==> number + 1 < U32)
  }

  /// The queue objects to none of the first blocks.
  predicate Passes(answers: seq<Answer>, n: nat) {
    forall i :: 0 <= i < n ==> AnswerAt(answers, i).Took? || AnswerAt(answers, i).Other?
  }

  /// The last headers are collected, but not the last bodies.
  ghost predicate Leftover(s: Sync) {
    && Ready(s)
    && (forall x: nat :: Present(s.headers, x) ==> x < s.headers[0].begin + Whole(s))
    && exists x: nat :: Present(s.bodies, x) && x >= s.headers[0].begin + Whole(s)
  }

  /// The events at which an assertion fails, told from the state before.
  ghost predicate Fails(start: nat, s: Sync, e: Event) {
    match e
    case HeaderArrives(number, header, known, empty, _, _) => Clash(start, s, number, header, known, empty)
    case Collected(answers, full, _, _) => Leftover(s) && Passes(answers, Whole(s)) && !full
    case _ => false
  }

  lemma TrimmedGet(s: Sync, number: nat, header: Header, x: nat)
    requires Wf(s)
    ensures var t, cut := Trimmed(s, number, header), s.haveCommon && Disowned(s.headers, number, header);
            && Wf(t)
            && Get(t.headers, x) == (if cut && x >= (number + 1) % U32 then None else Get(s.headers, x))
            && Get(t.bodies, x) == (if cut && x >= (number + 1) % U32 then None else Get(s.bodies, x))
  {
    var n := (number + 1) % U32;
    BelowGood(s.headers, n);
    BelowGood(s.bodies, n);
    BelowGet(s.bodies, n, x);
    forall y: nat ensures Get(Below(s.headers, n), y) == if y >= n then None else Get(s.headers, y) {
      BelowGet(s.headers, n, y);
    }
  }

  lemma EmptyExactly<T>(cs: Chunks<T>, i: nat)
    requires Good(cs) && cs != [] && i <= |cs[0].items|
    ensures Good(WithoutFirst(cs, i))
    ensures WithoutFirst(cs, i) == [] <==> forall x: nat :: Present(cs, x) ==> x < cs[0].begin + i
  {
    DropFirstGet(cs, i);
    var rest := WithoutFirst(cs, i);
    FirstPresent(rest);
    if rest == [] {
      forall x: nat | Present(cs, x) ensures x < cs[0].begin + i {
        assert Get(rest, x) == None;
      }
    } else {
      assert Present(cs, rest[0].begin) && rest[0].begin >= cs[0].begin + i;
    }
  }

  /// All are offered if and only if the queue objects to none; and the number of the last one taken
  /// is in 32 bits.
  lemma {:induction false} OfferDone(first: Chunk<Header>, n: nat, answers: seq<Answer>, i: nat, last: nat, lastHash: Hash)
    requires i <= n <= |first.items|
    ensures var t := Offer(first, n, answers, i, last, lastHash);
            && (t.Done? <==> forall j :: i <= j < n ==> AnswerAt(answers, j).Took? || AnswerAt(answers, j).Other?)
            && (last < U32 && End(first) <= U32 && !t.Broken? ==> t.last < U32)
    decreases n - i
  {
    if i < n {
      OfferDone(first, n, answers, i + 1, last, lastHash);
      OfferDone(first, n, answers, i + 1, first.begin + i, first.items[i].hash);
      hide AnswerAt;
    }
  }

  lemma HeaderFails(start: nat, s: Sync, number: nat, header: Header, known: bool, empty: bool, chainNumber: nat,
                    chainHash: Hash)
    requires Wf(s) && number < U32
    ensures HeaderStep(start, s, number, header, known, empty, chainNumber, chainHash) == None
        <==> Clash(start, s, number, header, known, empty)
  {
    hide Trimmed, Get, Good, Bounded;
    var t := s.(highest := Max(s.highest, number));
    assert Wf(t);
    TrimmedGet(t, number, header, number);
  }

  lemma CollectFails(s: Sync, answers: seq<Answer>, full: bool, chainNumber: nat, chainHash: Hash)
    requires Wf(s)
    ensures CollectStep(s, answers, full, chainNumber, chainHash) == None
        <==> Leftover(s) && Passes(answers, Whole(s)) && !full
  {
    hide Good, Bounded, WithoutFirst, Offer, AnswerAt, Get;
    if Ready(s) {
      EmptyExactly(s.headers, Whole(s));
      EmptyExactly(s.bodies, Whole(s));
      OfferDone(s.headers[0], Whole(s), answers, 0, s.last, s.lastHash);
    }
  }

  /// An assertion fails at an event if and only if the state before it says so.
  lemma {:induction false} FailsExactly(start: nat, s: Sync, e: Event)
    requires Wf(s) && EventOk(e)
    ensures Step(start, s, e) == None <==> Fails(start, s, e)
  {
    match e
    case HeaderArrives(number, header, known, empty, chainNumber, chainHash) =>
      HeaderFails(start, s, number, header, known, empty, chainNumber, chainHash);
    case Collected(answers, full, chainNumber, chainHash) =>
      CollectFails(s, answers, full, chainNumber, chainHash);
    case _ =>
  }

  /// Where every body has its header no assertion fails.
  lemma CoveredNeverFails(start: nat, s: Sync, e: Event)
    requires Wf(s) && Covered(s.headers, s.bodies)
    ensures !Fails(start, s, e)
  {
    forall x: nat | Present(s.bodies, x) ensures Present(s.headers, x) {
    }
  }

  // ------------------------------------------------------------------- what is kept

  /// A header that is added: what is there then.
  lemma AddedPlaced(s: Sync, number: nat, header: Header, empty: bool)
    requires Wf(s) && number < U32 && !Present(s.headers, number)
             && Added(Trimmed(s, number, header), number, header, empty).Some?
    ensures var t, cut := Added(Trimmed(s, number, header), number, header, empty).value,
                        s.haveCommon && Disowned(s.headers, number, header);
            && Good(t.headers) && Good(t.bodies) && Bounded(t.headers)
            && Placed(s.headers, t.headers, number, Some(header), cut)
            && Placed(s.bodies, t.bodies, number, if empty then Some(EMPTY_BODY) else None, cut)
  {
    var u := Trimmed(s, number, header);
    TrimmedGet(s, number, header, number);
    MergedGood(u.headers, number, header);
    if empty {
      MergedGood(u.bodies, number, EMPTY_BODY);
    }
    var cut := s.haveCommon && Disowned(s.headers, number, header);
    forall x: nat ensures Get(Merged(u.headers, number, header), x) == PlacedItem(s.headers, number, Some(header), cut, x)
                  ensures Get(u.bodies, x) == PlacedItem(s.bodies, number, None, cut, x)
    {
      TrimmedGet(s, number, header, x);
      MergedGet(u.headers, number, header, x);
    }
    if empty {
      forall x: nat
        ensures Get(Merged(u.bodies, number, EMPTY_BODY), x) == PlacedItem(s.bodies, number, Some(EMPTY_BODY), cut, x)
      {
        TrimmedGet(s, number, header, x);
        MergedGet(u.bodies, number, EMPTY_BODY, x);
      }
    }
  }

  lemma AddedKeeps(s: Sync, number: nat, header: Header, empty: bool)
    requires Wf(s) && number < U32 && !Present(s.headers, number)
             && Added(Trimmed(s, number, header), number, header, empty).Some?
    ensures var t := Added(Trimmed(s, number, header), number, header, empty).value;
            && Wf(t)
            && (Covered(s.headers, s.bodies) ==> Covered(t.headers, t.bodies))
            && (s.haveCommon && !Misfit(s.headers, number, header, s.last, s.lastHash) && Linked(s.headers)
                ==> Linked(t.headers))
  {
    AddedPlaced(s, number, header, empty);
    var t, cut := Added(Trimmed(s, number, header), number, header, empty).value,
                        s.haveCommon && Disowned(s.headers, number, header);
    assert t.last == s.last;
    hide Placed, Added, Trimmed, Linked, Covered, Good, Bounded, Merged, Disowned;
    if Covered(s.headers, s.bodies) {
      PlacedCovered(s.headers, t.headers, s.bodies, t.bodies, number, header, if empty then Some(EMPTY_BODY) else None, cut);
    }
    if s.haveCommon && !Misfit(s.headers, number, header, s.last, s.lastHash) && Linked(s.headers) {
      PlacedLinked(s.headers, t.headers, number, header, s.last, s.lastHash);
    }
  }

  /// A body goes in next to its header.
  lemma BodyKeeps(s: Sync, id: Option<nat>, body: Body)
    requires Wf(s)
    ensures var t := BodyStep(s, id, body);
            && Wf(t) && t.headers == s.headers
            && (Covered(s.headers, s.bodies) ==> Covered(t.headers, t.bodies))
            && forall x: nat :: Get(t.bodies, x) ==
                 if id == Some(x) && Present(s.headers, x) && !Present(s.bodies, x) then Some(body) else Get(s.bodies, x)
  {
    if id.Some? && Present(s.headers, id.value) && !Present(s.bodies, id.value) {
      MergedGood(s.bodies, id.value, body);
      forall x: nat
        ensures Get(Merged(s.bodies, id.value, body), x) == if x == id.value then Some(body) else Get(s.bodies, x)
      {
        MergedGet(s.bodies, id.value, body, x);
      }
    }
  }

  lemma NoneKept()
    ensures Good<Header>([]) && Good<Body>([]) && Bounded([]) && Linked([]) && Covered([], [])
  {
  }

  /// Whether an import leaves each body its header: no header is outside the run that goes, or
  /// each body in the headers' run is in the bodies'.
  ghost predicate Safe(s: Sync, block: nat) {
    || block > (s.last + 1) % U32
    || (forall x: nat :: Present(s.headers, x) ==> Run(s.headers, block, x))
    || (forall x: nat :: Run(s.headers, block, x) && Present(s.bodies, x) ==> Run(s.bodies, block, x))
  }

  lemma RemovedAll<T>(cs: Chunks<T>, n: nat)
    requires Good(cs)
    ensures Good(Removed(cs, n))
    ensures forall x: nat :: Get(Removed(cs, n), x) == if Run(cs, n, x) then None else Get(cs, x)
    ensures Removed(cs, n) == [] <==> forall x: nat :: Present(cs, x) ==> Run(cs, n, x)
  {
    RemovedGood(cs, n);
    forall x: nat ensures Get(Removed(cs, n), x) == if Run(cs, n, x) then None else Get(cs, x) {
      RemovedGet(cs, n, x);
    }
    FirstPresent(Removed(cs, n));
    if Removed(cs, n) == [] {
      forall x: nat | Present(cs, x) ensures Run(cs, n, x) {
        assert Get(Removed(cs, n), x) == None;
      }
    }
  }

  lemma {:induction false} ImportKeeps(s: Sync, block: nat, hash: Hash)
    requires Wf(s) && block < U32
    ensures var t := ImportStep(s, block, hash);
            && Wf(t)
            && (Covered(s.headers, s.bodies) ==> (Covered(t.headers, t.bodies) <==> Safe(s, block)))
            && (Linked(s.headers) ==> Linked(t.headers))
  {
    hide Removed, Run, Good;
    NoneKept();
    RemovedAll(s.headers, block);
    RemovedAll(s.bodies, block);
    if Covered(s.headers, s.bodies) {
      DroppedCovered(s.headers, Removed(s.headers, block), s.bodies, Removed(s.bodies, block), block);
    }
    if Linked(s.headers) {
      FewerLinked(s.headers, Removed(s.headers, block));
    }
  }

  lemma FewerLinked(was: Chunks<Header>, now: Chunks<Header>)
    requires Linked(was) && forall x: nat :: Get(now, x) == None || Get(now, x) == Get(was, x)
    ensures Linked(now)
  {
    forall n: nat, next: nat | next == n + 1 ensures LinkedAt(now, n, next) {
      assert LinkedAt(was, n, next);
    }
  }

  /// What is collected goes from both maps alike.
  lemma WithoutKeeps(s: Sync, last: nat, lastHash: Hash)
    requires Wf(s) && Ready(s) && WithoutBlocks(s, last, lastHash).Some? && last < U32
    ensures var t, end := WithoutBlocks(s, last, lastHash).value, s.headers[0].begin + Whole(s);
            && Wf(t)
            && (Covered(s.headers, s.bodies) ==> Covered(t.headers, t.bodies))
            && (Linked(s.headers) ==> Linked(t.headers))
            && forall x: nat :: Get(t.headers, x) == (if x < end then None else Get(s.headers, x))
                                && Get(t.bodies, x) == (if x < end then None else Get(s.bodies, x))
  {
    var n := Whole(s);
    DropFirstGet(s.headers, n);
    DropFirstGet(s.bodies, n);
    hide Good, WithoutFirst;
    if Linked(s.headers) {
      FewerLinked(s.headers, WithoutFirst(s.headers, n));
    }
  }

  /// All headers are below 2^32.
  lemma FirstEnds(s: Sync)
    requires Wf(s) && s.headers != []
    ensures End(s.headers[0]) <= U32
  {
    assert Apart(s.headers, 0);
    GetIn(s.headers, 0, End(s.headers[0]) - 1);
  }

  lemma {:induction false} CollectKeeps(s: Sync, answers: seq<Answer>, full: bool, chainNumber: nat, chainHash: Hash)
    requires Wf(s) && chainNumber < U32 && CollectStep(s, answers, full, chainNumber, chainHash).Some?
    ensures var t := CollectStep(s, answers, full, chainNumber, chainHash).value;
            && Wf(t)
            && (Covered(s.headers, s.bodies) ==> Covered(t.headers, t.bodies))
            && (Linked(s.headers) ==> Linked(t.headers))
  {
    NoneKept();
    if Ready(s) {
      FirstEnds(s);
      OfferDone(s.headers[0], Whole(s), answers, 0, s.last, s.lastHash);
      var t := Offer(s.headers[0], Whole(s), answers, 0, s.last, s.lastHash);
      hide Good, Bounded, Linked, Covered, Offer, WithoutBlocks;
      if t.Done? && !full {
        WithoutKeeps(s, t.last, t.lastHash);
      }
    }
  }

  /// Every event keeps both maps well-formed; and each body its header, but for an import that is not
  /// safe; and, where a common header is known, all headers linked.
  lemma {:induction false} StepKeeps(start: nat, s: Sync, e: Event)
    requires Wf(s) && EventOk(e) && Step(start, s, e).Some?
    ensures var t := Step(start, s, e).value;
            && Wf(t)
            && (Covered(s.headers, s.bodies) ==> (Covered(t.headers, t.bodies) <==> (e.BlockImported? ==> Safe(s, e.block))))
            && (s.haveCommon && Linked(s.headers) ==> Linked(t.headers))
  {
    NoneKept();
    hide Good, Linked, Covered, Bounded, Misfit, Disowned, Added, Trimmed, BodyStep, ImportStep, CollectStep, Safe;
    match e
    case HeaderArrives(number, header, known, empty, _, _) =>
      if !Skips(start, s, number) && !known && !(s.haveCommon && Misfit(s.headers, number, header, s.last, s.lastHash)) {
        AddedKeeps(s.(highest := Max(s.highest, number)), number, header, empty);
      }
    case BodyArrives(id, body) => BodyKeeps(s, id, body);
    case BlockImported(block, hash) => ImportKeeps(s, block, hash);
    case Collected(answers, full, chainNumber, chainHash) => CollectKeeps(s, answers, full, chainNumber, chainHash);
    case _ =>
  }

  /// The same of one header.
  lemma HeaderKeeps(start: nat, s: Sync, number: nat, header: Header, known: bool, empty: bool, chainNumber: nat,
                    chainHash: Hash)
    requires Wf(s) && number < U32 && chainNumber < U32
    ensures HeaderStep(start, s, number, header, known, empty, chainNumber, chainHash) == None
        <==> Clash(start, s, number, header, known, empty)
    ensures HeaderStep(start, s, number, header, known, empty, chainNumber, chainHash).Some? ==>
              Wf(HeaderStep(start, s, number, header, known, empty, chainNumber, chainHash).value)
  {
    hide Wf, HeaderStep, Clash;
    var e := HeaderArrives(number, header, known, empty, chainNumber, chainHash);
    FailsExactly(start, s, e);
    if Step(start, s, e).Some? {
      StepKeeps(start, s, e);
    }
  }

  /// And of collectBlocks.
  lemma CollectsTo(start: nat, s: Sync, answers: seq<Answer>, full: bool, chainNumber: nat, chainHash: Hash)
    requires Wf(s) && chainNumber < U32
    ensures CollectStep(s, answers, full, chainNumber, chainHash) == None
        <==> Leftover(s) && Passes(answers, Whole(s)) && !full
    ensures CollectStep(s, answers, full, chainNumber, chainHash).Some? ==>
              Wf(CollectStep(s, answers, full, chainNumber, chainHash).value)
  {
    hide Wf, CollectStep, Leftover, Passes;
    FailsExactly(start, s, Collected(answers, full, chainNumber, chainHash));
    if CollectStep(s, answers, full, chainNumber, chainHash).Some? {
      CollectKeeps(s, answers, full, chainNumber, chainHash);
    }
  }

  /// And of an import.
  lemma ImportsTo(s: Sync, block: nat, hash: Hash)
    requires Wf(s) && block < U32
    ensures Wf(ImportStep(s, block, hash))
  {
    hide Wf, ImportStep, Safe, Covered, Linked;
    ImportKeeps(s, block, hash);
  }

  lemma NotTrimmed(s: Sync, number: nat, header: Header)
    ensures !s.haveCommon ==> Trimmed(s, number, header) == s
  {
  }

  // -------------------------------------------------------------------------- runs

  /// What a run of events leads to; None where an assertion fails on the way.
  function After(start: nat, s: Sync, es: seq<Event>): Option<Sync>
    decreases |es|
  {
    if es == [] then Some(s)
    else match Step(start, s, es[0]) { case None => None case Some(t) => After(start, t, es[1..]) }
  }

  predicate EventsOk(es: seq<Event>) {
    forall i :: 0 <= i < |es| ==> EventOk(es[i])
  }

  lemma {:induction false} AfterSnoc(start: nat, s: Sync, es: seq<Event>, e: Event)
    ensures After(start, s, es + [e]) == match After(start, s, es) { case None => None case Some(t) => Step(start, t, e) }
    decreases |es|
  {
    hide Step;
    if es == [] {
      assert ([] + [e])[1..] == [] && ([] + [e])[0] == e;
    } else if Step(start, s, es[0]).Some? {
      AfterSnoc(start, Step(start, s, es[0]).value, es[1..], e);
      assert (es + [e])[1..] == es[1..] + [e];
    }
  }

  /// Every run keeps both maps well-formed, and it fails if and only if it comes to a state that
  /// says so of the next event.
  lemma {:induction false} RunFails(start: nat, s: Sync, es: seq<Event>)
    requires Wf(s) && EventsOk(es)
    ensures After(start, s, es).Some? ==> Wf(After(start, s, es).value)
    ensures After(start, s, es) == None <==> exists i :: 0 <= i < |es| && FailsAt(start, s, es, i)
    decreases |es|
  {
    if es != [] {
      var last := |es| - 1;
      assert EventOk(es[last]);
      assert es[..last] + [es[last]] == es;
      AfterSnoc(start, s, es[..last], es[last]);
      RunFails(start, s, es[..last]);
      hide After, Step, Wf, Fails;
      var whole := FailsAt(start, s, es, last);
      forall i | 0 <= i < last ensures FailsAt(start, s, es[..last], i) <==> FailsAt(start, s, es, i) {
        assert es[..last][..i] == es[..i];
      }
      if After(start, s, es[..last]).Some? {
        var t := After(start, s, es[..last]).value;
        FailsExactly(start, t, es[last]);
        if Step(start, t, es[last]).Some? {
          StepKeeps(start, t, es[last]);
        }
      }
    }
  }

  ghost predicate FailsAt(start: nat, s: Sync, es: seq<Event>, i: int)
    requires 0 <= i < |es|
  {
    After(start, s, es[..i]).Some? && Fails(start, After(start, s, es[..i]).value, es[i])
  }

  /// A run in which every import is safe never fails, and in the end every body has its header.
  lemma {:induction false} SafeRun(start: nat, s: Sync, es: seq<Event>)
    requires Wf(s) && EventsOk(es) && Covered(s.headers, s.bodies) && ImportsSafe(start, s, es)
    ensures After(start, s, es).Some? && Wf(After(start, s, es).value)
    ensures Covered(After(start, s, es).value.headers, After(start, s, es).value.bodies)
    decreases |es|
  {
    if es != [] {
      assert EventOk(es[0]);
      FailsExactly(start, s, es[0]);
      CoveredNeverFails(start, s, es[0]);
      StepKeeps(start, s, es[0]);
      hide Wf, Covered, Step, Fails, Safe;
      forall i | 0 <= i < |es[1..]| ensures EventOk(es[1..][i]) {
        assert EventOk(es[i + 1]);
      }
      SafeRun(start, Step(start, s, es[0]).value, es[1..]);
    }
  }

  ghost predicate ImportsSafe(start: nat, s: Sync, es: seq<Event>)
    decreases |es|
  {
    es == [] ||
    ((es[0].BlockImported? ==> Safe(s, es[0].block)) &&
     match Step(start, s, es[0]) { case None => true case Some(t) => ImportsSafe(start, t, es[1..]) })
  }

  // ------------------------------------------------------------------- the class

  class BlockChainSync {
    const headers: ChunkMap<Header>
    const bodies: ChunkMap<Body>
    const chainStart: nat
    var haveCommon: bool
    var lastImported: nat
    var lastHash: Hash
    var highest: nat

    ghost function State(): Sync
      reads this, headers, bodies
    {
      Sync(headers.chunks, bodies.chunks, haveCommon, lastImported, lastHash, highest)
    }

    ghost predicate Valid()
      reads this, headers, bodies
    {
      Wf(State())
    }

    constructor (start: nat, last: nat, hash: Hash)
      requires last < U32
      ensures Valid() && fresh(headers) && fresh(bodies)
      ensures State() == Restart(last, hash) && chainStart == start
    {
      headers := new ChunkMap();
      bodies := new ChunkMap();
      chainStart, haveCommon, lastImported, lastHash, highest := start, false, last, hash, 0;
    }

    /// What a handler comes to: the next state or a failed assertion, after which nothing is said.
    ghost predicate Comes(asserted: bool, next: Option<Sync>)
      reads this, headers, bodies
    {
      match next
      case None => asserted
      case Some(t) => !asserted && State() == t && Valid()
    }

    /// One header of onPeerBlockHeaders.
    method OnHeader(number: nat, header: Header, known: bool, empty: bool, chainNumber: nat, chainHash: Hash)
      returns (asserted: bool)
      requires Valid() && number < U32 && chainNumber < U32
      modifies this, headers, bodies
      ensures Comes(asserted, HeaderStep(chainStart, old(State()), number, header, known, empty, chainNumber, chainHash))
      ensures asserted <==> Clash(chainStart, old(State()), number, header, known, empty)
    {
      hide Good, Bounded, Covered, Linked, Safe, Clash, Misfit, Added, Trimmed, Restart;
      HeaderKeeps(chainStart, State(), number, header, known, empty, chainNumber, chainHash);
      if number < chainStart {
        return false;
      }
      var have := headers.HaveItem(number);
      if have {
        return false;
      }
      if number <= lastImported && haveCommon {
        return false;
      }
      if number > highest {
        highest := number;
      }
      if known {
        haveCommon, lastImported, lastHash := true, number, header.hash;
        return false;
      }
      asserted := Consider(number, header, empty, chainNumber, chainHash);
    }

    /// A header that is neither known nor passed over: checked, where a common header is known, and
    /// added.
    method Consider(number: nat, header: Header, empty: bool, chainNumber: nat, chainHash: Hash)
        returns (asserted: bool)
      requires Valid() && number < U32 && chainNumber < U32 && !Present(headers.chunks, number)
      modifies this, headers, bodies
      ensures var s := old(State());
              match if s.haveCommon && Misfit(s.headers, number, header, s.last, s.lastHash)
                    then Some(Restart(chainNumber, chainHash))
                    else Added(Trimmed(s, number, header), number, header, empty)
              case None => asserted
              case Some(t) => !asserted && State() == t
    {
      hide Good, Bounded, Added, Trimmed, Restart;
      if haveCommon {
        var prev := headers.FindItem((number + U32 - 1) % U32);
        if (prev.Some? && prev.value.hash != header.parent)
           || (number == (lastImported + 1) % U32 && header.parent != lastHash)
        {
          RestartSync(chainNumber, chainHash);
          return false;
        }
        CheckNext(number, header);
      } else {
        NotTrimmed(State(), number, header);
      }
      asserted := AddHeader(number, header, empty);
    }

    /// The check of the next header. Where it fails, the chunk that starts with the next header is
    /// looked up, which must exist, and all that follows is dropped.
    method CheckNext(number: nat, header: Header)
      requires Valid() && number < U32 && !Present(headers.chunks, number) && haveCommon
      modifies headers, bodies
      ensures Valid() && State() == Trimmed(old(State()), number, header) && !Present(headers.chunks, number)
    {
      hide Bounded;
      TrimmedGet(State(), number, header, number);
      var n := (number + 1) % U32;
      var next := headers.FindItem(n);
      if next.Some? && next.value.parent != header.hash {
        ghost var j;
        if n == 0 {
          j := InWhich(headers.chunks, 0);
        } else {
          j := HeadAfterGap(headers.chunks, number);
        }
        var chunk := headers.At(n, j);
        headers.RemoveAllStartingWith(n);
        bodies.RemoveAllStartingWith(n);
      }
    }

    /// The header goes in, and an empty body right away.
    method AddHeader(number: nat, header: Header, empty: bool) returns (asserted: bool)
      requires Valid() && number < U32 && !Present(headers.chunks, number)
      modifies headers, bodies
      ensures match Added(old(State()), number, header, empty)
              case None => asserted
              case Some(t) => !asserted && State() == t
    {
      hide Good, Bounded, Merged;
      asserted := headers.MergeInto(number, header);
      if empty {
        asserted := bodies.MergeInto(number, EMPTY_BODY);
      }
    }

    method RestartSync(chainNumber: nat, chainHash: Hash)
      requires chainNumber < U32
      modifies this, headers, bodies
      ensures Valid() && State() == Restart(chainNumber, chainHash)
    {
      ResetSync();
      highest, haveCommon, lastImported, lastHash := 0, false, chainNumber, chainHash;
    }

    /// resetSync, as on abort and on completion.
    method ResetSync()
      modifies headers, bodies
      ensures State() == old(State()).(headers := [], bodies := [])
      ensures old(Valid()) ==> Valid()
    {
      headers.Clear();
      bodies.Clear();
    }

    /// onBlockImported, of a block that did not come from here.
    method OnBlockImported(number: nat, hash: Hash)
      requires Valid()
      modifies this
      ensures Valid() && State() == MinedStep(old(State()), number, hash)
    {
      if number > lastImported {
        lastImported, lastHash := number % U32, hash;
        highest := Max(lastImported, highest);
      }
    }

    /// One body of onPeerBlockBodies. Its mergeInto never fails.
    method OnBody(number: Option<nat>, body: Body)
      requires Valid()
      modifies bodies
      ensures Valid() && State() == BodyStep(old(State()), number, body)
    {
      hide Merged;
      BodyKeeps(State(), number, body);
      if number.None? {
        return;
      }
      var have := headers.HaveItem(number.value);
      if !have {
        return;
      }
      have := bodies.HaveItem(number.value);
      if have {
        return;
      }
      var asserted := bodies.MergeInto(number.value, body);
    }

    /// collectBlocks.
    method CollectBlocks(answers: seq<Answer>, full: bool, chainNumber: nat, chainHash: Hash) returns (asserted: bool)
      requires Valid() && chainNumber < U32
      modifies this, headers, bodies
      ensures Comes(asserted, CollectStep(old(State()), answers, full, chainNumber, chainHash))
      ensures asserted <==> Leftover(old(State())) && Passes(answers, Whole(old(State()))) && !full
    {
      CollectsTo(chainStart, State(), answers, full, chainNumber, chainHash);
      hide Good, Bounded, Covered, Linked, Leftover, Passes, WithoutFirst, Offer, AnswerAt, Restart;
      if !haveCommon || headers.chunks == [] || bodies.chunks == [] {
        return false;
      }
      var first := headers.chunks[0];
      if first.begin != bodies.chunks[0].begin || first.begin != (lastImported + 1) % U32 {
        return false;
      }
      var n := Min(|first.items|, |bodies.chunks[0].items|);
      var broken, stopped;
      ghost var k;
      broken, stopped, k := OfferBlocks(first, n, answers);
      if broken {
        RestartSync(chainNumber, chainHash);
        return false;
      }
      if stopped {
        return false;
      }
      if full {
        RestartSync(chainNumber, chainHash);
        return false;
      }
      headers.DropFirst(n);
      bodies.DropFirst(n);
      asserted := headers.chunks == [] && bodies.chunks != [];
    }

    /// Its loop, which offers the blocks to the queue.
    method OfferBlocks(first: Chunk<Header>, n: nat, answers: seq<Answer>)
        returns (broken: bool, stopped: bool, ghost k: nat)
      requires n <= |first.items|
      modifies this, headers, bodies
      ensures var s := old(State());
              match Offer(first, n, answers, 0, s.last, s.lastHash)
              case Broken => broken
              case Forked(last, lastHash) =>
                !broken && stopped
                && State() == s.(headers := [], bodies := [], haveCommon := false, last := last, lastHash := lastHash)
              case Stopped(last, lastHash) => !broken && stopped && State() == s.(last := last, lastHash := lastHash)
              case Done(last, lastHash) => !broken && !stopped && State() == s.(last := last, lastHash := lastHash)
      ensures OfferedUpTo(answers, n, k) && (stopped <==> k < n) && (broken <==> k < n && answers[k] == Bad)
      ensures !broken ==>
                && LastTaken(first, answers, k, old(lastImported), old(lastHash), lastImported, lastHash)
                && highest == old(highest)
                && if stopped && first.begin + k > lastImported
                   then headers.chunks == [] && bodies.chunks == [] && !haveCommon
                   else headers.chunks == old(headers.chunks) && bodies.chunks == old(bodies.chunks)
                        && haveCommon == old(haveCommon)
    {
      ghost var all := Offer(first, n, answers, 0, lastImported, lastHash);
      k := OfferMeans(first, n, answers, 0, lastImported, lastHash, lastImported, lastHash);
      hide LastTaken;
      broken, stopped := false, false;
      var i := 0;
      while i < n
        invariant i <= n && Offer(first, n, answers, i, lastImported, lastHash) == all
        invariant State() == old(State()).(last := lastImported, lastHash := lastHash)
      {
        match AnswerAt(answers, i) {
          case Took =>
            if first.begin + i > lastImported {
              lastImported, lastHash := first.begin + i, first.items[i].hash;
            }
          case Bad =>
            return true, true, k;
          case Strange =>
            if first.begin + i > lastImported {
              ResetSync();
              haveCommon := false;
            }
            return false, true, k;
          case Other =>
        }
        i := i + 1;
      }
    }

    /// onPeerNewBlock, where the queue takes the block: both runs go and, where no header is left,
    /// the bodies too.
    method OnImported(block: nat, hash: Hash)
      requires Valid() && block < U32
      modifies this, headers, bodies
      ensures Valid() && State() == ImportStep(old(State()), block, hash)
    {
      hide Good, Bounded, Covered, Linked, Safe, Removed, Run, Get;
      ImportsTo(State(), block, hash);
      if block > (lastImported + 1) % U32 {
        return;
      }
      if block > lastImported {
        lastImported, lastHash := block, hash;
      }
      highest := Max(lastImported, highest);
      headers.RemoveItem(block);
      bodies.RemoveItem(block);
      if headers.chunks == [] {
        bodies.Clear();
      }
    }

    /// The part of requestBlocks that goes backwards while no common header is known.
    method RequestBlocks(hash: Hash)
      requires Valid()
      modifies this
      ensures Valid() && State() == RequestStep(chainStart, old(State()), hash)
    {
      if !haveCommon {
        var start := lastImported;
        if headers.chunks != [] {
          start := Min(start, (headers.chunks[0].begin + U32 - 1) % U32);
        }
        lastImported, lastHash := start, hash;
        if start <= (chainStart + 1) % U32 {
          haveCommon := true;
        }
      }
    }
  }
}
