/// The two-level bloom index of the chain (libethereum/BlockChain.cpp): chunks of 16 blooms under
/// 32-bit ids, the lower level a bloom for every block, the upper one for every 16 of them.
module BloomIndex {
  import opened Numbers

  /// A log bloom is the set of its bits.
  type Bloom = set<nat>

  const SIZE: nat := 16
  const LEVELS: nat := 2

  type Chunks = map<nat, seq<Bloom>>

  /// chunkId, in 32 bits.
  function ChunkId(level: nat, index: nat): nat {
    (index * 0xff + level) % U32
  }

  /// Block numbers have 32 bits, so there are this many chunks in a level.
  function ChunkCount(level: nat): nat {
    if level == 0 then U32 / SIZE else U32 / SIZE / SIZE
  }

  /// Although the ids wrap around, no two chunks share one.
  lemma ChunkIdInjective(l0: nat, i0: nat, l1: nat, i1: nat)
    requires l0 < LEVELS && l1 < LEVELS && i0 < ChunkCount(l0) && i1 < ChunkCount(l1)
    requires ChunkId(l0, i0) == ChunkId(l1, i1)
    ensures l0 == l1 && i0 == i1
  {
    var k := (i0 * 0xff + l0) / U32 - (i1 * 0xff + l1) / U32;
    assert 255 * (i0 - i1 - 16843009 * k) == l1 - l0 + k;
  }

  function Zeros(): (c: seq<Bloom>)
    ensures |c| == SIZE && forall i :: 0 <= i < SIZE ==> c[i] == {}
  {
    seq(SIZE, _ => {})
  }

  predicate Wf(m: Chunks) {
    forall id <- m :: |m[id]| == SIZE
  }

  /// blocksBlooms: an absent chunk reads as zeros.
  function Chunk(m: Chunks, level: nat, index: nat): (c: seq<Bloom>)
    requires Wf(m)
    ensures |c| == SIZE
  {
    if ChunkId(level, index) in m then m[ChunkId(level, index)] else Zeros()
  }

  function Slot(m: Chunks, level: nat, item: nat): Bloom
    requires Wf(m)
  {
    Chunk(m, level, item / SIZE)[item % SIZE]
  }

  /// Where the two slots of a block number stand: in chunks of sixteen, under ids of 32 bits.
  lemma SlotsStand(m: Chunks, n: nat)
    requires Wf(m)
    ensures var low, up := n / 16 * 255 % 0x1_0000_0000, (n / 256 * 255 + 1) % 0x1_0000_0000;
            && Slot(m, 0, n) == (if low in m then m[low][n % 16] else {})
            && Slot(m, 1, n / 16) == (if up in m then m[up][n / 16 % 16] else {})
  {
    assert n / 16 / 16 == n / 256;
  }

  /// How many slots a level has.
  function ItemCount(level: nat): nat {
    if level == 0 then U32 else U32 / SIZE
  }

  function OrAll(bs: seq<Bloom>): Bloom {
    if bs == [] then {} else OrAll(bs[..|bs| - 1]) + bs[|bs| - 1]
  }

  /// Every upper slot is the union of the 16 lower ones.
  ghost predicate Collated(m: Chunks) {
    Wf(m) && forall item :: 0 <= item < ItemCount(1) ==> Slot(m, 1, item) == OrAll(Chunk(m, 0, item))
  }

  lemma {:induction false} OrAllHas(bs: seq<Bloom>, bit: nat)
    ensures bit in OrAll(bs) <==> exists i :: 0 <= i < |bs| && bit in bs[i]
  {
    if bs != [] {
      var last := |bs| - 1;
      OrAllHas(bs[..last], bit);
      if bit in OrAll(bs[..last]) {
        var i :| 0 <= i < last && bit in bs[..last][i];
        assert bit in bs[i];
      }
      if i :| 0 <= i < |bs| && bit in bs[i] {
        assert i < last ==> bs[..last][i] == bs[i];
      }
    }
  }

  lemma {:induction false} OrAllUpdate(bs: seq<Bloom>, o: nat, b: Bloom)
    requires o < |bs|
    ensures OrAll(bs[o := bs[o] + b]) == OrAll(bs) + b
  {
    var now := bs[o := bs[o] + b];
    forall bit ensures bit in OrAll(now) <==> bit in OrAll(bs) + b {
      OrAllHas(now, bit);
      OrAllHas(bs, bit);
      assert bit in now[o] <==> bit in bs[o] || bit in b;
      assert forall i :: 0 <= i < |bs| && i != o ==> now[i] == bs[i];
    }
  }

  /// One slot is written.
  function Put(m: Chunks, level: nat, item: nat, b: Bloom): (r: Chunks)
    requires Wf(m)
    ensures Wf(r)
  {
    m[ChunkId(level, item / SIZE) := Chunk(m, level, item / SIZE)[item % SIZE := b]]
  }

  /// It changes that slot only.
  lemma PutSlot(m: Chunks, level: nat, item: nat, b: Bloom, l: nat, i: nat)
    requires Wf(m) && level < LEVELS && l < LEVELS && item < ItemCount(level) && i < ItemCount(l)
    ensures Slot(Put(m, level, item, b), l, i) == if l == level && i == item then b else Slot(m, l, i)
    ensures i < ChunkCount(l) ==>
              (Chunk(Put(m, level, item, b), l, i)
               == if l == level && i == item / SIZE then Chunk(m, l, i)[item % SIZE := b] else Chunk(m, l, i))
  {
    PutChunk(m, level, item, b, l, i / SIZE);
    if i < ChunkCount(l) {
      PutChunk(m, level, item, b, l, i);
    }
    hide Put, Chunk, Wf, ChunkId;
    SamePlace(i, item);
  }

  lemma SamePlace(i: nat, j: nat)
    ensures i / SIZE == j / SIZE && i % SIZE == j % SIZE <==> i == j
  {
  }

  lemma PutChunk(m: Chunks, level: nat, item: nat, b: Bloom, l: nat, c: nat)
    requires Wf(m) && level < LEVELS && l < LEVELS && item < ItemCount(level) && c < ChunkCount(l)
    ensures Chunk(Put(m, level, item, b), l, c)
         == if l == level && c == item / SIZE then Chunk(m, l, c)[item % SIZE := b] else Chunk(m, l, c)
  {
    if ChunkId(level, item / SIZE) == ChunkId(l, c) {
      ChunkIdInjective(level, item / SIZE, l, c);
    }
    hide ChunkId;
  }

  // ------------------------------------------------------------------- writing

  /// The bloom of a block goes into both levels.
  function Added(m: Chunks, number: nat, b: Bloom): Chunks
    requires Wf(m)
  {
    var low := Put(m, 0, number, Slot(m, 0, number) + b);
    Put(low, 1, number / SIZE, Slot(low, 1, number / SIZE) + b)
  }

  lemma {:induction false} AddedCollates(m: Chunks, number: nat, b: Bloom)
    requires Collated(m) && number < U32
    ensures Collated(Added(m, number, b))
    ensures forall i :: 0 <= i < U32 ==>
              Slot(Added(m, number, b), 0, i) == if i == number then Slot(m, 0, i) + b else Slot(m, 0, i)
  {
    var low := Put(m, 0, number, Slot(m, 0, number) + b);
    var up := Added(m, number, b);
    forall i | 0 <= i < U32 ensures Slot(up, 0, i) == if i == number then Slot(m, 0, i) + b else Slot(m, 0, i) {
      PutSlot(m, 0, number, Slot(m, 0, number) + b, 0, i);
      PutSlot(low, 1, number / SIZE, Slot(low, 1, number / SIZE) + b, 0, i);
    }
    forall item | 0 <= item < ItemCount(1) ensures Slot(up, 1, item) == OrAll(Chunk(up, 0, item)) {
      PutSlot(m, 0, number, Slot(m, 0, number) + b, 1, item);
      PutSlot(low, 1, number / SIZE, Slot(low, 1, number / SIZE) + b, 1, item);
      PutSlot(m, 0, number, Slot(m, 0, number) + b, 0, item);
      PutSlot(low, 1, number / SIZE, Slot(low, 1, number / SIZE) + b, 0, item);
      if item == number / SIZE {
        OrAllUpdate(Chunk(m, 0, item), number % SIZE, b);
      }
    }
  }

  /// While the slots of blocks from begin on are cleared, up to done: only those changed.
  ghost predicate ClearedTo(was: Chunks, m: Chunks, begin: nat, done: nat) {
    && Wf(was) && Wf(m)
    && (forall i :: 0 <= i < U32 ==> Slot(m, 0, i) == if begin <= i < done then {} else Slot(was, 0, i))
    && (forall i :: 0 <= i < ItemCount(1) ==> Slot(m, 1, i) == Slot(was, 1, i))
  }

  /// While the upper slots are rebuilt: from begin to done they are, and outside the range nothing
  /// below them had changed.
  ghost predicate RebuiltTo(low: Chunks, m: Chunks, begin: nat, done: nat, end: nat) {
    && Wf(low) && Wf(m)
    && (forall i :: 0 <= i < U32 ==> Slot(m, 0, i) == Slot(low, 0, i))
    && (forall item :: 0 <= item < ItemCount(1) && !(done <= item < end) ==> Slot(m, 1, item) == OrAll(Chunk(m, 0, item)))
  }

  lemma ClearedStep(was: Chunks, m: Chunks, begin: nat, item: nat)
    requires ClearedTo(was, m, begin, item) && begin <= item < U32
    ensures ClearedTo(was, Put(m, 0, item, {}), begin, item + 1)
  {
    var now := Put(m, 0, item, {});
    forall i | 0 <= i < U32 ensures Slot(now, 0, i) == if begin <= i < item + 1 then {} else Slot(was, 0, i) {
      PutSlot(m, 0, item, {}, 0, i);
    }
    forall i | 0 <= i < ItemCount(1) ensures Slot(now, 1, i) == Slot(was, 1, i) {
      PutSlot(m, 0, item, {}, 1, i);
    }
  }

  /// Chunks with the same slots are the same.
  lemma SameSlots(a: Chunks, b: Chunks, index: nat)
    requires Wf(a) && Wf(b) && index < ChunkCount(0)
    requires forall i :: index * SIZE <= i < index * SIZE + SIZE ==> Slot(a, 0, i) == Slot(b, 0, i)
    ensures Chunk(a, 0, index) == Chunk(b, 0, index)
  {
    forall o | 0 <= o < SIZE ensures Chunk(a, 0, index)[o] == Chunk(b, 0, index)[o] {
      var i := index * SIZE + o;
      assert i / SIZE == index && i % SIZE == o;
      assert Slot(a, 0, i) == Slot(b, 0, i);
    }
  }

  lemma {:induction false} RebuildStarts(was: Chunks, m: Chunks, begin: nat, end: nat)
    requires Collated(was) && ClearedTo(was, m, begin, end) && begin < end <= U32
    ensures RebuiltTo(m, m, begin / SIZE, begin / SIZE, (end - 1) / SIZE + 1)
  {
    forall item | 0 <= item < ItemCount(1) && !(begin / SIZE <= item < (end - 1) / SIZE + 1)
      ensures Slot(m, 1, item) == OrAll(Chunk(m, 0, item))
    {
      SameSlots(m, was, item);
    }
  }

  lemma {:induction false} RebuildStep(low: Chunks, m: Chunks, begin: nat, item: nat, end: nat)
    requires RebuiltTo(low, m, begin, item, end) && begin <= item < end <= ItemCount(1)
    ensures RebuiltTo(low, Put(m, 1, item, OrAll(Chunk(m, 0, item))), begin, item + 1, end)
  {
    var b := OrAll(Chunk(m, 0, item));
    var now := Put(m, 1, item, b);
    forall i | 0 <= i < U32 ensures Slot(now, 0, i) == Slot(low, 0, i) {
      PutSlot(m, 1, item, b, 0, i);
    }
    forall i | 0 <= i < ItemCount(1) && !(item + 1 <= i < end) ensures Slot(now, 1, i) == OrAll(Chunk(now, 0, i)) {
      PutSlot(m, 1, item, b, 1, i);
      PutSlot(m, 1, item, b, 0, i);
    }
  }

  class Blooms {
    var chunks: Chunks

    constructor ()
      ensures chunks == map[] && Collated(chunks)
    {
      chunks := map[];
      new;
      ZerosCollate();
    }

    /// The loop over the levels in insertBlockAndExtras.
    method Add(number: nat, blockBloom: Bloom)
      requires Wf(chunks) && number < U32
      modifies this
      ensures chunks == Added(old(chunks), number, blockBloom)
    {
      var level, index := 0, number;
      while level < LEVELS
        invariant level <= LEVELS && Wf(chunks)
        invariant level == 0 ==> index == number && chunks == old(chunks)
        invariant level == 1 ==> index == number / SIZE
                                 && chunks == Put(old(chunks), 0, number, Slot(old(chunks), 0, number) + blockBloom)
        invariant level == 2 ==> chunks == Added(old(chunks), number, blockBloom)
      {
        var i, o := index / SIZE, index % SIZE;
        var c := Chunk(chunks, level, i);
        chunks := chunks[ChunkId(level, i) := c[o := c[o] + blockBloom]];
        level, index := level + 1, index / SIZE;
      }
    }

    /// clearBlockBlooms: the lower slots are emptied, the upper ones they belong to rebuilt.
    method Clear(begin: nat, end: nat)
      requires Collated(chunks) && begin < end < U32
      modifies this
      ensures Collated(chunks)
      ensures forall i :: 0 <= i < U32 ==> Slot(chunks, 0, i) == if begin <= i < end then {} else Slot(old(chunks), 0, i)
    {
      ghost var was := chunks;
      var item := begin;
      while item != end
        invariant begin <= item <= end && ClearedTo(was, chunks, begin, item)
        decreases end - item
      {
        ClearedStep(was, chunks, begin, item);
        ClearSlot(0, item, {});
        item := item + 1;
      }
      RebuildStarts(was, chunks, begin, end);
      ghost var low := chunks;
      var beginDirty, endDirty := begin / SIZE, (end - 1) / SIZE + 1;
      item := beginDirty;
      while item != endDirty
        invariant beginDirty <= item <= endDirty && RebuiltTo(low, chunks, beginDirty, item, endDirty)
        decreases endDirty - item
      {
        RebuildStep(low, chunks, beginDirty, item, endDirty);
        var acc := Accumulate(Chunk(chunks, 0, item));
        ClearSlot(1, item, acc);
        item := item + 1;
      }
    }

    method ClearSlot(level: nat, item: nat, acc: Bloom)
      requires Wf(chunks)
      modifies this
      ensures chunks == Put(old(chunks), level, item, acc)
    {
      var id := ChunkId(level, item / SIZE);
      var c := Chunk(chunks, level, item / SIZE);
      chunks := chunks[id := c[item % SIZE := acc]];
    }
  }

  method Accumulate(blooms: seq<Bloom>) returns (acc: Bloom)
    ensures acc == OrAll(blooms)
  {
    acc := {};
    for i := 0 to |blooms|
      invariant acc == OrAll(blooms[..i])
    {
      assert blooms[..i + 1][..i] == blooms[..i];
      acc := acc + blooms[i];
    }
    assert blooms[..|blooms|] == blooms;
  }

  lemma ZerosCollate()
    ensures Collated(map[])
  {
    var m: Chunks := map[];
    forall item | 0 <= item < ItemCount(1) ensures Slot(m, 1, item) == OrAll(Chunk(m, 0, item)) {
      forall bit ensures bit !in OrAll(Chunk(m, 0, item)) {
        OrAllHas(Chunk(m, 0, item), bit);
      }
    }
  }

  // ------------------------------------------------------------------- reading

  /// bb.blooms[o].contains(b).
  predicate Contains(slot: Bloom, b: Bloom) {
    b <= slot
  }

  /// A lower slot that contains a bloom has it in the upper slot above it.
  lemma {:induction false} ContainedAbove(m: Chunks, n: nat, b: Bloom)
    requires Collated(m) && n < U32 && Contains(Slot(m, 0, n), b)
    ensures Contains(Slot(m, 1, n / SIZE), b)
  {
    var c := Chunk(m, 0, n / SIZE);
    forall bit | bit in b ensures bit in Slot(m, 1, n / SIZE) {
      assert bit in c[n % SIZE];
      OrAllHas(c, bit);
    }
  }

  /// What a search finds where it gets: within the last number's upper chunk nothing above that
  /// number, but all of the chunk after it.
  predicate Sought(m: Chunks, b: Bloom, earliest: nat, latest: nat, n: nat)
    requires Wf(m)
  {
    earliest <= n && (n / 256 == latest / 256 ==> n <= latest) && Contains(Slot(m, 0, n), b)
  }

  /// Where the search in a chunk starts and ends.
  function OBegin(course: nat, fine: nat, index: nat, earliest: nat): nat
    requires course > 0 && fine > 0
  {
    if index == earliest / course then earliest / fine % SIZE else 0
  }

  function OEnd(course: nat, fine: nat, index: nat, latest: nat): nat
    requires course > 0 && fine > 0
  {
    if index == latest / course then latest / fine % SIZE + 1 else SIZE
  }

  /// withBlockBloom within one chunk of the lower level.
  method WithInLow(m: Chunks, b: Bloom, earliest: nat, latest: nat, index: nat) returns (ret: seq<nat>)
    requires Collated(m) && earliest < U32 && latest < U32 && index < ChunkCount(0)
    ensures forall n: nat :: n / SIZE == index && Sought(m, b, earliest, latest, n) ==> n in ret
    ensures forall n <- ret :: n / SIZE == index && Contains(Slot(m, 0, n), b)
    ensures forall n <- ret :: (index == earliest / SIZE ==> n >= earliest) && (index == latest / SIZE ==> n <= latest)
    ensures forall i, j :: 0 <= i < j < |ret| ==> ret[i] < ret[j]
  {
    ret := [];
    var bb := Chunk(m, 0, index);
    var o, oend := OBegin(SIZE, 1, index, earliest), OEnd(SIZE, 1, index, latest);
    LowStart(m, b, earliest, latest, index);
    while o < oend
      invariant o <= SIZE && (index == earliest / SIZE ==> o >= earliest % SIZE)
      invariant Low(m, b, earliest, latest, index, o, ret)
    {
      LowStep(m, b, earliest, latest, index, o, ret);
      hide Low, Sought;
      if Contains(bb[o], b) {
        ret := ret + [o + index * SIZE];
      }
      o := o + 1;
    }
    LowEnd(m, b, earliest, latest, index, o, ret);
  }

  /// What the search in a lower chunk has found before slot o.
  ghost predicate Low(m: Chunks, b: Bloom, earliest: nat, latest: nat, index: nat, o: nat, ret: seq<nat>)
    requires Wf(m)
  {
    && (forall n: nat :: index * SIZE <= n < o + index * SIZE && Sought(m, b, earliest, latest, n) ==> n in ret)
    && (forall n <- ret :: index * SIZE <= n < o + index * SIZE && Contains(Slot(m, 0, n), b))
    && (forall n <- ret :: (index == earliest / SIZE ==> n >= earliest) && (index == latest / SIZE ==> n <= latest))
    && (forall i, j :: 0 <= i < j < |ret| ==> ret[i] < ret[j])
  }

  lemma LowStart(m: Chunks, b: Bloom, earliest: nat, latest: nat, index: nat)
    requires Wf(m)
    ensures Low(m, b, earliest, latest, index, OBegin(SIZE, 1, index, earliest), [])
  {
    hide Wf, Slot, Contains;
    forall n: nat | index * SIZE <= n < OBegin(SIZE, 1, index, earliest) + index * SIZE
      ensures !Sought(m, b, earliest, latest, n)
    {
      assert earliest == earliest / SIZE * SIZE + earliest % SIZE;
    }
  }

  lemma LowStep(m: Chunks, b: Bloom, earliest: nat, latest: nat, index: nat, o: nat, ret: seq<nat>)
    requires Wf(m) && index < ChunkCount(0) && o < OEnd(SIZE, 1, index, latest)
    requires Low(m, b, earliest, latest, index, o, ret) && (index == earliest / SIZE ==> o >= earliest % SIZE)
    ensures Contains(Chunk(m, 0, index)[o], b) ==> Low(m, b, earliest, latest, index, o + 1, ret + [o + index * SIZE])
    ensures !Contains(Chunk(m, 0, index)[o], b) ==> Low(m, b, earliest, latest, index, o + 1, ret)
  {
    hide Wf, Contains;
    assert (o + index * SIZE) / SIZE == index && (o + index * SIZE) % SIZE == o;
    assert Slot(m, 0, o + index * SIZE) == Chunk(m, 0, index)[o];
    hide Slot;
    forall i | 0 <= i < |ret| ensures ret[i] < o + index * SIZE {
      assert ret[i] in ret;
    }
  }

  lemma LowEnd(m: Chunks, b: Bloom, earliest: nat, latest: nat, index: nat, o: nat, ret: seq<nat>)
    requires Wf(m) && Low(m, b, earliest, latest, index, o, ret) && OEnd(SIZE, 1, index, latest) <= o <= SIZE
    ensures forall n: nat :: n / SIZE == index && Sought(m, b, earliest, latest, n) ==> n in ret
    ensures forall n <- ret :: n / SIZE == index && Contains(Slot(m, 0, n), b)
    ensures forall n <- ret :: (index == earliest / SIZE ==> n >= earliest) && (index == latest / SIZE ==> n <= latest)
    ensures forall i, j :: 0 <= i < j < |ret| ==> ret[i] < ret[j]
  {
    hide Wf, Slot, Contains;
    forall n: nat | n / SIZE == index && n >= o + index * SIZE ensures !Sought(m, b, earliest, latest, n) {
      assert n / 256 == n / SIZE / SIZE && latest / 256 == latest / SIZE / SIZE;
    }
  }

  /// withBlockBloom within one chunk of the upper level.
  method WithInHigh(m: Chunks, b: Bloom, earliest: nat, latest: nat, index: nat) returns (ret: seq<nat>)
    requires Collated(m) && earliest < U32 && latest < U32 && index < ChunkCount(1)
    ensures forall n: nat :: n / 256 == index && Sought(m, b, earliest, latest, n) ==> n in ret
    ensures forall n <- ret :: n / 256 == index && Contains(Slot(m, 0, n), b)
    ensures forall n <- ret :: (index == earliest / 256 ==> n >= earliest) && (index == latest / 256 ==> n <= latest)
    ensures forall i, j :: 0 <= i < j < |ret| ==> ret[i] < ret[j]
  {
    ret := [];
    var bb := Chunk(m, 1, index);
    var o, oend := OBegin(256, SIZE, index, earliest), OEnd(256, SIZE, index, latest);
    FoundNone(m, b, earliest, latest, index);
    while o < oend
      invariant index == earliest / 256 ==> o >= earliest / SIZE % SIZE
      invariant Found(m, b, earliest, latest, index, o, ret) && o <= Max(oend, OBegin(256, SIZE, index, earliest))
    {
      UpperMiss(m, b, index, o);
      FoundSkip(m, b, earliest, latest, index, o, ret);
      hide Found, Sought;
      if Contains(bb[o], b) {
        var more := WithInLow(m, b, earliest, latest, o + index * SIZE);
        FoundMore(m, b, earliest, latest, index, o, ret, more);
        ret := ret + more;
      }
      o := o + 1;
    }
    FoundAll(m, b, earliest, latest, index, o, ret);
  }

  lemma FoundNone(m: Chunks, b: Bloom, earliest: nat, latest: nat, index: nat)
    requires Wf(m)
    ensures Found(m, b, earliest, latest, index, OBegin(256, SIZE, index, earliest), [])
  {
    forall n: nat | n / 256 == index && n / SIZE % SIZE < OBegin(256, SIZE, index, earliest) ensures n < earliest {
      assert n / SIZE / SIZE == index && earliest / SIZE / SIZE == index;
    }
  }

  lemma FoundSkip(m: Chunks, b: Bloom, earliest: nat, latest: nat, index: nat, o: nat, ret: seq<nat>)
    requires Wf(m) && Found(m, b, earliest, latest, index, o, ret)
    ensures (forall n: nat :: n / 256 == index && n / SIZE % SIZE == o ==> !Contains(Slot(m, 0, n), b)) ==>
              Found(m, b, earliest, latest, index, o + 1, ret)
  {
  }

  lemma FoundAll(m: Chunks, b: Bloom, earliest: nat, latest: nat, index: nat, o: nat, ret: seq<nat>)
    requires Wf(m) && Found(m, b, earliest, latest, index, o, ret) && o >= OEnd(256, SIZE, index, latest)
    ensures forall n: nat :: n / 256 == index && Sought(m, b, earliest, latest, n) ==> n in ret
    ensures forall n <- ret :: n / 256 == index && Contains(Slot(m, 0, n), b)
    ensures forall n <- ret :: (index == earliest / 256 ==> n >= earliest) && (index == latest / 256 ==> n <= latest)
    ensures forall i, j :: 0 <= i < j < |ret| ==> ret[i] < ret[j]
  {
    forall n: nat | n / 256 == index && n / SIZE % SIZE >= o ensures index == latest / 256 && n > latest {
      assert n / SIZE / SIZE == index && (index == latest / 256 ==> latest / SIZE / SIZE == index);
    }
  }

  /// What the search in an upper chunk has found before slot o.
  ghost predicate Found(m: Chunks, b: Bloom, earliest: nat, latest: nat, index: nat, o: nat, ret: seq<nat>)
    requires Wf(m)
  {
    && (forall n: nat :: n / 256 == index && n / SIZE % SIZE < o && Sought(m, b, earliest, latest, n) ==> n in ret)
    && (forall n <- ret :: n / 256 == index && n / SIZE % SIZE < o && Contains(Slot(m, 0, n), b))
    && (forall n <- ret :: (index == earliest / 256 ==> n >= earliest) && (index == latest / 256 ==> n <= latest))
    && (forall i, j :: 0 <= i < j < |ret| ==> ret[i] < ret[j])
  }

  lemma FoundMore(m: Chunks, b: Bloom, earliest: nat, latest: nat, index: nat, o: nat, ret: seq<nat>, more: seq<nat>)
    requires Wf(m) && Found(m, b, earliest, latest, index, o, ret) && o < SIZE
    requires (index == earliest / 256 ==> o >= earliest / SIZE % SIZE)
               && (index == latest / 256 ==> o <= latest / SIZE % SIZE)
    requires forall n: nat :: n / SIZE == o + index * SIZE && Sought(m, b, earliest, latest, n) ==> n in more
    requires forall n <- more :: n / SIZE == o + index * SIZE && Contains(Slot(m, 0, n), b)
    requires forall n <- more :: o + index * SIZE == earliest / SIZE ==> n >= earliest
    requires forall n <- more :: o + index * SIZE == latest / SIZE ==> n <= latest
    requires forall i, j :: 0 <= i < j < |more| ==> more[i] < more[j]
    ensures Found(m, b, earliest, latest, index, o + 1, ret + more)
  {
    hide Wf, Slot, Contains, Sought;
    HighStep(ret, more, index, o);
    forall n: nat | n / 256 == index && n / SIZE % SIZE < o + 1 && Sought(m, b, earliest, latest, n)
      ensures n in ret + more
    {
      Digits(n, index, o);
    }
    Digits(earliest, index, o);
    forall n | n in more && index == earliest / 256 ensures n >= earliest {
      NotBefore(n, earliest, index, o);
    }
    forall n | n in more && index == latest / 256 ensures n <= latest {
      NotAfter(n, latest, index, o);
    }
  }

  lemma NotAfter(n: nat, latest: nat, index: nat, o: nat)
    requires n / SIZE == o + index * SIZE && index == latest / 256 && o <= latest / SIZE % SIZE
    requires o + index * SIZE == latest / SIZE ==> n <= latest
    ensures n <= latest
  {
    assert latest / 256 == latest / SIZE / SIZE;
  }

  lemma Digits(n: nat, index: nat, o: nat)
    ensures n / 256 == index && n / SIZE % SIZE == o ==> n / SIZE == o + index * SIZE
  {
    assert n / 256 == n / SIZE / SIZE;
  }

  lemma NotBefore(n: nat, earliest: nat, index: nat, o: nat)
    requires n / SIZE == o + index * SIZE && index == earliest / 256 && o >= earliest / SIZE % SIZE
    requires o + index * SIZE == earliest / SIZE ==> n >= earliest
    ensures n >= earliest
  {
    assert earliest / 256 == earliest / SIZE / SIZE;
  }

  /// An upper slot without the bloom has none of it below.
  lemma UpperMiss(m: Chunks, b: Bloom, index: nat, o: nat)
    requires Collated(m) && index < ChunkCount(1) && o < SIZE
    ensures !Contains(Chunk(m, 1, index)[o], b) ==>
              forall n: nat :: n / 256 == index && n / SIZE % SIZE == o ==> !Contains(Slot(m, 0, n), b)
  {
    forall n: nat | n / 256 == index && n / SIZE % SIZE == o && Contains(Slot(m, 0, n), b)
      ensures Contains(Chunk(m, 1, index)[o], b)
    {
      ContainedAbove(m, n, b);
      assert n / SIZE / SIZE == index;
    }
  }

  /// Numbers below a later upper slot are greater.
  lemma HighStep(was: seq<nat>, more: seq<nat>, index: nat, o: nat)
    requires forall n <- was :: n / 256 == index && n / SIZE % SIZE < o
    requires o < SIZE && forall n <- more :: n / SIZE == o + index * SIZE
    requires forall i, j :: 0 <= i < j < |was| ==> was[i] < was[j]
    requires forall i, j :: 0 <= i < j < |more| ==> more[i] < more[j]
    ensures forall i, j :: 0 <= i < j < |was + more| ==> (was + more)[i] < (was + more)[j]
    ensures forall n <- more :: n / 256 == index && n / SIZE % SIZE == o
  {
    forall i, j | 0 <= i < |was| && 0 <= j < |more| ensures was[i] < more[j] {
      assert was[i] in was && more[j] in more;
      assert was[i] / SIZE / SIZE == index;
    }
  }

  /// ceilDiv in 32 bits.
  function CeilDiv(n: nat, d: nat): nat
    requires d > 0
  {
    (n + d - 1) % U32 / d
  }

  /// What the whole search finds, in ascending order: it gets as far as the rounded up last number.
  ghost predicate IsSearch(m: Chunks, b: Bloom, earliest: nat, latest: nat, ret: seq<nat>)
    requires Wf(m)
  {
    && (forall n: nat :: n in ret <==> Sought(m, b, earliest, latest, n) && n / 256 <= CeilDiv(latest, 256))
    && (forall i, j :: 0 <= i < j < |ret| ==> ret[i] < ret[j])
  }

  /// withBlockBloom.
  method With(m: Chunks, b: Bloom, earliest: nat, latest: nat) returns (ret: seq<nat>)
    requires Collated(m) && earliest < U32 && latest < U32
    ensures IsSearch(m, b, earliest, latest, ret)
  {
    ret := [];
    var u := 256;
    var index := earliest / u;
    SearchStart(m, b, earliest, latest);
    hide Collated, Wf, Slot, Sought, Contains, Searched, CeilDiv, IsSearch;
    while index <= CeilDiv(latest, u)
      invariant earliest / 256 <= index && (index <= CeilDiv(latest, u) + 1 || ret == [])
      invariant Searched(m, b, earliest, latest, index, ret)
      decreases CeilDiv(latest, u) + 1 - index
    {
      CeilDivFits(latest);
      var more := WithInHigh(m, b, earliest, latest, index);
      SearchStep(m, b, earliest, latest, index, ret, more);
      ret := ret + more;
      index := index + 1;
    }
    SearchEnd(m, b, earliest, latest, index, ret);
  }

  /// A number in the range whose lower slot contains the bloom is found if and only if rounding up
  /// the last number does not wrap around or the number is below 256.
  lemma SearchFinds(m: Chunks, b: Bloom, earliest: nat, latest: nat, ret: seq<nat>, n: nat)
    requires Wf(m) && latest < U32 && IsSearch(m, b, earliest, latest, ret)
    requires earliest <= n <= latest && Contains(Slot(m, 0, n), b)
    ensures n in ret <==> latest + 255 < U32 || n < 256
  {
    hide Wf, Slot, Contains;
    assert Sought(m, b, earliest, latest, n);
  }

  /// A number found above the last one lies in the upper chunk after its.
  lemma SearchEnds(m: Chunks, b: Bloom, earliest: nat, latest: nat, ret: seq<nat>, n: nat)
    requires Wf(m) && IsSearch(m, b, earliest, latest, ret) && n in ret && n > latest
    ensures n / 256 == latest / 256 + 1
  {
    hide Wf, Slot, Contains;
    assert Sought(m, b, earliest, latest, n) && CeilDiv(latest, 256) <= latest / 256 + 1;
  }

  /// What lies below an upper chunk is found, and nothing else.
  ghost predicate Searched(m: Chunks, b: Bloom, earliest: nat, latest: nat, index: nat, ret: seq<nat>)
    requires Wf(m)
  {
    && (forall n: nat :: n / 256 < index && Sought(m, b, earliest, latest, n) ==> n in ret)
    && (forall n <- ret :: n / 256 < index && Sought(m, b, earliest, latest, n))
    && (forall i, j :: 0 <= i < j < |ret| ==> ret[i] < ret[j])
  }

  lemma SearchStart(m: Chunks, b: Bloom, earliest: nat, latest: nat)
    requires Wf(m)
    ensures Searched(m, b, earliest, latest, earliest / 256, [])
  {
    hide Wf, Slot, Contains;
    assert forall n: nat :: n / 256 < earliest / 256 ==> n < earliest;
  }

  lemma CeilDivFits(latest: nat)
    ensures CeilDiv(latest, 256) < ChunkCount(1)
  {
  }

  lemma SearchStep(m: Chunks, b: Bloom, earliest: nat, latest: nat, index: nat, ret: seq<nat>, more: seq<nat>)
    requires Wf(m) && Searched(m, b, earliest, latest, index, ret) && earliest / 256 <= index
    requires forall n: nat :: n / 256 == index && Sought(m, b, earliest, latest, n) ==> n in more
    requires forall n <- more :: n / 256 == index && Contains(Slot(m, 0, n), b)
    requires forall n <- more :: (index == earliest / 256 ==> n >= earliest) && (index == latest / 256 ==> n <= latest)
    requires forall i, j :: 0 <= i < j < |more| ==> more[i] < more[j]
    ensures Searched(m, b, earliest, latest, index + 1, ret + more)
  {
    hide Wf, Slot, Contains;
    forall i, j | 0 <= i < |ret| && 0 <= j < |more| ensures ret[i] < more[j] {
      assert ret[i] in ret && more[j] in more;
    }
    forall n | n in more ensures Sought(m, b, earliest, latest, n) {
      assert n >= earliest;
    }
  }

  lemma SearchEnd(m: Chunks, b: Bloom, earliest: nat, latest: nat, index: nat, ret: seq<nat>)
    requires Wf(m) && Searched(m, b, earliest, latest, index, ret) && index > CeilDiv(latest, 256)
    requires index <= CeilDiv(latest, 256) + 1 || ret == []
    ensures IsSearch(m, b, earliest, latest, ret)
  {
    hide Wf, Slot, Contains, CeilDiv, Sought;
  }

  /// So a search up to the greatest number misses block 256, here the only one with the bloom.
  lemma MissesBlock256(ret: seq<nat>)
    ensures Wf(map[]) && Collated(Added(map[], 256, {5})) && Contains(Slot(Added(map[], 256, {5}), 0, 256), {5})
    ensures IsSearch(Added(map[], 256, {5}), {5}, 0, U32 - 1, ret) ==> ret == []
  {
    ZerosCollate();
    AddedCollates(map[], 256, {5});
    var m := Added(map[], 256, {5});
    forall n: nat | n < 256 ensures !Contains(Slot(m, 0, n), {5}) {
      assert Slot(map[], 0, n) == {} && 5 in {5};
    }
    NoMember(ret);
  }

  lemma NoMember(s: seq<nat>)
    ensures (forall n <- s :: false) ==> s == []
  {
    assert s != [] ==> s[0] in s;
  }
}
