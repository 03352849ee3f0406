/// Two runs in which a body outlives its header (libethereum/BlockChainSync.cpp), so that later an
/// assertion fails.
module StrandedBodies {
  import opened BlockSync
  import opened Chunks
  import opened Options

  // ------------------------------------------------------------- chunks, one or two

  lemma GetTwo<T>(a: Chunk<T>, b: Chunk<T>, n: nat)
    ensures Get([a, b], n) == if In(a, n) then Get([a], n) else Get([b], n)
  {
    assert [a, b][1..] == [b];
  }

  lemma BoundOne<T>(a: Chunk<T>, n: nat)
    ensures LowerBound([a], n) == if a.begin < n then 1 else 0
  {
  }

  lemma BoundTwo<T>(a: Chunk<T>, b: Chunk<T>, n: nat)
    requires a.begin < b.begin
    ensures LowerBound([a, b], n) == if b.begin < n then 2 else if a.begin < n then 1 else 0
  {
    assert [a, b][..1] == [a];
    BoundOne(a, n);
  }

  /// The first item there is.
  lemma MergeFirst<T>(n: nat, d: T)
    ensures Merged([], n, d) == [Chunk(n, [d])]
  {
  }

  /// An item goes at the end of the only chunk, or beyond it.
  lemma MergeLater<T>(a: Chunk<T>, n: nat, d: T)
    requires a.begin < n && End(a) <= n
    ensures Merged([a], n, d) == if End(a) == n then [Chunk(a.begin, a.items + [d])] else [a, Chunk(n, [d])]
  {
    BoundOne(a, n);
  }

  /// An item goes at the end of the last of two chunks, or beyond it.
  lemma MergeLast<T>(a: Chunk<T>, b: Chunk<T>, n: nat, d: T)
    requires a.begin < b.begin < n && End(b) <= n
    ensures Merged([a, b], n, d) == if End(b) == n then [a, Chunk(b.begin, b.items + [d])] else [a, b, Chunk(n, [d])]
  {
    BoundTwo(a, b, n);
    assert [a, b][..1] == [a];
  }

  /// The run that starts the first or the second chunk goes.
  lemma RemoveHead<T>(a: Chunk<T>, b: Chunk<T>)
    requires a.begin < b.begin
    ensures Removed([a, b], a.begin) == [b] && Removed([a, b], b.begin) == [a]
  {
    BoundTwo(a, b, a.begin);
    BoundTwo(a, b, b.begin);
    assert [a, b][..1] == [a] && [a, b][1..] == [b];
  }

  /// Where nothing is, nothing goes.
  lemma RemoveNone<T>(a: Chunk<T>, n: nat)
    requires n < a.begin
    ensures Removed([a], n) == [a]
  {
    BoundOne(a, n);
  }

  lemma RemoveGap<T>(a: Chunk<T>, b: Chunk<T>, n: nat)
    requires a.begin < End(a) <= n < b.begin
    ensures Removed([a, b], n) == [a, b]
  {
    BoundTwo(a, b, n);
  }

  // ---------------------------------------------------------------------- the runs

  /// A header of an unknown block.
  function Arrives(number: nat, x: Header, empty: bool): Event {
    HeaderArrives(number, x, false, empty, 0, 0)
  }

  lemma Cons(start: nat, s: Sync, e: Event, rest: seq<Event>)
    ensures After(start, s, [e] + rest) == match Step(start, s, e) { case None => None case Some(t) => After(start, t, rest) }
  {
    hide Step;
    assert ([e] + rest)[1..] == rest;
  }

  function Unchecked(headers: Chunks<Header>, bodies: Chunks<Body>, highest: nat): Sync {
    Sync(headers, bodies, false, 4, 0, highest)
  }

  /// Such a header goes in unchecked.
  lemma ArrivesUnchecked(start: nat, headers: Chunks<Header>, bodies: Chunks<Body>, highest: nat, number: nat,
                         x: Header, empty: bool)
    requires number >= start && !Present(headers, number) && !Present(bodies, number) && number >= highest
    ensures Step(start, Unchecked(headers, bodies, highest), Arrives(number, x, empty))
         == Some(Unchecked(Merged(headers, number, x), if empty then Merged(bodies, number, EMPTY_BODY) else bodies, number))
  {
    hide Merged, Get;
  }

  /// Headers 5, 6, 7 and 10, that of 7 with an empty body, and then block 5 by itself.
  function Stranding(x: Header, hash: Hash): seq<Event> {
    [Arrives(5, x, false)] + ([Arrives(6, x, false)] + ([Arrives(7, x, true)]
    + ([Arrives(10, x, false)] + ([BlockImported(5, hash)] + []))))
  }

  function Stranded(x: Header, hash: Hash): Sync {
    Sync([Chunk(10, [x])], [Chunk(7, [EMPTY_BODY])], false, 5, hash, 10)
  }

  lemma StrandingHeaders(x: Header)
    ensures var a, b, c := [Chunk(5, [x])], [Chunk(5, [x, x])], [Chunk(5, [x, x, x])];
            var none, body, d := [], [Chunk(7, [EMPTY_BODY])], [Chunk(5, [x, x, x]), Chunk(10, [x])];
            && Step(0, Restart(4, 0), Arrives(5, x, false)) == Some(Unchecked(a, none, 5))
            && Step(0, Unchecked(a, none, 5), Arrives(6, x, false)) == Some(Unchecked(b, none, 6))
            && Step(0, Unchecked(b, none, 6), Arrives(7, x, true)) == Some(Unchecked(c, body, 7))
            && Step(0, Unchecked(c, body, 7), Arrives(10, x, false)) == Some(Unchecked(d, body, 10))
  {
    hide Merged, Step, Good, LowerBound;
    var a, b, c := Chunk(5, [x]), Chunk(5, [x, x]), Chunk(5, [x, x, x]);
    var body := Chunk(7, [EMPTY_BODY]);
    MergeFirst(5, x);
    MergeLater(a, 6, x);
    MergeLater(b, 7, x);
    MergeFirst(7, EMPTY_BODY);
    MergeLater(c, 10, x);
    GetOne(a, 6);
    GetOne(b, 7);
    GetOne(c, 10);
    GetOne(body, 10);
    assert [x] + [x] == [x, x] && [x, x] + [x] == [x, x, x];
    ArrivesUnchecked(0, [], [], 0, 5, x, false);
    ArrivesUnchecked(0, [a], [], 5, 6, x, false);
    ArrivesUnchecked(0, [b], [], 6, 7, x, true);
    ArrivesUnchecked(0, [c], [body], 7, 10, x, false);
  }

  lemma StrandingImport(x: Header, hash: Hash)
    ensures Step(0, Unchecked([Chunk(5, [x, x, x]), Chunk(10, [x])], [Chunk(7, [EMPTY_BODY])], 10), BlockImported(5, hash))
         == Some(Stranded(x, hash))
  {
    hide Removed, Merged, Get, LowerBound, Restart;
    RemoveHead(Chunk(5, [x, x, x]), Chunk(10, [x]));
    RemoveNone(Chunk(7, [EMPTY_BODY]), 5);
  }

  /// When header 7 arrives again, mergeInto finds its body still there.
  lemma MergeFails(x: Header, hash: Hash)
    ensures After(0, Restart(4, 0), Stranding(x, hash)) == Some(Stranded(x, hash))
    ensures After(0, Restart(4, 0), Stranding(x, hash) + [Arrives(7, x, true)]) == None
  {
    StrandingHeaders(x);
    StrandingImport(x, hash);
    var s1, s2 := Unchecked([Chunk(5, [x])], [], 5), Unchecked([Chunk(5, [x, x])], [], 6);
    var s3 := Unchecked([Chunk(5, [x, x, x])], [Chunk(7, [EMPTY_BODY])], 7);
    var s4 := Unchecked([Chunk(5, [x, x, x]), Chunk(10, [x])], [Chunk(7, [EMPTY_BODY])], 10);
    var r5 := [BlockImported(5, hash)] + [];
    var r4 := [Arrives(10, x, false)] + r5;
    var r3 := [Arrives(7, x, true)] + r4;
    var r2 := [Arrives(6, x, false)] + r3;
    GetOne(Chunk(10, [x]), 7);
    GetOne(Chunk(7, [EMPTY_BODY]), 7);
    assert Step(0, Stranded(x, hash), Arrives(7, x, true)) == None;
    AfterSnoc(0, Restart(4, 0), Stranding(x, hash), Arrives(7, x, true));
    Cons(0, Restart(4, 0), Arrives(5, x, false), r2);
    Cons(0, s1, Arrives(6, x, false), r3);
    Cons(0, s2, Arrives(7, x, true), r4);
    Cons(0, s3, Arrives(10, x, false), r5);
    Cons(0, s4, BlockImported(5, hash), []);
    hide Step;
  }

  /// Headers 3, 5, 6 and 7, those of 3 and 7 with empty bodies, and then block 5 by itself. The
  /// next request goes back to block 2, where the chain starts, and block 3 is collected.
  function Leaving(x: Header, hash: Hash): seq<Event> {
    [Arrives(3, x, true)] + ([Arrives(5, x, false)] + ([Arrives(6, x, false)] + ([Arrives(7, x, true)]
    + ([BlockImported(5, hash)] + ([Requested(hash)] + [])))))
  }

  function Left(x: Header, hash: Hash): Sync {
    Sync([Chunk(3, [x])], [Chunk(3, [EMPTY_BODY]), Chunk(7, [EMPTY_BODY])], true, 2, hash, 7)
  }

  lemma LeavingHeaders(x: Header)
    ensures var first, body := Chunk(3, [x]), Chunk(3, [EMPTY_BODY]);
            var b, c, d := [first, Chunk(5, [x])], [first, Chunk(5, [x, x])], [first, Chunk(5, [x, x, x])];
            && Step(1, Restart(4, 0), Arrives(3, x, true)) == Some(Unchecked([first], [body], 3))
            && Step(1, Unchecked([first], [body], 3), Arrives(5, x, false)) == Some(Unchecked(b, [body], 5))
            && Step(1, Unchecked(b, [body], 5), Arrives(6, x, false)) == Some(Unchecked(c, [body], 6))
            && Step(1, Unchecked(c, [body], 6), Arrives(7, x, true)) == Some(Unchecked(d, [body, Chunk(7, [EMPTY_BODY])], 7))
  {
    hide Merged, Step, Good, LowerBound;
    var first, body := Chunk(3, [x]), Chunk(3, [EMPTY_BODY]);
    var b, c := Chunk(5, [x]), Chunk(5, [x, x]);
    MergeFirst(3, x);
    MergeFirst(3, EMPTY_BODY);
    MergeLater(first, 5, x);
    MergeLast(first, b, 6, x);
    MergeLast(first, c, 7, x);
    MergeLater(body, 7, EMPTY_BODY);
    GetOne(first, 5);
    GetOne(body, 5);
    GetOne(body, 6);
    GetOne(body, 7);
    GetTwo(first, b, 6);
    GetTwo(first, c, 7);
    GetOne(b, 6);
    GetOne(c, 7);
    assert [x] + [x] == [x, x] && [x, x] + [x] == [x, x, x];
    ArrivesUnchecked(1, [], [], 0, 3, x, true);
    ArrivesUnchecked(1, [first], [body], 3, 5, x, false);
    ArrivesUnchecked(1, [first, b], [body], 5, 6, x, false);
    ArrivesUnchecked(1, [first, c], [body], 6, 7, x, true);
  }

  lemma LeavingImport(x: Header, hash: Hash)
    ensures var first, bodies := Chunk(3, [x]), [Chunk(3, [EMPTY_BODY]), Chunk(7, [EMPTY_BODY])];
            && Step(1, Unchecked([first, Chunk(5, [x, x, x])], bodies, 7), BlockImported(5, hash))
               == Some(Sync([first], bodies, false, 5, hash, 7))
            && Step(1, Sync([first], bodies, false, 5, hash, 7), Requested(hash)) == Some(Left(x, hash))
  {
    hide Removed, Merged, Get, LowerBound, Restart;
    RemoveHead(Chunk(3, [x]), Chunk(5, [x, x, x]));
    RemoveGap(Chunk(3, [EMPTY_BODY]), Chunk(7, [EMPTY_BODY]), 5);
  }

  /// When block 3 is collected, no header is left, but body 7.
  lemma CollectFails(x: Header, hash: Hash, answers: seq<Answer>)
    requires Passes(answers, 1)
    ensures After(1, Restart(4, 0), Leaving(x, hash)) == Some(Left(x, hash))
    ensures After(1, Restart(4, 0), Leaving(x, hash) + [Collected(answers, false, 0, 0)]) == None
  {
    LeavingHeaders(x);
    LeavingImport(x, hash);
    var first, body := Chunk(3, [x]), Chunk(3, [EMPTY_BODY]);
    var bodies := [body, Chunk(7, [EMPTY_BODY])];
    var s1, s2 := Unchecked([first], [body], 3), Unchecked([first, Chunk(5, [x])], [body], 5);
    var s3, s4 := Unchecked([first, Chunk(5, [x, x])], [body], 6), Unchecked([first, Chunk(5, [x, x, x])], bodies, 7);
    var r6 := [Requested(hash)] + [];
    var r5 := [BlockImported(5, hash)] + r6;
    var r4 := [Arrives(7, x, true)] + r5;
    var r3 := [Arrives(6, x, false)] + r4;
    var r2 := [Arrives(5, x, false)] + r3;
    assert Step(1, Left(x, hash), Collected(answers, false, 0, 0)) == None;
    AfterSnoc(1, Restart(4, 0), Leaving(x, hash), Collected(answers, false, 0, 0));
    Cons(1, Restart(4, 0), Arrives(3, x, true), r2);
    Cons(1, s1, Arrives(5, x, false), r3);
    Cons(1, s2, Arrives(6, x, false), r4);
    Cons(1, s3, Arrives(7, x, true), r5);
    Cons(1, s4, BlockImported(5, hash), r6);
    Cons(1, Sync([first], bodies, false, 5, hash, 7), Requested(hash), []);
    hide Step;
  }
}
