/** Short runs of the allocator on single pages of one zone: one that leaves two free buddies
    side by side, and one that hands a live page out again although no owner ever writes to
    a page. */
module FrameExamples {
  import opened Bits
  import opened Blocks
  import opened FrameLists
  import opened FrameAllocator
  import opened FrameRuns
  import opened FrameBuddies
  import opened FrameStaleLink

  // ---------------------------------------------------------------- one call on areas 0 and 1

  lemma Zone0Update(a0: Area, a1: Area, b0: Area, b1: Area)
    ensures Zone0(a0, a1)[0 := b0] == Zone0(b0, a1) && Zone0(a0, a1)[1 := b1] == Zone0(a0, b1)
    ensures Zone0(a0, a1)[0] == a0 && Zone0(a0, a1)[1] == a1
  {
  }

  /** Freeing a page whose buddy does not head its list links it. */
  lemma FreeSingle(n: nat, h: nat, a1: Area, w: Words, c: nat, p: nat)
    requires 0 < p < ZONE_DMA_END && h != Buddy(p, 0) && n + 1 < TWO64 && c + 1 < TWO64
    ensures FreeGuard(At0(Area(n, h), a1, w, c), p, 0)
    ensures FreePages(At0(Area(n, h), a1, w, c), p, 0) == At0(Area(n + 1, p), a1, w[p := h], c + 1)
  {
    var s := At0(Area(n, h), a1, w, c);
    var z := s.zones[0];
    Zone0Update(Area(n, h), a1, Area(n + 1, p), a1);
    assert Coalesce(z, w, p, 0) == Coalesced(z, p, 0);
    assert s.zones[0 := z] == s.zones;
    assert s.zones[0 := Zone0(Area(n + 1, p), a1)] == At0(Area(n + 1, p), a1, w, c).zones;
  }

  /** Freeing a page whose buddy heads its list joins the two. */
  lemma FreeJoining(n: nat, b: nat, n1: nat, h1: nat, w: Words, c: nat, p: nat, q: nat)
    requires 0 < p < ZONE_DMA_END && b == Buddy(p, 0) && q == BitAnd(p, b) && h1 != Buddy(q, 1)
    requires n < TWO64 && n1 + 1 < TWO64 && c + 2 < TWO64
    ensures var s := At0(Area(n, b), Area(n1, h1), w, c);
      && (FreeGuard(s, p, 0) <==> n > 0)
      && FreePages(s, p, 0) == At0(Area((n + TWO64 - 1) % TWO64, Word(w, b)), Area(n1 + 1, q), w[q := h1], c + 2)
  {
    var a0, a1, b0, b1 := Area(n, b), Area(n1, h1), Area((n + TWO64 - 1) % TWO64, Word(w, b)), Area(n1 + 1, q);
    var s := At0(a0, a1, w, c);
    JoinOnce(n, b, n1, h1, w, p, q);
    Zone0Update(a0, a1, b0, b1);
    Zone0Update(b0, a1, b0, b1);
    assert Pow2(1) == 2;
    assert s.zones[0 := Zone0(b0, a1)][0 := Zone0(b0, b1)] == At0(b0, b1, w, c).zones;
  }

  lemma JoinOnce(n: nat, b: nat, n1: nat, h1: nat, w: Words, p: nat, q: nat)
    requires b == Buddy(p, 0) && q == BitAnd(p, b) && h1 != Buddy(q, 1)
    ensures var z := Zone0(Area(n, b), Area(n1, h1));
      var z' := Zone0(Area((n + TWO64 - 1) % TWO64, Word(w, b)), Area(n1, h1));
      Coalesce(z, w, p, 0) == Coalesced(z', q, 1) && (MergesListed(z, w, p, 0) <==> n > 0)
  {
    var z := Zone0(Area(n, b), Area(n1, h1));
    var z' := Taken(z, w, 0, b);
    Zone0Update(Area(n, b), Area(n1, h1), Area((n + TWO64 - 1) % TWO64, Word(w, b)), Area(n1, h1));
    assert Coalesce(z', w, q, 1) == Coalesced(z', q, 1);
    assert MergesListed(z', w, q, 1);
  }

  /** Allocating a page from its own list. */
  lemma AllocSingle(n: nat, h: nat, a1: Area, w: Words, c: nat)
    requires 0 < n && 0 < c < TWO64
    ensures AllocPages(At0(Area(n, h), a1, w, c), 0, 0) == Allocation(At0(Area(n - 1, Word(w, h)), a1, w, c - 1), h)
  {
    var s := At0(Area(n, h), a1, w, c);
    Zone0Update(Area(n, h), a1, Area(n - 1, Word(w, h)), a1);
    assert s.zones[0 := Zone0(Area(n - 1, Word(w, h)), a1)] == At0(Area(n - 1, Word(w, h)), a1, w, c).zones;
  }

  /** Allocating a page by splitting a pair. */
  lemma AllocSplitting(h0: nat, n1: nat, p: nat, w: Words, c: nat)
    requires 0 < n1 && 0 < p && 2 <= c < TWO64
    ensures AllocPages(At0(Area(0, h0), Area(n1, p), w, c), 0, 0)
         == Allocation(At0(Area(1, Buddy(p, 0)), Area(n1 - 1, Word(w, p)), w, c - 2), p)
  {
    var a0, a1, b0, b1 := Area(0, h0), Area(n1, p), Area(1, Buddy(p, 0)), Area(n1 - 1, Word(w, p));
    var s := At0(a0, a1, w, c);
    var z := s.zones[0];
    Zone0Update(a0, a1, b0, b1);
    Zone0Update(a0, b1, b0, b1);
    assert Pow2(1) == 2;
    assert AllocZone(z, w, 1) == AllocResult(Zone0(a0, b1), p, 2);
    assert AllocZone(z, w, 0) == AllocResult(Zone0(b0, b1), p, 2);
    assert s.zones[0 := Zone0(b0, b1)] == At0(b0, b1, w, c).zones;
  }

  // ---------------------------------------------------------------- runs

  function Page(p: nat): Block {
    Block(p, 0)
  }

  lemma StepFree(x: System, p: nat, x': System)
    requires x.live == x'.live + multiset{Page(p)} && FreeGuard(x.frames, p, 0) && FreePages(x.frames, p, 0) == x'.frames
    ensures Permitted(x, Free(Page(p))) && Step(x, Free(Page(p))) == x'
  {
    InOut(x'.live, Page(p));
  }

  lemma StepAlloc(x: System, p: nat, x': System)
    requires p != 0 && AllocPages(x.frames, 0, 0) == Allocation(x'.frames, p) && x'.live == x.live + multiset{Page(p)}
    ensures Permitted(x, Alloc(0, 0)) && Step(x, Alloc(0, 0)) == x'
  {
  }

  /** Three steps of a run, one by one. */
  lemma ThreeSteps(x: System, a: Op, b: Op, c: Op, x1: System, x2: System, x3: System)
    requires Permitted(x, a) && Step(x, a) == x1 && Permitted(x1, b) && Step(x1, b) == x2
    requires Permitted(x2, c) && Step(x2, c) == x3
    ensures Disciplined(x, [a, b, c]) && Run(x, [a, b, c]) == x3
  {
    var ops := [a, b, c];
    Unfold(x, ops, x1);
    Unfold(x1, ops[1..], x2);
    Unfold(x2, ops[2..], x3);
    assert ops[1..][1..] == ops[2..] && ops[2..][1..] == [];
  }

  lemma {:induction false} RunAppend(x: System, a: seq<Op>, b: seq<Op>)
    ensures Run(x, a + b) == Run(Run(x, a), b)
    ensures Disciplined(x, a) && Disciplined(Run(x, a), b) ==> Disciplined(x, a + b)
    decreases |a|
  {
    if a == [] {
      assert a + b == b;
    } else {
      assert (a + b)[0] == a[0] && (a + b)[1..] == a[1..] + b;
      RunAppend(Step(x, a[0]), a[1..], b);
    }
  }

  lemma NothingListed(words: Words, n: nat)
    ensures InitialFrames(words, n) == At0(Area(0, 0), Area(0, 0), words, n)
  {
    assert Zone0(Area(0, 0), Area(0, 0)) == EmptyZone();
  }

  // ---------------------------------------------------------------- two free buddies

  function FourPages(): System {
    System(InitialFrames(map[], 4), multiset{Page(7)} + multiset{Page(5)} + multiset{Page(6)} + multiset{Page(4)})
  }

  /** Three single pages freed one after the other without a join. */
  lemma ThreeFrees(live: multiset<Block>, n: nat, a: nat, b: nat, c: nat) returns (x: System)
    requires 0 < a < ZONE_DMA_END && 0 < b < ZONE_DMA_END && 0 < c < ZONE_DMA_END && n < 1000
    requires Buddy(a, 0) != 0 && a != Buddy(b, 0) && b != Buddy(c, 0)
    ensures var start := System(InitialFrames(map[], n), live + multiset{Page(c)} + multiset{Page(b)} + multiset{Page(a)});
      var ops := [Free(Page(a)), Free(Page(b)), Free(Page(c))];
      Disciplined(start, ops) && Run(start, ops) == x
    ensures x == System(At0(Area(3, c), Area(0, 0), map[][a := 0][b := a][c := b], n + 3), live)
  {
    var e, w1: Words := Area(0, 0), map[][a := 0];
    var w2 := w1[b := a];
    var l2 := live + multiset{Page(c)};
    var l1 := l2 + multiset{Page(b)};
    NothingListed(map[], n);
    FreeSingle(0, 0, e, map[], n, a);
    FreeSingle(1, a, e, w1, n + 1, b);
    FreeSingle(2, b, e, w2, n + 2, c);
    var x0 := System(InitialFrames(map[], n), l1 + multiset{Page(a)});
    var x1, x2 := System(At0(Area(1, a), e, w1, n + 1), l1), System(At0(Area(2, b), e, w2, n + 2), l2);
    x := System(At0(Area(3, c), e, w2[c := b], n + 3), live);
    StepFree(x0, a, x1);
    StepFree(x1, b, x2);
    StepFree(x2, c, x);
    ThreeSteps(x0, Free(Page(a)), Free(Page(b)), Free(Page(c)), x1, x2, x);
  }

  lemma FourPagesApart()
    ensures !BuddiesListed(ZoneLists(FourPages().frames, 0))
  {
    EmptyHasNone(FourPages().frames);
  }

  lemma FourPagesFreed() returns (x: System)
    ensures var ops := [Free(Page(4)), Free(Page(6)), Free(Page(5))];
      Disciplined(FourPages(), ops) && Run(FourPages(), ops) == x
    ensures x.frames == At0(Area(3, 5), Area(0, 0), map[][4 := 0][6 := 4][5 := 6], 7)
  {
    XorOne(4);
    XorOne(5);
    XorOne(6);
    x := ThreeFrees(multiset{Page(7)}, 4, 4, 6, 5);
  }

  /** Of four single pages in use, 4, 6 and 5 are freed in that order: pages 4 and 5 are buddies
      and both end up on the list of single pages. */
  lemma BuddiesCoexist() returns (x: System)
    ensures var ops := [Free(Page(4)), Free(Page(6)), Free(Page(5))];
      Disciplined(FourPages(), ops) && Run(FourPages(), ops) == x
    ensures !BuddiesListed(ZoneLists(FourPages().frames, 0)) && BuddiesListed(ZoneLists(x.frames, 0))
  {
    FourPagesApart();
    x := FourPagesFreed();
    XorOne(5);
    FirstAndThird(x.frames, 4, 6, 5, 7);
  }

  lemma FirstAndThird(s: Frames, a: nat, b: nat, c: nat, n: nat)
    requires s == At0(Area(3, c), Area(0, 0), map[][a := 0][b := a][c := b], n)
    requires a != b && b != c && a != c && Buddy(c, 0) == a
    ensures BuddiesListed(ZoneLists(s, 0))
  {
    ListOfThree(s.words, c, b, a);
    var l := ZoneLists(s, 0);
    assert c in l[0] && Buddy(c, 0) in l[0];
  }

  lemma ListOfThree(w: Words, a: nat, b: nat, c: nat)
    requires Word(w, a) == b && Word(w, b) == c
    ensures Walk(w, a, 3) == [a, b, c]
  {
    WalkOne(w, c);
    assert Walk(w, b, 2) == [b] + Walk(w, c, 1);
    assert Walk(w, a, 3) == [a] + Walk(w, b, 2);
  }

  lemma EmptyHasNone(s: Frames)
    requires forall i :: 0 <= i < 12 ==> s.zones[0][i].nrFree == 0
    ensures !BuddiesListed(ZoneLists(s, 0))
  {
    assert forall i :: 0 <= i < 12 ==> ZoneLists(s, 0)[i] == [];
  }

  // ---------------------------------------------------------------- nobody writes to a page

  /** Two pairs of buddies, `p` with `p1` and `q` with `q1`, that are not buddies as pairs. */
  predicate TwoPairs(p: nat, p1: nat, q: nat, q1: nat) {
    && Buddy(p, 0) == p1 && Buddy(p1, 0) == p && Buddy(q, 0) == q1 && Buddy(q1, 0) == q
    && BitAnd(p, p1) == p && BitAnd(q1, q) == q && Buddy(p, 1) != 0 && Buddy(q, 1) != 0
    && 0 < p < p1 < q < q1 < ZONE_DMA_END
  }

  function PairsLive(p: nat, p1: nat, q: nat, q1: nat): multiset<Block> {
    multiset{Page(q1)} + multiset{Page(p)} + multiset{Page(p1)} + multiset{Page(q)}
  }

  /** The words after the frees: page `p1` was listed in front of page `q` when it was joined
      with page `p`, and keeps that link. */
  function Links(p: nat, p1: nat, q: nat): Words {
    map[][q := 0][p1 := q][p := 0]
  }

  function PairFrees(p: nat, p1: nat, q: nat): seq<Op> {
    [Free(Page(q)), Free(Page(p1)), Free(Page(p))]
  }

  lemma FreesReach(p: nat, p1: nat, q: nat, q1: nat) returns (x: System)
    requires TwoPairs(p, p1, q, q1)
    ensures var start := System(InitialFrames(map[], 4), PairsLive(p, p1, q, q1));
      Disciplined(start, PairFrees(p, p1, q)) && Run(start, PairFrees(p, p1, q)) == x
    ensures x == System(At0(Area(1, q), Area(1, p), Links(p, p1, q), 8), multiset{Page(q1)})
  {
    var e, w1: Words, l2 := Area(0, 0), map[][q := 0], multiset{Page(q1)} + multiset{Page(p)};
    var w2, l1 := w1[p1 := q], l2 + multiset{Page(p1)};
    NothingListed(map[], 4);
    FreeSingle(0, 0, e, map[], 4, q);
    FreeSingle(1, q, e, w1, 5, p1);
    FreeJoining(2, p1, 0, 0, w2, 6, p, p);
    var x0 := System(InitialFrames(map[], 4), l1 + multiset{Page(q)});
    var x1, x2 := System(At0(Area(1, q), e, w1, 5), l1), System(At0(Area(2, p1), e, w2, 6), l2);
    x := System(At0(Area(1, q), Area(1, p), Links(p, p1, q), 8), multiset{Page(q1)});
    StepFree(x0, q, x1);
    StepFree(x1, p1, x2);
    StepFree(x2, p, x);
    ThreeSteps(x0, Free(Page(q)), Free(Page(p1)), Free(Page(p)), x1, x2, x);
  }

  lemma AllocsReach(x: System, p: nat, p1: nat, q: nat, q1: nat) returns (y: System)
    requires TwoPairs(p, p1, q, q1)
    requires x == System(At0(Area(1, q), Area(1, p), Links(p, p1, q), 8), multiset{Page(q1)})
    ensures Disciplined(x, [Alloc(0, 0), Alloc(0, 0), Alloc(0, 0)]) && Run(x, [Alloc(0, 0), Alloc(0, 0), Alloc(0, 0)]) == y
    ensures y == System(At0(Area(0, q), Area(0, 0), Links(p, p1, q), 4), PairsLive(p, p1, q, q1))
  {
    var w, l1 := Links(p, p1, q), multiset{Page(q1)} + multiset{Page(q)};
    var l2 := l1 + multiset{Page(p)};
    var l3 := l2 + multiset{Page(p1)};
    AllocSingle(1, q, Area(1, p), w, 8);
    AllocSplitting(0, 1, p, w, 7);
    AllocSingle(1, p1, Area(0, 0), w, 5);
    var x1, x2 := System(At0(Area(0, 0), Area(1, p), w, 7), l1), System(At0(Area(1, p1), Area(0, 0), w, 5), l2);
    y := System(At0(Area(0, q), Area(0, 0), w, 4), l3);
    StepAlloc(x, q, x1);
    StepAlloc(x1, p, x2);
    StepAlloc(x2, p1, y);
    ThreeSteps(x, Alloc(0, 0), Alloc(0, 0), Alloc(0, 0), x1, x2, y);
    assert l3 == PairsLive(p, p1, q, q1);
  }

  /** Freeing `q1` meets `q` as the head of an empty list; done anyway, the pair is handed out
      although `q` is live. */
  lemma LivePairTaken(y: System, p: nat, p1: nat, q: nat, q1: nat)
    requires TwoPairs(p, p1, q, q1) && y.frames == At0(Area(0, q), Area(0, 0), Links(p, p1, q), 4)
    ensures !FreeGuard(y.frames, q1, 0) && AllocPages(FreePages(y.frames, q1, 0), 1, 0).page == q
  {
    FreeJoining(0, q, 0, 0, Links(p, p1, q), 4, q1, q);
    PairTaken(Area(TWO64 - 1, 0), q, Links(p, p1, q)[q := 0], 6);
  }

  lemma PairTaken(a0: Area, p: nat, w: Words, c: nat)
    ensures AllocPages(At0(a0, Area(1, p), w, c), 1, 0).page == p
  {
    Zone0Update(a0, Area(1, p), a0, Area(0, Word(w, p)));
  }

  /** No owner ever stores into a page and every frame number is above the largest block size, so
      all words are zero but the links the allocator writes itself. Still, three frees and three
      allocations of single pages reach a state in which freeing a live page fails the guard, and
      doing it makes the next allocation of a pair return a page in use: a join leaves a link
      word behind that a later split lists. */
  lemma ScrubbingDoesNotHelp() returns (y: System)
    ensures var start := System(InitialFrames(map[], 4), PairsLive(4096, 4097, 4102, 4103));
      var ops := PairFrees(4096, 4097, 4102) + [Alloc(0, 0), Alloc(0, 0), Alloc(0, 0)];
      Disciplined(start, ops) && Run(start, ops) == y && y.live == start.live
    ensures !FreeGuard(y.frames, 4103, 0) && AllocPages(FreePages(y.frames, 4103, 0), 1, 0).page == 4102
  {
    ConcretePairs();
    var x := FreesReach(4096, 4097, 4102, 4103);
    y := AllocsReach(x, 4096, 4097, 4102, 4103);
    RunAppend(System(InitialFrames(map[], 4), PairsLive(4096, 4097, 4102, 4103)),
      PairFrees(4096, 4097, 4102), [Alloc(0, 0), Alloc(0, 0), Alloc(0, 0)]);
    LivePairTaken(y, 4096, 4097, 4102, 4103);
  }

  lemma ConcretePairs()
    ensures TwoPairs(4096, 4097, 4102, 4103)
  {
    XorOne(4096);
    XorOne(4097);
    XorOne(4102);
    XorOne(4103);
    XorPair(4096, 1);
    XorPair(4102, 1);
  }
}
