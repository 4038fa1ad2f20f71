/** Where stale links come from: as long as no allocation splits a block, every chain of links
    ends in NULL and every free of a live block meets its guard. */
module FrameChains {
  import opened Bits
  import opened Blocks
  import opened FrameLists
  import opened FrameAllocator
  import opened FrameSafety
  import opened FrameRuns

  /** The link behind the first `n` pages of a chain. */
  function After(w: Words, p: nat, n: nat): nat
    decreases n
  {
    if n == 0 then p else After(w, Word(w, p), n - 1)
  }

  /** Every list of a zone ends in NULL; the head of an empty list is NULL. */
  ghost predicate Ended(a: Zone, w: Words) {
    forall i :: 0 <= i < 12 ==> After(w, a[i].head, a[i].nrFree) == 0
  }

  ghost predicate AllEnded(s: Frames) {
    forall z :: 0 <= z < 3 ==> Ended(s.zones[z], s.words)
  }

  lemma {:induction false} AfterFrame(w: Words, p: nat, n: nat, q: nat, v: nat)
    requires q !in Walk(w, p, n)
    ensures After(w[q := v], p, n) == After(w, p, n)
    decreases n
  {
    if n > 0 {
      AfterFrame(w, Word(w, p), n - 1, q, v);
    }
  }

  lemma EndedFrame(a: Zone, w: Words, q: nat, v: nat)
    requires Ended(a, w) && forall i :: 0 <= i < 12 ==> q !in Lists(a, w)[i]
    ensures Ended(a, w[q := v])
  {
    forall i | 0 <= i < 12
      ensures After(w[q := v], a[i].head, a[i].nrFree) == 0
    {
      assert q !in Lists(a, w)[i];
      AfterFrame(w, a[i].head, a[i].nrFree, q, v);
    }
  }

  lemma EndedPush(a: Zone, w: Words, q: nat, m: nat)
    requires Ended(a, w) && m <= MAX_ORDER && a[m].nrFree + 1 < TWO64
    requires forall i :: 0 <= i < 12 ==> q !in Lists(a, w)[i]
    ensures Ended(Push(a, q, m), w[q := a[m].head])
  {
    EndedFrame(a, w, q, a[m].head);
  }

  lemma EndedTaken(a: Zone, w: Words, k: nat)
    requires Ended(a, w) && k <= MAX_ORDER && 0 < a[k].nrFree < TWO64
    ensures Ended(Taken(a, w, k, a[k].head), w)
  {
  }

  lemma {:induction false} EndedCoalesce(a: Zone, w: Words, p: nat, k: nat)
    requires Ended(a, w) && k <= MAX_ORDER && MergesListed(a, w, p, k)
    requires forall i :: 0 <= i < 12 ==> a[i].nrFree < TWO64
    ensures Ended(Coalesce(a, w, p, k).areas, w)
    decreases MAX_ORDER - k
  {
    if k < MAX_ORDER && a[k].head == Buddy(p, k) {
      EndedTaken(a, w, k);
      EndedCoalesce(Taken(a, w, k, Buddy(p, k)), w, BitAnd(p, Buddy(p, k)), k + 1);
    }
  }

  // ---------------------------------------------------------------- the guard

  const LARGEST: nat := 2048   // pages in the largest block

  lemma LargestMultiple()
    ensures Multiple(LARGEST, 11)
  {
    assert Multiple(2048, 11);
  }

  /** Above the first largest block, buddies and joined blocks are no smaller and never NULL. */
  lemma BuddyAbove(p: nat, k: nat)
    requires p >= LARGEST && k < MAX_ORDER && Multiple(p, k)
    ensures Buddy(p, k) >= LARGEST && BitAnd(p, Buddy(p, k)) >= LARGEST && Multiple(BitAnd(p, Buddy(p, k)), k + 1)
  {
    var b := Buddy(p, k);
    var m := BitAnd(p, b);
    XorPair(p, k);
    LargestMultiple();
    MultipleWeaken(LARGEST, 11, k + 1);
    if m < LARGEST {
      NoStraddle(m, k + 1, LARGEST);
    }
  }

  lemma {:induction false} EndedMeetsGuard(a: Zone, w: Words, p: nat, k: nat)
    requires Ended(a, w) && k <= MAX_ORDER && p >= LARGEST && Multiple(p, k)
    requires forall i :: 0 <= i < 12 ==> a[i].nrFree < TWO64
    ensures MergesListed(a, w, p, k)
    decreases MAX_ORDER - k
  {
    if k < MAX_ORDER && a[k].head == Buddy(p, k) {
      BuddyAbove(p, k);
      assert After(w, a[k].head, a[k].nrFree) == 0;
      EndedTaken(a, w, k);
      EndedMeetsGuard(Taken(a, w, k, Buddy(p, k)), w, BitAnd(p, Buddy(p, k)), k + 1);
    }
  }

  // ---------------------------------------------------------------- runs without splits

  /** The allocation finds a block of its own order, or none at all. */
  predicate NoSplit(s: Frames, order: nat, zone: int) {
    var f := FindOrder(ZoneLists(s, ZoneIndex(zone)), order);
    f == order || f >= 12
  }

  /** The guard on frees is not asked for. */
  ghost predicate Unsplit(x: System, op: Op) {
    match op
    case Alloc(order, zone) => NoSplit(x.frames, order, zone)
    case Free(b) => b in x.live && b.order <= MAX_ORDER
    case Store(frame, _) => exists b :: b in x.live && Covers(b, frame)
  }

  ghost predicate AllUnsplit(x: System, ops: seq<Op>)
    decreases |ops|
  {
    ops == [] || (Unsplit(x, ops[0]) && AllUnsplit(Step(x, ops[0]), ops[1..]))
  }

  lemma AllocEnded(s: Frames, live: multiset<Block>, managed: set<nat>, c: int, order: nat, zone: int)
    requires Inv(s, live, managed, c) && AllEnded(s) && NoSplit(s, order, zone)
    ensures AllEnded(AllocPages(s, order, zone).frames)
  {
    var z := ZoneIndex(zone);
    var a := s.zones[z];
    CountsInRange(s, live, z);
    assert |ZoneLists(s, z)[if order < 12 then order else 0]| == a[if order < 12 then order else 0].nrFree;
    AllocSelf(a, s.words, order);
  }

  lemma AllocSelf(a: Zone, w: Words, k: nat)
    requires Ended(a, w) && (k >= 12 || a[k].nrFree > 0 || forall i :: k <= i < 12 ==> a[i].nrFree == 0)
    ensures Ended(AllocZone(a, w, k).areas, w)
  {
    if k < 12 && a[k].nrFree == 0 {
      AllocNothing(a, w, k);
    }
  }

  lemma {:induction false} AllocNothing(a: Zone, w: Words, k: nat)
    requires forall i :: k <= i < 12 ==> a[i].nrFree == 0
    ensures AllocZone(a, w, k) == AllocResult(a, 0, 0)
    decreases 12 - k
  {
    if k + 1 < 12 {
      AllocNothing(a, w, k + 1);
    }
  }

  lemma LiveGuard(s: Frames, live: multiset<Block>, managed: set<nat>, c: int, b: Block)
    requires Inv(s, live, managed, c) && AllEnded(s) && b in live && b.order <= MAX_ORDER
    requires forall x :: x in managed ==> x >= LARGEST
    ensures FreeGuard(s, b.pfn, b.order)
  {
    LiveBlock(s, live, managed, c, b);
    assert b in AllListed(s) + live;
    TilesInside(AllListed(s) + live, managed, b, b.pfn);
    CountsInRange(s, live, ZoneOf(b.pfn));
    EndedMeetsGuard(s.zones[ZoneOf(b.pfn)], s.words, b.pfn, b.order);
  }

  lemma FreeEnded(s: Frames, live: multiset<Block>, managed: set<nat>, c: int, b: Block)
    requires Inv(s, live, managed, c) && AllEnded(s) && b in live && b.order <= MAX_ORDER && FreeGuard(s, b.pfn, b.order)
    ensures AllEnded(FreePages(s, b.pfn, b.order))
  {
    var z, r := ZoneOf(b.pfn), JoinPages(s, b.pfn, b.order);
    var s1, b' := WithZone(s, z, r.areas), Block(r.page, r.order);
    LiveBlock(s, live, managed, c, b);
    JoinEnded(s, live, b.pfn, b.order);
    JoinKeeps(s, live, managed, c, b);
    PushEnded(s1, live - multiset{b} + multiset{b'}, managed, c, b', z);
  }

  lemma JoinEnded(s: Frames, live: multiset<Block>, p: nat, k: nat)
    requires Sum(AllListed(s) + live, Pages) <= MAX_PAGES && AllEnded(s) && k <= MAX_ORDER && FreeGuard(s, p, k)
    ensures AllEnded(WithZone(s, ZoneOf(p), JoinPages(s, p, k).areas))
  {
    CountsInRange(s, live, ZoneOf(p));
    EndedCoalesce(s.zones[ZoneOf(p)], s.words, p, k);
  }

  lemma PushEnded(s: Frames, live: multiset<Block>, managed: set<nat>, c: int, b: Block, z: nat)
    requires Inv(s, live, managed, c) && AllEnded(s) && b in live && b.order <= MAX_ORDER && z < 3
    ensures AllEnded(PushPages(s, z, b.pfn, b.order))
  {
    LiveUnlisted(s, live, managed, b);
    CountsInRange(s, live, z);
    var v := s.zones[z][b.order].head;
    forall y | 0 <= y < 3
      ensures Ended(PushPages(s, z, b.pfn, b.order).zones[y], s.words[b.pfn := v])
    {
      forall i | 0 <= i < 12
        ensures b.pfn !in Lists(s.zones[y], s.words)[i]
      {
        assert b.pfn !in ZoneLists(s, y)[i];
      }
      if y == z {
        EndedPush(s.zones[z], s.words, b.pfn, b.order);
      } else {
        EndedFrame(s.zones[y], s.words, b.pfn, v);
      }
    }
  }

  lemma StoreEnded(s: Frames, live: multiset<Block>, managed: set<nat>, c: int, b: Block, x: nat, v: nat)
    requires Inv(s, live, managed, c) && AllEnded(s) && b in live && Covers(b, x)
    ensures AllEnded(s.(words := s.words[x := v]))
  {
    forall y | 0 <= y < 3
      ensures Ended(s.zones[y], s.words[x := v])
    {
      forall i | 0 <= i < 12
        ensures x !in Lists(s.zones[y], s.words)[i]
      {
        LiveNotListed(s, live, managed, b, x, y, i);
      }
      EndedFrame(s.zones[y], s.words, x, v);
    }
  }

  lemma UnsplitStep(x: System, op: Op, managed: set<nat>, c: int)
    requires Inv(x.frames, x.live, managed, c) && AllEnded(x.frames) && Unsplit(x, op)
    requires forall y :: y in managed ==> y >= LARGEST
    ensures Permitted(x, op) && AllEnded(Step(x, op).frames)
  {
    match op
    case Alloc(order, zone) => AllocEnded(x.frames, x.live, managed, c, order, zone);
    case Free(b) =>
      LiveGuard(x.frames, x.live, managed, c, b);
      FreeEnded(x.frames, x.live, managed, c, b);
    case Store(frame, word) =>
      var b :| b in x.live && Covers(b, frame);
      StoreEnded(x.frames, x.live, managed, c, b, frame, word);
  }

  /** Where all frames lie above the first largest block and no allocation of the run splits a
      block, every free of a live block meets its guard, whatever owners leave in their pages. */
  lemma {:induction false} UnsplitRun(x: System, ops: seq<Op>, managed: set<nat>, c: int)
    requires Inv(x.frames, x.live, managed, c) && AllEnded(x.frames) && AllUnsplit(x, ops)
    requires forall y :: y in managed ==> y >= LARGEST
    ensures Disciplined(x, ops) && Inv(Run(x, ops).frames, Run(x, ops).live, managed, c)
    decreases |ops|
  {
    if ops != [] {
      UnsplitStep(x, ops[0], managed, c);
      StepKeepsInv(x, ops[0], managed, c);
      UnsplitRun(Step(x, ops[0]), ops[1..], managed, c);
    }
  }

  lemma InitialEnded(words: Words, pages: nat)
    ensures AllEnded(InitialFrames(words, pages))
  {
  }

  /** In particular every such run from boot, whatever memory holds. */
  lemma BootedUnsplitRun(words: Words, pages: nat, live: multiset<Block>, managed: set<nat>, c: int, ops: seq<Op>)
    requires pages < TWO64 && c == pages - Sum(live, Drift) && (forall y :: y in managed ==> y >= LARGEST)
    requires Tiles(live, managed) && Sum(live, Pages) <= MAX_PAGES
    requires AllUnsplit(System(InitialFrames(words, pages), live), ops)
    ensures var x := System(InitialFrames(words, pages), live);
      Disciplined(x, ops) && Inv(Run(x, ops).frames, Run(x, ops).live, managed, c)
  {
    InitialInv(words, pages, live, managed, c);
    InitialEnded(words, pages);
    UnsplitRun(System(InitialFrames(words, pages), live), ops, managed, c);
  }
}
