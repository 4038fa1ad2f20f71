/** Whole runs of the frame allocator: what every reachable state satisfies, and exactly when
    a free is sound. */
module FrameRuns {
  import opened Bits
  import opened Blocks
  import opened FrameLists
  import opened FrameAccounts
  import opened FrameAllocator
  import opened FrameSafety

  /** What a guarded free does to the lists of the block's zone. */
  function FreedLists(l: FreeLists, page: nat, order: nat): FreeLists
    requires order <= MAX_ORDER
  {
    var j := Join(l, page, order);
    Pushed(j.lists, Block(j.page, j.order))
  }

  lemma LiveBlock(s: Frames, live: multiset<Block>, managed: set<nat>, c: int, b: Block)
    requires Inv(s, live, managed, c) && b in live
    ensures b.pfn != 0 && Aligned(b)
  {
    assert b in AllListed(s) + live;
    TilesInside(AllListed(s) + live, managed, b, b.pfn);
  }

  /** Under the guard a free joins the block with its listed buddies, links the result and
      keeps the invariant with the block no longer live. */
  lemma FreeKeeps(s: Frames, live: multiset<Block>, managed: set<nat>, c: int, b: Block)
    requires Inv(s, live, managed, c) && b in live && b.order <= MAX_ORDER && FreeGuard(s, b.pfn, b.order)
    ensures Inv(FreePages(s, b.pfn, b.order), live - multiset{b}, managed, c)
    ensures ZoneStep(s, FreePages(s, b.pfn, b.order), ZoneOf(b.pfn),
                     FreedLists(ZoneLists(s, ZoneOf(b.pfn)), b.pfn, b.order))
  {
    var z, r := ZoneOf(b.pfn), JoinPages(s, b.pfn, b.order);
    var s1, b' := WithZone(s, z, r.areas), Block(r.page, r.order);
    LiveBlock(s, live, managed, c, b);
    JoinKeeps(s, live, managed, c, b);
    JoinedPush(s1, live - multiset{b}, managed, c, b', z);
    ZoneStepAfter(s, s1, PushPages(s1, z, r.page, r.order), z, Pushed(ZoneLists(s1, z), b'));
  }

  lemma JoinedPush(s: Frames, rest: multiset<Block>, managed: set<nat>, c: int, b: Block, z: nat)
    requires Inv(s, rest + multiset{b}, managed, c) && b.order <= MAX_ORDER && ZoneOf(b.pfn) == z
    ensures Inv(PushPages(s, z, b.pfn, b.order), rest, managed, c)
    ensures ZoneStep(s, PushPages(s, z, b.pfn, b.order), z, Pushed(ZoneLists(s, z), b))
  {
    PushKeeps(s, rest + multiset{b}, managed, c, b);
    InOut(rest, b);
  }

  lemma InOut(t: multiset<Block>, b: Block)
    ensures t + multiset{b} - multiset{b} == t
  {
  }

  lemma ZoneStepAfter(s: Frames, s1: Frames, s2: Frames, z: nat, l: FreeLists)
    requires z < 3 && (forall y :: 0 <= y < 3 && y != z ==> s1.zones[y] == s.zones[y]) && s1.words == s.words
    requires ZoneStep(s1, s2, z, l)
    ensures ZoneStep(s, s2, z, l)
  {
    forall y | 0 <= y < 3 && y != z
      ensures ZoneLists(s2, y) == ZoneLists(s, y)
    {
      assert ZoneLists(s1, y) == ZoneLists(s, y);
    }
  }

  /** Freeing a live block keeps the invariant exactly when the guard holds: otherwise
      some count wraps below zero. */
  lemma FreeKeepsIff(s: Frames, live: multiset<Block>, managed: set<nat>, c: int, b: Block)
    requires Inv(s, live, managed, c) && b in live && b.order <= MAX_ORDER
    ensures Inv(FreePages(s, b.pfn, b.order), live - multiset{b}, managed, c) <==> FreeGuard(s, b.pfn, b.order)
  {
    if FreeGuard(s, b.pfn, b.order) {
      FreeKeeps(s, live, managed, c, b);
    } else {
      LiveBlock(s, live, managed, c, b);
      var z := ZoneOf(b.pfn);
      var i := BadMergeWraps(s.zones[z], s.words, b.pfn, b.order);
      var s' := FreePages(s, b.pfn, b.order);
      assert s'.zones[z][i].nrFree == TWO64 - 1;
      if Inv(s', live - multiset{b}, managed, c) {
        CountsInRange(s', live - multiset{b}, z);
        assert false;
      }
    }
  }

  /** A block handed out is aligned, lies inside managed memory and overlaps no block that
      is already live. */
  lemma AllocFresh(s: Frames, live: multiset<Block>, managed: set<nat>, c: int, order: nat, zone: int, b: Block)
    requires Inv(s, live, managed, c) && AllocPages(s, order, zone).page != 0 && b in live
    ensures var a := Block(AllocPages(s, order, zone).page, order);
      && Aligned(a) && Disjoint(a, b)
      && forall x :: Covers(a, x) ==> x in managed
  {
    var r := AllocPages(s, order, zone);
    var a := Block(r.page, order);
    AllocKeeps(s, live, managed, c, order, zone);
    var t := AllListed(r.frames) + (live + multiset{a});
    assert a in t && b in t - multiset{a};
    TilesDisjoint(t, managed, a, b);
    forall x | Covers(a, x)
      ensures x in managed
    {
      TilesInside(t, managed, a, x);
    }
  }

  // ---------------------------------------------------------------- runs

  datatype System = System(frames: Frames, live: multiset<Block>)

  /** Requests to the allocator, and stores by the owners of live blocks into the first
      word of one of their pages. */
  datatype Op = Alloc(order: nat, zone: int) | Free(block: Block) | Store(frame: nat, word: nat)

  function Step(x: System, op: Op): System {
    match op
    case Alloc(order, zone) =>
      var r := AllocPages(x.frames, order, zone);
      System(r.frames, if r.page == 0 then x.live else x.live + multiset{Block(r.page, order)})
    case Free(b) =>
      if b.order > MAX_ORDER then x
      else System(FreePages(x.frames, b.pfn, b.order), x.live - multiset{b})
    case Store(frame, word) =>
      x.(frames := x.frames.(words := x.frames.words[frame := word]))
  }

  /** Callers free live blocks at their own order when the guard holds, and store only
      into pages they own. Any allocation may be asked for. */
  ghost predicate Permitted(x: System, op: Op) {
    match op
    case Alloc(_, _) => true
    case Free(b) => b in x.live && b.order <= MAX_ORDER && FreeGuard(x.frames, b.pfn, b.order)
    case Store(frame, _) => exists b :: b in x.live && Covers(b, frame)
  }

  function Run(x: System, ops: seq<Op>): System
    decreases |ops|
  {
    if ops == [] then x else Run(Step(x, ops[0]), ops[1..])
  }

  ghost predicate Disciplined(x: System, ops: seq<Op>)
    decreases |ops|
  {
    ops == [] || (Permitted(x, ops[0]) && Disciplined(Step(x, ops[0]), ops[1..]))
  }

  lemma StoreLists(s: Frames, live: multiset<Block>, managed: set<nat>, b: Block, x: nat, v: nat, z: nat)
    requires Tiles(AllListed(s) + live, managed) && b in live && Covers(b, x) && z < 3
    ensures ZoneLists(s.(words := s.words[x := v]), z) == ZoneLists(s, z)
  {
    forall i | 0 <= i < 12
      ensures x !in Lists(s.zones[z], s.words)[i]
    {
      LiveNotListed(s, live, managed, b, x, z, i);
    }
    ListsFrame(s.zones[z], s.words, x, v);
  }

  lemma StoreKeeps(s: Frames, live: multiset<Block>, managed: set<nat>, c: int, b: Block, x: nat, v: nat)
    requires Inv(s, live, managed, c) && b in live && Covers(b, x)
    ensures Inv(s.(words := s.words[x := v]), live, managed, c)
  {
    var s' := s.(words := s.words[x := v]);
    forall z | 0 <= z < 3
      ensures ZoneLists(s', z) == ZoneLists(s, z)
    {
      StoreLists(s, live, managed, b, x, v, z);
    }
    assert AllListed(s') == AllListed(s);
  }

  lemma StepKeepsInv(x: System, op: Op, managed: set<nat>, c: int)
    requires Inv(x.frames, x.live, managed, c) && Permitted(x, op)
    ensures Inv(Step(x, op).frames, Step(x, op).live, managed, c)
  {
    match op
    case Alloc(order, zone) => AllocKeeps(x.frames, x.live, managed, c, order, zone);
    case Free(b) => FreeKeeps(x.frames, x.live, managed, c, b);
    case Store(frame, word) =>
      var b :| b in x.live && Covers(b, frame);
      StoreKeeps(x.frames, x.live, managed, c, b, frame, word);
  }

  /** Every disciplined run keeps the listed and the live blocks a tiling of managed
      memory, every listed block in its zone, and the counter on the drift law. */
  lemma {:induction false} RunKeepsInv(x: System, ops: seq<Op>, managed: set<nat>, c: int)
    requires Inv(x.frames, x.live, managed, c) && Disciplined(x, ops)
    ensures Inv(Run(x, ops).frames, Run(x, ops).live, managed, c)
    decreases |ops|
  {
    if ops != [] {
      StepKeepsInv(x, ops[0], managed, c);
      RunKeepsInv(Step(x, ops[0]), ops[1..], managed, c);
    }
  }

  /** In plain terms: after every disciplined run each managed frame lies in a listed or live
      block, that block is aligned and managed throughout, and no other block shares a frame
      with it. */
  lemma RunCovers(x: System, ops: seq<Op>, managed: set<nat>, c: int, frame: nat) returns (b: Block)
    requires Inv(x.frames, x.live, managed, c) && Disciplined(x, ops) && frame in managed
    ensures var t := AllListed(Run(x, ops).frames) + Run(x, ops).live;
      && b in t && Covers(b, frame) && b.order <= MAX_ORDER && b.pfn % Pow2(b.order) == 0
      && (forall y :: Covers(b, y) ==> y in managed)
      && (forall a :: a in t - multiset{b} ==> Disjoint(a, b))
  {
    RunKeepsInv(x, ops, managed, c);
    var t := AllListed(Run(x, ops).frames) + Run(x, ops).live;
    assert Sum(t, Cover(frame)) == 1;
    b := CoveredBySome(t, frame);
    MultipleIffMod(b.pfn, b.order);
    forall y | Covers(b, y)
      ensures y in managed
    {
      TilesInside(t, managed, b, y);
    }
    forall a | a in t - multiset{b}
      ensures Disjoint(a, b)
    {
      TilesDisjoint(t, managed, b, a);
    }
  }

  /** The state that initialisation leaves: every list empty, whatever memory holds. */
  function InitialFrames(words: Words, pages: nat): Frames {
    Frames([EmptyZone(), EmptyZone(), EmptyZone()], words, pages)
  }

  function EmptyZone(): (a: Zone)
    ensures forall i :: 0 <= i < 12 ==> a[i] == Area(0, 0)
  {
    seq(12, _ => Area(0, 0))
  }

  lemma {:induction false} EmptyListed(l: FreeLists, n: nat)
    requires n <= 12 && forall i :: 0 <= i < 12 ==> l[i] == []
    ensures ListedUpto(l, n) == multiset{}
  {
    if n > 0 {
      EmptyListed(l, n - 1);
    }
  }

  /** All managed memory starts out handed out, in any aligned tiling, and the drift
      constant is fixed there. */
  lemma InitialInv(words: Words, pages: nat, live: multiset<Block>, managed: set<nat>, c: int)
    requires pages < TWO64 && c == pages - Sum(live, Drift)
    requires 0 !in managed && Tiles(live, managed) && Sum(live, Pages) <= MAX_PAGES
    ensures Inv(InitialFrames(words, pages), live, managed, c)
  {
    InitialListed(words, pages);
    NoneListed(InitialFrames(words, pages), live, Sum(live, Drift), c);
  }

  lemma NoneListed(s: Frames, live: multiset<Block>, d: nat, c: int)
    requires AllListed(s) == multiset{} && d == Sum(live, Drift) && s.counter == d + c < TWO64
    ensures AllListed(s) + live == live && Counted(s, live, c)
  {
    assert AllListed(s) + live == live;
    assert CountIs(s.counter, 0, d, c);
  }

  lemma InitialListed(words: Words, pages: nat)
    ensures AllListed(InitialFrames(words, pages)) == multiset{} && Placed(InitialFrames(words, pages))
  {
    var s := InitialFrames(words, pages);
    var l := Lists(EmptyZone(), words);
    assert forall z :: 0 <= z < 3 ==> ZoneLists(s, z) == l;
    EmptyListed(l, 12);
  }

  /** The drift law over whole runs: wherever two runs from the same start have the same
      listed blocks and the same live blocks, they show the same page counter. */
  lemma SameBlocksSameCounter(x: System, ops: seq<Op>, ops': seq<Op>, managed: set<nat>, c: int)
    requires Inv(x.frames, x.live, managed, c) && Disciplined(x, ops) && Disciplined(x, ops')
    requires AllListed(Run(x, ops).frames) == AllListed(Run(x, ops').frames)
    requires Run(x, ops).live == Run(x, ops').live
    ensures Run(x, ops).frames.counter == Run(x, ops').frames.counter
  {
    RunKeepsInv(x, ops, managed, c);
    RunKeepsInv(x, ops', managed, c);
  }
}
