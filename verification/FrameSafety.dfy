/** Every allocation and every guarded free keeps the allocator's invariant. */
module FrameSafety {
  import opened Bits
  import opened Blocks
  import opened FrameLists
  import opened FrameAccounts
  import opened FrameAllocator

  lemma DmaEndMultiple()
    ensures Multiple(ZONE_DMA_END, MAX_ORDER)
  {
    assert Multiple(65536, 11);
  }

  /** A block lies in one zone: all its frames are on the same side of 256 MB. */
  lemma OneZone(p: nat, f: nat, x: nat)
    requires f <= MAX_ORDER && Multiple(p, f) && p <= x < p + Pow2(f)
    ensures ZoneOf(x) == ZoneOf(p) && (x * 4096 < 0x1000_0000 <==> p * 4096 < 0x1000_0000)
  {
    DmaEndMultiple();
    MultipleWeaken(ZONE_DMA_END, MAX_ORDER, f);
    if p < ZONE_DMA_END {
      NoStraddle(p, f, ZONE_DMA_END);
    }
  }

  lemma SplitPlaced(l: FreeLists, k: nat, f: nat, z: nat)
    requires k <= f < 12 && l[f] != [] && Proper(l)
    requires InZone(l, z)
    ensures InZone(SplitLists(l, k, f), z)
  {
    var p, r := l[f][0], SplitLists(l, k, f);
    assert p in l[f];
    forall i, q | 0 <= i < 12 && q in r[i]
      ensures ZoneOf(q) == z
    {
      if k <= i < f {
        Pow2Below(i, f);
        OneZone(p, f, q);
      } else {
        assert q in l[i];
      }
    }
  }

  /** A failed allocation changes nothing and means that every list at or above the
      order is empty. A successful one takes the smallest sufficient order, and the
      block handed out joins the live blocks under the invariant. */
  lemma AllocKeeps(s: Frames, live: multiset<Block>, managed: set<nat>, c: int, order: nat, zone: int)
    requires Inv(s, live, managed, c)
    ensures var r, l := AllocPages(s, order, zone), ZoneLists(s, ZoneIndex(zone));
      && (r.page == 0 <==> forall i :: order <= i < 12 ==> l[i] == [])
      && (r.page == 0 ==> r.frames == s)
      && (r.page != 0 ==> order < 12 && Inv(r.frames, live + multiset{Block(r.page, order)}, managed, c))
  {
    var z, r := ZoneIndex(zone), AllocPages(s, order, zone);
    var l := ZoneLists(s, z);
    ListsProper(s, live, managed, z);
    AllocShape(s, order, z, r);
    var f := FindOrder(l, order);
    if f < 12 {
      AllocFound(s, live, managed, c, order, z, f, r, Pow2(f));
    }
  }

  /** What an allocation does to the allocator as a whole, given where it finds a block. */
  lemma AllocShape(s: Frames, k: nat, z: nat, r: Allocation)
    requires z < 3 && Proper(ZoneLists(s, z)) && s.counter < TWO64
    requires var a := AllocZone(s.zones[z], s.words, k);
      r == Allocation(Frames(s.zones[z := a.areas], s.words, Minus(s.counter, a.debit)), a.page)
    ensures var l, f := ZoneLists(s, z), FindOrder(ZoneLists(s, z), k);
      if f >= 12 then r == Allocation(s, 0)
      else
        && r.page == l[f][0] && r.page != 0 && r.frames.counter == Minus(s.counter, Pow2(f))
        && ZoneStep(s, r.frames, z, SplitLists(l, k, f))
  {
    AllocZoneSpec(s.zones[z], s.words, k);
    if FindOrder(ZoneLists(s, z), k) >= 12 {
      assert s.zones[z := s.zones[z]] == s.zones;
    }
  }

  lemma MinusIs(n: nat, d: nat, e: int)
    requires d + e == 0
    ensures Minus(n, d) == (n + e) % TWO64
  {
  }

  lemma AllocFound(s: Frames, live: multiset<Block>, managed: set<nat>, c: int, k: nat, z: nat, f: nat, r: Allocation, h: int)
    requires Inv(s, live, managed, c) && z < 3 && k <= f < 12
    requires Proper(ZoneLists(s, z)) && ZoneLists(s, z)[f] != []
    requires forall i :: k <= i < f ==> ZoneLists(s, z)[i] == []
    requires r.page == ZoneLists(s, z)[f][0]
    requires ZoneStep(s, r.frames, z, SplitLists(ZoneLists(s, z), k, f))
    requires h == Pow2(f) && r.frames.counter == Minus(s.counter, h)
    ensures Inv(r.frames, live + multiset{Block(r.page, k)}, managed, c)
  {
    var l, b := ZoneLists(s, z), Block(r.page, k);
    var low: int := Pow2(k);
    SplitBalanced(l, live, b, f, low - h);
    AllocSound(s, r.frames, live, managed, b, z, f, low - h);
    AllocCounts(s, r.frames, live, c, b, z, SplitLists(l, k, f), low, h);
  }

  lemma AllocSound(s: Frames, s': Frames, live: multiset<Block>, managed: set<nat>,
                   b: Block, z: nat, f: nat, delta: int)
    requires Sound(s, live, managed) && z < 3 && b.order <= f < 12
    requires Proper(ZoneLists(s, z)) && ZoneLists(s, z)[f] != [] && b.pfn == ZoneLists(s, z)[f][0]
    requires ZoneStep(s, s', z, SplitLists(ZoneLists(s, z), b.order, f))
    requires Balanced(ZoneLists(s, z), live, SplitLists(ZoneLists(s, z), b.order, f), live + multiset{b}, delta)
    ensures Sound(s', live + multiset{b}, managed)
  {
    var l := ZoneLists(s, z);
    SplitProper(l, b.order, f);
    SplitPlaced(l, b.order, f, z);
    MoreAligned(s, live, managed, b);
    StepSound(s, s', live, live + multiset{b}, managed, z, SplitLists(l, b.order, f), delta);
  }

  lemma AllocCounts(s: Frames, s': Frames, live: multiset<Block>, c: int,
                    b: Block, z: nat, l': FreeLists, low: int, h: nat)
    requires Counted(s, live, c) && ZoneStep(s, s', z, l') && low == Pow2(b.order)
    requires Balanced(ZoneLists(s, z), live, l', live + multiset{b}, low - h)
    requires s'.counter == Minus(s.counter, h)
    ensures Counted(s', live + multiset{b}, c)
  {
    var g: int := h;
    var e, delta := -g, low - g;
    MinusIs(s.counter, h, e);
    AllocCredit(live, b, delta, e);
    StepCounts(s, s', live, live + multiset{b}, c, z, l', delta, e);
  }

  lemma AllocCredit(live: multiset<Block>, b: Block, delta: int, e: int)
    requires delta == Pow2(b.order) + e
    ensures Credit(live, live + multiset{b}, delta) == e
  {
    SumInsert(live, b, Pages);
  }

  lemma MoreAligned(s: Frames, live: multiset<Block>, managed: set<nat>, b: Block)
    requires Tiles(AllListed(s) + live, managed) && Aligned(b)
    ensures forall a :: a in live + multiset{b} ==> Aligned(a)
  {
    forall a | a in live + multiset{b}
      ensures Aligned(a)
    {
      assert a == b || a in AllListed(s) + live;
    }
  }

  lemma SplitBalanced(l: FreeLists, live: multiset<Block>, b: Block, f: nat, delta: int)
    requires b.order <= f < 12 && l[f] != [] && b.pfn == l[f][0]
    requires forall i :: b.order <= i < f ==> l[i] == []
    requires delta == Pow2(b.order) - Pow2(f)
    ensures Balanced(l, live, SplitLists(l, b.order, f), live + multiset{b}, delta)
  {
    var l' := SplitLists(l, b.order, f);
    forall m: Measure
      ensures Sum(Listed(l'), m) + Sum(live + multiset{b}, m)
           == Sum(Listed(l), m) + Sum(live, m) + if m.Drift? then delta else 0
    {
      SplitSum(l, b.order, f, m);
      SumInsert(live, b, m);
    }
  }

  /** Coalescing keeps the invariant, with the joined block handed out in place of the
      block being freed, and does on the lists what joining does. */
  lemma JoinKeeps(s: Frames, live: multiset<Block>, managed: set<nat>, c: int, b: Block)
    requires Inv(s, live, managed, c) && b in live && b.order <= MAX_ORDER && FreeGuard(s, b.pfn, b.order)
    ensures var z, j := ZoneOf(b.pfn), JoinPages(s, b.pfn, b.order);
      && ZoneOf(j.page) == z
      && Inv(WithZone(s, z, j.areas), live - multiset{b} + multiset{Block(j.page, j.order)}, managed, c)
      && Joined(Lists(j.areas, s.words), j.page, j.order) == Join(ZoneLists(s, z), b.pfn, b.order)
  {
    var z, r := ZoneOf(b.pfn), JoinPages(s, b.pfn, b.order);
    ListsProper(s, live, managed, z);
    CountsInRange(s, live, z);
    CoalesceRefinesJoin(s.zones[z], s.words, b.pfn, b.order);
    assert b in AllListed(s) + live;
    JoinedKeeps(s, WithZone(s, z, r.areas), live, managed, c, b, Join(ZoneLists(s, z), b.pfn, b.order));
  }

  lemma JoinedKeeps(s: Frames, s': Frames, live: multiset<Block>, managed: set<nat>, c: int, b: Block, j: Joined)
    requires Inv(s, live, managed, c) && b in live && Aligned(b) && Proper(ZoneLists(s, ZoneOf(b.pfn)))
    requires j == Join(ZoneLists(s, ZoneOf(b.pfn)), b.pfn, b.order)
    requires ZoneStep(s, s', ZoneOf(b.pfn), j.lists) && s'.counter == s.counter
    ensures ZoneOf(j.page) == ZoneOf(b.pfn)
    ensures Inv(s', live - multiset{b} + multiset{Block(j.page, j.order)}, managed, c)
  {
    var z, b' := ZoneOf(b.pfn), Block(j.page, j.order);
    var live' := live - multiset{b} + multiset{b'};
    var delta: int := Pow2(j.order) - Pow2(b.order);
    JoinReady(s, live, managed, b, j);
    JoinBalanced(ZoneLists(s, z), live, b, j, delta);
    StepSound(s, s', live, live', managed, z, j.lists, delta);
    JoinCounts(s, s', live, c, b, b', z, j.lists, delta);
  }

  lemma JoinCounts(s: Frames, s': Frames, live: multiset<Block>, c: int,
                   b: Block, b': Block, z: nat, l': FreeLists, delta: int)
    requires Counted(s, live, c) && ZoneStep(s, s', z, l') && b in live
    requires delta == Pow2(b'.order) - Pow2(b.order)
    requires Balanced(ZoneLists(s, z), live, l', live - multiset{b} + multiset{b'}, delta)
    requires s'.counter == s.counter
    ensures Counted(s', live - multiset{b} + multiset{b'}, c)
  {
    JoinCredit(live, b, b', delta);
    SameCounter(s, live, c);
    StepCounts(s, s', live, live - multiset{b} + multiset{b'}, c, z, l', delta, 0);
  }

  lemma SameCounter(s: Frames, live: multiset<Block>, c: int)
    requires Counted(s, live, c)
    ensures s.counter == (s.counter + 0) % TWO64
  {
    CountInRange(s.counter, Sum(AllListed(s), Pages), Sum(AllListed(s) + live, Drift), c);
  }

  lemma JoinReady(s: Frames, live: multiset<Block>, managed: set<nat>, b: Block, j: Joined)
    requires Tiles(AllListed(s) + live, managed) && Placed(s) && b in live && Aligned(b)
    requires Proper(ZoneLists(s, ZoneOf(b.pfn))) && j == Join(ZoneLists(s, ZoneOf(b.pfn)), b.pfn, b.order)
    ensures Proper(j.lists) && InZone(j.lists, ZoneOf(b.pfn)) && ZoneOf(j.page) == ZoneOf(b.pfn)
    ensures forall a :: a in live - multiset{b} + multiset{Block(j.page, j.order)} ==> Aligned(a)
  {
    var l := ZoneLists(s, ZoneOf(b.pfn));
    DmaEndMultiple();
    JoinProper(l, b.pfn, b.order, ZONE_DMA_END);
    assert InZone(l, ZoneOf(b.pfn));
    forall a | a in live
      ensures Aligned(a)
    {
      assert a in AllListed(s) + live;
    }
  }

  lemma JoinCredit(live: multiset<Block>, b: Block, b': Block, delta: int)
    requires b in live && delta == Pow2(b'.order) - Pow2(b.order)
    ensures Credit(live, live - multiset{b} + multiset{b'}, delta) == 0
  {
    SumRemove(live, b, Pages);
    SumInsert(live - multiset{b}, b', Pages);
  }

  lemma JoinBalanced(l: FreeLists, live: multiset<Block>, b: Block, j: Joined, delta: int)
    requires b in live && Aligned(b) && j == Join(l, b.pfn, b.order)
    requires delta == Pow2(j.order) - Pow2(b.order)
    ensures Balanced(l, live, j.lists, live - multiset{b} + multiset{Block(j.page, j.order)}, delta)
  {
    var b' := Block(j.page, j.order);
    forall m: Measure
      ensures Sum(Listed(j.lists), m) + Sum(live - multiset{b} + multiset{b'}, m)
           == Sum(Listed(l), m) + Sum(live, m) + if m.Drift? then delta else 0
    {
      JoinSum(l, b.pfn, b.order, m);
      SumRemove(live, b, m);
      SumInsert(live - multiset{b}, b', m);
    }
  }

  function Pushed(l: FreeLists, b: Block): FreeLists
    requires b.order <= MAX_ORDER
  {
    l[b.order := [b.pfn] + l[b.order]]
  }

  /** Linking a handed-out block in front of its list keeps the invariant. */
  lemma PushKeeps(s: Frames, live: multiset<Block>, managed: set<nat>, c: int, b: Block)
    requires Inv(s, live, managed, c) && b in live && b.order <= MAX_ORDER
    ensures var s', z := PushPages(s, ZoneOf(b.pfn), b.pfn, b.order), ZoneOf(b.pfn);
      && Inv(s', live - multiset{b}, managed, c)
      && ZoneStep(s, s', z, Pushed(ZoneLists(s, z), b))
  {
    PushZone(s, live, managed, b);
    var h := Pow2(b.order);
    var s' := PushPages(s, ZoneOf(b.pfn), b.pfn, b.order);
    PushCounter(s, ZoneOf(b.pfn), b, h);
    PushKept(s, s', live, managed, c, b, h);
  }

  lemma PushCounter(s: Frames, z: nat, b: Block, h: nat)
    requires b.order <= MAX_ORDER && z < 3 && h == Pow2(b.order)
    ensures PushPages(s, z, b.pfn, b.order).counter == (s.counter + h) % TWO64
  {
  }

  lemma PushKept(s: Frames, s': Frames, live: multiset<Block>, managed: set<nat>, c: int, b: Block, h: int)
    requires Inv(s, live, managed, c) && b in live && b.order <= MAX_ORDER && h == Pow2(b.order)
    requires ZoneStep(s, s', ZoneOf(b.pfn), Pushed(ZoneLists(s, ZoneOf(b.pfn)), b))
    requires s'.counter == (s.counter + h) % TWO64
    ensures Inv(s', live - multiset{b}, managed, c)
  {
    var z, live' := ZoneOf(b.pfn), live - multiset{b};
    var l := ZoneLists(s, z);
    PushProper(s, live, managed, b);
    PushBalanced(l, live, b);
    RestAligned(s, live, managed, b);
    StepSound(s, s', live, live', managed, z, Pushed(l, b), 0);
    SumRemove(live, b, Pages);
    StepCounts(s, s', live, live', c, z, Pushed(l, b), 0, h);
  }

  lemma RestAligned(s: Frames, live: multiset<Block>, managed: set<nat>, b: Block)
    requires Tiles(AllListed(s) + live, managed)
    ensures forall a :: a in live - multiset{b} ==> Aligned(a)
  {
    forall a | a in live - multiset{b}
      ensures Aligned(a)
    {
      assert a in AllListed(s) + live;
    }
  }

  lemma PushProper(s: Frames, live: multiset<Block>, managed: set<nat>, b: Block)
    requires 0 !in managed && Tiles(AllListed(s) + live, managed) && Placed(s) && b in live && b.order <= MAX_ORDER
    ensures var z := ZoneOf(b.pfn);
      Proper(Pushed(ZoneLists(s, z), b)) && InZone(Pushed(ZoneLists(s, z), b), z)
  {
    var z := ZoneOf(b.pfn);
    var l := ZoneLists(s, z);
    var l' := Pushed(l, b);
    assert b in AllListed(s) + live;
    TilesInside(AllListed(s) + live, managed, b, b.pfn);
    ListsProper(s, live, managed, z);
    forall i, q | 0 <= i < 12 && q in l'[i]
      ensures q in l[i] || (i == b.order && q == b.pfn)
    {
    }
  }

  lemma PushBalanced(l: FreeLists, live: multiset<Block>, b: Block)
    requires b in live && b.order <= MAX_ORDER
    ensures Balanced(l, live, Pushed(l, b), live - multiset{b}, 0)
  {
    ListedPush(l, b.order, b.pfn);
    forall m: Measure
      ensures Sum(Listed(Pushed(l, b)), m) + Sum(live - multiset{b}, m) == Sum(Listed(l), m) + Sum(live, m)
    {
      SumInsert(Listed(l), b, m);
      SumRemove(live, b, m);
    }
  }

  lemma PushZone(s: Frames, live: multiset<Block>, managed: set<nat>, b: Block)
    requires Tiles(AllListed(s) + live, managed) && b in live && b.order <= MAX_ORDER
    requires Sum(AllListed(s) + live, Pages) <= MAX_PAGES
    ensures var z := ZoneOf(b.pfn);
      ZoneStep(s, PushPages(s, z, b.pfn, b.order), z, Pushed(ZoneLists(s, z), b))
  {
    var z := ZoneOf(b.pfn);
    LiveUnlisted(s, live, managed, b);
    CountsBounded(s, live, z, b.order);
    PushLists(s.zones[z], s.words, b.pfn, b.order);
    PushElsewhere(s, z, b);
  }

  ghost predicate Unlisted(s: Frames, q: nat) {
    forall y, i :: 0 <= y < 3 && 0 <= i < 12 ==> q !in ZoneLists(s, y)[i]
  }

  lemma LiveUnlisted(s: Frames, live: multiset<Block>, managed: set<nat>, b: Block)
    requires Tiles(AllListed(s) + live, managed) && b in live
    ensures Unlisted(s, b.pfn)
  {
    forall y, i | 0 <= y < 3 && 0 <= i < 12
      ensures b.pfn !in ZoneLists(s, y)[i]
    {
      LiveNotListed(s, live, managed, b, b.pfn, y, i);
    }
  }

  lemma PushElsewhere(s: Frames, z: nat, b: Block)
    requires Unlisted(s, b.pfn) && z < 3 && b.order <= MAX_ORDER
    ensures var s' := PushPages(s, z, b.pfn, b.order);
      forall y :: 0 <= y < 3 && y != z ==> ZoneLists(s', y) == ZoneLists(s, y)
  {
    var v := s.zones[z][b.order].head;
    forall y | 0 <= y < 3 && y != z
      ensures Lists(s.zones[y], s.words[b.pfn := v]) == ZoneLists(s, y)
    {
      forall i | 0 <= i < 12
        ensures b.pfn !in Lists(s.zones[y], s.words)[i]
      {
        assert b.pfn !in ZoneLists(s, y)[i];
      }
      ListsFrame(s.zones[y], s.words, b.pfn, v);
    }
  }

  lemma ListsFrame(a: Zone, w: Words, q: nat, v: nat)
    requires forall i :: 0 <= i < 12 ==> q !in Lists(a, w)[i]
    ensures Lists(a, w[q := v]) == Lists(a, w)
  {
    var l, l' := Lists(a, w), Lists(a, w[q := v]);
    forall i | 0 <= i < 12
      ensures l'[i] == l[i]
    {
      WalkFrame(w, a[i].head, a[i].nrFree, q, v);
    }
  }
}
