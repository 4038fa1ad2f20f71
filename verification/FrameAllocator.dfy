/** The physical frame allocator: its zones, the page words the lists are threaded
    through, its page counter, and the invariant that every allocation and every free
    keeps. */
module FrameAllocator {
  import opened Bits
  import opened Blocks
  import opened FrameLists
  import opened FrameAccounts

  const ZONE_DMA := 0
  const ZONE_NORMAL := 1
  const ZONE_DMA_END: nat := 65536   // 0x10000000 >> PAGE_SHIFT
  const MAX_PAGES: nat := 0x10_0000_0000_0000   // frame numbers of 64-bit addresses: 2^52

  type Zones = z: seq<Zone> | |z| == 3 witness seq(3, _ => seq(12, _ => Area(0, 0)))

  datatype Frames = Frames(zones: Zones, words: Words, counter: nat)

  /** The zone of a frame: low memory ends at byte address 256 MB. */
  function ZoneOf(p: nat): (z: nat)
    ensures z < 2 && (z == 0 <==> p * 4096 < 0x1000_0000)
  {
    if p < ZONE_DMA_END then ZONE_DMA else ZONE_NORMAL
  }

  function ZoneIndex(zone: int): (z: nat)
    ensures z < 3
  {
    if zone < 0 || zone >= 3 then ZONE_NORMAL else zone
  }

  /** Unsigned 64-bit addition and subtraction. */
  function Plus(n: nat, d: nat): nat {
    (n + d) % TWO64
  }

  function Minus(n: nat, d: nat): nat {
    (n - d) % TWO64
  }

  datatype Allocation = Allocation(frames: Frames, page: nat)

  function AllocPages(s: Frames, order: nat, zone: int): Allocation {
    var z := ZoneIndex(zone);
    var r := AllocZone(s.zones[z], s.words, order);
    Allocation(Frames(s.zones[z := r.areas], s.words, Minus(s.counter, r.debit)), r.page)
  }

  function JoinPages(s: Frames, page: nat, order: nat): Coalesced
    requires order <= MAX_ORDER
  {
    Coalesce(s.zones[ZoneOf(page)], s.words, page, order)
  }

  function WithZone(s: Frames, z: nat, a: Zone): Frames
    requires z < 3
  {
    s.(zones := s.zones[z := a])
  }

  /** Link a block in front of its list in zone `z` and credit its pages. */
  function PushPages(s: Frames, z: nat, page: nat, order: nat): Frames
    requires order <= MAX_ORDER && z < 3
  {
    Frames(s.zones[z := Push(s.zones[z], page, order)],
           s.words[page := s.zones[z][order].head],
           Plus(s.counter, Pow2(order)))
  }

  /** `free_pages`; orders above `MAX_ORDER` would index past the free areas. */
  function FreePages(s: Frames, page: nat, order: nat): Frames
    requires order <= MAX_ORDER
  {
    if page == 0 then s
    else
      var z, c := ZoneOf(page), JoinPages(s, page, order);
      PushPages(WithZone(s, z, c.areas), z, c.page, c.order)
  }

  /** The guard under which a free is sound: each list head that equals the buddy being
      looked for belongs to a list that is not empty. */
  predicate FreeGuard(s: Frames, page: nat, order: nat)
    requires order <= MAX_ORDER
  {
    MergesListed(s.zones[ZoneOf(page)], s.words, page, order)
  }

  // ---------------------------------------------------------------- the invariant

  function ZoneLists(s: Frames, z: nat): FreeLists
    requires z < 3
  {
    Lists(s.zones[z], s.words)
  }

  function AllListed(s: Frames): multiset<Block> {
    Listed(ZoneLists(s, 0)) + Listed(ZoneLists(s, 1)) + Listed(ZoneLists(s, 2))
  }

  /** Every listed block lies in the zone its address selects. */
  ghost predicate Placed(s: Frames) {
    forall z :: 0 <= z < 3 ==> InZone(ZoneLists(s, z), z)
  }

  ghost predicate InZone(l: FreeLists, z: nat) {
    forall i, p :: 0 <= i < 12 && p in l[i] ==> ZoneOf(p) == z
  }

  /** The page counter is the number of pages really listed, plus the drift weight of
      all blocks, plus a constant, modulo `2^64`. */
  ghost predicate Counted(s: Frames, live: multiset<Block>, c: int) {
    CountIs(s.counter, Sum(AllListed(s), Pages), Sum(AllListed(s) + live, Drift), c)
  }

  predicate CountIs(n: nat, pages: nat, drift: nat, c: int) {
    n == (pages + drift + c) % TWO64
  }

  lemma CountInRange(n: nat, pages: nat, drift: nat, c: int)
    requires CountIs(n, pages, drift, c)
    ensures n == n % TWO64
  {
  }

  lemma CountStep(n: nat, pages: nat, drift: nat, c: int, e: int, n': nat, pages': nat, drift': nat)
    requires CountIs(n, pages, drift, c) && n' == (n + e) % TWO64
    requires pages' + drift' == pages + drift + e
    ensures CountIs(n', pages', drift', c)
  {
  }

  /** Listed and handed-out blocks tile the managed memory, each listed one in its zone. */
  ghost predicate Sound(s: Frames, live: multiset<Block>, managed: set<nat>) {
    && 0 !in managed
    && Tiles(AllListed(s) + live, managed)
    && Sum(AllListed(s) + live, Pages) <= MAX_PAGES
    && Placed(s)
  }

  ghost predicate Inv(s: Frames, live: multiset<Block>, managed: set<nat>, c: int) {
    Sound(s, live, managed) && Counted(s, live, c)
  }

  lemma AllListedMember(s: Frames, z: nat, b: Block)
    requires z < 3 && b.order < 12 && b.pfn in ZoneLists(s, z)[b.order]
    ensures b in AllListed(s)
  {
    ListedMember(ZoneLists(s, z), b);
  }

  lemma AllListedFrom(s: Frames, b: Block) returns (z: nat)
    requires b in AllListed(s)
    ensures z < 3 && b.order < 12 && b.pfn in ZoneLists(s, z)[b.order]
  {
    z := if b in Listed(ZoneLists(s, 0)) then 0 else if b in Listed(ZoneLists(s, 1)) then 1 else 2;
    ListedMember(ZoneLists(s, z), b);
  }

  lemma AllListedSum(s: Frames, live: multiset<Block>, m: Measure)
    ensures Sum(AllListed(s), m)
         == Sum(Listed(ZoneLists(s, 0)), m) + Sum(Listed(ZoneLists(s, 1)), m) + Sum(Listed(ZoneLists(s, 2)), m)
    ensures Sum(AllListed(s) + live, m) == Sum(AllListed(s), m) + Sum(live, m)
  {
    SumUnion(Listed(ZoneLists(s, 0)), Listed(ZoneLists(s, 1)), m);
    SumUnion(Listed(ZoneLists(s, 0)) + Listed(ZoneLists(s, 1)), Listed(ZoneLists(s, 2)), m);
    SumUnion(AllListed(s), live, m);
  }

  lemma ListsProper(s: Frames, live: multiset<Block>, managed: set<nat>, z: nat)
    requires z < 3 && 0 !in managed && Tiles(AllListed(s) + live, managed)
    ensures Proper(ZoneLists(s, z))
  {
    var l := ZoneLists(s, z);
    forall i, p | 0 <= i < 12 && p in l[i]
      ensures p != 0 && Multiple(p, i)
    {
      AllListedMember(s, z, Block(p, i));
      TilesInside(AllListed(s) + live, managed, Block(p, i), p);
    }
  }

  lemma CountsBounded(s: Frames, live: multiset<Block>, z: nat, i: nat)
    requires z < 3 && i < 12
    ensures s.zones[z][i].nrFree <= Sum(AllListed(s), Pages) <= Sum(AllListed(s) + live, Pages)
  {
    AllListedSum(s, live, Pages);
    ListBound(ZoneLists(s, z), i, 12);
    assert s.zones[z][i].nrFree == |ZoneLists(s, z)[i]|;
    assert z == 0 || z == 1 || z == 2;
  }

  lemma CountsInRange(s: Frames, live: multiset<Block>, z: nat)
    requires z < 3 && Sum(AllListed(s) + live, Pages) <= MAX_PAGES
    ensures forall i :: 0 <= i < 12 ==> s.zones[z][i].nrFree < TWO64 - 1
  {
    forall i | 0 <= i < 12
      ensures s.zones[z][i].nrFree < TWO64 - 1
    {
      CountsBounded(s, live, z, i);
    }
  }

  /** A page on a list is not the first page of a handed-out block. */
  lemma LiveNotListed(s: Frames, live: multiset<Block>, managed: set<nat>, b: Block, x: nat, z: nat, i: nat)
    requires Tiles(AllListed(s) + live, managed) && b in live && Covers(b, x)
    requires z < 3 && i < 12
    ensures x !in ZoneLists(s, z)[i]
  {
    if x in ZoneLists(s, z)[i] {
      var a := Block(x, i);
      AllListedMember(s, z, a);
      assert b in AllListed(s) + live - multiset{a};
      TilesDisjoint(AllListed(s) + live, managed, a, b);
      assert false;
    }
  }

  /** A step that replaces the lists of one zone. */
  predicate ZoneStep(s: Frames, s': Frames, z: nat, l': FreeLists) {
    && z < 3
    && ZoneLists(s', z) == l'
    && forall y :: 0 <= y < 3 && y != z ==> ZoneLists(s', y) == ZoneLists(s, y)
  }

  lemma ZoneStepSum(s: Frames, s': Frames, z: nat, l': FreeLists, m: Measure)
    requires ZoneStep(s, s', z, l')
    ensures Sum(AllListed(s'), m) - Sum(AllListed(s), m) == Sum(Listed(l'), m) - Sum(Listed(ZoneLists(s, z)), m)
  {
    AllListedSum(s, multiset{}, m);
    AllListedSum(s', multiset{}, m);
    assert z == 0 || z == 1 || z == 2;
  }

  /** The listed and the handed-out blocks together keep every measure, except that the
      drift weight changes by `delta`. */
  ghost predicate Balanced(l: FreeLists, live: multiset<Block>, l': FreeLists, live': multiset<Block>, delta: int) {
    forall m: Measure ::
      Sum(Listed(l'), m) + Sum(live', m)
      == Sum(Listed(l), m) + Sum(live, m) + if m.Drift? then delta else 0
  }

  lemma StepSum(s: Frames, s': Frames, live: multiset<Block>, live': multiset<Block>,
                z: nat, l': FreeLists, delta: int, m: Measure)
    requires ZoneStep(s, s', z, l')
    requires Sum(Listed(l'), m) + Sum(live', m)
          == Sum(Listed(ZoneLists(s, z)), m) + Sum(live, m) + delta
    ensures Sum(AllListed(s') + live', m) == Sum(AllListed(s) + live, m) + delta
  {
    ZoneStepSum(s, s', z, l', m);
    AllListedSum(s, live, m);
    AllListedSum(s', live', m);
  }

  lemma StepAligned(s: Frames, s': Frames, live: multiset<Block>, live': multiset<Block>,
                    z: nat, l': FreeLists, b: Block)
    requires ZoneStep(s, s', z, l') && Proper(l')
    requires (forall a :: a in AllListed(s) + live ==> Aligned(a)) && (forall a :: a in live' ==> Aligned(a))
    requires b in AllListed(s') + live'
    ensures Aligned(b)
  {
    if b in AllListed(s') {
      var y := AllListedFrom(s', b);
      if y != z {
        AllListedMember(s, y, b);
        assert b in AllListed(s) + live;
      }
    }
  }

  lemma StepPlaced(s: Frames, s': Frames, z: nat, l': FreeLists)
    requires Placed(s) && ZoneStep(s, s', z, l') && InZone(l', z)
    ensures Placed(s')
  {
  }

  /** What the counter must gain when handed-out blocks change from `live` to `live'`. */
  ghost function Credit(live: multiset<Block>, live': multiset<Block>, delta: int): int {
    Sum(live, Pages) - Sum(live', Pages) + delta
  }

  lemma StepCounted(s: Frames, s': Frames, live: multiset<Block>, live': multiset<Block>, c: int,
                    delta: int, e: int)
    requires Counted(s, live, c)
    requires Sum(AllListed(s') + live', Pages) == Sum(AllListed(s) + live, Pages)
    requires Sum(AllListed(s') + live', Drift) == Sum(AllListed(s) + live, Drift) + delta
    requires s'.counter == (s.counter + e) % TWO64 && e == Credit(live, live', delta)
    ensures Counted(s', live', c)
  {
    AllListedSum(s, live, Pages);
    AllListedSum(s', live', Pages);
    CountStep(s.counter, Sum(AllListed(s), Pages), Sum(AllListed(s) + live, Drift),
              c, e, s'.counter, Sum(AllListed(s'), Pages), Sum(AllListed(s') + live', Drift));
  }

  lemma StepTiles(s: Frames, s': Frames, live: multiset<Block>, live': multiset<Block>,
                  managed: set<nat>, z: nat, l': FreeLists, delta: int)
    requires Tiles(AllListed(s) + live, managed) && ZoneStep(s, s', z, l')
    requires Proper(l') && (forall b :: b in live' ==> Aligned(b))
    requires Balanced(ZoneLists(s, z), live, l', live', delta)
    ensures Tiles(AllListed(s') + live', managed)
  {
    var t, t' := AllListed(s) + live, AllListed(s') + live';
    forall x: nat
      ensures Sum(t', Cover(x)) == Sum(t, Cover(x))
    {
      StepSum(s, s', live, live', z, l', 0, Cover(x));
    }
    forall b | b in t'
      ensures Aligned(b)
    {
      StepAligned(s, s', live, live', z, l', b);
    }
  }

  /** What it takes for a step that moves blocks between the lists of one zone and the
      handed-out blocks, splitting or joining on the way, to stay sound. */
  lemma StepSound(s: Frames, s': Frames, live: multiset<Block>, live': multiset<Block>,
                  managed: set<nat>, z: nat, l': FreeLists, delta: int)
    requires Sound(s, live, managed) && ZoneStep(s, s', z, l')
    requires Proper(l') && InZone(l', z) && (forall b :: b in live' ==> Aligned(b))
    requires Balanced(ZoneLists(s, z), live, l', live', delta)
    ensures Sound(s', live', managed)
  {
    StepTiles(s, s', live, live', managed, z, l', delta);
    StepSum(s, s', live, live', z, l', 0, Pages);
    StepPlaced(s, s', z, l');
  }

  /** What the counter must do on such a step to stay exact. */
  lemma StepCounts(s: Frames, s': Frames, live: multiset<Block>, live': multiset<Block>, c: int,
                   z: nat, l': FreeLists, delta: int, e: int)
    requires Counted(s, live, c) && ZoneStep(s, s', z, l')
    requires Balanced(ZoneLists(s, z), live, l', live', delta)
    requires s'.counter == (s.counter + e) % TWO64 && e == Credit(live, live', delta)
    ensures Counted(s', live', c)
  {
    StepSum(s, s', live, live', z, l', 0, Pages);
    StepSum(s, s', live, live', z, l', delta, Drift);
    StepCounted(s, s', live, live', c, delta, e);
  }
}
