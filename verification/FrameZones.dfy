/** Where the frame allocator keeps and finds blocks, in byte addresses: the boundary between
    the zones is at 256 MB. */
module FrameZones {
  import opened Bits
  import opened Blocks
  import opened FrameLists
  import opened FrameAllocator
  import opened FrameSafety
  import opened FrameRuns

  /** A block of order `k` at frame `p` lies in zone `z`. */
  predicate Lies(p: nat, k: nat, z: nat) {
    || (z == 0 && (p + Pow2(k)) * 4096 <= 0x1000_0000)
    || (z == 1 && p * 4096 >= 0x1000_0000)
  }

  lemma BlockLies(p: nat, k: nat)
    requires k <= MAX_ORDER && Multiple(p, k)
    ensures Lies(p, k, ZoneOf(p))
  {
    OneZone(p, k, p + Pow2(k) - 1);
  }

  lemma ListedLies(s: Frames, live: multiset<Block>, managed: set<nat>, c: int, z: nat, k: nat, p: nat)
    requires Inv(s, live, managed, c) && z < 3 && k < 12 && p in ZoneLists(s, z)[k]
    ensures Lies(p, k, z)
  {
    ListsProper(s, live, managed, z);
    assert InZone(ZoneLists(s, z), z);
    BlockLies(p, k);
  }

  /** After every guarded run each block listed in zone 0 ends at or below 256 MB, each block in
      zone 1 starts at or above it, and zone 2 lists nothing. */
  lemma RunLies(x: System, ops: seq<Op>, managed: set<nat>, c: int, z: nat, k: nat, p: nat)
    requires Inv(x.frames, x.live, managed, c) && Disciplined(x, ops)
    requires z < 3 && k < 12 && p in ZoneLists(Run(x, ops).frames, z)[k]
    ensures Lies(p, k, z)
  {
    RunKeepsInv(x, ops, managed, c);
    ListedLies(Run(x, ops).frames, Run(x, ops).live, managed, c, z, k, p);
  }

  /** After every guarded run an allocation from zone 0 returns memory below 256 MB, one from
      zone 1 or with an invalid zone memory above, and one from zone 2 nothing. */
  lemma RunAllocLies(x: System, ops: seq<Op>, managed: set<nat>, c: int, order: nat, zone: int)
    requires Inv(x.frames, x.live, managed, c) && Disciplined(x, ops)
    ensures var p := AllocPages(Run(x, ops).frames, order, zone).page;
      p != 0 ==> zone != 2 && Lies(p, order, if zone == 0 then 0 else 1)
  {
    RunKeepsInv(x, ops, managed, c);
    AllocLies(Run(x, ops).frames, Run(x, ops).live, managed, c, order, zone);
  }

  lemma AllocLies(s: Frames, live: multiset<Block>, managed: set<nat>, c: int, order: nat, zone: int)
    requires Inv(s, live, managed, c)
    ensures var p := AllocPages(s, order, zone).page;
      p != 0 ==> zone != 2 && Lies(p, order, if zone == 0 then 0 else 1)
  {
    var z, r := ZoneIndex(zone), AllocPages(s, order, zone);
    var l := ZoneLists(s, z);
    ListsProper(s, live, managed, z);
    CountInRange(s.counter, Sum(AllListed(s), Pages), Sum(AllListed(s) + live, Drift), c);
    AllocShape(s, order, z, r);
    var f := FindOrder(l, order);
    if f < 12 {
      assert r.page in l[f];
      ListedLies(s, live, managed, c, z, f, r.page);
      SmallerLies(r.page, order, f, z);
    }
  }

  lemma SmallerLies(p: nat, k: nat, f: nat, z: nat)
    requires Lies(p, f, z) && k <= f
    ensures Lies(p, k, z)
  {
    if k < f {
      Pow2Below(k, f);
    }
  }

  /** The merging loop goes on to blocks of 2048 pages: it stops before that only where the
      head of the list is not the buddy. */
  lemma {:induction false} JoinStops(a: Zone, w: Words, p: nat, k: nat)
    requires k <= MAX_ORDER
    ensures var c := Coalesce(a, w, p, k); c.order == 11 || c.areas[c.order].head != Buddy(c.page, c.order)
    decreases MAX_ORDER - k
  {
    if k < MAX_ORDER && a[k].head == Buddy(p, k) {
      JoinStops(Taken(a, w, k, Buddy(p, k)), w, BitAnd(p, Buddy(p, k)), k + 1);
    }
  }
}
