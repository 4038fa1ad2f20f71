/** One line added to the split, a NULL link for the upper half, is all the frame allocator
    lacks: with it every free of a live block is sound, over every run.

    The line is a marked repair; everything else here is the allocator as it is. */
module FrameRepair {
  import opened Bits
  import opened Blocks
  import opened FrameLists
  import opened FrameAllocator
  import opened FrameSafety
  import opened FrameRuns
  import opened FrameRoundTrip
  import opened FrameChains

  datatype Marked = Marked(found: AllocResult, words: Words)

  /** `AllocZone` with the repair: the upper half that a split lists gets a NULL link. */
  function MarkZone(a: Zone, w: Words, k: nat): Marked
    decreases NR_FREE_AREA - k, w
  {
    if k + 1 < NR_FREE_AREA && a[k].nrFree == 0 then
      var m := MarkZone(a, w, k + 1);
      if m.found.page == 0 then m
      else Marked(AfterSplit(m.found, k), m.words[Buddy(m.found.page, k) := 0])
    else Marked(AllocZone(a, w, k), w)
  }

  function MarkPages(s: Frames, order: nat, zone: int): Allocation {
    var z := ZoneIndex(zone);
    var m := MarkZone(s.zones[z], s.words, order);
    Allocation(Frames(s.zones[z := m.found.areas], m.words, Minus(s.counter, m.found.debit)), m.found.page)
  }

  /** NULL links for the upper halves of the block `p` of order `f`, down to order `k`. */
  function Marks(w: Words, p: nat, k: nat, f: nat): Words
    decreases f - k
  {
    if k >= f then w else Marks(w, p, k + 1, f)[p + Pow2(k) := 0]
  }

  // ---------------------------------------------------------------- the words written

  lemma {:induction false} MarkNothing(a: Zone, w: Words, k: nat)
    requires forall i :: k <= i < 12 ==> a[i].nrFree == 0
    ensures MarkZone(a, w, k) == Marked(AllocResult(a, 0, 0), w)
    decreases 12 - k
  {
    if k + 1 < 12 {
      MarkNothing(a, w, k + 1);
    }
  }

  /** The repaired split finds and lists what the split does, and writes the NULL links. */
  lemma {:induction false} MarkIs(a: Zone, w: Words, k: nat, f: nat)
    requires k <= f < 12 && a[f].nrFree > 0 && a[f].head != 0 && Multiple(a[f].head, f)
    requires forall i :: k <= i < f ==> a[i].nrFree == 0
    ensures MarkZone(a, w, k) == Marked(AllocZone(a, w, k), Marks(w, a[f].head, k, f))
    decreases f - k
  {
    if k < f {
      MarkIs(a, w, k + 1, f);
      AllocAreas(a, w, k + 1, f);
      SplitBuddy(a[f].head, k, f);
    }
  }

  /** The split reads one link only. */
  lemma {:induction false} AllocReads(a: Zone, w: Words, w': Words, k: nat, f: nat)
    requires k <= f < 12 && a[f].nrFree > 0 && Word(w', a[f].head) == Word(w, a[f].head)
    requires forall i :: k <= i < f ==> a[i].nrFree == 0
    ensures AllocZone(a, w', k) == AllocZone(a, w, k)
    decreases f - k
  {
    if k < f {
      AllocReads(a, w, w', k + 1, f);
    }
  }

  /** The upper halves of the block `p` of order `f`, down to order `k`, have NULL links. */
  ghost predicate ZeroLinks(w: Words, p: nat, k: nat, f: nat) {
    forall i :: k <= i < f ==> Word(w, p + Pow2(i)) == 0
  }

  lemma {:induction false} MarksWords(w: Words, p: nat, k: nat, f: nat, w': Words)
    requires w' == Marks(w, p, k, f)
    ensures Word(w', p) == Word(w, p) && ZeroLinks(w', p, k, f)
    decreases f - k
  {
    if k < f {
      MarksWords(w, p, k + 1, f, Marks(w, p, k + 1, f));
    }
  }

  lemma {:induction false} MarksFrame(a: Zone, w: Words, p: nat, k: nat, f: nat)
    requires forall i, j :: 0 <= i < 12 && k <= j < f ==> p + Pow2(j) !in Lists(a, w)[i]
    ensures Lists(a, Marks(w, p, k, f)) == Lists(a, w)
    ensures Ended(a, w) ==> Ended(a, Marks(w, p, k, f))
    decreases f - k
  {
    if k < f {
      MarksFrame(a, w, p, k + 1, f);
      var w', q := Marks(w, p, k + 1, f), p + Pow2(k);
      ListsFrame(a, w', q, 0);
      if Ended(a, w) {
        EndedFrame(a, w', q, 0);
      }
    }
  }

  /** Only the first page of a listed block is on a list. */
  lemma InteriorUnlisted(s: Frames, live: multiset<Block>, managed: set<nat>, z: nat, p: nat, f: nat, x: nat, y: nat, i: nat)
    requires Tiles(AllListed(s) + live, managed) && z < 3 && f < 12 && p in ZoneLists(s, z)[f]
    requires p < x < p + Pow2(f) && y < 3 && i < 12
    ensures x !in ZoneLists(s, y)[i]
  {
    if x in ZoneLists(s, y)[i] {
      var a, b := Block(p, f), Block(x, i);
      AllListedMember(s, z, a);
      AllListedMember(s, y, b);
      assert b in AllListed(s) + live - multiset{a};
      TilesDisjoint(AllListed(s) + live, managed, a, b);
      assert false;
    }
  }

  lemma MarksUnseen(s: Frames, live: multiset<Block>, managed: set<nat>, c: int, z: nat, p: nat, k: nat, f: nat, s0: Frames)
    requires Inv(s, live, managed, c) && z < 3 && f < 12 && p in ZoneLists(s, z)[f] && s0 == s.(words := Marks(s.words, p, k, f))
    ensures Inv(s0, live, managed, c)
    ensures AllEnded(s) ==> AllEnded(s0)
  {
    forall y | 0 <= y < 3
      ensures ZoneLists(s0, y) == ZoneLists(s, y)
      ensures Ended(s.zones[y], s.words) ==> Ended(s0.zones[y], s0.words)
    {
      forall i, j | 0 <= i < 12 && k <= j < f
        ensures p + Pow2(j) !in Lists(s.zones[y], s.words)[i]
      {
        Pow2Below(j, f);
        InteriorUnlisted(s, live, managed, z, p, f, p + Pow2(j), y, i);
      }
      MarksFrame(s.zones[y], s.words, p, k, f);
    }
    assert AllListed(s0) == AllListed(s);
  }

  // ---------------------------------------------------------------- one allocation

  lemma SplitEnded(a: Zone, w: Words, r: Zone, k: nat, f: nat, p: nat)
    requires k <= f < 12 && 0 < a[f].nrFree && p == a[f].head && Ended(a, w) && SplitAreas(a, w, r, k, f, p)
    requires ZeroLinks(w, p, k, f)
    ensures Ended(r, w)
  {
    forall i | 0 <= i < 12
      ensures After(w, r[i].head, r[i].nrFree) == 0
    {
      if k <= i < f {
        AfterOne(w, r[i].head);
      }
    }
  }

  lemma AfterOne(w: Words, p: nat)
    ensures After(w, p, 1) == Word(w, p)
  {
    assert After(w, Word(w, p), 0) == Word(w, p);
  }

  /** The repaired allocation is the plain one in a memory where the links are NULL already. */
  lemma MarkIsAlloc(s: Frames, order: nat, zone: int, z: nat, f: nat, p: nat, s0: Frames)
    requires z == ZoneIndex(zone) && order <= f < 12 && s.zones[z][f].nrFree > 0
    requires p == s.zones[z][f].head != 0 && Multiple(p, f) && s0 == s.(words := Marks(s.words, p, order, f))
    requires forall i :: order <= i < f ==> s.zones[z][i].nrFree == 0
    ensures MarkPages(s, order, zone) == AllocPages(s0, order, zone)
    ensures AllocPages(s0, order, zone).page == AllocPages(s, order, zone).page
  {
    MarksWords(s.words, p, order, f, s0.words);
    MarkIs(s.zones[z], s.words, order, f);
    AllocReads(s.zones[z], s.words, s0.words, order, f);
  }

  lemma MarkEnded(s: Frames, order: nat, zone: int, z: nat, f: nat, p: nat)
    requires AllEnded(s) && z == ZoneIndex(zone) && order <= f < 12 && s.zones[z][f].nrFree > 0
    requires p == s.zones[z][f].head != 0 && Multiple(p, f) && ZeroLinks(s.words, p, order, f)
    requires forall i :: order <= i < f ==> s.zones[z][i].nrFree == 0
    ensures AllEnded(AllocPages(s, order, zone).frames)
  {
    AllocAreas(s.zones[z], s.words, order, f);
    SplitEnded(s.zones[z], s.words, AllocZone(s.zones[z], s.words, order).areas, order, f, p);
  }

  lemma MarkInv(s: Frames, live: multiset<Block>, managed: set<nat>, c: int, order: nat, zone: int, s0: Frames)
    requires Inv(s0, live, managed, c) && MarkPages(s, order, zone) == AllocPages(s0, order, zone)
    requires MarkPages(s, order, zone).page != 0
    ensures var r := MarkPages(s, order, zone); Inv(r.frames, live + multiset{Block(r.page, order)}, managed, c)
  {
    AllocKeeps(s0, live, managed, c, order, zone);
  }

  lemma MarkFound(s: Frames, live: multiset<Block>, managed: set<nat>, c: int, order: nat, zone: int, z: nat, f: nat)
    requires Inv(s, live, managed, c) && AllEnded(s) && z == ZoneIndex(zone) && f == FindOrder(ZoneLists(s, z), order) < 12
    requires AllocPages(s, order, zone).page != 0
    ensures var r := MarkPages(s, order, zone);
      && AllEnded(r.frames) && r.page == AllocPages(s, order, zone).page
      && Inv(r.frames, live + multiset{Block(r.page, order)}, managed, c)
  {
    var p := s.zones[z][f].head;
    FoundHead(s, live, managed, z, order, f, p);
    var s0 := s.(words := Marks(s.words, p, order, f));
    MarksUnseen(s, live, managed, c, z, p, order, f, s0);
    MarkIsAlloc(s, order, zone, z, f, p, s0);
    MarkInv(s, live, managed, c, order, zone, s0);
    MarksWords(s.words, p, order, f, s0.words);
    MarkEnded(s0, order, zone, z, f, p);
  }

  lemma FoundHead(s: Frames, live: multiset<Block>, managed: set<nat>, z: nat, k: nat, f: nat, p: nat)
    requires 0 !in managed && Tiles(AllListed(s) + live, managed)
    requires z < 3 && f == FindOrder(ZoneLists(s, z), k) < 12 && p == s.zones[z][f].head
    ensures k <= f && s.zones[z][f].nrFree > 0 && p in ZoneLists(s, z)[f] && p != 0 && Multiple(p, f)
    ensures forall i :: k <= i < f ==> s.zones[z][i].nrFree == 0
  {
    var l := ZoneLists(s, z);
    ListsProper(s, live, managed, z);
    assert |l[f]| == s.zones[z][f].nrFree && l[f][0] == p;
    assert forall i :: k <= i < f ==> |l[i]| == s.zones[z][i].nrFree;
  }

  lemma MarkMissing(s: Frames, order: nat, zone: int, z: nat)
    requires z == ZoneIndex(zone) && FindOrder(ZoneLists(s, z), order) >= 12 && s.counter < TWO64
    ensures MarkPages(s, order, zone) == Allocation(s, 0)
  {
    assert forall i :: order <= i < 12 ==> |ZoneLists(s, z)[i]| == s.zones[z][i].nrFree;
    MarkNothing(s.zones[z], s.words, order);
    assert s.zones[z := s.zones[z]] == s.zones;
  }

  /** A repaired allocation succeeds and fails as the plain one does, keeps the invariant, and
      leaves every chain ended. */
  lemma MarkKeeps(s: Frames, live: multiset<Block>, managed: set<nat>, c: int, order: nat, zone: int)
    requires Inv(s, live, managed, c) && AllEnded(s)
    ensures var r := MarkPages(s, order, zone);
      && AllEnded(r.frames) && r.page == AllocPages(s, order, zone).page
      && Inv(r.frames, if r.page == 0 then live else live + multiset{Block(r.page, order)}, managed, c)
  {
    var z := ZoneIndex(zone);
    var f := FindOrder(ZoneLists(s, z), order);
    AllocKeeps(s, live, managed, c, order, zone);
    if f < 12 {
      MarkFound(s, live, managed, c, order, zone, z, f);
    } else {
      CountInRange(s.counter, Sum(AllListed(s), Pages), Sum(AllListed(s) + live, Drift), c);
      MarkMissing(s, order, zone, z);
    }
  }

  // ---------------------------------------------------------------- runs

  /** A step of the repaired allocator. */
  function MarkStep(x: System, op: Op): System {
    match op
    case Alloc(order, zone) =>
      var r := MarkPages(x.frames, order, zone);
      System(r.frames, if r.page == 0 then x.live else x.live + multiset{Block(r.page, order)})
    case Free(_) => Step(x, op)
    case Store(_, _) => Step(x, op)
  }

  /** Blocks that are freed are live, and stores go to their owners' pages; that is all. */
  ghost predicate Callable(x: System, op: Op) {
    match op
    case Alloc(_, _) => true
    case Free(b) => b in x.live && b.order <= MAX_ORDER
    case Store(frame, _) => exists b :: b in x.live && Covers(b, frame)
  }

  function MarkRun(x: System, ops: seq<Op>): System
    decreases |ops|
  {
    if ops == [] then x else MarkRun(MarkStep(x, ops[0]), ops[1..])
  }

  ghost predicate AllCallable(x: System, ops: seq<Op>)
    decreases |ops|
  {
    ops == [] || (Callable(x, ops[0]) && AllCallable(MarkStep(x, ops[0]), ops[1..]))
  }

  /** Every free of the run meets its guard. */
  ghost predicate AllPermitted(x: System, ops: seq<Op>)
    decreases |ops|
  {
    ops == [] || (Permitted(x, ops[0]) && AllPermitted(MarkStep(x, ops[0]), ops[1..]))
  }

  lemma MarkStepKeeps(x: System, op: Op, managed: set<nat>, c: int)
    requires Inv(x.frames, x.live, managed, c) && AllEnded(x.frames) && Callable(x, op)
    requires forall y :: y in managed ==> y >= LARGEST
    ensures Permitted(x, op) && AllEnded(MarkStep(x, op).frames)
    ensures Inv(MarkStep(x, op).frames, MarkStep(x, op).live, managed, c)
  {
    match op
    case Alloc(order, zone) => MarkKeeps(x.frames, x.live, managed, c, order, zone);
    case Free(_) =>
      UnsplitStep(x, op, managed, c);
      StepKeepsInv(x, op, managed, c);
    case Store(_, _) =>
      UnsplitStep(x, op, managed, c);
      StepKeepsInv(x, op, managed, c);
  }

  /** Where all frames lie above the first largest block, every run of the repaired allocator,
      splits included, meets every guard and keeps the invariant. */
  lemma {:induction false} MarkRunKeeps(x: System, ops: seq<Op>, managed: set<nat>, c: int)
    requires Inv(x.frames, x.live, managed, c) && AllEnded(x.frames) && AllCallable(x, ops)
    requires forall y :: y in managed ==> y >= LARGEST
    ensures AllPermitted(x, ops) && Inv(MarkRun(x, ops).frames, MarkRun(x, ops).live, managed, c)
    decreases |ops|
  {
    if ops != [] {
      MarkStepKeeps(x, ops[0], managed, c);
      MarkRunKeeps(MarkStep(x, ops[0]), ops[1..], managed, c);
    }
  }

  /** In particular every run from boot, whatever memory holds. */
  lemma BootedMarkRun(words: Words, pages: nat, live: multiset<Block>, managed: set<nat>, c: int, ops: seq<Op>)
    requires pages < TWO64 && c == pages - Sum(live, Drift) && (forall y :: y in managed ==> y >= LARGEST)
    requires Tiles(live, managed) && Sum(live, Pages) <= MAX_PAGES
    requires AllCallable(System(InitialFrames(words, pages), live), ops)
    ensures var x := System(InitialFrames(words, pages), live);
      AllPermitted(x, ops) && Inv(MarkRun(x, ops).frames, MarkRun(x, ops).live, managed, c)
  {
    InitialInv(words, pages, live, managed, c);
    InitialEnded(words, pages);
    MarkRunKeeps(System(InitialFrames(words, pages), live), ops, managed, c);
  }
}
