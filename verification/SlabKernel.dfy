/** All slab caches together: they share one memory with each other and with every other
    owner of pages, and `kfree` has to find the cache a pointer came from. */
module SlabKernel {
  import opened SlabCache
  import opened SlabSafety
  import opened SlabMoves
  import opened SlabRuns
  import F = SlabFrees
  import opened SlabFrees

  /** The memory's words, the caches with their live objects, and the pages that neither
      belong to a slab nor are free. The words of a single cache are not used: see `View`. */
  datatype Kernel = Kernel(words: map<nat, nat>, parts: seq<System>, taken: set<nat>)

  /** Cache `i` as it sees the shared memory. */
  function View(k: Kernel, i: nat): System
    requires i < |k.parts|
  {
    k.parts[i].(cache := k.parts[i].cache.(words := k.words))
  }

  function Put(k: Kernel, i: nat, x: System): Kernel
    requires i < |k.parts|
  {
    k.(words := x.cache.words, parts := k.parts[i := x])
  }

  /** `page` is a slab of cache `i`. */
  predicate SlabAt(k: Kernel, i: int, page: nat) {
    0 <= i < |k.parts| && page in k.parts[i].cache.heap
  }

  predicate Owned(k: Kernel, page: nat) {
    page in k.taken || exists i :: 0 <= i < |k.parts| && SlabAt(k, i, page)
  }

  function LayoutAt(k: Kernel, i: nat): Layout
    requires i < |k.parts|
  {
    k.parts[i].cache.layout
  }

  /** Objects of the slab at `p` lie on page `q`. */
  predicate Spills(l: Layout, p: nat, q: nat) {
    p + l.offset < q + PAGE_SIZE && q < p + l.offset + l.total * l.aligned
  }

  // ---------------------------------------------------------------- the invariant

  ghost predicate EachInv(k: Kernel) {
    forall i: nat :: i < |k.parts| ==> Inv(View(k, i).cache, View(k, i).live)
  }

  ghost predicate OneOwner(k: Kernel) {
    && (forall q :: q in k.taken ==> q % PAGE_SIZE == 0)
    && (forall i, p :: SlabAt(k, i, p) ==> p !in k.taken)
    && (forall i, j, p :: SlabAt(k, i, p) && SlabAt(k, j, p) ==> i == j)
  }

  /** No object lies on a page that belongs to another slab or another owner. */
  ghost predicate Separate(k: Kernel) {
    forall i, p, q :: SlabAt(k, i, p) && Owned(k, q) && q != p ==> !Spills(LayoutAt(k, i), p, q)
  }

  ghost predicate KernelInv(k: Kernel) {
    EachInv(k) && OneOwner(k) && Separate(k)
  }

  // ---------------------------------------------------------------- operations

  /** Allocate from or free to a cache; another owner takes or gives back a page; an owner
      stores into its memory. */
  datatype Op =
    | AllocFrom(i: nat, page: nat) | FreeTo(i: nat, obj: nat)
    | Take(page: nat) | Give(page: nat) | Write(address: nat, word: nat)

  function Step(k: Kernel, op: Op): Kernel {
    match op
    case AllocFrom(i, page) => if i < |k.parts| then Put(k, i, F.Step(View(k, i), AllocOp(page))) else k
    case FreeTo(i, obj) => if i < |k.parts| then Put(k, i, F.Step(View(k, i), FreeOp(obj))) else k
    case Take(page) => k.(taken := k.taken + {page})
    case Give(page) => k.(taken := k.taken - {page})
    case Write(address, word) => k.(words := k.words[address := word])
  }

  /** `address` lies on a page another owner has taken, or anywhere in a live object. */
  ghost predicate MayWrite(k: Kernel, address: nat) {
    || (exists q :: q in k.taken && q <= address < q + PAGE_SIZE)
    || (exists i, obj :: InObject(k, i, obj, address))
  }

  predicate InObject(k: Kernel, i: int, obj: nat, address: nat) {
    0 <= i < |k.parts| && obj in k.parts[i].live && obj <= address < obj + LayoutAt(k, i).aligned
  }

  /** What the page allocator and the owners of memory answer for: pages are handed out to one
      owner at a time, only live objects are freed, and everyone writes to their own memory. */
  ghost predicate Proper(k: Kernel, op: Op) {
    match op
    case AllocFrom(i, page) => i < |k.parts| && (page != 0 ==> !Owned(k, page) && page % PAGE_SIZE == 0)
    case FreeTo(i, obj) => i < |k.parts| && obj in k.parts[i].live
    case Take(page) => !Owned(k, page) && page % PAGE_SIZE == 0
    case Give(page) => true
    case Write(address, _) => address % 8 == 0 && MayWrite(k, address)
  }

  /** `page` is not right behind a slab whose objects overrun their page. */
  ghost predicate NotBehind(k: Kernel, page: nat) {
    forall i, p: nat :: SlabAt(k, i, p) && Overruns(LayoutAt(k, i)) ==> p + PAGE_SIZE != page
  }

  ghost predicate Guard(k: Kernel, op: Op)
    requires Proper(k, op)
  {
    match op
    case AllocFrom(i, page) =>
      Grows(View(k, i).cache, page) ==>
        NotBehind(k, page) && (Overruns(LayoutAt(k, i)) ==> !Owned(k, page + PAGE_SIZE))
    case FreeTo(i, obj) => FreeGuard(View(k, i).cache, obj)
    case Take(page) => NotBehind(k, page)
    case Give(page) => true
    case Write(_, _) => true
  }

  // ---------------------------------------------------------------- memory kept apart

  lemma SpillsIff(l: Layout, p: nat, q: nat)
    requires Fits(l) && p % PAGE_SIZE == 0 && q % PAGE_SIZE == 0 && p != q
    ensures Spills(l, p, q) <==> Overruns(l) && q == p + PAGE_SIZE
  {
    var a, b := p / PAGE_SIZE, q / PAGE_SIZE;
    assert p == PAGE_SIZE * a && q == PAGE_SIZE * b;
  }

  lemma Spread(p: nat, q: nat)
    requires p % PAGE_SIZE == 0 && q % PAGE_SIZE == 0 && p < q
    ensures p + PAGE_SIZE <= q
  {
  }

  /** `address` lies in the objects of the slab at `p`. */
  predicate InSlots(l: Layout, p: nat, address: nat) {
    p + l.offset <= address < p + l.offset + l.total * l.aligned
  }

  lemma RegionsApart(l: Layout, p: nat, l': Layout, q: nat, address: nat)
    requires Fits(l) && Fits(l') && p % PAGE_SIZE == 0 && q % PAGE_SIZE == 0 && p != q
    requires !Spills(l, p, q) && !Spills(l', q, p) && InSlots(l, p, address)
    ensures !InSlots(l', q, address) && !(q <= address < q + PAGE_SIZE)
  {
    if p < q {
      Spread(p, q);
    } else {
      Spread(q, p);
    }
  }

  lemma Aligned(k: Kernel, i: nat, p: nat)
    requires EachInv(k) && SlabAt(k, i, p)
    ensures Fits(LayoutAt(k, i)) && p % PAGE_SIZE == 0 && p != 0
  {
    PagesOk(View(k, i).cache, View(k, i).live);
  }

  /** The objects of two slabs, of one cache or of two, share no memory. */
  lemma SlabsApart(k: Kernel, i: nat, p: nat, j: nat, q: nat, address: nat)
    requires KernelInv(k) && SlabAt(k, i, p) && SlabAt(k, j, q) && p != q && InSlots(LayoutAt(k, i), p, address)
    ensures !InSlots(LayoutAt(k, j), q, address) && !(q <= address < q + PAGE_SIZE)
  {
    Aligned(k, i, p);
    Aligned(k, j, q);
    assert Owned(k, p) && Owned(k, q);
    RegionsApart(LayoutAt(k, i), p, LayoutAt(k, j), q, address);
  }

  lemma {:induction false} SlotsStep(base: nat, a: nat, n: nat, x: nat, y: nat)
    requires IsSlotFrom(base, a, n, x) && IsSlotFrom(base, a, n, y) && x < y
    ensures x + a <= y
    decreases n
  {
    if y == base {
      SlotIn(base, a, n, x);
    } else if x == base {
      SlotIn(base + a, a, n - 1, y);
    } else {
      SlotsStep(base + a, a, n - 1, x, y);
    }
  }

  lemma LiveSlot(k: Kernel, i: nat, obj: nat) returns (p: nat)
    requires EachInv(k) && i < |k.parts| && obj in k.parts[i].live
    ensures SlabAt(k, i, p) && IsSlot(LayoutAt(k, i), p, obj)
  {
    var x := View(k, i);
    var ps, fs, es, fls :| InvWith(x.cache, x.live, ps, fs, es, fls);
    assert Covered(x.cache.layout, x.cache.heap, x.live);
    p :| p in x.cache.heap && IsSlot(x.cache.layout, p, obj);
  }

  lemma WordOfTaken(k: Kernel, q: nat, j: nat, p: nat, address: nat)
    requires KernelInv(k) && q in k.taken && q <= address < q + PAGE_SIZE && SlabAt(k, j, p)
    ensures !(p <= address < p + DESCRIPTOR) && !IsSlot(LayoutAt(k, j), p, address)
  {
    Aligned(k, j, p);
    assert Owned(k, q);
    if p < q {
      Spread(p, q);
    } else {
      Spread(q, p);
    }
    if IsSlot(LayoutAt(k, j), p, address) {
      SlotInPage(LayoutAt(k, j), p, address);
    }
  }

  lemma WordOfObject(k: Kernel, i: nat, obj: nat, s: nat, j: nat, p: nat, address: nat)
    requires KernelInv(k) && InObject(k, i, obj, address) && SlabAt(k, i, s) && IsSlot(LayoutAt(k, i), s, obj) && SlabAt(k, j, p)
    ensures !(p <= address < p + DESCRIPTOR)
    ensures IsSlot(LayoutAt(k, j), p, address) ==> i == j && address == obj
  {
    var l := LayoutAt(k, i);
    Aligned(k, i, s);
    SlotIn(s + l.offset, l.aligned, l.total, obj);
    assert InSlots(l, s, address);
    if p != s {
      SlabsApart(k, i, s, j, p, address);
    }
    if IsSlot(LayoutAt(k, j), p, address) {
      Aligned(k, j, p);
      SlotInPage(LayoutAt(k, j), p, address);
      if obj < address {
        SlotsStep(s + l.offset, l.aligned, l.total, obj, address);
      }
    }
  }

  lemma TakenIsForeign(k: Kernel, q: nat, address: nat, j: nat)
    requires KernelInv(k) && address % 8 == 0 && q in k.taken && q <= address < q + PAGE_SIZE && j < |k.parts|
    ensures Foreign(View(k, j).cache, address)
  {
    forall p | p in View(k, j).cache.heap
      ensures !(p <= address < p + DESCRIPTOR) && !IsSlot(LayoutAt(k, j), p, address)
    {
      WordOfTaken(k, q, j, p, address);
    }
  }

  lemma ObjectIsForeign(k: Kernel, i: nat, obj: nat, address: nat, j: nat)
    requires KernelInv(k) && address % 8 == 0 && InObject(k, i, obj, address) && j < |k.parts|
    ensures (i == j && address == obj) || Foreign(View(k, j).cache, address)
  {
    var s := LiveSlot(k, i, obj);
    forall p | p in View(k, j).cache.heap
      ensures !(p <= address < p + DESCRIPTOR)
      ensures IsSlot(LayoutAt(k, j), p, address) ==> i == j && address == obj
    {
      WordOfObject(k, i, obj, s, j, p, address);
    }
  }

  /** Whoever writes to memory of their own writes to no descriptor and to no free slot of any
      cache. */
  lemma OwnersMayWrite(k: Kernel, address: nat, j: nat)
    requires KernelInv(k) && address % 8 == 0 && MayWrite(k, address) && j < |k.parts|
    ensures address in View(k, j).live || Foreign(View(k, j).cache, address)
  {
    if q :| q in k.taken && q <= address < q + PAGE_SIZE {
      TakenIsForeign(k, q, address, j);
    } else {
      var i: nat, obj :| InObject(k, i, obj, address);
      ObjectIsForeign(k, i, obj, address, j);
    }
  }

  // ---------------------------------------------------------------- one step

  /** The same slabs, layouts and owners. */
  ghost predicate SamePages(k: Kernel, k': Kernel) {
    && |k'.parts| == |k.parts| && k'.taken == k.taken
    && forall i: nat :: i < |k.parts| ==>
         LayoutAt(k', i) == LayoutAt(k, i) && k'.parts[i].cache.heap.Keys == k.parts[i].cache.heap.Keys
  }

  lemma SamePagesKeep(k: Kernel, k': Kernel)
    requires SamePages(k, k')
    ensures OneOwner(k) ==> OneOwner(k')
    ensures Separate(k) ==> Separate(k')
  {
    assert forall i, p :: SlabAt(k', i, p) <==> SlabAt(k, i, p);
    assert forall q :: Owned(k', q) <==> Owned(k, q);
  }

  /** Another cache's change to memory that is nobody else's is not noticed. */
  lemma OthersKeep(k: Kernel, i: nat, x: System, j: nat)
    requires EachInv(k) && i < |k.parts| && j < |k.parts| && j != i
    requires SameFreeWords(View(k, j).cache, View(k, j).live, x.cache.words)
    ensures Inv(View(Put(k, i, x), j).cache, View(Put(k, i, x), j).live)
  {
    WordsKeep(View(k, j).cache, View(k, j).live, x.cache.words);
  }

  lemma PutKeepsIff(k: Kernel, i: nat, x: System)
    requires EachInv(k) && i < |k.parts|
    requires forall j: nat :: j < |k.parts| && j != i ==> SameFreeWords(View(k, j).cache, View(k, j).live, x.cache.words)
    ensures EachInv(Put(k, i, x)) <==> Inv(x.cache, x.live)
  {
    var k' := Put(k, i, x);
    assert View(k', i) == x;
    forall j: nat | j < |k.parts| && j != i
      ensures Inv(View(k', j).cache, View(k', j).live)
    {
      OthersKeep(k, i, x, j);
    }
  }

  lemma WriteKeeps(k: Kernel, address: nat, word: nat)
    requires KernelInv(k) && Proper(k, Write(address, word))
    ensures KernelInv(Step(k, Write(address, word)))
  {
    var k' := Step(k, Write(address, word));
    forall j: nat | j < |k.parts|
      ensures Inv(View(k', j).cache, View(k', j).live)
    {
      OwnersMayWrite(k, address, j);
      StoreKeeps(View(k, j).cache, View(k, j).live, address, word);
    }
    SamePagesKeep(k, k');
  }

  lemma GiveKeeps(k: Kernel, page: nat)
    requires KernelInv(k)
    ensures KernelInv(Step(k, Give(page)))
  {
    var k' := Step(k, Give(page));
    assert forall i, p :: SlabAt(k', i, p) <==> SlabAt(k, i, p);
    assert forall q :: Owned(k', q) ==> Owned(k, q);
    assert forall j: nat :: j < |k.parts| ==> View(k', j) == View(k, j);
  }

  // ---------------------------------------------------------------- frees

  lemma FreeWords(c: Cache, obj: nat, y: nat)
    requires y != obj
    ensures Word(Free(c, obj).words, y) == Word(c.words, y)
  {
  }

  lemma SlotElsewhere(k: Kernel, i: nat, s: nat, obj: nat, j: nat)
    requires KernelInv(k) && SlabAt(k, i, s) && IsSlot(LayoutAt(k, i), s, obj) && j < |k.parts| && j != i
    ensures forall p :: SlabAt(k, j, p) ==> !InSlots(LayoutAt(k, j), p, obj)
  {
    Aligned(k, i, s);
    SlotInPage(LayoutAt(k, i), s, obj);
    forall p: nat | SlabAt(k, j, p)
      ensures !InSlots(LayoutAt(k, j), p, obj)
    {
      SlabsApart(k, i, s, j, p, obj);
    }
  }

  lemma FreeUnseen(k: Kernel, i: nat, obj: nat, j: nat)
    requires KernelInv(k) && i < |k.parts| && obj in k.parts[i].live && j < |k.parts| && j != i
    ensures SameFreeWords(View(k, j).cache, View(k, j).live, Free(View(k, i).cache, obj).words)
  {
    var s := LiveSlot(k, i, obj);
    SlotElsewhere(k, i, s, obj, j);
    var c := View(k, j).cache;
    forall p, x | p in c.heap && IsSlot(c.layout, p, x)
      ensures Word(Free(View(k, i).cache, obj).words, x) == Word(c.words, x)
    {
      Aligned(k, j, p);
      SlotInPage(c.layout, p, x);
      assert SlabAt(k, j, p);
      FreeWords(View(k, i).cache, obj, x);
    }
  }

  lemma FreeEachIff(k: Kernel, i: nat, obj: nat, y: System)
    requires KernelInv(k) && i < |k.parts| && obj in k.parts[i].live && y == F.Step(View(k, i), FreeOp(obj))
    ensures EachInv(Put(k, i, y)) <==> FreeGuard(View(k, i).cache, obj)
  {
    forall j: nat | j < |k.parts| && j != i
      ensures SameFreeWords(View(k, j).cache, View(k, j).live, y.cache.words)
    {
      FreeUnseen(k, i, obj, j);
    }
    PutKeepsIff(k, i, y);
    FreeKeepsIff(View(k, i).cache, View(k, i).live, obj);
  }

  lemma PutSamePages(k: Kernel, i: nat, x: System)
    requires i < |k.parts| && x.cache.layout == LayoutAt(k, i) && x.cache.heap.Keys == k.parts[i].cache.heap.Keys
    ensures SamePages(k, Put(k, i, x))
  {
  }

  lemma FreeStepIff(k: Kernel, i: nat, obj: nat)
    requires KernelInv(k) && Proper(k, FreeTo(i, obj))
    ensures KernelInv(Step(k, FreeTo(i, obj))) <==> Guard(k, FreeTo(i, obj))
  {
    var y := F.Step(View(k, i), FreeOp(obj));
    FreeEachIff(k, i, obj, y);
    FreeKeys(View(k, i).cache, obj);
    PutSamePages(k, i, y);
    SamePagesKeep(k, Put(k, i, y));
  }

  // ---------------------------------------------------------------- new pages

  /** `k'` has one more owned page, a slab of cache `i`, or another owner's when `i` is -1. */
  ghost predicate OneMorePage(k: Kernel, k': Kernel, i: int, page: nat) {
    && !Owned(k, page) && -1 <= i < |k.parts| == |k'.parts|
    && (forall j: nat :: j < |k.parts| ==> LayoutAt(k', j) == LayoutAt(k, j))
    && (forall j, p :: SlabAt(k', j, p) <==> SlabAt(k, j, p) || (0 <= j == i && p == page))
    && (forall q :: q in k'.taken <==> q in k.taken || (i == -1 && q == page))
  }

  /** The new page is not behind an overrunning slab, and no owned page is behind it if its
      own objects overrun it. */
  ghost predicate Room(k: Kernel, i: int, page: nat)
    requires -1 <= i < |k.parts|
  {
    NotBehind(k, page) && (i >= 0 && Overruns(LayoutAt(k, i)) ==> !Owned(k, page + PAGE_SIZE))
  }

  lemma OwnedMore(k: Kernel, k': Kernel, i: int, page: nat, q: nat)
    requires OneMorePage(k, k', i, page)
    ensures Owned(k', q) <==> Owned(k, q) || q == page
  {
    if j :| 0 <= j < |k.parts| && SlabAt(k, j, q) {
      assert SlabAt(k', j, q);
    }
    if i >= 0 {
      assert SlabAt(k', i, page);
    }
  }

  lemma OneOwnerMore(k: Kernel, k': Kernel, i: int, page: nat)
    requires OneOwner(k) && OneMorePage(k, k', i, page) && page % PAGE_SIZE == 0
    ensures OneOwner(k')
  {
    assert forall j, p :: SlabAt(k, j, p) ==> Owned(k, p);
  }

  lemma SeparateMore(k: Kernel, k': Kernel, i: int, page: nat)
    requires KernelInv(k) && OneMorePage(k, k', i, page) && page % PAGE_SIZE == 0 && Room(k, i, page)
    requires i >= 0 ==> Fits(LayoutAt(k, i))
    ensures Separate(k')
  {
    forall j, p: nat, q: nat | SlabAt(k', j, p) && Owned(k', q) && q != p
      ensures !Spills(LayoutAt(k', j), p, q)
    {
      OwnedMore(k, k', i, page, q);
      AlignedOwned(k, q, page);
      if p == page && j == i {
        SpillsIff(LayoutAt(k, i), p, q);
      } else if q == page {
        Aligned(k, j, p);
        SpillsIff(LayoutAt(k, j), p, q);
      }
    }
  }

  lemma AlignedOwned(k: Kernel, q: nat, page: nat)
    requires KernelInv(k) && (Owned(k, q) || q == page) && page % PAGE_SIZE == 0
    ensures q % PAGE_SIZE == 0
  {
    if q !in k.taken && q != page {
      var i: nat :| i < |k.parts| && SlabAt(k, i, q);
      Aligned(k, i, q);
    }
  }

  lemma NoRoomMeets(k: Kernel, k': Kernel, i: int, page: nat)
    requires KernelInv(k) && OneMorePage(k, k', i, page) && page % PAGE_SIZE == 0 && !Room(k, i, page)
    requires i >= 0 ==> Fits(LayoutAt(k, i))
    ensures !Separate(k')
  {
    if !NotBehind(k, page) {
      var j: nat, p: nat :| SlabAt(k, j, p) && Overruns(LayoutAt(k, j)) && p + PAGE_SIZE == page;
      Aligned(k, j, p);
      OwnedMore(k, k', i, page, page);
      SpillsIff(LayoutAt(k, j), p, page);
      assert SlabAt(k', j, p);
    } else {
      var q := page + PAGE_SIZE;
      OwnedMore(k, k', i, page, q);
      SpillsIff(LayoutAt(k, i), page, q);
      assert SlabAt(k', i, page);
    }
  }

  lemma TakeStepIff(k: Kernel, page: nat)
    requires KernelInv(k) && Proper(k, Take(page))
    ensures KernelInv(Step(k, Take(page))) <==> Guard(k, Take(page))
  {
    var k' := Step(k, Take(page));
    assert OneMorePage(k, k', -1, page);
    assert forall j: nat :: j < |k.parts| ==> View(k', j) == View(k, j);
    OneOwnerMore(k, k', -1, page);
    if Room(k, -1, page) {
      SeparateMore(k, k', -1, page);
    } else {
      NoRoomMeets(k, k', -1, page);
    }
  }

  // ---------------------------------------------------------------- allocations

  lemma AllocWords(c: Cache, page: nat)
    ensures Alloc(c, page).cache.words == if Grows(c, page) then ChainWords(c.words, Slots(c.layout, page)) else c.words
  {
  }

  lemma NewSlotsUnseen(k: Kernel, i: nat, page: nat, j: nat, p: nat, x: nat)
    requires KernelInv(k) && i < |k.parts| && page % PAGE_SIZE == 0 && !Owned(k, page) && Room(k, i, page)
    requires Fits(LayoutAt(k, i)) && SlabAt(k, j, p) && IsSlot(LayoutAt(k, j), p, x)
    ensures !IsSlot(LayoutAt(k, i), page, x)
  {
    Aligned(k, j, p);
    assert Owned(k, p);
    SpillsIff(LayoutAt(k, i), page, p);
    SpillsIff(LayoutAt(k, j), p, page);
    SlotInPage(LayoutAt(k, j), p, x);
    RegionsApart(LayoutAt(k, j), p, LayoutAt(k, i), page, x);
    if IsSlot(LayoutAt(k, i), page, x) {
      SlotInPage(LayoutAt(k, i), page, x);
    }
  }

  lemma AllocUnseen(k: Kernel, i: nat, page: nat, j: nat)
    requires KernelInv(k) && i < |k.parts| && j < |k.parts| && j != i && page % PAGE_SIZE == 0
    requires Grows(View(k, i).cache, page) ==> !Owned(k, page) && Room(k, i, page)
    ensures SameFreeWords(View(k, j).cache, View(k, j).live, Alloc(View(k, i).cache, page).cache.words)
  {
    var c, c' := View(k, i).cache, View(k, j).cache;
    AllocWords(c, page);
    if Grows(c, page) {
      PagesOk(c, View(k, i).live);
      var slots := Slots(c.layout, page);
      SlotsOf(c.layout, page, slots);
      ChainWordsSpec(c.words, slots);
      forall p, x | p in c'.heap && IsSlot(c'.layout, p, x)
        ensures x !in slots
      {
        assert SlabAt(k, j, p);
        NewSlotsUnseen(k, i, page, j, p, x);
      }
    }
  }

  lemma RoomIsSpaced(k: Kernel, i: nat, page: nat)
    requires i < |k.parts| && Room(k, i, page)
    ensures Spaced(LayoutAt(k, i), k.parts[i].cache.heap.Keys, page)
  {
    forall q | q in k.parts[i].cache.heap.Keys
      ensures SlabAt(k, i, q) && Owned(k, q)
    {
      assert SlabAt(k, i, q);
    }
  }

  lemma AllocEach(k: Kernel, i: nat, page: nat, y: System)
    requires KernelInv(k) && Proper(k, AllocFrom(i, page)) && Guard(k, AllocFrom(i, page))
    requires y == F.Step(View(k, i), AllocOp(page))
    ensures EachInv(Put(k, i, y))
  {
    var x := View(k, i);
    forall j: nat | j < |k.parts| && j != i
      ensures SameFreeWords(View(k, j).cache, View(k, j).live, y.cache.words)
    {
      AllocUnseen(k, i, page, j);
    }
    PutKeepsIff(k, i, y);
    if Grows(x.cache, page) {
      RoomIsSpaced(k, i, page);
    }
    FreshOfUnowned(k, i, page);
    AllocKeeps(x.cache, x.live, page);
  }

  lemma FreshOfUnowned(k: Kernel, i: nat, page: nat)
    requires Proper(k, AllocFrom(i, page))
    ensures FreshPage(View(k, i).cache, page)
  {
    assert SlabAt(k, i, page) ==> Owned(k, page);
  }

  lemma PutMorePage(k: Kernel, i: nat, x: System, page: nat)
    requires i < |k.parts| && x.cache.layout == LayoutAt(k, i) && !Owned(k, page)
    requires x.cache.heap.Keys == k.parts[i].cache.heap.Keys + {page}
    ensures OneMorePage(k, Put(k, i, x), i, page)
  {
  }

  lemma AllocPages(k: Kernel, i: nat, page: nat, y: System)
    requires EachInv(k) && Proper(k, AllocFrom(i, page)) && y == F.Step(View(k, i), AllocOp(page))
    ensures if Grows(View(k, i).cache, page) then OneMorePage(k, Put(k, i, y), i, page) else SamePages(k, Put(k, i, y))
  {
    PagesOk(View(k, i).cache, View(k, i).live);
    AllocKeys(View(k, i).cache, page);
    if Grows(View(k, i).cache, page) {
      PutMorePage(k, i, y, page);
    } else {
      PutSamePages(k, i, y);
    }
  }

  lemma AllocStepIff(k: Kernel, i: nat, page: nat)
    requires KernelInv(k) && Proper(k, AllocFrom(i, page))
    ensures KernelInv(Step(k, AllocFrom(i, page))) <==> Guard(k, AllocFrom(i, page))
  {
    var y := F.Step(View(k, i), AllocOp(page));
    var k' := Put(k, i, y);
    AllocPages(k, i, page, y);
    Fitting(k, i);
    if !Guard(k, AllocFrom(i, page)) {
      NoRoomMeets(k, k', i, page);
    } else {
      AllocEach(k, i, page, y);
      if Grows(View(k, i).cache, page) {
        OneOwnerMore(k, k', i, page);
        SeparateMore(k, k', i, page);
      } else {
        SamePagesKeep(k, k');
      }
    }
  }

  lemma Fitting(k: Kernel, i: nat)
    requires EachInv(k) && i < |k.parts|
    ensures Fits(LayoutAt(k, i))
  {
    PagesOk(View(k, i).cache, View(k, i).live);
  }

  /** One step of a sound kernel leads to a sound kernel exactly under its guard. */
  lemma StepKeepsIff(k: Kernel, op: Op)
    requires KernelInv(k) && Proper(k, op)
    ensures KernelInv(Step(k, op)) <==> Guard(k, op)
  {
    match op
    case AllocFrom(i, page) => AllocStepIff(k, i, page);
    case FreeTo(i, obj) => FreeStepIff(k, i, obj);
    case Take(page) => TakeStepIff(k, page);
    case Give(page) => GiveKeeps(k, page);
    case Write(address, word) => WriteKeeps(k, address, word);
  }

  // ---------------------------------------------------------------- runs

  function Run(k: Kernel, ops: seq<Op>): Kernel
    decreases |ops|
  {
    if ops == [] then k else Run(Step(k, ops[0]), ops[1..])
  }

  ghost predicate AllProper(k: Kernel, ops: seq<Op>)
    decreases |ops|
  {
    ops == [] || (Proper(k, ops[0]) && AllProper(Step(k, ops[0]), ops[1..]))
  }

  ghost predicate Disciplined(k: Kernel, ops: seq<Op>)
    requires AllProper(k, ops)
    decreases |ops|
  {
    ops == [] || (Guard(k, ops[0]) && Disciplined(Step(k, ops[0]), ops[1..]))
  }

  ghost predicate Always(k: Kernel, ops: seq<Op>)
    decreases |ops|
  {
    KernelInv(k) && (ops == [] || Always(Step(k, ops[0]), ops[1..]))
  }

  /** From a sound kernel, every state of a run is sound if and only if every step of the run
      meets its guard. */
  lemma {:induction false} RunKeepsIff(k: Kernel, ops: seq<Op>)
    requires KernelInv(k) && AllProper(k, ops)
    ensures Always(k, ops) <==> Disciplined(k, ops)
    decreases |ops|
  {
    if ops != [] {
      StepKeepsIff(k, ops[0]);
      if KernelInv(Step(k, ops[0])) {
        RunKeepsIff(Step(k, ops[0]), ops[1..]);
      }
    }
  }

  /** At boot the caches are empty and any pages may already be taken. */
  lemma BootKernel(k: Kernel)
    requires forall q :: q in k.taken ==> q % PAGE_SIZE == 0
    requires forall i: nat :: i < |k.parts| ==>
      Fits(LayoutAt(k, i)) && k.parts[i] == System(Cache(LayoutAt(k, i), map[], k.words, 0, 0, 0, 0), {})
    ensures KernelInv(k)
  {
    forall i: nat | i < |k.parts|
      ensures Inv(View(k, i).cache, View(k, i).live)
    {
      EmptyCache(LayoutAt(k, i), k.words);
    }
    assert forall i, p :: !SlabAt(k, i, p);
  }

  // ---------------------------------------------------------------- kfree

  /** Whether a partial slab of the cache has `ptr` in range. */
  predicate OnPartial(c: Cache, ptr: nat) {
    Find(c, c.partial, ptr, |c.heap|) != 0
  }

  /** `kfree` from cache `i` on: the first cache with a partial slab in range frees. */
  function Kfree(k: Kernel, ptr: nat, i: nat): Kernel
    requires i <= |k.parts|
    decreases |k.parts| - i
  {
    if ptr == 0 || i == |k.parts| then k
    else if OnPartial(View(k, i).cache, ptr) then Step(k, FreeTo(i, ptr))
    else Kfree(k, ptr, i + 1)
  }

  lemma {:induction false} FindNone(c: Cache, x: nat, obj: nat, n: nat)
    requires 0 !in c.heap && forall p :: p in c.heap ==> !InRange(c, p, obj)
    ensures Find(c, x, obj, n) == 0
    decreases n
  {
    if x in c.heap && n > 0 {
      FindNone(c, c.heap[x].next, obj, n - 1);
    }
  }

  lemma ObjectsFrom(c: Cache, live: set<nat>, p: nat)
    requires Ordered(c, live) && p in c.heap
    ensures c.heap[p].objects == p + c.layout.offset && 0 !in c.heap
  {
    var ps, fs, es, fls :| InvWith(c, live, ps, fs, es, fls);
    assert SlabOk(c.layout, c.words, live, p, c.heap[p], fls[p]);
  }

  /** No other cache takes a live object for its own. */
  lemma OthersPass(k: Kernel, i: nat, ptr: nat, j: nat)
    requires KernelInv(k) && i < |k.parts| && ptr in k.parts[i].live && j < |k.parts| && j != i
    ensures !OnPartial(View(k, j).cache, ptr)
  {
    var s := LiveSlot(k, i, ptr);
    SlotElsewhere(k, i, s, ptr, j);
    var c := View(k, j).cache;
    PagesOk(c, View(k, j).live);
    forall p | p in c.heap
      ensures !InRange(c, p, ptr)
    {
      assert SlabAt(k, j, p);
      ObjectsFrom(c, View(k, j).live, p);
    }
    FindNone(c, c.partial, ptr, |c.heap|);
  }

  /** The object's own cache finds it exactly when its slab is partial. */
  lemma OwnFinds(c: Cache, live: set<nat>, ptr: nat)
    requires Ordered(c, live) && ptr in live
    ensures ptr != 0 && (OnPartial(c, ptr) <==> Inuse(c, Owner(c, ptr)) < c.layout.total)
  {
    var ps, fs, es, fls :| InvWith(c, live, ps, fs, es, fls);
    assert Covered(c.layout, c.heap, live);
    var s :| s in c.heap && IsSlot(c.layout, s, ptr);
    OwnerSpec(c, live, ps, fs, es, fls, s, ptr);
    ListLength(c.heap, c.partial, ps);
    forall p | p in c.heap
      ensures InRange(c, p, ptr) <==> p == s
    {
      OwnerRange(c, live, fls, p, s, ptr);
    }
    FindSpec(c, ps, c.partial, 0, s, ptr, |c.heap|);
  }

  lemma {:induction false} KfreeFrom(k: Kernel, i: nat, ptr: nat, j: nat)
    requires i < |k.parts| && ptr != 0 && j <= |k.parts|
    requires forall n: nat :: n < |k.parts| && n != i ==> !OnPartial(View(k, n).cache, ptr)
    ensures Kfree(k, ptr, j) == if j <= i && OnPartial(View(k, i).cache, ptr) then Step(k, FreeTo(i, ptr)) else k
    decreases |k.parts| - j
  {
    if j < |k.parts| {
      KfreeFrom(k, i, ptr, j + 1);
    }
  }

  lemma KfreeIs(k: Kernel, i: nat, ptr: nat, partial: bool)
    requires KernelInv(k) && i < |k.parts| && ptr in k.parts[i].live
    requires partial == (Inuse(View(k, i).cache, Owner(View(k, i).cache, ptr)) < LayoutAt(k, i).total)
    ensures Kfree(k, ptr, 0) == if partial then Step(k, FreeTo(i, ptr)) else k
  {
    OwnFinds(View(k, i).cache, View(k, i).live, ptr);
    forall j: nat | j < |k.parts| && j != i
      ensures !OnPartial(View(k, j).cache, ptr)
    {
      OthersPass(k, i, ptr, j);
    }
    KfreeFrom(k, i, ptr, 0);
  }

  /** `kfree` of a live object frees it, to its own cache, exactly when its slab is partial; an
      object of a full slab stays allocated. Either way the kernel stays sound. */
  lemma KfreeFreesIff(k: Kernel, i: nat, ptr: nat, partial: bool)
    requires KernelInv(k) && i < |k.parts| && ptr in k.parts[i].live
    requires partial == (Inuse(View(k, i).cache, Owner(View(k, i).cache, ptr)) < LayoutAt(k, i).total)
    ensures var k' := Kfree(k, ptr, 0);
      && k' == (if partial then Step(k, FreeTo(i, ptr)) else k)
      && (k' == k <==> !partial)
      && KernelInv(k')
  {
    KfreeIs(k, i, ptr, partial);
    StepKeepsIff(k, FreeTo(i, ptr));
    FreeChanges(k, i, ptr);
  }

  lemma FreeChanges(k: Kernel, i: nat, obj: nat)
    requires i < |k.parts| && obj in k.parts[i].live
    ensures Step(k, FreeTo(i, obj)) != k
  {
    assert obj !in Step(k, FreeTo(i, obj)).parts[i].live;
  }
}
