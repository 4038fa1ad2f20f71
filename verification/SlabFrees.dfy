/** Returning objects to a slab cache: finding the slab, exactly when the lists stay in
    order, and what holds over every run of allocations and frees. */
module SlabFrees {
  import opened SlabLists
  import opened SlabCache
  import opened SlabSafety
  import opened SlabMoves
  import opened SlabRuns

  lemma OwnerRange(c: Cache, live: set<nat>, fls: map<nat, seq<nat>>, p: nat, s: nat, obj: nat)
    requires Fits(c.layout) && SlabsOk(c, live, fls) && p in c.heap && s in c.heap && IsSlot(c.layout, s, obj)
    ensures InRange(c, p, obj) <==> p == s
  {
    assert SlabOk(c.layout, c.words, live, p, c.heap[p], fls[p]);
    SlotInPage(c.layout, s, obj);
    if p != s {
      PageApart(p, s, obj, c.layout.offset, c.layout.total * c.layout.aligned);
    }
  }

  lemma PageApart(p: nat, s: nat, x: nat, offset: nat, size: nat)
    requires p % PAGE_SIZE == 0 && s % PAGE_SIZE == 0 && p != s && size <= PAGE_SIZE
    requires s + offset <= x < s + offset + size
    ensures !(p + offset <= x < p + offset + size)
  {
  }

  lemma FindNext(c: Cache, x: nat, obj: nat, n: nat, m: nat, next: nat)
    requires x in c.heap && n == m + 1 && next == c.heap[x].next && !InRange(c, x, obj)
    ensures Find(c, x, obj, n) == Find(c, next, obj, m)
  {
  }

  /** Searching a list finds the only slab in range, if the list holds it. */
  lemma {:induction false} FindSpec(c: Cache, q: seq<nat>, head: nat, i: nat, s: nat, obj: nat, n: nat)
    requires Dll(c.heap, head, q) && 0 !in c.heap && i <= |q| <= i + n
    requires forall p :: p in c.heap ==> (InRange(c, p, obj) <==> p == s)
    requires forall j :: 0 <= j < i ==> q[j] != s
    ensures Find(c, At(q, i), obj, n) == if s in q then s else 0
    decreases n
  {
    if i < |q| && q[i] != s {
      var m, next := n - 1, At(q, i + 1);
      FindSpec(c, q, head, i + 1, s, obj, m);
      FindNext(c, q[i], obj, n, m, next);
    }
  }

  lemma ListLength(h: Heap, head: nat, q: seq<nat>)
    requires Dll(h, head, q)
    ensures |q| <= |h|
  {
    SetSize(q);
    assert Elements(q) <= h.Keys;
    SubsetSize(Elements(q), h.Keys);
  }

  /** The search for a live object's slab, through the partial and then the full list,
      finds the slab it is a slot of. */
  lemma OwnerSpec(c: Cache, live: set<nat>, ps: seq<nat>, fs: seq<nat>, es: seq<nat>, fls: map<nat, seq<nat>>, s: nat, obj: nat)
    requires InvWith(c, live, ps, fs, es, fls) && s in c.heap && obj in live && IsSlot(c.layout, s, obj)
    ensures Owner(c, obj) == s && (s in ps || s in fs) && Inuse(c, s) > 0 && obj != 0
  {
    InuseOfLive(c, live, fls, s, obj);
    SlotInPage(c.layout, s, obj);
    ListLength(c.heap, c.partial, ps);
    ListLength(c.heap, c.full, fs);
    forall p | p in c.heap
      ensures InRange(c, p, obj) <==> p == s
    {
      OwnerRange(c, live, fls, p, s, obj);
    }
    FindSpec(c, ps, c.partial, 0, s, obj, |c.heap|);
    FindSpec(c, fs, c.full, 0, s, obj, |c.heap|);
  }

  /** When a free of `obj` leaves the cache in order: its slab is partial, or it heads the
      full list and holds at least two objects, or it is further down the full list and
      holds one. */
  predicate FreeGuard(c: Cache, obj: nat) {
    var s := Owner(c, obj);
    Inuse(c, s) < c.layout.total || (s == c.full <==> c.layout.total >= 2)
  }

  // ---------------------------------------------------------------- after the push

  ghost predicate Loose(c: Cache, live: set<nat>, ps: seq<nat>, fs: seq<nat>, es: seq<nat>, fls: map<nat, seq<nat>>) {
    Fits(c.layout) && ListsOk(c, ps, fs, es) && SlabsOk(c, live, fls) && c.objects == |live|
  }

  /** `c1` is `c` with one object fewer in use in slab `s`. */
  ghost predicate OneLess(c: Cache, c1: Cache, s: nat) {
    && c1.layout == c.layout && Inuse(c1, s) == Inuse(c, s) - 1
    && forall x :: x != s ==> Inuse(c1, x) == Inuse(c, x)
  }

  lemma PushLists(c: Cache, ps: seq<nat>, fs: seq<nat>, es: seq<nat>, s: nat, obj: nat)
    requires ListsOk(c, ps, fs, es) && s in c.heap && c.heap[s].inuse > 0
    ensures ListsOk(PushObject(c, s, obj), ps, fs, es) && OneLess(c, PushObject(c, s, obj), s)
  {
    ListsFrame(c, PushObject(c, s, obj), ps, fs, es, s);
  }

  lemma OneFewer(live: set<nat>, obj: nat)
    requires obj in live
    ensures |live - {obj}| == |live| - 1
  {
    assert live == (live - {obj}) + {obj};
  }

  lemma PushLoose(c: Cache, live: set<nat>, ps: seq<nat>, fs: seq<nat>, es: seq<nat>, fls: map<nat, seq<nat>>, s: nat, obj: nat)
    requires InvWith(c, live, ps, fs, es, fls) && s in c.heap && obj in live && IsSlot(c.layout, s, obj)
    ensures Loose(PushObject(c, s, obj), live - {obj}, ps, fs, es, fls[s := [obj] + fls[s]])
    ensures OneLess(c, PushObject(c, s, obj), s)
  {
    PushKeeps(c, live, fls, s, obj);
    PushLists(c, ps, fs, es, s, obj);
    OneFewer(live, obj);
  }

  lemma StayPartial(c: Cache, c1: Cache, live: set<nat>, ps: seq<nat>, fs: seq<nat>, es: seq<nat>, fls: map<nat, seq<nat>>, s: nat)
    requires Loose(c1, live, ps, fs, es, fls) && CountsOk(c, ps, fs, es) && OneLess(c, c1, s) && s in ps && Inuse(c1, s) > 0
    ensures Ordered(c1, live)
  {
    assert CountsOk(c1, ps, fs, es);
    assert InvWith(c1, live, ps, fs, es, fls);
  }

  /** An emptied slab goes from the partial to the free list. */
  lemma EmptiedPartial(c: Cache, c1: Cache, live: set<nat>, ps: seq<nat>, fs: seq<nat>, es: seq<nat>, fls: map<nat, seq<nat>>, k: nat)
    requires Loose(c1, live, ps, fs, es, fls) && k < |ps| && CountsOk(c, ps, fs, es) && OneLess(c, c1, ps[k]) && Inuse(c1, ps[k]) == 0
    ensures Ordered(PartialToFree(c1, ps[k]), live)
  {
    var s, c2 := ps[k], PartialToFree(c1, ps[k]);
    Reorder(c1.heap, c1.partial, ps, c1.full, fs, c1.free, es);
    MoveThree(c1.heap, c1.partial, ps, k, c1.free, es, c1.full, fs);
    Reorder(c2.heap, c2.partial, Without(ps, k), s, [s] + es, c1.full, fs);
    SlabsOkFrame(c1, c2, live, fls);
    EmptiedCounts(c, c1, c2, ps, fs, es, k);
    assert InvWith(c2, live, Without(ps, k), fs, [s] + es, fls);
  }

  lemma EmptiedCounts(c: Cache, c1: Cache, c2: Cache, ps: seq<nat>, fs: seq<nat>, es: seq<nat>, k: nat)
    requires k < |ps| && Distinct(ps) && Apart(ps, fs) && Apart(ps, es) && CountsOk(c, ps, fs, es)
    requires OneLess(c, c1, ps[k]) && Inuse(c1, ps[k]) == 0 && SameData(c1.heap, c2.heap) && c2.layout == c1.layout
    ensures CountsOk(c2, Without(ps, k), fs, [ps[k]] + es)
  {
    SameCounts(c1, c2);
    WithoutDistinct(ps, k);
    assert ps[k] in ps;
  }

  /** The head of the full list goes back to the partial list. */
  lemma HeadOfFull(c: Cache, c1: Cache, live: set<nat>, ps: seq<nat>, fs: seq<nat>, es: seq<nat>, fls: map<nat, seq<nat>>)
    requires Loose(c1, live, ps, fs, es, fls) && fs != [] && CountsOk(c, ps, fs, es) && OneLess(c, c1, fs[0]) && Inuse(c1, fs[0]) > 0
    ensures Ordered(FullToPartial(c1, fs[0]), live)
  {
    var s, c2 := fs[0], FullToPartial(c1, fs[0]);
    Reorder(c1.heap, c1.partial, ps, c1.full, fs, c1.free, es);
    MoveThree(c1.heap, c1.full, fs, 0, c1.partial, ps, c1.free, es);
    assert Without(fs, 0) == fs[1..];
    Reorder(c2.heap, c2.full, fs[1..], s, [s] + ps, c1.free, es);
    SlabsOkFrame(c1, c2, live, fls);
    HeadCounts(c, c1, c2, ps, fs, es);
    assert InvWith(c2, live, [s] + ps, fs[1..], es, fls);
  }

  lemma HeadCounts(c: Cache, c1: Cache, c2: Cache, ps: seq<nat>, fs: seq<nat>, es: seq<nat>)
    requires fs != [] && Distinct(fs) && Apart(ps, fs) && Apart(fs, es) && CountsOk(c, ps, fs, es)
    requires OneLess(c, c1, fs[0]) && Inuse(c1, fs[0]) > 0 && SameData(c1.heap, c2.heap) && c2.layout == c1.layout
    ensures CountsOk(c2, [fs[0]] + ps, fs[1..], es)
  {
    SameCounts(c1, c2);
    assert fs[0] in fs && fs[0] !in fs[1..] && forall x :: x in fs[1..] ==> x in fs;
    assert fs[0] !in ps;
  }

  /** A one-object slab further down the full list goes to the free list: it has a
      predecessor, so unlinking it as if from the partial list happens to be right. */
  lemma EmptiedFull(c: Cache, c1: Cache, live: set<nat>, ps: seq<nat>, fs: seq<nat>, es: seq<nat>, fls: map<nat, seq<nat>>, k: nat)
    requires Loose(c1, live, ps, fs, es, fls) && 0 < k < |fs| && CountsOk(c, ps, fs, es) && OneLess(c, c1, fs[k]) && Inuse(c1, fs[k]) == 0
    ensures Ordered(PartialToFree(c1, fs[k]), live)
  {
    var s, c2 := fs[k], PartialToFree(c1, fs[k]);
    Reorder(c1.heap, c1.partial, ps, c1.full, fs, c1.free, es);
    MoveThree(c1.heap, c1.full, fs, k, c1.free, es, c1.partial, ps);
    assert PrevOf(c1.heap, s) == fs[k - 1] != 0;
    Reorder(c2.heap, c1.full, Without(fs, k), s, [s] + es, c1.partial, ps);
    SlabsOkFrame(c1, c2, live, fls);
    EmptiedFullCounts(c, c1, c2, ps, fs, es, k);
    assert InvWith(c2, live, ps, Without(fs, k), [s] + es, fls);
  }

  lemma EmptiedFullCounts(c: Cache, c1: Cache, c2: Cache, ps: seq<nat>, fs: seq<nat>, es: seq<nat>, k: nat)
    requires k < |fs| && Distinct(fs) && Apart(ps, fs) && Apart(fs, es) && CountsOk(c, ps, fs, es)
    requires OneLess(c, c1, fs[k]) && Inuse(c1, fs[k]) == 0 && SameData(c1.heap, c2.heap) && c2.layout == c1.layout
    ensures CountsOk(c2, ps, Without(fs, k), [fs[k]] + es)
  {
    SameCounts(c1, c2);
    WithoutDistinct(fs, k);
    assert fs[k] in fs;
  }

  // ---------------------------------------------------------------- exactly when a free is sound

  lemma FreeIs(c: Cache, c1: Cache, s: nat, obj: nat)
    requires Owner(c, obj) == s && obj != 0 && s in c.heap && c1 == PushObject(c, s, obj)
    ensures Free(c, obj) == if c1.heap[s].inuse == 0 then PartialToFree(c1, s)
                            else if s == c.full then FullToPartial(c1, s)
                            else c1
  {
  }

  /** The three situations in which freeing keeps the invariant. */
  lemma FreeKeepsFrom(c: Cache, c1: Cache, live: set<nat>, ps: seq<nat>, fs: seq<nat>, es: seq<nat>, fls: map<nat, seq<nat>>, s: nat, c': Cache)
    requires Loose(c1, live, ps, fs, es, fls) && CountsOk(c, ps, fs, es) && OneLess(c, c1, s) && c1.full == c.full
    requires s in ps || (s in fs && (s == c.full <==> c.layout.total >= 2))
    requires c' == if Inuse(c1, s) == 0 then PartialToFree(c1, s) else if s == c.full then FullToPartial(c1, s) else c1
    ensures Ordered(c', live)
  {
    if s in ps {
      var k :| 0 <= k < |ps| && ps[k] == s;
      if Inuse(c1, s) == 0 {
        EmptiedPartial(c, c1, live, ps, fs, es, fls, k);
      } else {
        assert s != c.full;
        StayPartial(c, c1, live, ps, fs, es, fls, s);
      }
    } else {
      var k :| 0 <= k < |fs| && fs[k] == s;
      if k == 0 {
        HeadOfFull(c, c1, live, ps, fs, es, fls);
      } else {
        assert s != c.full;
        EmptiedFull(c, c1, live, ps, fs, es, fls, k);
      }
    }
  }

  /** At the head of the full list a slab of one object stays listed as full although it
      is empty. */
  lemma HeadLost(c: Cache, c': Cache, live: set<nat>, s: nat)
    requires c'.full == s != 0 && Inuse(c', s) == 0 && c'.layout.total > 0
    ensures !Ordered(c', live)
  {
  }

  /** Further down the full list a slab stays listed as full although it has room. */
  lemma NotMovedBack(c1: Cache, live: set<nat>, fs: seq<nat>, k: nat)
    requires Dll(c1.heap, c1.full, fs) && k < |fs| && Inuse(c1, fs[k]) < c1.layout.total
    ensures !Ordered(c1, live)
  {
    forall ps', fs', es', fls'
      ensures !InvWith(c1, live, ps', fs', es', fls')
    {
      if Dll(c1.heap, c1.full, fs') {
        DllUnique(c1.heap, c1.full, fs, fs', k);
        assert fs'[k] in fs';
      }
    }
  }

  lemma UnlinkKeepsInuse(c: Cache, s: nat)
    ensures Inuse(PartialToFree(c, s), s) == Inuse(c, s)
  {
  }

  lemma FreeBreaksFrom(c: Cache, c1: Cache, live: set<nat>, ps: seq<nat>, fs: seq<nat>, es: seq<nat>, fls: map<nat, seq<nat>>, s: nat, c': Cache)
    requires Loose(c1, live, ps, fs, es, fls) && CountsOk(c, ps, fs, es) && OneLess(c, c1, s) && c1.full == c.full
    requires s in fs && !(s == c.full <==> c.layout.total >= 2)
    requires c' == if Inuse(c1, s) == 0 then PartialToFree(c1, s) else if s == c.full then FullToPartial(c1, s) else c1
    ensures !Ordered(c', live)
  {
    var k :| 0 <= k < |fs| && fs[k] == s;
    if s == c.full {
      UnlinkKeepsInuse(c1, s);
      HeadLost(c, c', live, s);
    } else {
      NotMovedBack(c1, live, fs, k);
    }
  }

  lemma FreeKeys(c: Cache, obj: nat)
    ensures Free(c, obj).heap.Keys == c.heap.Keys && Free(c, obj).layout == c.layout
  {
    var s := Owner(c, obj);
    if obj != 0 && s in c.heap {
      var c1 := PushObject(c, s, obj);
      LinkKeys(c1.heap, s, 0);
      LinkKeys(Unlink(c1.heap, s), s, c1.free);
      LinkKeys(Unlink(c1.heap, s), s, c1.partial);
    }
  }

  /** Freeing a live object keeps the invariant if and only if the guard holds. */
  lemma FreeKeepsIff(c: Cache, live: set<nat>, obj: nat)
    requires Inv(c, live) && obj in live
    ensures Inv(Free(c, obj), live - {obj}) <==> FreeGuard(c, obj)
  {
    FreeOrderedIff(c, live, obj);
    FreeKeys(c, obj);
  }

  lemma FreeOrderedIff(c: Cache, live: set<nat>, obj: nat)
    requires Ordered(c, live) && obj in live
    ensures Ordered(Free(c, obj), live - {obj}) <==> FreeGuard(c, obj)
  {
    var ps, fs, es, fls :| InvWith(c, live, ps, fs, es, fls);
    assert Covered(c.layout, c.heap, live);
    var s :| s in c.heap && IsSlot(c.layout, s, obj);
    OwnerSpec(c, live, ps, fs, es, fls, s, obj);
    PushLoose(c, live, ps, fs, es, fls, s, obj);
    var c1, fls' := PushObject(c, s, obj), fls[s := [obj] + fls[s]];
    FreeIs(c, c1, s, obj);
    GuardMeans(c, ps, fs, es, s, obj);
    if FreeGuard(c, obj) {
      FreeKeepsFrom(c, c1, live - {obj}, ps, fs, es, fls', s, Free(c, obj));
    } else {
      FreeBreaksFrom(c, c1, live - {obj}, ps, fs, es, fls', s, Free(c, obj));
    }
  }

  lemma GuardMeans(c: Cache, ps: seq<nat>, fs: seq<nat>, es: seq<nat>, s: nat, obj: nat)
    requires CountsOk(c, ps, fs, es) && Owner(c, obj) == s && (s in ps || s in fs) && Apart(ps, fs)
    ensures FreeGuard(c, obj) <==> s in ps || (s == c.full <==> c.layout.total >= 2)
  {
  }

  // ---------------------------------------------------------------- runs

  datatype System = System(cache: Cache, live: set<nat>)

  /** A request, with the page the page allocator would answer an allocation with, or a
      store into a word of memory. */
  datatype Op = AllocOp(page: nat) | FreeOp(obj: nat) | StoreOp(address: nat, word: nat)

  function Step(x: System, op: Op): System {
    match op
    case AllocOp(page) =>
      var r := Alloc(x.cache, page);
      System(r.cache, if r.obj == 0 then x.live else x.live + {r.obj})
    case FreeOp(obj) => System(Free(x.cache, obj), x.live - {obj})
    case StoreOp(address, word) => x.(cache := x.cache.(words := x.cache.words[address := word]))
  }

  /** A word of memory that no slab's descriptor takes up. */
  predicate OutsideDescriptors(c: Cache, address: nat) {
    address % 8 == 0 && forall p :: p in c.heap ==> !(p <= address < p + DESCRIPTOR)
  }

  /** A word of memory that is neither part of a descriptor nor the first of a slot. */
  predicate Foreign(c: Cache, address: nat) {
    OutsideDescriptors(c, address) && forall p :: p in c.heap ==> !IsSlot(c.layout, p, address)
  }

  /** While objects stay inside their pages, all words outside the slabs' pages are foreign. */
  lemma OutsideIsForeign(c: Cache, live: set<nat>, address: nat)
    requires Ordered(c, live) && !Overruns(c.layout) && address % 8 == 0
    requires forall p :: p in c.heap ==> !(p <= address < p + PAGE_SIZE)
    ensures Foreign(c, address)
  {
    PagesOk(c, live);
    forall p | p in c.heap
      ensures !IsSlot(c.layout, p, address)
    {
      if IsSlot(c.layout, p, address) {
        SlotInPage(c.layout, p, address);
        assert false;
      }
    }
  }

  /** Pages come unused and, where objects overrun their page, apart from other slabs; live
      objects are freed under the guard; stores go into live objects or foreign memory. */
  predicate Permitted(x: System, op: Op) {
    match op
    case AllocOp(page) => FreshPage(x.cache, page) && PageGuard(x.cache, page)
    case FreeOp(obj) => obj in x.live && FreeGuard(x.cache, obj)
    case StoreOp(address, _) => address in x.live || Foreign(x.cache, address)
  }

  /** The cache depends on memory only through the words of its free slots. */
  ghost predicate SameFreeWords(c: Cache, live: set<nat>, words: map<nat, nat>) {
    forall p, x :: p in c.heap && IsSlot(c.layout, p, x) && x !in live ==> Word(words, x) == Word(c.words, x)
  }

  lemma WordsKeep(c: Cache, live: set<nat>, words: map<nat, nat>)
    requires Inv(c, live) && SameFreeWords(c, live, words)
    ensures Inv(c.(words := words), live)
  {
    var ps, fs, es, fls :| InvWith(c, live, ps, fs, es, fls);
    var c' := c.(words := words);
    WordsSlabs(c, c', live, fls);
    WordsCounts(c, c', ps, fs, es);
    assert InvWith(c', live, ps, fs, es, fls);
  }

  lemma WordsCounts(c: Cache, c': Cache, ps: seq<nat>, fs: seq<nat>, es: seq<nat>)
    requires CountsOk(c, ps, fs, es) && c'.heap == c.heap && c'.layout == c.layout
    ensures CountsOk(c', ps, fs, es)
  {
    assert forall x :: Inuse(c', x) == Inuse(c, x);
  }

  lemma WordsSlabs(c: Cache, c': Cache, live: set<nat>, fls: map<nat, seq<nat>>)
    requires SlabsOk(c, live, fls) && c'.heap == c.heap && c'.layout == c.layout && SameFreeWords(c, live, c'.words)
    ensures SlabsOk(c', live, fls)
  {
    forall p | p in c.heap
      ensures SlabOk(c.layout, c'.words, live, p, c.heap[p], fls[p])
    {
      WordsSlab(c.layout, c.words, c'.words, live, p, c.heap[p], fls[p]);
    }
  }

  lemma WordsSlab(l: Layout, w: map<nat, nat>, w': map<nat, nat>, live: set<nat>, p: nat, slab: Slab, fl: seq<nat>)
    requires SlabOk(l, w, live, p, slab, fl)
    requires forall x :: IsSlot(l, p, x) && x !in live ==> Word(w', x) == Word(w, x)
    ensures SlabOk(l, w', live, p, slab, fl)
  {
    forall i | 0 <= i < |fl|
      ensures Word(w', fl[i]) == Word(w, fl[i])
    {
      assert fl[i] in fl;
    }
  }

  /** What owners write into live objects or other memory cannot disturb the cache. */
  lemma StoreKeeps(c: Cache, live: set<nat>, obj: nat, v: nat)
    requires Inv(c, live) && (obj in live || Foreign(c, obj))
    ensures Inv(c.(words := c.words[obj := v]), live)
  {
    WordsKeep(c, live, c.words[obj := v]);
  }

  function Run(x: System, ops: seq<Op>): System
    decreases |ops|
  {
    if ops == [] then x else Run(Step(x, ops[0]), ops[1..])
  }

  predicate Disciplined(x: System, ops: seq<Op>)
    decreases |ops|
  {
    ops == [] || (Permitted(x, ops[0]) && Disciplined(Step(x, ops[0]), ops[1..]))
  }

  lemma StepKeeps(x: System, op: Op)
    requires Inv(x.cache, x.live) && Permitted(x, op)
    ensures Inv(Step(x, op).cache, Step(x, op).live)
  {
    match op {
      case AllocOp(page) => AllocKeeps(x.cache, x.live, page);
      case FreeOp(obj) => FreeKeepsIff(x.cache, x.live, obj);
      case StoreOp(address, word) => StoreKeeps(x.cache, x.live, address, word);
    }
  }

  /** Over every disciplined run the lists, chains and counts stay in order, and no object
      shares memory with a descriptor. */
  lemma {:induction false} RunKeeps(x: System, ops: seq<Op>)
    requires Inv(x.cache, x.live) && Disciplined(x, ops)
    ensures Inv(Run(x, ops).cache, Run(x, ops).live)
    decreases |ops|
  {
    if ops != [] {
      StepKeeps(x, ops[0]);
      RunKeeps(Step(x, ops[0]), ops[1..]);
    }
  }

  /** A cache just created holds nothing. */
  lemma EmptyCache(l: Layout, words: map<nat, nat>)
    requires Fits(l)
    ensures Inv(Cache(l, map[], words, 0, 0, 0, 0), {})
  {
    var c := Cache(l, map[], words, 0, 0, 0, 0);
    assert InvWith(c, {}, [], [], [], map[]);
  }

  /** In a cache whose slabs hold a single object, such as the one for 2048-byte objects,
      the very first object allocated cannot be freed soundly. */
  lemma FirstFreeBreaks(l: Layout, words: map<nat, nat>, page: nat)
    requires Fits(l) && l.total == 1 && page != 0 && page % PAGE_SIZE == 0
    ensures var r := Alloc(Cache(l, map[], words, 0, 0, 0, 0), page);
      && r.obj != 0 && Inv(r.cache, {r.obj})
      && !FreeGuard(r.cache, r.obj) && !Inv(Free(r.cache, r.obj), {})
  {
    var c := Cache(l, map[], words, 0, 0, 0, 0);
    EmptyCache(l, words);
    AllocKeeps(c, {}, page);
    AllocKeys(c, page);
    var r := Alloc(c, page);
    FirstFreeFrom(r.cache, r.obj, page, {} + {r.obj});
  }

  lemma FirstFreeFrom(c: Cache, obj: nat, page: nat, live: set<nat>)
    requires live == {obj} && Inv(c, live) && c.layout.total == 1 && c.heap.Keys == {page}
    ensures Inv(c, {obj}) && !FreeGuard(c, obj) && !Inv(Free(c, obj), {})
  {
    OnlySlabFull(c, obj, page);
    FreeKeepsIff(c, {obj}, obj);
    assert {obj} - {obj} == {};
  }

  lemma OnlySlabFull(c: Cache, obj: nat, page: nat)
    requires Ordered(c, {obj}) && c.layout.total == 1 && c.heap.Keys == {page}
    ensures !FreeGuard(c, obj)
  {
    var ps, fs, es, fls :| InvWith(c, {obj}, ps, fs, es, fls);
    assert Covered(c.layout, c.heap, {obj});
    var s :| s in c.heap && IsSlot(c.layout, s, obj);
    OwnerSpec(c, {obj}, ps, fs, es, fls, s, obj);
    assert s == page && s in fs;
    assert fs[0] in c.heap;
  }

  // ---------------------------------------------------------------- the object count

  ghost function LiveIn(l: Layout, live: set<nat>, p: nat): set<nat> {
    set x | x in live && IsSlot(l, p, x)
  }

  function SumInuse(c: Cache, q: seq<nat>): nat {
    if q == [] then 0 else Inuse(c, q[0]) + SumInuse(c, q[1..])
  }

  ghost function LiveInAll(l: Layout, live: set<nat>, q: seq<nat>): set<nat> {
    set x | x in live && exists i :: 0 <= i < |q| && IsSlot(l, q[i], x)
  }

  /** `inuse` is the number of live objects in the slab. */
  lemma InuseCountsLive(c: Cache, live: set<nat>, fls: map<nat, seq<nat>>, p: nat)
    requires Fits(c.layout) && SlabsOk(c, live, fls) && p in c.heap
    ensures Inuse(c, p) == |LiveIn(c.layout, live, p)|
  {
    var fl, slots := fls[p], Slots(c.layout, p);
    assert SlabOk(c.layout, c.words, live, p, c.heap[p], fl);
    SlotsOf(c.layout, p, slots);
    SetSize(fl);
    SetSize(slots);
    assert Elements(slots) == Elements(fl) + LiveIn(c.layout, live, p);
    assert Elements(fl) !! LiveIn(c.layout, live, p);
  }

  lemma {:induction false} SumCounts(c: Cache, live: set<nat>, fls: map<nat, seq<nat>>, q: seq<nat>)
    requires Fits(c.layout) && SlabsOk(c, live, fls) && Distinct(q) && forall i :: 0 <= i < |q| ==> q[i] in c.heap
    ensures SumInuse(c, q) == |LiveInAll(c.layout, live, q)|
    decreases |q|
  {
    if q == [] {
      assert LiveInAll(c.layout, live, q) == {};
    } else {
      var t := q[1..];
      SumCounts(c, live, fls, t);
      InuseCountsLive(c, live, fls, q[0]);
      SplitLive(c.layout, live, q);
      PartsApart(c, live, fls, q);
    }
  }

  lemma SplitLive(l: Layout, live: set<nat>, q: seq<nat>)
    requires q != []
    ensures LiveInAll(l, live, q) == LiveIn(l, live, q[0]) + LiveInAll(l, live, q[1..])
  {
    var t := q[1..];
    forall x | x in LiveInAll(l, live, q)
      ensures x in LiveIn(l, live, q[0]) + LiveInAll(l, live, t)
    {
      var i :| 0 <= i < |q| && IsSlot(l, q[i], x);
      if i > 0 {
        assert t[i - 1] == q[i];
      }
    }
    forall x | x in LiveInAll(l, live, t)
      ensures x in LiveInAll(l, live, q)
    {
      var i :| 0 <= i < |t| && IsSlot(l, t[i], x);
      assert q[i + 1] == t[i];
    }
  }

  lemma PartsApart(c: Cache, live: set<nat>, fls: map<nat, seq<nat>>, q: seq<nat>)
    requires Fits(c.layout) && SlabsOk(c, live, fls) && Distinct(q) && q != [] && forall i :: 0 <= i < |q| ==> q[i] in c.heap
    ensures LiveIn(c.layout, live, q[0]) !! LiveInAll(c.layout, live, q[1..])
  {
    var t := q[1..];
    forall x, i | 0 <= i < |t| && IsSlot(c.layout, q[0], x)
      ensures !IsSlot(c.layout, t[i], x)
    {
      assert t[i] == q[i + 1];
      if IsSlot(c.layout, t[i], x) {
        OnePage(c.layout, q[0], t[i], x);
      }
    }
  }

  /** The cache's object count is the sum of `inuse` over its partial and full slabs. */
  lemma ObjectsIsSum(c: Cache, live: set<nat>, ps: seq<nat>, fs: seq<nat>, es: seq<nat>, fls: map<nat, seq<nat>>)
    requires InvWith(c, live, ps, fs, es, fls)
    ensures c.objects == SumInuse(c, ps + fs)
  {
    var q := ps + fs;
    ConcatDistinct(ps, fs);
    SumCounts(c, live, fls, q);
    forall x | x in live
      ensures x in LiveInAll(c.layout, live, q)
    {
      LiveListed(c, live, ps, fs, es, fls, x);
    }
    assert LiveInAll(c.layout, live, q) == live;
  }

  lemma ConcatDistinct(s: seq<nat>, t: seq<nat>)
    requires Distinct(s) && Distinct(t) && Apart(s, t)
    ensures Distinct(s + t)
  {
    forall i, j | 0 <= i < j < |s + t|
      ensures (s + t)[i] != (s + t)[j]
    {
      if i < |s| <= j {
        assert s[i] in s && t[j - |s|] in t;
      }
    }
  }

  lemma LiveListed(c: Cache, live: set<nat>, ps: seq<nat>, fs: seq<nat>, es: seq<nat>, fls: map<nat, seq<nat>>, x: nat)
    requires InvWith(c, live, ps, fs, es, fls) && x in live
    ensures x in LiveInAll(c.layout, live, ps + fs)
  {
    assert Covered(c.layout, c.heap, live);
    var p :| p in c.heap && IsSlot(c.layout, p, x);
    InuseOfLive(c, live, fls, p, x);
    var q := ps + fs;
    assert p in q;
    var i :| 0 <= i < |q| && q[i] == p;
  }
}
