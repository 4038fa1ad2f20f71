/** Runs that fill whole slabs, and what goes wrong behind them: a new slab right behind one
    whose objects overrun their page, and an object freed from a full slab that is not the
    head of the full list. (For `var ok := ...; ok` see `SlabCache`.) */
module SlabFill {
  import opened SlabLists
  import opened SlabCache
  import opened SlabSafety
  import opened SlabMoves
  import opened SlabRuns
  import opened SlabFrees
  import opened SlabStores
  import opened SlabMachine
  import K = SlabKernel

  /** Slab `page` holds `n` objects and all others are full. */
  ghost predicate Filling(c: Cache, page: nat, n: nat) {
    && page in c.heap && Inuse(c, page) == n
    && forall p :: p in c.heap && p != page ==> Inuse(c, p) == c.layout.total
  }

  ghost predicate AllFull(c: Cache) {
    forall p :: p in c.heap ==> Inuse(c, p) == c.layout.total
  }

  // ---------------------------------------------------------------- one allocation

  lemma OnlyPartial(c: Cache, ps: seq<nat>, fs: seq<nat>, es: seq<nat>, page: nat, n: nat)
    requires ListsOk(c, ps, fs, es) && CountsOk(c, ps, fs, es) && Filling(c, page, n) && n < c.layout.total
    ensures if ps != [] then c.partial == page != 0 else c.partial == 0 && es != [] && c.free == es[0] == page != 0
  {
    if ps != [] {
      assert ps[0] in ps;
    } else {
      assert page in es;
      assert es[0] in es;
    }
  }

  /** The only slab with room is the one allocated from. */
  lemma NextSlab(c: Cache, live: set<nat>, page: nat, n: nat)
    requires Ordered(c, live) && Filling(c, page, n) && n < c.layout.total
    ensures var c1 := EnsureSlab(c, 0);
      && (c.partial != 0 || c.free != 0)
      && c1.partial == page && page in c1.heap && SameData(c.heap, c1.heap) && c1.layout == c.layout
  {
    var ps, fs, es, fls :| InvWith(c, live, ps, fs, es, fls);
    OnlyPartial(c, ps, fs, es, page, n);
    if ps == [] {
      ReuseLists(c, ReuseSlab(c), fs, es, es[0]);
    }
  }

  /** Taking an object from a slab counts there and nowhere else; the one that fills the slab
      puts it at the head of the full list. */
  lemma TakeCounts(c: Cache, s: nat)
    requires s in c.heap
    ensures var c' := TakeObject(c, s);
      && Inuse(c', s) == Inuse(c, s) + 1 && (forall x :: x != s ==> Inuse(c', x) == Inuse(c, x))
      && (Inuse(c', s) == c.layout.total ==> c'.full == s)
  {
    var c1 := PopObject(c, s);
    LinkData(c1.heap, s, 0);
    LinkData(Unlink(c1.heap, s), s, c1.full);
  }

  lemma FillOne(c: Cache, live: set<nat>, page: nat, n: nat)
    requires Inv(c, live) && Filling(c, page, n) && n < c.layout.total
    ensures var r := Alloc(c, 0);
      && r.obj != 0 && r.cache.heap.Keys == c.heap.Keys && r.cache.layout == c.layout
      && Filling(r.cache, page, n + 1) && (n + 1 == c.layout.total ==> r.cache.full == page)
  {
    NextSlab(c, live, page, n);
    AllocSome(c, live, 0);
    FillKept(c, EnsureSlab(c, 0), page, n);
  }

  lemma AllocSome(c: Cache, live: set<nat>, page: nat)
    requires Inv(c, live) && FreshPage(c, page) && (c.partial != 0 || c.free != 0 || page != 0)
    ensures var r, c1 := Alloc(c, page), EnsureSlab(c, page);
      r.obj != 0 && c1.partial in c1.heap && r.cache == TakeObject(c1, c1.partial)
  {
    AllocOrdered(c, live, page);
  }

  lemma FillKept(c: Cache, c1: Cache, page: nat, n: nat)
    requires Filling(c, page, n) && SameData(c.heap, c1.heap) && c1.layout == c.layout && page in c1.heap
    ensures var c' := TakeObject(c1, page);
      && c'.heap.Keys == c.heap.Keys && c'.layout == c.layout
      && Filling(c', page, n + 1) && (n + 1 == c.layout.total ==> c'.full == page)
  {
    SameCounts(c, c1);
    TakeKeys(c1, page);
    TakeCounts(c1, page);
  }

  lemma NoRoom(c: Cache, live: set<nat>)
    requires Ordered(c, live) && AllFull(c)
    ensures c.partial == 0 && c.free == 0
  {
    var ps, fs, es, fls :| InvWith(c, live, ps, fs, es, fls);
    if x :| x in ps {
      assert false;
    }
    if x :| x in es {
      assert false;
    }
  }

  lemma NewCountsZero(c: Cache, page: nat)
    requires page != 0 && page !in c.heap && c.partial == 0
    ensures var c1 := NewSlab(c, page);
      c1.partial == page && Inuse(c1, page) == 0 && forall x :: x != page ==> Inuse(c1, x) == Inuse(c, x)
  {
    var slab := Slab(0, At(Slots(c.layout, page), 0), page + c.layout.offset, 0, 0);
    var h := c.heap[page := slab];
    LinkData(h, page, 0);
  }

  lemma FillFirst(c: Cache, live: set<nat>, page: nat)
    requires Inv(c, live) && AllFull(c) && page != 0 && FreshPage(c, page)
    ensures var r := Alloc(c, page);
      && r.obj != 0 && r.cache.heap.Keys == c.heap.Keys + {page} && r.cache.layout == c.layout
      && Filling(r.cache, page, 1) && (1 == c.layout.total ==> r.cache.full == page)
  {
    NoRoom(c, live);
    PagesOk(c, live);
    AllocKeys(c, page);
    AllocSome(c, live, page);
    NewCountsZero(c, page);
    TakeCounts(NewSlab(c, page), page);
  }

  // ---------------------------------------------------------------- filling a slab

  function Rest(n: nat): seq<Op> {
    seq(n, _ => AllocOp(0))
  }

  /** Enough allocations to fill a new slab in `page`. */
  function FillOps(page: nat, total: nat): seq<Op>
    requires total > 0
  {
    [AllocOp(page)] + Rest(total - 1)
  }

  /** In `x'` slab `page` holds `n` objects, all others are full, and there are no slabs but
      `page` and those of `x`. */
  ghost predicate Grown(x: System, page: nat, n: nat, x': System) {
    var ok :=
      && Inv(x'.cache, x'.live) && Filling(x'.cache, page, n) && n <= x.cache.layout.total
      && (n == x.cache.layout.total ==> x'.cache.full == page)
      && x'.cache.layout == x.cache.layout && x'.cache.heap.Keys == x.cache.heap.Keys + {page};
    ok
  }

  lemma GrowOne(x: System, page: nat, n: nat, x': System, op: Op, m: nat, y: System)
    requires Grown(x, page, n, x') && n < x.cache.layout.total && m == n + 1 && op == AllocOp(0) && y == Step(x', op)
    ensures Permitted(x', op) && Grown(x, page, m, y)
  {
    FillOne(x'.cache, x'.live, page, n);
    assert Permitted(x', op);
    StepKeeps(x', op);
  }

  lemma GrowFirst(x: System, page: nat)
    requires Inv(x.cache, x.live) && AllFull(x.cache) && page != 0
    requires FreshPage(x.cache, page) && PageGuard(x.cache, page)
    ensures Permitted(x, AllocOp(page)) && Grown(x, page, 1, Step(x, AllocOp(page)))
  {
    PagesOk(x.cache, x.live);
    FillFirst(x.cache, x.live, page);
    StepKeeps(x, AllocOp(page));
  }

  /** The disciplined run `ops` leads from `x` to `z`. */
  ghost predicate Reaches(x: System, ops: seq<Op>, z: System) {
    var ok := Disciplined(x, ops) && z == Run(x, ops);
    ok
  }

  lemma ReachFirst(x: System, op: Op, y: System, rest: seq<Op>, z: System, ops: seq<Op>)
    requires Permitted(x, op) && y == Step(x, op) && Reaches(y, rest, z) && ops == [op] + rest
    ensures Reaches(x, ops, z)
  {
    assert ops[0] == op && ops[1..] == rest;
  }

  lemma ReachRest(x: System, op: Op, y: System, k: nat, rest: seq<Op>, z: System, n: nat, ops: seq<Op>)
    requires op == AllocOp(0) && Permitted(x, op) && y == Step(x, op) && n == k + 1
    requires rest == Rest(k) && Reaches(y, rest, z) && ops == Rest(n)
    ensures Reaches(x, ops, z)
  {
    assert ops == [op] + rest;
    ReachFirst(x, op, y, rest, z, ops);
  }

  lemma ReachNone(x: System, ops: seq<Op>)
    requires ops == Rest(0)
    ensures Reaches(x, ops, x)
  {
  }

  lemma {:induction false} GrowRest(x: System, page: nat, n: nat, x': System, k: nat, total: nat, ops: seq<Op>) returns (z: System)
    requires Grown(x, page, n, x') && n + k == total == x.cache.layout.total && ops == Rest(k)
    ensures Reaches(x', ops, z) && Grown(x, page, total, z)
    decreases k, 1
  {
    if k == 0 {
      z := x';
      ReachNone(x', ops);
    } else {
      z := GrowMore(x, page, n, x', k, total, ops);
    }
  }

  lemma {:induction false} GrowMore(x: System, page: nat, n: nat, x': System, k: nat, total: nat, ops: seq<Op>) returns (z: System)
    requires Grown(x, page, n, x') && k > 0 && n + k == total == x.cache.layout.total && ops == Rest(k)
    ensures Reaches(x', ops, z) && Grown(x, page, total, z)
    decreases k, 0
  {
    var op := AllocOp(0);
    var y, m, j := Step(x', op), n + 1, k - 1;
    var rest := Rest(j);
    GrowOne(x, page, n, x', op, m, y);
    z := GrowRest(x, page, m, y, j, total, rest);
    ReachRest(x', op, y, j, rest, z, k, ops);
  }

  /** A cache without room fills one more slab. */
  lemma FillSlab(x: System, page: nat, total: nat) returns (z: System)
    requires Inv(x.cache, x.live) && AllFull(x.cache) && page != 0 && total == x.cache.layout.total > 0
    requires FreshPage(x.cache, page) && PageGuard(x.cache, page)
    ensures Reaches(x, FillOps(page, total), z) && Grown(x, page, total, z)
  {
    GrowFirst(x, page);
    z := FillBehind(x, page, total, Step(x, AllocOp(page)));
  }

  lemma FillBehind(x: System, page: nat, total: nat, y: System) returns (z: System)
    requires Permitted(x, AllocOp(page)) && y == Step(x, AllocOp(page))
    requires Grown(x, page, 1, y) && total == x.cache.layout.total > 0
    ensures Reaches(x, FillOps(page, total), z) && Grown(x, page, total, z)
  {
    var rest, ops := Rest(total - 1), FillOps(page, total);
    z := GrowRest(x, page, 1, y, total - 1, total, rest);
    ReachFirst(x, AllocOp(page), y, rest, z, ops);
  }

  lemma {:induction false} RunAppend(x: System, a: seq<Op>, b: seq<Op>)
    ensures Run(x, a + b) == Run(Run(x, a), b)
    ensures Disciplined(x, a + b) <==> Disciplined(x, a) && Disciplined(Run(x, a), b)
    decreases |a|
  {
    if a == [] {
      assert a + b == b;
    } else {
      assert (a + b)[0] == a[0] && (a + b)[1..] == a[1..] + b;
      RunAppend(Step(x, a[0]), a[1..], b);
    }
  }

  /** In a full slab every slot is live. */
  lemma FullLive(c: Cache, live: set<nat>, p: nat, x: nat)
    requires Ordered(c, live) && p in c.heap && Inuse(c, p) == c.layout.total && IsSlot(c.layout, p, x)
    ensures x in live && Owner(c, x) == p
  {
    var ps, fs, es, fls :| InvWith(c, live, ps, fs, es, fls);
    assert SlabOk(c.layout, c.words, live, p, c.heap[p], fls[p]);
    OwnerSpec(c, live, ps, fs, es, fls, p, x);
  }

  function Start(l: Layout, words: map<nat, nat>): System {
    System(Cache(l, map[], words, 0, 0, 0, 0), {})
  }

  // ---------------------------------------------------------------- the older of two full slabs

  /** `obj` is a live object of slab `p`, slab `q` heads the full list, and freeing `obj` fails
      the guard. */
  ghost predicate Stuck(x: System, p: nat, q: nat, obj: nat) {
    var ok :=
      && Inv(x.cache, x.live) && obj in x.live && Owner(x.cache, obj) == p && x.cache.full == q
      && !FreeGuard(x.cache, obj);
    ok
  }

  lemma StuckBreaks(x: System, p: nat, q: nat, obj: nat)
    requires Stuck(x, p, q, obj)
    ensures !Inv(Free(x.cache, obj), x.live - {obj})
  {
    FreeKeepsIff(x.cache, x.live, obj);
  }

  /** With two objects or more per slab: fill two slabs, then free the first object of the
      older one. Its slab is full but not the head of the full list, so the free fails the
      guard and, by `StuckBreaks`, breaks the invariant. */
  lemma OlderSlabBreaks(l: Layout, words: map<nat, nat>, p: nat, q: nat) returns (x: System, obj: nat)
    requires Fits(l) && l.total >= 2 && p != 0 && q != 0 && p != q && p % PAGE_SIZE == 0 && q % PAGE_SIZE == 0
    requires Spaced(l, {p}, q)
    ensures var ops := FillOps(p, l.total) + FillOps(q, l.total);
      Disciplined(Start(l, words), ops) && x == Run(Start(l, words), ops)
    ensures obj == p + l.offset && Stuck(x, p, q, obj)
  {
    var x0, n := Start(l, words), l.total;
    var x1 := FirstFill(l, words, p);
    obj := p + l.offset;
    x := SecondFill(x1, p, q, n, obj);
    RunAppend(x0, FillOps(p, n), FillOps(q, n));
  }

  lemma SecondFill(x: System, p: nat, q: nat, n: nat, obj: nat) returns (x': System)
    requires Inv(x.cache, x.live) && AllFull(x.cache) && x.cache.heap.Keys == {p} && n == x.cache.layout.total >= 2
    requires q != 0 && p != q && q % PAGE_SIZE == 0 && Spaced(x.cache.layout, {p}, q)
    requires IsSlot(x.cache.layout, p, obj)
    ensures Disciplined(x, FillOps(q, n)) && x' == Run(x, FillOps(q, n))
    ensures Stuck(x', p, q, obj)
  {
    x' := FillSlab(x, q, n);
    FreeOlder(x, x', p, q, obj);
  }

  lemma FirstFill(l: Layout, words: map<nat, nat>, p: nat) returns (x: System)
    requires Fits(l) && p != 0 && p % PAGE_SIZE == 0
    ensures Disciplined(Start(l, words), FillOps(p, l.total)) && x == Run(Start(l, words), FillOps(p, l.total))
    ensures Inv(x.cache, x.live) && AllFull(x.cache) && x.cache.heap.Keys == {p} && x.cache.layout == l
  {
    EmptyCache(l, words);
    x := FillSlab(Start(l, words), p, l.total);
  }

  lemma FreeOlder(x1: System, x: System, p: nat, q: nat, obj: nat)
    requires x1.cache.heap.Keys == {p} && Grown(x1, q, x1.cache.layout.total, x) && p != q
    requires x.cache.layout.total >= 2 && IsSlot(x.cache.layout, p, obj)
    ensures Stuck(x, p, q, obj)
  {
    FullLive(x.cache, x.live, p, obj);
  }

  // ---------------------------------------------------------------- the page right behind

  /** Where objects overrun their page: fill a slab, then let the page allocator return the
      page right behind it. The new descriptor lands on live objects. */
  lemma AdjacentPageBreaks(l: Layout, words: map<nat, nat>, p: nat) returns (x: System)
    requires Fits(l) && Overruns(l) && p != 0 && p % PAGE_SIZE == 0
    ensures Disciplined(Start(l, words), FillOps(p, l.total)) && x == Run(Start(l, words), FillOps(p, l.total))
    ensures var q := p + PAGE_SIZE;
      var r := Alloc(x.cache, q);
      && Inv(x.cache, x.live) && FreshPage(x.cache, q) && !PageGuard(x.cache, q)
      && r.obj != 0 && q in r.cache.heap && !Inv(r.cache, x.live + {r.obj})
  {
    x := FirstFill(l, words, p);
    NewPageBehind(x, p);
  }

  lemma NewPageBehind(x: System, p: nat)
    requires Inv(x.cache, x.live) && AllFull(x.cache) && x.cache.heap.Keys == {p} && Overruns(x.cache.layout)
    ensures var q := p + PAGE_SIZE;
      var r := Alloc(x.cache, q);
      && FreshPage(x.cache, q) && !PageGuard(x.cache, q)
      && r.obj != 0 && q in r.cache.heap && !Inv(r.cache, x.live + {r.obj})
  {
    NoRoom(x.cache, x.live);
    PagesOk(x.cache, x.live);
    NotSpaced(x.cache, p);
    AllocKeeps(x.cache, x.live, p + PAGE_SIZE);
  }

  lemma NotSpaced(c: Cache, p: nat)
    requires c.heap.Keys == {p} && 0 !in c.heap && c.partial == 0 && c.free == 0 && Overruns(c.layout) && p % PAGE_SIZE == 0
    ensures FreshPage(c, p + PAGE_SIZE) && !PageGuard(c, p + PAGE_SIZE)
    ensures p + PAGE_SIZE in Alloc(c, p + PAGE_SIZE).cache.heap
  {
    assert p in c.heap;
    AllocKeys(c, p + PAGE_SIZE);
  }

  /** Concretely, the second cache created at boot, for 64-byte objects: object 61 of a slab on
      page 4096 is address 8192, which is where a slab on the next page has its descriptor. */
  lemma SmallCacheOverrun(words: map<nat, nat>) returns (x: System)
    ensures var l := LayoutOf(64, true, 2);
      && l == Layout(64, 63, 192)
      && Disciplined(Start(l, words), FillOps(4096, 63)) && x == Run(Start(l, words), FillOps(4096, 63))
    ensures var r := Alloc(x.cache, 8192);
      && 8192 in x.live && Owner(x.cache, 8192) == 4096
      && r.obj != 0 && 8192 in r.cache.heap && !Inv(r.cache, x.live + {r.obj})
  {
    BootLayouts();
    var l := Layout(64, 63, 192);
    x := FirstFill(l, words, 4096);
    NewPageBehind(x, 4096);
    SlotAt(4096 + 192, 64, 63, 61, 8192);
    FullLive(x.cache, x.live, 4096, 8192);
  }

  // ---------------------------------------------------------------- another owner behind

  lemma FirstObject(l: Layout, words: map<nat, nat>, page: nat)
    requires l.total > 0 && page != 0
    ensures Alloc(Cache(l, map[], words, 0, 0, 0, 0), page).obj == page + l.offset
  {
    var slab := Slab(0, At(Slots(l, page), 0), page + l.offset, 0, 0);
    LinkData(map[page := slab], page, 0);
  }

  /** The 64-byte cache after its first allocation, which came from a new slab on page 4096. */
  ghost predicate SmallStarted(x: System) {
    var ok :=
      Inv(x.cache, x.live) && x.cache.layout == Layout(64, 63, 192) && x.cache.heap.Keys == {4096} && x.live == {4096 + 192};
    ok
  }

  lemma StartLive(l: Layout, words: map<nat, nat>, page: nat, x: System)
    requires l.total > 0 && page != 0 && x == Step(Start(l, words), AllocOp(page))
    ensures x.live == {page + l.offset}
  {
    FirstObject(l, words, page);
  }

  lemma StartInv(l: Layout, words: map<nat, nat>, page: nat, x: System)
    requires Fits(l) && page != 0 && page % PAGE_SIZE == 0 && x == Step(Start(l, words), AllocOp(page))
    ensures Inv(x.cache, x.live) && x.cache.layout == l && x.cache.heap.Keys == {page}
  {
    EmptyCache(l, words);
    GrowFirst(Start(l, words), page);
  }

  lemma StartSmall(words: map<nat, nat>) returns (x: System)
    ensures x == Step(Start(Layout(64, 63, 192), words), AllocOp(4096)) && SmallStarted(x)
  {
    x := Step(Start(Layout(64, 63, 192), words), AllocOp(4096));
    StartInv(Layout(64, 63, 192), words, 4096, x);
    StartLive(Layout(64, 63, 192), words, 4096, x);
  }

  /** There 8192 is a free slot of the slab on page 4096. Whoever owns page 8192 may store
      there, and any store that changes the word breaks the free chain. */
  lemma NextOwnerStore(x: System, v: nat)
    requires SmallStarted(x)
    ensures 8192 !in x.cache.heap && OutsideDescriptors(x.cache, 8192)
    ensures Inv(x.cache.(words := x.cache.words[8192 := v]), x.live) <==> v == Word(x.cache.words, 8192)
  {
    SlotAt(4096 + 192, 64, 63, 61, 8192);
    assert 4096 in x.cache.heap && IsSlot(x.cache.layout, 4096, 8192);
    StoreKeepsIff(x.cache, x.live, 8192, v);
  }

  /** So page 8192 must not go to any other owner: with it the kernel's invariant is lost. */
  lemma NextOwnerBreaks(x: System)
    requires SmallStarted(x)
    ensures var k := K.Kernel(x.cache.words, [x], {});
      K.KernelInv(k) && K.Proper(k, K.Take(8192)) && !K.KernelInv(K.Step(k, K.Take(8192)))
  {
    var k := K.Kernel(x.cache.words, [x], {});
    assert K.View(k, 0) == x;
    assert K.SlabAt(k, 0, 4096);
    assert forall i, p :: K.SlabAt(k, i, p) ==> i == 0 && p == 4096;
    K.StepKeepsIff(k, K.Take(8192));
  }
}
