/** Allocation on a whole slab cache: what it returns, what it keeps, and exactly when a new
    page keeps objects and descriptors apart. */
module SlabRuns {
  import opened SlabLists
  import opened SlabCache
  import opened SlabSafety
  import opened SlabMoves

  /** Counts once a slab to allocate from heads the partial list: it may still be empty. */
  ghost predicate CountsReady(c: Cache, ps: seq<nat>, fs: seq<nat>, es: seq<nat>) {
    var ok :=
      && (ps != [] ==> Inuse(c, ps[0]) < c.layout.total)
      && (forall i :: 1 <= i < |ps| ==> 0 < Inuse(c, ps[i]) < c.layout.total)
      && (forall x :: x in fs ==> Inuse(c, x) == c.layout.total)
      && (forall x :: x in es ==> Inuse(c, x) == 0);
    ok
  }

  ghost predicate Ready(c: Cache, live: set<nat>, ps: seq<nat>, fs: seq<nat>, es: seq<nat>, fls: map<nat, seq<nat>>) {
    Fits(c.layout) && ListsOk(c, ps, fs, es) && CountsReady(c, ps, fs, es) && SlabsOk(c, live, fls) && c.objects == |live|
  }

  lemma ReuseLists(c: Cache, c': Cache, fs: seq<nat>, es: seq<nat>, s: nat)
    requires ListsOk(c, [], fs, es) && es != [] && s == es[0]
    requires c'.heap == Link(Unlink(c.heap, s), s, c.partial) && c'.free == NextOf(c.heap, s) && c'.partial == s && c'.full == c.full
    ensures ListsOk(c', [s], fs, es[1..]) && SameData(c.heap, c'.heap)
  {
    var es' := es[1..];
    Reorder(c.heap, c.partial, [], c.full, fs, c.free, es);
    MoveThree(c.heap, c.free, es, 0, c.partial, [], c.full, fs);
    assert Without(es, 0) == es' && [s] + [] == [s];
    Reorder(c'.heap, c'.free, es', s, [s], c.full, fs);
  }

  lemma ReuseKeeps(c: Cache, live: set<nat>, fs: seq<nat>, es: seq<nat>, fls: map<nat, seq<nat>>)
    requires InvWith(c, live, [], fs, es, fls) && es != []
    ensures Ready(ReuseSlab(c), live, [es[0]], fs, es[1..], fls)
  {
    var s, c' := es[0], ReuseSlab(c);
    ReuseLists(c, c', fs, es, s);
    SlabsOkFrame(c, c', live, fls);
    SameCounts(c, c');
    assert s in es;
    assert forall x :: x in es[1..] ==> x in es;
  }

  lemma SameCounts(c: Cache, c': Cache)
    requires SameData(c.heap, c'.heap)
    ensures forall x :: Inuse(c', x) == Inuse(c, x)
  {
  }

  lemma NewSlabIs(c: Cache, c1: Cache, c': Cache, page: nat, slots: seq<nat>)
    requires c' == NewSlab(c, page) && slots == Slots(c.layout, page) && c.partial == 0
    requires c1 == c.(heap := c.heap[page := Slab(0, At(slots, 0), page + c.layout.offset, 0, 0)], words := c'.words)
    ensures c'.words == ChainWords(c.words, slots)
    ensures c' == c1.(heap := Link(c1.heap, page, 0), partial := page)
  {
  }

  lemma NewKeeps(c: Cache, c1: Cache, c': Cache, live: set<nat>, fs: seq<nat>, fls: map<nat, seq<nat>>, page: nat, slots: seq<nat>)
    requires InvWith(c, live, [], fs, [], fls) && page != 0 && FreshPage(c, page) && slots == Slots(c.layout, page)
    requires c1 == c.(heap := c.heap[page := Slab(0, At(slots, 0), page + c.layout.offset, 0, 0)], words := c'.words)
    requires c'.words == ChainWords(c.words, slots)
    requires c' == c1.(heap := Link(c1.heap, page, 0), partial := page)
    ensures Ready(c', live, [page], fs, [], fls[page := slots])
  {
    NewSlabKeeps(c, c1, live, fls, page, c1.heap[page], slots);
    NewLists(c, c1, c', fs, page);
    SlabsOkFrame(c1, c', live, fls[page := slots]);
    NewCounts(c, c1, c', fs, page);
  }

  lemma NewLists(c: Cache, c1: Cache, c': Cache, fs: seq<nat>, page: nat)
    requires ListsOk(c, [], fs, []) && page != 0 && page !in c.heap
    requires page in c1.heap && c1.heap == c.heap[page := c1.heap[page]]
    requires c'.heap == Link(c1.heap, page, 0) && c'.partial == page && c'.full == c.full && c'.free == c.free
    ensures ListsOk(c', [page], fs, []) && SameData(c1.heap, c'.heap)
  {
    LinkSpec(c1.heap, page, 0, []);
    assert [page] + [] == [page];
    assert page !in fs;
    DllFrame(c.heap, c'.heap, c.full, fs);
  }

  lemma NewCounts(c: Cache, c1: Cache, c': Cache, fs: seq<nat>, page: nat)
    requires CountsOk(c, [], fs, []) && SameData(c1.heap, c'.heap) && c'.layout == c.layout && c.layout.total > 0
    requires page in c1.heap && c1.heap[page].inuse == 0 && page !in c.heap && c1.heap == c.heap[page := c1.heap[page]]
    requires Dll(c.heap, c.full, fs)
    ensures CountsReady(c', [page], fs, [])
  {
    SameCounts(c1, c');
    forall x | x in fs
      ensures Inuse(c', x) == c.layout.total
    {
      assert Inuse(c1, x) == Inuse(c, x);
    }
  }

  /** Unless nothing is free and the page allocator refuses, the partial list ends up with
      a slab to allocate from. */
  lemma EnsureKeeps(c: Cache, live: set<nat>, ps: seq<nat>, fs: seq<nat>, es: seq<nat>, fls: map<nat, seq<nat>>, page: nat)
      returns (ps': seq<nat>, es': seq<nat>, fls': map<nat, seq<nat>>)
    requires InvWith(c, live, ps, fs, es, fls) && FreshPage(c, page)
    ensures Ready(EnsureSlab(c, page), live, ps', fs, es', fls')
    ensures ps' == [] <==> ps == [] && es == [] && page == 0
    ensures ps' == [] ==> EnsureSlab(c, page) == c
  {
    ps', es', fls' := ps, es, fls;
    if ps == [] && es != [] {
      ReuseKeeps(c, live, fs, es, fls);
      ps', es' := [es[0]], es[1..];
    } else if ps == [] && page != 0 {
      var slots := Slots(c.layout, page);
      var c' := NewSlab(c, page);
      var c1 := c.(heap := c.heap[page := Slab(0, At(slots, 0), page + c.layout.offset, 0, 0)], words := c'.words);
      NewSlabIs(c, c1, c', page, slots);
      NewKeeps(c, c1, c', live, fs, fls, page, slots);
      ps', fls' := [page], fls[page := slots];
    } else {
      ReadyIfOk(c, live, ps, fs, es, fls);
    }
  }

  lemma ReadyIfOk(c: Cache, live: set<nat>, ps: seq<nat>, fs: seq<nat>, es: seq<nat>, fls: map<nat, seq<nat>>)
    requires InvWith(c, live, ps, fs, es, fls)
    ensures Ready(c, live, ps, fs, es, fls)
  {
    assert forall i :: 0 <= i < |ps| ==> ps[i] in ps;
  }

  /** Only links matter to the lists. */
  lemma ListsFrame(c: Cache, c': Cache, ps: seq<nat>, fs: seq<nat>, es: seq<nat>, s: nat)
    requires ListsOk(c, ps, fs, es) && s in c.heap
    requires c'.heap.Keys == c.heap.Keys && c'.partial == c.partial && c'.full == c.full && c'.free == c.free
    requires c'.heap[s].next == c.heap[s].next && c'.heap[s].prev == c.heap[s].prev
    requires forall x :: x in c.heap && x != s ==> c'.heap[x] == c.heap[x]
    ensures ListsOk(c', ps, fs, es)
  {
    DllFrame(c.heap, c'.heap, c.partial, ps);
    DllFrame(c.heap, c'.heap, c.full, fs);
    DllFrame(c.heap, c'.heap, c.free, es);
  }

  /** Whether an allocation sets up a new slab in `page`. */
  predicate Grows(c: Cache, page: nat) {
    c.partial == 0 && c.free == 0 && page != 0
  }

  predicate PageGuard(c: Cache, page: nat) {
    Grows(c, page) ==> Spaced(c.layout, c.heap.Keys, page)
  }

  /** An allocation adds at most its page to the slabs. */
  lemma AllocKeys(c: Cache, page: nat)
    requires 0 !in c.heap
    ensures var c' := Alloc(c, page).cache;
      c'.layout == c.layout && c'.heap.Keys == c.heap.Keys + (if Grows(c, page) then {page} else {})
  {
    var c1 := EnsureSlab(c, page);
    EnsureKeys(c, page);
    if c1.partial in c1.heap {
      TakeKeys(c1, c1.partial);
    }
  }

  lemma EnsureKeys(c: Cache, page: nat)
    ensures var c' := EnsureSlab(c, page);
      c'.layout == c.layout && c'.heap.Keys == c.heap.Keys + (if Grows(c, page) then {page} else {})
  {
    LinkKeys(c.heap, c.free, 0);
    LinkKeys(Unlink(c.heap, c.free), c.free, c.partial);
    LinkKeys(c.heap[page := Slab(0, At(Slots(c.layout, page), 0), page + c.layout.offset, 0, 0)], page, c.partial);
  }

  lemma TakeKeys(c: Cache, s: nat)
    requires s in c.heap
    ensures TakeObject(c, s).layout == c.layout && TakeObject(c, s).heap.Keys == c.heap.Keys
  {
    var c1 := PopObject(c, s);
    LinkKeys(c1.heap, s, 0);
    LinkKeys(Unlink(c1.heap, s), s, c1.full);
  }

  /** An allocation returns NULL exactly when no slab is partial or free and the page
      allocator refuses. Otherwise the object was not live and now is. The invariant is kept
      if and only if a new page, where objects overrun theirs, is next to no slab. */
  lemma AllocKeeps(c: Cache, live: set<nat>, page: nat)
    requires Inv(c, live) && FreshPage(c, page)
    ensures var r := Alloc(c, page);
      && (r.obj == 0 <==> c.partial == 0 && c.free == 0 && page == 0)
      && (r.obj == 0 ==> r.cache == c)
      && (r.obj != 0 ==> r.obj !in live && (Inv(r.cache, live + {r.obj}) <==> PageGuard(c, page)))
  {
    AllocOrdered(c, live, page);
    AllocClear(c, live, page);
  }

  lemma AllocClear(c: Cache, live: set<nat>, page: nat)
    requires Inv(c, live) && FreshPage(c, page)
    ensures var c' := Alloc(c, page).cache; Clear(c'.layout, c'.heap.Keys) <==> PageGuard(c, page)
  {
    PagesOk(c, live);
    AllocKeys(c, page);
    if Grows(c, page) {
      ClearWith(c.layout, c.heap.Keys, page);
    } else {
      assert c.heap.Keys + {} == c.heap.Keys;
    }
  }

  lemma PagesOk(c: Cache, live: set<nat>)
    requires Ordered(c, live)
    ensures Fits(c.layout) && 0 !in c.heap && forall p :: p in c.heap ==> p % PAGE_SIZE == 0
  {
    var ps, fs, es, fls :| InvWith(c, live, ps, fs, es, fls);
  }

  /** Wherever a new page is, every list, chain and count is in order again. */
  lemma AllocOrdered(c: Cache, live: set<nat>, page: nat)
    requires Ordered(c, live) && FreshPage(c, page)
    ensures var r := Alloc(c, page);
      && (r.obj == 0 <==> c.partial == 0 && c.free == 0 && page == 0)
      && (r.obj == 0 ==> r.cache == c)
      && (r.obj != 0 ==> r.obj !in live && Ordered(r.cache, live + {r.obj}))
  {
    var ps, fs, es, fls :| InvWith(c, live, ps, fs, es, fls);
    var ps', es', fls' := EnsureKeeps(c, live, ps, fs, es, fls, page);
    if ps' != [] {
      var c1 := EnsureSlab(c, page);
      assert ps'[0] in ps';
      TakeKeeps(c1, live, ps', fs, es', fls', ps'[0]);
    }
  }

  /** A slab that is not full has an object to give. */
  lemma PopData(c: Cache, live: set<nat>, fls: map<nat, seq<nat>>, s: nat, fl': seq<nat>)
    requires Fits(c.layout) && SlabsOk(c, live, fls) && s in c.heap && c.heap[s].inuse < c.layout.total
    requires |fls[s]| > 0 ==> fl' == fls[s][1..]
    ensures var obj := c.heap[s].freelist;
      obj != 0 && obj !in live && SlabsOk(PopObject(c, s), live + {obj}, fls[s := fl'])
  {
    assert SlabOk(c.layout, c.words, live, s, c.heap[s], fls[s]);
    PopKeeps(c, live, fls, s);
  }

  lemma PopLists(c: Cache, ps: seq<nat>, fs: seq<nat>, es: seq<nat>, s: nat)
    requires ListsOk(c, ps, fs, es) && s in c.heap
    ensures var c' := PopObject(c, s);
      && ListsOk(c', ps, fs, es)
      && Inuse(c', s) == Inuse(c, s) + 1 && forall x :: x != s ==> Inuse(c', x) == Inuse(c, x)
  {
    ListsFrame(c, PopObject(c, s), ps, fs, es, s);
  }

  lemma TakeKeeps(c: Cache, live: set<nat>, ps: seq<nat>, fs: seq<nat>, es: seq<nat>, fls: map<nat, seq<nat>>, s: nat)
    requires Ready(c, live, ps, fs, es, fls) && ps != [] && s == ps[0] && s in c.heap
    ensures var obj := c.heap[s].freelist;
      obj != 0 && obj !in live && Ordered(TakeObject(c, s), live + {obj})
  {
    var obj, c' := c.heap[s].freelist, PopObject(c, s);
    var fl' := if |fls[s]| > 0 then fls[s][1..] else [];
    var fls', live' := fls[s := fl'], live + {obj};
    PopData(c, live, fls, s, fl');
    PopLists(c, ps, fs, es, s);
    OneMore(live, obj);
    TakeIsSettle(c, s);
    SettleKeeps(c, c', live', ps, fs, es, fls', s);
  }

  lemma TakeIsSettle(c: Cache, s: nat)
    requires s in c.heap
    ensures TakeObject(c, s) == Settle(PopObject(c, s), s)
  {
  }

  lemma OneMore(live: set<nat>, obj: nat)
    requires obj !in live
    ensures |live + {obj}| == |live| + 1
  {
  }

  function Settle(c: Cache, s: nat): Cache {
    if Inuse(c, s) == c.layout.total then PartialToFull(c, s) else c
  }

  lemma SettleKeeps(c1: Cache, c2: Cache, live: set<nat>, ps: seq<nat>, fs: seq<nat>, es: seq<nat>, fls: map<nat, seq<nat>>, s: nat)
    requires Fits(c2.layout) && ListsOk(c2, ps, fs, es) && ps != [] && s == ps[0] && SlabsOk(c2, live, fls) && c2.objects == |live|
    requires CountsReady(c1, ps, fs, es) && c2.layout == c1.layout
    requires Inuse(c2, s) == Inuse(c1, s) + 1 && forall x :: x != s ==> Inuse(c2, x) == Inuse(c1, x)
    ensures Ordered(Settle(c2, s), live)
  {
    if Inuse(c2, s) == c2.layout.total {
      FilledKeeps(c1, c2, live, ps, fs, es, fls);
    } else {
      NotFilledKeeps(c1, c2, live, ps, fs, es, fls);
    }
  }

  lemma FilledKeeps(c1: Cache, c2: Cache, live: set<nat>, ps: seq<nat>, fs: seq<nat>, es: seq<nat>, fls: map<nat, seq<nat>>)
    requires Fits(c2.layout) && ListsOk(c2, ps, fs, es) && ps != [] && SlabsOk(c2, live, fls) && c2.objects == |live|
    requires CountsReady(c1, ps, fs, es) && c2.layout == c1.layout && Inuse(c2, ps[0]) == c2.layout.total
    requires forall x :: x != ps[0] ==> Inuse(c2, x) == Inuse(c1, x)
    ensures Ordered(PartialToFull(c2, ps[0]), live)
  {
    var s := ps[0];
    var c3 := PartialToFull(c2, s);
    FilledLists(c2, ps, fs, es);
    SlabsOkFrame(c2, c3, live, fls);
    FilledCounts(c1, c2, c3, ps, fs, es);
    assert InvWith(c3, live, ps[1..], [s] + fs, es, fls);
  }

  lemma FilledLists(c: Cache, ps: seq<nat>, fs: seq<nat>, es: seq<nat>)
    requires ListsOk(c, ps, fs, es) && ps != []
    ensures ListsOk(PartialToFull(c, ps[0]), ps[1..], [ps[0]] + fs, es)
    ensures SameData(c.heap, PartialToFull(c, ps[0]).heap)
  {
    MoveThree(c.heap, c.partial, ps, 0, c.full, fs, c.free, es);
    assert Without(ps, 0) == ps[1..];
  }

  lemma FilledCounts(c1: Cache, c2: Cache, c3: Cache, ps: seq<nat>, fs: seq<nat>, es: seq<nat>)
    requires CountsReady(c1, ps, fs, es) && ps != [] && Distinct(ps) && Apart(ps, fs) && Apart(ps, es)
    requires c2.layout == c1.layout == c3.layout && SameData(c2.heap, c3.heap)
    requires Inuse(c2, ps[0]) == c2.layout.total && forall x :: x != ps[0] ==> Inuse(c2, x) == Inuse(c1, x)
    ensures CountsOk(c3, ps[1..], [ps[0]] + fs, es)
  {
    SameCounts(c2, c3);
    assert ps[0] in ps;
    TailCounts(c1, c3, ps, ps[0]);
  }

  lemma TailCounts(c1: Cache, c3: Cache, ps: seq<nat>, s: nat)
    requires ps != [] && s == ps[0] && Distinct(ps) && c3.layout == c1.layout
    requires forall i :: 1 <= i < |ps| ==> 0 < Inuse(c1, ps[i]) < c1.layout.total
    requires forall x :: x != s ==> Inuse(c3, x) == Inuse(c1, x)
    ensures forall x :: x in ps[1..] ==> 0 < Inuse(c3, x) < c3.layout.total
  {
    forall x | x in ps[1..]
      ensures 0 < Inuse(c3, x) < c3.layout.total
    {
      var i :| 0 <= i < |ps[1..]| && ps[1..][i] == x;
      assert ps[i + 1] == x;
    }
  }

  lemma NotFilledKeeps(c1: Cache, c2: Cache, live: set<nat>, ps: seq<nat>, fs: seq<nat>, es: seq<nat>, fls: map<nat, seq<nat>>)
    requires Fits(c2.layout) && ListsOk(c2, ps, fs, es) && ps != [] && SlabsOk(c2, live, fls) && c2.objects == |live|
    requires CountsReady(c1, ps, fs, es) && c2.layout == c1.layout && 0 < Inuse(c2, ps[0]) < c2.layout.total
    requires forall x :: x != ps[0] ==> Inuse(c2, x) == Inuse(c1, x)
    ensures Ordered(c2, live)
  {
    assert ps[0] in ps;
    TailCounts(c1, c2, ps, ps[0]);
    assert ps == [ps[0]] + ps[1..];
    assert InvWith(c2, live, ps, fs, es, fls);
  }
}
