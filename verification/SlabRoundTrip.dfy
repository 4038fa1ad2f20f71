/** Freeing an object and allocating again: the object comes back and the cache is as it was. */
module SlabRoundTrip {
  import opened SlabLists
  import opened SlabCache
  import opened SlabFrees

  /** Where a live object is: its slab is partial or full and has other slots than a free one. */
  lemma OwnerOf(c: Cache, live: set<nat>, obj: nat) returns (ps: seq<nat>, fs: seq<nat>, es: seq<nat>)
    requires Ordered(c, live) && obj in live
    ensures var s := Owner(c, obj);
      && ListsOk(c, ps, fs, es) && CountsOk(c, ps, fs, es)
      && s in c.heap && (s in ps || s in fs) && Inuse(c, s) > 0 && obj != 0 && c.objects > 0
  {
    var fls;
    ps, fs, es, fls :| InvWith(c, live, ps, fs, es, fls);
    assert Covered(c.layout, c.heap, live);
    var s :| s in c.heap && IsSlot(c.layout, s, obj);
    OwnerSpec(c, live, ps, fs, es, fls, s, obj);
    OneFewer(live, obj);
  }

  lemma PopPush(c: Cache, s: nat, obj: nat)
    requires s in c.heap && c.heap[s].inuse > 0 && c.objects > 0
    ensures var c1 := PushObject(c, s, obj);
      && c1.heap[s].freelist == obj
      && PopObject(c1, s) == c.(words := c.words[obj := c.heap[s].freelist])
  {
    var c1 := PushObject(c, s, obj);
    assert PopObject(c1, s).heap == c.heap;
  }

  /** `r` returned `obj` again and left the cache as it was, but for the object's first word,
      which still is the link it had on its slab's chain. */
  predicate Restored(c: Cache, s: nat, obj: nat, r: Allocated) {
    s in c.heap && r == Allocated(c.(words := c.words[obj := c.heap[s].freelist]), obj)
  }

  /** When the slab heads the partial list and keeps another object, the next allocation takes
      the freed object again and restores the cache. */
  lemma FreeThenAllocPartial(c: Cache, live: set<nat>, obj: nat, page: nat, s: nat)
    requires Inv(c, live) && obj in live && s == Owner(c, obj) == c.partial && Inuse(c, s) > 1
    ensures Restored(c, s, obj, Alloc(Free(c, obj), page))
  {
    var ps, fs, es := OwnerOf(c, live, obj);
    assert s == ps[0] && s in ps;
    assert c.full != s;
    PopPush(c, s, obj);
  }

  // ---------------------------------------------------------------- the head of the full list

  lemma LinkThere(h: Heap, s: nat, n: nat, q: nat)
    requires 0 !in h && s in h && h[s].next == n && h[s].prev == 0
    requires n != s && q != s && (n != 0 ==> n in h && h[n].prev == s) && (q != 0 ==> q in h && h[q].prev == 0 && q != n)
    ensures var h' := Link(Unlink(h, s), s, q);
      && h'.Keys == h.Keys && h'[s] == h[s].(next := q, prev := 0)
      && (n != 0 ==> h'[n] == h[n].(prev := 0)) && (q != 0 ==> h'[q] == h[q].(prev := s))
      && forall x :: x in h && x != s && x != n && x != q ==> h'[x] == h[x]
  {
  }

  /** Moving the head of one list to the front of another and back restores the links. */
  lemma LinkBack(h: Heap, h2: Heap, s: nat, n: nat, q: nat, slab: Slab)
    requires 0 !in h && s in h && h[s].next == n && h[s].prev == 0
    requires n != s && q != s && (n != 0 ==> n in h && h[n].prev == s) && (q != 0 ==> q in h && h[q].prev == 0 && q != n)
    requires h2 == Link(Unlink(h, s), s, q)[s := slab] && slab.next == q && slab.prev == 0
    ensures Link(Unlink(h2, s), s, n) == h[s := slab.(next := n, prev := 0)]
  {
    LinkThere(h, s, n, q);
    LinkThere(h2, s, q, n);
  }

  /** The heads of two of the lists. */
  lemma Heads(c: Cache, ps: seq<nat>, fs: seq<nat>, es: seq<nat>, s: nat, n: nat, q: nat)
    requires ListsOk(c, ps, fs, es) && s == c.full && s in c.heap && n == c.heap[s].next && q == c.partial
    ensures 0 !in c.heap && s in fs && c.heap[s].prev == 0 && n != s && q != s
    ensures n != 0 ==> n in c.heap && c.heap[n].prev == s
    ensures q != 0 ==> q in c.heap && c.heap[q].prev == 0 && q != n
  {
    assert s == fs[0] && n == At(fs, 1);
    if n != 0 {
      assert n in fs;
    }
    if q != 0 {
      assert q == ps[0] && q in ps;
    }
  }

  /** `FullToPartial`, the pop and `PartialToFull` around a pushed object. */
  lemma ThereAndBack(c: Cache, s: nat, obj: nat, n: nat, q: nat, c1: Cache, c2: Cache)
    requires 0 !in c.heap && s in c.heap && s != 0 && obj != 0 && n == c.heap[s].next && q == c.partial && s == c.full
    requires c.heap[s].prev == 0 && n != s && q != s && (n != 0 ==> n in c.heap && c.heap[n].prev == s)
    requires q != 0 ==> q in c.heap && c.heap[q].prev == 0 && q != n
    requires c.heap[s].inuse == c.layout.total > 1 && c.objects > 0
    requires c1 == PushObject(c, s, obj) && c2 == FullToPartial(c1, s)
    ensures s in c2.heap && c2.heap[s].freelist == obj
    ensures TakeObject(c2, s) == c.(words := c.words[obj := c.heap[s].freelist])
  {
    LinkThere(c1.heap, s, n, q);
    var c3 := PopObject(c2, s);
    var slab := c3.heap[s];
    LinkBack(c1.heap, c3.heap, s, n, q, slab);
    assert c1.heap[s := slab.(next := n, prev := 0)] == c.heap;
  }

  lemma FreeFromFull(c: Cache, s: nat, obj: nat, c1: Cache, c2: Cache)
    requires Owner(c, obj) == s == c.full && s in c.heap && obj != 0 && c.heap[s].inuse > 1
    requires c1 == PushObject(c, s, obj) && c2 == FullToPartial(c1, s)
    ensures Free(c, obj) == c2
  {
  }

  lemma AllocTakes(c: Cache, s: nat, page: nat)
    requires c.partial == s != 0 && s in c.heap && c.heap[s].freelist != 0
    ensures Alloc(c, page) == Allocated(TakeObject(c, s), c.heap[s].freelist)
  {
  }

  lemma FullIsFull(c: Cache, ps: seq<nat>, fs: seq<nat>, es: seq<nat>, s: nat)
    requires ListsOk(c, ps, fs, es) && CountsOk(c, ps, fs, es) && s == c.full && s in c.heap
    ensures c.heap[s].inuse == c.layout.total
  {
    assert s == fs[0] && s in fs;
  }

  lemma MoveBack(c: Cache, ps: seq<nat>, fs: seq<nat>, es: seq<nat>, s: nat, obj: nat, page: nat)
    requires ListsOk(c, ps, fs, es) && CountsOk(c, ps, fs, es) && Owner(c, obj) == s == c.full && s in c.heap
    requires obj != 0 && c.layout.total > 1 && c.objects > 0
    ensures Restored(c, s, obj, Alloc(Free(c, obj), page))
  {
    var n, q := c.heap[s].next, c.partial;
    Heads(c, ps, fs, es, s, n, q);
    FullIsFull(c, ps, fs, es, s);
    var c1 := PushObject(c, s, obj);
    var c2 := FullToPartial(c1, s);
    FreeFromFull(c, s, obj, c1, c2);
    ThereAndBack(c, s, obj, n, q, c1, c2);
    AllocTakes(c2, s, page);
  }

  /** An object freed from the head of the full list comes back too, and the slab returns to
      the head of the full list. */
  lemma FreeThenAllocFull(c: Cache, live: set<nat>, obj: nat, page: nat, s: nat)
    requires Inv(c, live) && obj in live && s == Owner(c, obj) == c.full && c.layout.total > 1
    ensures Restored(c, s, obj, Alloc(Free(c, obj), page))
  {
    var ps, fs, es := OwnerOf(c, live, obj);
    MoveBack(c, ps, fs, es, s, obj, page);
  }
}
