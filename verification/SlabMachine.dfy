/** The slab cache as the object the kernel keeps, updated in place. Each method is proved
    to make the state change of the function of the same name. */
module SlabMachine {
  import opened SlabLayout
  import opened SlabLists
  import opened SlabCache
  import opened SlabMoves
  import opened SlabRuns
  import opened SlabFrees

  const MAX_CACHES: nat := 64

  /** The layout of the `count`-th cache created, for objects of `size` bytes. */
  function LayoutOf(size: nat, hwcache: bool, count: nat): Layout
    requires 32 <= size <= 2048
  {
    EndIs(size, 0);
    var a := AlignedSize(size);
    Layout(a, ObjectsPerSlab(a), ObjectsStart(a, Color(hwcache, count)))
  }

  /** For every accepted size and colour the layout is one the cache's invariant admits. Its
      objects overrun their page exactly when the cache is coloured and the colour, 64 bytes
      times its number modulo 8, exceeds the slack of the size. */
  lemma LayoutFits(size: nat, hwcache: bool, count: nat)
    requires 32 <= size <= 2048
    ensures Fits(LayoutOf(size, hwcache, count))
    ensures Overruns(LayoutOf(size, hwcache, count)) <==> hwcache && 64 * (count % 8) > Slack((size + 63) / 64)
  {
    ObjectsFit(size, Color(hwcache, count));
    AtLeastTwo(size);
    StartsEarly(size, Color(hwcache, count));
  }

  /** The flag moves the first object by the colour and changes nothing else. */
  lemma FlagMovesObjects(size: nat, count: nat)
    requires 32 <= size <= 2048
    ensures var l := LayoutOf(size, false, count);
      !Overruns(l) && LayoutOf(size, true, count) == l.(offset := l.offset + 64 * (count % 8))
  {
    LayoutFits(size, false, count);
  }

  lemma LayoutIs(size: nat, hwcache: bool, count: nat, m: nat)
    requires 32 <= size <= 2048 && m == (size + 63) / 64
    ensures LayoutOf(size, hwcache, count) == Layout(64 * m, 63 / m, 64 * LowBit(m) + if hwcache then 64 * (count % 8) else 0)
  {
    SizeRoundsTo(size);
    DescriptorRoundsTo(m);
    PerSlab(m);
  }

  /** The seven caches set up at boot, in order. */
  lemma BootLayouts()
    ensures LayoutOf(32, true, 1) == Layout(64, 63, 128)
    ensures LayoutOf(64, true, 2) == Layout(64, 63, 192)
    ensures LayoutOf(128, true, 3) == Layout(128, 31, 320)
    ensures LayoutOf(256, true, 4) == Layout(256, 15, 512)
    ensures LayoutOf(512, true, 5) == Layout(512, 7, 832)
    ensures LayoutOf(1024, true, 6) == Layout(1024, 3, 1408)
    ensures LayoutOf(2048, false, 7) == Layout(2048, 1, 2048)
  {
    LayoutIs(32, true, 1, 1);
    LayoutIs(64, true, 2, 1);
    LayoutIs(128, true, 3, 2);
    LayoutIs(256, true, 4, 4);
    LayoutIs(512, true, 5, 8);
    LayoutIs(1024, true, 6, 16);
    LayoutIs(2048, false, 7, 32);
    assert LowBit(1) == 1 && LowBit(2) == 2 && LowBit(4) == 4 && LowBit(8) == 8 && LowBit(16) == 16 && LowBit(32) == 32;
  }

  class KmemCache {
    const layout: Layout
    var heap: Heap
    var words: map<nat, nat>
    var partial: nat
    var full: nat
    var free: nat
    var objects: nat

    function State(): Cache
      reads this
    {
      Cache(layout, heap, words, partial, full, free, objects)
    }

    constructor (size: nat, hwcache: bool, count: nat, memory: map<nat, nat>)
      requires 32 <= size <= 2048
      ensures layout == LayoutOf(size, hwcache, count)
      ensures Overruns(layout) <==> hwcache && 64 * (count % 8) > Slack((size + 63) / 64)
      ensures State() == Cache(layout, map[], memory, 0, 0, 0, 0)
      ensures Inv(State(), {})
    {
      layout := LayoutOf(size, hwcache, count);
      heap, words, partial, full, free, objects := map[], memory, 0, 0, 0, 0;
      new;
      LayoutFits(size, hwcache, count);
      EmptyCache(layout, memory);
    }

    /** Builds the free chain of a new slab, slot by slot. */
    method BuildChain(base: nat)
      requires layout.total > 0
      modifies this`words
      ensures words == ChainWords(old(words), SlotSeq(base, layout.aligned, layout.total))
    {
      var i: nat, obj: nat := 0, base;
      while i < layout.total - 1
        invariant i < layout.total
        invariant ChainWords(words, SlotSeq(obj, layout.aligned, layout.total - i))
               == ChainWords(old(words), SlotSeq(base, layout.aligned, layout.total))
      {
        ghost var s := SlotSeq(obj, layout.aligned, layout.total - i);
        assert s[1..] == SlotSeq(obj + layout.aligned, layout.aligned, layout.total - i - 1);
        assert At(s, 1) == obj + layout.aligned;
        words := words[obj := obj + layout.aligned];
        obj := obj + layout.aligned;
        i := i + 1;
      }
      LastSlot(words, obj, layout.aligned);
      words := words[obj := 0];
    }

    method PushFront(s: nat, head: nat)
      requires 0 !in heap
      modifies this`heap
      ensures heap == Link(old(heap), s, head)
    {
      heap := SetNext(heap, s, head);
      heap := SetPrev(heap, s, 0);
      if head != 0 {
        heap := SetPrev(heap, head, s);
      }
    }

    /** Closes the gap around `s`. */
    method TakeOut(s: nat)
      requires 0 !in heap
      modifies this`heap
      ensures heap == Unlink(old(heap), s)
    {
      var p, n := PrevOf(heap, s), NextOf(heap, s);
      if p != 0 {
        heap := SetNext(heap, p, n);
      }
      if n != 0 {
        heap := SetPrev(heap, n, p);
      }
    }

    /** Gets a slab onto the partial list, if there is one to get. */
    method GetSlab(page: nat)
      requires 0 !in heap && layout.total > 0
      modifies this
      ensures State() == EnsureSlab(old(State()), page)
    {
      if partial != 0 {
        return;
      }
      if free != 0 {
        var s, next := free, NextOf(heap, free);
        TakeOut(s);
        free := next;
        PushFront(s, partial);
        partial := s;
      } else if page != 0 {
        var base := page + layout.offset;
        heap := heap[page := Slab(0, base, base, 0, 0)];
        BuildChain(base);
        PushFront(page, partial);
        partial := page;
      }
    }

    /** Moves a slab to the front of the full list; its links are those of a partial slab. */
    method ToFull(s: nat)
      requires 0 !in heap
      modifies this`heap, this`partial, this`full
      ensures State() == PartialToFull(old(State()), s)
    {
      if PrevOf(heap, s) == 0 {
        partial := NextOf(heap, s);
      }
      TakeOut(s);
      PushFront(s, full);
      full := s;
    }

    /** Takes the first object of slab `s`. */
    method Take(s: nat)
      requires s in heap && 0 !in heap
      modifies this
      ensures State() == TakeObject(old(State()), s)
    {
      var slab := heap[s];
      heap := heap[s := slab.(freelist := Word(words, slab.freelist), inuse := slab.inuse + 1)];
      objects := objects + 1;
      if heap[s].inuse == layout.total {
        ToFull(s);
      }
    }

    method AllocObject(page: nat) returns (obj: nat)
      requires 0 !in heap && layout.total > 0
      modifies this
      ensures Allocated(State(), obj) == SlabCache.Alloc(old(State()), page)
    {
      GetSlab(page);
      var s := partial;
      if s !in heap {
        return 0;
      }
      obj := heap[s].freelist;
      if obj != 0 {
        EnsureNoNull(old(State()), page);
        Take(s);
      }
    }

    /** Allocates an object: a free slot that no live object occupies, or NULL exactly when
        there is no partial or free slab and no page. The invariant is kept exactly when the
        page guard holds. */
    method Alloc(page: nat, ghost live: set<nat>) returns (obj: nat)
      requires Inv(State(), live) && FreshPage(State(), page)
      modifies this
      ensures Allocated(State(), obj) == SlabCache.Alloc(old(State()), page)
      ensures obj == 0 <==> old(partial) == 0 && old(free) == 0 && page == 0
      ensures obj == 0 ==> State() == old(State())
      ensures obj != 0 ==> obj !in live && (Inv(State(), live + {obj}) <==> PageGuard(old(State()), page))
    {
      AllocKeeps(State(), live, page);
      HeapOk(State(), live);
      obj := AllocObject(page);
    }

    /** Walks a list to the slab whose range holds `obj`. */
    method Search(head: nat, obj: nat, ghost q: seq<nat>) returns (x: nat)
      requires Dll(heap, head, q) && 0 !in heap && |q| <= |heap|
      ensures x == Find(State(), head, obj, |heap|)
    {
      x := head;
      ghost var i := 0;
      while x != 0
        invariant i <= |q| && x == At(q, i)
        invariant Find(State(), x, obj, |heap| - i) == Find(State(), head, obj, |heap|)
        decreases |q| - i
      {
        assert x == q[i];
        if InRange(State(), x, obj) {
          return;
        }
        FindOn(State(), x, obj, |heap| - i);
        x := heap[x].next;
        i := i + 1;
      }
    }

    /** Puts an object back into slab `s`. */
    method GiveBack(s: nat, obj: nat)
      requires s in heap && 0 !in heap
      modifies this
      ensures State() == Return(old(State()), s, obj)
    {
      var slab := heap[s];
      words := words[obj := slab.freelist];
      heap := heap[s := slab.(freelist := obj, inuse := if slab.inuse > 0 then slab.inuse - 1 else 0xFFFF_FFFF)];
      objects := if objects > 0 then objects - 1 else 0;
      if heap[s].inuse == 0 {
        if PrevOf(heap, s) == 0 {
          partial := NextOf(heap, s);
        }
        TakeOut(s);
        PushFront(s, free);
        free := s;
      } else if s == full {
        var next := NextOf(heap, s);
        TakeOut(s);
        full := next;
        PushFront(s, partial);
        partial := s;
      }
    }

    method FindOwner(obj: nat, ghost live: set<nat>) returns (s: nat)
      requires Inv(State(), live)
      ensures s == Owner(State(), obj)
    {
      ghost var ps, fs, es, fls :| InvWith(State(), live, ps, fs, es, fls);
      ListLength(heap, partial, ps);
      ListLength(heap, full, fs);
      s := Search(partial, obj, ps);
      if s == 0 {
        s := Search(full, obj, fs);
      }
    }

    /** Returns a live object. The invariant is kept exactly when the guard holds. */
    method Free(obj: nat, ghost live: set<nat>)
      requires Inv(State(), live) && obj in live
      modifies this
      ensures State() == SlabCache.Free(old(State()), obj)
      ensures Inv(State(), live - {obj}) <==> FreeGuard(old(State()), obj)
    {
      FreeKeepsIff(State(), live, obj);
      HeapOk(State(), live);
      var s := FindOwner(obj, live);
      if obj != 0 && s in heap {
        GiveBack(s, obj);
      }
    }
  }

  /** Creates a cache when `created` caches exist already: refused when the table is full or
      the object size is out of bounds. A new cache satisfies its invariant, and its objects
      overrun their pages exactly when it is coloured and the colour exceeds the slack. */
  method CacheCreate(created: nat, size: nat, hwcache: bool, memory: map<nat, nat>) returns (cache: KmemCache?)
    ensures cache == null <==> created >= 64 || size < 32 || size > 2048
    ensures cache != null ==> fresh(cache) && cache.layout == LayoutOf(size, hwcache, created + 1)
    ensures cache != null ==> cache.State() == Cache(cache.layout, map[], memory, 0, 0, 0, 0)
    ensures cache != null ==> Inv(cache.State(), {})
    ensures cache != null ==> (Overruns(cache.layout) <==> hwcache && 64 * ((created + 1) % 8) > Slack((size + 63) / 64))
  {
    if created >= MAX_CACHES || size < 32 || size > 2048 {
      return null;
    }
    LayoutFits(size, hwcache, created + 1);
    cache := new KmemCache(size, hwcache, created + 1, memory);
  }

  lemma FindOn(c: Cache, x: nat, obj: nat, n: nat)
    requires x in c.heap && n > 0 && !InRange(c, x, obj)
    ensures Find(c, x, obj, n) == Find(c, c.heap[x].next, obj, n - 1)
  {
  }

  lemma LastSlot(w: map<nat, nat>, obj: nat, a: nat)
    ensures ChainWords(w, SlotSeq(obj, a, 1)) == w[obj := 0]
  {
    assert SlotSeq(obj, a, 1) == [obj];
    assert ChainWords(w, [obj]) == ChainWords(w[obj := 0], []);
  }

  lemma EnsureNoNull(c: Cache, page: nat)
    requires 0 !in c.heap
    ensures 0 !in EnsureSlab(c, page).heap
  {
  }

  lemma HeapOk(c: Cache, live: set<nat>)
    requires Inv(c, live)
    ensures 0 !in c.heap && c.layout.total > 0
  {
  }
}
