/** What allocation and freeing keep: slots and chains, then lists, then the whole cache. */
module SlabSafety {
  import opened SlabLists
  import opened SlabCache

  // ---------------------------------------------------------------- slots

  lemma {:induction false} SlotIn(base: nat, a: nat, n: nat, x: nat)
    requires IsSlotFrom(base, a, n, x)
    ensures base <= x && x + a <= base + n * a
    decreases n
  {
    assert n * a == a + (n - 1) * a;
    if x != base {
      SlotIn(base + a, a, n - 1, x);
    } else {
      assert (n - 1) * a >= 0;
    }
  }

  lemma {:induction false} SlotAt(base: nat, a: nat, n: nat, i: nat, x: nat)
    requires i < n && x == base + a * i
    ensures IsSlotFrom(base, a, n, x)
    decreases n
  {
    if i > 0 {
      assert a * i == a + a * (i - 1);
      SlotAt(base + a, a, n - 1, i - 1, x);
    }
  }

  lemma {:induction false} SlotNumber(base: nat, a: nat, n: nat, x: nat) returns (i: nat)
    requires IsSlotFrom(base, a, n, x)
    ensures i < n && x == base + a * i
    decreases n
  {
    if x == base {
      i := 0;
    } else {
      var j := SlotNumber(base + a, a, n - 1, x);
      i := j + 1;
      assert a * i == a + a * j;
    }
  }

  /** The slots of a slab are its object positions, one object size apart. */
  lemma SlotsAre(l: Layout, page: nat, x: nat)
    ensures IsSlot(l, page, x) <==> exists i :: 0 <= i < l.total && x == page + l.offset + l.aligned * i
  {
    if IsSlot(l, page, x) {
      var i := SlotNumber(page + l.offset, l.aligned, l.total, x);
    }
    if i :| 0 <= i < l.total && x == page + l.offset + l.aligned * i {
      SlotAt(page + l.offset, l.aligned, l.total, i, x);
    }
  }

  lemma {:induction false} SlotSeqMember(base: nat, a: nat, n: nat, x: nat)
    ensures x in SlotSeq(base, a, n) <==> IsSlotFrom(base, a, n, x)
    decreases n
  {
    if n > 0 {
      SlotSeqMember(base + a, a, n - 1, x);
    }
  }

  lemma {:induction false} SlotsDistinct(base: nat, a: nat, n: nat)
    requires a > 0
    ensures Distinct(SlotSeq(base, a, n))
    decreases n
  {
    if n > 0 {
      var rest := SlotSeq(base + a, a, n - 1);
      SlotsDistinct(base + a, a, n - 1);
      forall i | 0 <= i < |rest|
        ensures rest[i] != base
      {
        SlotSeqMember(base + a, a, n - 1, rest[i]);
        SlotIn(base + a, a, n - 1, rest[i]);
      }
    }
  }

  /** The slots of a page, as a sequence without repetitions and as a predicate. */
  lemma SlotsOf(l: Layout, p: nat, slots: seq<nat>)
    requires l.aligned > 0 && slots == Slots(l, p)
    ensures Distinct(slots) && |slots| == l.total
    ensures forall x :: x in slots <==> IsSlot(l, p, x)
  {
    SlotsDistinct(p + l.offset, l.aligned, l.total);
    forall x: nat
      ensures x in slots <==> IsSlot(l, p, x)
    {
      SlotSeqMember(p + l.offset, l.aligned, l.total, x);
    }
  }

  lemma SlotInPage(l: Layout, p: nat, x: nat)
    requires Fits(l) && IsSlot(l, p, x)
    ensures p + DESCRIPTOR <= x
    ensures p + l.offset <= x < p + l.offset + l.total * l.aligned
  {
    SlotIn(p + l.offset, l.aligned, l.total, x);
  }

  /** A slot belongs to one page only. */
  lemma OnePage(l: Layout, p: nat, q: nat, x: nat)
    requires Fits(l) && p % PAGE_SIZE == 0 && q % PAGE_SIZE == 0 && IsSlot(l, p, x) && IsSlot(l, q, x)
    ensures p == q
  {
    SlotInPage(l, p, x);
    SlotInPage(l, q, x);
  }

  // ---------------------------------------------------------------- one object moves

  lemma ChainPop(w: map<nat, nat>, head: nat, fl: seq<nat>)
    requires FreeChain(w, head, fl) && fl != []
    ensures FreeChain(w, Word(w, head), fl[1..])
  {
    var fl' := fl[1..];
    forall i | 0 <= i < |fl'|
      ensures Word(w, fl'[i]) == At(fl', i + 1)
    {
      assert fl'[i] == fl[i + 1];
    }
  }

  lemma ChainPush(w: map<nat, nat>, head: nat, fl: seq<nat>, x: nat)
    requires FreeChain(w, head, fl) && x !in fl && x != 0
    ensures FreeChain(w[x := head], x, [x] + fl)
  {
    var fl', w' := [x] + fl, w[x := head];
    forall i | 0 <= i < |fl'|
      ensures Word(w', fl'[i]) == At(fl', i + 1)
    {
      if i > 0 {
        assert fl'[i] == fl[i - 1];
      }
    }
  }

  lemma PopSlab(c: Cache, live: set<nat>, fls: map<nat, seq<nat>>, s: nat)
    requires SlabsOk(c, live, fls) && s in c.heap && fls[s] != []
    ensures var obj := c.heap[s].freelist;
      && obj != 0 && IsSlot(c.layout, s, obj) && obj !in live
      && SlabOk(c.layout, c.words, live + {obj}, s, PopObject(c, s).heap[s], fls[s][1..])
  {
    var obj, fl := c.heap[s].freelist, fls[s];
    assert SlabOk(c.layout, c.words, live, s, c.heap[s], fl);
    assert obj == fl[0] && obj in fl;
    ChainPop(c.words, obj, fl);
    assert fl == [obj] + fl[1..];
  }

  lemma PopOther(c: Cache, live: set<nat>, fls: map<nat, seq<nat>>, s: nat, obj: nat, p: nat)
    requires Fits(c.layout) && SlabsOk(c, live, fls) && s in c.heap && IsSlot(c.layout, s, obj)
    requires p in c.heap && p != s
    ensures SlabOk(c.layout, c.words, live + {obj}, p, c.heap[p], fls[p])
  {
    assert SlabOk(c.layout, c.words, live, p, c.heap[p], fls[p]);
    if IsSlot(c.layout, p, obj) {
      OnePage(c.layout, p, s, obj);
    }
  }

  lemma CoveredMore(l: Layout, h: Heap, h': Heap, live: set<nat>, live': set<nat>, obj: nat, s: nat)
    requires Covered(l, h, live) && h.Keys <= h'.Keys && live' <= live + {obj} && s in h' && IsSlot(l, s, obj)
    ensures Covered(l, h', live')
  {
    forall x | x in live'
      ensures exists p :: p in h' && IsSlot(l, p, x)
    {
      if x in live {
        var p :| p in h && IsSlot(l, p, x);
        assert p in h';
      }
    }
  }

  /** The object popped was free, and is now live; everything else stays as it was. */
  lemma PopKeeps(c: Cache, live: set<nat>, fls: map<nat, seq<nat>>, s: nat)
    requires Fits(c.layout) && SlabsOk(c, live, fls) && s in c.heap && fls[s] != []
    ensures var obj := c.heap[s].freelist;
      && obj != 0 && IsSlot(c.layout, s, obj) && obj !in live
      && SlabsOk(PopObject(c, s), live + {obj}, fls[s := fls[s][1..]])
  {
    var obj, c', fl' := c.heap[s].freelist, PopObject(c, s), fls[s][1..];
    PopSlab(c, live, fls, s);
    forall p | p in c'.heap && p != s
      ensures SlabOk(c.layout, c.words, live + {obj}, p, c'.heap[p], fls[p])
    {
      PopOther(c, live, fls, s, obj, p);
    }
    CoveredMore(c.layout, c.heap, c'.heap, live, live + {obj}, obj, s);
    Reassemble(c, c', live + {obj}, fls, s, fl');
  }

  /** All slabs are in order once the changed one and the others are. */
  lemma Reassemble(c: Cache, c': Cache, live': set<nat>, fls: map<nat, seq<nat>>, s: nat, fl': seq<nat>)
    requires c.heap.Keys == fls.Keys == c'.heap.Keys && s in c.heap
    requires forall p :: p in c.heap ==> p != 0 && p % PAGE_SIZE == 0
    requires SlabOk(c'.layout, c'.words, live', s, c'.heap[s], fl')
    requires forall p :: p in c'.heap && p != s ==> SlabOk(c'.layout, c'.words, live', p, c'.heap[p], fls[p])
    requires Covered(c'.layout, c'.heap, live')
    ensures SlabsOk(c', live', fls[s := fl'])
  {
  }

  /** The object pushed was live, and is now free; everything else stays as it was. */
  lemma PushKeeps(c: Cache, live: set<nat>, fls: map<nat, seq<nat>>, s: nat, obj: nat)
    requires Fits(c.layout) && SlabsOk(c, live, fls) && s in c.heap && obj in live && IsSlot(c.layout, s, obj)
    ensures c.heap[s].inuse > 0
    ensures SlabsOk(PushObject(c, s, obj), live - {obj}, fls[s := [obj] + fls[s]])
  {
    var c', fl' := PushObject(c, s, obj), [obj] + fls[s];
    InuseOfLive(c, live, fls, s, obj);
    PushSlab(c, live, fls, s, obj);
    forall p | p in c'.heap && p != s
      ensures SlabOk(c.layout, c'.words, live - {obj}, p, c'.heap[p], fls[p])
    {
      PushOther(c, live, fls, s, obj, p);
    }
    CoveredMore(c.layout, c.heap, c'.heap, live, live - {obj}, obj, s);
    Reassemble(c, c', live - {obj}, fls, s, fl');
  }

  /** A slab with a live object is in use: its chain cannot hold all its slots. */
  lemma InuseOfLive(c: Cache, live: set<nat>, fls: map<nat, seq<nat>>, s: nat, obj: nat)
    requires Fits(c.layout) && SlabsOk(c, live, fls) && s in c.heap && obj in live && IsSlot(c.layout, s, obj)
    ensures c.heap[s].inuse > 0
  {
    var fl, slots := fls[s], Slots(c.layout, s);
    assert SlabOk(c.layout, c.words, live, s, c.heap[s], fl);
    SlotsOf(c.layout, s, slots);
    forall y | y in fl
      ensures y in slots
    {
      assert IsSlot(c.layout, s, y);
    }
    ProperSubset(fl, slots, obj);
  }

  ghost function Elements(s: seq<nat>): set<nat> {
    set y | y in s
  }

  /** A sequence without repetitions drawn from another that also holds `x` is shorter. */
  lemma ProperSubset(fl: seq<nat>, slots: seq<nat>, x: nat)
    requires Distinct(fl) && Distinct(slots) && (forall y :: y in fl ==> y in slots) && x in slots && x !in fl
    ensures |fl| < |slots|
  {
    SetSize(fl);
    SetSize(slots);
    SubsetSize(Elements(fl), Elements(slots) - {x});
  }

  lemma {:induction false} SetSize(s: seq<nat>)
    requires Distinct(s)
    ensures |Elements(s)| == |s|
  {
    if s != [] {
      var t := s[1..];
      SetSize(t);
      assert s == [s[0]] + t;
      assert s[0] !in t;
      assert Elements(s) == {s[0]} + Elements(t);
    }
  }

  lemma {:induction false} SubsetSize(a: set<nat>, b: set<nat>)
    requires a <= b
    ensures |a| <= |b|
    decreases |a|
  {
    if a != {} {
      var x :| x in a;
      SubsetSize(a - {x}, b - {x});
    }
  }

  lemma PushSlab(c: Cache, live: set<nat>, fls: map<nat, seq<nat>>, s: nat, obj: nat)
    requires Fits(c.layout) && SlabsOk(c, live, fls) && s in c.heap && obj in live && IsSlot(c.layout, s, obj)
    requires c.heap[s].inuse > 0
    ensures var c' := PushObject(c, s, obj);
      SlabOk(c.layout, c'.words, live - {obj}, s, c'.heap[s], [obj] + fls[s])
  {
    var fl := fls[s];
    assert SlabOk(c.layout, c.words, live, s, c.heap[s], fl);
    SlotInPage(c.layout, s, obj);
    ChainPush(c.words, c.heap[s].freelist, fl, obj);
  }

  lemma PushOther(c: Cache, live: set<nat>, fls: map<nat, seq<nat>>, s: nat, obj: nat, p: nat)
    requires Fits(c.layout) && SlabsOk(c, live, fls) && s in c.heap && IsSlot(c.layout, s, obj)
    requires p in c.heap && p != s
    ensures SlabOk(c.layout, PushObject(c, s, obj).words, live - {obj}, p, c.heap[p], fls[p])
  {
    var fl := fls[p];
    assert SlabOk(c.layout, c.words, live, p, c.heap[p], fl);
    if IsSlot(c.layout, p, obj) {
      OnePage(c.layout, p, s, obj);
    }
    assert obj !in fl;
  }
}
