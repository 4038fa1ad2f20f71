/** Slabs changing lists, and new slabs. */
module SlabMoves {
  import opened SlabLists
  import opened SlabCache
  import opened SlabSafety

  /** Moving a member of one list to the front of another. */
  lemma Move(h: Heap, fromHead: nat, from: seq<nat>, k: nat, toHead: nat, to: seq<nat>)
    requires 0 !in h && Dll(h, fromHead, from) && Dll(h, toHead, to) && k < |from|
    requires forall x :: x in from ==> x !in to
    ensures var x := from[k];
      var h' := Link(Unlink(h, x), x, toHead);
      && Dll(h', HeadAfterUnlink(h, x, fromHead), Without(from, k))
      && Dll(h', x, [x] + to)
      && SameData(h, h')
      && forall y :: y in h && y !in from && y !in to ==> h'[y] == h[y]
  {
    var x := from[k];
    var h1 := Unlink(h, x);
    assert x in from;
    UnlinkSpec(h, fromHead, from, k);
    UnlinkFrame(h, fromHead, from, k);
    WithoutDistinct(from, k);
    DllFrame(h, h1, toHead, to);
    LinkSpec(h1, x, toHead, to);
    var h' := Link(h1, x, toHead);
    DllFrame(h1, h', HeadAfterUnlink(h, x, fromHead), Without(from, k));
  }

  /** Moving a slab from the first list to the second keeps all three in order. */
  lemma MoveThree(h: Heap, a: nat, sa: seq<nat>, k: nat, b: nat, sb: seq<nat>, d: nat, sd: seq<nat>)
    requires ThreeLists(h, a, sa, b, sb, d, sd) && k < |sa|
    ensures var x := sa[k];
      var h' := Link(Unlink(h, x), x, b);
      ThreeLists(h', HeadAfterUnlink(h, x, a), Without(sa, k), x, [x] + sb, d, sd) && SameData(h, h')
  {
    var x := sa[k];
    var h' := Link(Unlink(h, x), x, b);
    Move(h, a, sa, k, b, sb);
    WithoutDistinct(sa, k);
    assert x in sa;
    DllFrame(h, h', d, sd);
    StillApart(sa, k, sb, sd);
  }

  lemma StillApart(sa: seq<nat>, k: nat, sb: seq<nat>, sd: seq<nat>)
    requires Distinct(sa) && k < |sa| && Apart(sa, sb) && Apart(sa, sd) && Apart(sb, sd)
    ensures Apart(Without(sa, k), [sa[k]] + sb) && Apart(Without(sa, k), sd) && Apart([sa[k]] + sb, sd)
    ensures forall x :: x in sa || x in sb ==> x in Without(sa, k) || x in [sa[k]] + sb
  {
    WithoutDistinct(sa, k);
    assert sa[k] in sa;
  }

  /** The three lists may be named in any order. */
  lemma Reorder(h: Heap, a: nat, sa: seq<nat>, b: nat, sb: seq<nat>, d: nat, sd: seq<nat>)
    requires ThreeLists(h, a, sa, b, sb, d, sd)
    ensures ThreeLists(h, a, sa, d, sd, b, sb) && ThreeLists(h, b, sb, a, sa, d, sd) && ThreeLists(h, b, sb, d, sd, a, sa)
    ensures ThreeLists(h, d, sd, a, sa, b, sb) && ThreeLists(h, d, sd, b, sb, a, sa)
  {
  }

  lemma SlabsOkFrame(c: Cache, c': Cache, live: set<nat>, fls: map<nat, seq<nat>>)
    requires SlabsOk(c, live, fls) && SameData(c.heap, c'.heap) && c'.layout == c.layout && c'.words == c.words
    ensures SlabsOk(c', live, fls)
  {
    forall p | p in c'.heap
      ensures SlabOk(c'.layout, c'.words, live, p, c'.heap[p], fls[p])
    {
      assert SlabOk(c.layout, c.words, live, p, c.heap[p], fls[p]);
    }
    assert Covered(c'.layout, c'.heap, live) by {
      forall x | x in live
        ensures exists p :: p in c'.heap && IsSlot(c.layout, p, x)
      {
        var p :| p in c.heap && IsSlot(c.layout, p, x);
      }
    }
  }

  // ---------------------------------------------------------------- new slabs

  lemma {:induction false} ChainWordsSpec(w: map<nat, nat>, s: seq<nat>)
    requires Distinct(s)
    ensures forall i :: 0 <= i < |s| ==> Word(ChainWords(w, s), s[i]) == At(s, i + 1)
    ensures forall y :: y !in s ==> Word(ChainWords(w, s), y) == Word(w, y)
    decreases |s|
  {
    if s != [] {
      var w1, t := w[s[0] := At(s, 1)], s[1..];
      ChainWordsSpec(w1, t);
      assert s == [s[0]] + t;
      forall i | 0 <= i < |s|
        ensures Word(ChainWords(w, s), s[i]) == At(s, i + 1)
      {
        if i > 0 {
          assert s[i] == t[i - 1] && At(t, i) == At(s, i + 1);
        } else {
          assert s[0] !in t;
        }
      }
    }
  }

  /** A page the page allocator may hand out next. */
  predicate FreshPage(c: Cache, page: nat) {
    page != 0 ==> page !in c.heap && page % PAGE_SIZE == 0
  }

  /** Objects reach a descriptor only by overrunning their page, and then only the one on the
      page right behind. */
  lemma MeetsIff(l: Layout, p: nat, q: nat)
    requires Fits(l) && p % PAGE_SIZE == 0 && q % PAGE_SIZE == 0
    ensures Meets(l, p, q) <==> Overruns(l) && q == p + PAGE_SIZE
  {
    var a, b := p / PAGE_SIZE, q / PAGE_SIZE;
    assert p == PAGE_SIZE * a && q == PAGE_SIZE * b;
  }

  /** Where objects overrun their page, no slab is on a page next to `page`. */
  predicate Spaced(l: Layout, pages: set<nat>, page: nat) {
    Overruns(l) ==> forall q :: q in pages ==> q + PAGE_SIZE != page && page + PAGE_SIZE != q
  }

  lemma ClearWith(l: Layout, pages: set<nat>, page: nat)
    requires Fits(l) && Clear(l, pages) && page % PAGE_SIZE == 0 && forall q :: q in pages ==> q % PAGE_SIZE == 0
    ensures Clear(l, pages + {page}) <==> Spaced(l, pages, page)
  {
    forall q | q in pages + {page}
      ensures Meets(l, q, page) <==> Overruns(l) && page == q + PAGE_SIZE
      ensures Meets(l, page, q) <==> Overruns(l) && q == page + PAGE_SIZE
    {
      MeetsIff(l, q, page);
      MeetsIff(l, page, q);
    }
    if Clear(l, pages + {page}) {
      assert page in pages + {page};
    }
  }

  lemma NotLiveOnNewPage(c: Cache, live: set<nat>, fls: map<nat, seq<nat>>, page: nat, x: nat)
    requires Fits(c.layout) && SlabsOk(c, live, fls) && page !in c.heap && page % PAGE_SIZE == 0
    requires IsSlot(c.layout, page, x)
    ensures x !in live
  {
    if x in live {
      var p :| p in c.heap && IsSlot(c.layout, p, x);
      OnePage(c.layout, p, page, x);
    }
  }

  lemma NewSlabOk(c: Cache, live: set<nat>, fls: map<nat, seq<nat>>, page: nat, slab: Slab, slots: seq<nat>, w: map<nat, nat>)
    requires Fits(c.layout) && SlabsOk(c, live, fls) && page != 0 && FreshPage(c, page)
    requires slots == Slots(c.layout, page) && w == ChainWords(c.words, slots)
    requires slab.inuse == 0 && slab.freelist == At(slots, 0) && slab.objects == page + c.layout.offset
    ensures SlabOk(c.layout, w, live, page, slab, slots)
  {
    SlotsOf(c.layout, page, slots);
    ChainWordsSpec(c.words, slots);
    forall x | x in slots
      ensures IsSlot(c.layout, page, x) && x !in live && x != 0
    {
      assert IsSlot(c.layout, page, x);
      SlotInPage(c.layout, page, x);
      NotLiveOnNewPage(c, live, fls, page, x);
    }
  }

  lemma OldSlabOk(c: Cache, live: set<nat>, fls: map<nat, seq<nat>>, page: nat, slots: seq<nat>, w: map<nat, nat>, p: nat)
    requires Fits(c.layout) && SlabsOk(c, live, fls) && page != 0 && FreshPage(c, page) && p in c.heap
    requires slots == Slots(c.layout, page) && w == ChainWords(c.words, slots)
    ensures SlabOk(c.layout, w, live, p, c.heap[p], fls[p])
  {
    var fl := fls[p];
    assert SlabOk(c.layout, c.words, live, p, c.heap[p], fl);
    SlotsOf(c.layout, page, slots);
    ChainWordsSpec(c.words, slots);
    forall x | x in fl
      ensures x !in slots
    {
      assert IsSlot(c.layout, p, x);
      if x in slots {
        assert IsSlot(c.layout, page, x);
        OnePage(c.layout, p, page, x);
      }
    }
  }

  /** A new slab starts with all its slots on its chain and none live. */
  lemma NewSlabKeeps(c: Cache, c': Cache, live: set<nat>, fls: map<nat, seq<nat>>, page: nat, slab: Slab, slots: seq<nat>)
    requires Fits(c.layout) && SlabsOk(c, live, fls) && page != 0 && FreshPage(c, page)
    requires slots == Slots(c.layout, page) && c'.words == ChainWords(c.words, slots) && c'.layout == c.layout
    requires slab.inuse == 0 && slab.freelist == At(slots, 0) && slab.objects == page + c.layout.offset
    requires c'.heap == c.heap[page := slab]
    ensures SlabsOk(c', live, fls[page := slots])
  {
    var fls' := fls[page := slots];
    NewSlabOk(c, live, fls, page, slab, slots, c'.words);
    forall p | p in c'.heap
      ensures SlabOk(c'.layout, c'.words, live, p, c'.heap[p], fls'[p])
    {
      if p != page {
        OldSlabOk(c, live, fls, page, slots, c'.words, p);
      }
    }
    assert Covered(c'.layout, c'.heap, live) by {
      forall x | x in live
        ensures exists p :: p in c'.heap && IsSlot(c.layout, p, x)
      {
        var p :| p in c.heap && IsSlot(c.layout, p, x);
        assert p in c'.heap;
      }
    }
  }
}
