/** Which stores into memory a slab cache survives. */
module SlabStores {
  import opened SlabLists
  import opened SlabCache
  import opened SlabFrees

  lemma {:induction false} SameStart(w: map<nat, nat>, w': map<nat, nat>, head: nat, fl: seq<nat>, fl': seq<nat>, i: nat, j: nat)
    requires FreeChain(w, head, fl) && FreeChain(w', head, fl') && |fl| == |fl'| && j <= i < |fl|
    requires forall x :: x != fl[i] ==> Word(w', x) == Word(w, x)
    ensures fl'[j] == fl[j]
    decreases j
  {
    if j > 0 {
      SameStart(w, w', head, fl, fl', i, j - 1);
      assert fl[j - 1] != fl[i];
    }
  }

  /** Two chains from the same head through the same slots, over memories that differ at most
      in one slot's word, do not differ there either. */
  lemma ChainsAgree(w: map<nat, nat>, w': map<nat, nat>, head: nat, fl: seq<nat>, fl': seq<nat>, i: nat)
    requires FreeChain(w, head, fl) && FreeChain(w', head, fl') && |fl| == |fl'| && i < |fl|
    requires forall x :: x in fl <==> x in fl'
    requires forall x :: x != fl[i] ==> Word(w', x) == Word(w, x)
    ensures Word(w', fl[i]) == Word(w, fl[i])
  {
    SameStart(w, w', head, fl, fl', i, i);
    if i + 1 < |fl| {
      var next := fl[i + 1];
      assert next in fl;
      var j :| 0 <= j < |fl'| && fl'[j] == next;
      if j <= i {
        SameStart(w, w', head, fl, fl', i, j);
      } else if j > i + 1 {
        OnlyPredecessor(w, head, fl, fl'[j - 1], i);
      }
    }
  }

  /** In a chain only the slot before `fl[i + 1]` links to it. */
  lemma OnlyPredecessor(w: map<nat, nat>, head: nat, fl: seq<nat>, x: nat, i: nat)
    requires FreeChain(w, head, fl) && i + 1 < |fl| && x in fl && Word(w, x) == fl[i + 1]
    ensures x == fl[i]
  {
    assert fl[i + 1] in fl;
    var m :| 0 <= m < |fl| && fl[m] == x;
    assert fl[m + 1] == fl[i + 1];
  }

  lemma SlabStoreBreaks(l: Layout, w: map<nat, nat>, live: set<nat>, p: nat, slab: Slab, fl: seq<nat>, fl': seq<nat>, x: nat, v: nat)
    requires SlabOk(l, w, live, p, slab, fl) && SlabOk(l, w[x := v], live, p, slab, fl') && IsSlot(l, p, x) && x !in live
    ensures Word(w, x) == v
  {
    var i :| 0 <= i < |fl| && fl[i] == x;
    ChainsAgree(w, w[x := v], slab.freelist, fl, fl', i);
  }

  lemma FreeSlotStore(c: Cache, live: set<nat>, p: nat, x: nat, v: nat)
    requires Ordered(c, live) && p in c.heap && IsSlot(c.layout, p, x) && x !in live
    requires Ordered(c.(words := c.words[x := v]), live)
    ensures Word(c.words, x) == v
  {
    var c' := c.(words := c.words[x := v]);
    var ps, fs, es, fls :| InvWith(c, live, ps, fs, es, fls);
    var ps', fs', es', fls' :| InvWith(c', live, ps', fs', es', fls');
    assert SlabOk(c.layout, c.words, live, p, c.heap[p], fls[p]);
    assert SlabOk(c.layout, c'.words, live, p, c.heap[p], fls'[p]);
    SlabStoreBreaks(c.layout, c.words, live, p, c.heap[p], fls[p], fls'[p], x, v);
  }

  /** A store outside the descriptors keeps the invariant if and only if it goes to a live
      object or foreign memory, or writes what is there: any change to a free slot's link
      breaks the chain. */
  lemma StoreKeepsIff(c: Cache, live: set<nat>, address: nat, v: nat)
    requires Inv(c, live) && OutsideDescriptors(c, address)
    ensures Inv(c.(words := c.words[address := v]), live) <==>
      address in live || Foreign(c, address) || Word(c.words, address) == v
  {
    if address in live || Foreign(c, address) {
      StoreKeeps(c, live, address, v);
    } else if Word(c.words, address) == v {
      WordsKeep(c, live, c.words[address := v]);
    } else {
      var p :| p in c.heap && IsSlot(c.layout, p, address);
      if Inv(c.(words := c.words[address := v]), live) {
        FreeSlotStore(c, live, p, address, v);
      }
    }
  }
}
