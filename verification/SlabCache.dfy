/** A slab cache: slabs on a partial, a full and a free list, objects on a free chain
    threaded through the free slots of their slab.

    A predicate written `var ok := ...; ok` means the same as its conjuncts. The form keeps the
    verifier from proving each conjunct apart wherever the predicate is asserted. */
module SlabCache {
  import opened SlabLists

  const PAGE_SIZE: nat := 4096
  const DESCRIPTOR: nat := 64    // size of a slab descriptor

  /** Object size, objects per slab, and where the objects start in a slab's page. */
  datatype Layout = Layout(aligned: nat, total: nat, offset: nat)

  /** Pages are named by address; `words` is the first word of each object slot. */
  datatype Cache = Cache(
    layout: Layout, heap: Heap, words: map<nat, nat>,
    partial: nat, full: nat, free: nat, objects: nat)

  function Word(w: map<nat, nat>, x: nat): nat {
    if x in w then w[x] else 0
  }

  /** `n` slots of size `a` from `base` on. */
  function SlotSeq(base: nat, a: nat, n: nat): (s: seq<nat>)
    ensures |s| == n
    decreases n
  {
    if n == 0 then [] else [base] + SlotSeq(base + a, a, n - 1)
  }

  function Slots(l: Layout, page: nat): seq<nat> {
    SlotSeq(page + l.offset, l.aligned, l.total)
  }

  predicate IsSlotFrom(base: nat, a: nat, n: nat, x: nat)
    decreases n
  {
    n > 0 && (x == base || IsSlotFrom(base + a, a, n - 1, x))
  }

  predicate IsSlot(l: Layout, page: nat, x: nat) {
    IsSlotFrom(page + l.offset, l.aligned, l.total, x)
  }

  // ---------------------------------------------------------------- operations

  /** Thread a chain through the slots of a new slab. */
  function ChainWords(w: map<nat, nat>, s: seq<nat>): map<nat, nat>
    decreases |s|
  {
    if s == [] then w else ChainWords(w[s[0] := At(s, 1)], s[1..])
  }

  function Inuse(c: Cache, s: nat): nat {
    if s in c.heap then c.heap[s].inuse else 0
  }

  /** Move the first free slab to the partial list. */
  function ReuseSlab(c: Cache): Cache {
    var s := c.free;
    c.(heap := Link(Unlink(c.heap, s), s, c.partial), free := NextOf(c.heap, s), partial := s)
  }

  /** Set up a slab in `page` and put it on the partial list. */
  function NewSlab(c: Cache, page: nat): Cache {
    var slots := Slots(c.layout, page);
    var slab := Slab(0, At(slots, 0), page + c.layout.offset, 0, 0);
    c.(heap := Link(c.heap[page := slab], page, c.partial), words := ChainWords(c.words, slots), partial := page)
  }

  /** Make sure the partial list has a slab, if possible: a free one, or a new one in
      `page`, which is what the page allocator returns if it is asked (0 for none). */
  function EnsureSlab(c: Cache, page: nat): Cache {
    if c.partial != 0 then c
    else if c.free != 0 then ReuseSlab(c)
    else if page == 0 then c
    else NewSlab(c, page)
  }

  datatype Allocated = Allocated(cache: Cache, obj: nat)

  /** Take the first object off a slab's free chain. */
  function PopObject(c: Cache, s: nat): Cache
    requires s in c.heap
  {
    var slab := c.heap[s];
    c.(heap := c.heap[s := slab.(freelist := Word(c.words, slab.freelist), inuse := slab.inuse + 1)],
       objects := c.objects + 1)
  }

  function PartialToFull(c: Cache, s: nat): Cache {
    c.(heap := Link(Unlink(c.heap, s), s, c.full),
       partial := HeadAfterUnlink(c.heap, s, c.partial), full := s)
  }

  /** Take an object from slab `s`, which moves to the full list when that fills it. */
  function TakeObject(c: Cache, s: nat): Cache
    requires s in c.heap
  {
    var c1 := PopObject(c, s);
    if c1.heap[s].inuse == c.layout.total then PartialToFull(c1, s) else c1
  }

  function Alloc(c: Cache, page: nat): Allocated {
    var c1 := EnsureSlab(c, page);
    var s := c1.partial;
    if s !in c1.heap || c1.heap[s].freelist == 0 then Allocated(c1, 0)
    else Allocated(TakeObject(c1, s), c1.heap[s].freelist)
  }

  /** The address test by which the search recognises a slab. */
  predicate InRange(c: Cache, x: nat, obj: nat)
    requires x in c.heap
  {
    c.heap[x].objects <= obj < c.heap[x].objects + c.layout.total * c.layout.aligned
  }

  /** The first slab from `x` on whose object range holds `obj`, looking at no more than
      `n` slabs. */
  function Find(c: Cache, x: nat, obj: nat, n: nat): nat
    decreases n
  {
    if x !in c.heap || n == 0 then 0
    else if InRange(c, x, obj) then x
    else Find(c, c.heap[x].next, obj, n - 1)
  }

  function Owner(c: Cache, obj: nat): nat {
    var s := Find(c, c.partial, obj, |c.heap|);
    if s != 0 then s else Find(c, c.full, obj, |c.heap|)
  }

  /** Return an object to the front of its slab's free chain. */
  function PushObject(c: Cache, s: nat, obj: nat): Cache
    requires s in c.heap
  {
    var slab := c.heap[s];
    c.(heap := c.heap[s := slab.(freelist := obj, inuse := if slab.inuse > 0 then slab.inuse - 1 else 0xFFFF_FFFF)],
       words := c.words[obj := slab.freelist],
       objects := if c.objects > 0 then c.objects - 1 else 0)
  }

  /** An emptied slab is unlinked as if from the partial list, whatever list it is on. */
  function PartialToFree(c: Cache, s: nat): Cache {
    c.(heap := Link(Unlink(c.heap, s), s, c.free),
       partial := HeadAfterUnlink(c.heap, s, c.partial), free := s)
  }

  /** Only the head of the full list goes back to the partial list. */
  function FullToPartial(c: Cache, s: nat): Cache {
    c.(heap := Link(Unlink(c.heap, s), s, c.partial), full := NextOf(c.heap, s), partial := s)
  }

  /** Put `obj` back into slab `s` and let the slab change lists. */
  function Return(c: Cache, s: nat, obj: nat): Cache
    requires s in c.heap
  {
    var c1 := PushObject(c, s, obj);
    if c1.heap[s].inuse == 0 then PartialToFree(c1, s)
    else if s == c.full then FullToPartial(c1, s)
    else c1
  }

  function Free(c: Cache, obj: nat): Cache {
    var s := Owner(c, obj);
    if obj == 0 || s !in c.heap then c else Return(c, s, obj)
  }

  // ---------------------------------------------------------------- the invariant

  /** `head` starts a chain through exactly the slots `fl`, ending in NULL. */
  ghost predicate FreeChain(w: map<nat, nat>, head: nat, fl: seq<nat>) {
    && head == At(fl, 0) && Distinct(fl) && 0 !in fl
    && forall i :: 0 <= i < |fl| ==> Word(w, fl[i]) == At(fl, i + 1)
  }

  /** A slab's free chain and its live objects partition its slots, and `inuse` counts the
      live ones. */
  ghost predicate SlabOk(l: Layout, w: map<nat, nat>, live: set<nat>, page: nat, slab: Slab, fl: seq<nat>) {
    var ok :=
      && slab.objects == page + l.offset
      && FreeChain(w, slab.freelist, fl)
      && |fl| + slab.inuse == l.total
      && (forall x :: x in fl ==> IsSlot(l, page, x))
      && (forall x :: IsSlot(l, page, x) ==> (x in live <==> x !in fl));
    ok
  }

  /** Objects start past the descriptor and take up no more than a page. A colour may still
      push the last of them past the end of the slab's own page. */
  predicate Fits(l: Layout) {
    l.aligned > 0 && l.total > 0 && DESCRIPTOR <= l.offset <= PAGE_SIZE && l.total * l.aligned <= PAGE_SIZE
  }

  /** The last objects of a slab lie behind the end of its page. */
  predicate Overruns(l: Layout) {
    l.offset + l.total * l.aligned > PAGE_SIZE
  }

  /** An object of the slab at `p` shares memory with the descriptor at `q`. */
  predicate Meets(l: Layout, p: nat, q: nat) {
    p + l.offset < q + DESCRIPTOR && q < p + l.offset + l.total * l.aligned
  }

  /** No object of a slab shares memory with the descriptor of a slab. */
  ghost predicate Clear(l: Layout, pages: set<nat>) {
    forall p, q :: p in pages && q in pages ==> !Meets(l, p, q)
  }

  ghost predicate SlabsOk(c: Cache, live: set<nat>, fls: map<nat, seq<nat>>) {
    var ok :=
      && c.heap.Keys == fls.Keys
      && (forall p :: p in c.heap ==> p != 0 && p % PAGE_SIZE == 0)
      && (forall p :: p in c.heap ==> SlabOk(c.layout, c.words, live, p, c.heap[p], fls[p]))
      && Covered(c.layout, c.heap, live);
    ok
  }

  /** Every live object is a slot of some slab. */
  ghost predicate Covered(l: Layout, h: Heap, live: set<nat>) {
    forall x :: x in live ==> exists p :: p in h && IsSlot(l, p, x)
  }

  /** Three acyclic, doubly linked and disjoint lists that together hold every slab. */
  ghost predicate ThreeLists(h: Heap, a: nat, sa: seq<nat>, b: nat, sb: seq<nat>, d: nat, sd: seq<nat>) {
    var ok :=
      && 0 !in h
      && Dll(h, a, sa) && Dll(h, b, sb) && Dll(h, d, sd)
      && (forall x :: x in h ==> x in sa || x in sb || x in sd)
      && Apart(sa, sb) && Apart(sa, sd) && Apart(sb, sd);
    ok
  }

  ghost predicate Apart(s: seq<nat>, t: seq<nat>) {
    forall x :: x in s ==> x !in t
  }

  ghost predicate ListsOk(c: Cache, ps: seq<nat>, fs: seq<nat>, es: seq<nat>) {
    ThreeLists(c.heap, c.partial, ps, c.full, fs, c.free, es)
  }

  ghost predicate CountsOk(c: Cache, ps: seq<nat>, fs: seq<nat>, es: seq<nat>) {
    var ok :=
      && (forall x :: x in ps ==> 0 < Inuse(c, x) < c.layout.total)
      && (forall x :: x in fs ==> Inuse(c, x) == c.layout.total)
      && (forall x :: x in es ==> Inuse(c, x) == 0);
    ok
  }

  ghost predicate InvWith(c: Cache, live: set<nat>, ps: seq<nat>, fs: seq<nat>, es: seq<nat>, fls: map<nat, seq<nat>>) {
    && Fits(c.layout)
    && ListsOk(c, ps, fs, es) && CountsOk(c, ps, fs, es)
    && SlabsOk(c, live, fls)
    && c.objects == |live|
  }

  ghost predicate Ordered(c: Cache, live: set<nat>) {
    exists ps, fs, es, fls :: InvWith(c, live, ps, fs, es, fls)
  }

  ghost predicate Inv(c: Cache, live: set<nat>) {
    Ordered(c, live) && Clear(c.layout, c.heap.Keys)
  }
}
