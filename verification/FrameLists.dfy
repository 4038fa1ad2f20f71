/** The free areas of one zone of the buddy allocator: counted heads into lists that
    are threaded through the first word of each free page, and what searching,
    splitting and coalescing do to the lists those heads denote. */
module FrameLists {
  import opened Bits

  const MAX_ORDER: nat := 11
  const NR_FREE_AREA: nat := 12

  /** `nr_free` and `free_list`. Pages are named by frame number and 0 is NULL. */
  datatype Area = Area(nrFree: nat, head: nat)

  /** The first word of every page, read as a link. A page never written holds 0. */
  type Words = map<nat, nat>

  type Zone = a: seq<Area> | |a| == 12 witness seq(12, _ => Area(0, 0))
  type FreeLists = l: seq<seq<nat>> | |l| == 12 witness seq(12, _ => [])

  function Word(w: Words, p: nat): nat {
    if p in w then w[p] else 0
  }

  function Buddy(p: nat, k: nat): nat {
    BitXor(p, Pow2(k))
  }

  /** The first `n` pages of the chain that starts at `p`. */
  function Walk(w: Words, p: nat, n: nat): (s: seq<nat>)
    ensures |s| == n
    decreases n
  {
    if n == 0 then [] else [p] + Walk(w, Word(w, p), n - 1)
  }

  function ListsUpto(a: Zone, w: Words, n: nat): (l: seq<seq<nat>>)
    requires n <= 12
    ensures |l| == n
    ensures forall i :: 0 <= i < n ==> l[i] == Walk(w, a[i].head, a[i].nrFree)
    decreases n, a
  {
    if n == 0 then [] else ListsUpto(a, w, n - 1) + [Walk(w, a[n - 1].head, a[n - 1].nrFree)]
  }

  /** The pages listed in each free area, order by order. */
  function Lists(a: Zone, w: Words): (l: FreeLists)
    ensures forall i :: 0 <= i < 12 ==> l[i] == Walk(w, a[i].head, a[i].nrFree)
  {
    ListsUpto(a, w, 12)
  }

  lemma WalkOne(w: Words, p: nat)
    ensures Walk(w, p, 1) == [p]
  {
  }

  /** Writing the word of a page that is not on a chain leaves the chain alone. */
  lemma {:induction false} WalkFrame(w: Words, p: nat, n: nat, q: nat, v: nat)
    requires q !in Walk(w, p, n)
    ensures Walk(w[q := v], p, n) == Walk(w, p, n)
    decreases n
  {
    if n > 0 {
      WalkFrame(w, Word(w, p), n - 1, q, v);
    }
  }

  // ---------------------------------------------------------------- searching and splitting

  datatype AllocResult = AllocResult(areas: Zone, page: nat, debit: nat)

  /** Keep the lower half of the block found, if any, and list the upper half alone. */
  function AfterSplit(r: AllocResult, k: nat): AllocResult
    requires k < NR_FREE_AREA
  {
    if r.page == 0 then r
    else r.(areas := r.areas[k := Area((r.areas[k].nrFree + 1) % TWO64, Buddy(r.page, k))])
  }

  /** Take a block of order `k`, splitting a larger one when the list is empty. A split
      lists the upper half without writing its link word. */
  function AllocZone(a: Zone, w: Words, k: nat): AllocResult
    decreases NR_FREE_AREA - k
  {
    if k >= NR_FREE_AREA then AllocResult(a, 0, 0)
    else if a[k].nrFree == 0 then
      if k + 1 < NR_FREE_AREA then AfterSplit(AllocZone(a, w, k + 1), k)
      else AllocResult(a, 0, 0)
    else
      AllocResult(a[k := Area(a[k].nrFree - 1, Word(w, a[k].head))], a[k].head, Pow2(k))
  }

  /** Listed pages are real pages on the boundary of their order. */
  ghost predicate Proper(l: FreeLists) {
    forall i, p :: 0 <= i < 12 && p in l[i] ==> p != 0 && Multiple(p, i)
  }

  /** The smallest order at or above `k` whose list is not empty, or 12. */
  function FindOrder(l: FreeLists, k: nat): (f: nat)
    ensures f >= 12 <==> forall i :: k <= i < 12 ==> l[i] == []
    ensures f < 12 ==> k <= f && l[f] != [] && forall i :: k <= i < f ==> l[i] == []
    decreases NR_FREE_AREA - k
  {
    if k >= 12 then 12 else if l[k] != [] then k else FindOrder(l, k + 1)
  }

  /** The lists after taking the first block of list `f` apart down to order `k`: its
      upper halves become the only members of the lists in between. */
  function SplitLists(l: FreeLists, k: nat, f: nat): (r: FreeLists)
    requires k <= f < 12 && l[f] != []
    ensures forall i :: 0 <= i < 12 ==>
      r[i] == if i == f then l[f][1..] else if k <= i < f then [l[f][0] + Pow2(i)] else l[i]
  {
    seq(12, i requires 0 <= i < 12 =>
      if i == f then l[f][1..] else if k <= i < f then [l[f][0] + Pow2(i)] else l[i])
  }

  /** What an allocation at order `k` on lists `l` must have done: nothing exactly when
      every list at or above `k` is empty, and otherwise it took the head of the smallest
      sufficient order, left one upper half on each list in between and touched no other
      list. */
  ghost predicate Allocated(l: FreeLists, a: Zone, w: Words, k: nat, r: AllocResult) {
    var f := FindOrder(l, k);
    if f >= 12 then r == AllocResult(a, 0, 0)
    else
      && r.page == l[f][0] && r.page != 0 && r.debit == Pow2(f)
      && Lists(r.areas, w) == SplitLists(l, k, f)
  }

  lemma {:induction false} AllocZoneSpec(a: Zone, w: Words, k: nat)
    requires Proper(Lists(a, w))
    ensures Allocated(Lists(a, w), a, w, k, AllocZone(a, w, k))
    decreases NR_FREE_AREA - k
  {
    if k < 12 {
      if a[k].nrFree > 0 {
        AllocTakes(a, w, k);
      } else if k + 1 < 12 {
        AllocZoneSpec(a, w, k + 1);
        AllocStep(a, w, k, AllocZone(a, w, k + 1));
      }
    }
  }

  lemma AllocStep(a: Zone, w: Words, k: nat, r: AllocResult)
    requires k + 1 < 12 && a[k].nrFree == 0 && Proper(Lists(a, w))
    requires Allocated(Lists(a, w), a, w, k + 1, r)
    ensures Allocated(Lists(a, w), a, w, k, AfterSplit(r, k))
  {
    var l := Lists(a, w);
    var f := FindOrder(l, k);
    if f < 12 {
      assert l[f][0] in l[f];
      SplitBuddy(r.page, k, f);
      var q := r.page + Pow2(k);
      SplitSpec(l, w, r.areas, q, k, f);
      assert r.areas[k].nrFree == |Lists(r.areas, w)[k]|;
      AfterSplitIs(r, k, q);
      var a' := AfterSplit(r, k).areas;
      assert a' == r.areas[k := Area(1, q)];
      assert Lists(a', w) == SplitLists(l, k, f);
    }
  }

  lemma AfterSplitIs(r: AllocResult, k: nat, q: nat)
    requires k < NR_FREE_AREA && r.page != 0 && r.areas[k].nrFree == 0 && Buddy(r.page, k) == q
    ensures AfterSplit(r, k).areas == r.areas[k := Area(1, q)]
    ensures AfterSplit(r, k).page == r.page && AfterSplit(r, k).debit == r.debit
  {
  }

  lemma AllocTakes(a: Zone, w: Words, k: nat)
    requires k < 12 && a[k].nrFree > 0 && Proper(Lists(a, w))
    ensures Allocated(Lists(a, w), a, w, k, AllocZone(a, w, k))
  {
    var l := Lists(a, w);
    assert l[k][0] in l[k];
    ListsUpdate(a, w, k, Area(a[k].nrFree - 1, Word(w, a[k].head)));
    assert l[k := l[k][1..]] == SplitLists(l, k, k);
  }

  lemma SplitSpec(l: FreeLists, w: Words, a: Zone, q: nat, k: nat, f: nat)
    requires k < f < 12 && l[f] != []
    requires q == l[f][0] + Pow2(k)
    requires Lists(a, w) == SplitLists(l, k + 1, f)
    ensures Lists(a[k := Area(1, q)], w) == SplitLists(l, k, f)
  {
    WalkOne(w, q);
    ListsUpdate(a, w, k, Area(1, q));
    SplitStep(l, k, f);
  }

  lemma ListsUpdate(a: Zone, w: Words, k: nat, x: Area)
    requires k < 12
    ensures Lists(a[k := x], w) == Lists(a, w)[k := Walk(w, x.head, x.nrFree)]
  {
  }

  lemma SplitStep(l: FreeLists, k: nat, f: nat)
    requires k < f < 12 && l[f] != []
    ensures SplitLists(l, k, f) == SplitLists(l, k + 1, f)[k := [l[f][0] + Pow2(k)]]
  {
  }

  lemma SplitBuddy(p: nat, k: nat, f: nat)
    requires k < f && Multiple(p, f)
    ensures Multiple(p, k + 1) && Buddy(p, k) == p + Pow2(k)
  {
    MultipleWeaken(p, f, k + 1);
    MultipleHalves(p, k);
    XorPair(p, k);
  }

  // ---------------------------------------------------------------- coalescing

  datatype Coalesced = Coalesced(areas: Zone, page: nat, order: nat)

  /** Unlink the head `b` of list `k`; the count is a 64-bit word. */
  function Taken(a: Zone, w: Words, k: nat, b: nat): Zone
    requires k <= MAX_ORDER
  {
    a[k := Area((a[k].nrFree + TWO64 - 1) % TWO64, Word(w, b))]
  }

  /** The merging loop of a free: while the head of the list is the block's buddy, take
      it off and continue with the joined block. Only the head is compared, and the
      count is not consulted. */
  function Coalesce(a: Zone, w: Words, p: nat, k: nat): (c: Coalesced)
    requires k <= MAX_ORDER
    ensures k <= c.order <= MAX_ORDER
    decreases MAX_ORDER - k
  {
    if k < MAX_ORDER && a[k].head == Buddy(p, k) then
      Coalesce(Taken(a, w, k, Buddy(p, k)), w, BitAnd(p, Buddy(p, k)), k + 1)
    else Coalesced(a, p, k)
  }

  /** Every merge that the loop performs takes a block that is really listed. */
  predicate MergesListed(a: Zone, w: Words, p: nat, k: nat)
    requires k <= MAX_ORDER
    decreases MAX_ORDER - k
  {
    k < MAX_ORDER && a[k].head == Buddy(p, k) ==>
      && a[k].nrFree > 0
      && MergesListed(Taken(a, w, k, Buddy(p, k)), w, BitAnd(p, Buddy(p, k)), k + 1)
  }

  datatype Joined = Joined(lists: FreeLists, page: nat, order: nat)

  /** Coalescing on lists: join while the first member of the list is the buddy. */
  function Join(l: FreeLists, p: nat, k: nat): (j: Joined)
    requires k <= MAX_ORDER
    ensures k <= j.order <= MAX_ORDER
    decreases MAX_ORDER - k
  {
    if k < MAX_ORDER && l[k] != [] && l[k][0] == Buddy(p, k)
    then Join(l[k := l[k][1..]], BitAnd(p, Buddy(p, k)), k + 1)
    else Joined(l, p, k)
  }

  lemma TakenLists(a: Zone, w: Words, k: nat, b: nat)
    requires k <= MAX_ORDER && a[k].head == b && 0 < a[k].nrFree < TWO64
    ensures var l := Lists(a, w);
      l[k] != [] && l[k][0] == b && Lists(Taken(a, w, k, b), w) == l[k := l[k][1..]]
    ensures Taken(a, w, k, b)[k].nrFree == a[k].nrFree - 1
  {
    var l, a' := Lists(a, w), Taken(a, w, k, b);
    assert a'[k].nrFree == a[k].nrFree - 1;
    assert l[k][1..] == Walk(w, Word(w, b), a[k].nrFree - 1);
    forall i | 0 <= i < 12
      ensures Lists(a', w)[i] == l[k := l[k][1..]][i]
    {
    }
  }

  /** When every merge takes a listed block, the loop on heads, counts and link words
      does what joining does on lists. */
  lemma {:induction false} CoalesceRefinesJoin(a: Zone, w: Words, p: nat, k: nat)
    requires k <= MAX_ORDER && MergesListed(a, w, p, k)
    requires forall i :: 0 <= i < 12 ==> a[i].nrFree < TWO64
    ensures var c, j := Coalesce(a, w, p, k), Join(Lists(a, w), p, k);
      && Lists(c.areas, w) == j.lists && c.page == j.page && c.order == j.order
      && forall i :: 0 <= i < 12 ==> c.areas[i].nrFree < TWO64
    decreases MAX_ORDER - k
  {
    var l := Lists(a, w);
    if k < MAX_ORDER && a[k].head == Buddy(p, k) {
      var b := Buddy(p, k);
      TakenLists(a, w, k, b);
      CoalesceRefinesJoin(Taken(a, w, k, b), w, BitAnd(p, b), k + 1);
    }
  }

  /** If some merge takes a block that is not listed, a count wraps below zero. */
  lemma {:induction false} BadMergeWraps(a: Zone, w: Words, p: nat, k: nat) returns (i: nat)
    requires k <= MAX_ORDER && !MergesListed(a, w, p, k)
    ensures k <= i < Coalesce(a, w, p, k).order
    ensures Coalesce(a, w, p, k).areas[i].nrFree == TWO64 - 1
    decreases MAX_ORDER - k
  {
    var b := Buddy(p, k);
    var a' := Taken(a, w, k, b);
    if a[k].nrFree == 0 {
      i := k;
      CoalesceBelow(a', w, BitAnd(p, b), k + 1, k);
    } else {
      i := BadMergeWraps(a', w, BitAnd(p, b), k + 1);
    }
  }

  /** The loop only touches areas between its first and last order. */
  lemma {:induction false} CoalesceBelow(a: Zone, w: Words, p: nat, k: nat, i: nat)
    requires k <= MAX_ORDER && i < 12 && (i < k || i >= Coalesce(a, w, p, k).order)
    ensures Coalesce(a, w, p, k).areas[i] == a[i]
    decreases MAX_ORDER - k
  {
    if k < MAX_ORDER && a[k].head == Buddy(p, k) {
      CoalesceBelow(Taken(a, w, k, Buddy(p, k)), w, BitAnd(p, Buddy(p, k)), k + 1, i);
    }
  }

  /** Link `q` in front of list `m`. */
  function Push(a: Zone, q: nat, m: nat): Zone
    requires m <= MAX_ORDER
  {
    a[m := Area((a[m].nrFree + 1) % TWO64, q)]
  }

  lemma PushLists(a: Zone, w: Words, q: nat, m: nat)
    requires m <= MAX_ORDER && a[m].nrFree + 1 < TWO64
    requires forall i :: 0 <= i < 12 ==> q !in Lists(a, w)[i]
    ensures Lists(Push(a, q, m), w[q := a[m].head])
         == Lists(a, w)[m := [q] + Lists(a, w)[m]]
  {
    var l, w' := Lists(a, w), w[q := a[m].head];
    var l' := Lists(Push(a, q, m), w');
    forall i | 0 <= i < 12
      ensures l'[i] == l[m := [q] + l[m]][i]
    {
      WalkFrame(w, a[i].head, a[i].nrFree, q, a[m].head);
    }
  }
}
