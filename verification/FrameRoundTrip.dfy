/** Allocating a block and freeing it at once. */
module FrameRoundTrip {
  import opened Bits
  import opened Blocks
  import opened FrameLists
  import opened FrameAllocator

  /** The areas after a split of the head `p` of area `f` down to order `k`. */
  predicate SplitAreas(a: Zone, w: Words, r: Zone, k: nat, f: nat, p: nat)
    requires f < 12 && a[f].nrFree > 0
  {
    && r[f] == Area(a[f].nrFree - 1, Word(w, p))
    && (forall i :: k <= i < f ==> r[i].nrFree == 1 && r[i].head == p + Pow2(i))
    && (forall i :: 0 <= i < 12 && (i < k || f < i) ==> r[i] == a[i])
  }

  lemma {:induction false} AllocAreas(a: Zone, w: Words, k: nat, f: nat)
    requires k <= f < 12 && a[f].nrFree > 0 && a[f].head != 0 && Multiple(a[f].head, f)
    requires forall i :: k <= i < f ==> a[i].nrFree == 0
    ensures var r := AllocZone(a, w, k);
      r.page == a[f].head && SplitAreas(a, w, r.areas, k, f, a[f].head)
    decreases f - k
  {
    if k < f {
      AllocAreas(a, w, k + 1, f);
      SplitBuddy(a[f].head, k, f);
      var q := a[f].head + Pow2(k);
      AfterSplitIs(AllocZone(a, w, k + 1), k, q);
    }
  }

  /** Coalescing undoes a split level by level and arrives at the order it started from
      with the intermediate areas empty again. */
  lemma {:induction false} Unsplit(a: Zone, w: Words, p: nat, k: nat, f: nat) returns (e: Zone)
    requires k <= f <= MAX_ORDER && Multiple(p, f)
    requires forall i :: k <= i < f ==> a[i].nrFree == 1 && a[i].head == p + Pow2(i)
    ensures Coalesce(a, w, p, k) == Coalesce(e, w, p, f)
    ensures forall i :: k <= i < f ==> e[i].nrFree == 0
    ensures forall i :: 0 <= i < 12 && (i < k || f <= i) ==> e[i] == a[i]
    decreases f - k
  {
    e := a;
    if k < f {
      UnsplitOnce(a, w, p, k, f);
      e := Unsplit(Taken(a, w, k, Buddy(p, k)), w, p, k + 1, f);
    }
  }

  lemma UnsplitOnce(a: Zone, w: Words, p: nat, k: nat, f: nat)
    requires k < f <= MAX_ORDER && Multiple(p, f)
    requires a[k].nrFree == 1 && a[k].head == p + Pow2(k)
    ensures var a1 := Taken(a, w, k, Buddy(p, k));
      Coalesce(a, w, p, k) == Coalesce(a1, w, p, k + 1) && a1[k].nrFree == 0
  {
    SplitBuddy(p, k, f);
    MultipleHalves(p, k);
    XorPair(p, k);
  }

  lemma {:induction false} WalkSame(w: Words, p: nat, n: nat, q: nat)
    ensures Walk(w[q := Word(w, q)], p, n) == Walk(w, p, n)
    decreases n
  {
    if n > 0 {
      WalkSame(w, Word(w, p), n - 1, q);
    }
  }

  lemma ListsSame(a: Zone, w: Words, q: nat)
    ensures Lists(a, w[q := Word(w, q)]) == Lists(a, w)
  {
    var l, l' := Lists(a, w), Lists(a, w[q := Word(w, q)]);
    forall i | 0 <= i < 12
      ensures l'[i] == l[i]
    {
      WalkSame(w, a[i].head, a[i].nrFree, q);
    }
  }

  /** The lists of a zone are determined by the counts and, where the count is not zero,
      the heads. */
  lemma ListsAgree(a: Zone, a': Zone, w: Words)
    requires forall i :: 0 <= i < 12 ==>
      a'[i].nrFree == a[i].nrFree && (a[i].nrFree > 0 ==> a'[i].head == a[i].head)
    ensures Lists(a', w) == Lists(a, w)
  {
    var l, l' := Lists(a, w), Lists(a', w);
    forall i | 0 <= i < 12
      ensures l'[i] == l[i]
    {
    }
  }

  /** On one zone: splitting and then freeing restores every list exactly when the block
      taken apart is not joined with what its own link word names. */
  lemma ZoneRoundTrip(a: Zone, w: Words, k: nat, f: nat)
    requires k <= f < 12 && 0 < a[f].nrFree < TWO64 && a[f].head != 0 && Multiple(a[f].head, f)
    requires forall i :: k <= i < f ==> a[i].nrFree == 0
    ensures var p, a1 := a[f].head, AllocZone(a, w, k).areas;
      var c := Coalesce(a1, w, p, k);
      if f < MAX_ORDER && Word(w, p) == Buddy(p, f)
      then Push(c.areas, c.page, c.order)[f].nrFree != a[f].nrFree
      else
        && c.page == p && c.order == f && c.areas[f].head == Word(w, p)
        && Lists(Push(c.areas, p, f), w[p := Word(w, p)]) == Lists(a, w)
  {
    var p, a1 := a[f].head, AllocZone(a, w, k).areas;
    AllocAreas(a, w, k, f);
    var e := Unsplit(a1, w, p, k, f);
    if f < MAX_ORDER && Word(w, p) == Buddy(p, f) {
      JoinsOn(e, w, p, f);
    } else {
      RestoresZone(a, e, w, p, k, f);
    }
  }

  lemma JoinsOn(e: Zone, w: Words, p: nat, f: nat)
    requires f < MAX_ORDER && e[f].head == Buddy(p, f) && e[f].nrFree < TWO64 - 1
    ensures var c := Coalesce(e, w, p, f); Push(c.areas, c.page, c.order)[f].nrFree != e[f].nrFree + 1
  {
    var e1 := Taken(e, w, f, Buddy(p, f));
    CoalesceBelow(e1, w, BitAnd(p, Buddy(p, f)), f + 1, f);
    assert e1[f].nrFree != e[f].nrFree + 1;
  }

  lemma RestoresZone(a: Zone, e: Zone, w: Words, p: nat, k: nat, f: nat)
    requires k <= f < 12 && 0 < a[f].nrFree < TWO64 && p == a[f].head
    requires e[f] == Area(a[f].nrFree - 1, Word(w, p))
    requires forall i :: k <= i < f ==> a[i].nrFree == 0 && e[i].nrFree == 0
    requires forall i :: 0 <= i < 12 && (i < k || f < i) ==> e[i] == a[i]
    requires f == MAX_ORDER || e[f].head != Buddy(p, f)
    ensures Coalesce(e, w, p, f) == Coalesced(e, p, f)
    ensures Lists(Push(e, p, f), w[p := Word(w, p)]) == Lists(a, w)
  {
    var e2 := Push(e, p, f);
    ListsAgree(a, e2, w);
    ListsSame(e2, w, p);
  }

  ghost predicate Restored(s: Frames, s': Frames) {
    s'.counter == s.counter && forall y :: 0 <= y < 3 ==> ZoneLists(s', y) == ZoneLists(s, y)
  }

  /** The block that an allocation takes apart is named as its buddy by its own link word. */
  predicate NamesBuddy(w: Words, p: nat, f: nat) {
    f < MAX_ORDER && Word(w, p) == Buddy(p, f)
  }

  lemma StateRoundTrip(s: Frames, s1: Frames, z: nat, k: nat, f: nat, p: nat, h: nat)
    requires z < 3 && k <= f < 12 && 0 < s.zones[z][f].nrFree < TWO64
    requires p == s.zones[z][f].head != 0 && ZoneOf(p) == z && Multiple(p, f) && h == Pow2(f)
    requires forall i :: k <= i < f ==> s.zones[z][i].nrFree == 0
    requires s1.zones == s.zones[z := AllocZone(s.zones[z], s.words, k).areas] && s1.words == s.words
    requires s1.counter == Minus(s.counter, h) && s.counter == s.counter % TWO64
    ensures Restored(s, FreePages(s1, p, k)) <==> !NamesBuddy(s.words, p, f)
  {
    var s' := FreePages(s1, p, k);
    ZoneRoundTrip(s.zones[z], s.words, k, f);
    if NamesBuddy(s.words, p, f) {
      assert |ZoneLists(s', z)[f]| != |ZoneLists(s, z)[f]|;
    } else {
      assert s'.counter == Plus(s1.counter, h);
      SubAdd(s.counter, h, s1.counter, s'.counter);
      forall y | 0 <= y < 3
        ensures ZoneLists(s', y) == ZoneLists(s, y)
      {
        if y != z {
          ListsSame(s.zones[y], s.words, p);
          assert s'.zones[y] == s.zones[y] && s'.words == s.words[p := Word(s.words, p)];
        }
      }
    }
  }

  /** What `StateRoundTrip` needs to know of the block that is split. */
  lemma SplitBlock(s: Frames, live: multiset<Block>, managed: set<nat>, c: int, z: nat, k: nat, f: nat)
    requires Inv(s, live, managed, c) && z < 3 && AllocZone(s.zones[z], s.words, k).page != 0
    requires f == FindOrder(ZoneLists(s, z), k)
    ensures k <= f < 12 && 0 < s.zones[z][f].nrFree < TWO64
    ensures var p := s.zones[z][f].head; AllocZone(s.zones[z], s.words, k).page == p && ZoneOf(p) == z && Multiple(p, f)
    ensures forall i :: k <= i < f ==> s.zones[z][i].nrFree == 0
    ensures AllocZone(s.zones[z], s.words, k).debit == Pow2(f)
  {
    var l := ZoneLists(s, z);
    ListsProper(s, live, managed, z);
    AllocZoneSpec(s.zones[z], s.words, k);
    CountsInRange(s, live, z);
    assert l[f][0] in l[f] && InZone(l, z);
    assert forall i :: k <= i < f ==> |l[i]| == 0;
  }

  /** Allocating at any order and freeing the result at once restores every list and the
      page counter, however deep the split, if and only if the link word of the block that
      was split (the new head of its list) is not the block's own buddy. */
  lemma AllocThenFree(s: Frames, live: multiset<Block>, managed: set<nat>, c: int, order: nat, zone: int)
    requires Inv(s, live, managed, c) && AllocPages(s, order, zone).page != 0
    ensures order <= MAX_ORDER
    ensures var r := AllocPages(s, order, zone);
      Restored(s, FreePages(r.frames, r.page, order))
      <==> !NamesBuddy(s.words, r.page, FindOrder(ZoneLists(s, ZoneIndex(zone)), order))
  {
    var z, r := ZoneIndex(zone), AllocPages(s, order, zone);
    var f := FindOrder(ZoneLists(s, z), order);
    SplitBlock(s, live, managed, c, z, order, f);
    CountInRange(s.counter, Sum(AllListed(s), Pages), Sum(AllListed(s) + live, Drift), c);
    StateRoundTrip(s, r.frames, z, order, f, r.page, Pow2(f));
  }

  lemma SubAdd(m: nat, h: nat, n: nat, n': nat)
    requires m == m % TWO64 && n == Minus(m, h) && n' == Plus(n, h)
    ensures n' == m
  {
  }
}
