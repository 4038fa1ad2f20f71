/** Blocks of page frames and additive measures over collections of blocks. */
module Blocks {
  import opened Bits

  /** A run of `2^order` page frames starting at frame number `pfn`. */
  datatype Block = Block(pfn: nat, order: nat)

  /** The quantities summed over a collection of blocks: how often a frame is
      covered, how many frames there are, and the weight `order * 2^(order-1)`
      by which the allocator's page counter drifts. */
  datatype Measure = Cover(frame: nat) | Pages | Drift

  predicate Covers(b: Block, x: nat) {
    b.pfn <= x < b.pfn + Pow2(b.order)
  }

  function Val(m: Measure, b: Block): (v: nat) {
    match m
    case Cover(x) => if Covers(b, x) then 1 else 0
    case Pages => Pow2(b.order)
    case Drift => if b.order == 0 then 0 else b.order * Pow2(b.order - 1)
  }

  ghost function Pick(t: multiset<Block>): (b: Block)
    requires t != multiset{}
    ensures b in t
  {
    var b :| b in t; b
  }

  ghost function Sum(t: multiset<Block>, m: Measure): nat
    decreases |t|
  {
    if t == multiset{} then 0 else Val(m, Pick(t)) + Sum(t - multiset{Pick(t)}, m)
  }

  lemma {:induction false} SumRemove(t: multiset<Block>, b: Block, m: Measure)
    requires b in t
    ensures Sum(t, m) == Val(m, b) + Sum(t - multiset{b}, m)
    decreases |t|
  {
    var c := Pick(t);
    if c != b {
      SumRemove(t - multiset{c}, b, m);
      SumRemove(t - multiset{b}, c, m);
      assert t - multiset{c} - multiset{b} == t - multiset{b} - multiset{c};
    }
  }

  lemma SumInsert(t: multiset<Block>, b: Block, m: Measure)
    ensures Sum(t + multiset{b}, m) == Sum(t, m) + Val(m, b)
  {
    SumRemove(t + multiset{b}, b, m);
    assert t + multiset{b} - multiset{b} == t;
  }

  lemma SumOne(b: Block, m: Measure)
    ensures Sum(multiset{b}, m) == Val(m, b)
  {
    SumInsert(multiset{}, b, m);
    assert multiset{} + multiset{b} == multiset{b};
  }

  lemma {:induction false} SumUnion(s: multiset<Block>, t: multiset<Block>, m: Measure)
    ensures Sum(s + t, m) == Sum(s, m) + Sum(t, m)
    decreases |t|
  {
    if t == multiset{} {
      assert s + t == s;
    } else {
      var b := Pick(t);
      SumUnion(s, t - multiset{b}, m);
      assert s + t == s + (t - multiset{b}) + multiset{b};
      SumInsert(s + (t - multiset{b}), b, m);
    }
  }

  /** Blocks of order at most `MAX_ORDER`, on their natural boundary. */
  predicate Aligned(b: Block) {
    b.order <= 11 && Multiple(b.pfn, b.order)
  }

  /** The blocks of `t` tile `managed`: each is aligned, every managed frame lies in
      exactly one of them (counted with multiplicity) and no other frame in any. */
  ghost predicate Tiles(t: multiset<Block>, managed: set<nat>) {
    && (forall b :: b in t ==> Aligned(b))
    && (forall x :: Sum(t, Cover(x)) == if x in managed then 1 else 0)
  }

  predicate Disjoint(a: Block, b: Block) {
    a.pfn + Pow2(a.order) <= b.pfn || b.pfn + Pow2(b.order) <= a.pfn
  }

  /** Two members of a tiling never share a frame, and no block is listed twice. */
  lemma TilesDisjoint(t: multiset<Block>, managed: set<nat>, a: Block, b: Block)
    requires Tiles(t, managed) && a in t && b in t - multiset{a}
    ensures Disjoint(a, b) && a != b
  {
    var x := if a.pfn <= b.pfn then b.pfn else a.pfn;
    SumRemove(t, a, Cover(x));
    SumRemove(t - multiset{a}, b, Cover(x));
    assert Sum(t, Cover(x)) <= 1;
  }

  /** Every frame of every block in a tiling is managed. */
  lemma TilesInside(t: multiset<Block>, managed: set<nat>, a: Block, x: nat)
    requires Tiles(t, managed) && a in t && Covers(a, x)
    ensures x in managed
  {
    SumRemove(t, a, Cover(x));
  }

  /** Every managed frame lies in some block of a tiling. */
  lemma {:induction false} CoveredBySome(t: multiset<Block>, x: nat) returns (b: Block)
    requires Sum(t, Cover(x)) > 0
    ensures b in t && Covers(b, x)
    decreases |t|
  {
    b := Pick(t);
    if !Covers(b, x) {
      b := CoveredBySome(t - multiset{b}, x);
    }
  }

  function Left(b: Block): Block
    requires b.order > 0
  {
    Block(b.pfn, b.order - 1)
  }

  function Right(b: Block): Block
    requires b.order > 0
  {
    Block(b.pfn + Pow2(b.order - 1), b.order - 1)
  }

  /** Splitting a block into its halves moves no frame; it changes the drift weight
      by exactly the size of one half. */
  lemma SplitVal(b: Block, m: Measure)
    requires b.order > 0
    ensures Val(m, Left(b)) + Val(m, Right(b))
         == Val(m, b) - if m.Drift? then Pow2(b.order - 1) else 0
  {
    if m.Drift? && b.order > 1 {
      var h := Pow2(b.order - 2);
      assert b.order * (2 * h) == 2 * ((b.order - 1) * h) + 2 * h;
    }
  }
}
