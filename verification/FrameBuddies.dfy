/** Whether two free buddies can stay side by side on the lists. Only the head of a list is
    compared with the buddy looked for, so they can; this is exactly when. */
module FrameBuddies {
  import opened Bits
  import opened Blocks
  import opened FrameLists
  import opened FrameAllocator
  import opened FrameSafety
  import opened FrameRuns

  /** Some list holds a block together with its buddy, below the largest order. */
  ghost predicate BuddiesListed(l: FreeLists) {
    exists k, p :: 0 <= k < 11 && p in l[k] && Buddy(p, k) in l[k]
  }

  lemma {:induction false} XorTwice(a: nat, b: nat)
    ensures BitXor(BitXor(a, b), b) == a
    decreases a + b
  {
    if a > 0 || b > 0 {
      XorTwice(a / 2, b / 2);
      XorParts(a, b);
      XorParts(BitXor(a, b), b);
      SameDigits(a, BitXor(BitXor(a, b), b), a % 2, b % 2);
    }
  }

  lemma SameDigits(a: nat, y: nat, i: nat, j: nat)
    requires y / 2 == a / 2 && i == a % 2 && j < 2 && y % 2 == ((i + j) % 2 + j) % 2
    ensures y == a
  {
  }

  lemma {:induction false} XorMoves(a: nat, b: nat)
    requires b > 0
    ensures BitXor(a, b) != a
    decreases a + b
  {
    if b > 1 {
      XorMoves(a / 2, b / 2);
    }
    XorDigits(a, b);
  }

  /** Joining leaves the list it stops at alone, and adds to none. */
  lemma {:induction false} JoinLists(l: FreeLists, p: nat, k: nat)
    requires k <= MAX_ORDER
    ensures var j := Join(l, p, k);
      && j.lists[j.order] == l[j.order]
      && forall i, q :: 0 <= i < 12 && q in j.lists[i] ==> q in l[i]
    decreases MAX_ORDER - k
  {
    if k < MAX_ORDER && l[k] != [] && l[k][0] == Buddy(p, k) {
      JoinLists(l[k := l[k][1..]], BitAnd(p, Buddy(p, k)), k + 1);
    }
  }

  /** When no two free buddies are listed, a free brings two together if and only if the list
      at which it stops joining holds the buddy of the joined block, below its head. */
  lemma FreeBringsBuddiesIff(l: FreeLists, p: nat, k: nat)
    requires k <= MAX_ORDER && !BuddiesListed(l)
    ensures var j := Join(l, p, k);
      BuddiesListed(FreedLists(l, p, k)) <==>
        j.order < MAX_ORDER && l[j.order] != [] && Buddy(j.page, j.order) in l[j.order][1..]
  {
    var j := Join(l, p, k);
    JoinLists(l, p, k);
    JoinStops(l, p, k);
    if j.order < MAX_ORDER {
      PushBringsIff(l, j.lists, FreedLists(l, p, k), j.page, j.order);
      assert Buddy(j.page, j.order) in l[j.order] <==> l[j.order] != [] && Buddy(j.page, j.order) in l[j.order][1..];
    } else {
      PushAtTop(l, FreedLists(l, p, k));
    }
  }

  lemma {:induction false} JoinStops(l: FreeLists, p: nat, k: nat)
    requires k <= MAX_ORDER
    ensures var j := Join(l, p, k);
      j.order < MAX_ORDER && l[j.order] != [] ==> l[j.order][0] != Buddy(j.page, j.order)
    decreases MAX_ORDER - k
  {
    if k < MAX_ORDER && l[k] != [] && l[k][0] == Buddy(p, k) {
      JoinStops(l[k := l[k][1..]], BitAnd(p, Buddy(p, k)), k + 1);
    }
  }

  lemma PushBringsIff(l: FreeLists, l1: FreeLists, l2: FreeLists, p: nat, k: nat)
    requires k < MAX_ORDER && !BuddiesListed(l) && l1[k] == l[k] && l2 == l1[k := [p] + l1[k]]
    requires forall i, q :: 0 <= i < 12 && q in l1[i] ==> q in l[i]
    ensures BuddiesListed(l2) <==> Buddy(p, k) in l[k]
  {
    XorTwice(p, Pow2(k));
    XorMoves(p, Pow2(k));
    if Buddy(p, k) in l[k] {
      assert p in l2[k] && Buddy(p, k) in l2[k];
    }
    if BuddiesListed(l2) {
      var i, q :| 0 <= i < MAX_ORDER && q in l2[i] && Buddy(q, i) in l2[i];
      if i == k {
        XorTwice(q, Pow2(k));
        assert q == p || q in l[k];
        assert Buddy(q, k) == p || Buddy(q, k) in l[k];
      }
    }
  }

  lemma PushAtTop(l: FreeLists, l2: FreeLists)
    requires !BuddiesListed(l) && forall i, q :: 0 <= i < MAX_ORDER && q in l2[i] ==> q in l[i]
    ensures !BuddiesListed(l2)
  {
  }

  // ---------------------------------------------------------------- allocations and runs

  /** A split lists single blocks on empty lists, so it brings no two buddies together. */
  lemma SplitBringsNone(l: FreeLists, k: nat, f: nat)
    requires k <= f < 12 && l[f] != [] && !BuddiesListed(l) && forall i :: k <= i < f ==> l[i] == []
    ensures !BuddiesListed(SplitLists(l, k, f))
  {
    var r := SplitLists(l, k, f);
    forall i, p | 0 <= i < MAX_ORDER && p in r[i]
      ensures Buddy(p, i) !in r[i]
    {
      XorMoves(p, Pow2(i));
      assert !(k <= i < f) ==> p in l[i];
    }
  }

  /** No list of any zone holds two buddies. */
  ghost predicate Spread(s: Frames) {
    forall z :: 0 <= z < 3 ==> !BuddiesListed(ZoneLists(s, z))
  }

  lemma SpreadStep(s: Frames, s': Frames, z: nat, l: FreeLists)
    requires Spread(s) && ZoneStep(s, s', z, l)
    ensures Spread(s') <==> !BuddiesListed(l)
  {
  }

  lemma AllocSpread(s: Frames, live: multiset<Block>, managed: set<nat>, c: int, order: nat, zone: int)
    requires Inv(s, live, managed, c) && Spread(s)
    ensures Spread(AllocPages(s, order, zone).frames)
  {
    var z, r := ZoneIndex(zone), AllocPages(s, order, zone);
    var l := ZoneLists(s, z);
    ListsProper(s, live, managed, z);
    SameCounter(s, live, c);
    AllocShape(s, order, z, r);
    var f := FindOrder(l, order);
    if f < 12 {
      SplitBringsNone(l, order, f);
      SpreadStep(s, r.frames, z, SplitLists(l, order, f));
    }
  }

  /** The list at which the free stops joining does not hold the buddy of the joined block. */
  predicate KeepsApart(s: Frames, b: Block)
    requires b.order <= MAX_ORDER
  {
    var l := ZoneLists(s, ZoneOf(b.pfn));
    var j := Join(l, b.pfn, b.order);
    j.order < MAX_ORDER && l[j.order] != [] ==> Buddy(j.page, j.order) !in l[j.order][1..]
  }

  predicate BuddyGuard(x: System, op: Op) {
    op.Free? && op.block.order <= MAX_ORDER ==> KeepsApart(x.frames, op.block)
  }

  lemma FreeSpreadIff(s: Frames, live: multiset<Block>, managed: set<nat>, c: int, b: Block)
    requires Inv(s, live, managed, c) && b in live && b.order <= MAX_ORDER && FreeGuard(s, b.pfn, b.order) && Spread(s)
    ensures Spread(FreePages(s, b.pfn, b.order)) <==> KeepsApart(s, b)
  {
    var z := ZoneOf(b.pfn);
    var l := ZoneLists(s, z);
    FreeKeeps(s, live, managed, c, b);
    FreeBringsBuddiesIff(l, b.pfn, b.order);
    SpreadStep(s, FreePages(s, b.pfn, b.order), z, FreedLists(l, b.pfn, b.order));
  }

  lemma StepSpreadIff(x: System, op: Op, managed: set<nat>, c: int)
    requires Inv(x.frames, x.live, managed, c) && Permitted(x, op) && Spread(x.frames)
    ensures Spread(Step(x, op).frames) <==> BuddyGuard(x, op)
  {
    match op
    case Alloc(order, zone) => AllocSpread(x.frames, x.live, managed, c, order, zone);
    case Free(b) => FreeSpreadIff(x.frames, x.live, managed, c, b);
    case Store(frame, word) =>
      var b :| b in x.live && Covers(b, frame);
      forall z | 0 <= z < 3
        ensures !BuddiesListed(ZoneLists(Step(x, op).frames, z))
      {
        StoreLists(x.frames, x.live, managed, b, frame, word, z);
      }
  }

  ghost predicate AlwaysSpread(x: System, ops: seq<Op>)
    decreases |ops|
  {
    Spread(x.frames) && (ops == [] || AlwaysSpread(Step(x, ops[0]), ops[1..]))
  }

  predicate AllApart(x: System, ops: seq<Op>)
    decreases |ops|
  {
    ops == [] || (BuddyGuard(x, ops[0]) && AllApart(Step(x, ops[0]), ops[1..]))
  }

  /** Over every disciplined run no two free buddies are ever listed together if and only if no
      free stops joining at a list that holds the joined block's buddy below its head. */
  lemma {:induction false} RunSpreadIff(x: System, ops: seq<Op>, managed: set<nat>, c: int)
    requires Inv(x.frames, x.live, managed, c) && Disciplined(x, ops) && Spread(x.frames)
    ensures AlwaysSpread(x, ops) <==> AllApart(x, ops)
    decreases |ops|
  {
    if ops != [] {
      StepSpreadIff(x, ops[0], managed, c);
      StepKeepsInv(x, ops[0], managed, c);
      if Spread(Step(x, ops[0]).frames) {
        RunSpreadIff(Step(x, ops[0]), ops[1..], managed, c);
      }
    }
  }
}
