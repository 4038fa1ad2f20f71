/** The blocks held on the free lists of a zone, and how splitting and joining change
    what they cover, how many pages they hold and their drift weight. */
module FrameAccounts {
  import opened Bits
  import opened Blocks
  import opened FrameLists

  function At(s: seq<nat>, k: nat): multiset<Block> {
    if s == [] then multiset{} else multiset{Block(s[0], k)} + At(s[1..], k)
  }

  function ListedUpto(l: FreeLists, n: nat): multiset<Block>
    requires n <= 12
    decreases n, l
  {
    if n == 0 then multiset{} else ListedUpto(l, n - 1) + At(l[n - 1], n - 1)
  }

  /** All blocks on the lists of a zone, with multiplicity. */
  function Listed(l: FreeLists): multiset<Block> {
    ListedUpto(l, 12)
  }

  lemma {:induction false} AtMember(s: seq<nat>, k: nat, b: Block)
    ensures b in At(s, k) <==> b.order == k && b.pfn in s
  {
    if s != [] {
      AtMember(s[1..], k, b);
      assert s == [s[0]] + s[1..];
    }
  }

  lemma InUnion(s: multiset<Block>, t: multiset<Block>, b: Block)
    ensures b in s + t <==> b in s || b in t
  {
  }

  lemma {:induction false} ListedUptoMember(l: FreeLists, n: nat, b: Block)
    requires n <= 12
    ensures b in ListedUpto(l, n) <==> b.order < n && b.pfn in l[b.order]
    decreases n
  {
    if n > 0 {
      ListedUptoMember(l, n - 1, b);
      AtMember(l[n - 1], n - 1, b);
      InUnion(ListedUpto(l, n - 1), At(l[n - 1], n - 1), b);
    }
  }

  lemma ListedMember(l: FreeLists, b: Block)
    ensures b in Listed(l) <==> b.order < 12 && b.pfn in l[b.order]
  {
    ListedUptoMember(l, 12, b);
  }

  lemma {:induction false} ListedUptoBelow(l: FreeLists, k: nat, s: seq<nat>, n: nat)
    requires n <= k < 12
    ensures ListedUpto(l[k := s], n) == ListedUpto(l, n)
    decreases n
  {
    if n > 0 {
      ListedUptoBelow(l, k, s, n - 1);
    }
  }

  lemma {:induction false} ListedUptoPop(l: FreeLists, k: nat, n: nat)
    requires k < n <= 12 && l[k] != []
    ensures ListedUpto(l, n) == ListedUpto(l[k := l[k][1..]], n) + multiset{Block(l[k][0], k)}
    decreases n
  {
    var l' := l[k := l[k][1..]];
    var m := multiset{Block(l[k][0], k)};
    if n - 1 == k {
      ListedUptoBelow(l, k, l[k][1..], k);
      Regroup(ListedUpto(l, k), At(l'[k], k), m);
    } else {
      ListedUptoPop(l, k, n - 1);
      assert l'[n - 1] == l[n - 1];
      Regroup(ListedUpto(l', n - 1), At(l[n - 1], n - 1), m);
    }
  }

  lemma Regroup(a: multiset<Block>, b: multiset<Block>, m: multiset<Block>)
    ensures a + (m + b) == a + b + m && a + m + b == a + b + m
  {
  }

  /** Taking the head off a list removes exactly that block. */
  lemma ListedPop(l: FreeLists, k: nat)
    requires k < 12 && l[k] != []
    ensures Listed(l) == Listed(l[k := l[k][1..]]) + multiset{Block(l[k][0], k)}
  {
    ListedUptoPop(l, k, 12);
  }

  lemma ListedPush(l: FreeLists, k: nat, p: nat)
    requires k < 12
    ensures Listed(l[k := [p] + l[k]]) == Listed(l) + multiset{Block(p, k)}
  {
    var l' := l[k := [p] + l[k]];
    ListedPop(l', k);
    assert l'[k := l'[k][1..]] == l;
  }

  /** A list holds no more blocks than it holds pages. */
  lemma {:induction false} LengthBound(s: seq<nat>, k: nat)
    ensures |s| <= Sum(At(s, k), Pages)
  {
    if s != [] {
      LengthBound(s[1..], k);
      SumUnion(multiset{Block(s[0], k)}, At(s[1..], k), Pages);
      SumInsert(multiset{}, Block(s[0], k), Pages);
      assert multiset{} + multiset{Block(s[0], k)} == multiset{Block(s[0], k)};
    }
  }

  lemma {:induction false} ListBound(l: FreeLists, k: nat, n: nat)
    requires k < n <= 12
    ensures |l[k]| <= Sum(ListedUpto(l, n), Pages)
    decreases n
  {
    SumUnion(ListedUpto(l, n - 1), At(l[n - 1], n - 1), Pages);
    LengthBound(l[n - 1], n - 1);
    if k < n - 1 {
      ListBound(l, k, n - 1);
    }
  }

  /** Splitting the head of list `f` down to order `k` conserves coverage and pages over
      the listed blocks and the one handed out; it lowers the drift weight by
      `2^f - 2^k`. */
  lemma {:induction false} SplitSum(l: FreeLists, k: nat, f: nat, m: Measure)
    requires k <= f < 12 && l[f] != []
    requires forall i :: k <= i < f ==> l[i] == []
    ensures Sum(Listed(SplitLists(l, k, f)), m) + Val(m, Block(l[f][0], k))
         == Sum(Listed(l), m) - if m.Drift? then Pow2(f) - Pow2(k) else 0
    decreases f - k
  {
    if k == f {
      PopSum(l, f, m);
    } else {
      SplitSum(l, k + 1, f, m);
      SplitOnce(l, k, f, m, Sum(Listed(l), m), Pow2(f));
    }
  }

  lemma SplitOnce(l: FreeLists, k: nat, f: nat, m: Measure, s0: int, top: int)
    requires k < f < 12 && l[f] != [] && l[k] == []
    requires Sum(Listed(SplitLists(l, k + 1, f)), m) + Val(m, Block(l[f][0], k + 1))
          == s0 - if m.Drift? then top - Pow2(k + 1) else 0
    ensures Sum(Listed(SplitLists(l, k, f)), m) + Val(m, Block(l[f][0], k))
         == s0 - if m.Drift? then top - Pow2(k) else 0
  {
    var b, t := Block(l[f][0], k + 1), Listed(SplitLists(l, k + 1, f));
    SplitListed(l, k, f, Right(b).pfn);
    SumInsert(t, Right(b), m);
    SplitStepSum(b, m, s0, Sum(t, m), Sum(t + multiset{Right(b)}, m), top);
  }

  lemma PopSum(l: FreeLists, f: nat, m: Measure)
    requires f < 12 && l[f] != []
    ensures Sum(Listed(SplitLists(l, f, f)), m) + Val(m, Block(l[f][0], f)) == Sum(Listed(l), m)
  {
    ListedPop(l, f);
    assert l[f := l[f][1..]] == SplitLists(l, f, f);
    SumInsert(Listed(SplitLists(l, f, f)), Block(l[f][0], f), m);
  }

  lemma SplitStepSum(b: Block, m: Measure, s0: int, s1: int, s2: int, top: int)
    requires b.order > 0
    requires s1 + Val(m, b) == s0 - if m.Drift? then top - Pow2(b.order) else 0
    requires s2 == s1 + Val(m, Right(b))
    ensures s2 + Val(m, Left(b)) == s0 - if m.Drift? then top - Pow2(b.order - 1) else 0
  {
    SplitVal(b, m);
  }

  lemma SplitListed(l: FreeLists, k: nat, f: nat, q: nat)
    requires k < f < 12 && l[f] != [] && l[k] == [] && q == l[f][0] + Pow2(k)
    ensures Listed(SplitLists(l, k, f)) == Listed(SplitLists(l, k + 1, f)) + multiset{Block(q, k)}
  {
    var l1 := SplitLists(l, k + 1, f);
    SplitStep(l, k, f);
    assert [q] == [q] + l1[k];
    ListedPush(l1, k, q);
  }

  lemma SplitProper(l: FreeLists, k: nat, f: nat)
    requires k <= f < 12 && l[f] != [] && Proper(l)
    ensures Proper(SplitLists(l, k, f)) && Multiple(l[f][0], k)
  {
    var p, r := l[f][0], SplitLists(l, k, f);
    assert p in l[f];
    MultipleWeaken(p, f, k);
    forall i, q | 0 <= i < 12 && q in r[i]
      ensures q != 0 && Multiple(q, i)
    {
      if k <= i < f {
        SplitBuddy(p, i, f);
        MultipleHalves(p, i);
      } else {
        assert q in l[i];
      }
    }
  }

  /** Joining conserves coverage and pages over the listed blocks and the one being
      freed; ending at order `n` it raises the drift weight by `2^n - 2^k`. */
  lemma {:induction false} JoinSum(l: FreeLists, p: nat, k: nat, m: Measure)
    requires k <= MAX_ORDER && Multiple(p, k)
    ensures var j := Join(l, p, k);
      Sum(Listed(j.lists), m) + Val(m, Block(j.page, j.order))
      == Sum(Listed(l), m) + Val(m, Block(p, k)) + if m.Drift? then Pow2(j.order) - Pow2(k) else 0
    decreases MAX_ORDER - k
  {
    var b := Buddy(p, k);
    if k < MAX_ORDER && l[k] != [] && l[k][0] == b {
      XorPair(p, k);
      var q, l' := BitAnd(p, b), l[k := l[k][1..]];
      JoinSum(l', q, k + 1, m);
      var j := Join(l', q, k + 1);
      JoinOnce(l, p, b, q, k, m, Sum(Listed(j.lists), m) + Val(m, Block(j.page, j.order)), Pow2(j.order));
    }
  }

  lemma JoinOnce(l: FreeLists, p: nat, b: nat, q: nat, k: nat, m: Measure, e: int, top: int)
    requires k < 12 && l[k] != [] && l[k][0] == b && Halves(p, b, q, k)
    requires e == Sum(Listed(l[k := l[k][1..]]), m) + Val(m, Block(q, k + 1))
                + if m.Drift? then top - Pow2(k + 1) else 0
    ensures e == Sum(Listed(l), m) + Val(m, Block(p, k)) + if m.Drift? then top - Pow2(k) else 0
  {
    var t := Listed(l[k := l[k][1..]]);
    ListedPop(l, k);
    SumInsert(t, Block(b, k), m);
    JoinStepSum(p, b, q, k, m, Sum(Listed(l), m), Sum(t, m), e, top);
  }

  lemma JoinStepSum(p: nat, b: nat, q: nat, k: nat, m: Measure, s0: int, s1: int, e: int, top: int)
    requires Halves(p, b, q, k) && s0 == s1 + Val(m, Block(b, k))
    requires e == s1 + Val(m, Block(q, k + 1)) + if m.Drift? then top - Pow2(k + 1) else 0
    ensures e == s0 + Val(m, Block(p, k)) + if m.Drift? then top - Pow2(k) else 0
  {
    SplitVal(Block(q, k + 1), m);
  }

  lemma TailProper(l: FreeLists, k: nat)
    requires k < 12 && l[k] != [] && Proper(l)
    ensures Proper(l[k := l[k][1..]])
  {
    var l' := l[k := l[k][1..]];
    forall i, q | 0 <= i < 12 && q in l'[i]
      ensures q in l[i]
    {
    }
  }

  /** Joining keeps the lists proper, yields an aligned block and stays on its own side
      of any boundary that is a multiple of the largest block. */
  lemma {:induction false} JoinProper(l: FreeLists, p: nat, k: nat, bound: nat)
    requires k <= MAX_ORDER && Multiple(p, k) && Proper(l) && Multiple(bound, MAX_ORDER)
    ensures var j := Join(l, p, k);
      && Proper(j.lists) && Multiple(j.page, j.order) && (j.page < bound <==> p < bound)
      && forall i, q :: 0 <= i < 12 && q in j.lists[i] ==> q in l[i]
    decreases MAX_ORDER - k
  {
    var b := Buddy(p, k);
    if k < MAX_ORDER && l[k] != [] && l[k][0] == b {
      XorPair(p, k);
      var q := BitAnd(p, b);
      TailProper(l, k);
      JoinProper(l[k := l[k][1..]], q, k + 1, bound);
      if q < bound {
        MultipleWeaken(bound, MAX_ORDER, k + 1);
        NoStraddle(q, k + 1, bound);
      }
    }
  }
}
