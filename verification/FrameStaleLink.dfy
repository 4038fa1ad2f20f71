/** The guard on frees is needed: a run that honours every other rule reaches a state in
    which an unguarded free hands a live page out a second time. */
module FrameStaleLink {
  import opened Bits
  import opened Blocks
  import opened FrameLists
  import opened FrameAllocator
  import opened FrameRuns
  import opened FrameRoundTrip

  function Start(): System {
    System(InitialFrames(map[], 2), multiset{Block(6, 1)})
  }

  /** The owner of pages 6 and 7 leaves the number 6 in the first word of page 7, frees
      the pair, and both pages are handed out again one by one. */
  function Ops(): seq<Op> {
    [Store(7, 6), Free(Block(6, 1)), Alloc(0, 0), Alloc(0, 0)]
  }

  function Zone0(a0: Area, a1: Area): Zone {
    EmptyZone()[0 := a0][1 := a1]
  }

  function At0(a0: Area, a1: Area, w: Words, n: nat): Frames {
    Frames([Zone0(a0, a1), EmptyZone(), EmptyZone()], w, n)
  }

  lemma Bits6()
    ensures Buddy(6, 1) == 4 && Buddy(6, 0) == 7 && Buddy(7, 0) == 6 && BitAnd(7, 6) == 6
  {
    assert BitXor(6, 2) == 4 && BitXor(6, 1) == 7 && BitXor(7, 1) == 6;
  }

  lemma FreePair()
    ensures FreeGuard(At0(Area(0, 0), Area(0, 0), map[7 := 6], 2), 6, 1)
    ensures FreePages(At0(Area(0, 0), Area(0, 0), map[7 := 6], 2), 6, 1)
         == At0(Area(0, 0), Area(1, 6), map[7 := 6, 6 := 0], 4)
  {
    Bits6();
    var s := At0(Area(0, 0), Area(0, 0), map[7 := 6], 2);
    var a := s.zones[0];
    assert Coalesce(a, s.words, 6, 1) == Coalesced(a, 6, 1);
    assert s.words[6 := 0] == map[7 := 6, 6 := 0];
    assert Push(a, 6, 1) == Zone0(Area(0, 0), Area(1, 6));
    assert s.zones[0 := a] == s.zones;
    assert s.zones[0 := Push(a, 6, 1)] == [Zone0(Area(0, 0), Area(1, 6)), EmptyZone(), EmptyZone()];
  }

  lemma FirstAlloc(w: Words)
    requires w == map[7 := 6, 6 := 0]
    ensures AllocPages(At0(Area(0, 0), Area(1, 6), w, 4), 0, 0) == Allocation(At0(Area(1, 7), Area(0, 0), w, 2), 6)
  {
    Bits6();
    var s := At0(Area(0, 0), Area(1, 6), w, 4);
    var a := s.zones[0];
    assert AllocZone(a, w, 1) == AllocResult(a[1 := Area(0, 0)], 6, 2);
    assert AllocZone(a, w, 0) == AllocResult(a[1 := Area(0, 0)][0 := Area(1, 7)], 6, 2);
    assert a[1 := Area(0, 0)][0 := Area(1, 7)] == Zone0(Area(1, 7), Area(0, 0));
    assert s.zones[0 := Zone0(Area(1, 7), Area(0, 0))] == [Zone0(Area(1, 7), Area(0, 0)), EmptyZone(), EmptyZone()];
  }

  lemma SecondAlloc(w: Words)
    requires w == map[7 := 6, 6 := 0]
    ensures AllocPages(At0(Area(1, 7), Area(0, 0), w, 2), 0, 0) == Allocation(At0(Area(0, 6), Area(0, 0), w, 1), 7)
  {
    var s := At0(Area(1, 7), Area(0, 0), w, 2);
    var a := s.zones[0];
    assert AllocZone(a, w, 0) == AllocResult(a[0 := Area(0, 6)], 7, 1);
    assert a[0 := Area(0, 6)] == Zone0(Area(0, 6), Area(0, 0));
    assert s.zones[0 := Zone0(Area(0, 6), Area(0, 0))] == [Zone0(Area(0, 6), Area(0, 0)), EmptyZone(), EmptyZone()];
  }

  /** Page 7 is freed while page 6 is live. Its buddy test meets the stale word, merges
      with page 6, and the next allocation of a pair hands page 6 out again. */
  lemma UnguardedFree(w: Words)
    requires w == map[7 := 6, 6 := 0]
    ensures var s := At0(Area(0, 6), Area(0, 0), w, 1);
      !FreeGuard(s, 7, 0) && AllocPages(FreePages(s, 7, 0), 1, 0).page == 6
  {
    var s := At0(Area(0, 6), Area(0, 0), w, 1);
    var a := s.zones[0];
    MergesLivePage(a, w);
    var s' := FreePages(s, 7, 0);
    assert s'.zones[0][1] == Area(1, 6);
  }

  lemma MergesLivePage(a: Zone, w: Words)
    requires a == Zone0(Area(0, 6), Area(0, 0)) && w == map[7 := 6, 6 := 0]
    ensures !MergesListed(a, w, 7, 0)
    ensures Coalesce(a, w, 7, 0) == Coalesced(Taken(a, w, 0, 6), 6, 1)
  {
    Bits6();
    var a1 := Taken(a, w, 0, 6);
    assert Coalesce(a1, w, 6, 1) == Coalesced(a1, 6, 1);
  }

  lemma FirstTwo() returns (x1: System, x2: System)
    ensures Permitted(Start(), Ops()[0]) && Step(Start(), Ops()[0]) == x1
    ensures Permitted(x1, Ops()[1]) && Step(x1, Ops()[1]) == x2
    ensures x2 == System(At0(Area(0, 0), Area(1, 6), map[7 := 6, 6 := 0], 4), multiset{})
  {
    x1 := System(At0(Area(0, 0), Area(0, 0), map[7 := 6], 2), multiset{Block(6, 1)});
    assert Zone0(Area(0, 0), Area(0, 0)) == EmptyZone();
    assert Covers(Block(6, 1), 7) by { assert Pow2(1) == 2; }
    FreePair();
    x2 := System(At0(Area(0, 0), Area(1, 6), map[7 := 6, 6 := 0], 4), multiset{});
  }

  lemma StaleLinkRun()
    ensures Disciplined(Start(), Ops())
    ensures Run(Start(), Ops()) == System(At0(Area(0, 6), Area(0, 0), map[7 := 6, 6 := 0], 1), multiset{Block(6, 0), Block(7, 0)})
  {
    var w := map[7 := 6, 6 := 0];
    var ops := Ops();
    var x1, x2 := FirstTwo();
    FirstAlloc(w);
    var x3 := System(At0(Area(1, 7), Area(0, 0), w, 2), multiset{Block(6, 0)});
    assert Step(x2, ops[2]) == x3;
    SecondAlloc(w);
    var x4 := System(At0(Area(0, 6), Area(0, 0), w, 1), multiset{Block(6, 0), Block(7, 0)});
    assert Step(x3, ops[3]) == x4;
    Unfold(Start(), ops, x1);
    Unfold(x1, ops[1..], x2);
    Unfold(x2, ops[2..], x3);
    Unfold(x3, ops[3..], x4);
    assert ops[1..][1..] == ops[2..] && ops[2..][1..] == ops[3..] && ops[3..][1..] == [];
  }

  lemma StartInv(c: int)
    requires c == 2 - Val(Drift, Block(6, 1))
    ensures Inv(Start().frames, Start().live, {6, 7}, c)
  {
    var b := Block(6, 1);
    SumOne(b, Drift);
    SumOne(b, Pages);
    forall x
      ensures Sum(multiset{b}, Cover(x)) == if x in {6, 7} then 1 else 0
    {
      SumOne(b, Cover(x));
    }
    InitialInv(map[], 2, multiset{b}, {6, 7}, c);
  }

  /** The state after the first three calls of the run. */
  function Third(): System {
    System(At0(Area(1, 7), Area(0, 0), map[7 := 6, 6 := 0], 2), multiset{Block(6, 0)})
  }

  lemma ThirdReached()
    ensures Disciplined(Start(), Ops()[..3]) && Run(Start(), Ops()[..3]) == Third()
  {
    var ops := Ops()[..3];
    var x1, x2 := FirstTwo();
    FirstAlloc(map[7 := 6, 6 := 0]);
    assert Step(x2, ops[2]) == Third();
    Unfold(Start(), ops, x1);
    Unfold(x1, ops[1..], x2);
    Unfold(x2, ops[2..], Third());
    assert ops[1..][1..] == ops[2..] && ops[2..][1..] == [];
  }

  lemma ThirdInv(c: int)
    requires c == 2 - Val(Drift, Block(6, 1))
    ensures Inv(Third().frames, Third().live, {6, 7}, c)
  {
    ThirdReached();
    StartInv(c);
    RunKeepsInv(Start(), Ops()[..3], {6, 7}, c);
  }

  /** There the only free page names its own buddy, so allocating it and freeing it at once
      does not restore the state. */
  lemma RoundTripFails()
    ensures Disciplined(Start(), Ops()[..3]) && Run(Start(), Ops()[..3]) == Third()
    ensures var s := Third().frames;
      var r := AllocPages(s, 0, 0);
      r.page == 7 && NamesBuddy(s.words, 7, 0) && !Restored(s, FreePages(r.frames, 7, 0))
  {
    var s, c := Third().frames, 2 - Val(Drift, Block(6, 1));
    ThirdReached();
    ThirdInv(c);
    SecondAlloc(s.words);
    Bits6();
    assert ZoneLists(s, 0)[0] == Walk(s.words, 7, 1);
    AllocThenFree(s, Third().live, {6, 7}, c, 0, 0);
  }

  /** After this disciplined run pages 6 and 7 are both live, freeing page 7 fails the
      guard, and doing it anyway makes the next allocation of a pair return page 6. */
  lemma UnguardedFreeReusesLivePage()
    ensures Disciplined(Start(), Ops())
    ensures var x := Run(Start(), Ops());
      && x.live == multiset{Block(6, 0), Block(7, 0)}
      && !FreeGuard(x.frames, 7, 0)
      && AllocPages(FreePages(x.frames, 7, 0), 1, 0).page == 6
  {
    StaleLinkRun();
    UnguardedFree(map[7 := 6, 6 := 0]);
  }

  lemma Unfold(x: System, ops: seq<Op>, x': System)
    requires ops != [] && Permitted(x, ops[0]) && Step(x, ops[0]) == x'
    ensures Run(x, ops) == Run(x', ops[1..]) && (Disciplined(x', ops[1..]) ==> Disciplined(x, ops))
  {
  }
}
