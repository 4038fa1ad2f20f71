/** The allocator as the object the kernel keeps: zones, page words and counters updated
    in place. Each method is proved to make the state change of the function of the same
    name on states, whose properties are the subject of the other frame modules. */
module FrameMachine {
  import opened Bits
  import opened FrameLists
  import opened FrameAllocator
  import opened FrameRuns

  /** A memory map entry; only conventional memory counts. */
  datatype Descriptor = Descriptor(conventional: bool, pages: nat)

  function ConventionalPages(d: seq<Descriptor>): nat {
    if d == [] then 0
    else ConventionalPages(d[..|d| - 1]) + if d[|d| - 1].conventional then d[|d| - 1].pages else 0
  }

  class PageAllocator {
    var zones: Zones
    var words: Words
    var totalPages: nat
    var freePages: nat

    function State(): Frames
      reads this
    {
      Frames(zones, words, freePages)
    }

    /** Counts the conventional pages and leaves every free list empty, whatever memory
        holds. */
    constructor (descriptors: seq<Descriptor>, memory: Words)
      ensures freePages == totalPages == ConventionalPages(descriptors) % TWO64
      ensures State() == InitialFrames(memory, freePages)
    {
      var total, free := 0, 0;
      for i := 0 to |descriptors|
        invariant total == free == ConventionalPages(descriptors[..i]) % TWO64
      {
        assert descriptors[..i + 1][..i] == descriptors[..i];
        if descriptors[i].conventional {
          total := (total + descriptors[i].pages) % TWO64;
          free := (free + descriptors[i].pages) % TWO64;
        }
      }
      assert descriptors[..|descriptors|] == descriptors;
      totalPages, freePages, words := total, free, memory;
      zones := [EmptyZone(), EmptyZone(), EmptyZone()];
    }

    method AllocPagesZone(z: nat, order: nat) returns (page: nat)
      requires z < 3 && freePages < TWO64
      modifies this`zones, this`freePages
      ensures var r := AllocZone(old(zones)[z], words, order);
        page == r.page && zones == old(zones)[z := r.areas] && freePages == Minus(old(freePages), r.debit)
      decreases NR_FREE_AREA - order
    {
      if order >= NR_FREE_AREA {
        return 0;
      }
      var area := zones[z][order];
      if area.nrFree == 0 {
        if order + 1 < NR_FREE_AREA {
          page := AllocPagesZone(z, order + 1);
          if page != 0 {
            var buddy := Buddy(page, order);
            var a := zones[z];
            zones := zones[z := a[order := Area((a[order].nrFree + 1) % TWO64, buddy)]];
          }
          return;
        }
        return 0;
      }
      page := area.head;
      zones := zones[z := zones[z][order := Area(area.nrFree - 1, Word(words, page))]];
      freePages := Minus(freePages, Pow2(order));
    }

    method AllocPages(order: nat, zone: int) returns (page: nat)
      requires freePages < TWO64
      modifies this`zones, this`freePages
      ensures Allocation(State(), page) == FrameAllocator.AllocPages(old(State()), order, zone)
    {
      var z := zone;
      if z < 0 || z >= 3 {
        z := ZONE_NORMAL;
      }
      page := AllocPagesZone(z, order);
    }

    /** Takes buddies off the heads of their lists for as long as they are there. */
    method Merge(z: nat, page: nat, order: nat) returns (p: nat, k: nat)
      requires z < 3 && order <= MAX_ORDER
      modifies this`zones
      ensures zones == old(zones)[z := zones[z]]
      ensures Coalesced(zones[z], p, k) == Coalesce(old(zones)[z], words, page, order)
    {
      p, k := page, order;
      while k < MAX_ORDER
        invariant order <= k <= MAX_ORDER
        invariant zones == old(zones)[z := zones[z]]
        invariant Coalesce(zones[z], words, p, k) == Coalesce(old(zones)[z], words, page, order)
      {
        var buddy := Buddy(p, k);
        if zones[z][k].head != buddy {
          break;
        }
        zones := zones[z := Taken(zones[z], words, k, buddy)];
        p := BitAnd(p, buddy);
        k := k + 1;
      }
    }

    method FreePages(page: nat, order: nat)
      requires order <= MAX_ORDER
      modifies this`zones, this`words, this`freePages
      ensures State() == FrameAllocator.FreePages(old(State()), page, order)
    {
      if page == 0 {
        return;
      }
      var z := ZONE_NORMAL;
      if page < ZONE_DMA_END {
        z := ZONE_DMA;
      }
      var p, k := Merge(z, page, order);
      var a := zones[z];
      assert JoinPages(old(State()), page, order) == Coalesced(a, p, k);
      words := words[p := a[k].head];
      zones := zones[z := Push(a, p, k)];
      freePages := Plus(freePages, Pow2(k));
    }
  }
}
