/** The kernel's address space as an object: mapping, unmapping and identity mapping in
    place, and initialisation. */
module PagingBoot {
  import opened Bits
  import opened Paging
  import opened PagingMap
  import opened PagingSupply
  import opened PagingIdentity
  import opened PagingAccess

  function AlignDown(a: nat): nat {
    a / 4096 * 4096
  }

  /** Page `k` lies in the kernel image, rounded outwards to page boundaries. */
  predicate KernelPage(k: nat, kernelStart: nat, kernelEnd: nat) {
    kernelStart / 4096 <= k < (kernelEnd + 4095) / 4096
  }

  /** Every mapped page maps to itself. */
  ghost predicate Identity(v: map<nat, nat>) {
    forall k :: k in v ==> Frame(v[k]) == k * 4096
  }

  lemma IdentityPagesIdentity(v: map<nat, nat>, k: nat, n: nat, flags: nat)
    requires Identity(v) && k + n <= PAGES && (flags == LOW_FLAGS || flags == KERNEL_FLAGS)
    ensures Identity(v + IdentityPages(k, n, flags))
    ensures forall j :: k <= j < k + n ==> IdentityPages(k, n, flags)[j] == j * 4096 + flags
  {
    forall j | k <= j < k + n
      ensures Frame(IdentityPages(k, n, flags)[j]) == j * 4096
      ensures IdentityPages(k, n, flags)[j] == j * 4096 + flags
    {
      IdentityEntry(j, flags);
    }
  }

  /** How many pages a range mapping covers: all of `[addr, end)` on success, fewer
      otherwise, and never a page past the end. */
  lemma RangePages(addr: nat, end: nat, n: nat, ok: bool)
    requires (ok <==> addr + 4096 * n >= end) && (n > 0 ==> addr + 4096 * (n - 1) < end) && addr % 4096 == 0 && end % 4096 == 0
    ensures n > 0 ==> addr / 4096 + n <= end / 4096
    ensures ok && addr < end ==> addr / 4096 + n == end / 4096
    ensures addr >= end ==> n == 0
  {
  }

  /** The entry that maps page `k` to itself: present, writable and global (0x103), and
      no-execute (bit 63) in the kernel image. */
  function BootEntry(k: nat, kernel: bool): nat {
    k * 4096 + 0x103 + if kernel then 0x8000_0000_0000_0000 else 0
  }

  /** Exactly the low 4 GB and the kernel image are mapped, each page by its boot entry. */
  ghost predicate FullBoot(v: map<nat, nat>, kernelStart: nat, kernelEnd: nat) {
    && (forall k :: k in v <==> 0 <= k < FOUR_GB / 4096 || (k >= 0 && KernelPage(k, kernelStart, kernelEnd)))
    && (forall k :: k in v ==> k >= 0 && v[k] == BootEntry(k, KernelPage(k, kernelStart, kernelEnd)))
  }

  lemma BootViews(v: map<nat, nat>, w: map<nat, nat>, kernelStart: nat, kernelEnd: nat, low: bool, n1: nat, kernel: bool, n2: nat)
    requires kernelEnd + 4095 <= ADDRESSES
    requires PrefixMapped(map[], v, low, 0, FOUR_GB, LOW_FLAGS, n1)
    requires PrefixMapped(v, w, kernel, AlignDown(kernelStart), AlignDown(kernelEnd + 4095), KERNEL_FLAGS, n2)
    ensures Identity(w)
    ensures low && kernel ==> FullBoot(w, kernelStart, kernelEnd)
  {
    var a, z := AlignDown(kernelStart), AlignDown(kernelEnd + 4095);
    AlignedDown(kernelStart);
    AlignedDown(kernelEnd + 4095);
    RangePages(0, FOUR_GB, n1, low);
    RangePages(a, z, n2, kernel);
    BootView(w, n1, a / 4096, n2);
    if low && kernel {
      AllMapped(w, kernelStart, kernelEnd, n1, a / 4096, n2);
    }
  }

  lemma AllMapped(w: map<nat, nat>, kernelStart: nat, kernelEnd: nat, n1: nat, k: nat, n2: nat)
    requires n1 == FOUR_GB / 4096
    requires forall j: nat :: k <= j < k + n2 <==> KernelPage(j, kernelStart, kernelEnd)
    requires forall j :: j in w <==> 0 <= j < n1 || k <= j < k + n2
    requires forall j :: j in w ==> j >= 0 && w[j] == BootEntry(j, k <= j < k + n2)
    ensures FullBoot(w, kernelStart, kernelEnd)
  {
  }

  /** After a complete boot mapping the processor lets the kernel write to every mapped page and
      execute from those outside the kernel image, and keeps user mode out. */
  lemma BootAccess(s: Space, root: nat, kernelStart: nat, kernelEnd: nat, u: nat)
    requires IsTree(s, root) && FullBoot(View(s, root), kernelStart, kernelEnd)
    ensures var k := Key(u);
      Effective(s, root, u) ==
        if k < 0x10_0000 || KernelPage(k, kernelStart, kernelEnd)
        then Some(Access(true, false, KernelPage(k, kernelStart, kernelEnd))) else None
  {
    var k := Key(u);
    EffectiveIs(s, root, u);
    ViewAt(s, root, u);
    if k in View(s, root) {
      BootEntryRights(k, KernelPage(k, kernelStart, kernelEnd));
    }
  }

  lemma BootEntryRights(k: nat, kernel: bool)
    requires k < PAGES
    ensures Rights(BootEntry(k, kernel)).write && (Rights(BootEntry(k, kernel)).noExecute <==> kernel)
  {
    var e := BootEntry(k, kernel);
    IdentityEntry(k, if kernel then KERNEL_FLAGS else LOW_FLAGS);
    NoExecuteBit(e);
    WriteBit(e, 1024 * k + 0x40 + if kernel then 0x2000_0000_0000_0000 else 0);
  }

  lemma WriteBit(e: nat, q: nat)
    requires e == 4 * q + 3
    ensures TestBit(e, 1)
  {
    DivMod(e, 2, 2 * q + 1, 1);
    assert TestBit(e, 1) == TestBit(e / 2, 0);
  }

  lemma {:induction false} TestDiv(x: nat, k: nat, h: nat)
    requires h == Pow2(k)
    ensures TestBit(x, k) <==> x / h % 2 == 1
    decreases k
  {
    if k > 0 {
      TestDiv(x / 2, k - 1, h / 2);
      HalfDiv(x, h / 2, h);
    }
  }

  lemma HalfDiv(x: nat, g: nat, h: nat)
    requires g > 0 && h == 2 * g
    ensures x / 2 / g == x / h
  {
    var q, r := x / 2 / g, x / 2 % g;
    assert x / 2 == g * q + r;
    DivMod(x, h, q, 2 * r + x % 2);
  }

  lemma NoExecuteBit(e: nat)
    ensures TestBit(e, 63) <==> NoExecute(e)
  {
    FrameBits();
    var h := TopWeight(40, 63);
    TestDiv(e, 63, h);
  }

  lemma TopWeight(k: nat, n: nat) returns (h: nat)
    requires Pow2(k) == 0x100_0000_0000 && n == k + 23
    ensures h == Pow2(n) == 0x8000_0000_0000_0000
  {
    Pow2Eight(k);
    Pow2Eight(k + 8);
    assert Pow2(k + 18) == 4 * Pow2(k + 16);
    assert Pow2(k + 20) == 4 * Pow2(k + 18);
    assert Pow2(k + 22) == 4 * Pow2(k + 20);
    assert Pow2(k + 23) == 2 * Pow2(k + 22);
    h := Pow2(n);
  }

  lemma FirstTable(supply: seq<nat>)
    requires FreshSupply(Space(map[], supply)) && supply != [] && supply[0] != 0
    ensures var s := Space(map[supply[0] := ZeroTable()], supply[1..]);
      IsTree(s, supply[0]) && View(s, supply[0]) == map[]
  {
    var root, rest := supply[0], supply[1..];
    assert FreshSupply(Space(map[], rest));
    assert root !in rest;
    EmptyTree(root, rest);
  }

  lemma AlignedDown(x: nat)
    ensures AlignDown(x) % 4096 == 0 && AlignDown(x) / 4096 == x / 4096 && AlignDown(x) <= x
  {
  }

  lemma BootView(v: map<nat, nat>, n1: nat, k: nat, n2: nat)
    requires v == map[] + IdentityPages(0, n1, LOW_FLAGS) + IdentityPages(k, n2, KERNEL_FLAGS)
    requires n1 <= PAGES && (n2 > 0 ==> k + n2 <= PAGES)
    ensures Identity(v)
    ensures forall j :: j in v <==> 0 <= j < n1 || k <= j < k + n2
    ensures forall j :: j in v ==> j >= 0 && v[j] == BootEntry(j, k <= j < k + n2)
  {
    IdentityPagesIdentity(map[], 0, n1, LOW_FLAGS);
    if n2 > 0 {
      IdentityPagesIdentity(map[] + IdentityPages(0, n1, LOW_FLAGS), k, n2, KERNEL_FLAGS);
    }
  }

  class AddressSpace {
    var tables: map<nat, Table>
    var supply: seq<nat>
    var root: nat
    ghost var denials: nat   // requests for a page that got none

    function State(): Space
      reads this`tables, this`supply
    {
      Space(tables, supply)
    }

    /** Takes the next frame from the page allocator; 0 when it refuses. */
    method AllocPage() returns (p: nat)
      modifies this`supply, this`denials
      ensures p == (if old(supply) == [] then 0 else old(supply)[0])
      ensures supply == (if old(supply) == [] then [] else old(supply)[1..])
      ensures denials == old(denials) + if p == 0 then 1 else 0
    {
      p := 0;
      if supply != [] {
        p, supply := supply[0], supply[1..];
      }
      if p == 0 {
        denials := denials + 1;
      }
    }

    /** One level of the walk of `map_page`: find or make the table under entry `i`. */
    method FindTable(f: nat, i: nat) returns (frame: nat)
      requires i < 512
      modifies this`tables, this`supply, this`denials
      ensures Next(State(), frame) == NextTable(old(State()), f, i)
      ensures denials == old(denials) + if Denied(old(State()), f, i) then 1 else 0
    {
      var e := Tab(tables, f)[i];
      if !Present(e) {
        frame := AllocPage();
        if frame == 0 {
          return;
        }
        tables := tables[frame := ZeroTable()];
        tables := tables[f := Tab(tables, f)[i := CreatePte(frame, PRESENT + WRITABLE)]];
      } else {
        frame := Frame(e);
      }
    }

    method MapEntry(virt: nat, phys: nat, flags: nat) returns (ok: bool)
      modifies this`tables, this`supply, this`denials
      ensures Outcome(State(), ok) == Paging.MapPage(old(State()), root, virt, phys, flags)
      ensures denials == old(denials) + if MapDenied(old(State()), root, virt) then 1 else 0
    {
      var pud := FindTable(root, Idx(virt, 4));
      if pud == 0 {
        return false;
      }
      var pmd := FindTable(pud, Idx(virt, 3));
      if pmd == 0 {
        return false;
      }
      var pte := FindTable(pmd, Idx(virt, 2));
      if pte == 0 {
        return false;
      }
      var e := CreatePte(phys, BitOr(flags, PRESENT));
      tables := tables[pte := Tab(tables, pte)[Idx(virt, 1) := e]];
      return true;
    }

    /** Maps one page. The tables' meaning changes at that page's key and nowhere else,
        or, on failure, not at all. It fails exactly when a page it asks for is denied. */
    method MapPage(virt: nat, phys: nat, flags: nat) returns (ok: bool)
      requires IsTree(State(), root)
      modifies this`tables, this`supply, this`denials
      ensures Outcome(State(), ok) == Paging.MapPage(old(State()), root, virt, phys, flags)
      ensures IsTree(State(), root)
      ensures View(State(), root) == ApplyView(old(View(State(), root)), Map(virt, phys, flags), ok)
      ensures ok ==> Effective(State(), root, virt) == Some(Access(TestBit(flags, 1), false, TestBit(flags, 63)))
      ensures denials == old(denials) + if ok then 0 else 1
    {
      ghost var s := State();
      MapFailsIff(s, root, virt, phys, flags);
      if Paging.MapPage(s, root, virt, phys, flags).ok {
        MapGrants(s, root, virt, phys, flags, virt);
      }
      ok := MapEntry(virt, phys, flags);
      ApplyRefines(s, root, Map(virt, phys, flags));
    }

    method ClearEntry(virt: nat) returns (ok: bool)
      modifies this`tables
      ensures Outcome(State(), ok) == Paging.UnmapPage(old(State()), root, virt)
    {
      var pud := Descend(tables, root, Idx(virt, 4));
      if pud == None {
        return false;
      }
      var pmd := Descend(tables, pud.value, Idx(virt, 3));
      if pmd == None {
        return false;
      }
      var pte := Descend(tables, pmd.value, Idx(virt, 2));
      if pte == None {
        return false;
      }
      tables := tables[pte.value := Tab(tables, pte.value)[Idx(virt, 1) := 0]];
      return true;
    }

    /** Unmaps one page; afterwards it has no translation and all others are as before. */
    method UnmapPage(virt: nat) returns (ok: bool)
      requires IsTree(State(), root)
      modifies this`tables
      ensures Outcome(State(), ok) == Paging.UnmapPage(old(State()), root, virt)
      ensures IsTree(State(), root)
      ensures View(State(), root) == ApplyView(old(View(State(), root)), Unmap(virt), ok)
    {
      ghost var s := State();
      ok := ClearEntry(virt);
      ApplyRefines(s, root, Unmap(virt));
    }

    /** Maps the pages of `[start, end)` to themselves until one mapping fails: exactly the
        first `n` pages, all of them on success, and nothing else. */
    method CreateIdentityMap(start: nat, end: nat, flags: nat) returns (ok: bool, ghost n: nat)
      requires IsTree(State(), root) && end <= ADDRESSES
      modifies this`tables, this`supply, this`denials
      ensures IsTree(State(), root)
      ensures PrefixMapped(old(View(State(), root)), View(State(), root), ok, start, end, flags, n)
      ensures denials == old(denials) + if ok then 0 else 1
    {
      ghost var v := View(State(), root);
      NoPages(v, start / 4096, flags);
      var addr := start;
      n := 0;
      while addr < end
        invariant IsTree(State(), root)
        invariant Mapped(v, View(State(), root), start, addr, end, flags, n)
        invariant denials == old(denials)
      {
        ghost var w := View(State(), root);
        ok := MapPage(addr, addr, flags);
        if !ok {
          MappedIsPrefix(v, w, start, addr, end, flags, n, false);
          return;
        }
        MappedOneMore(v, w, start, addr, end, flags, n, addr + 4096, n + 1);
        addr, n := addr + 4096, n + 1;
      }
      ok := true;
      MappedIsPrefix(v, View(State(), root), start, addr, end, flags, n, true);
    }

    /** The two range mappings of initialisation; neither outcome is looked at. */
    method MapLowAndKernel(kernelStart: nat, kernelEnd: nat)
      requires IsTree(State(), root) && View(State(), root) == map[] && kernelEnd + 4095 <= ADDRESSES
      modifies this`tables, this`supply, this`denials
      ensures IsTree(State(), root) && Identity(View(State(), root)) && denials >= old(denials)
      ensures denials == old(denials) ==> FullBoot(View(State(), root), kernelStart, kernelEnd)
    {
      var low, n1 := CreateIdentityMap(0, FOUR_GB, LOW_FLAGS);
      ghost var v := View(State(), root);
      AlignedDown(kernelEnd + 4095);
      var kernel, n2 := CreateIdentityMap(AlignDown(kernelStart), AlignDown(kernelEnd + 4095), KERNEL_FLAGS);
      BootViews(v, View(State(), root), kernelStart, kernelEnd, low, n1, kernel, n2);
    }

    /** Builds the first address space from a fresh supply of pages. Whatever requests are
        denied, the tables form a tree and every mapped page maps to itself; when none is,
        exactly the low 4 GB and the kernel image are mapped, each page present, writable and
        global, and exactly the kernel image no-execute. */
    method PagingInit(kernelStart: nat, kernelEnd: nat)
      requires tables == map[] && FreshSupply(State()) && kernelEnd + 4095 <= ADDRESSES
      modifies this
      ensures root == if old(supply) == [] then 0 else old(supply)[0]
      ensures root != 0 ==> IsTree(State(), root) && Identity(View(State(), root))
      ensures denials == old(denials) ==> FullBoot(View(State(), root), kernelStart, kernelEnd)
    {
      root := AllocPage();
      if root == 0 {
        return;
      }
      tables := tables[root := ZeroTable()];
      FirstTable(old(supply));
      assert State() == Space(map[root := ZeroTable()], supply);
      MapLowAndKernel(kernelStart, kernelEnd);
    }
  }
}
