/** Four-level page tables in physical memory: walking, mapping and unmapping, and the
    ownership tree that makes them agree with a plain map from page number to entry. */
module Paging {
  import opened Bits

  const PRESENT: nat := 1
  const WRITABLE: nat := 2
  const ADDRESS_MASK: nat := 0x000F_FFFF_FFFF_F000
  const PAGES: nat := 0x10_0000_0000   // bits 12..47 of an address select one of 2^36 pages

  datatype Option<+T> = None | Some(value: T)

  type Table = t: seq<nat> | |t| == 512 witness seq(512, _ => 0)

  function ZeroTable(): (t: Table)
    ensures forall i :: 0 <= i < 512 ==> t[i] == 0
  {
    seq(512, _ => 0)
  }

  /** Physical memory as far as it holds tables, by physical address, and the frames the
      page allocator will hand out next, in order; 0 is a refusal. */
  datatype Space = Space(tables: map<nat, Table>, supply: seq<nat>)

  predicate Present(e: nat) {
    e % 2 == 1
  }

  /** The address bits of an entry. */
  function Frame(e: nat): nat {
    e / 4096 % 0x100_0000_0000 * 4096
  }

  /** Those are the bits that the code's mask selects. */
  lemma FrameIsMask(e: nat)
    ensures BitAnd(e, ADDRESS_MASK) == Frame(e)
  {
    FrameBits();
    MaskIsFrame(e, 12, 40, 4096, 0x100_0000_0000);
  }

  lemma FrameBits()
    ensures Pow2(12) == 4096 && Pow2(40) == 0x100_0000_0000
  {
    assert Pow2(4) == 16;
    Pow2Eight(4);
    Pow2Eight(8);
    Pow2Eight(16);
    Pow2Eight(24);
    Pow2Eight(32);
  }

  lemma MaskIsFrame(e: nat, n: nat, k: nat, page: nat, ones: nat)
    requires page == Pow2(n) && ones == Pow2(k) && page == 4096 && ones == 0x100_0000_0000
    ensures BitAnd(e, ADDRESS_MASK) == Frame(e)
  {
    AndMask(e, ones - 1, n, page, ADDRESS_MASK, e / page);
    AndOnes(e / page, k);
  }

  function CreatePte(phys: nat, flags: nat): nat {
    BitOr(Frame(phys), flags)
  }

  lemma MaskBits(k: nat, n: nat, w: nat, page: nat, ones: nat)
    requires page == Pow2(n) && ones == Pow2(w) && (ones - 1) * page == ADDRESS_MASK
    ensures TestBit(ADDRESS_MASK, k) <==> n <= k < n + w
  {
    TestShift(ones - 1, n, page, ADDRESS_MASK, k);
    if k >= n + w {
      TestSmall(ones - 1, w, k - n);
    } else if k >= n {
      TestOnes(w, k - n);
    }
  }

  /** Bit by bit: an entry has bits 12 to 51 of the address and every bit of the flags. */
  lemma EntryBits(phys: nat, flags: nat, k: nat)
    ensures TestBit(CreatePte(phys, flags), k) <==> (12 <= k < 52 && TestBit(phys, k)) || TestBit(flags, k)
  {
    FrameIsMask(phys);
    FrameBits();
    MaskBits(k, 12, 40, 4096, 0x100_0000_0000);
    TestAnd(phys, ADDRESS_MASK, k);
    TestOr(Frame(phys), flags, k);
  }

  /** The nine bits of `u` that index a table of level `l`; level 4 is the root. */
  function Idx(u: nat, l: nat): (i: nat)
    requires 1 <= l <= 4
    ensures i < 512
  {
    if l == 4 then u / 0x80_0000_0000 % 512
    else if l == 3 then u / 0x4000_0000 % 512
    else if l == 2 then u / 0x20_0000 % 512
    else u / 0x1000 % 512
  }

  function Tab(t: map<nat, Table>, f: nat): Table {
    if f in t then t[f] else ZeroTable()
  }

  /** The leaf entry that a walk for `u` finds from table `f` of level `l`. */
  function WalkFrom(t: map<nat, Table>, f: nat, u: nat, l: nat): Option<nat>
    requires 1 <= l <= 4
    decreases l
  {
    var e := Tab(t, f)[Idx(u, l)];
    if !Present(e) then None else if l == 1 then Some(e) else WalkFrom(t, Frame(e), u, l - 1)
  }

  datatype Next = Next(space: Space, frame: nat)

  /** The table that entry `i` of table `f` names. A missing one is taken from the page
      allocator, zeroed and linked; the frame is 0 when the allocator refuses. */
  function NextTable(s: Space, f: nat, i: nat): Next
    requires i < 512
  {
    var e := Tab(s.tables, f)[i];
    if Present(e) then Next(s, Frame(e))
    else if s.supply == [] then Next(s, 0)
    else
      var p, rest := s.supply[0], s.supply[1..];
      if p == 0 then Next(Space(s.tables, rest), 0)
      else
        var t := s.tables[p := ZeroTable()];
        Next(Space(t[f := Tab(t, f)[i := CreatePte(p, PRESENT + WRITABLE)]], rest), p)
  }

  function SetEntry(s: Space, f: nat, i: nat, e: nat): Space
    requires i < 512
  {
    s.(tables := s.tables[f := Tab(s.tables, f)[i := e]])
  }

  datatype Outcome = Outcome(space: Space, ok: bool)

  function MapPage(s: Space, root: nat, virt: nat, phys: nat, flags: nat): Outcome {
    var n4 := NextTable(s, root, Idx(virt, 4));
    if n4.frame == 0 then Outcome(n4.space, false)
    else
      var n3 := NextTable(n4.space, n4.frame, Idx(virt, 3));
      if n3.frame == 0 then Outcome(n3.space, false)
      else
        var n2 := NextTable(n3.space, n3.frame, Idx(virt, 2));
        if n2.frame == 0 then Outcome(n2.space, false)
        else Outcome(SetEntry(n2.space, n2.frame, Idx(virt, 1), CreatePte(phys, BitOr(flags, PRESENT))), true)
  }

  /** The table that entry `i` of table `f` names, if present. */
  function Descend(t: map<nat, Table>, f: nat, i: nat): Option<nat>
    requires i < 512
  {
    var e := Tab(t, f)[i];
    if Present(e) then Some(Frame(e)) else None
  }

  function UnmapPage(s: Space, root: nat, virt: nat): Outcome {
    match Descend(s.tables, root, Idx(virt, 4))
    case None => Outcome(s, false)
    case Some(pud) =>
      match Descend(s.tables, pud, Idx(virt, 3))
      case None => Outcome(s, false)
      case Some(pmd) =>
        match Descend(s.tables, pmd, Idx(virt, 2))
        case None => Outcome(s, false)
        case Some(pte) => Outcome(SetEntry(s, pte, Idx(virt, 1), 0), true)
  }

  // ---------------------------------------------------------------- the ownership tree

  /** A table's place in the tree: its level and the page-number bits above it. */
  datatype Place = Place(level: nat, prefix: nat)

  function Prefix(u: nat, l: nat): nat
    requires 1 <= l <= 4
  {
    if l == 4 then 0
    else if l == 3 then u / 0x80_0000_0000 % 512
    else if l == 2 then u / 0x4000_0000 % 0x4_0000
    else u / 0x20_0000 % 0x800_0000
  }

  function Key(u: nat): (k: nat)
    ensures k < PAGES
  {
    u / 0x1000 % PAGES
  }

  /** `own` gives every table a place of its own: the root is at the top, and what a
      present entry of a table above level 1 names is the table at the corresponding place
      one level down. Such an entry carries two flag bits, 0 and 1, and no others; an entry
      that is not present is zero. */
  ghost predicate Tree(t: map<nat, Table>, root: nat, own: map<nat, Place>) {
    && t.Keys == own.Keys
    && root in own && own[root] == Place(4, 0)
    && WellPlaced(own) && OnePerPlace(own) && ChildrenPlaced(t, own) && AllReferenced(t, own)
    && LinksExact(t, own) && AbsentIsZero(t)
  }

  ghost predicate WellPlaced(own: map<nat, Place>) {
    forall f :: f in own ==> 1 <= own[f].level <= 4 && Frame(f) == f && f != 0
  }

  ghost predicate OnePerPlace(own: map<nat, Place>) {
    forall f, g :: f in own && g in own && own[f] == own[g] ==> f == g
  }

  ghost predicate ChildrenPlaced(t: map<nat, Table>, own: map<nat, Place>)
    requires t.Keys == own.Keys
  {
    forall f, i :: f in own && own[f].level > 1 && 0 <= i < 512 && Present(t[f][i]) ==>
      && Frame(t[f][i]) in own
      && own[Frame(t[f][i])] == Child(own[f], i)
  }

  /** An entry that names a table is the table's address, present and writable: bits 0 and 1. */
  ghost predicate LinksExact(t: map<nat, Table>, own: map<nat, Place>)
    requires t.Keys == own.Keys
  {
    forall f, i :: f in own && own[f].level > 1 && 0 <= i < 512 && Present(t[f][i]) ==> t[f][i] == Frame(t[f][i]) + 3
  }

  ghost predicate AbsentIsZero(t: map<nat, Table>) {
    forall f, i :: f in t && 0 <= i < 512 && !Present(t[f][i]) ==> t[f][i] == 0
  }

  ghost predicate AllReferenced(t: map<nat, Table>, own: map<nat, Place>)
    requires t.Keys == own.Keys
  {
    forall g :: g in own && own[g].level < 4 ==> Referenced(t, own, g)
  }

  function Child(q: Place, i: nat): Place
    requires q.level > 0
  {
    Place(q.level - 1, q.prefix * 512 + i)
  }

  /** Some table one level up has a present entry for `g`, at the index its place says. */
  ghost predicate Referenced(t: map<nat, Table>, own: map<nat, Place>, g: nat)
    requires g in own && t.Keys == own.Keys
  {
    exists f :: f in own && own[f] == Place(own[g].level + 1, own[g].prefix / 512)
             && Present(t[f][own[g].prefix % 512]) && Frame(t[f][own[g].prefix % 512]) == g
  }

  /** What the page allocator still hands out: page frames that are not tables yet, no
      frame twice. */
  ghost predicate FreshSupply(s: Space) {
    && (forall j :: 0 <= j < |s.supply| && s.supply[j] != 0 ==>
          s.supply[j] !in s.tables && Frame(s.supply[j]) == s.supply[j])
    && (forall j, k :: 0 <= j < k < |s.supply| && s.supply[j] != 0 ==> s.supply[j] != s.supply[k])
  }

  /** No table is named by two entries. */
  lemma ReferencedOnce(t: map<nat, Table>, root: nat, own: map<nat, Place>, f: nat, i: nat, g: nat, j: nat)
    requires Tree(t, root, own) && f in own && g in own && own[f].level > 1 && own[g].level > 1
    requires i < 512 && j < 512 && Present(t[f][i]) && Present(t[g][j]) && Frame(t[f][i]) == Frame(t[g][j])
    ensures f == g && i == j
  {
    assert own[f].prefix * 512 + i == own[g].prefix * 512 + j;
  }
}
