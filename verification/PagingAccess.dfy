/** What the processor makes of the tables: a page may be written, or reached from user mode,
    only if every entry on its path says so, and not executed if any entry says so. */
module PagingAccess {
  import opened Bits
  import opened Paging
  import opened PagingTree
  import opened PagingMap

  datatype Access = Access(write: bool, user: bool, noExecute: bool)

  /** The rights that a single entry grants. */
  function Rights(e: nat): Access {
    Access(TestBit(e, 1), TestBit(e, 2), TestBit(e, 63))
  }

  /** The rights that the entries on the path of `u` grant together, from table `f` of level
      `l` on. */
  function AccessFrom(t: map<nat, Table>, f: nat, u: nat, l: nat): Option<Access>
    requires 1 <= l <= 4
    decreases l
  {
    var e := Tab(t, f)[Idx(u, l)];
    if !Present(e) then None
    else if l == 1 then Some(Rights(e))
    else
      match AccessFrom(t, Frame(e), u, l - 1)
      case None => None
      case Some(a) =>
        Some(Access(Rights(e).write && a.write, Rights(e).user && a.user, Rights(e).noExecute || a.noExecute))
  }

  function Effective(s: Space, root: nat, u: nat): Option<Access> {
    AccessFrom(s.tables, root, u, 4)
  }

  // ---------------------------------------------------------------- links

  /** A link grants writing, no user access, and does not forbid execution. */
  lemma LinkRights(e: nat)
    requires e == Frame(e) + 3
    ensures Rights(e) == Access(true, false, false)
  {
    var r := e / 4096 % 0x100_0000_0000;
    LinkBits(r, e);
  }

  lemma LinkBits(r: nat, e: nat)
    requires r < 0x100_0000_0000 && e == 4096 * r + 3
    ensures TestBit(e, 1) && !TestBit(e, 2) && !TestBit(e, 63)
  {
    assert e / 2 == 2048 * r + 1 && e / 2 / 2 == 1024 * r;
    assert TestBit(e, 1) == TestBit(e / 2, 0);
    assert TestBit(e, 2) == TestBit(e / 2, 1) == TestBit(e / 2 / 2, 0);
    FrameBits();
    Pow2Below(52, 63);
    assert Pow2(52) == 4096 * Pow2(40) by {
      Pow2Eight(40);
      assert Pow2(52) == 16 * Pow2(48);
    }
    TestSmall(e, 63, 63);
  }

  /** In a tree the path above the leaf takes nothing away but user access. */
  lemma {:induction false} AccessIsLeaf(s: Space, root: nat, own: map<nat, Place>, f: nat, u: nat)
    requires Good(s, root, own) && f in own
    ensures AccessFrom(s.tables, f, u, own[f].level) ==
      match WalkFrom(s.tables, f, u, own[f].level)
      case None => None
      case Some(e) => Some(if own[f].level == 1 then Rights(e) else Rights(e).(user := false))
    decreases own[f].level
  {
    var l := own[f].level;
    var e := s.tables[f][Idx(u, l)];
    if Present(e) && l > 1 {
      LinkRights(e);
      AccessIsLeaf(s, root, own, Frame(e), u);
    }
  }

  lemma EffectiveIs(s: Space, root: nat, u: nat)
    requires IsTree(s, root)
    ensures Effective(s, root, u) ==
      match Translate(s, root, u) case None => None case Some(e) => Some(Rights(e).(user := false))
  {
    var own :| Good(s, root, own);
    AccessIsLeaf(s, root, own, root, u);
  }

  lemma PteRights(phys: nat, flags: nat)
    ensures Rights(Pte(phys, flags)) == Access(TestBit(flags, 1), TestBit(flags, 2), TestBit(flags, 63))
  {
    PteBit(phys, flags, 1);
    PteBit(phys, flags, 2);
    PteBit(phys, flags, 63);
  }

  lemma PteBit(phys: nat, flags: nat, k: nat)
    requires 0 < k < 12 || 52 <= k
    ensures TestBit(Pte(phys, flags), k) <==> TestBit(flags, k)
  {
    EntryBits(phys, BitOr(flags, PRESENT), k);
    TestOr(flags, PRESENT, k);
    assert TestBit(1, k) == TestBit(0, k - 1);
    TestZero(k - 1);
  }

  /** After a successful mapping the processor may write to the page exactly if `flags` has bit
      1, may execute from it exactly if `flags` lacks bit 63, and user mode cannot reach it,
      whatever `flags` asks for: the tables above it are linked without the user bit. */
  lemma MapGrants(s: Space, root: nat, virt: nat, phys: nat, flags: nat, u: nat)
    requires IsTree(s, root) && MapPage(s, root, virt, phys, flags).ok && Key(u) == Key(virt)
    ensures Effective(MapPage(s, root, virt, phys, flags).space, root, u)
         == Some(Access(TestBit(flags, 1), false, TestBit(flags, 63)))
  {
    MapPageSpec(s, root, virt, phys, flags);
    EffectiveIs(MapPage(s, root, virt, phys, flags).space, root, u);
    PteRights(phys, flags);
  }

  lemma ViewAt(s: Space, root: nat, u: nat)
    ensures Translate(s, root, u) == if Key(u) in View(s, root) then Some(View(s, root)[Key(u)]) else None
  {
    KeyOfPage(Key(u));
    SamePageWalk(s.tables, root, u, Key(u) * 0x1000, 4);
  }

  /** Over every run of mappings and unmappings, the rights to a page are those of the entry
      that the same requests leave in a plain map, without user access. */
  lemma RunGrants(s: Space, root: nat, ops: seq<Op>, u: nat)
    requires IsTree(s, root)
    ensures var v := RunView(s, root, View(s, root), ops);
      Effective(Run(s, root, ops), root, u) ==
        if Key(u) in v then Some(Rights(v[Key(u)]).(user := false)) else None
  {
    RunRefines(s, root, ops);
    var s' := Run(s, root, ops);
    EffectiveIs(s', root, u);
    ViewAt(s', root, u);
  }

  // ---------------------------------------------------------------- the result of an unmapping

  /** The tree has a leaf table for the 2 MB around `v`. */
  ghost predicate LeafTable(own: map<nat, Place>, v: nat) {
    exists f :: f in own && own[f] == Place(1, Prefix(v, 1))
  }

  /** A table that exists below the root is named by the entry its place says. */
  lemma ParentEntry(s: Space, root: nat, own: map<nat, Place>, f: nat, v: nat, l: nat) returns (g: nat)
    requires Good(s, root, own) && 1 <= l < 4 && f in own && own[f] == Place(l, Prefix(v, l))
    ensures g in own && own[g] == Place(l + 1, Prefix(v, l + 1)) && Descend(s.tables, g, Idx(v, l + 1)) == Some(f)
  {
    var q, i := Prefix(v, l + 1), Idx(v, l + 1);
    PrefixStep(v, l + 1);
    ChildDigits(q, i);
    g := NamedBy(s.tables, own, f, l, q, i);
  }

  lemma NamedBy(t: map<nat, Table>, own: map<nat, Place>, f: nat, l: nat, q: nat, i: nat) returns (g: nat)
    requires t.Keys == own.Keys && AllReferenced(t, own) && f in own && l < 4 && i < 512
    requires own[f].level == l && own[f].prefix / 512 == q && own[f].prefix % 512 == i
    ensures g in own && own[g] == Place(l + 1, q) && Descend(t, g, i) == Some(f)
  {
    assert Referenced(t, own, f);
    g :| g in own && own[g] == Place(l + 1, q) && Present(t[g][i]) && Frame(t[g][i]) == f;
  }

  /** An unmapping reports success exactly when the leaf table exists, whether or not the page
      itself is mapped. */
  lemma UnmapSucceedsIff(s: Space, root: nat, own: map<nat, Place>, v: nat)
    requires Good(s, root, own)
    ensures UnmapPage(s, root, v).ok <==> LeafTable(own, v)
  {
    if UnmapPage(s, root, v).ok {
      var a := Descend(s.tables, root, Idx(v, 4)).value;
      var b := Descend(s.tables, a, Idx(v, 3)).value;
      var f := Descend(s.tables, b, Idx(v, 2)).value;
      PathPlaces(s, root, own, a, b, f, v);
    }
    if f :| f in own && own[f] == Place(1, Prefix(v, 1)) {
      var b := ParentEntry(s, root, own, f, v, 1);
      var a := ParentEntry(s, root, own, b, v, 2);
      var r := ParentEntry(s, root, own, a, v, 3);
      assert r == root;
    }
  }

  /** In particular it succeeds behind a successful mapping anywhere in the same 2 MB. */
  lemma UnmapAfterMap(s: Space, root: nat, virt: nat, phys: nat, flags: nat, v: nat)
    requires IsTree(s, root) && MapPage(s, root, virt, phys, flags).ok && virt / 0x20_0000 == v / 0x20_0000
    ensures UnmapPage(MapPage(s, root, virt, phys, flags).space, root, v).ok
  {
    MapPageSpec(s, root, virt, phys, flags);
    var s' := MapPage(s, root, virt, phys, flags).space;
    var own :| Good(s', root, own);
    if !UnmapPage(s', root, virt).ok {
      NoPathWalk(s', root, virt);
      assert false;
    }
    UnmapSucceedsIff(s', root, own, virt);
    UnmapSucceedsIff(s', root, own, v);
  }
}
