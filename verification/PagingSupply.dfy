/** Where a mapping can fail: only in the page allocator. */
module PagingSupply {
  import opened Paging
  import opened PagingTree
  import opened PagingMap

  /** A table is missing under entry `i` of table `f`, and the page allocator, which is asked
      for it, has no page left or refuses. */
  predicate Denied(s: Space, f: nat, i: nat)
    requires i < 512
  {
    !Present(Tab(s.tables, f)[i]) && (s.supply == [] || s.supply[0] == 0)
  }

  /** One of the requests of a mapping is denied. */
  predicate MapDenied(s: Space, root: nat, virt: nat) {
    var n4 := NextTable(s, root, Idx(virt, 4));
    var n3 := NextTable(n4.space, n4.frame, Idx(virt, 3));
    || Denied(s, root, Idx(virt, 4))
    || (n4.frame != 0 && Denied(n4.space, n4.frame, Idx(virt, 3)))
    || (n4.frame != 0 && n3.frame != 0 && Denied(n3.space, n3.frame, Idx(virt, 2)))
  }

  lemma NextFailsIff(s: Space, root: nat, own: map<nat, Place>, f: nat, i: nat)
    requires Good(s, root, own) && f in own && own[f].level > 1 && i < 512
    ensures NextTable(s, f, i).frame == 0 <==> Denied(s, f, i)
  {
  }

  /** In a well-formed tree a mapping fails if and only if one of its requests is denied. */
  lemma MapFailsIff(s: Space, root: nat, virt: nat, phys: nat, flags: nat)
    requires IsTree(s, root)
    ensures MapPage(s, root, virt, phys, flags).ok <==> !MapDenied(s, root, virt)
  {
    var own :| Good(s, root, own);
    var n4 := NextTable(s, root, Idx(virt, 4));
    NextFailsIff(s, root, own, root, Idx(virt, 4));
    var own4 := NextSpec(s, root, own, root, virt, 4);
    if n4.frame != 0 {
      var n3 := NextTable(n4.space, n4.frame, Idx(virt, 3));
      NextFailsIff(n4.space, root, own4, n4.frame, Idx(virt, 3));
      var own3 := NextSpec(n4.space, root, own4, n4.frame, virt, 3);
      if n3.frame != 0 {
        NextFailsIff(n3.space, root, own3, n3.frame, Idx(virt, 2));
      }
    }
  }

  // ---------------------------------------------------------------- no page is lost

  /** The pages that are tables and those that the page allocator will still hand out. */
  ghost function AllPages(s: Space): set<nat> {
    s.tables.Keys + set p | p in s.supply && p != 0
  }

  lemma NextConserves(s: Space, f: nat, i: nat)
    requires f in s.tables && i < 512
    ensures AllPages(NextTable(s, f, i).space) == AllPages(s)
  {
    if !Present(s.tables[f][i]) && s.supply != [] {
      assert s.supply == [s.supply[0]] + s.supply[1..];
    }
  }

  lemma SetConserves(s: Space, f: nat, i: nat, e: nat)
    requires f in s.tables && i < 512
    ensures AllPages(SetEntry(s, f, i, e)) == AllPages(s)
  {
    assert SetEntry(s, f, i, e).tables.Keys == s.tables.Keys;
  }

  /** One level of a mapping: the next table exists, and no page is lost. */
  lemma NextLevel(s: Space, root: nat, own: map<nat, Place>, f: nat, v: nat, l: nat, n: Next) returns (own': map<nat, Place>)
    requires Good(s, root, own) && 1 < l <= 4 && f in own && own[f] == Place(l, Prefix(v, l)) && n == NextTable(s, f, Idx(v, l))
    ensures Good(n.space, root, own') && AllPages(n.space) == AllPages(s)
    ensures n.frame != 0 ==>
      n.frame in own' && n.frame in n.space.tables && own'[n.frame] == Place(l - 1, Prefix(v, l - 1))
  {
    own' := NextSpec(s, root, own, f, v, l);
    NextConserves(s, f, Idx(v, l));
  }

  lemma MapConserves(s: Space, root: nat, virt: nat, phys: nat, flags: nat)
    requires IsTree(s, root)
    ensures AllPages(MapPage(s, root, virt, phys, flags).space) == AllPages(s)
  {
    var own :| Good(s, root, own);
    var n4 := NextTable(s, root, Idx(virt, 4));
    var own4 := NextLevel(s, root, own, root, virt, 4, n4);
    if n4.frame != 0 {
      var n3 := NextTable(n4.space, n4.frame, Idx(virt, 3));
      var own3 := NextLevel(n4.space, root, own4, n4.frame, virt, 3, n3);
      if n3.frame != 0 {
        var n2 := NextTable(n3.space, n3.frame, Idx(virt, 2));
        var own2 := NextLevel(n3.space, root, own3, n3.frame, virt, 2, n2);
        if n2.frame != 0 {
          SetConserves(n2.space, n2.frame, Idx(virt, 1), Pte(phys, flags));
        }
      }
    }
  }

  lemma UnmapConserves(s: Space, root: nat, virt: nat)
    requires IsTree(s, root)
    ensures AllPages(UnmapPage(s, root, virt).space) == AllPages(s)
  {
    var own :| Good(s, root, own);
    var o := UnmapPage(s, root, virt);
    if o.ok {
      var a := Descend(s.tables, root, Idx(virt, 4)).value;
      var b := Descend(s.tables, a, Idx(virt, 3)).value;
      var f := Descend(s.tables, b, Idx(virt, 2)).value;
      PathPlaces(s, root, own, a, b, f, virt);
      SetConserves(s, f, Idx(virt, 1), 0);
    }
  }

  /** Over every run each page the allocator handed out is a table of the tree: a mapping that
      fails half way loses none, and no page is taken without need. */
  lemma {:induction false} RunConserves(s: Space, root: nat, ops: seq<Op>)
    requires IsTree(s, root)
    ensures AllPages(Run(s, root, ops)) == AllPages(s)
    decreases |ops|
  {
    if ops != [] {
      ApplyRefines(s, root, ops[0]);
      match ops[0] {
        case Map(virt, phys, flags) => MapConserves(s, root, virt, phys, flags);
        case Unmap(virt) => UnmapConserves(s, root, virt);
      }
      RunConserves(Apply(s, root, ops[0]).space, root, ops[1..]);
    }
  }
}
