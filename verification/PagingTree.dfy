/** Every table operation keeps the ownership tree, and changes no translation but the
    one it is asked to change. */
module PagingTree {
  import opened Bits
  import opened Paging

  lemma OrZero(a: nat)
    ensures BitOr(a, 0) == a
  {
  }

  lemma OrThree(q: nat)
    ensures BitOr(4 * q, 3) == 4 * q + 3
  {
    OrZero(q);
    assert BitOr(2 * q, 1) == 2 * q + 1;
  }

  lemma OrOdd(a: nat, b: nat)
    requires b % 2 == 1
    ensures BitOr(a, b) % 2 == 1
  {
  }

  lemma FrameLow(p: nat, e: nat)
    requires Frame(p) == p && e == p + 3
    ensures Present(e) && Frame(e) == p && p % 4 == 0
  {
    FrameFlags(p / 4096 % 0x100_0000_0000);
  }

  lemma FrameFlags(r: nat)
    requires r < 0x100_0000_0000
    ensures Frame(4096 * r + 3) == 4096 * r && Present(4096 * r + 3) && 4096 * r % 4 == 0
  {
    DivMod(4096 * r + 3, 4096, r, 3);
    DivMod(4096 * r + 3, 2, 2048 * r + 1, 1);
    DivMod(4096 * r, 4, 1024 * r, 0);
  }

  lemma LinkEntry(p: nat, e: nat)
    requires Frame(p) == p && e == CreatePte(p, PRESENT + WRITABLE)
    ensures Present(e) && Frame(e) == p && e == p + 3
  {
    FrameLow(p, p + 3);
    OrThree(p / 4);
  }

  lemma LeafEntry(phys: nat, flags: nat)
    ensures Present(CreatePte(phys, BitOr(flags, PRESENT)))
  {
    OrOdd(flags, PRESENT);
    OrOdd(Frame(phys), BitOr(flags, PRESENT));
  }

  lemma PrefixStep(u: nat, l: nat)
    requires 1 < l <= 4
    ensures Prefix(u, l) * 512 + Idx(u, l) == Prefix(u, l - 1)
  {
    if l == 3 {
      SplitDigits(u / 0x4000_0000, u / 0x80_0000_0000, 512);
    } else if l == 2 {
      SplitDigits(u / 0x20_0000, u / 0x4000_0000, 0x4_0000);
    }
  }

  lemma KeyDigits(u: nat)
    ensures Prefix(u, 1) * 512 + Idx(u, 1) == Key(u)
  {
    SplitDigits(u / 0x1000, u / 0x20_0000, 0x800_0000);
  }

  lemma SplitDigits(x: nat, y: nat, n: nat)
    requires y == x / 512 && n > 0
    ensures y % n * 512 + x % 512 == x % (n * 512)
  {
    var q, r := y / n, y % n;
    assert y == n * q + r;
    Regroup(n, q);
    assert x == (n * 512) * q + (r * 512 + x % 512);
    DivMod(x, n * 512, q, r * 512 + x % 512);
  }

  lemma Regroup(n: nat, q: nat)
    ensures 512 * (n * q) == (n * 512) * q
  {
  }

  ghost predicate Good(s: Space, root: nat, own: map<nat, Place>) {
    Tree(s.tables, root, own) && FreshSupply(s)
  }

  // ---------------------------------------------------------------- descending

  function NextOwn(s: Space, own: map<nat, Place>, f: nat, i: nat): map<nat, Place>
    requires f in own && own[f].level > 1 && i < 512
  {
    if Present(Tab(s.tables, f)[i]) || s.supply == [] || s.supply[0] == 0 then own
    else own[s.supply[0] := Child(own[f], i)]
  }

  lemma NextKeepsTree(s: Space, root: nat, own: map<nat, Place>, f: nat, i: nat)
    requires Good(s, root, own) && f in own && own[f].level > 1 && i < 512
    ensures var n, own' := NextTable(s, f, i), NextOwn(s, own, f, i);
      && Good(n.space, root, own') && f in own' && own'[f] == own[f]
      && (n.frame != 0 ==>
            && n.frame in own' && own'[n.frame] == Child(own[f], i)
            && Descend(n.space.tables, f, i) == Some(n.frame))
  {
    if !Present(s.tables[f][i]) && s.supply != [] {
      var p, rest := s.supply[0], s.supply[1..];
      assert FreshSupply(Space(s.tables, rest));
      if p != 0 {
        var e := CreatePte(p, PRESENT + WRITABLE);
        LinkEntry(p, e);
        LinkKeepsTree(s.tables, root, own, f, i, p, e);
      }
    }
  }

  /** Linking a fresh zeroed table under an absent entry keeps the tree. */
  lemma LinkKeepsTree(t: map<nat, Table>, root: nat, own: map<nat, Place>, f: nat, i: nat, p: nat, e: nat)
    requires Tree(t, root, own) && f in own && own[f].level > 1 && i < 512 && !Present(t[f][i])
    requires p !in own && Frame(p) == p != 0 && Present(e) && Frame(e) == p && e == p + 3
    ensures Tree(t[p := ZeroTable()][f := t[f][i := e]], root, own[p := Child(own[f], i)])
  {
    var t', own' := t[p := ZeroTable()][f := t[f][i := e]], own[p := Child(own[f], i)];
    LinkKeepsPlaces(t, root, own, own', f, i, p);
    LinkKeepsChildren(t, t', own, own', f, i, p, e);
    LinkKeepsExact(t, t', own, own', f, i, p, e);
    LinkKeepsZero(t, t', f, i, p, e);
    LinkKeepsAllReferenced(t, t', own, own', f, i, p, e);
  }

  lemma LinkKeepsPlaces(t: map<nat, Table>, root: nat, own: map<nat, Place>, own': map<nat, Place>, f: nat, i: nat, p: nat)
    requires Tree(t, root, own) && f in own && own[f].level > 1 && i < 512 && !Present(t[f][i])
    requires p !in own && Frame(p) == p != 0 && own' == own[p := Child(own[f], i)]
    ensures WellPlaced(own') && OnePerPlace(own')
  {
    forall g | g in own
      ensures own[g] != Child(own[f], i)
    {
      PlaceVacant(t, root, own, f, i, g);
    }
  }

  lemma LinkKeepsZero(t: map<nat, Table>, t': map<nat, Table>, f: nat, i: nat, p: nat, e: nat)
    requires AbsentIsZero(t) && f in t && i < 512 && p != f && Present(e)
    requires t' == t[p := ZeroTable()][f := t[f][i := e]]
    ensures AbsentIsZero(t')
  {
  }

  lemma LinkKeepsAllReferenced(t: map<nat, Table>, t': map<nat, Table>, own: map<nat, Place>, own': map<nat, Place>,
                               f: nat, i: nat, p: nat, e: nat)
    requires t.Keys == own.Keys && f in own && own[f].level > 1 && i < 512 && p !in own && Present(e) && Frame(e) == p
    requires !Present(t[f][i]) && AllReferenced(t, own)
    requires t' == t[p := ZeroTable()][f := t[f][i := e]] && own' == own[p := Child(own[f], i)]
    ensures AllReferenced(t', own')
  {
    forall g | g in own' && own'[g].level < 4
      ensures Referenced(t', own', g)
    {
      LinkKeepsReferenced(t, t', own, own', f, i, p, e, g);
    }
  }

  /** Below an absent entry there is no table. */
  lemma PlaceVacant(t: map<nat, Table>, root: nat, own: map<nat, Place>, f: nat, i: nat, g: nat)
    requires Tree(t, root, own) && f in own && own[f].level > 1 && i < 512 && !Present(t[f][i]) && g in own
    ensures own[g] != Child(own[f], i)
  {
    if own[g] == Child(own[f], i) {
      ChildDigits(own[f].prefix, i);
      assert false;
    }
  }

  lemma ChildDigits(prefix: nat, i: nat)
    requires i < 512
    ensures (prefix * 512 + i) / 512 == prefix && (prefix * 512 + i) % 512 == i
  {
  }

  lemma LinkKeepsChildren(t: map<nat, Table>, t': map<nat, Table>, own: map<nat, Place>, own': map<nat, Place>,
                          f: nat, i: nat, p: nat, e: nat)
    requires t.Keys == own.Keys && f in own && own[f].level > 1 && i < 512 && p !in own && Frame(e) == p
    requires ChildrenPlaced(t, own)
    requires t' == t[p := ZeroTable()][f := t[f][i := e]] && own' == own[p := Child(own[f], i)]
    ensures ChildrenPlaced(t', own')
  {
    forall g, j | g in own' && own'[g].level > 1 && 0 <= j < 512 && Present(t'[g][j])
      ensures Frame(t'[g][j]) in own' && own'[Frame(t'[g][j])] == Child(own'[g], j)
    {
      if g != p && !(g == f && j == i) {
        assert t'[g][j] == t[g][j];
      }
    }
  }

  lemma LinkKeepsExact(t: map<nat, Table>, t': map<nat, Table>, own: map<nat, Place>, own': map<nat, Place>,
                       f: nat, i: nat, p: nat, e: nat)
    requires t.Keys == own.Keys && f in own && own[f].level > 1 && i < 512 && p !in own && e == Frame(e) + 3
    requires LinksExact(t, own)
    requires t' == t[p := ZeroTable()][f := t[f][i := e]] && own' == own[p := Child(own[f], i)]
    ensures LinksExact(t', own')
  {
    forall g, j | g in own' && own'[g].level > 1 && 0 <= j < 512 && Present(t'[g][j])
      ensures t'[g][j] == Frame(t'[g][j]) + 3
    {
      if g != p && !(g == f && j == i) {
        assert t'[g][j] == t[g][j];
      }
    }
  }

  lemma LinkKeepsReferenced(t: map<nat, Table>, t': map<nat, Table>, own: map<nat, Place>, own': map<nat, Place>,
                            f: nat, i: nat, p: nat, e: nat, g: nat)
    requires t.Keys == own.Keys && f in own && own[f].level > 1 && i < 512 && p !in own && Present(e) && Frame(e) == p
    requires !Present(t[f][i]) && AllReferenced(t, own) && g in own' && own'[g].level < 4
    requires t' == t[p := ZeroTable()][f := t[f][i := e]] && own' == own[p := Child(own[f], i)]
    ensures Referenced(t', own', g)
  {
    if g == p {
      ChildDigits(own[f].prefix, i);
      assert t'[f][i] == e;
      assert own'[f] == Place(own'[g].level + 1, own'[g].prefix / 512);
    } else {
      var j := own[g].prefix % 512;
      var h :| h in own && own[h] == Place(own[g].level + 1, own[g].prefix / 512)
           && Present(t[h][j]) && Frame(t[h][j]) == g;
      assert t'[h][j] == t[h][j];
      assert own'[h] == own[h];
    }
  }

  /** Linking a fresh zeroed table changes the walk of no address. */
  lemma {:induction false} NextKeepsWalk(s: Space, root: nat, own: map<nat, Place>, f: nat, i: nat, g: nat, u: nat)
    requires Good(s, root, own) && f in own && own[f].level > 1 && i < 512 && g in own
    ensures WalkFrom(NextTable(s, f, i).space.tables, g, u, own[g].level) == WalkFrom(s.tables, g, u, own[g].level)
    decreases own[g].level
  {
    var t', l := NextTable(s, f, i).space.tables, own[g].level;
    if !Present(s.tables[f][i]) && s.supply != [] && s.supply[0] != 0 {
      var p := s.supply[0];
      LinkEntry(p, CreatePte(p, PRESENT + WRITABLE));
      if g == f && Idx(u, l) == i {
        assert t'[p] == ZeroTable();
        assert WalkFrom(t', p, u, l - 1) == None;
      } else {
        var e := s.tables[g][Idx(u, l)];
        assert t'[g][Idx(u, l)] == e;
        if Present(e) && l > 1 {
          NextKeepsWalk(s, root, own, f, i, Frame(e), u);
        }
      }
    }
  }

  /** Present entries survive the linking of other tables. */
  lemma NextKeepsEntry(s: Space, root: nat, own: map<nat, Place>, f: nat, i: nat, g: nat, j: nat)
    requires Good(s, root, own) && f in own && i < 512 && g in own && j < 512
    requires Descend(s.tables, g, j).Some?
    ensures Descend(NextTable(s, f, i).space.tables, g, j) == Descend(s.tables, g, j)
  {
  }

  // ---------------------------------------------------------------- leaf entries

  lemma LeafKeepsTree(s: Space, root: nat, own: map<nat, Place>, f: nat, i: nat, e: nat)
    requires Good(s, root, own) && f in own && own[f].level == 1 && i < 512 && (Present(e) || e == 0)
    ensures Good(SetEntry(s, f, i, e), root, own)
  {
    var t, t' := s.tables, SetEntry(s, f, i, e).tables;
    OtherTables(s, f, i, e);
    assert t'.Keys == own.Keys;
    LeafKeepsLinks(t, t', own);
  }

  lemma OtherTables(s: Space, f: nat, i: nat, e: nat)
    requires f in s.tables && i < 512
    ensures var t' := SetEntry(s, f, i, e).tables;
      t'.Keys == s.tables.Keys && forall g :: g in s.tables && g != f ==> t'[g] == s.tables[g]
  {
  }

  /** The tree above the leaf tables does not depend on what the leaf tables hold. */
  lemma LeafKeepsLinks(t: map<nat, Table>, t': map<nat, Table>, own: map<nat, Place>)
    requires t.Keys == t'.Keys == own.Keys && WellPlaced(own) && ChildrenPlaced(t, own) && AllReferenced(t, own)
    requires LinksExact(t, own)
    requires forall g :: g in own && own[g].level > 1 ==> t'[g] == t[g]
    ensures ChildrenPlaced(t', own) && AllReferenced(t', own) && LinksExact(t', own)
  {
    forall g | g in own && own[g].level < 4
      ensures Referenced(t', own, g)
    {
      var j := own[g].prefix % 512;
      var h :| h in own && own[h] == Place(own[g].level + 1, own[g].prefix / 512)
           && Present(t[h][j]) && Frame(t[h][j]) == g;
      assert t'[h] == t[h];
    }
  }

  /** Writing a leaf entry for `v` leaves the walk of every address on another page. */
  lemma {:induction false} LeafKeepsWalk(s: Space, root: nat, own: map<nat, Place>, f: nat, v: nat, e: nat, g: nat, u: nat)
    requires Good(s, root, own) && f in own && own[f] == Place(1, Prefix(v, 1))
    requires g in own && own[g] == Place(own[g].level, Prefix(u, own[g].level)) && Key(u) != Key(v)
    ensures WalkFrom(SetEntry(s, f, Idx(v, 1), e).tables, g, u, own[g].level) == WalkFrom(s.tables, g, u, own[g].level)
    decreases own[g].level
  {
    var l := own[g].level;
    var x := s.tables[g][Idx(u, l)];
    if l == 1 {
      KeyDigits(u);
      KeyDigits(v);
    } else if Present(x) {
      PrefixStep(u, l);
      LeafKeepsWalk(s, root, own, f, v, e, Frame(x), u);
    }
  }

  /** The three tables above the leaf table of `v`. */
  predicate OnPath(t: map<nat, Table>, root: nat, a: nat, b: nat, f: nat, v: nat) {
    && Descend(t, root, Idx(v, 4)) == Some(a)
    && Descend(t, a, Idx(v, 3)) == Some(b)
    && Descend(t, b, Idx(v, 2)) == Some(f)
  }

  lemma PathPlaces(s: Space, root: nat, own: map<nat, Place>, a: nat, b: nat, f: nat, v: nat)
    requires Good(s, root, own) && OnPath(s.tables, root, a, b, f, v)
    ensures a in own && own[a] == Place(3, Prefix(v, 3))
    ensures b in own && own[b] == Place(2, Prefix(v, 2))
    ensures f in own && own[f] == Place(1, Prefix(v, 1))
  {
    ChildPlace(s, root, own, root, v, 4);
    ChildPlace(s, root, own, a, v, 3);
    ChildPlace(s, root, own, b, v, 2);
  }

  lemma ChildPlace(s: Space, root: nat, own: map<nat, Place>, f: nat, v: nat, l: nat)
    requires Good(s, root, own) && 1 < l <= 4 && f in own && own[f] == Place(l, Prefix(v, l))
    requires Descend(s.tables, f, Idx(v, l)).Some?
    ensures var g := Descend(s.tables, f, Idx(v, l)).value; g in own && own[g] == Place(l - 1, Prefix(v, l - 1))
  {
    PrefixStep(v, l);
  }

  lemma PathWalk(t: map<nat, Table>, root: nat, a: nat, b: nat, f: nat, v: nat)
    requires OnPath(t, root, a, b, f, v)
    ensures WalkFrom(t, root, v, 4) == var e := Tab(t, f)[Idx(v, 1)]; if Present(e) then Some(e) else None
  {
    assert WalkFrom(t, root, v, 4) == WalkFrom(t, a, v, 3);
    assert WalkFrom(t, a, v, 3) == WalkFrom(t, b, v, 2);
    assert WalkFrom(t, b, v, 2) == WalkFrom(t, f, v, 1);
  }

  lemma KeyIndices(u: nat)
    ensures Key(u) == ((Idx(u, 4) * 512 + Idx(u, 3)) * 512 + Idx(u, 2)) * 512 + Idx(u, 1)
  {
    PrefixStep(u, 4);
    PrefixStep(u, 3);
    PrefixStep(u, 2);
    KeyDigits(u);
  }

  /** Addresses on the same page have the same four indices, and conversely. */
  lemma SamePageIndices(u: nat, v: nat)
    ensures Key(u) == Key(v) <==> forall l :: 1 <= l <= 4 ==> Idx(u, l) == Idx(v, l)
  {
    KeyIndices(u);
    KeyIndices(v);
    DigitsUnique(Idx(u, 4), Idx(u, 3), Idx(u, 2), Idx(u, 1), Idx(v, 4), Idx(v, 3), Idx(v, 2), Idx(v, 1));
  }

  lemma DigitsUnique(a: nat, b: nat, c: nat, d: nat, a': nat, b': nat, c': nat, d': nat)
    requires a < 512 && b < 512 && c < 512 && d < 512 && a' < 512 && b' < 512 && c' < 512 && d' < 512
    ensures ((a * 512 + b) * 512 + c) * 512 + d == ((a' * 512 + b') * 512 + c') * 512 + d'
       <==> a == a' && b == b' && c == c' && d == d'
  {
  }

  lemma {:induction false} SamePageWalk(t: map<nat, Table>, f: nat, u: nat, v: nat, l: nat)
    requires 1 <= l <= 4 && Key(u) == Key(v)
    ensures WalkFrom(t, f, u, l) == WalkFrom(t, f, v, l)
    decreases l
  {
    SamePageIndices(u, v);
    var e := Tab(t, f)[Idx(u, l)];
    if Present(e) && l > 1 {
      SamePageWalk(t, Frame(e), u, v, l - 1);
    }
  }

  function Translate(s: Space, root: nat, u: nat): Option<nat> {
    WalkFrom(s.tables, root, u, 4)
  }

  /** After a leaf write along the path of `v`, `v` finds the new entry and addresses on
      other pages find what they found before. */
  lemma LeafSpec(s: Space, root: nat, own: map<nat, Place>, a: nat, b: nat, f: nat, v: nat, e: nat, u: nat)
    requires Good(s, root, own) && OnPath(s.tables, root, a, b, f, v)
    ensures Translate(SetEntry(s, f, Idx(v, 1), e), root, u)
         == if Key(u) == Key(v) then (if Present(e) then Some(e) else None) else Translate(s, root, u)
  {
    PathPlaces(s, root, own, a, b, f, v);
    var s' := SetEntry(s, f, Idx(v, 1), e);
    if Key(u) == Key(v) {
      assert OnPath(s'.tables, root, a, b, f, v);
      PathWalk(s'.tables, root, a, b, f, v);
      SamePageWalk(s'.tables, root, u, v, 4);
    } else {
      LeafKeepsWalk(s, root, own, f, v, e, root, u);
    }
  }
}
