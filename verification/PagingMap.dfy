/** Page tables refine a plain map from 36-bit page number to leaf entry. */
module PagingMap {
  import opened Bits
  import opened Paging
  import opened PagingTree

  /** The tables reachable from `root` form a four-level tree in which each frame has one
      place and one reference, and the page allocator has only other frames to give. */
  ghost predicate IsTree(s: Space, root: nat) {
    exists own :: Good(s, root, own)
  }

  /** What the tables mean: the leaf entry of every mapped page. */
  ghost function View(s: Space, root: nat): (v: map<nat, nat>)
    ensures forall k :: k in v <==> 0 <= k < PAGES && Translate(s, root, k * 0x1000).Some?
    ensures forall k :: k in v ==> Some(v[k]) == Translate(s, root, k * 0x1000)
  {
    map k | 0 <= k < PAGES && Translate(s, root, k * 0x1000).Some? :: Translate(s, root, k * 0x1000).value
  }

  function Pte(phys: nat, flags: nat): nat {
    CreatePte(phys, BitOr(flags, PRESENT))
  }

  lemma NextSpec(s: Space, root: nat, own: map<nat, Place>, f: nat, v: nat, l: nat) returns (own': map<nat, Place>)
    requires Good(s, root, own) && 1 < l <= 4 && f in own && own[f] == Place(l, Prefix(v, l))
    ensures var n := NextTable(s, f, Idx(v, l));
      && Good(n.space, root, own')
      && (n.frame != 0 ==>
            && n.frame in own' && own'[n.frame] == Place(l - 1, Prefix(v, l - 1))
            && Descend(n.space.tables, f, Idx(v, l)) == Some(n.frame))
      && (forall u :: Translate(n.space, root, u) == Translate(s, root, u))
  {
    own' := NextOwn(s, own, f, Idx(v, l));
    PrefixStep(v, l);
    NextKeepsTree(s, root, own, f, Idx(v, l));
    var n := NextTable(s, f, Idx(v, l));
    forall u: nat
      ensures Translate(n.space, root, u) == Translate(s, root, u)
    {
      NextKeepsWalk(s, root, own, f, Idx(v, l), root, u);
    }
  }

  /** A successful mapping gives its own page the new entry and leaves every other
      translation alone; a failed one, whatever tables it linked, changes none. */
  lemma MapPageSpec(s: Space, root: nat, virt: nat, phys: nat, flags: nat)
    requires IsTree(s, root)
    ensures var o := MapPage(s, root, virt, phys, flags);
      && IsTree(o.space, root)
      && forall u :: Translate(o.space, root, u)
           == if o.ok && Key(u) == Key(virt) then Some(Pte(phys, flags)) else Translate(s, root, u)
  {
    var own :| Good(s, root, own);
    var i4, i3, i2 := Idx(virt, 4), Idx(virt, 3), Idx(virt, 2);
    var n4 := NextTable(s, root, i4);
    var own4 := NextSpec(s, root, own, root, virt, 4);
    if n4.frame != 0 {
      var n3 := NextTable(n4.space, n4.frame, i3);
      var own3 := NextSpec(n4.space, root, own4, n4.frame, virt, 3);
      NextKeepsEntry(n4.space, root, own4, n4.frame, i3, root, i4);
      if n3.frame != 0 {
        var n2 := NextTable(n3.space, n3.frame, i2);
        var own2 := NextSpec(n3.space, root, own3, n3.frame, virt, 2);
        PathKept(n3.space, root, own3, n4.frame, n3.frame, virt);
        if n2.frame != 0 {
          LeafEntry(phys, flags);
          LeafDone(n2.space, root, own2, n4.frame, n3.frame, n2.frame, virt, Pte(phys, flags));
        }
      }
    }
  }

  lemma PathKept(s: Space, root: nat, own: map<nat, Place>, a: nat, b: nat, v: nat)
    requires Good(s, root, own) && Descend(s.tables, root, Idx(v, 4)) == Some(a) && Descend(s.tables, a, Idx(v, 3)) == Some(b)
    requires b in own
    ensures var t := NextTable(s, b, Idx(v, 2)).space.tables;
      Descend(t, root, Idx(v, 4)) == Some(a) && Descend(t, a, Idx(v, 3)) == Some(b)
  {
    ChildPlace(s, root, own, root, v, 4);
    NextKeepsEntry(s, root, own, b, Idx(v, 2), root, Idx(v, 4));
    NextKeepsEntry(s, root, own, b, Idx(v, 2), a, Idx(v, 3));
  }

  lemma LeafDone(s: Space, root: nat, own: map<nat, Place>, a: nat, b: nat, f: nat, v: nat, e: nat)
    requires Good(s, root, own) && OnPath(s.tables, root, a, b, f, v) && (Present(e) || e == 0)
    ensures var s' := SetEntry(s, f, Idx(v, 1), e);
      && IsTree(s', root)
      && forall u :: Translate(s', root, u)
           == if Key(u) == Key(v) then (if Present(e) then Some(e) else None) else Translate(s, root, u)
  {
    var s' := SetEntry(s, f, Idx(v, 1), e);
    PathPlaces(s, root, own, a, b, f, v);
    LeafKeepsTree(s, root, own, f, Idx(v, 1), e);
    forall u: nat
      ensures Translate(s', root, u)
           == if Key(u) == Key(v) then (if Present(e) then Some(e) else None) else Translate(s, root, u)
    {
      LeafSpec(s, root, own, a, b, f, v, e, u);
    }
  }

  /** Unmapping removes the translation of its own page and no other. It reports failure
      only when there was none to remove. */
  lemma UnmapPageSpec(s: Space, root: nat, virt: nat)
    requires IsTree(s, root)
    ensures var o := UnmapPage(s, root, virt);
      && IsTree(o.space, root)
      && (!o.ok ==> o.space == s && Translate(s, root, virt) == None)
      && forall u :: Translate(o.space, root, u) == if Key(u) == Key(virt) then None else Translate(s, root, u)
  {
    var own :| Good(s, root, own);
    var o := UnmapPage(s, root, virt);
    if o.ok {
      var a := Descend(s.tables, root, Idx(virt, 4)).value;
      var b := Descend(s.tables, a, Idx(virt, 3)).value;
      var f := Descend(s.tables, b, Idx(virt, 2)).value;
      LeafDone(s, root, own, a, b, f, virt, 0);
    } else {
      NoPathWalk(s, root, virt);
      forall u: nat | Key(u) == Key(virt)
        ensures Translate(s, root, u) == None
      {
        SamePageWalk(s.tables, root, u, virt, 4);
      }
    }
  }

  lemma NoPathWalk(s: Space, root: nat, v: nat)
    requires !UnmapPage(s, root, v).ok
    ensures Translate(s, root, v) == None
  {
    var t := s.tables;
    if Descend(t, root, Idx(v, 4)).Some? {
      var a := Descend(t, root, Idx(v, 4)).value;
      assert WalkFrom(t, root, v, 4) == WalkFrom(t, a, v, 3);
      if Descend(t, a, Idx(v, 3)).Some? {
        var b := Descend(t, a, Idx(v, 3)).value;
        assert WalkFrom(t, a, v, 3) == WalkFrom(t, b, v, 2);
      }
    }
  }

  // ---------------------------------------------------------------- refinement over runs

  datatype Op = Map(virt: nat, phys: nat, flags: nat) | Unmap(virt: nat)

  function Apply(s: Space, root: nat, op: Op): Outcome {
    match op
    case Map(virt, phys, flags) => MapPage(s, root, virt, phys, flags)
    case Unmap(virt) => UnmapPage(s, root, virt)
  }

  /** The same request on a plain map, given whether it succeeded. */
  function ApplyView(v: map<nat, nat>, op: Op, ok: bool): map<nat, nat> {
    match op
    case Map(virt, phys, flags) => if ok then v[Key(virt) := Pte(phys, flags)] else v
    case Unmap(virt) => v - {Key(virt)}
  }

  lemma KeyOfPage(k: nat)
    requires k < PAGES
    ensures Key(k * 0x1000) == k
  {
  }

  /** The map at one page is the translation of any address on it. */
  lemma ViewPoint(s: Space, s': Space, root: nat, key: nat, e: Option<nat>, k: nat)
    requires k < PAGES
    requires forall u :: Translate(s', root, u) == if Key(u) == key then e else Translate(s, root, u)
    ensures k in View(s', root) <==> if k == key then e.Some? else k in View(s, root)
    ensures k in View(s', root) ==> Some(View(s', root)[k]) == if k == key then e else Some(View(s, root)[k])
  {
    KeyOfPage(k);
  }

  /** A change of translation on exactly one page is an update of the map at its key. */
  lemma ViewChanged(s: Space, s': Space, root: nat, key: nat, e: Option<nat>)
    requires key < PAGES
    requires forall u :: Translate(s', root, u) == if Key(u) == key then e else Translate(s, root, u)
    ensures View(s', root) == match e case Some(x) => View(s, root)[key := x] case None => View(s, root) - {key}
  {
    forall k: nat | k < PAGES
      ensures k in View(s', root) <==> if k == key then e.Some? else k in View(s, root)
      ensures k in View(s', root) ==> Some(View(s', root)[k]) == if k == key then e else Some(View(s, root)[k])
    {
      ViewPoint(s, s', root, key, e, k);
    }
    MapChanged(View(s, root), View(s', root), key, e);
  }

  lemma MapChanged(v: map<nat, nat>, v': map<nat, nat>, key: nat, e: Option<nat>)
    requires key < PAGES && (forall k :: k in v ==> k < PAGES) && (forall k :: k in v' ==> k < PAGES)
    requires forall k :: 0 <= k < PAGES ==> (k in v' <==> if k == key then e.Some? else k in v)
    requires forall k :: 0 <= k < PAGES && k in v' ==> Some(v'[k]) == if k == key then e else Some(v[k])
    ensures v' == match e case Some(x) => v[key := x] case None => v - {key}
  {
  }

  lemma ViewSame(s: Space, s': Space, root: nat)
    requires forall u :: Translate(s', root, u) == Translate(s, root, u)
    ensures View(s', root) == View(s, root)
  {
  }

  lemma ApplyRefines(s: Space, root: nat, op: Op)
    requires IsTree(s, root)
    ensures var o := Apply(s, root, op);
      IsTree(o.space, root) && View(o.space, root) == ApplyView(View(s, root), op, o.ok)
  {
    var s', ok := Apply(s, root, op).space, Apply(s, root, op).ok;
    match op {
      case Map(virt, phys, flags) =>
        MapPageSpec(s, root, virt, phys, flags);
        var e := Pte(phys, flags);
        if ok {
          ViewChanged(s, s', root, Key(virt), Some(e));
        } else {
          ViewSame(s, s', root);
        }
      case Unmap(virt) =>
        UnmapPageSpec(s, root, virt);
        ViewChanged(s, s', root, Key(virt), None);
    }
  }

  function Run(s: Space, root: nat, ops: seq<Op>): Space
    decreases |ops|
  {
    if ops == [] then s else Run(Apply(s, root, ops[0]).space, root, ops[1..])
  }

  function RunView(s: Space, root: nat, v: map<nat, nat>, ops: seq<Op>): map<nat, nat>
    decreases |ops|
  {
    if ops == [] then v
    else
      var o := Apply(s, root, ops[0]);
      RunView(o.space, root, ApplyView(v, ops[0], o.ok), ops[1..])
  }

  /** Over every run of mappings and unmappings the tables stay a tree with each frame
      referenced once, and mean exactly what the same requests make of a plain map. */
  lemma {:induction false} RunRefines(s: Space, root: nat, ops: seq<Op>)
    requires IsTree(s, root)
    ensures IsTree(Run(s, root, ops), root)
    ensures View(Run(s, root, ops), root) == RunView(s, root, View(s, root), ops)
    decreases |ops|
  {
    if ops != [] {
      ApplyRefines(s, root, ops[0]);
      RunRefines(Apply(s, root, ops[0]).space, root, ops[1..]);
    }
  }

  /** A single zeroed table is a tree that maps nothing. */
  lemma EmptyTree(root: nat, supply: seq<nat>)
    requires root != 0 && Frame(root) == root && root !in supply
    requires FreshSupply(Space(map[], supply))
    ensures IsTree(Space(map[root := ZeroTable()], supply), root)
    ensures View(Space(map[root := ZeroTable()], supply), root) == map[]
  {
    var s, own := Space(map[root := ZeroTable()], supply), map[root := Place(4, 0)];
    assert Tree(s.tables, root, own);
    assert FreshSupply(s);
    assert Good(s, root, own);
    assert forall u: nat :: Translate(s, root, u) == None;
  }
}
