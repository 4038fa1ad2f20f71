/** Doubly linked lists of slab descriptors in memory: pointers are addresses and 0 is
    NULL. Pushing and unlinking, and what they do to the list a head denotes. */
module SlabLists {

  datatype Slab = Slab(inuse: nat, freelist: nat, objects: nat, next: nat, prev: nat)

  /** The descriptors in memory, by address. */
  type Heap = map<nat, Slab>

  function NextOf(h: Heap, x: nat): nat {
    if x in h then h[x].next else 0
  }

  function PrevOf(h: Heap, x: nat): nat {
    if x in h then h[x].prev else 0
  }

  /** Stores through a pointer; NULL is never stored through, as the callers test for it. */
  function SetNext(h: Heap, x: nat, v: nat): Heap {
    if x in h then h[x := h[x].(next := v)] else h
  }

  function SetPrev(h: Heap, x: nat, v: nat): Heap {
    if x in h then h[x := h[x].(prev := v)] else h
  }

  /** Put `x` in front of the list at `head`. */
  function Link(h: Heap, x: nat, head: nat): Heap {
    SetPrev(SetPrev(SetNext(h, x, head), x, 0), head, x)
  }

  /** Take `x` out from between its neighbours. */
  function Unlink(h: Heap, x: nat): Heap {
    var p, n := PrevOf(h, x), NextOf(h, x);
    SetPrev(SetNext(h, p, n), n, p)
  }

  function HeadAfterUnlink(h: Heap, x: nat, head: nat): nat {
    if PrevOf(h, x) != 0 then head else NextOf(h, x)
  }

  function At(s: seq<nat>, i: int): nat {
    if 0 <= i < |s| then s[i] else 0
  }

  ghost predicate Distinct(s: seq<nat>) {
    forall i, j :: 0 <= i < j < |s| ==> s[i] != s[j]
  }

  /** `head` starts an acyclic doubly linked list of exactly the descriptors `s`. */
  ghost predicate Dll(h: Heap, head: nat, s: seq<nat>) {
    && head == At(s, 0)
    && Distinct(s)
    && (forall i :: 0 <= i < |s| ==>
          s[i] in h && s[i] != 0 && h[s[i]].next == At(s, i + 1) && h[s[i]].prev == At(s, i - 1))
  }

  /** The descriptors of `s` have the same links in both memories. */
  ghost predicate SameLinks(h: Heap, h': Heap, s: seq<nat>) {
    forall i :: 0 <= i < |s| && s[i] in h ==>
      s[i] in h' && h'[s[i]].next == h[s[i]].next && h'[s[i]].prev == h[s[i]].prev
  }

  /** Both memories hold the same descriptors up to links. */
  ghost predicate SameData(h: Heap, h': Heap) {
    && h'.Keys == h.Keys
    && forall x :: x in h ==>
         h'[x].inuse == h[x].inuse && h'[x].freelist == h[x].freelist && h'[x].objects == h[x].objects
  }

  lemma DllFrame(h: Heap, h': Heap, head: nat, s: seq<nat>)
    requires Dll(h, head, s) && SameLinks(h, h', s)
    ensures Dll(h', head, s)
  {
  }

  lemma LinkKeys(h: Heap, x: nat, head: nat)
    ensures Link(h, x, head).Keys == h.Keys && Unlink(h, x).Keys == h.Keys
  {
  }

  /** Pushing an unlisted descriptor puts it at the front; no other list notices. */
  lemma LinkSpec(h: Heap, x: nat, head: nat, s: seq<nat>)
    requires Dll(h, head, s) && x in h && x != 0 && x !in s && 0 !in h
    ensures Dll(Link(h, x, head), x, [x] + s)
    ensures SameData(h, Link(h, x, head))
    ensures forall y :: y in h && y != x && y !in s ==> Link(h, x, head)[y] == h[y]
  {
    var h', s' := Link(h, x, head), [x] + s;
    assert |s| > 0 ==> head in s;
    forall i | 0 <= i < |s'|
      ensures s'[i] in h' && s'[i] != 0 && h'[s'[i]].next == At(s', i + 1) && h'[s'[i]].prev == At(s', i - 1)
    {
      if i > 0 {
        assert s'[i] == s[i - 1];
      }
    }
  }

  function Without(s: seq<nat>, k: nat): seq<nat>
    requires k < |s|
  {
    s[..k] + s[k + 1..]
  }

  lemma UnlinkLinks(h: Heap, head: nat, s: seq<nat>, k: nat, j: nat)
    requires Dll(h, head, s) && k < |s| && j < |s| && j != k && 0 !in h && 0 !in s
    ensures var h' := Unlink(h, s[k]);
      && s[j] in h'
      && h'[s[j]].next == (if j + 1 == k then At(s, k + 1) else At(s, j + 1))
      && h'[s[j]].prev == (if j == k + 1 then At(s, k - 1) else At(s, j - 1))
  {
    Neighbour(s, j, k - 1);
    Neighbour(s, j, k + 1);
    JoinAt(h, At(s, k - 1), At(s, k + 1), s[j]);
  }

  lemma Neighbour(s: seq<nat>, j: nat, i: int)
    requires Distinct(s) && 0 !in s && j < |s| && -1 <= i <= |s|
    ensures s[j] == At(s, i) <==> j == i
  {
  }

  lemma JoinAt(h: Heap, p: nat, n: nat, y: nat)
    requires y in h
    ensures var h' := SetPrev(SetNext(h, p, n), n, p);
      && y in h'
      && h'[y].next == (if y == p then n else h[y].next)
      && h'[y].prev == (if y == n then p else h[y].prev)
  {
  }

  lemma WithoutAt(s: seq<nat>, k: nat, i: int)
    requires k < |s| && -1 <= i <= |s| - 1
    ensures At(Without(s, k), i) == if i < k then At(s, i) else At(s, i + 1)
  {
  }

  lemma WithoutDistinct(s: seq<nat>, k: nat)
    requires k < |s| && Distinct(s)
    ensures Distinct(Without(s, k))
    ensures forall x :: x in Without(s, k) <==> x in s && x != s[k]
  {
    var s' := Without(s, k);
    forall x
      ensures x in s' <==> x in s && x != s[k]
    {
      if x in s && x != s[k] {
        var i :| 0 <= i < |s| && s[i] == x;
        assert s'[if i < k then i else i - 1] == x;
      }
    }
  }

  /** Unlinking any member of a list leaves the list without it. */
  lemma UnlinkSpec(h: Heap, head: nat, s: seq<nat>, k: nat)
    requires Dll(h, head, s) && k < |s| && 0 !in h
    ensures Dll(Unlink(h, s[k]), HeadAfterUnlink(h, s[k], head), Without(s, k))
  {
    var h', s' := Unlink(h, s[k]), Without(s, k);
    WithoutDistinct(s, k);
    WithoutAt(s, k, 0);
    forall i | 0 <= i < |s'|
      ensures s'[i] in h' && s'[i] != 0 && h'[s'[i]].next == At(s', i + 1) && h'[s'[i]].prev == At(s', i - 1)
    {
      UnlinkAt(h, head, s, k, i);
    }
  }

  lemma UnlinkAt(h: Heap, head: nat, s: seq<nat>, k: nat, i: nat)
    requires Dll(h, head, s) && k < |s| && 0 !in h && i < |Without(s, k)|
    ensures var h', s' := Unlink(h, s[k]), Without(s, k);
      s'[i] in h' && s'[i] != 0 && h'[s'[i]].next == At(s', i + 1) && h'[s'[i]].prev == At(s', i - 1)
  {
    var j := if i < k then i else i + 1;
    assert Without(s, k)[i] == s[j];
    UnlinkLinks(h, head, s, k, j);
    WithoutAt(s, k, i + 1);
    WithoutAt(s, k, i - 1);
  }

  lemma SetData(h: Heap, x: nat, v: nat)
    ensures SameData(h, SetNext(h, x, v)) && SameData(h, SetPrev(h, x, v))
  {
  }

  /** Links are all that linking and unlinking change. */
  lemma LinkData(h: Heap, x: nat, head: nat)
    ensures SameData(h, Link(h, x, head)) && SameData(h, Unlink(h, x))
  {
    var h1 := SetNext(h, x, head);
    SetData(h, x, head);
    SetData(h1, x, 0);
    SetData(SetPrev(h1, x, 0), head, x);
    var p, n := PrevOf(h, x), NextOf(h, x);
    SetData(h, p, n);
    SetData(SetNext(h, p, n), n, p);
  }

  lemma UnlinkFrame(h: Heap, head: nat, s: seq<nat>, k: nat)
    requires Dll(h, head, s) && k < |s| && 0 !in h
    ensures SameData(h, Unlink(h, s[k]))
    ensures forall y :: y in h && y !in s ==> Unlink(h, s[k])[y] == h[y]
  {
    var p, n := At(s, k - 1), At(s, k + 1);
    LinkData(h, s[k], 0);
    assert p == 0 || p in s;
    assert n == 0 || n in s;
  }

  /** A head and its links denote at most one list. */
  lemma {:induction false} DllUnique(h: Heap, head: nat, s: seq<nat>, t: seq<nat>, i: nat)
    requires Dll(h, head, s) && Dll(h, head, t) && i < |s|
    ensures i < |t| && t[i] == s[i]
    decreases i
  {
    if i > 0 {
      DllUnique(h, head, s, t, i - 1);
      NextInList(h, head, s, i - 1);
      NextInList(h, head, t, i - 1);
    }
  }

  lemma NextInList(h: Heap, head: nat, s: seq<nat>, i: nat)
    requires Dll(h, head, s) && i < |s|
    ensures NextOf(h, s[i]) == At(s, i + 1) && (At(s, i + 1) == 0 <==> i + 1 == |s|)
  {
  }
}
