/** Identity mapping: what mapping a range page by page leaves behind, and what holds of
    the kernel's first address space whatever allocations failed while building it. */
module PagingIdentity {
  import opened Bits
  import opened Paging
  import opened PagingTree
  import opened PagingMap

  const FOUR_GB: nat := 0x1_0000_0000
  const ADDRESSES: nat := 0x1_0000_0000_0000   // 2^48
  const LOW_FLAGS: nat := 0x103                // present, writable, global
  const KERNEL_FLAGS: nat := 0x8000_0000_0000_0103

  /** Pages `k` up to `k + n`, each mapped to itself. */
  function IdentityPages(k: nat, n: nat, flags: nat): map<nat, nat> {
    map j | k <= j < k + n :: Pte(j * 4096, flags)
  }

  lemma PageOf(addr: nat)
    requires addr < ADDRESSES
    ensures Key(addr) == addr / 4096 && Frame(addr) == Frame(Key(addr) * 4096) == Key(addr) * 4096
  {
    var q := addr / 4096;
    assert Key(addr) == q;
    assert q * 4096 / 4096 == q;
  }

  /** An identity mapping turned view `v` into `w`: exactly the first `n` pages of the
      range are mapped to themselves, all of them on success, and nothing else has
      changed. */
  ghost predicate PrefixMapped(v: map<nat, nat>, w: map<nat, nat>, ok: bool, addr: nat, end: nat, flags: nat, n: nat) {
    && w == v + IdentityPages(addr / 4096, n, flags)
    && (ok <==> addr + 4096 * n >= end)
    && (n > 0 ==> addr + 4096 * (n - 1) < end)
  }

  /** The state of the loop: the first `n` pages from `start` up to `addr` are mapped. */
  ghost predicate Mapped(v: map<nat, nat>, w: map<nat, nat>, start: nat, addr: nat, end: nat, flags: nat, n: nat) {
    && w == v + IdentityPages(start / 4096, n, flags)
    && addr == start + 4096 * n
    && (n > 0 ==> start + 4096 * (n - 1) < end)
  }

  lemma MappedOneMore(v: map<nat, nat>, w: map<nat, nat>, start: nat, addr: nat, end: nat, flags: nat, n: nat, next: nat, m: nat)
    requires Mapped(v, w, start, addr, end, flags, n) && addr < end <= ADDRESSES && next == addr + 4096 && m == n + 1
    ensures Mapped(v, ApplyView(w, Map(addr, addr, flags), true), start, next, end, flags, m)
  {
    OneMore(v, start, addr, n, flags);
  }

  lemma MappedIsPrefix(v: map<nat, nat>, w: map<nat, nat>, start: nat, addr: nat, end: nat, flags: nat, n: nat, ok: bool)
    requires Mapped(v, w, start, addr, end, flags, n) && ok == (addr >= end)
    ensures PrefixMapped(v, w, ok, start, end, flags, n)
  {
  }

  lemma NoPages(v: map<nat, nat>, k: nat, flags: nat)
    ensures v + IdentityPages(k, 0, flags) == v
  {
  }

  lemma AppendPage(v: map<nat, nat>, k: nat, n: nat, flags: nat)
    ensures (v + IdentityPages(k, n, flags))[k + n := Pte((k + n) * 4096, flags)] == v + IdentityPages(k, n + 1, flags)
  {
  }

  /** Mapping the page of `addr` to itself extends a run of identity pages by one. */
  lemma OneMore(v: map<nat, nat>, start: nat, addr: nat, n: nat, flags: nat)
    requires addr == start + 4096 * n && addr < ADDRESSES
    ensures ApplyView(v + IdentityPages(start / 4096, n, flags), Map(addr, addr, flags), true)
         == v + IdentityPages(start / 4096, n + 1, flags)
  {
    PageOf(addr);
    assert addr / 4096 == start / 4096 + n;
    AppendPage(v, start / 4096, n, flags);
  }

  // ---------------------------------------------------------------- identity entries

  lemma OrPage(q: nat, f: nat)
    ensures BitOr(4096 * q, f) == 4096 * BitOr(q, f / 4096) + f % 4096
  {
    FrameBits();
    OrShift(q, f, 12, 4096, 4096 * q, f / 4096, f % 4096);
  }

  lemma {:induction false} OrHigh(q: nat, k: nat)
    requires q < Pow2(k)
    ensures BitOr(q, Pow2(k)) == q + Pow2(k)
    decreases k
  {
    if k > 0 {
      OrHigh(q / 2, k - 1);
    }
  }

  lemma OrOneOdd(f: nat)
    requires f % 2 == 1
    ensures BitOr(f, 1) == f
  {
    OrZero(f / 2);
  }

  predicate NoExecute(e: nat) {
    e / 0x8000_0000_0000_0000 % 2 == 1
  }

  /** An identity entry is its own page's address plus the flags. It names its own page, and
      carries the no-execute bit exactly when asked to. */
  lemma IdentityEntry(k: nat, flags: nat)
    requires k < PAGES && (flags == LOW_FLAGS || flags == KERNEL_FLAGS)
    ensures Pte(k * 4096, flags) == k * 4096 + flags && Frame(Pte(k * 4096, flags)) == k * 4096
    ensures NoExecute(Pte(k * 4096, flags)) <==> flags == KERNEL_FLAGS
  {
    var high := flags / 4096;
    OrOneOdd(flags);
    PageOf(k * 4096);
    KeyOfPage(k);
    OrPage(k, flags);
    OrAbove(k, high);
    EntryParts(k, high, Pte(k * 4096, flags));
  }

  lemma OrAbove(k: nat, high: nat)
    requires k < PAGES && (high == 0 || high == 0x8_0000_0000_0000)
    ensures BitOr(k, high) == k + high
  {
    if high == 0 {
      OrZero(k);
    } else {
      Pow2Eight(43);
      Pow2Eight(35);
      Pow2Eight(27);
      Pow2Eight(19);
      Pow2Eight(11);
      Pow2Eight(3);
      assert Pow2(3) == 8;
      OrHigh(k, 51);
    }
  }

  lemma EntryParts(k: nat, high: nat, e: nat)
    requires k < PAGES && (high == 0 || high == 0x8_0000_0000_0000) && e == 4096 * (k + high) + 0x103
    ensures Frame(e) == k * 4096 && (NoExecute(e) <==> high != 0)
  {
    assert e / 4096 == k + high;
    assert (k + high) % 0x100_0000_0000 == k;
  }
}
