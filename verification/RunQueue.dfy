/** The per-CPU run queue of the O(1) scheduler: five priority queues summarised by a
    bitmap, and the thread that runs. */
module RunQueue {
  import opened Bits

  const LEVELS: nat := 5

  datatype ThreadState = Unused | Ready | Running | Blocked | Sleeping | Zombie

  type Level = p: nat | p < LEVELS

  const TIME_SLICE: int := 10

  /** A thread's state, its priority and the ticks left of its time slice. */
  datatype Thread = Thread(state: ThreadState, priority: Level, slice: int)

  type Queues = q: seq<seq<nat>> | |q| == 5 witness [[], [], [], [], []]

  /** Threads are named by address; 0 is NULL. `stale` tells that some call has followed a
      pointer into the memory of a thread that is no more. */
  datatype Rq = Rq(
    queues: Queues, bitmap: nat, running: nat, switches: nat,
    current: nat, idle: nat, threads: map<nat, Thread>, stale: bool)

  // ---------------------------------------------------------------- operations

  function IndexOf(s: seq<nat>, t: nat): (i: nat)
    ensures i <= |s| && (i < |s| ==> s[i] == t) && (i == |s| ==> t !in s)
  {
    if s == [] || s[0] == t then 0 else 1 + IndexOf(s[1..], t)
  }

  function Remove(s: seq<nat>, t: nat): seq<nat> {
    var i := IndexOf(s, t);
    if i < |s| then s[..i] + s[i + 1..] else s
  }

  function SetBit(b: nat, p: nat): nat {
    BitOr(b, Pow2(p))
  }

  /** And with the 64-bit complement of the bit. */
  function ClearBit(b: nat, p: nat): nat
    requires p < 64
  {
    Pow2Below(p, 64);
    BitAnd(b, Pow2(64) - 1 - Pow2(p))
  }

  /** Counters are 64-bit words. */
  function Up(n: nat): nat {
    (n + 1) % TWO64
  }

  function Down(n: nat): nat {
    (n + (TWO64 - 1)) % TWO64
  }

  function Insert(rq: Rq, t: nat, p: Level): Rq {
    rq.(queues := rq.queues[p := rq.queues[p] + [t]],
        bitmap := SetBit(rq.bitmap, p),
        running := Up(rq.running))
  }

  function Delete(rq: Rq, t: nat, p: Level): Rq {
    var q := Remove(rq.queues[p], t);
    rq.(queues := rq.queues[p := q],
        bitmap := if q == [] then ClearBit(rq.bitmap, p) else rq.bitmap,
        running := Down(rq.running))
  }

  function SetState(rq: Rq, t: nat, s: ThreadState): Rq
    requires t in rq.threads
  {
    rq.(threads := rq.threads[t := rq.threads[t].(state := s)])
  }

  predicate Has(rq: Rq, t: nat, s: ThreadState) {
    t in rq.threads && rq.threads[t].state == s
  }

  /** NULL, or a thread that has not been destroyed. */
  predicate Known(rq: Rq, t: nat) {
    t == 0 || t in rq.threads
  }

  /** A call whose thread does not exist: NULL is tested for, any other pointer is followed. */
  function Miss(rq: Rq, t: nat): Rq {
    if t == 0 then rq else rq.(stale := true)
  }

  function Enqueue(rq: Rq, t: nat): Rq {
    if t !in rq.threads then Miss(rq, t)
    else if rq.threads[t].state == Ready then Insert(rq, t, rq.threads[t].priority)
    else rq
  }

  function Dequeue(rq: Rq, t: nat): Rq {
    if t in rq.threads then Delete(rq, t, rq.threads[t].priority) else Miss(rq, t)
  }

  /** Leading zeros of `b` in a word of `k` bits. */
  function LeadingZeros(b: nat, k: nat): (z: nat)
    ensures z <= k
    decreases k, b
  {
    if k == 0 || TestBit(b, k - 1) then 0 else 1 + LeadingZeros(b, k - 1)
  }

  /** The bitmap's pick: count leading zeros, exclusive-or with 63. */
  function TopLevel(b: nat): nat {
    BitXor(LeadingZeros(b, 64), 63)
  }

  function NextThread(rq: Rq): nat {
    if rq.bitmap == 0 then rq.idle
    else
      var p := TopLevel(rq.bitmap);
      if p < LEVELS && rq.queues[p] != [] then rq.queues[p][0] else 0
  }

  function Schedule(rq: Rq): Rq {
    var next := NextThread(rq);
    if next == rq.current then rq else rq.(current := next, switches := Up(rq.switches))
  }

  function Block(rq: Rq, t: nat): Rq {
    if t in rq.threads then Schedule(Dequeue(SetState(rq, t, Blocked), t)) else Miss(rq, t)
  }

  function Wakeup(rq: Rq, t: nat): Rq {
    if t !in rq.threads then Miss(rq, t)
    else if rq.threads[t].state == Blocked then Enqueue(SetState(rq, t, Ready), t)
    else rq
  }

  function SetSlice(rq: Rq, t: nat, slice: int): Rq
    requires t in rq.threads
  {
    rq.(threads := rq.threads[t := rq.threads[t].(slice := slice)])
  }

  /** A timer tick takes one from the current thread's time slice; when nothing is left the
      thread is made ready with a new slice, enqueued, and the best thread scheduled. */
  function Tick(rq: Rq): Rq {
    var t := rq.current;
    if t == rq.idle then rq
    else if t !in rq.threads then Miss(rq, t)
    else if rq.threads[t].slice - 1 <= 0 then Schedule(Enqueue(SetSlice(SetState(rq, t, Ready), t, TIME_SLICE), t))
    else SetSlice(rq, t, rq.threads[t].slice - 1)
  }

  /** The allocator returned `t`, or 0. */
  function Create(rq: Rq, t: nat, p: Level): Rq {
    if t == 0 then rq else rq.(threads := rq.threads[t := Thread(Ready, p, TIME_SLICE)])
  }

  /** The thread's memory is given back, so it is no longer a thread. */
  function Destroy(rq: Rq, t: nat): Rq {
    if t in rq.threads then
      var d := Dequeue(rq, t);
      d.(threads := d.threads - {t})
    else Miss(rq, t)
  }

  /** The idle thread has the lowest priority and is current; its allocation may have failed. */
  function Initial(idle: nat): Rq {
    var threads := if idle == 0 then map[] else map[idle := Thread(Ready, 0, TIME_SLICE)];
    Rq([[], [], [], [], []], 0, 0, 0, idle, idle, threads, false)
  }

  // ---------------------------------------------------------------- the invariant

  ghost predicate Distinct(s: seq<nat>) {
    forall i, j :: 0 <= i < j < |s| ==> s[i] != s[j]
  }

  /** Bit `p` is set exactly when queue `p` is not empty. */
  ghost predicate Summarises(bitmap: nat, queues: Queues) {
    forall p: nat :: TestBit(bitmap, p) <==> p < LEVELS && queues[p] != []
  }

  function Total(queues: Queues): nat {
    |queues[0]| + |queues[1]| + |queues[2]| + |queues[3]| + |queues[4]|
  }

  /** Queued threads are ready, stand in the queue of their priority, once. */
  ghost predicate Queued(rq: Rq) {
    forall p :: 0 <= p < LEVELS ==>
      && Distinct(rq.queues[p])
      && forall t :: t in rq.queues[p] ==>
           t != 0 && t != rq.idle && t in rq.threads && rq.threads[t].state == Ready && rq.threads[t].priority == p
  }

  /** The bitmap, the counter and the queues agree, the current and the idle thread exist, and
      no freed memory was used. */
  ghost predicate Inv(rq: Rq) {
    && Summarises(rq.bitmap, rq.queues)
    && rq.running == Total(rq.queues) % TWO64
    && Queued(rq)
    && !Has(rq, rq.idle, Blocked)
    && 0 !in rq.threads
    && Known(rq, rq.current) && Known(rq, rq.idle) && !rq.stale
  }

  ghost predicate OnQueue(rq: Rq, t: nat) {
    exists p :: 0 <= p < LEVELS && t in rq.queues[p]
  }

  // ---------------------------------------------------------------- the bitmap

  lemma SetBitSpec(b: nat, p: nat, q: nat)
    ensures TestBit(SetBit(b, p), q) <==> TestBit(b, q) || q == p
  {
    TestOr(b, Pow2(p), q);
    TestPow2(p, q);
  }

  lemma ClearBitSpec(b: nat, p: nat, q: nat)
    requires p < 64 && (q >= 64 ==> !TestBit(b, q))
    ensures TestBit(ClearBit(b, p), q) <==> TestBit(b, q) && q != p
  {
    Pow2Below(p, 64);
    MaskSpec(b, p, q, 64, Pow2(64) - 1 - Pow2(p));
  }

  lemma MaskSpec(b: nat, p: nat, q: nat, n: nat, mask: nat)
    requires p < n && (q >= n ==> !TestBit(b, q)) && Pow2(p) + mask == Pow2(n) - 1
    ensures TestBit(BitAnd(b, mask), q) <==> TestBit(b, q) && q != p
  {
    TestAnd(b, mask, q);
    if q < n {
      TestComplement(p, n, q);
    }
  }

  lemma {:induction false} LeadingZerosSpec(b: nat, h: nat, k: nat)
    requires h < k && TestBit(b, h) && forall j :: h < j < k ==> !TestBit(b, j)
    ensures LeadingZeros(b, k) == k - 1 - h
    decreases k
  {
    if h < k - 1 {
      LeadingZerosSpec(b, h, k - 1);
    }
  }

  /** The bitmap's pick is the highest set bit. */
  lemma TopLevelSpec(b: nat, h: nat)
    requires h < 64 && TestBit(b, h) && forall j :: h < j < 64 ==> !TestBit(b, j)
    ensures TopLevel(b) == h
  {
    LeadingZerosSpec(b, h, 64);
    XorSixtyThree(63 - h);
  }

  // ---------------------------------------------------------------- a linear scan

  /** The head of the highest non-empty queue below level `n`, or the idle thread. */
  function Scan(rq: Rq, n: nat): nat
    requires n <= LEVELS
  {
    if n == 0 then rq.idle
    else if rq.queues[n - 1] != [] then rq.queues[n - 1][0]
    else Scan(rq, n - 1)
  }

  lemma {:induction false} ScanFinds(rq: Rq, n: nat, h: nat)
    requires h < n <= LEVELS && rq.queues[h] != [] && forall j :: h < j < n ==> rq.queues[j] == []
    ensures Scan(rq, n) == rq.queues[h][0]
    decreases n
  {
    if h < n - 1 {
      ScanFinds(rq, n - 1, h);
    }
  }

  lemma {:induction false} ScanIdle(rq: Rq, n: nat)
    requires n <= LEVELS && forall j :: 0 <= j < n ==> rq.queues[j] == []
    ensures Scan(rq, n) == rq.idle
    decreases n
  {
    if n > 0 {
      ScanIdle(rq, n - 1);
    }
  }

  /** The constant-time pick is what a scan of the queues from the top would pick. */
  lemma PickIsScan(rq: Rq)
    requires Summarises(rq.bitmap, rq.queues)
    ensures NextThread(rq) == Scan(rq, LEVELS)
  {
    if rq.bitmap == 0 {
      forall p: nat | p < LEVELS
        ensures rq.queues[p] == []
      {
        TestZero(p);
      }
      ScanIdle(rq, LEVELS);
    } else {
      var k := SomeBit(rq.bitmap);
      var h := Highest(rq, LEVELS, k);
      assert TestBit(rq.bitmap, h);
      TopLevelSpec(rq.bitmap, h);
      ScanFinds(rq, LEVELS, h);
    }
  }

  lemma {:induction false} Highest(rq: Rq, n: nat, k: nat) returns (h: nat)
    requires k < n <= LEVELS && rq.queues[k] != []
    ensures k <= h < n && rq.queues[h] != [] && forall j :: h < j < n ==> rq.queues[j] == []
    decreases n
  {
    if rq.queues[n - 1] != [] {
      h := n - 1;
    } else {
      h := Highest(rq, n - 1, k);
    }
  }
}
