/** What one scheduler call keeps: each call preserves the run-queue invariant exactly
    under its guard, and a `schedule` leaves the best thread current. */
module RunQueueSafety {
  import opened Bits
  import opened RunQueue

  // ---------------------------------------------------------------- the queues

  lemma RemoveSpec(s: seq<nat>, t: nat)
    requires Distinct(s) && t in s
    ensures |Remove(s, t)| == |s| - 1
    ensures Distinct(Remove(s, t))
    ensures forall u :: u in Remove(s, t) <==> u in s && u != t
  {
    var i, r := IndexOf(s, t), Remove(s, t);
    assert forall j :: 0 <= j < |r| ==> r[j] == s[if j < i then j else j + 1];
    forall u | u in s && u != t
      ensures u in r
    {
      var j :| 0 <= j < |s| && s[j] == u;
      assert r[if j < i then j else j - 1] == u;
    }
  }

  /** Removal closes the gap and leaves the order of the others. */
  lemma {:induction false} RemoveMiddle(a: seq<nat>, t: nat, b: seq<nat>)
    requires t !in a
    ensures Remove(a + [t] + b, t) == a + b
  {
    IndexBehind(a, t, b);
  }

  lemma {:induction false} IndexBehind(a: seq<nat>, t: nat, b: seq<nat>)
    requires t !in a
    ensures IndexOf(a + [t] + b, t) == |a|
    decreases |a|
  {
    if a != [] {
      assert (a + [t] + b)[1..] == a[1..] + [t] + b;
      IndexBehind(a[1..], t, b);
    }
  }

  lemma TotalReplace(queues: Queues, p: Level, q: seq<nat>)
    ensures Total(queues[p := q]) == Total(queues) - |queues[p]| + |q|
  {
  }

  lemma UpMod(n: nat)
    ensures Up(n % TWO64) == (n + 1) % TWO64
  {
  }

  lemma DownMod(n: nat)
    requires n > 0
    ensures Down(n % TWO64) == (n - 1) % TWO64
  {
  }

  lemma DownMoves(n: nat)
    ensures Down(n % TWO64) != n % TWO64
  {
  }

  lemma InsertSummarises(bitmap: nat, queues: Queues, p: Level, q: seq<nat>)
    requires Summarises(bitmap, queues) && q != []
    ensures Summarises(SetBit(bitmap, p), queues[p := q])
  {
    forall k: nat
      ensures TestBit(SetBit(bitmap, p), k) <==> k < LEVELS && queues[p := q][k] != []
    {
      SetBitSpec(bitmap, p, k);
    }
  }

  lemma DeleteSummarises(bitmap: nat, queues: Queues, p: Level)
    requires Summarises(bitmap, queues)
    ensures Summarises(ClearBit(bitmap, p), queues[p := []])
  {
    forall k: nat
      ensures TestBit(ClearBit(bitmap, p), k) <==> k < LEVELS && queues[p := []][k] != []
    {
      ClearBitSpec(bitmap, p, k);
    }
  }

  /** A thread stands on the queue of its own priority or on none. */
  lemma OnOwnQueue(rq: Rq, t: nat)
    requires Queued(rq)
    ensures OnQueue(rq, t) <==> t in rq.threads && t in rq.queues[rq.threads[t].priority]
  {
  }

  // ---------------------------------------------------------------- each call

  predicate EnqueueGuard(rq: Rq, t: nat) {
    && Known(rq, t)
    && (Has(rq, t, Ready) ==> t != rq.idle && t !in rq.queues[rq.threads[t].priority])
  }

  predicate DequeueGuard(rq: Rq, t: nat) {
    t == 0 || (t in rq.threads && t in rq.queues[rq.threads[t].priority])
  }

  /** `sched_enqueue` keeps the invariant exactly when the pointer is NULL or a thread, and a
      ready thread is not queued yet. The idle thread is excluded only because the invariant
      bars it from the queues: the bitmap, the counter and the queues would still agree. */
  lemma EnqueueKeepsIff(rq: Rq, t: nat)
    requires Inv(rq)
    ensures Inv(Enqueue(rq, t)) <==> EnqueueGuard(rq, t)
  {
    if Has(rq, t, Ready) {
      var p := rq.threads[t].priority;
      var q := rq.queues[p];
      var e := Enqueue(rq, t);
      InsertSummarises(rq.bitmap, rq.queues, p, q + [t]);
      TotalReplace(rq.queues, p, q + [t]);
      UpMod(Total(rq.queues));
      assert e.queues[p][|q|] == t;
      if !EnqueueGuard(rq, t) && t != rq.idle {
        var i :| 0 <= i < |q| && q[i] == t;
        assert e.queues[p][i] == t;
      }
    }
  }

  lemma DeleteKeeps(rq: Rq, t: nat)
    requires Inv(rq) && OnQueue(rq, t)
    ensures t in rq.threads && Inv(Dequeue(rq, t)) && !OnQueue(Dequeue(rq, t), t)
  {
    OnOwnQueue(rq, t);
    var p := rq.threads[t].priority;
    var q := rq.queues[p];
    RemoveSpec(q, t);
    TotalReplace(rq.queues, p, Remove(q, t));
    DownMod(Total(rq.queues));
    if Remove(q, t) == [] {
      DeleteSummarises(rq.bitmap, rq.queues, p);
    }
  }

  lemma DeleteMissing(rq: Rq, t: nat, p: Level)
    requires rq.running == Total(rq.queues) % TWO64 && t !in rq.queues[p]
    ensures var d := Delete(rq, t, p); d.queues == rq.queues && d.running != Total(d.queues) % TWO64
  {
    assert rq.queues[p := rq.queues[p]] == rq.queues;
    DownMoves(Total(rq.queues));
  }

  /** `sched_dequeue` keeps the invariant exactly when the thread is queued. */
  lemma DequeueKeepsIff(rq: Rq, t: nat)
    requires Inv(rq)
    ensures Inv(Dequeue(rq, t)) <==> DequeueGuard(rq, t)
  {
    if t in rq.threads {
      OnOwnQueue(rq, t);
      if DequeueGuard(rq, t) {
        DeleteKeeps(rq, t);
      } else {
        DeleteMissing(rq, t, rq.threads[t].priority);
      }
    }
  }

  /** `sched_dequeue` takes the thread out of its queue, the threads before and behind it keep
      their places in line, and no other queue changes. */
  lemma DequeueKeepsLine(rq: Rq, t: nat, p: Level, a: seq<nat>, b: seq<nat>)
    requires t in rq.threads && rq.threads[t].priority == p && rq.queues[p] == a + [t] + b && t !in a
    ensures Dequeue(rq, t).queues == rq.queues[p := a + b]
  {
    RemoveMiddle(a, t, b);
  }

  /** The best thread to run: the head of the highest queue that is not empty, else idle. */
  ghost predicate Best(rq: Rq, t: nat) {
    if Total(rq.queues) == 0 then t == rq.idle
    else
      && t in rq.threads
      && rq.queues[rq.threads[t].priority] != []
      && t == rq.queues[rq.threads[t].priority][0]
      && forall p :: rq.threads[t].priority < p < LEVELS ==> rq.queues[p] == []
  }

  lemma PickIsBest(rq: Rq, next: nat)
    requires Inv(rq) && next == NextThread(rq)
    ensures Best(rq, next) && Known(rq, next) && !Has(rq, next, Blocked)
  {
    PickIsScan(rq);
    if Total(rq.queues) == 0 {
      ScanIdle(rq, LEVELS);
    } else {
      var k: nat :| k < LEVELS && rq.queues[k] != [];
      var h := Highest(rq, LEVELS, k);
      ScanFinds(rq, LEVELS, h);
      assert rq.queues[h][0] in rq.queues[h];
    }
  }

  lemma BestIsHighest(rq: Rq, t: nat, u: nat)
    requires Queued(rq) && Best(rq, t) && OnQueue(rq, u)
    ensures OnQueue(rq, t) && t in rq.threads && u in rq.threads && rq.threads[u].priority <= rq.threads[t].priority
  {
    OnOwnQueue(rq, u);
    assert t in rq.queues[rq.threads[t].priority];
  }

  /** After `schedule` the best thread is current: no queued thread has a higher priority, and
      it is not blocked. The switch count moves exactly when the current thread does. */
  lemma ScheduleSpec(rq: Rq)
    requires Inv(rq)
    ensures var s := Schedule(rq);
      && Inv(s) && Best(s, s.current) && !Has(s, s.current, Blocked)
      && (forall u :: OnQueue(s, u) ==> OnQueue(s, s.current) && rq.threads[u].priority <= rq.threads[s.current].priority)
      && s.switches == (if s.current == rq.current then rq.switches else Up(rq.switches))
      && s == rq.(current := s.current, switches := s.switches)
  {
    var s := Schedule(rq);
    PickIsBest(rq, s.current);
    forall u | OnQueue(s, u)
      ensures OnQueue(s, s.current) && rq.threads[u].priority <= rq.threads[s.current].priority
    {
      BestIsHighest(s, s.current, u);
    }
  }

  /** `sched_block` keeps the invariant exactly when the thread is queued; the thread then is
      blocked, on no queue, and not current. */
  lemma BlockKeepsIff(rq: Rq, t: nat)
    requires Inv(rq)
    ensures Inv(Block(rq, t)) <==> DequeueGuard(rq, t)
    ensures t in rq.threads && DequeueGuard(rq, t) ==>
      var b := Block(rq, t); Has(b, t, Blocked) && !OnQueue(b, t) && b.current != t && Best(b, b.current)
  {
    if t in rq.threads {
      BlockIsDequeueFirst(rq, t);
      OnOwnQueue(rq, t);
      if DequeueGuard(rq, t) {
        DeleteKeeps(rq, t);
        var d := Dequeue(rq, t);
        BlockUnqueued(d, t);
        ScheduleSpec(SetState(d, t, Blocked));
      } else {
        DeleteMissing(rq, t, rq.threads[t].priority);
      }
    }
  }

  /** When the first in line of the highest queue blocks, the second in line runs. */
  lemma BlockRunsNext(rq: Rq, t: nat, p: Level, rest: seq<nat>)
    requires Inv(rq) && rq.queues[p] == [t] + rest && rest != [] && forall q :: p < q < LEVELS ==> rq.queues[q] == []
    ensures var b := Block(rq, t); b.current == rest[0] && b.queues == rq.queues[p := rest]
  {
    assert t in rq.queues[p];
    var r := SetState(rq, t, Blocked);
    var d := Dequeue(r, t);
    assert rq.queues[p] == [] + [t] + rest && [] + rest == rest;
    DequeueKeepsLine(r, t, p, [], rest);
    BlockIsDequeueFirst(rq, t);
    BlockKeepsIff(rq, t);
    DeleteKeeps(rq, t);
    PickIsScan(d);
    ScanFinds(d, LEVELS, p);
  }

  /** The state of the blocked thread is written before the unlinking; the order is not seen. */
  lemma BlockIsDequeueFirst(rq: Rq, t: nat)
    requires t in rq.threads
    ensures Dequeue(SetState(rq, t, Blocked), t) == SetState(Dequeue(rq, t), t, Blocked)
  {
  }

  lemma BlockUnqueued(rq: Rq, t: nat)
    requires Inv(rq) && t in rq.threads && t != rq.idle && !OnQueue(rq, t)
    ensures Inv(SetState(rq, t, Blocked))
  {
  }

  /** `sched_wakeup` keeps the invariant for every thread that exists: a blocked thread is on
      no queue before, and last on the queue of its priority after. */
  lemma WakeupKeepsIff(rq: Rq, t: nat)
    requires Inv(rq)
    ensures Inv(Wakeup(rq, t)) <==> Known(rq, t)
    ensures Has(rq, t, Blocked) ==>
      var p := rq.threads[t].priority;
      !OnQueue(rq, t) && Wakeup(rq, t).queues == rq.queues[p := rq.queues[p] + [t]] && Once(Wakeup(rq, t), t)
  {
    if Has(rq, t, Blocked) {
      OnOwnQueue(rq, t);
      var r := SetState(rq, t, Ready);
      assert Inv(r);
      EnqueueKeepsIff(r, t);
      var w, p := Wakeup(rq, t), rq.threads[t].priority;
      assert w.queues[p][|rq.queues[p]|] == t;
      QueuedOnce(w, t);
    }
  }

  predicate TickGuard(rq: Rq) {
    var t := rq.current;
    t in rq.threads && t != rq.idle && rq.threads[t].slice <= 1 ==> t !in rq.queues[rq.threads[t].priority]
  }

  /** `sched_tick` keeps the invariant exactly when no slice ends under a thread still queued. */
  lemma TickKeepsIff(rq: Rq)
    requires Inv(rq)
    ensures Inv(Tick(rq)) <==> TickGuard(rq)
  {
    var t := rq.current;
    if t in rq.threads && t != rq.idle {
      OnOwnQueue(rq, t);
      if rq.threads[t].slice <= 1 {
        var r := SetSlice(SetState(rq, t, Ready), t, TIME_SLICE);
        RenewKeeps(rq, t);
        EnqueueKeepsIff(r, t);
        var e := Enqueue(r, t);
        if Inv(e) {
          ScheduleSpec(e);
        }
      } else {
        SliceKeeps(rq, t, rq.threads[t].slice - 1);
      }
    }
  }

  /** What a tick does: it takes one from the slice, or, at the end of the slice, makes the
      thread ready with ten more ticks and puts it last in line. */
  lemma TickSpec(rq: Rq)
    requires Inv(rq) && TickGuard(rq) && rq.current in rq.threads && rq.current != rq.idle
    ensures var t, k := rq.current, Tick(rq);
      var p := rq.threads[t].priority;
      if rq.threads[t].slice > 1
      then k == rq.(threads := rq.threads[t := rq.threads[t].(slice := rq.threads[t].slice - 1)])
      else
        && k.queues == rq.queues[p := rq.queues[p] + [t]]
        && k.threads == rq.threads[t := Thread(Ready, p, 10)]
        && Best(k, k.current)
  {
    TickKeepsIff(rq);
    var t := rq.current;
    if rq.threads[t].slice <= 1 {
      var e := Enqueue(SetSlice(SetState(rq, t, Ready), t, TIME_SLICE), t);
      RenewKeeps(rq, t);
      EnqueueKeepsIff(SetSlice(SetState(rq, t, Ready), t, TIME_SLICE), t);
      ScheduleSpec(e);
    }
  }

  lemma SliceKeeps(rq: Rq, t: nat, slice: int)
    requires Inv(rq) && t in rq.threads
    ensures Inv(SetSlice(rq, t, slice))
  {
  }

  lemma RenewKeeps(rq: Rq, t: nat)
    requires Inv(rq) && t in rq.threads
    ensures Inv(SetSlice(SetState(rq, t, Ready), t, TIME_SLICE))
  {
  }

  function Ticks(rq: Rq, n: nat): Rq
    decreases n, rq
  {
    if n == 0 then rq else Ticks(Tick(rq), n - 1)
  }

  /** A queued thread that is current stays current and queued until its slice has run out, and
      then breaks the invariant: the thread is queued a second time. */
  lemma {:induction false} SliceRunsOut(rq: Rq, n: nat)
    requires Inv(rq) && rq.current in rq.threads && rq.current in rq.queues[rq.threads[rq.current].priority]
    ensures var slice := rq.threads[rq.current].slice;
      && (n < slice || n == 0 ==> Inv(Ticks(rq, n)) && Ticks(rq, n).current == rq.current)
      && (n > 0 && (n == slice || (n == 1 && slice <= 1)) ==> !Inv(Ticks(rq, n)))
    decreases n
  {
    if n > 0 {
      TickKeepsIff(rq);
      if rq.threads[rq.current].slice > 1 {
        SliceRunsOut(Tick(rq), n - 1);
      } else {
        assert Ticks(rq, 1) == Ticks(Tick(rq), 0);
      }
    }
  }

  /** `schedule` leaves the thread it picks on its queue. So whenever a thread was queued, the
      picked thread's own slice, run out tick by tick, breaks the invariant. */
  lemma SliceEndRequeues(rq: Rq)
    requires Inv(rq) && Total(rq.queues) > 0
    ensures var s := Schedule(rq);
      s.current in s.threads && !Inv(Ticks(s, if s.threads[s.current].slice > 1 then s.threads[s.current].slice else 1))
  {
    ScheduleSpec(rq);
    var s := Schedule(rq);
    assert s.current in s.queues[s.threads[s.current].priority];
    SliceRunsOut(s, if s.threads[s.current].slice > 1 then s.threads[s.current].slice else 1);
  }

  /** The thread stands at one place of one queue. */
  ghost predicate Once(rq: Rq, t: nat) {
    exists p, i :: At(rq, p, i, t) && forall p', i' :: At(rq, p', i', t) ==> p' == p && i' == i
  }

  predicate At(rq: Rq, p: int, i: int, t: nat) {
    0 <= p < LEVELS && 0 <= i < |rq.queues[p]| && rq.queues[p][i] == t
  }

  lemma QueuedOnce(rq: Rq, t: nat)
    requires Queued(rq) && OnQueue(rq, t)
    ensures Once(rq, t)
  {
    var p :| 0 <= p < LEVELS && t in rq.queues[p];
    var i :| 0 <= i < |rq.queues[p]| && rq.queues[p][i] == t;
    assert At(rq, p, i, t);
    forall p', i' | At(rq, p', i', t)
      ensures p' == p && i' == i
    {
      assert t in rq.queues[p'];
    }
  }

  /** A new thread disturbs nothing. Enqueueing it puts it last in line at the priority it was
      created with, and it has ten ticks to run. */
  lemma CreateKeeps(rq: Rq, t: nat, p: Level)
    requires Inv(rq) && t !in rq.threads
    ensures var c := Create(rq, t, p);
      && Inv(c) && c.queues == rq.queues && c.current == rq.current
      && (t == 0 ==> c == rq)
      && (t != 0 ==> !OnQueue(c, t) && Enqueue(c, t).queues == rq.queues[p := rq.queues[p] + [t]]
                     && Enqueue(c, t).threads[t].slice == 10)
  {
    OnOwnQueue(rq, t);
  }

  predicate DestroyGuard(rq: Rq, t: nat) {
    DequeueGuard(rq, t) && (t in rq.threads ==> t != rq.current)
  }

  /** `sched_destroy_thread` keeps the invariant exactly when the thread is queued and is not
      the one that runs. */
  lemma DestroyKeepsIff(rq: Rq, t: nat)
    requires Inv(rq)
    ensures Inv(Destroy(rq, t)) <==> DestroyGuard(rq, t)
    ensures t in rq.threads && DestroyGuard(rq, t) ==> !OnQueue(Destroy(rq, t), t) && t !in Destroy(rq, t).threads
  {
    if t in rq.threads {
      OnOwnQueue(rq, t);
      if DequeueGuard(rq, t) {
        DeleteKeeps(rq, t);
      } else {
        DeleteMissing(rq, t, rq.threads[t].priority);
      }
    }
  }

  /** `schedule` leaves the picked thread queued, so the running thread passes the test on the
      queues. Destroying it leaves `current` pointing at freed memory, which the next tick
      follows. */
  lemma DestroyRunning(rq: Rq)
    requires Inv(rq) && Total(rq.queues) > 0
    ensures var s := Schedule(rq); var d := Destroy(s, s.current);
      && Inv(s) && DequeueGuard(s, s.current)
      && !Known(d, d.current) && !Inv(d) && Tick(d).stale
  {
    ScheduleSpec(rq);
    var s := Schedule(rq);
    assert s.current in s.queues[s.threads[s.current].priority];
  }

  /** The idle thread runs at first, has the lowest priority, and is on no queue. */
  lemma InitialInv(idle: nat)
    ensures Inv(Initial(idle)) && Initial(idle).current == Scan(Initial(idle), LEVELS) == idle
    ensures idle != 0 ==> Has(Initial(idle), idle, Ready) && Initial(idle).threads[idle].priority == 0
  {
    forall p: nat
      ensures !TestBit(0, p)
    {
      TestZero(p);
    }
    ScanIdle(Initial(idle), LEVELS);
  }
}
