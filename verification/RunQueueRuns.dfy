/** Whole runs of scheduler calls: when the run queue stays consistent, what the switch
    counter counts, and when the running thread keeps the processor. */
module RunQueueRuns {
  import opened Bits
  import opened RunQueue
  import opened RunQueueSafety

  datatype Op =
    | Enq(t: nat) | Deq(t: nat) | Blk(t: nat) | Wake(t: nat) | Sched
    | Timer | New(t: nat, priority: Level) | Kill(t: nat)

  function Step(rq: Rq, op: Op): Rq {
    match op
    case Enq(t) => Enqueue(rq, t)
    case Deq(t) => Dequeue(rq, t)
    case Blk(t) => Block(rq, t)
    case Wake(t) => Wakeup(rq, t)
    case Sched => Schedule(rq)
    case Timer => Tick(rq)
    case New(t, p) => Create(rq, t, p)
    case Kill(t) => Destroy(rq, t)
  }

  /** A new thread's memory is not that of a living thread. */
  predicate FreshMemory(rq: Rq, op: Op) {
    op.New? ==> op.t !in rq.threads
  }

  /** Calls name NULL or threads that exist. Only an unqueued thread is enqueued; only a queued
      one is dequeued, blocked or, unless it is running, destroyed; no time slice ends under a
      queued thread. */
  predicate Guard(rq: Rq, op: Op) {
    match op
    case Enq(t) => EnqueueGuard(rq, t)
    case Deq(t) => DequeueGuard(rq, t)
    case Blk(t) => DequeueGuard(rq, t)
    case Wake(t) => Known(rq, t)
    case Kill(t) => DestroyGuard(rq, t)
    case Timer => TickGuard(rq)
    case _ => true
  }

  /** One call from a consistent state leads to a consistent state exactly under its guard. */
  lemma StepKeepsIff(rq: Rq, op: Op)
    requires Inv(rq) && FreshMemory(rq, op)
    ensures Inv(Step(rq, op)) <==> Guard(rq, op)
  {
    match op
    case Enq(t) => EnqueueKeepsIff(rq, t);
    case Deq(t) => DequeueKeepsIff(rq, t);
    case Blk(t) => BlockKeepsIff(rq, t);
    case Wake(t) => WakeupKeepsIff(rq, t);
    case Sched => ScheduleSpec(rq);
    case Timer => TickKeepsIff(rq);
    case New(t, p) => CreateKeeps(rq, t, p);
    case Kill(t) => DestroyKeepsIff(rq, t);
  }

  // ---------------------------------------------------------------- runs

  function Run(rq: Rq, ops: seq<Op>): Rq
    decreases |ops|
  {
    if ops == [] then rq else Run(Step(rq, ops[0]), ops[1..])
  }

  ghost predicate AllFresh(rq: Rq, ops: seq<Op>)
    decreases |ops|
  {
    ops == [] || (FreshMemory(rq, ops[0]) && AllFresh(Step(rq, ops[0]), ops[1..]))
  }

  ghost predicate Disciplined(rq: Rq, ops: seq<Op>)
    decreases |ops|
  {
    ops == [] || (Guard(rq, ops[0]) && Disciplined(Step(rq, ops[0]), ops[1..]))
  }

  ghost predicate Always(rq: Rq, ops: seq<Op>)
    decreases |ops|
  {
    Inv(rq) && (ops == [] || Always(Step(rq, ops[0]), ops[1..]))
  }

  /** From a consistent state, every state of a run is consistent if and only if every call of
      the run meets its guard. */
  lemma {:induction false} RunKeepsIff(rq: Rq, ops: seq<Op>)
    requires Inv(rq) && AllFresh(rq, ops)
    ensures Always(rq, ops) <==> Disciplined(rq, ops)
    decreases |ops|
  {
    if ops != [] {
      StepKeepsIff(rq, ops[0]);
      if Inv(Step(rq, ops[0])) {
        RunKeepsIff(Step(rq, ops[0]), ops[1..]);
      }
    }
  }

  lemma {:induction false} AlwaysLast(rq: Rq, ops: seq<Op>)
    requires Always(rq, ops)
    ensures Inv(Run(rq, ops))
    decreases |ops|
  {
    if ops != [] {
      AlwaysLast(Step(rq, ops[0]), ops[1..]);
    }
  }

  /** Every disciplined run of the booted scheduler ends with the bitmap, the counter and the
      queues in agreement, with every blocked thread on no queue, with a current thread that
      exists, and has never followed a pointer into freed memory. */
  lemma BootedRun(idle: nat, ops: seq<Op>, t: nat)
    requires AllFresh(Initial(idle), ops) && Disciplined(Initial(idle), ops)
    ensures var rq := Run(Initial(idle), ops);
      && Summarises(rq.bitmap, rq.queues)
      && rq.running == Total(rq.queues) % TWO64
      && (Has(rq, t, Blocked) ==> !OnQueue(rq, t))
      && (OnQueue(rq, t) ==> Has(rq, t, Ready) && Once(rq, t))
      && Known(rq, rq.current) && !rq.stale
  {
    InitialInv(idle);
    RunKeepsIff(Initial(idle), ops);
    AlwaysLast(Initial(idle), ops);
    var rq := Run(Initial(idle), ops);
    if OnQueue(rq, t) {
      QueuedOnce(rq, t);
    }
  }

  lemma RunThree(rq: Rq, a: Op, b: Op, c: Op)
    ensures Run(rq, [a, b, c]) == Step(Step(Step(rq, a), b), c)
  {
    var x := Step(rq, a);
    var y := Step(x, b);
    assert [a, b, c][1..] == [b, c] && [b, c][1..] == [c] && [c][1..] == [];
    assert Run(y, [c]) == Step(y, c);
    assert Run(x, [b, c]) == Run(y, [c]);
  }

  lemma StaleStays(rq: Rq, op: Op)
    requires rq.stale
    ensures Step(rq, op).stale
  {
  }

  lemma KillTickKill(s: Rq, t: nat)
    requires !Guard(s, Kill(t)) && Tick(Destroy(s, t)).stale
    ensures var ops := [Kill(t), Timer, Kill(t)]; !Disciplined(s, ops) && Run(s, ops).stale
  {
    var kill, d := Kill(t), Destroy(s, t);
    RunThree(s, kill, Timer, kill);
    StaleStays(Step(d, Timer), kill);
  }

  /** Destroying the running thread, a tick, and destroying it again: the first call already
      breaks its guard, and the run ends having used freed memory. */
  lemma DestroyRunningRun(rq: Rq)
    requires Inv(rq) && Total(rq.queues) > 0
    ensures var s := Schedule(rq); var ops := [Kill(s.current), Timer, Kill(s.current)];
      !Disciplined(s, ops) && Run(s, ops).stale
  {
    DestroyRunning(rq);
    var s := Schedule(rq);
    DestroyKeepsIff(s, s.current);
    KillTickKill(s, s.current);
  }

  // ---------------------------------------------------------------- the switch counter

  /** How many steps of the run change the current thread. */
  function Changes(rq: Rq, ops: seq<Op>): nat
    decreases |ops|
  {
    if ops == [] then 0
    else
      var next := Step(rq, ops[0]);
      (if next.current == rq.current then 0 else 1) + Changes(next, ops[1..])
  }

  lemma StepSwitches(rq: Rq, op: Op)
    ensures var s := Step(rq, op); s.switches == if s.current == rq.current then rq.switches else Up(rq.switches)
  {
  }

  lemma FirstStep(rq: Rq, ops: seq<Op>, rest: seq<Op>) returns (next: Rq, moved: nat)
    requires ops != [] && rest == ops[1..]
    ensures moved <= 1 && next.switches == (if moved == 0 then rq.switches else Up(rq.switches))
    ensures Run(rq, ops) == Run(next, rest) && Changes(rq, ops) == moved + Changes(next, rest)
  {
    next := Step(rq, ops[0]);
    moved := if next.current == rq.current then 0 else 1;
    StepSwitches(rq, ops[0]);
  }

  lemma {:induction false} Count(rq: Rq, ops: seq<Op>) returns (c: nat, r: nat)
    requires rq.switches < TWO64
    ensures c == Changes(rq, ops) && r == Run(rq, ops).switches
    ensures CountsTo(rq.switches, c, r)
    decreases |ops|
  {
    if ops == [] {
      c, r := 0, rq.switches;
    } else {
      var rest := ops[1..];
      var next, moved := FirstStep(rq, ops, rest);
      var d;
      d, r := Count(next, rest);
      c := moved + d;
      UpAdd(rq.switches, next.switches, d, moved, c, r);
    }
  }

  predicate CountsTo(s: nat, c: nat, r: nat) {
    r == (s + c) % TWO64
  }

  lemma UpAdd(s: nat, s': nat, d: nat, moved: nat, c: nat, r: nat)
    requires s < TWO64 && moved <= 1 && s' == (if moved == 0 then s else Up(s)) && c == moved + d && CountsTo(s', d, r)
    ensures CountsTo(s, c, r)
  {
  }

  /** The switch counter counts the changes of the current thread, in any run at all. */
  lemma SwitchesCountChanges(rq: Rq, ops: seq<Op>)
    requires rq.switches < TWO64
    ensures Run(rq, ops).switches == (rq.switches + Changes(rq, ops)) % TWO64
  {
    var c, r := Count(rq, ops);
  }

  // ---------------------------------------------------------------- places in line

  ghost predicate Ahead(s: seq<nat>, u: nat, v: nat) {
    exists i, j :: 0 <= i < j < |s| && s[i] == u && s[j] == v
  }

  /** `u` stands before `v` on one queue. */
  ghost predicate Before(rq: Rq, u: nat, v: nat) {
    exists p :: 0 <= p < LEVELS && Ahead(rq.queues[p], u, v)
  }

  predicate Removes(op: Op, u: nat) {
    op == Deq(u) || op == Blk(u) || op == Kill(u)
  }

  lemma AheadAppend(s: seq<nat>, u: nat, v: nat, t: nat)
    requires Ahead(s, u, v)
    ensures Ahead(s + [t], u, v)
  {
    var i, j :| 0 <= i < j < |s| && s[i] == u && s[j] == v;
    assert (s + [t])[i] == u && (s + [t])[j] == v;
  }

  lemma AheadRemove(s: seq<nat>, u: nat, v: nat, t: nat)
    requires Ahead(s, u, v) && t != u && t != v
    ensures Ahead(Remove(s, t), u, v)
  {
    var i, j :| 0 <= i < j < |s| && s[i] == u && s[j] == v;
    var k, r := IndexOf(s, t), Remove(s, t);
    if k < |s| {
      assert r[if i < k then i else i - 1] == u && r[if j < k then j else j - 1] == v;
    }
  }

  lemma EnqueueKeepsOrder(rq: Rq, t: nat, u: nat, v: nat)
    requires Before(rq, u, v)
    ensures Before(Enqueue(rq, t), u, v)
  {
    var p :| 0 <= p < LEVELS && Ahead(rq.queues[p], u, v);
    AheadAppend(rq.queues[p], u, v, t);
    assert Ahead(Enqueue(rq, t).queues[p], u, v);
  }

  lemma DequeueKeepsOrder(rq: Rq, t: nat, u: nat, v: nat)
    requires Before(rq, u, v) && t != u && t != v
    ensures Before(Dequeue(rq, t), u, v)
  {
    var p :| 0 <= p < LEVELS && Ahead(rq.queues[p], u, v);
    AheadRemove(rq.queues[p], u, v, t);
    assert Ahead(Dequeue(rq, t).queues[p], u, v);
  }

  lemma SameQueuesOrder(rq: Rq, s: Rq, u: nat, v: nat)
    requires Before(rq, u, v) && s.queues == rq.queues
    ensures Before(s, u, v)
  {
    var p :| 0 <= p < LEVELS && Ahead(rq.queues[p], u, v);
    assert Ahead(s.queues[p], u, v);
  }

  lemma BlockKeepsOrder(rq: Rq, t: nat, u: nat, v: nat)
    requires Before(rq, u, v) && t != u && t != v
    ensures Before(Block(rq, t), u, v)
  {
    if t in rq.threads {
      var r := SetState(rq, t, Blocked);
      SameQueuesOrder(rq, r, u, v);
      DequeueKeepsOrder(r, t, u, v);
      SameQueuesOrder(Dequeue(r, t), Block(rq, t), u, v);
    } else {
      SameQueuesOrder(rq, Block(rq, t), u, v);
    }
  }

  lemma WakeupKeepsOrder(rq: Rq, t: nat, u: nat, v: nat)
    requires Before(rq, u, v)
    ensures Before(Wakeup(rq, t), u, v)
  {
    if Has(rq, t, Blocked) {
      var r := SetState(rq, t, Ready);
      SameQueuesOrder(rq, r, u, v);
      EnqueueKeepsOrder(r, t, u, v);
    } else {
      SameQueuesOrder(rq, Wakeup(rq, t), u, v);
    }
  }

  lemma TickKeepsOrder(rq: Rq, u: nat, v: nat)
    requires Before(rq, u, v)
    ensures Before(Tick(rq), u, v)
  {
    var t := rq.current;
    if t != rq.idle && t in rq.threads && rq.threads[t].slice - 1 <= 0 {
      var r := SetSlice(SetState(rq, t, Ready), t, TIME_SLICE);
      SameQueuesOrder(rq, r, u, v);
      EnqueueKeepsOrder(r, t, u, v);
      SameQueuesOrder(Enqueue(r, t), Tick(rq), u, v);
    } else {
      SameQueuesOrder(rq, Tick(rq), u, v);
    }
  }

  lemma StepKeepsOrder(rq: Rq, op: Op, u: nat, v: nat)
    requires Before(rq, u, v) && !Removes(op, u) && !Removes(op, v)
    ensures Before(Step(rq, op), u, v)
  {
    match op
    case Enq(t) => EnqueueKeepsOrder(rq, t, u, v);
    case Deq(t) => DequeueKeepsOrder(rq, t, u, v);
    case Blk(t) => BlockKeepsOrder(rq, t, u, v);
    case Wake(t) => WakeupKeepsOrder(rq, t, u, v);
    case Sched => SameQueuesOrder(rq, Schedule(rq), u, v);
    case Timer => TickKeepsOrder(rq, u, v);
    case New(t, p) => SameQueuesOrder(rq, Create(rq, t, p), u, v);
    case Kill(t) =>
      DequeueKeepsOrder(rq, t, u, v);
      SameQueuesOrder(Dequeue(rq, t), Destroy(rq, t), u, v);
  }

  /** First come, first served: over any run at all, two threads that wait on one queue and are
      not taken off it keep their order. */
  lemma {:induction false} RunKeepsOrder(rq: Rq, ops: seq<Op>, u: nat, v: nat)
    requires Before(rq, u, v) && forall op :: op in ops ==> !Removes(op, u) && !Removes(op, v)
    ensures Before(Run(rq, ops), u, v)
    decreases |ops|
  {
    if ops != [] {
      StepKeepsOrder(rq, ops[0], u, v);
      RunKeepsOrder(Step(rq, ops[0]), ops[1..], u, v);
    }
  }

  // ---------------------------------------------------------------- keeping the processor

  /** The call does not take `t` off its queue and brings in no thread of higher priority. */
  predicate Leaves(rq: Rq, op: Op, t: nat)
    requires t in rq.threads
  {
    match op
    case Enq(u) => Has(rq, u, Ready) ==> rq.threads[u].priority <= rq.threads[t].priority
    case Wake(u) => Has(rq, u, Blocked) ==> rq.threads[u].priority <= rq.threads[t].priority
    case Deq(u) => u != t
    case Blk(u) => u != t
    case Kill(u) => u != t
    case _ => true
  }

  /** `t` heads the highest queue that is not empty. */
  ghost predicate Heads(rq: Rq, t: nat) {
    OnQueue(rq, t) && Best(rq, t)
  }

  lemma RemoveKeepsHead(s: seq<nat>, u: nat)
    requires s != [] && s[0] != u
    ensures Remove(s, u) != [] && Remove(s, u)[0] == s[0]
  {
  }

  lemma EnqueueKeepsHead(rq: Rq, t: nat, u: nat)
    requires Inv(rq) && Heads(rq, t) && Has(rq, u, Ready) && rq.threads[u].priority <= rq.threads[t].priority
    ensures Heads(Enqueue(rq, u), t)
  {
    OnOwnQueue(rq, t);
    var p := rq.threads[t].priority;
    assert Enqueue(rq, u).queues[p][0] == t;
  }

  lemma DequeueKeepsHead(rq: Rq, t: nat, u: nat)
    requires Inv(rq) && Heads(rq, t) && u != t
    ensures Heads(Dequeue(rq, u), t)
  {
    if u in rq.threads {
      OnOwnQueue(rq, t);
      var p, k := rq.threads[t].priority, rq.threads[u].priority;
      var q := Remove(rq.queues[k], u);
      RemoveKeepsHead(rq.queues[p], u);
      assert k > p ==> q == [];
      HeadElsewhere(rq, Dequeue(rq, u), t, k, q);
    }
  }

  lemma HeadElsewhere(rq: Rq, d: Rq, t: nat, k: Level, q: seq<nat>)
    requires Heads(rq, t) && d.queues == rq.queues[k := q] && d.threads == rq.threads
    requires t in rq.threads && rq.queues[rq.threads[t].priority] != []
    requires k == rq.threads[t].priority ==> q != [] && q[0] == rq.queues[k][0]
    requires k > rq.threads[t].priority ==> q == []
    requires rq.queues[rq.threads[t].priority][0] == t
    ensures Heads(d, t)
  {
    var p := rq.threads[t].priority;
    assert d.queues[p][0] == t;
    assert t in d.queues[p];
  }

  lemma BestIsOne(rq: Rq, t: nat, u: nat)
    requires Heads(rq, t) && Best(rq, u)
    ensures t == u
  {
    var p, q := rq.threads[t].priority, rq.threads[u].priority;
    assert rq.queues[p] != [] && rq.queues[q] != [];
  }

  lemma StepKeepsHead(rq: Rq, op: Op, t: nat)
    requires Inv(rq) && Heads(rq, t) && rq.current == t
    requires FreshMemory(rq, op) && Guard(rq, op) && Leaves(rq, op, t)
    ensures var s := Step(rq, op); Heads(s, t) && s.current == t
  {
    match op
    case Enq(u) => if Has(rq, u, Ready) { EnqueueKeepsHead(rq, t, u); }
    case Wake(u) =>
      if Has(rq, u, Blocked) {
        var r := SetState(rq, u, Ready);
        WakeupKeepsIff(rq, u);
        assert Inv(r) && Heads(r, t);
        EnqueueKeepsHead(r, t, u);
      }
    case Deq(u) => DequeueKeepsHead(rq, t, u);
    case Kill(u) => DequeueKeepsHead(rq, t, u);
    case Blk(u) => BlockKeepsHead(rq, t, u);
    case Sched =>
      ScheduleSpec(rq);
      BestIsOne(rq, t, Schedule(rq).current);
    case Timer => OnOwnQueue(rq, t);
    case New(u, p) =>
  }

  lemma BlockKeepsHead(rq: Rq, t: nat, u: nat)
    requires Inv(rq) && Heads(rq, t) && rq.current == t && DequeueGuard(rq, u) && u != t
    ensures Heads(Block(rq, u), t) && Block(rq, u).current == t
  {
    if u in rq.threads {
      DequeueKeepsHead(rq, t, u);
      BlockIsDequeueFirst(rq, u);
      BlockKeepsIff(rq, u);
      var d := SetState(Dequeue(rq, u), u, Blocked);
      assert Heads(d, t);
      assert Heads(Block(rq, u), t);
      BestIsOne(Block(rq, u), t, Block(rq, u).current);
    }
  }

  ghost predicate AllLeave(rq: Rq, ops: seq<Op>, t: nat)
    decreases |ops|
  {
    ops == [] || (t in rq.threads && Leaves(rq, ops[0], t) && AllLeave(Step(rq, ops[0]), ops[1..], t))
  }

  /** There is no rotation: the running head of the highest queue keeps the processor through
      any number of calls, `schedule` included, until it is taken off its queue or a thread of
      higher priority is queued. */
  lemma {:induction false} HeadKeepsProcessor(rq: Rq, ops: seq<Op>, t: nat)
    requires Inv(rq) && Heads(rq, t) && rq.current == t
    requires AllFresh(rq, ops) && Disciplined(rq, ops) && AllLeave(rq, ops, t)
    ensures Run(rq, ops).current == t && Changes(rq, ops) == 0
    decreases |ops|
  {
    if ops != [] {
      StepKeepsIff(rq, ops[0]);
      StepKeepsHead(rq, ops[0], t);
      HeadKeepsProcessor(Step(rq, ops[0]), ops[1..], t);
    }
  }
}
