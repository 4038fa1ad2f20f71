/** The scheduler as the object it is: queues, bitmap, counters and thread states updated in
    place by each call. */
module RunQueueMachine {
  import opened Bits
  import opened RunQueue
  import opened RunQueueSafety

  class Scheduler {
    var queue: Queues
    var bitmap: nat
    var running: nat
    var switches: nat
    var current: nat
    var idle: nat
    var threads: map<nat, Thread>
    /** Set when a call follows a pointer to a destroyed thread. */
    ghost var stale: bool

    ghost function State(): Rq
      reads this
    {
      Rq(queue, bitmap, running, switches, current, idle, threads, stale)
    }

    /** Empties every queue, then installs the idle thread, or none when its allocation failed. */
    constructor (idleThread: nat)
      ensures State() == Initial(idleThread) && Inv(State())
    {
      current, idle, running, switches, bitmap := 0, 0, 0, 0, 0;
      threads, stale := map[], false;
      new;
      for i := 0 to LEVELS
        invariant forall j :: 0 <= j < i ==> queue[j] == []
        invariant State() == Rq(queue, 0, 0, 0, 0, 0, map[], false)
      {
        queue := queue[i := []];
      }
      if idleThread != 0 {
        threads := map[idleThread := Thread(Ready, 0, TIME_SLICE)];
        idle := idleThread;
        current := idleThread;
      }
      assert queue == [[], [], [], [], []];
      InitialInv(idleThread);
    }

    method Enqueue(t: nat)
      modifies this
      ensures State() == RunQueue.Enqueue(old(State()), t)
      ensures old(Inv(State())) ==> (Inv(State()) <==> EnqueueGuard(old(State()), t))
    {
      ghost var before := State();
      if Inv(before) {
        EnqueueKeepsIff(before, t);
      }
      if t !in threads {
        stale := stale || t != 0;
        return;
      }
      if threads[t].state != Ready {
        return;
      }
      var p := threads[t].priority;
      queue := queue[p := queue[p] + [t]];
      bitmap := SetBit(bitmap, p);
      running := Up(running);
    }

    method Dequeue(t: nat)
      modifies this
      ensures State() == RunQueue.Dequeue(old(State()), t)
      ensures old(Inv(State())) ==> (Inv(State()) <==> DequeueGuard(old(State()), t))
    {
      ghost var before := State();
      if Inv(before) {
        DequeueKeepsIff(before, t);
      }
      if t !in threads {
        stale := stale || t != 0;
        return;
      }
      var p := threads[t].priority;
      queue := queue[p := Remove(queue[p], t)];
      if queue[p] == [] {
        bitmap := ClearBit(bitmap, p);
      }
      running := Down(running);
    }

    /** The constant-time pick. When the bitmap agrees with the queues it is what a scan from the
        highest queue down finds. */
    method GetNextThread() returns (next: nat)
      ensures next == NextThread(State())
      ensures Summarises(bitmap, queue) ==> next == Scan(State(), LEVELS)
    {
      if Summarises(bitmap, queue) {
        PickIsScan(State());
      }
      if bitmap == 0 {
        return idle;
      }
      var priority := BitXor(LeadingZeros(bitmap, 64), 63);
      next := if priority < LEVELS && queue[priority] != [] then queue[priority][0] else 0;
    }

    method Schedule()
      modifies this
      ensures State() == RunQueue.Schedule(old(State()))
      ensures old(Inv(State())) ==> Inv(State()) && Best(State(), current)
    {
      ghost var before := State();
      if Inv(before) {
        ScheduleSpec(before);
      }
      var next := GetNextThread();
      if current == next {
        return;
      }
      current := next;
      switches := Up(switches);
    }

    method Block(t: nat)
      modifies this
      ensures State() == RunQueue.Block(old(State()), t)
      ensures old(Inv(State())) ==> (Inv(State()) <==> DequeueGuard(old(State()), t))
    {
      ghost var before := State();
      if Inv(before) {
        BlockKeepsIff(before, t);
      }
      if t !in threads {
        stale := stale || t != 0;
        return;
      }
      threads := threads[t := threads[t].(state := Blocked)];
      Dequeue(t);
      Schedule();
    }

    method Wakeup(t: nat)
      modifies this
      ensures State() == RunQueue.Wakeup(old(State()), t)
      ensures old(Inv(State())) ==> (Inv(State()) <==> Known(old(State()), t))
    {
      ghost var before := State();
      if Inv(before) {
        WakeupKeepsIff(before, t);
      }
      if t !in threads {
        stale := stale || t != 0;
        return;
      }
      if threads[t].state != Blocked {
        return;
      }
      threads := threads[t := threads[t].(state := Ready)];
      Enqueue(t);
    }

    method Tick()
      modifies this
      ensures State() == RunQueue.Tick(old(State()))
      ensures old(Inv(State())) ==> (Inv(State()) <==> TickGuard(old(State())))
    {
      ghost var before := State();
      if Inv(before) {
        TickKeepsIff(before);
      }
      var t := current;
      if t == idle {
        return;
      }
      if t !in threads {
        stale := stale || t != 0;
        return;
      }
      var slice := threads[t].slice - 1;
      threads := threads[t := threads[t].(slice := slice)];
      if slice <= 0 {
        threads := threads[t := threads[t].(state := Ready)];
        threads := threads[t := threads[t].(slice := TIME_SLICE)];
        assert State() == SetSlice(SetState(before, t, Ready), t, TIME_SLICE);
        Enqueue(t);
        Schedule();
      }
    }

    /** `t` is the address the allocator returned, or 0. */
    method CreateThread(t: nat, priority: Level)
      requires t !in threads
      modifies this
      ensures State() == Create(old(State()), t, priority)
      ensures old(Inv(State())) ==> Inv(State())
    {
      ghost var before := State();
      if t == 0 {
        return;
      }
      threads := threads[t := Thread(Ready, priority, TIME_SLICE)];
      if Inv(before) {
        CreateKeeps(before, t, priority);
      }
    }

    method DestroyThread(t: nat)
      modifies this
      ensures State() == Destroy(old(State()), t)
      ensures old(Inv(State())) ==> (Inv(State()) <==> DestroyGuard(old(State()), t))
    {
      ghost var before := State();
      if Inv(before) {
        DestroyKeepsIff(before, t);
      }
      if t !in threads {
        stale := stale || t != 0;
        return;
      }
      Dequeue(t);
      threads := threads - {t};
    }
  }
}
