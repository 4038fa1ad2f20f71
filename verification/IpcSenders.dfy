/** Any number of senders and one receiver on a channel, interleaved step by step: exactly
    when delivery stays in order, that it does when sends do not overlap, and what two sends
    that start from the same tail lose. */
module IpcSenders {
  import opened Bits
  import opened IpcRing
  import opened IpcCalls

  /** The channel and its history, with the place of every sender. The sender that belongs to
      `w` itself stays idle; `publishers` says who published each message. */
  datatype Many = Many(w: World, senders: seq<Producer>, publishers: seq<nat>)

  datatype Move = SendBy(k: nat, msg: Message, now: nat) | ProduceBy(k: nat) | ReceiveMove | ConsumeMove | LimitMove(limit: nat)

  /** Let sender `k` take one step of a single-sender channel. */
  function Act(m: Many, k: nat, s: Step): Many
    requires k < |m.senders|
  {
    var v := Next(m.w.(p := m.senders[k]), s);
    Many(v.(p := PIdle), m.senders[k := v.p],
         m.publishers + if s.Produce? && m.senders[k].PPublish? then [k] else [])
  }

  function Moved(m: Many, mv: Move): Many {
    match mv
    case SendBy(k, msg, now) => if k < |m.senders| then Act(m, k, IpcRing.Send(msg, now)) else m
    case ProduceBy(k) => if k < |m.senders| then Act(m, k, Produce) else m
    case ReceiveMove => m.(w := Next(m.w, IpcRing.Receive))
    case ConsumeMove => m.(w := Next(m.w, Consume))
    case LimitMove(limit) => m.(w := Next(m.w, SetLimit(limit)))
  }

  function Run(m: Many, moves: seq<Move>): Many
    decreases |moves|
  {
    if moves == [] then m else Run(Moved(m, moves[0]), moves[1..])
  }

  function CreatedFor(nodes: Nodes, now: nat, n: nat): Many {
    Many(Created(nodes, now), seq(n, _ => PIdle), [])
  }

  // ---------------------------------------------------------------- what delivery means

  /** Senders between publication and its count. */
  function Counting(ps: seq<Producer>): nat {
    if ps == [] then 0 else (if ps[0].PCount? then 1 else 0) + Counting(ps[1..])
  }

  /** The tail that a send has read is a slot number. */
  predicate Slotted(p: Producer) {
    p.PReadHead? || p.PCheck? || p.PCopy? || p.PPublish? ==> p.t < SLOTS
  }

  /** Delivered messages are a prefix of the published ones, the others wait in their slots,
      and the counters agree, whatever the senders are doing. */
  ghost predicate Core(m: Many) {
    var w, n, k := m.w, |m.w.published|, |m.w.delivered|;
    && w.p == PIdle
    && k <= n < k + SLOTS
    && w.ch.head == k % SLOTS && w.ch.tail == n % SLOTS
    && w.delivered == w.published[..k]
    && Holds(w.ch.nodes, w.published, k)
    && ConsumerOk(w)
    && w.ch.sent + Counting(m.senders) == n
    && w.ch.received == k - (if w.c.CCount? then 1 else 0)
    && w.ch.sent + w.ch.dropped + w.noMemory == w.completed
    && w.badNode == 0
    && forall i :: 0 <= i < |m.senders| ==> Slotted(m.senders[i])
  }

  /** Slot `t` holds a message not yet taken. */
  predicate Readable(ch: Channel, t: nat) {
    (t - ch.head) % SLOTS < Occupancy(ch)
  }

  /** A byte is written only where nobody may read, or it is there already; a slot is published
      only if it is the tail, the ring is not full, and it holds the message. */
  predicate SenderGuard(ch: Channel, p: Producer) {
    match p
    case PCopy(msg, t, i) => i < BYTES && t < SLOTS && Readable(ch, t) ==> ch.nodes[t].message[i] == msg[i]
    case PPublish(msg, t) => t == ch.tail < SLOTS && Advance(t) != ch.head && ch.nodes[t] == Node(true, msg)
    case _ => true
  }

  predicate Guard(m: Many, mv: Move) {
    mv.ProduceBy? && mv.k < |m.senders| ==> SenderGuard(m.w.ch, m.senders[mv.k])
  }

  // ---------------------------------------------------------------- single steps

  lemma {:induction false} CountingUpdate(ps: seq<Producer>, k: nat, p: Producer)
    requires k < |ps|
    ensures Counting(ps[k := p]) + (if ps[k].PCount? then 1 else 0) == Counting(ps) + if p.PCount? then 1 else 0
  {
    if k > 0 {
      CountingUpdate(ps[1..], k - 1, p);
      assert ps[k := p][1..] == ps[1..][k - 1 := p];
    } else {
      assert ps[0 := p][1..] == ps[1..];
    }
  }

  /** The messages that wait are those numbered from `k` to `n`, one per slot. */
  lemma ReadableSlot(k: nat, n: nat, t: nat)
    requires k <= n < k + SLOTS && t < SLOTS
    ensures var j := k + (t - k % SLOTS) % SLOTS;
      j % SLOTS == t && ((t - k % SLOTS) % SLOTS < (n % SLOTS - k % SLOTS) % SLOTS <==> j < n)
    ensures forall i :: k <= i < n && i % SLOTS == t ==> i == k + (t - k % SLOTS) % SLOTS
  {
    var d := (t - k % SLOTS) % SLOTS;
    Wrapped(t - k % SLOTS);
    Wrapped(k % SLOTS + d);
    assert (k + d) % SLOTS == (k % SLOTS + d) % SLOTS;
    ModDifference(k, n);
    forall i | k <= i < n && i % SLOTS == t
      ensures i == k + d
    {
      ModDifference(k, i);
    }
  }

  lemma WriteHolds(nodes: Nodes, published: seq<Message>, k: nat, t: nat, i: nat, b: nat, j: nat)
    requires Holds(nodes, published, k) && t < SLOTS && i < BYTES
    requires k <= j && j % SLOTS == t && forall x :: k <= x < |published| && x % SLOTS == t ==> x == j
    ensures Holds(WriteByte(nodes, t, i, b), published, k) <==> (j < |published| ==> nodes[t].message[i] == b)
  {
    var nodes' := WriteByte(nodes, t, i, b);
    if j < |published| {
      assert nodes[j % SLOTS].message == published[j];
      if nodes[t].message[i] == b {
        assert nodes[t].message[i := b] == nodes[t].message;
        assert nodes' == nodes;
      } else {
        assert nodes'[j % SLOTS].message[i] == b;
      }
    } else {
      assert forall x :: k <= x < |published| ==> nodes'[x % SLOTS] == nodes[x % SLOTS];
    }
  }

  lemma CopyKeepsIff(m: Many, k: nat)
    requires Core(m) && k < |m.senders| && m.senders[k].PCopy?
    ensures Core(Moved(m, ProduceBy(k))) <==> SenderGuard(m.w.ch, m.senders[k])
  {
    var p := m.senders[k];
    CountingUpdate(m.senders, k, Moved(m, ProduceBy(k)).senders[k]);
    if p.i < BYTES {
      WriteHoldsIff(m, p.t, p.i, p.msg[p.i]);
    }
  }

  /** The number of the message that waits in slot `t`, if one does. */
  lemma NumberOf(k: nat, n: nat, t: nat) returns (j: nat)
    requires k <= n < k + SLOTS && t < SLOTS
    ensures k <= j && j % SLOTS == t && forall x :: k <= x < n && x % SLOTS == t ==> x == j
    ensures (t - k % SLOTS) % SLOTS < (n % SLOTS - k % SLOTS) % SLOTS <==> j < n
  {
    ReadableSlot(k, n, t);
    j := k + (t - k % SLOTS) % SLOTS;
  }

  lemma WriteHoldsIff(m: Many, t: nat, i: nat, b: nat)
    requires Core(m) && t < SLOTS && i < BYTES
    ensures Holds(WriteByte(m.w.ch.nodes, t, i, b), m.w.published, |m.w.delivered|) <==>
      (Readable(m.w.ch, t) ==> m.w.ch.nodes[t].message[i] == b)
  {
    var d := |m.w.delivered|;
    var j := NumberOf(d, |m.w.published|, t);
    WriteHolds(m.w.ch.nodes, m.w.published, d, t, i, b, j);
  }

  lemma PublishHolds(nodes: Nodes, published: seq<Message>, k: nat, msg: Message)
    requires Holds(nodes, published, k) && k <= |published|
    ensures Holds(nodes, published + [msg], k) <==> nodes[|published| % SLOTS] == Node(true, msg)
  {
    var n, q := |published|, published + [msg];
    assert forall j :: 0 <= j < n ==> q[j] == published[j];
    assert q[n] == msg;
  }

  lemma NextSlot(n: nat, r: nat)
    requires r == n % SLOTS
    ensures (n + 1) % SLOTS == if r + 1 == SLOTS then 0 else r + 1
  {
    var q := n / SLOTS;
    assert n == SLOTS * q + r;
    if r + 1 == SLOTS {
      DivMod(n + 1, SLOTS, q + 1, 0);
    } else {
      DivMod(n + 1, SLOTS, q, r + 1);
    }
  }

  lemma SameSlot(t: nat, n: nat)
    requires t < SLOTS
    ensures Advance(t) == (n + 1) % SLOTS <==> t == n % SLOTS
  {
    var r := n % SLOTS;
    NextSlot(n, r);
    Wrapped(t + 1);
  }

  /** The ring is full when one slot is left. */
  lemma FullIff(k: nat, n: nat)
    requires k <= n < k + SLOTS
    ensures Advance(n % SLOTS) == k % SLOTS <==> n + 1 == k + SLOTS
  {
    ModDifference(k, n);
    RingArithmetic(k % SLOTS, n % SLOTS);
  }

  lemma PublishKeepsIff(m: Many, k: nat)
    requires Core(m) && k < |m.senders| && m.senders[k].PPublish?
    ensures Core(Moved(m, ProduceBy(k))) <==> SenderGuard(m.w.ch, m.senders[k])
  {
    var w, p := m.w, m.senders[k];
    var m' := Moved(m, ProduceBy(k));
    CountingUpdate(m.senders, k, m'.senders[k]);
    PublishHolds(w.ch.nodes, w.published, |w.delivered|, p.msg);
    SameSlot(p.t, |w.published|);
    FullIff(|w.delivered|, |w.published|);
    assert (w.published + [p.msg])[..|w.delivered|] == w.published[..|w.delivered|];
  }

  lemma PlainKeeps(m: Many, k: nat)
    requires Core(m) && k < |m.senders| && !m.senders[k].PCopy? && !m.senders[k].PPublish?
    ensures Core(Moved(m, ProduceBy(k)))
  {
    CountingUpdate(m.senders, k, Moved(m, ProduceBy(k)).senders[k]);
    if m.senders[k].PCount? || m.senders[k].PDrop? {
      TallyKeeps(m, k);
    }
  }

  lemma TallyKeeps(m: Many, k: nat)
    requires Core(m) && k < |m.senders| && (m.senders[k].PCount? || m.senders[k].PDrop?)
    ensures Core(Moved(m, ProduceBy(k)))
  {
    CountingUpdate(m.senders, k, PIdle);
  }

  lemma SendKeeps(m: Many, k: nat, msg: Message, now: nat)
    requires Core(m) && k < |m.senders|
    ensures Core(Moved(m, SendBy(k, msg, now)))
  {
    CountingUpdate(m.senders, k, Moved(m, SendBy(k, msg, now)).senders[k]);
  }

  /** The receiver's view of a consistent channel is that of one with no sender at work. */
  lemma ReceiverKeeps(m: Many, s: Step)
    requires Core(m) && (s.Receive? || s.Consume? || s.SetLimit?)
    ensures Core(m.(w := Next(m.w, s)))
  {
    var pending := Counting(m.senders);
    var v := m.w.(ch := m.w.ch.(sent := |m.w.published|), completed := m.w.completed + pending);
    assert Inv(v);
    NextKeeps(v, s);
  }

  /** A move keeps delivery in order if and only if it meets its guard. */
  lemma MoveKeepsIff(m: Many, mv: Move)
    requires Core(m)
    ensures Core(Moved(m, mv)) <==> Guard(m, mv)
  {
    match mv
    case SendBy(k, msg, now) => if k < |m.senders| { SendKeeps(m, k, msg, now); }
    case ProduceBy(k) =>
      if k < |m.senders| {
        if m.senders[k].PCopy? {
          CopyKeepsIff(m, k);
        } else if m.senders[k].PPublish? {
          PublishKeepsIff(m, k);
        } else {
          PlainKeeps(m, k);
        }
      }
    case ReceiveMove => ReceiverKeeps(m, IpcRing.Receive);
    case ConsumeMove => ReceiverKeeps(m, Consume);
    case LimitMove(limit) => ReceiverKeeps(m, SetLimit(limit));
  }

  // ---------------------------------------------------------------- runs

  ghost predicate Guarded(m: Many, moves: seq<Move>)
    decreases |moves|
  {
    moves == [] || (Guard(m, moves[0]) && Guarded(Moved(m, moves[0]), moves[1..]))
  }

  ghost predicate Always(m: Many, moves: seq<Move>)
    decreases |moves|
  {
    Core(m) && (moves == [] || Always(Moved(m, moves[0]), moves[1..]))
  }

  /** For any number of senders: delivery stays in order throughout a run if and only if every
      copy and every publication of the run meets its guard. */
  lemma {:induction false} RunKeepsIff(m: Many, moves: seq<Move>)
    requires Core(m)
    ensures Always(m, moves) <==> Guarded(m, moves)
    decreases |moves|
  {
    if moves != [] {
      MoveKeepsIff(m, moves[0]);
      if Guard(m, moves[0]) {
        RunKeepsIff(Moved(m, moves[0]), moves[1..]);
      }
    }
  }

  lemma {:induction false} NobodyCounts(n: nat)
    ensures Counting(seq(n, _ => PIdle)) == 0
  {
    if n > 0 {
      NobodyCounts(n - 1);
      assert seq(n, _ => PIdle)[1..] == seq(n - 1, _ => PIdle);
    }
  }

  lemma CreatedCore(nodes: Nodes, now: nat, n: nat)
    ensures Core(CreatedFor(nodes, now, n))
  {
    NobodyCounts(n);
  }

  /** What a consistent channel promises: delivery in order and unaltered, at most 1023 messages
      waiting, and counters that account for every message and every completed send. */
  lemma CoreMeans(m: Many)
    requires Core(m)
    ensures m.w.delivered <= m.w.published && m.w.badNode == 0
    ensures Occupancy(m.w.ch) == m.w.ch.sent - m.w.ch.received + Counting(m.senders) - (if m.w.c.CCount? then 1 else 0)
    ensures Occupancy(m.w.ch) <= 1023
    ensures m.w.ch.sent + m.w.ch.dropped + m.w.noMemory == m.w.completed
  {
    ModDifference(|m.w.delivered|, |m.w.published|);
  }

  // ---------------------------------------------------------------- sends that do not overlap

  /** Between reading the tail and publishing. */
  predicate Inside(p: Producer) {
    p.PReadHead? || p.PCheck? || p.PCopy? || p.PPublish?
  }

  /** No send reads the tail while another is between its own reading and its publication. */
  predicate Exclusive(m: Many, mv: Move) {
    mv.ProduceBy? && mv.k < |m.senders| && m.senders[mv.k].PReadTail? ==>
      forall i :: 0 <= i < |m.senders| ==> !Inside(m.senders[i])
  }

  ghost predicate Sole(m: Many) {
    && Core(m)
    && (forall i, j :: 0 <= i < j < |m.senders| ==> !Inside(m.senders[i]) || !Inside(m.senders[j]))
    && forall i :: 0 <= i < |m.senders| && Inside(m.senders[i]) ==> ProducerOk(m.w.(p := m.senders[i]))
  }

  /** A sender inside on its own meets its guard. */
  lemma OkMeetsGuard(m: Many, k: nat)
    requires Core(m) && k < |m.senders| && (Inside(m.senders[k]) ==> ProducerOk(m.w.(p := m.senders[k])))
    ensures SenderGuard(m.w.ch, m.senders[k])
  {
    var w, p := m.w, m.senders[k];
    if p.PCopy? {
      ReadableSlot(|w.delivered|, |w.published|, p.t);
    } else if p.PPublish? {
      FullIff(|w.delivered|, |w.published|);
    }
  }

  /** The single-sender channel in which sender `k` does all the sending. */
  function Alone(m: Many, k: nat): World
    requires k < |m.senders|
  {
    m.w.(p := m.senders[k], ch := m.w.ch.(sent := |m.w.published|),
         completed := m.w.completed + Counting(m.senders))
  }

  lemma AloneStep(m: Many, k: nat)
    requires Sole(m) && k < |m.senders| && !m.senders[k].PCount?
    ensures ProducerOk(ProduceStep(Alone(m, k)))
  {
    assert Inv(Alone(m, k));
    ProduceKeeps(Alone(m, k));
  }

  lemma SoleProduce(m: Many, k: nat)
    requires Sole(m) && k < |m.senders| && Exclusive(m, ProduceBy(k))
    ensures Guard(m, ProduceBy(k)) && Sole(Moved(m, ProduceBy(k)))
  {
    OkMeetsGuard(m, k);
    MoveKeepsIff(m, ProduceBy(k));
    if m.senders[k].PCount? {
      OthersOk(m, k);
    } else {
      AloneStep(m, k);
      OthersOk(m, k);
    }
  }

  /** After a step of sender `k` any other sender is as well off as before. */
  lemma OthersOk(m: Many, k: nat)
    requires Sole(m) && k < |m.senders| && Exclusive(m, ProduceBy(k))
    ensures var m' := Moved(m, ProduceBy(k));
      forall i :: 0 <= i < |m.senders| && i != k && Inside(m'.senders[i]) ==>
        !Inside(m.senders[k]) && !Inside(m'.senders[k]) && ProducerOk(m'.w.(p := m'.senders[i]))
  {
    var m' := Moved(m, ProduceBy(k));
    forall i | 0 <= i < |m.senders| && i != k && Inside(m'.senders[i])
      ensures !Inside(m.senders[k]) && !Inside(m'.senders[k]) && ProducerOk(m'.w.(p := m'.senders[i]))
    {
      assert m'.senders[i] == m.senders[i];
      assert !Inside(m.senders[k]);
    }
  }

  lemma SoleReceiver(m: Many, s: Step)
    requires Sole(m) && (s.Receive? || s.Consume? || s.SetLimit?)
    ensures Sole(m.(w := Next(m.w, s)))
  {
    ReceiverKeeps(m, s);
  }

  lemma SoleMove(m: Many, mv: Move)
    requires Sole(m) && Exclusive(m, mv)
    ensures Guard(m, mv) && Sole(Moved(m, mv))
  {
    match mv
    case SendBy(k, msg, now) => if k < |m.senders| { SendKeeps(m, k, msg, now); }
    case ProduceBy(k) => if k < |m.senders| { SoleProduce(m, k); }
    case ReceiveMove => SoleReceiver(m, IpcRing.Receive);
    case ConsumeMove => SoleReceiver(m, Consume);
    case LimitMove(limit) => SoleReceiver(m, SetLimit(limit));
  }

  predicate AllExclusive(m: Many, moves: seq<Move>)
    decreases |moves|
  {
    moves == [] || (Exclusive(m, moves[0]) && AllExclusive(Moved(m, moves[0]), moves[1..]))
  }

  lemma {:induction false} SoleRun(m: Many, moves: seq<Move>)
    requires Sole(m) && AllExclusive(m, moves)
    ensures Guarded(m, moves) && Sole(Run(m, moves))
    decreases |moves|
  {
    if moves != [] {
      SoleMove(m, moves[0]);
      SoleRun(Moved(m, moves[0]), moves[1..]);
    }
  }

  /** Any number of senders share a channel safely while no send reads the tail between another
      one's reading of it and its publication: over every such interleaving delivery stays in
      order and the counters agree. */
  lemma ExclusiveSenders(nodes: Nodes, now: nat, n: nat, moves: seq<Move>)
    requires AllExclusive(CreatedFor(nodes, now, n), moves)
    ensures var m := Run(CreatedFor(nodes, now, n), moves);
      && m.w.delivered <= m.w.published && m.w.badNode == 0 && Occupancy(m.w.ch) <= 1023
      && Occupancy(m.w.ch) == m.w.ch.sent - m.w.ch.received + Counting(m.senders) - (if m.w.c.CCount? then 1 else 0)
      && m.w.ch.sent + m.w.ch.dropped + m.w.noMemory == m.w.completed
  {
    CreatedCore(nodes, now, n);
    SoleRun(CreatedFor(nodes, now, n), moves);
    CoreMeans(Run(CreatedFor(nodes, now, n), moves));
  }

  // ---------------------------------------------------------------- sends from the same tail

  /** Sender `k` is past the full-queue check with tail `t` and will publish. */
  predicate Bound(m: Many, k: nat, t: nat) {
    && k < |m.senders| && t < SLOTS
    && match m.senders[k]
       case PCheck(_, u) => u == t && m.w.ch.nodes[t].good
       case PCopy(_, u, _) => u == t
       case PPublish(_, u) => u == t
       case _ => false
  }

  predicate Publishes(m: Many, mv: Move, k: nat) {
    mv == ProduceBy(k) && k < |m.senders| && m.senders[k].PPublish?
  }

  /** What one move does to who published, how much, and the tail. */
  lemma MovePublishes(m: Many, mv: Move)
    ensures var m' := Moved(m, mv);
      || (m'.publishers == m.publishers && m'.w.published == m.w.published && m'.w.ch.tail == m.w.ch.tail)
      || (mv.ProduceBy? && Publishes(m, mv, mv.k) && m'.publishers == m.publishers + [mv.k]
          && |m'.w.published| == |m.w.published| + 1 && m'.w.ch.tail == Advance(m.senders[mv.k].t))
  {
  }

  /** A bound sender stays bound until it publishes. */
  lemma StaysBound(m: Many, mv: Move, k: nat, t: nat)
    requires Bound(m, k, t) && !Publishes(m, mv, k)
    ensures Bound(Moved(m, mv), k, t)
  {
  }

  lemma {:induction false} PublishersGrow(m: Many, moves: seq<Move>)
    ensures m.publishers <= Run(m, moves).publishers
    decreases |moves|
  {
    if moves != [] {
      MovePublishes(m, moves[0]);
      PublishersGrow(Moved(m, moves[0]), moves[1..]);
    }
  }

  lemma {:induction false} NonePublish(m: Many, moves: seq<Move>)
    requires Run(m, moves).publishers == m.publishers
    ensures Run(m, moves).w.published == m.w.published && Run(m, moves).w.ch.tail == m.w.ch.tail
    decreases |moves|
  {
    if moves != [] {
      MovePublishes(m, moves[0]);
      PublishersGrow(Moved(m, moves[0]), moves[1..]);
      NonePublish(Moved(m, moves[0]), moves[1..]);
    }
  }

  /** The only publication of a run is that of a bound sender. */
  lemma {:induction false} OnePublishes(m: Many, moves: seq<Move>, k: nat, t: nat)
    requires Bound(m, k, t) && Run(m, moves).publishers == m.publishers + [k]
    ensures Run(m, moves).w.ch.tail == Advance(t) && |Run(m, moves).w.published| == |m.w.published| + 1
    decreases |moves|
  {
    var m', rest := Moved(m, moves[0]), moves[1..];
    MovePublishes(m, moves[0]);
    PublishersGrow(m', rest);
    if m'.publishers == m.publishers {
      StaysBound(m, moves[0], k, t);
      OnePublishes(m', rest, k, t);
    } else {
      assert m'.publishers[|m.publishers|] == (m.publishers + [k])[|m.publishers|];
      NonePublish(m', rest);
    }
  }

  /** Two sends are past the full-queue check with the same tail. In every interleaving in which
      they are the next two to publish, the tail moves once for two published messages. */
  lemma {:induction false} SameTailMovesOnce(m: Many, moves: seq<Move>, i: nat, j: nat, t: nat)
    requires i != j && Bound(m, i, t) && Bound(m, j, t) && Run(m, moves).publishers == m.publishers + [i, j]
    ensures Run(m, moves).w.ch.tail == Advance(t) && |Run(m, moves).w.published| == |m.w.published| + 2
    decreases |moves|
  {
    var m', rest := Moved(m, moves[0]), moves[1..];
    MovePublishes(m, moves[0]);
    PublishersGrow(m', rest);
    if m'.publishers == m.publishers {
      StaysBound(m, moves[0], i, t);
      StaysBound(m, moves[0], j, t);
      SameTailMovesOnce(m', rest, i, j, t);
    } else {
      assert m'.publishers[|m.publishers|] == (m.publishers + [i, j])[|m.publishers|];
      StaysBound(m, moves[0], j, t);
      assert m.publishers + [i, j] == m'.publishers + [j];
      OnePublishes(m', rest, j, t);
    }
  }

  lemma TailBehind(m: Many, t: nat, x: Many)
    requires Core(m) && t == m.w.ch.tail && x.w.ch.tail == Advance(t) && |x.w.published| == |m.w.published| + 2
    ensures !Core(x)
  {
    var n := |m.w.published|;
    SameSlot(t, n);
    SameSlot(t, n + 1);
    ConsecutiveSlots(n);
  }

  lemma LostIsUnguarded(m: Many, moves: seq<Move>)
    requires Core(m) && !Core(Run(m, moves))
    ensures !Guarded(m, moves)
  {
    RunKeepsIff(m, moves);
    if Guarded(m, moves) {
      AlwaysLast(m, moves);
      assert false;
    }
  }

  /** So delivery is out of order afterwards, however the two were interleaved. */
  lemma SameTailLoses(m: Many, moves: seq<Move>, i: nat, j: nat)
    requires Core(m) && i != j && Bound(m, i, m.w.ch.tail) && Bound(m, j, m.w.ch.tail)
    requires Run(m, moves).publishers == m.publishers + [i, j]
    ensures !Core(Run(m, moves)) && !Guarded(m, moves)
  {
    SameTailMovesOnce(m, moves, i, j, m.w.ch.tail);
    TailBehind(m, m.w.ch.tail, Run(m, moves));
    LostIsUnguarded(m, moves);
  }

  lemma ConsecutiveSlots(n: nat)
    ensures n % SLOTS != (n + 1) % SLOTS
  {
  }

  lemma {:induction false} AlwaysLast(m: Many, moves: seq<Move>)
    requires Always(m, moves)
    ensures Core(Run(m, moves))
    decreases |moves|
  {
    if moves != [] {
      AlwaysLast(Moved(m, moves[0]), moves[1..]);
    }
  }

  // ---------------------------------------------------------------- a run that loses a message

  function Repeat(k: nat, n: nat): seq<Move> {
    if n == 0 then [] else [ProduceBy(k)] + Repeat(k, n - 1)
  }

  lemma {:induction false} RunAppend(m: Many, a: seq<Move>, b: seq<Move>)
    ensures Run(m, a + b) == Run(Run(m, a), b)
    decreases |a|
  {
    if a == [] {
      assert a + b == b;
    } else {
      assert (a + b)[0] == a[0] && (a + b)[1..] == a[1..] + b;
      RunAppend(Moved(m, a[0]), a[1..], b);
    }
  }

  /** Letting one sender take `n` steps is letting a single sender take them. */
  lemma {:induction false} RepeatIs(m: Many, k: nat, n: nat, v: World)
    requires k < |m.senders| && m.w.p == PIdle && v == ProduceN(m.w.(p := m.senders[k]), n)
    ensures var m' := Run(m, Repeat(k, n)); m'.w == v.(p := PIdle) && m'.senders == m.senders[k := v.p]
    decreases n
  {
    if n > 0 {
      var m1 := Moved(m, ProduceBy(k));
      assert m1.w.(p := m1.senders[k]) == ProduceStep(m.w.(p := m.senders[k]));
      RepeatIs(m1, k, n - 1, v);
      assert Repeat(k, n)[0] == ProduceBy(k) && Repeat(k, n)[1..] == Repeat(k, n - 1);
      assert m.senders[k := m1.senders[k]][k := v.p] == m.senders[k := v.p];
    } else {
      assert m.senders[k := v.p] == m.senders;
    }
  }

  /** From reading the tail to having copied nothing yet. */
  lemma ReachCopyBy(m: Many, k: nat, msg: Message)
    requires k < |m.senders| && m.senders[k] == PReadTail(msg) && m.w.p == PIdle
    requires m.w.ch.tail < SLOTS && m.w.ch.nodes[m.w.ch.tail].good && Advance(m.w.ch.tail) != m.w.ch.head
    ensures var m' := Run(m, Repeat(k, 3)); m'.w == m.w && m'.senders == m.senders[k := PCopy(msg, m.w.ch.tail, 0)]
  {
    ReachCopy(m.w, msg);
    RepeatIs(m, k, 3, m.w.(p := PCopy(msg, m.w.ch.tail, 0)));
  }

  /** Copying, publishing and counting without interruption. */
  lemma FinishBy(m: Many, k: nat, msg: Message, t: nat, w: World)
    requires k < |m.senders| && m.senders[k] == PCopy(msg, t, 0) && m.w.p == PIdle
    requires t < SLOTS && m.w.ch.nodes[t].good
    requires w == m.w.(
      ch := m.w.ch.(nodes := m.w.ch.nodes[t := Node(true, msg)], tail := Advance(t), sent := m.w.ch.sent + 1),
      published := m.w.published + [msg], completed := m.w.completed + 1)
    ensures var m' := Run(m, Repeat(k, BYTES + 3)); m'.w == w && m'.senders == m.senders[k := PIdle]
  {
    SoloCopy(m.w.(p := PCopy(msg, t, 0)), msg, t, BYTES + 3);
    RepeatIs(m, k, BYTES + 3, w);
  }

  function Interleaved(): seq<Move> {
    Repeat(0, 3) + (Repeat(1, 3) + (Repeat(0, BYTES + 3) + Repeat(1, BYTES + 3)))
  }

  /** Both senders read the tail, then the first finishes, then the second. */
  lemma BothFinish(m: Many, a: Message, b: Message)
    requires m.senders == [PReadTail(a), PReadTail(b)] && m.w.p == PIdle
    requires m.w.ch.tail < SLOTS && m.w.ch.nodes[m.w.ch.tail].good && Advance(m.w.ch.tail) != m.w.ch.head
    ensures var m' := Run(m, Interleaved());
      && m'.senders == [PIdle, PIdle]
      && m'.w.ch.sent == m.w.ch.sent + 2 && m'.w.published == m.w.published + [a] + [b]
      && m'.w.ch.tail == Advance(m.w.ch.tail) && m'.w.ch.nodes[m.w.ch.tail] == Node(true, b)
  {
    var t := m.w.ch.tail;
    ReachCopyBy(m, 0, a);
    var m1 := Run(m, Repeat(0, 3));
    ReachCopyBy(m1, 1, b);
    var m2 := Run(m1, Repeat(1, 3));
    assert m2.senders == [PCopy(a, t, 0), PCopy(b, t, 0)];
    FinishBoth(m2, a, b, t);
    RunAppend(m, Repeat(0, 3), Repeat(1, 3) + (Repeat(0, BYTES + 3) + Repeat(1, BYTES + 3)));
    RunAppend(m1, Repeat(1, 3), Repeat(0, BYTES + 3) + Repeat(1, BYTES + 3));
  }

  lemma FinishBoth(m: Many, a: Message, b: Message, t: nat)
    requires m.senders == [PCopy(a, t, 0), PCopy(b, t, 0)] && m.w.p == PIdle && t < SLOTS && m.w.ch.nodes[t].good
    ensures var m' := Run(m, Repeat(0, BYTES + 3) + Repeat(1, BYTES + 3));
      && m'.senders == [PIdle, PIdle]
      && m'.w.ch.sent == m.w.ch.sent + 2 && m'.w.published == m.w.published + [a] + [b]
      && m'.w.ch.tail == Advance(t) && m'.w.ch.nodes[t] == Node(true, b)
  {
    var w1 := m.w.(
      ch := m.w.ch.(nodes := m.w.ch.nodes[t := Node(true, a)], tail := Advance(t), sent := m.w.ch.sent + 1),
      published := m.w.published + [a], completed := m.w.completed + 1);
    FinishBy(m, 0, a, t, w1);
    var m1 := Run(m, Repeat(0, BYTES + 3));
    var w2 := w1.(
      ch := w1.ch.(nodes := w1.ch.nodes[t := Node(true, b)], tail := Advance(t), sent := w1.ch.sent + 1),
      published := w1.published + [b], completed := w1.completed + 1);
    FinishBy(m1, 1, b, t, w2);
    RunAppend(m, Repeat(0, BYTES + 3), Repeat(1, BYTES + 3));
  }

  /** Two sends pass the limiter of a new channel. */
  lemma StartBoth(nodes: Nodes, now: nat, a: Message, b: Message) returns (m: Many)
    ensures m == Run(CreatedFor(nodes, now, 2), [SendBy(0, a, now), SendBy(1, b, now)])
    ensures m.senders == [PReadTail(a), PReadTail(b)] && m.w.p == PIdle && m.w.published == []
    ensures m.w.ch == Created(nodes, now).ch.(quota := m.w.ch.quota)
  {
    var m0, starts := CreatedFor(nodes, now, 2), [SendBy(0, a, now), SendBy(1, b, now)];
    assert m0.senders == [PIdle, PIdle];
    var m1 := Moved(m0, SendBy(0, a, now));
    m := Moved(m1, SendBy(1, b, now));
    assert m.senders == [PReadTail(a), PReadTail(b)];
    assert starts[1..] == [SendBy(1, b, now)] && starts[1..][1..] == [];
    assert Run(m1, starts[1..]) == Run(m, []) == m;
  }

  /** Concretely, on a new channel: two sends that both start before either publishes. Both
      complete and are counted, yet the tail stands at one and the first message is gone. */
  lemma TwoSendersLose(nodes: Nodes, now: nat, a: Message, b: Message) returns (m: Many)
    requires nodes[0].good
    ensures m == Run(CreatedFor(nodes, now, 2), [SendBy(0, a, now), SendBy(1, b, now)] + Interleaved())
    ensures m.senders == [PIdle, PIdle] && m.w.ch.sent == 2 && |m.w.published| == 2
    ensures m.w.published[0] == a && m.w.published[1] == b
    ensures m.w.ch.tail == 1 && m.w.ch.nodes[0] == Node(true, b) && !Core(m)
  {
    var m2 := StartBoth(nodes, now, a, b);
    BothFinish(m2, a, b);
    RunAppend(CreatedFor(nodes, now, 2), [SendBy(0, a, now), SendBy(1, b, now)], Interleaved());
    m := Run(m2, Interleaved());
  }
}
