/** The IPC ring as a machine of atomic steps: one producer and one consumer, each
    reading or writing one shared word or one message byte at a time, in any interleaving. */
module IpcRing {

  const SLOTS: nat := 1024
  const BYTES: nat := 4128    // size of a message: ids, type, flags, length and 4096 data bytes
  const WINDOW: nat := 1000
  const FIRST_QUOTA: nat := 10000
  const DEFAULT_LIMIT: nat := 1000

  type Message = m: seq<nat> | |m| == 4128 witness seq(4128, _ => 0)

  /** A queue node; `good` is false where its allocation failed at channel creation. */
  datatype Node = Node(good: bool, message: Message)

  type Nodes = n: seq<Node> | |n| == 1024 witness seq(1024, _ => Node(false, seq(4128, _ => 0)))

  datatype Quota = Quota(limit: nat, remaining: nat, reset: nat)

  /** The rate limiter's step at time `now`, and whether the send may go on. The clock is
      taken not to wrap. */
  datatype Admission = Admission(quota: Quota, passed: bool)

  function Admit(q: Quota, now: nat): Admission {
    var q1 := if now >= q.reset then Quota(q.limit, q.limit, now + WINDOW) else q;
    if q1.remaining == 0 then Admission(q1, false)
    else Admission(q1.(remaining := q1.remaining - 1), true)
  }

  datatype Channel = Channel(
    head: nat, tail: nat, nodes: Nodes,
    sent: nat, received: nat, dropped: nat, quota: Quota)

  function Advance(i: nat): (r: nat)
    ensures r < SLOTS
  {
    (i + 1) % SLOTS
  }

  /** Where a send is: each constructor is the point before one atomic step. */
  datatype Producer =
    | PIdle
    | PReadTail(msg: Message)
    | PReadHead(msg: Message, t: nat)
    | PCheck(msg: Message, t: nat)
    | PCopy(msg: Message, t: nat, i: nat)
    | PPublish(msg: Message, t: nat)
    | PCount
    | PDrop

  datatype Consumer =
    | CIdle
    | CReadTail(h: nat)
    | CCheck(h: nat)
    | CCopy(h: nat, buffer: seq<nat>)
    | CAdvance(h: nat, message: Message)
    | CCount

  /** The channel, both parties, and the history to speak about: messages whose slot was
      published, messages handed to the receiver, completed sends, sends refused for a
      missing node, and receives that met one. */
  datatype World = World(
    ch: Channel, p: Producer, c: Consumer,
    published: seq<Message>, delivered: seq<Message>,
    completed: nat, noMemory: nat, badNode: nat)

  datatype Step = Send(msg: Message, now: nat) | Produce | Receive | Consume | SetLimit(limit: nat)

  function WriteByte(n: Nodes, t: nat, i: nat, b: nat): Nodes
    requires t < SLOTS && i < BYTES
  {
    n[t := Node(n[t].good, n[t].message[i := b])]
  }

  /** The next atomic step of a send in progress. */
  function ProduceStep(w: World): World {
    var ch := w.ch;
    match w.p
    case PIdle => w
    case PReadTail(msg) => w.(p := PReadHead(msg, ch.tail))
    case PReadHead(msg, t) => w.(p := if Advance(t) == ch.head then PDrop else PCheck(msg, t))
    case PCheck(msg, t) =>
      if t < SLOTS && ch.nodes[t].good then w.(p := PCopy(msg, t, 0))
      else w.(p := PIdle, completed := w.completed + 1, noMemory := w.noMemory + 1)
    case PCopy(msg, t, i) =>
      if i < BYTES && t < SLOTS
      then w.(ch := ch.(nodes := WriteByte(ch.nodes, t, i, msg[i])), p := PCopy(msg, t, i + 1))
      else w.(p := PPublish(msg, t))
    case PPublish(msg, t) =>
      w.(ch := ch.(tail := Advance(t)), p := PCount, published := w.published + [msg])
    case PCount => w.(ch := ch.(sent := ch.sent + 1), p := PIdle, completed := w.completed + 1)
    case PDrop => w.(ch := ch.(dropped := ch.dropped + 1), p := PIdle, completed := w.completed + 1)
  }

  /** The next atomic step of a receive in progress. */
  function ConsumeStep(w: World): World {
    var ch := w.ch;
    match w.c
    case CIdle => w
    case CReadTail(h) => w.(c := if h == ch.tail then CIdle else CCheck(h))
    case CCheck(h) =>
      if h < SLOTS && ch.nodes[h].good then w.(c := CCopy(h, []))
      else w.(c := CIdle, badNode := w.badNode + 1)
    case CCopy(h, buffer) =>
      if |buffer| < BYTES && h < SLOTS then w.(c := CCopy(h, buffer + [ch.nodes[h].message[|buffer|]]))
      else if |buffer| == BYTES then w.(c := CAdvance(h, buffer))
      else w
    case CAdvance(h, buffer) =>
      w.(ch := ch.(head := Advance(h)), c := CCount, delivered := w.delivered + [buffer])
    case CCount => w.(ch := ch.(received := ch.received + 1), c := CIdle)
  }

  function Next(w: World, s: Step): World {
    match s
    case Send(msg, now) =>
      if !w.p.PIdle? then w
      else
        var a := Admit(w.ch.quota, now);
        w.(ch := w.ch.(quota := a.quota), p := if a.passed then PReadTail(msg) else PDrop)
    case Produce => ProduceStep(w)
    case Receive => if w.c.CIdle? then w.(c := CReadTail(w.ch.head)) else w
    case Consume => ConsumeStep(w)
    case SetLimit(limit) => w.(ch := w.ch.(quota := w.ch.quota.(limit := limit)))
  }

  function Run(w: World, steps: seq<Step>): World
    decreases |steps|
  {
    if steps == [] then w else Run(Next(w, steps[0]), steps[1..])
  }

  /** A channel just created at time `now`; some of its nodes may have failed. */
  function Created(nodes: Nodes, now: nat): World {
    World(Channel(0, 0, nodes, 0, 0, 0, Quota(DEFAULT_LIMIT, FIRST_QUOTA, now + WINDOW)),
          PIdle, CIdle, [], [], 0, 0, 0)
  }

  // ---------------------------------------------------------------- the invariant

  /** Slots from head to tail are good and hold the published messages not yet delivered. */
  ghost predicate Holds(nodes: Nodes, published: seq<Message>, from: nat) {
    forall j :: from <= j < |published| ==>
      nodes[j % SLOTS].good && nodes[j % SLOTS].message == published[j]
  }

  predicate ProducerOk(w: World) {
    var n := |w.published| - |w.delivered|;
    match w.p
    case PIdle => true
    case PReadTail(_) => true
    case PReadHead(_, t) => t == w.ch.tail
    case PCheck(_, t) => t == w.ch.tail && n < SLOTS - 1
    case PCopy(msg, t, i) =>
      && t == w.ch.tail < SLOTS && n < SLOTS - 1 && i <= BYTES
      && w.ch.nodes[t].good && w.ch.nodes[t].message[..i] == msg[..i]
    case PPublish(msg, t) =>
      && t == w.ch.tail < SLOTS && n < SLOTS - 1
      && w.ch.nodes[t].good && w.ch.nodes[t].message == msg
    case PCount => true
    case PDrop => true
  }

  predicate ConsumerOk(w: World) {
    var k := |w.delivered|;
    match w.c
    case CIdle => true
    case CReadTail(h) => h == w.ch.head
    case CCheck(h) => h == w.ch.head && k < |w.published|
    case CCopy(h, buffer) =>
      h == w.ch.head && k < |w.published| && |buffer| <= BYTES && buffer == w.published[k][..|buffer|]
    case CAdvance(h, buffer) => h == w.ch.head && k < |w.published| && buffer == w.published[k]
    case CCount => true
  }

  ghost predicate Inv(w: World) {
    var n, k := |w.published|, |w.delivered|;
    && k <= n < k + SLOTS
    && w.ch.head == k % SLOTS && w.ch.tail == n % SLOTS
    && w.delivered == w.published[..k]
    && Holds(w.ch.nodes, w.published, k)
    && ProducerOk(w) && ConsumerOk(w)
    && w.ch.sent == n - (if w.p.PCount? then 1 else 0)
    && w.ch.received == k - (if w.c.CCount? then 1 else 0)
    && w.ch.sent + w.ch.dropped + w.noMemory == w.completed
    && w.badNode == 0
  }

  lemma SlotsDiffer(a: nat, b: nat)
    requires a < b < a + SLOTS
    ensures a % SLOTS != b % SLOTS
  {
  }

  lemma NextSlot(n: nat)
    ensures Advance(n % SLOTS) == (n + 1) % SLOTS
  {
  }

  lemma ProduceKeeps(w: World)
    requires Inv(w)
    ensures Inv(ProduceStep(w))
  {
    match w.p {
      case PReadHead(msg, t) => ReadHeadKeeps(w, msg, t);
      case PCopy(msg, t, i) =>
        if i < BYTES {
          CopyByte(w, msg, t, i);
        } else {
          CopyDone(w, msg, t, i);
        }
      case PPublish(msg, t) => PublishKeeps(w, msg, t);
      case _ => PlainStepKeeps(w);
    }
  }

  lemma ReadHeadKeeps(w: World, msg: Message, t: nat)
    requires Inv(w) && w.p == PReadHead(msg, t)
    ensures Inv(ProduceStep(w))
  {
    NextSlot(|w.published|);
  }

  lemma PlainStepKeeps(w: World)
    requires Inv(w) && !w.p.PReadHead? && !w.p.PCopy? && !w.p.PPublish?
    ensures Inv(ProduceStep(w))
  {
  }

  lemma CopyDone(w: World, msg: Message, t: nat, i: nat)
    requires Inv(w) && w.p == PCopy(msg, t, i) && i >= BYTES
    ensures Inv(ProduceStep(w))
  {
    assert msg[..i] == msg && w.ch.nodes[t].message[..i] == w.ch.nodes[t].message;
  }

  lemma PublishKeeps(w: World, msg: Message, t: nat)
    requires Inv(w) && w.p == PPublish(msg, t)
    ensures Inv(ProduceStep(w))
  {
    NextSlot(|w.published|);
    assert (w.published + [msg])[..|w.delivered|] == w.published[..|w.delivered|];
  }

  lemma CopyByte(w: World, msg: Message, t: nat, i: nat)
    requires Inv(w) && w.p == PCopy(msg, t, i) && i < BYTES
    ensures Inv(ProduceStep(w))
  {
    var n, k := |w.published|, |w.delivered|;
    var nodes' := WriteByte(w.ch.nodes, t, i, msg[i]);
    forall j | k <= j < n
      ensures nodes'[j % SLOTS] == w.ch.nodes[j % SLOTS]
    {
      SlotsDiffer(j, n);
    }
    assert nodes'[t].message[..i + 1] == msg[..i + 1];
  }

  lemma ConsumeKeeps(w: World)
    requires Inv(w)
    ensures Inv(ConsumeStep(w))
  {
    var n, k := |w.published|, |w.delivered|;
    match w.c {
      case CAdvance(h, buffer) =>
        NextSlot(k);
        assert w.published[..k + 1] == w.published[..k] + [w.published[k]];
      case CCopy(h, buffer) =>
        if |buffer| < BYTES {
          assert w.published[k][..|buffer| + 1] == w.published[k][..|buffer|] + [w.published[k][|buffer|]];
        } else {
          assert w.published[k][..BYTES] == w.published[k];
        }
      case _ =>
    }
  }

  lemma NextKeeps(w: World, s: Step)
    requires Inv(w)
    ensures Inv(Next(w, s))
  {
    match s {
      case Produce => ProduceKeeps(w);
      case Consume => ConsumeKeeps(w);
      case _ =>
    }
  }

  /** Every interleaving of a channel's life keeps the invariant. */
  lemma {:induction false} RunKeeps(w: World, steps: seq<Step>)
    requires Inv(w)
    ensures Inv(Run(w, steps))
    decreases |steps|
  {
    if steps != [] {
      NextKeeps(w, steps[0]);
      RunKeeps(Next(w, steps[0]), steps[1..]);
    }
  }

  lemma CreatedInv(nodes: Nodes, now: nat)
    ensures Inv(Created(nodes, now))
  {
  }

  /** Over every interleaving, what the receiver got is a prefix of what was published, in
      order and unaltered; the two parties are never copying to and from the same slot; no
      receive meets a missing node. */
  lemma FirstInFirstOut(nodes: Nodes, now: nat, steps: seq<Step>)
    ensures var w := Run(Created(nodes, now), steps);
      && w.delivered <= w.published
      && (w.p.PCopy? && (w.c.CCopy? || w.c.CCheck? || w.c.CAdvance?) ==> w.p.t != w.c.h)
      && (w.c.CCheck? ==> w.c.h < SLOTS && w.ch.nodes[w.c.h].good)
      && w.badNode == 0
  {
    var w := Run(Created(nodes, now), steps);
    CreatedInv(nodes, now);
    RunKeeps(Created(nodes, now), steps);
    if w.p.PCopy? && |w.delivered| < |w.published| {
      SlotsDiffer(|w.delivered|, |w.published|);
    }
  }

  function Occupancy(ch: Channel): nat {
    (ch.tail - ch.head) % SLOTS
  }

  /** At every point of every interleaving the ring holds as many messages as were sent
      and not received, up to a publication and an acknowledgement not yet counted, and
      never more than 1023; every completed send was counted as sent, dropped or refused
      for a missing node. */
  lemma CountersAgree(nodes: Nodes, now: nat, steps: seq<Step>)
    ensures var w := Run(Created(nodes, now), steps);
      && Occupancy(w.ch) == w.ch.sent - w.ch.received
           + (if w.p.PCount? then 1 else 0) - (if w.c.CCount? then 1 else 0)
      && Occupancy(w.ch) <= 1023
      && w.ch.sent + w.ch.dropped + w.noMemory == w.completed
  {
    var w := Run(Created(nodes, now), steps);
    CreatedInv(nodes, now);
    RunKeeps(Created(nodes, now), steps);
    ModDifference(|w.delivered|, |w.published|);
  }

  lemma ModDifference(k: nat, n: nat)
    requires k <= n < k + SLOTS
    ensures (n % SLOTS - k % SLOTS) % SLOTS == n - k
  {
  }

  /** A producer that is not past the node check. */
  predicate NotCopying(p: Producer) {
    !p.PCopy? && !p.PPublish?
  }

  lemma NextKeepsStuck(w: World, s: Step)
    requires Inv(w) && !w.ch.nodes[w.ch.tail].good && NotCopying(w.p)
    ensures var w' := Next(w, s);
      w'.ch.tail == w.ch.tail && w'.ch.nodes == w.ch.nodes && w'.published == w.published && NotCopying(w'.p)
  {
  }

  /** Once the tail stands at a slot whose node is missing, no message is ever published
      again: a single allocation failure at creation eventually closes the channel. */
  lemma {:induction false} MissingNodeClosesChannel(w: World, steps: seq<Step>)
    requires Inv(w) && !w.ch.nodes[w.ch.tail].good && NotCopying(w.p)
    ensures Run(w, steps).published == w.published && Run(w, steps).ch.tail == w.ch.tail
    decreases |steps|
  {
    if steps != [] {
      NextKeeps(w, steps[0]);
      NextKeepsStuck(w, steps[0]);
      MissingNodeClosesChannel(Next(w, steps[0]), steps[1..]);
    }
  }
}
