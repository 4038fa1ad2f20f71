/** Whole calls on a channel: sending and receiving as a queue, the channel as the object
    those calls update in place, and their agreement with the atomic steps. */
module IpcCalls {
  import opened IpcRing

  datatype Status = Success | Busy | Overflow | NoMemory | NotFound | Failure

  datatype Sent = Sent(ch: Channel, status: Status)
  datatype Got = Got(ch: Channel, status: Status, messages: seq<Message>)

  /** A send that nothing interrupts. */
  function SendCall(ch: Channel, msg: Message, now: nat): Sent
    requires ch.tail < SLOTS
  {
    var a := Admit(ch.quota, now);
    var ch1 := ch.(quota := a.quota);
    if !a.passed then Sent(ch1.(dropped := ch.dropped + 1), Busy)
    else if Advance(ch.tail) == ch.head then Sent(ch1.(dropped := ch.dropped + 1), Overflow)
    else if !ch.nodes[ch.tail].good then Sent(ch1, NoMemory)
    else Sent(ch1.(nodes := ch.nodes[ch.tail := Node(true, msg)], tail := Advance(ch.tail), sent := ch.sent + 1), Success)
  }

  /** A receive that nothing interrupts; `messages` holds what it returned, if anything. */
  function ReceiveCall(ch: Channel): Got
    requires ch.head < SLOTS
  {
    if ch.head == ch.tail then Got(ch, NotFound, [])
    else if !ch.nodes[ch.head].good then Got(ch, Failure, [])
    else Got(ch.(head := Advance(ch.head), received := ch.received + 1), Success, [ch.nodes[ch.head].message])
  }

  function ContentsFrom(nodes: Nodes, h: nat, n: nat): (s: seq<Message>)
    requires h < SLOTS
    ensures |s| == n
    decreases n
  {
    if n == 0 then [] else [nodes[h].message] + ContentsFrom(nodes, Advance(h), n - 1)
  }

  /** The messages waiting in the channel, oldest first. */
  function Contents(ch: Channel): seq<Message>
    requires ch.head < SLOTS
  {
    ContentsFrom(ch.nodes, ch.head, Occupancy(ch))
  }

  predicate GoodFrom(nodes: Nodes, h: nat, n: nat)
    requires h < SLOTS
    decreases n
  {
    n == 0 || (nodes[h].good && GoodFrom(nodes, Advance(h), n - 1))
  }

  /** Head and tail are slots, and every waiting message has its node. */
  predicate Ok(ch: Channel) {
    ch.head < SLOTS && ch.tail < SLOTS && GoodFrom(ch.nodes, ch.head, Occupancy(ch))
  }

  lemma {:induction false} Append(nodes: Nodes, h: nat, n: nat, t: nat, msg: Message)
    requires h < SLOTS && n < SLOTS && t == (h + n) % SLOTS && GoodFrom(nodes, h, n)
    ensures ContentsFrom(nodes[t := Node(true, msg)], h, n + 1) == ContentsFrom(nodes, h, n) + [msg]
    ensures GoodFrom(nodes[t := Node(true, msg)], h, n + 1)
    decreases n
  {
    var nodes' := nodes[t := Node(true, msg)];
    if n == 0 {
      assert ContentsFrom(nodes', h, 1) == [msg] + ContentsFrom(nodes', Advance(h), 0);
    } else {
      var h' := Advance(h);
      StepSlot(h, n);
      Append(nodes, h', n - 1, t, msg);
      AppendBehind(nodes, nodes', h, h', n, msg);
    }
  }

  lemma AppendBehind(nodes: Nodes, nodes': Nodes, h: nat, h': nat, n: nat, msg: Message)
    requires h < SLOTS && h' == Advance(h) && n > 0 && nodes'[h] == nodes[h] && GoodFrom(nodes, h, n)
    requires ContentsFrom(nodes', h', n) == ContentsFrom(nodes, h', n - 1) + [msg] && GoodFrom(nodes', h', n)
    ensures ContentsFrom(nodes', h, n + 1) == ContentsFrom(nodes, h, n) + [msg] && GoodFrom(nodes', h, n + 1)
  {
    assert ContentsFrom(nodes', h, n + 1) == [nodes[h].message] + ContentsFrom(nodes', h', n);
  }

  lemma StepSlot(h: nat, n: nat)
    requires h < SLOTS && 0 < n < SLOTS
    ensures (Advance(h) + (n - 1)) % SLOTS == (h + n) % SLOTS != h
  {
  }

  lemma RingArithmetic(h: nat, t: nat)
    requires h < SLOTS && t < SLOTS
    ensures var n := (t - h) % SLOTS;
      && (h + n) % SLOTS == t
      && (Advance(t) == h <==> n == SLOTS - 1)
      && (Advance(t) != h ==> (Advance(t) - h) % SLOTS == n + 1)
      && (h == t <==> n == 0)
      && (h != t ==> (t - Advance(h)) % SLOTS == n - 1)
  {
    Wrapped(t - h);
    Wrapped(h + (t - h) % SLOTS);
    Wrapped(t + 1);
    Wrapped(h + 1);
    Wrapped(Advance(t) - h);
    Wrapped(t - Advance(h));
  }

  lemma Wrapped(x: int)
    requires 0 < x + SLOTS && x < 2 * SLOTS
    ensures x % SLOTS == if x < 0 then x + SLOTS else if x < SLOTS then x else x - SLOTS
  {
  }

  /** A send appends its message at the back exactly when it reports success; otherwise
      nothing in the queue changes. It succeeds exactly when the limiter lets it pass, fewer
      than 1023 messages wait and the node at the tail exists. Sends and drops are counted. */
  lemma SendAppends(ch: Channel, msg: Message, now: nat)
    requires Ok(ch)
    ensures var s := SendCall(ch, msg, now);
      && Ok(s.ch)
      && Contents(s.ch) == (if s.status == Success then Contents(ch) + [msg] else Contents(ch))
      && (s.status == Busy <==> !Admit(ch.quota, now).passed)
      && (s.status == Overflow <==> Admit(ch.quota, now).passed && |Contents(ch)| == 1023)
      && (s.status == Success <==> Admit(ch.quota, now).passed && |Contents(ch)| < 1023 && ch.nodes[ch.tail].good)
      && s.status in {Success, Busy, Overflow, NoMemory}
      && s.ch.sent == ch.sent + (if s.status == Success then 1 else 0)
      && s.ch.dropped == ch.dropped + (if s.status == Busy || s.status == Overflow then 1 else 0)
  {
    var s, n := SendCall(ch, msg, now), Occupancy(ch);
    RingArithmetic(ch.head, ch.tail);
    if s.status == Success {
      Append(ch.nodes, ch.head, n, ch.tail, msg);
      assert Occupancy(s.ch) == n + 1;
    }
  }

  lemma SendKeeps(ch: Channel, msg: Message, now: nat, s: Sent)
    requires Ok(ch) && s == SendCall(ch, msg, now)
    ensures Ok(s.ch) && Contents(s.ch) == if s.status == Success then Contents(ch) + [msg] else Contents(ch)
  {
    SendAppends(ch, msg, now);
  }

  /** A receive takes the oldest message, and finds none exactly when the queue is empty;
      a missing node is never met. */
  lemma ReceiveTakesFirst(ch: Channel)
    requires Ok(ch)
    ensures var g := ReceiveCall(ch);
      && Ok(g.ch)
      && (g.status == NotFound <==> Contents(ch) == [])
      && g.status != Failure
      && g.messages + Contents(g.ch) == Contents(ch)
      && |g.messages| == (if Contents(ch) == [] then 0 else 1)
      && (g.status == Success <==> Contents(ch) != [])
      && g.ch.received == ch.received + |g.messages|
  {
    RingArithmetic(ch.head, ch.tail);
  }

  // ---------------------------------------------------------------- agreement with the steps

  function ProduceN(w: World, n: nat): World
    decreases n, w
  {
    if n == 0 then w else ProduceN(ProduceStep(w), n - 1)
  }

  lemma {:induction false} ProduceIdle(w: World, n: nat)
    requires w.p == PIdle
    ensures ProduceN(w, n) == w
  {
    if n > 0 {
      ProduceIdle(w, n - 1);
    }
  }

  lemma {:induction false} CopyAll(w: World, msg: Message, t: nat, i: nat, n: nat)
    requires w.p == PCopy(msg, t, i) && t < SLOTS && i <= BYTES
    requires w.ch.nodes[t].good && w.ch.nodes[t].message[..i] == msg[..i] && n >= BYTES - i
    ensures ProduceN(w, n) == ProduceN(
      w.(ch := w.ch.(nodes := w.ch.nodes[t := Node(true, msg)]), p := PCopy(msg, t, BYTES)), n - (BYTES - i))
    decreases BYTES - i
  {
    if i == BYTES {
      assert w.ch.nodes[t].message == w.ch.nodes[t].message[..i] == msg[..i] == msg;
      assert w.ch.nodes[t := Node(true, msg)] == w.ch.nodes;
    } else {
      var w1 := ProduceStep(w);
      var m := w.ch.nodes[t].message;
      assert m[i := msg[i]][..i + 1] == m[..i] + [msg[i]] == msg[..i + 1];
      CopyAll(w1, msg, t, i + 1, n - 1);
      assert w1.ch.nodes[t := Node(true, msg)] == w.ch.nodes[t := Node(true, msg)];
    }
  }

  /** Run alone from start to finish, the atomic steps of a send make exactly the state
      change of the whole call. */
  lemma SoloSend(w: World, msg: Message, now: nat)
    requires w.p == PIdle && w.ch.tail < SLOTS
    ensures var w' := ProduceN(Next(w, IpcRing.Send(msg, now)), BYTES + 6);
      w'.p == PIdle && w'.ch == SendCall(w.ch, msg, now).ch
  {
    var w1 := Next(w, IpcRing.Send(msg, now));
    if w1.p.PDrop? {
      ProduceIdle(ProduceStep(w1), BYTES + 5);
    } else {
      var w2 := ProduceStep(w1);
      var w3 := ProduceStep(w2);
      assert ProduceN(w1, BYTES + 6) == ProduceN(w2, BYTES + 5);
      assert ProduceN(w2, BYTES + 5) == ProduceN(w3, BYTES + 4);
      assert ProduceN(w3, BYTES + 4) == ProduceN(ProduceStep(w3), BYTES + 3);
      if w3.p.PDrop? {
        ProduceIdle(ProduceStep(w3), BYTES + 3);
      } else {
        var w4 := ProduceStep(w3);
        if w4.p.PIdle? {
          ProduceIdle(w4, BYTES + 3);
        } else {
          SoloCopy(w4, msg, w.ch.tail, BYTES + 3);
        }
      }
    }
  }

  /** A send that has copied, published and counted. */
  function SendDone(w: World, msg: Message, t: nat): World
    requires t < SLOTS
  {
    w.(ch := w.ch.(nodes := w.ch.nodes[t := Node(true, msg)], tail := Advance(t), sent := w.ch.sent + 1),
       p := PIdle, published := w.published + [msg], completed := w.completed + 1)
  }

  lemma SoloCopy(w: World, msg: Message, t: nat, n: nat)
    requires w.p == PCopy(msg, t, 0) && t < SLOTS && w.ch.nodes[t].good && n == BYTES + 3
    ensures ProduceN(w, n) == SendDone(w, msg, t)
  {
    var copied := w.(ch := w.ch.(nodes := w.ch.nodes[t := Node(true, msg)]), p := PCopy(msg, t, BYTES));
    CopyAll(w, msg, t, 0, n);
    SoloPublish(copied, msg, t);
    CopiedThenPublished(w, copied, msg, t);
  }

  lemma CopiedThenPublished(w: World, copied: World, msg: Message, t: nat)
    requires w.p == PCopy(msg, t, 0) && t < SLOTS
    requires copied == w.(ch := w.ch.(nodes := w.ch.nodes[t := Node(true, msg)]), p := PCopy(msg, t, BYTES))
    ensures copied.(
        ch := copied.ch.(tail := Advance(t), sent := copied.ch.sent + 1),
        p := PIdle, published := copied.published + [msg], completed := copied.completed + 1)
      == SendDone(w, msg, t)
  {
  }

  lemma SoloPublish(w: World, msg: Message, t: nat)
    requires w.p == PCopy(msg, t, BYTES) && t < SLOTS && w.ch.nodes[t].good
    ensures ProduceN(w, 3) == w.(
      ch := w.ch.(tail := Advance(t), sent := w.ch.sent + 1),
      p := PIdle, published := w.published + [msg], completed := w.completed + 1)
  {
    var w1 := ProduceStep(w);
    var w2 := ProduceStep(w1);
    assert ProduceN(w, 3) == ProduceN(w1, 2);
    assert ProduceN(w1, 2) == ProduceN(w2, 1);
    assert ProduceN(w2, 1) == ProduceStep(w2);
  }

  lemma ReachCopy(w: World, msg: Message)
    requires w.ch.tail < SLOTS && w.ch.nodes[w.ch.tail].good && Advance(w.ch.tail) != w.ch.head
    ensures ProduceN(w.(p := PReadTail(msg)), 3) == w.(p := PCopy(msg, w.ch.tail, 0))
  {
    var w0 := w.(p := PReadTail(msg));
    assert ProduceN(w0, 3) == ProduceN(ProduceStep(w0), 2);
    assert ProduceN(ProduceStep(w0), 2) == ProduceN(ProduceStep(ProduceStep(w0)), 1);
  }

  function ConsumeN(w: World, n: nat): World
    decreases n, w
  {
    if n == 0 then w else ConsumeN(ConsumeStep(w), n - 1)
  }

  lemma {:induction false} ConsumeIdle(w: World, n: nat)
    requires w.c == CIdle
    ensures ConsumeN(w, n) == w
  {
    if n > 0 {
      ConsumeIdle(w, n - 1);
    }
  }

  lemma {:induction false} CopyOut(w: World, h: nat, buffer: seq<nat>, n: nat)
    requires w.c == CCopy(h, buffer) && h < SLOTS && |buffer| <= BYTES && buffer == w.ch.nodes[h].message[..|buffer|]
    requires n >= BYTES - |buffer|
    ensures ConsumeN(w, n) == ConsumeN(w.(c := CCopy(h, w.ch.nodes[h].message)), n - (BYTES - |buffer|))
    decreases BYTES - |buffer|
  {
    var m := w.ch.nodes[h].message;
    if |buffer| == BYTES {
      assert m[..BYTES] == m;
    } else {
      assert buffer + [m[|buffer|]] == m[..|buffer| + 1];
      CopyOut(ConsumeStep(w), h, buffer + [m[|buffer|]], n - 1);
    }
  }

  /** The steps after a complete copy. */
  lemma SoloAcknowledge(w: World, h: nat, m: Message)
    requires w.c == CCopy(h, m)
    ensures ConsumeN(w, 3) == w.(
      ch := w.ch.(head := Advance(h), received := w.ch.received + 1), c := CIdle, delivered := w.delivered + [m])
  {
    var w1 := ConsumeStep(w);
    var w2 := ConsumeStep(w1);
    assert ConsumeN(w, 3) == ConsumeN(w1, 2);
    assert ConsumeN(w1, 2) == ConsumeN(w2, 1);
    assert ConsumeN(w2, 1) == ConsumeStep(w2);
  }

  lemma SoloTake(w: World, h: nat, m: Message)
    requires w.c == CCopy(h, []) && h < SLOTS && m == w.ch.nodes[h].message
    ensures ConsumeN(w, BYTES + 3) == w.(
      ch := w.ch.(head := Advance(h), received := w.ch.received + 1), c := CIdle, delivered := w.delivered + [m])
  {
    CopyOut(w, h, [], BYTES + 3);
    SoloAcknowledge(w.(c := CCopy(h, m)), h, m);
  }

  /** Likewise for a receive: its atomic steps carried out alone make the state change of the
      whole call and deliver what it returns. */
  lemma SoloReceive(w: World)
    requires w.c == CIdle && w.ch.head < SLOTS
    ensures var w' := ConsumeN(Next(w, IpcRing.Receive), BYTES + 5);
      w'.c == CIdle && w'.ch == ReceiveCall(w.ch).ch && w'.delivered == w.delivered + ReceiveCall(w.ch).messages
  {
    var w1 := Next(w, IpcRing.Receive);
    var w2 := ConsumeStep(w1);
    assert ConsumeN(w1, BYTES + 5) == ConsumeN(w2, BYTES + 4);
    if w2.c.CIdle? {
      ConsumeIdle(w2, BYTES + 4);
    } else {
      var w3 := ConsumeStep(w2);
      assert ConsumeN(w2, BYTES + 4) == ConsumeN(w3, BYTES + 3);
      if w3.c.CIdle? {
        ConsumeIdle(w3, BYTES + 3);
      } else {
        SoloTake(w3, w.ch.head, w.ch.nodes[w.ch.head].message);
      }
    }
  }

  // ---------------------------------------------------------------- the channel object

  class IpcChannel {
    var head: nat
    var tail: nat
    var nodes: Nodes
    var sent: nat
    var received: nat
    var dropped: nat
    var quota: Quota

    function State(): Channel
      reads this
    {
      Channel(head, tail, nodes, sent, received, dropped, quota)
    }

    /** A new channel is empty, whichever of its node allocations succeeded. */
    constructor (obtained: seq<bool>, now: nat)
      requires |obtained| == SLOTS
      ensures State() == Created(nodes, now).ch && Ok(State()) && Contents(State()) == []
      ensures forall i :: 0 <= i < SLOTS ==> nodes[i].good == obtained[i]
    {
      var blank: Message := seq(BYTES, _ => 0);
      var slots: seq<Node> := [];
      for i := 0 to SLOTS
        invariant |slots| == i && forall j :: 0 <= j < i ==> slots[j].good == obtained[j]
      {
        slots := slots + [Node(obtained[i], blank)];
      }
      head, tail, nodes := 0, 0, slots;
      sent, received, dropped := 0, 0, 0;
      quota := Quota(DEFAULT_LIMIT, FIRST_QUOTA, now + WINDOW);
    }

    method Send(msg: Message, now: nat) returns (status: Status)
      requires Ok(State())
      modifies this
      ensures Sent(State(), status) == SendCall(old(State()), msg, now)
      ensures Ok(State())
      ensures Contents(State()) == if status == Success then old(Contents(State())) + [msg] else old(Contents(State()))
    {
      SendKeeps(State(), msg, now, SendCall(State(), msg, now));
      if now >= quota.reset {
        quota := Quota(quota.limit, quota.limit, now + WINDOW);
      }
      if quota.remaining == 0 {
        dropped := dropped + 1;
        return Busy;
      }
      quota := quota.(remaining := quota.remaining - 1);
      var t := tail;
      var next := Advance(t);
      if next == head {
        dropped := dropped + 1;
        return Overflow;
      }
      if !nodes[t].good {
        return NoMemory;
      }
      CopyIn(t, msg);
      tail := next;
      sent := sent + 1;
      return Success;
    }

    /** Copies a message into slot `t` byte by byte. */
    method CopyIn(t: nat, msg: Message)
      requires t < SLOTS && nodes[t].good
      modifies this`nodes
      ensures nodes == old(nodes)[t := Node(true, msg)]
    {
      var i := 0;
      while i < BYTES
        invariant i <= BYTES && nodes[t].good && nodes == old(nodes)[t := nodes[t]]
        invariant nodes[t].message[..i] == msg[..i]
      {
        nodes := WriteByte(nodes, t, i, msg[i]);
        i := i + 1;
      }
      assert nodes[t].message == nodes[t].message[..BYTES] == msg[..BYTES] == msg;
    }

    /** Sets the limit of the windows to come; what is left of the current one stays. */
    method SetRateLimit(limit: nat)
      modifies this`quota
      ensures State() == old(State()).(quota := Quota(limit, old(quota.remaining), old(quota.reset)))
    {
      quota := quota.(limit := limit);
    }

    method Receive() returns (status: Status, messages: seq<Message>)
      requires Ok(State())
      modifies this`head, this`received
      ensures Got(State(), status, messages) == ReceiveCall(old(State()))
      ensures Ok(State()) && messages + Contents(State()) == old(Contents(State()))
      ensures status == NotFound <==> old(Contents(State())) == []
    {
      ReceiveTakesFirst(State());
      var h := head;
      if h == tail {
        return NotFound, [];
      }
      if !nodes[h].good {
        return Failure, [];
      }
      messages := [nodes[h].message];
      head := Advance(h);
      received := received + 1;
      status := Success;
    }
  }
}
