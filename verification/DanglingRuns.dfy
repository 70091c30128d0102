/** Runs of the broker that leave a dangling segment: after an acknowledgement, after a failed write, and in the queue of
    another client (src/broker/mqtt_fsm.h, src/broker/loop.h). */
module DanglingRuns {
  import opened Common
  import opened Inflight
  import Publish
  import opened Shared
  import opened Egress
  import opened Flush
  import opened Ceremony
  import Qos2
  import opened Stream
  import opened Dangling
  import opened Broker
  import opened BrokerInv
  import opened FanoutSteps
  import R = Runs
  import opened MessageBytes
  import opened Orphans
  import opened Reuse
  import Acks
  import Connection
  import Packet
  import Conservation
  import FatalWrite
  import DanglingSteps

  // ---- one PUBLISH, delivered to one or two idle subscribers ----

  lemma {:induction false} FanIdle(f: Fan, m: u32, qos: byte, node: map<int, byte>, a: nat)
    requires AllShaped(f.b.clients) && forall j :: a <= j < |f.b.clients| ==> j !in node || j in f.sent
    ensures FanNode(f, m, qos, node, a) == f
    decreases |f.b.clients| - a
  {
    hide Shaped, StartDelivery;
    if a < |f.b.clients| {
      FanIdle(f, m, qos, node, a + 1);
    }
  }

  lemma {:induction false} FanTo(f: Fan, m: u32, qos: byte, node: map<int, byte>, a: nat, c: nat)
    requires AllShaped(f.b.clients) && a <= c <= |f.b.clients| && forall j :: a <= j < c ==> j !in node
    ensures FanNode(f, m, qos, node, a) == FanNode(f, m, qos, node, c)
    decreases c - a
  {
    hide Shaped, StartDelivery;
    if a < c {
      FanTo(f, m, qos, node, a + 1, c);
    }
  }

  /** The state after the delivery to slot i. */
  function Served(b: Broker, i: nat, m: u32, qos: byte): Broker
    requires i < |b.clients| && Shaped(b.clients[i].slots)
  {
    Put(b, i, StartDelivery(At(b, i), m, qos).site)
  }

  lemma ServedShapes(b: Broker, i: nat, m: u32, qos: byte)
    requires i < |b.clients| && AllShaped(b.clients)
    ensures AllShaped(Served(b, i, m, qos).clients) && |Served(b, i, m, qos).clients| == |b.clients|
    ensures Served(b, i, m, qos) == b.(p := Served(b, i, m, qos).p, clients := Served(b, i, m, qos).clients)
    ensures forall j :: 0 <= j < |b.clients| && j != i ==> Served(b, i, m, qos).clients[j] == b.clients[j]
  {
    hide StartDelivery, Shaped;
    DeliveryShape(At(b, i), m, qos);
  }

  ghost predicate Subscriber(b: Broker, i: nat, node: map<int, byte>) {
    i < |b.clients| && i in node && b.clients[i].state == Active && b.clients[i].generation == node[i]
  }

  lemma FanOne(b: Broker, m: u32, qos: byte, node: map<int, byte>, i: nat)
    requires AllShaped(b.clients) && node.Keys == {i} && Subscriber(b, i, node)
    ensures FanNode(Fan(b, {}, []), m, qos, node, 0) == Fan(Served(b, i, m, qos), {i}, [i])
  {
    hide Shaped, StartDelivery;
    FanTo(Fan(b, {}, []), m, qos, node, 0, i);
    ServedShapes(b, i, m, qos);
    DeliveryShape(At(b, i), m, qos);
    FanIdle(Fan(Served(b, i, m, qos), {} + {i}, [] + [i]), m, qos, node, i + 1);
    assert {} + {i} == {i} && [] + [i] == [i];
  }

  lemma FanTwo(b: Broker, m: u32, qos: byte, node: map<int, byte>, i: nat, j: nat)
    requires AllShaped(b.clients) && i < j && node.Keys == {i, j} && Subscriber(b, i, node) && Subscriber(b, j, node)
    ensures AllShaped(Served(b, i, m, qos).clients) && |Served(b, i, m, qos).clients| == |b.clients|
    ensures FanNode(Fan(b, {}, []), m, qos, node, 0) == Fan(Served(Served(b, i, m, qos), j, m, qos), {i, j}, [i, j])
  {
    hide Shaped, StartDelivery;
    FanTo(Fan(b, {}, []), m, qos, node, 0, i);
    ServedShapes(b, i, m, qos);
    DeliveryShape(At(b, i), m, qos);
    var f := Fan(Served(b, i, m, qos), {} + {i}, [] + [i]);
    FanTo(f, m, qos, node, i + 1, j);
    ServedShapes(f.b, j, m, qos);
    DeliveryShape(At(f.b, j), m, qos);
    var g := Fan(Served(f.b, j, m, qos), f.sent + {j}, f.started + [j]);
    FanIdle(g, m, qos, node, j + 1);
    assert g.sent == {i, j} && g.started == [i, j];
  }

  /** A client with nothing queued, written or in flight. */
  ghost predicate Idle(c: Client) {
    && Shaped(c.slots) && Consistent(c.slots) && c.slots.count == 0 && c.state == Active && c.queue == [] && !c.writing && c.capacity >= 2
  }

  /** Client i can publish pub with QoS 1 to the subscribers of node k, and the pools have what that takes. */
  ghost predicate Publishable(b: Broker, i: nat, k: nat, pub: Incoming) {
    && i < |b.clients| && b.clients[i].state == Active && !b.clients[i].recvPending && k < |b.nodes|
    && AllShaped(b.clients) && |b.p.msgs| < INVALID && |b.p.bufs| < INVALID && Distinct(b.p.msgFree)
    && (forall x :: 0 <= x < |b.p.msgFree| ==> b.p.msgFree[x] < |b.p.msgs|)
    && pub.qos == 1 && pub.topicLen > 0 && InBuffer(b, i, pub) && b.p.msgFree != [] && b.p.bufFree != [] && b.p.now >= 0
  }

  /** The pools after the adoption: the message lies in the publisher's buffer and has one owner. */
  lemma Adopted(b: Broker, i: nat, k: nat, pub: Incoming)
    requires Publishable(b, i, k, pub)
    ensures var m := DanglingSteps.TakenBy(b); var r := Adopt(b, i, m, pub);
            && Noted(b, i, pub) == b && m != INVALID && m < |r.p.msgs| && m !in r.p.msgFree && r.nodes == b.nodes
            && r.p.msgs[m] == Msg(b.clients[i].recvBuf, pub.topicOff, pub.topicLen, pub.payloadOff, pub.payloadLen, 1, pub.retain, 1)
            && Placed(r.p, m) && 0 < WireLen(r.p.msgs[m], 1) < 0x100_0000 && r.p.now == b.p.now && r.p.sqRoom == b.p.sqRoom && r.p.bufs == b.p.bufs
            && AllShaped(r.clients) && |r.clients| == |b.clients| && r == b.(p := r.p, clients := r.clients)
            && forall j :: 0 <= j < |b.clients| ==> r.clients[j] == b.clients[j].(recvBuf := r.clients[j].recvBuf)
  {
    hide Shaped;
    var m := DanglingSteps.TakenBy(b);
    var r := Adopt(b, i, m, pub);
    assert b.clients[i := b.clients[i].(slots := b.clients[i].slots)] == b.clients;
    assert b.p.msgFree == r.p.msgFree + [m];
    Packet.VbiSize(Publish.Remaining(pub.topicLen, pub.payloadLen, 1));
  }

  /** The PUBLISH up to the release of the base reference. */
  lemma PublishIs(b: Broker, i: nat, k: nat, pub: Incoming, f: Fan)
    requires Publishable(b, i, k, pub) && f == FanNode(Fan(Adopt(b, i, DanglingSteps.TakenBy(b), pub), {}, []), DanglingSteps.TakenBy(b), 1, b.nodes[k], 0)
    requires AllShaped(Adopt(b, i, DanglingSteps.TakenBy(b), pub).clients) && AllShaped(f.b.clients)
    ensures R.Shapes(b) && R.Possible(b, R.Publish(i, pub, [b.nodes[k]]))
    ensures R.Step(b, R.Publish(i, pub, [b.nodes[k]])) == f.b.(p := DropBase(f.b.p, DanglingSteps.TakenBy(b), b.clients[i].recvBuf))
  {
    hide FanNode, Shaped, DropBase;
    Adopted(b, i, k, pub);
    var m := DanglingSteps.TakenBy(b);
    var matches := [b.nodes[k]];
    assert matches[1..] == [];
    assert matches[0] in b.nodes;
    assert FanOut(Fan(Adopt(b, i, m, pub), {}, []), m, 1, matches) == FanOut(f, m, 1, []) == f;
  }

  /** A waiting client: one first send of m in flight, written but not completed, and its entry. */
  ghost predicate Waits(p: Pools, c: Client, m: u32, slot: nat, id: u16, since: int) {
    && SentTo(Site(p, c), m, slot, id) && |c.queue| == 1 && FirstOf(p, c.queue[0], m, id, c.generation) && id != 0
    && OnlyEntry(c.slots, slot) && c.slots.cold[slot] == Cold(since + Qos2.INFLIGHT_TIMEOUT_MS, 1, 0) && c.batch == 1 && c.capacity >= 2
  }

  /** The same in other pools that still hold the message. */
  lemma WaitsStill(p: Pools, q: Pools, c: Client, m: u32, slot: nat, id: u16, since: int)
    requires Waits(p, c, m, slot, id, since) && q.bufs == p.bufs && |q.msgs| == |p.msgs| && q.msgs[m].(refCount := 0) == p.msgs[m].(refCount := 0)
    requires m !in q.msgFree
    ensures Waits(q, c, m, slot, id, since)
  {
    hide Consistent, LoadWireLen, WireLen, Shaped;
    StillPlaced(p, q, m);
    Connection.SameMsgLength(p.msgs[m], q.msgs[m]);
  }

  /** A delivery of QoS 1 to an idle client. */
  lemma ServeIdle(b: Broker, i: nat, m: u32) returns (slot: nat, id: u16)
    requires i < |b.clients| && Idle(b.clients[i]) && b.p.sqRoom > 0
    requires Placed(b.p, m) && m != INVALID && 0 < b.p.msgs[m].refCount < 0xFFFF_FFFF && m !in b.p.msgFree && WireLen(b.p.msgs[m], 1) < 0x1_0000_0000
    ensures var r := Served(b, i, m, 1);
            && i < |r.clients| && r.p == TakenOnce(b.p, m) && Waits(r.p, r.clients[i], m, slot, id, b.p.now)
            && r.clients[i].generation == b.clients[i].generation && r.clients[i].fd == b.clients[i].fd
  {
    hide Consistent, LoadWireLen, WireLen, StartDelivery, FirstOf, OnlyEntry, Shaped, TakenOnce;
    slot, id := FirstSend(At(b, i), m);
    FirstStays(b.p, m, StartDelivery(At(b, i), m, 1).site.c.queue[0], id, b.clients[i].generation);
  }

  lemma FirstStays(p: Pools, m: u32, seg: Seg, id: u16, generation: byte)
    requires FirstOf(p, seg, m, id, generation) && p.msgs[m].refCount < 0xFFFF_FFFF && p.sqRoom > 0
    ensures FirstOf(TakenOnce(p, m), seg, m, id, generation)
  {
    hide LoadWireLen, WireLen;
    Connection.SameMsgLength(p.msgs[m], TakenOnce(p, m).msgs[m]);
  }

  // ---- one client ----

  /** Client i, alone subscribed at node k, can publish to itself. */
  ghost predicate Loner(b: Broker, i: nat, k: nat, pub: Incoming) {
    && Publishable(b, i, k, pub) && Idle(b.clients[i]) && b.p.sqRoom > 0 && b.nodes[k] == map[i := b.clients[i].generation]
  }

  /** The client waits for the acknowledgement of a message that its entry alone owns, and whose buffer is x. */
  ghost predicate Alone(b: Broker, i: nat, m: u32, slot: nat, id: u16, since: int, x: u32) {
    && i < |b.clients| && Waits(b.p, b.clients[i], m, slot, id, since)
    && b.p.msgs[m].refCount == 1 && b.p.msgs[m].bufIdx == x != INVALID && b.p.msgs[m].topicLen > 0
  }

  lemma LonerPublishes(b: Broker, i: nat, k: nat, pub: Incoming) returns (slot: nat, id: u16)
    requires Loner(b, i, k, pub)
    ensures R.Shapes(b) && R.Possible(b, R.Publish(i, pub, [b.nodes[k]]))
    ensures var r := R.Step(b, R.Publish(i, pub, [b.nodes[k]]));
            && Alone(r, i, DanglingSteps.TakenBy(b), slot, id, b.p.now, b.clients[i].recvBuf)
            && r == b.(p := r.p, clients := r.clients) && |r.clients| == |b.clients|
  {
    hide StartDelivery, Consistent, LoadWireLen, WireLen, Shaped, FanNode, Waits, Adopt, Served;
    var m := DanglingSteps.TakenBy(b);
    Adopted(b, i, k, pub);
    var b2 := Adopt(b, i, m, pub);
    FanOne(b2, m, 1, b.nodes[k], i);
    ServedShapes(b2, i, m, 1);
    slot, id := ServeIdle(b2, i, m);
    PublishIs(b, i, k, pub, FanNode(Fan(b2, {}, []), m, 1, b.nodes[k], 0));
    BaseDropped(b2.p, Served(b2, i, m, 1).clients[i], m, slot, id, b.p.now, b.clients[i].recvBuf);
  }

  lemma BaseDropped(p: Pools, c: Client, m: u32, slot: nat, id: u16, since: int, x: u32)
    requires m < |p.msgs| && p.msgs[m].refCount == 1 && p.sqRoom > 0 && p.msgs[m].bufIdx == x && p.msgs[m].topicLen > 0
    requires Waits(TakenOnce(p, m), c, m, slot, id, since)
    ensures var q := DropBase(TakenOnce(p, m), m, x);
            q == TakenOnce(p, m).(msgs := q.msgs) && |q.msgs| == |p.msgs| && q.msgs[m] == p.msgs[m] && Waits(q, c, m, slot, id, since)
  {
    hide Waits;
    var q := DropBase(TakenOnce(p, m), m, x);
    NotFree(TakenOnce(p, m), c, m, slot, id, since);
    WaitsStill(TakenOnce(p, m), q, c, m, slot, id, since);
  }

  lemma NotFree(p: Pools, c: Client, m: u32, slot: nat, id: u16, since: int)
    requires Waits(p, c, m, slot, id, since)
    ensures m !in p.msgFree && m != INVALID && m < |p.msgs| && p.msgs[m].bufIdx < |p.bufs| && slot < |c.slots.hot| && Shaped(c.slots)
  {
    hide Consistent, FirstOf;
  }

  // ---- the timeout sweep finds the one entry ----

  lemma {:induction false} SweepTo(s: Site, i: nat, slot: nat)
    requires Shaped(s.c.slots) && i <= slot < |s.c.slots.hot| && s.c.slots.count == 1 && forall t :: i <= t < slot ==> s.c.slots.hot[t].state == Free
    ensures Sweep(s, i, 0) == Sweep(s, slot, 0)
    decreases slot - i
  {
    hide Timeout, Shaped;
    if i < slot {
      SweepTo(s, i + 1, slot);
    }
  }

  /** A client that waits, past its deadline and with its ring not full: the sweep queues the retransmission. */
  lemma SweepRetries(s: Site, m: u32, slot: nat, id: u16, since: int)
    requires Waits(s.p, s.c, m, slot, id, since) && since >= 0 && s.p.now > since + Qos2.INFLIGHT_TIMEOUT_MS
    ensures var r := SweepClient(s);
            && r.p == s.p && r.c == s.c.(slots := r.c.slots, queue := [s.c.queue[0], RetryOf(s, slot)])
            && SentTo(r, m, slot, id) && RetryOf(s, slot).packetId == id && RetryOf(s, slot).qos == 1
  {
    hide Consistent, LoadWireLen, FirstOf, WireLenBytes, Timeout;
    SweepTo(s, 0, slot);
    RetryQueued(s, m, slot, id);
    var r := Timeout(s, slot);
    assert s.c.queue == [s.c.queue[0]];
    assert Sweep(r, slot + 1, 1) == r;
  }

  // ---- the run that leaves a buffer to be used again ----

  /** PUBLISH, a clock past the deadline, timeout sweep, PUBACK: the message is freed, both queued segments name it, and its
      buffer is the next one that the pool hands out. */
  lemma ReusableIsReachable(b: Broker, i: nat, k: nat, pub: Incoming, later: int, room: nat) returns (es: seq<R.Event>)
    requires Loner(b, i, k, pub) && later > b.p.now + Qos2.INFLIGHT_TIMEOUT_MS
    requires Inv(b)
    ensures R.Feasible(b, es) && Reusable(R.Run(b, es), i, 0) && Reusable(R.Run(b, es), i, 1)
    ensures var r := R.Run(b, es); r == b.(p := r.p, clients := r.clients) && |r.clients| == |b.clients|
  {
    hide Inv, Loner, Alone, R.Feasible, R.Run, Reusable, PublishReceived, SweepClient, PubackReceived, Waits;
    LonerFacts(b, i, k, pub);
    var e1, e2, e3 := R.Publish(i, pub, [b.nodes[k]]), R.Tick(later, room), R.TimeoutSweep(i);
    var m, x := DanglingSteps.TakenBy(b), b.clients[i].recvBuf;
    var slot, id := LonerPublishes(b, i, k, pub);
    R.StepKeeps(b, e1);
    var b1 := R.Step(b, e1);
    R.StepKeeps(b1, e2);
    var b2 := R.Step(b1, e2);
    Ticked(b1, b2, i, m, slot, id, b.p.now, x);
    R.StepKeeps(b2, e3);
    var b3 := R.Step(b2, e3);
    var e4 := R.Puback(i, id);
    LastAck(b2, b3, i, m, slot, id, b.p.now, x);
    R.StepKeeps(b3, e4);
    NoMore(R.Step(b3, e4));
    OneMore(b3, e4, []);
    OneMore(b2, e3, [e4] + []);
    OneMore(b1, e2, [e3] + ([e4] + []));
    es := [e1] + ([e2] + ([e3] + ([e4] + [])));
    OneMore(b, e1, [e2] + ([e3] + ([e4] + [])));
  }

  lemma LonerFacts(b: Broker, i: nat, k: nat, pub: Incoming)
    requires Loner(b, i, k, pub)
    ensures i < |b.clients| && k < |b.nodes| && b.p.msgFree != [] && b.p.now >= 0
  {
  }

  lemma Ticked(b: Broker, r: Broker, i: nat, m: u32, slot: nat, id: u16, since: int, x: u32)
    requires Alone(b, i, m, slot, id, since, x) && r == b.(p := b.p.(now := r.p.now, sqRoom := r.p.sqRoom))
    ensures i < |r.clients| && Alone(r, i, m, slot, id, since, x)
  {
    hide Waits;
    NotFree(b.p, b.clients[i], m, slot, id, since);
    WaitsStill(b.p, r.p, b.clients[i], m, slot, id, since);
  }

  lemma LastAck(b: Broker, r: Broker, i: nat, m: u32, slot: nat, id: u16, since: int, x: u32)
    requires Alone(b, i, m, slot, id, since, x) && Shaped(b.clients[i].slots) && r == Put(b, i, SweepClient(At(b, i)))
    requires since >= 0 && b.p.now > since + Qos2.INFLIGHT_TIMEOUT_MS
    ensures i < |r.clients| && r.clients[i].state == Active && Shaped(r.clients[i].slots)
    ensures var t := Put(r, i, PubackReceived(At(r, i), id)); Reusable(t, i, 0) && Reusable(t, i, 1)
  {
    hide Consistent, LoadWireLen, WireLen, SweepClient, PubackReceived, OnlyEntry, Ready, WireLenBytes;
    SweepRetries(At(b, i), m, slot, id, since);
    AckFrees(At(r, i), m, slot, id);
    AckPools(At(r, i), m, slot, id, x);
    var q := PubackReceived(At(r, i), id).p;
    Freed(b.p, q, m);
    FirstReady(b.p, q, b.clients[i].queue[0], m, id, b.clients[i].generation);
    RetryReady(At(b, i), q, m, slot, id);
  }

  /** What is left of a freed message: everything but the count. */
  lemma Freed(p: Pools, q: Pools, m: u32)
    requires q == Release(p, m)
    ensures q.bufs == p.bufs && q.sqRoom == p.sqRoom && |q.msgs| == |p.msgs| && (m < |p.msgs| ==> q.msgs[m].(refCount := 0) == p.msgs[m].(refCount := 0))
  {
  }

  lemma AckPools(s: Site, m: u32, slot: nat, id: u16, x: u32)
    requires SentTo(s, m, slot, id) && s.p.msgs[m].refCount == 1 && s.p.msgs[m].bufIdx == x != INVALID
    ensures var r := PubackReceived(s, id); r.p == Release(s.p, m) && r.c == s.c.(slots := r.c.slots)
    ensures Release(s.p, m).bufFree == s.p.bufFree + [x]
  {
    hide Consistent;
    assert Acks.Awaits(s.c, id, WaitPuback, slot);
    Acks.AwaitingIff(s.c, id, WaitPuback, slot);
  }

  lemma FirstReady(p: Pools, q: Pools, seg: Seg, m: u32, id: u16, generation: byte)
    requires FirstOf(p, seg, m, id, generation) && Placed(p, m) && id != 0
    requires q.bufs == p.bufs && |q.msgs| == |p.msgs| && q.msgs[m].(refCount := 0) == p.msgs[m].(refCount := 0)
    ensures Ready(q, seg)
  {
    hide LoadWireLen, WireLen;
    StillPlaced(p, q, m);
    Connection.SameMsgLength(p.msgs[m], q.msgs[m]);
  }

  lemma RetryReady(s: Site, q: Pools, m: u32, slot: nat, id: u16)
    requires slot < |s.c.slots.hot| && slot < |s.c.slots.cold| && s.c.slots.hot[slot].msgIdx == m && s.c.slots.cold[slot].qos == 1
    requires Placed(s.p, m) && 0 < WireLen(s.p.msgs[m], 1) < 0x1_0000_0000 && s.c.slots.hot[slot].packetId == id != 0
    requires q.bufs == s.p.bufs && |q.msgs| == |s.p.msgs| && q.msgs[m].(refCount := 0) == s.p.msgs[m].(refCount := 0)
    ensures Ready(q, RetryOf(s, slot))
  {
    hide LoadWireLen, WireLen, StoreWireLen;
    StillPlaced(s.p, q, m);
    Connection.SameMsgLength(s.p.msgs[m], q.msgs[m]);
    LengthStored(RetryOf(s, slot), s.p.msgs[m]);
  }

  // ---- a failed write, without any acknowledgement ----

  /** The retransmission is queued behind a first send in flight, and the write fails: the walk gives up the entry's reference,
      which was the last, and the flush that follows hands the freed message's bytes to the kernel. */
  lemma FailedWriteDangles(s: Site, m: u32, slot: nat, id: u16, since: int, res: int)
    requires Waits(s.p, s.c, m, slot, id, since) && s.p.msgs[m].refCount == 1 && since >= 0 && s.p.now > since + Qos2.INFLIGHT_TIMEOUT_MS
    requires s.p.sqRoom > 0 && WireLen(s.p.msgs[m], 1) < 0x1_0000_0000 && res <= 0 && res != -EAGAIN && res != -EINTR
    ensures Shaped(s.c.slots) && Shaped(SweepClient(s).c.slots)
    ensures var f := EgressCqe(SweepClient(s), s.c.generation, s.c.fd, res);
            && f.code == Submitted && f.site.c.queue == [RetryOf(s, slot)] && Dangles(f.site.p, f.site.c.queue[0])
            && f.site.c.writing && f.site.c.batch == 1
  {
    hide Consistent, LoadWireLen, WireLen, SweepClient, Settle, EgressFlush, FirstOf, OnlyEntry, WireLenBytes, Release;
    SweepRetries(s, m, slot, id, since);
    var r := SweepClient(s);
    FirstIs(s.p, s.c.queue[0], m, id, s.c.generation);
    FailsFirst(r, m, slot, id, res);
    RetryJoins(s, m, slot, id, since);
    var q := Release(s.p, m);
    Freed(s.p, q, m);
    RetryFlushes(Settle(r, res), RetryOf(s, slot));
  }

  lemma FirstIs(p: Pools, seg: Seg, m: u32, id: u16, generation: byte)
    requires FirstOf(p, seg, m, id, generation)
    ensures FatalWrite.SentFirst(seg) && seg.packetId == id
  {
  }

  lemma FailsFirst(s: Site, m: u32, slot: nat, id: u16, res: int)
    requires SentTo(s, m, slot, id) && s.c.batch == 1 && |s.c.queue| == 2 && FatalWrite.SentFirst(s.c.queue[0]) && s.c.queue[0].packetId == id
    requires res <= 0 && res != -EAGAIN && res != -EINTR && s.p.msgs[m].refCount == 1
    ensures Shaped(s.c.slots)
    ensures var t := Settle(s, res);
            && t.p == Release(s.p, m) && t.c == s.c.(writing := false, slots := t.c.slots, queue := [s.c.queue[1]]) && !Live(t.p, m)
  {
    hide NonFree;
    assert EntryOk(s.c.slots.hot, slot);
    assert FindDirect(s.c.slots.hot, id) == slot;
    var s1 := s.(c := s.c.(writing := false));
    assert s.c.queue[1..] == [s.c.queue[1]];
    assert Fail(s1, 1) == Fail(FailHead(s1), 0) == FailHead(s1);
  }

  lemma RetryJoins(s: Site, m: u32, slot: nat, id: u16, since: int)
    requires Waits(s.p, s.c, m, slot, id, since) && WireLen(s.p.msgs[m], 1) < 0x1_0000_0000
    ensures slot < |s.c.slots.hot| && slot < |s.c.slots.cold|
    ensures var seg := RetryOf(s, slot);
            && Names(seg, m) && seg.slotGen == s.c.generation && seg.cursor == 0 && LoadWireLen(seg) != 0 && !NeedsId(seg)
            && m < |s.p.msgs| && s.p.msgs[m].bufIdx < |s.p.bufs|
  {
    hide Consistent, LoadWireLen, WireLen, FirstOf, OnlyEntry, StoreWireLen;
    LengthStored(RetryOf(s, slot), s.p.msgs[m]);
  }

  lemma RetryFlushes(s: Site, seg: Seg)
    requires Shaped(s.c.slots) && s.c.queue == [seg] && s.c.state == Active && !s.c.writing && s.p.sqRoom > 0
    requires seg.kind == SEG_PUBLISH && seg.slotGen == s.c.generation && seg.cursor == 0 && LoadWireLen(seg) != 0 && !NeedsId(seg)
    requires seg.msgIdx < |s.p.msgs| && s.p.msgs[seg.msgIdx].bufIdx < |s.p.bufs|
    ensures var f := EgressFlush(s);
            f.code == Submitted && f.site == Site(s.p.(sqRoom := s.p.sqRoom - 1), s.c.(writing := true, batch := 1))
  {
    hide LoadWireLen, Shaped, Offer;
    SendableStays(s);
    assert Joins(s.p, s.c, 0);
    assert Gather(s.p, s.c, 0) == Gather(s.p, s.c, 1) == Batch(s.c, 1);
  }

  /** As a run of the broker: PUBLISH, a clock past the deadline, timeout sweep, failed write. */
  lemma FailedWriteRun(b: Broker, i: nat, k: nat, pub: Incoming, later: int, room: nat, res: int) returns (es: seq<R.Event>)
    requires Loner(b, i, k, pub) && later > b.p.now + Qos2.INFLIGHT_TIMEOUT_MS && room > 0 && res <= 0 && res != -EAGAIN && res != -EINTR
    requires Inv(b)
    ensures R.Feasible(b, es)
    ensures var r := R.Run(b, es);
            && i < |r.clients| && |r.clients[i].queue| == 1 && Dangles(r.p, r.clients[i].queue[0]) && r.clients[i].writing && r.clients[i].batch == 1
  {
    hide Inv, Loner, Alone, R.Feasible, R.Run, PublishReceived, SweepClient, EgressCqe, Waits;
    LonerFacts(b, i, k, pub);
    var m, x := DanglingSteps.TakenBy(b), b.clients[i].recvBuf;
    var e1, e2, e3 := R.Publish(i, pub, [b.nodes[k]]), R.Tick(later, room), R.TimeoutSweep(i);
    var slot, id := LonerPublishes(b, i, k, pub);
    R.StepKeeps(b, e1);
    var b1 := R.Step(b, e1);
    LonerLength(b, i, k, pub);
    R.StepKeeps(b1, e2);
    var b2 := R.Step(b1, e2);
    Ticked(b1, b2, i, m, slot, id, b.p.now, x);
    R.StepKeeps(b2, e3);
    var b3 := R.Step(b2, e3);
    var e4 := R.WritevCqe(i, b2.clients[i].generation, b2.clients[i].fd, res);
    LastFailure(b2, b3, i, m, slot, id, b.p.now, x, res);
    R.StepKeeps(b3, e4);
    NoMore(R.Step(b3, e4));
    OneMore(b3, e4, []);
    OneMore(b2, e3, [e4] + []);
    OneMore(b1, e2, [e3] + ([e4] + []));
    es := [e1] + ([e2] + ([e3] + ([e4] + [])));
    OneMore(b, e1, [e2] + ([e3] + ([e4] + [])));
  }

  lemma LonerLength(b: Broker, i: nat, k: nat, pub: Incoming)
    requires Loner(b, i, k, pub) && R.Shapes(b) && R.Possible(b, R.Publish(i, pub, [b.nodes[k]]))
    ensures var m := DanglingSteps.TakenBy(b); var r := R.Step(b, R.Publish(i, pub, [b.nodes[k]]));
            m < |r.p.msgs| && WireLen(r.p.msgs[m], 1) < 0x1_0000_0000
  {
    hide StartDelivery, Consistent, LoadWireLen, WireLen, Shaped, FanNode, Waits, Adopt, Served;
    var m := DanglingSteps.TakenBy(b);
    Adopted(b, i, k, pub);
    var b2 := Adopt(b, i, m, pub);
    FanOne(b2, m, 1, b.nodes[k], i);
    ServedShapes(b2, i, m, 1);
    var slot, id := ServeIdle(b2, i, m);
    PublishIs(b, i, k, pub, FanNode(Fan(b2, {}, []), m, 1, b.nodes[k], 0));
    BaseDropped(b2.p, Served(b2, i, m, 1).clients[i], m, slot, id, b.p.now, b.clients[i].recvBuf);
  }

  lemma LastFailure(b: Broker, r: Broker, i: nat, m: u32, slot: nat, id: u16, since: int, x: u32, res: int)
    requires Alone(b, i, m, slot, id, since, x) && Shaped(b.clients[i].slots) && r == Put(b, i, SweepClient(At(b, i)))
    requires since >= 0 && b.p.now > since + Qos2.INFLIGHT_TIMEOUT_MS && b.p.sqRoom > 0 && WireLen(b.p.msgs[m], 1) < 0x1_0000_0000
    requires res <= 0 && res != -EAGAIN && res != -EINTR
    ensures i < |r.clients| && Shaped(r.clients[i].slots) && r.clients[i].writing
    ensures var s := EgressCqe(At(r, i), b.clients[i].generation, b.clients[i].fd, res).site;
            |s.c.queue| == 1 && Dangles(s.p, s.c.queue[0]) && s.c.writing && s.c.batch == 1
  {
    hide Consistent, LoadWireLen, WireLen, SweepClient, EgressCqe, OnlyEntry, Waits, Dangles;
    NotFree(b.p, b.clients[i], m, slot, id, since);
    WaitsWriting(b.p, b.clients[i], m, slot, id, since);
    SweepRetries(At(b, i), m, slot, id, since);
    FailedWriteDangles(At(b, i), m, slot, id, since, res);
  }

  lemma WaitsWriting(p: Pools, c: Client, m: u32, slot: nat, id: u16, since: int)
    requires Waits(p, c, m, slot, id, since)
    ensures c.writing && c.queue != [] && c.state == Active
  {
    hide Consistent, FirstOf;
  }

  // ---- two clients ----

  /** Clients i and j, and nobody else, are subscribed at node k. */
  ghost predicate Pair(b: Broker, i: nat, j: nat, k: nat, pub: Incoming) {
    && Publishable(b, i, k, pub) && i < j < |b.clients| && Idle(b.clients[i]) && Idle(b.clients[j]) && b.p.sqRoom >= 2
    && b.nodes[k] == map[i := b.clients[i].generation, j := b.clients[j].generation]
  }

  /** Both wait for the acknowledgement of the same message, whose references are theirs. */
  ghost predicate BothWait(b: Broker, i: nat, j: nat, m: u32, si: nat, idi: u16, sj: nat, idj: u16, since: int) {
    && i < j < |b.clients| && Waits(b.p, b.clients[i], m, si, idi, since) && Waits(b.p, b.clients[j], m, sj, idj, since)
    && b.p.msgs[m].refCount == 2 && 0 < WireLen(b.p.msgs[m], 1) < 0x100_0000
  }

  lemma PairPublishes(b: Broker, i: nat, j: nat, k: nat, pub: Incoming) returns (si: nat, idi: u16, sj: nat, idj: u16)
    requires Pair(b, i, j, k, pub)
    ensures R.Shapes(b) && R.Possible(b, R.Publish(i, pub, [b.nodes[k]]))
    ensures BothWait(R.Step(b, R.Publish(i, pub, [b.nodes[k]])), i, j, DanglingSteps.TakenBy(b), si, idi, sj, idj, b.p.now)
  {
    hide StartDelivery, Consistent, LoadWireLen, WireLen, Shaped, FanNode, Waits, Adopt, Served;
    var m := DanglingSteps.TakenBy(b);
    Adopted(b, i, k, pub);
    var b2 := Adopt(b, i, m, pub);
    FanTwo(b2, m, 1, b.nodes[k], i, j);
    ServedShapes(b2, i, m, 1);
    var b3 := Served(b2, i, m, 1);
    ServedShapes(b3, j, m, 1);
    var b4 := Served(b3, j, m, 1);
    si, idi := ServeIdle(b2, i, m);
    TakenPlaced(b2.p, m);
    sj, idj := ServeIdle(b3, j, m);
    PublishIs(b, i, k, pub, FanNode(Fan(b2, {}, []), m, 1, b.nodes[k], 0));
    PairDropped(b3.p, b4.clients[i], b4.clients[j], m, si, idi, sj, idj, b.p.now, b.clients[i].recvBuf);
  }

  lemma TakenPlaced(p: Pools, m: u32)
    requires Placed(p, m) && p.msgs[m].refCount < 0xFFFF_FFFF && p.sqRoom > 0
    ensures var q := TakenOnce(p, m); Placed(q, m) && q.msgs[m] == p.msgs[m].(refCount := p.msgs[m].refCount + 1) && q.sqRoom == p.sqRoom - 1
    ensures var q := TakenOnce(p, m); WireLen(q.msgs[m], 1) == WireLen(p.msgs[m], 1) && q.msgFree == p.msgFree && q.now == p.now
  {
    hide WireLen;
    Connection.SameMsgLength(p.msgs[m], TakenOnce(p, m).msgs[m]);
  }

  lemma PairDropped(p: Pools, c: Client, d: Client, m: u32, si: nat, idi: u16, sj: nat, idj: u16, since: int, x: u32)
    requires m < |p.msgs| && p.msgs[m].refCount == 2 && p.sqRoom > 0 && 0 < WireLen(p.msgs[m], 1) < 0x100_0000
    requires Waits(p, c, m, si, idi, since) && Waits(TakenOnce(p, m), d, m, sj, idj, since)
    ensures var q := DropBase(TakenOnce(p, m), m, x);
            && |q.msgs| == |p.msgs| && q.msgs[m].refCount == 2 && Waits(q, c, m, si, idi, since) && Waits(q, d, m, sj, idj, since)
            && 0 < WireLen(q.msgs[m], 1) < 0x100_0000
  {
    hide Waits, WireLen;
    var q := DropBase(TakenOnce(p, m), m, x);
    NotFree(TakenOnce(p, m), d, m, sj, idj, since);
    WaitsStill(p, q, c, m, si, idi, since);
    WaitsStill(TakenOnce(p, m), q, d, m, sj, idj, since);
    Connection.SameMsgLength(p.msgs[m], q.msgs[m]);
  }

  /** A write that takes all of the one segment in flight. */
  lemma WriteDone(s: Site, m: u32, slot: nat, id: u16, since: int)
    requires Waits(s.p, s.c, m, slot, id, since)
    ensures Shaped(s.c.slots) && m < |s.p.msgs|
    ensures 0 < WireLen(s.p.msgs[m], 1) < 0x100_0000 ==>
              EgressCqe(s, s.c.generation, s.c.fd, WireLen(s.p.msgs[m], 1)).site == Site(s.p, s.c.(writing := false, queue := []))
  {
    hide Consistent, LoadWireLen, WireLen, OnlyEntry;
    var n := WireLen(s.p.msgs[m], 1);
    if 0 < n < 0x100_0000 {
      var s1 := s.(c := s.c.(writing := false));
      assert Sub32(SegLen(s.c.queue[0]), s.c.queue[0].cursor) == n;
      assert s.c.queue[1..] == [];
      assert Complete(s1, 1, n) == Complete(CompleteHead(s1), 0, 0) == CompleteHead(s1);
    }
  }

  /** The entry of a client whose write is done. */
  ghost predicate Owes(p: Pools, c: Client, m: u32, slot: nat, id: u16) {
    && Shaped(c.slots) && Consistent(c.slots) && slot < |c.slots.hot| && c.slots.hot[slot] == Hot(id, WaitPuback, OUTGOING, m)
    && c.state == Active && c.queue == [] && !c.writing && m < |p.msgs| && m !in p.msgFree
  }

  lemma DoneEntry(p: Pools, c: Client, m: u32, slot: nat, id: u16, since: int)
    requires Waits(p, c, m, slot, id, since)
    ensures Owes(p, c.(writing := false, queue := []), m, slot, id)
  {
    hide Consistent, FirstOf;
  }

  /** PUBACK for an entry, whatever is queued and as long as nothing can be flushed: the reference goes. */
  lemma AckReleases(s: Site, m: u32, slot: nat, id: u16)
    requires Consistent(s.c.slots) && Shaped(s.c.slots) && slot < |s.c.slots.hot| && s.c.slots.hot[slot] == Hot(id, WaitPuback, OUTGOING, m)
    requires s.c.queue == [] || s.c.writing
    ensures var r := PubackReceived(s, id); r.p == Release(s.p, m) && r.c == s.c.(slots := r.c.slots)
  {
    hide Consistent, Release;
    assert Acks.Awaits(s.c, id, WaitPuback, slot);
    Acks.AwaitingIff(s.c, id, WaitPuback, slot);
  }

  /** PUBLISH to both; the write to i completes; the deadline passes and j's retransmission is queued behind its write; PUBACK
      from j, which frees nothing; PUBACK from i, whose queue is empty: the message is freed, and what j has queued names it. */
  lemma OtherClientDangles(b: Broker, i: nat, j: nat, k: nat, pub: Incoming, later: int, room: nat) returns (es: seq<R.Event>, last: R.Event)
    requires Pair(b, i, j, k, pub) && later > b.p.now + Qos2.INFLIGHT_TIMEOUT_MS
    requires Inv(b)
    ensures R.Feasible(b, es)
    ensures var r := R.Run(b, es);
            && R.Shapes(r) && R.Possible(r, last) && last.Puback? && last.i == i && i < |r.clients| && j < |r.clients| && j != i
            && r.clients[i].queue == [] && NoneDangles(r.p, r.clients[j].queue)
            && var t := R.Step(r, last);
               && i < |t.clients| && j < |t.clients| && t.clients[i].queue == []
               && |t.clients[j].queue| == 2 && forall x :: 0 <= x < 2 ==> Dangles(t.p, t.clients[j].queue[x])
  {
    hide Inv, Pair, BothWait, R.Feasible, R.Run, PublishReceived, SweepClient, PubackReceived, EgressCqe, Waits, NoneDangles, Dangles, After4, After5;
    PairFacts(b, i, j, k, pub);
    var m := DanglingSteps.TakenBy(b);
    var e1 := R.Publish(i, pub, [b.nodes[k]]);
    var si, idi, sj, idj := PairPublishes(b, i, j, k, pub);
    R.StepKeeps(b, e1);
    var b1 := R.Step(b, e1);
    BothFacts(b1, i, j, m, si, idi, sj, idj, b.p.now);
    var e2 := R.WritevCqe(i, b1.clients[i].generation, b1.clients[i].fd, WireLen(b1.p.msgs[m], 1));
    R.StepKeeps(b1, e2);
    var b2 := R.Step(b1, e2);
    var e3 := R.Tick(later, room);
    R.StepKeeps(b2, e3);
    var b3 := R.Step(b2, e3);
    SecondTicked(b1, b2, b3, i, j, m, si, idi, sj, idj, b.p.now);
    var e4 := R.TimeoutSweep(j);
    R.StepKeeps(b3, e4);
    var b4 := R.Step(b3, e4);
    ThirdSwept(b3, b4, i, j, m, si, idi, sj, idj, b.p.now);
    var e5 := R.Puback(j, idj);
    R.StepKeeps(b4, e5);
    var b5 := R.Step(b4, e5);
    FourthAcked(b4, b5, i, j, m, si, idi, sj, idj);
    last := R.Puback(i, idi);
    R.StepKeeps(b5, last);
    LastAcked(b5, R.Step(b5, last), i, j, m, si, idi);
    NoMore(b5);
    OneMore(b4, e5, []);
    OneMore(b3, e4, [e5] + []);
    OneMore(b2, e3, [e4] + ([e5] + []));
    OneMore(b1, e2, [e3] + ([e4] + ([e5] + [])));
    es := [e1] + ([e2] + ([e3] + ([e4] + ([e5] + []))));
    OneMore(b, e1, [e2] + ([e3] + ([e4] + ([e5] + []))));
  }

  lemma PairFacts(b: Broker, i: nat, j: nat, k: nat, pub: Incoming)
    requires Pair(b, i, j, k, pub)
    ensures i < j < |b.clients| && k < |b.nodes| && b.p.msgFree != [] && b.p.now >= 0
  {
  }

  lemma BothFacts(b: Broker, i: nat, j: nat, m: u32, si: nat, idi: u16, sj: nat, idj: u16, since: int)
    requires BothWait(b, i, j, m, si, idi, sj, idj, since)
    ensures i < j < |b.clients| && m < |b.p.msgs| && 0 < WireLen(b.p.msgs[m], 1) < 0x100_0000 && b.clients[i].writing && b.clients[j].writing
  {
    hide Waits, WireLen;
    NotFree(b.p, b.clients[i], m, si, idi, since);
    WaitsWriting(b.p, b.clients[i], m, si, idi, since);
    WaitsWriting(b.p, b.clients[j], m, sj, idj, since);
  }

  /** i's write is done, j waits past its deadline. */
  ghost predicate After3(b: Broker, i: nat, j: nat, m: u32, si: nat, idi: u16, sj: nat, idj: u16, since: int) {
    && i < j < |b.clients| && Owes(b.p, b.clients[i], m, si, idi) && Waits(b.p, b.clients[j], m, sj, idj, since) && b.p.msgs[m].refCount == 2
  }

  lemma SecondTicked(b: Broker, r: Broker, t: Broker, i: nat, j: nat, m: u32, si: nat, idi: u16, sj: nat, idj: u16, since: int)
    requires BothWait(b, i, j, m, si, idi, sj, idj, since) && Shaped(b.clients[i].slots) && m < |b.p.msgs|
    requires r == Put(b, i, EgressCqe(At(b, i), b.clients[i].generation, b.clients[i].fd, WireLen(b.p.msgs[m], 1)).site)
    requires t == r.(p := r.p.(now := t.p.now, sqRoom := t.p.sqRoom))
    ensures After3(t, i, j, m, si, idi, sj, idj, since)
  {
    hide Waits, WireLen, EgressCqe, Consistent, Shaped;
    WriteDone(At(b, i), m, si, idi, since);
    DoneEntry(b.p, b.clients[i], m, si, idi, since);
    NotFree(b.p, b.clients[j], m, sj, idj, since);
    WaitsStill(b.p, t.p, b.clients[j], m, sj, idj, since);
  }

  /** Both segments of j name the message, and j's entry waits. */
  ghost predicate After4(b: Broker, i: nat, j: nat, m: u32, si: nat, idi: u16, sj: nat, idj: u16) {
    && i < j < |b.clients| && Owes(b.p, b.clients[i], m, si, idi) && b.p.msgs[m].refCount == 2
    && SentTo(At(b, j), m, sj, idj) && |b.clients[j].queue| == 2
  }

  lemma ThirdSwept(b: Broker, r: Broker, i: nat, j: nat, m: u32, si: nat, idi: u16, sj: nat, idj: u16, since: int)
    requires After3(b, i, j, m, si, idi, sj, idj, since) && Shaped(b.clients[j].slots) && r == Put(b, j, SweepClient(At(b, j)))
    requires since >= 0 && b.p.now > since + Qos2.INFLIGHT_TIMEOUT_MS
    ensures After4(r, i, j, m, si, idi, sj, idj) && r.clients[j].state == Active
  {
    hide Waits, SweepClient, Consistent, Shaped, SentTo;
    SweepRetries(At(b, j), m, sj, idj, since);
    SentActive(At(r, j), m, sj, idj);
  }

  lemma SentActive(s: Site, m: u32, slot: nat, id: u16)
    requires SentTo(s, m, slot, id)
    ensures s.c.state == Active && m < |s.p.msgs| && m != INVALID && m !in s.p.msgFree
  {
    hide Consistent;
  }

  /** j's entry is gone, its queue is as it was, and i's entry alone owns the message. */
  ghost predicate After5(b: Broker, i: nat, j: nat, m: u32, si: nat, idi: u16) {
    && i < j < |b.clients| && Owes(b.p, b.clients[i], m, si, idi) && b.p.msgs[m].refCount == 1 && m != INVALID
    && |b.clients[j].queue| == 2 && forall k :: 0 <= k < 2 ==> Names(b.clients[j].queue[k], m)
  }

  lemma FourthAcked(b: Broker, r: Broker, i: nat, j: nat, m: u32, si: nat, idi: u16, sj: nat, idj: u16)
    requires After4(b, i, j, m, si, idi, sj, idj) && Shaped(b.clients[j].slots) && r == Put(b, j, PubackReceived(At(b, j), idj))
    ensures After5(r, i, j, m, si, idi) && r.clients[i].queue == [] && NoneDangles(r.p, r.clients[j].queue) && r.clients[i].state == Active
  {
    hide PubackReceived, Consistent;
    AckReleases(At(b, j), m, sj, idj);
  }

  lemma LastAcked(b: Broker, r: Broker, i: nat, j: nat, m: u32, si: nat, idi: u16)
    requires After5(b, i, j, m, si, idi) && Shaped(b.clients[i].slots) && r == Put(b, i, PubackReceived(At(b, i), idi))
    ensures i < |r.clients| && j < |r.clients| && r.clients[i].queue == [] && |r.clients[j].queue| == 2
    ensures forall x :: 0 <= x < 2 ==> Dangles(r.p, r.clients[j].queue[x])
  {
    hide PubackReceived, Consistent;
    AckReleases(At(b, i), m, si, idi);
  }

  // ---- such states from the start ----

  /** After broker_init, accepts and subscriptions: a client alone at a node, and two clients at one. */
  lemma LonerFromInit(n: nat, maxInflight: nat, capacity: nat, msgCount: nat, maxFds: nat, nodeCount: nat, bufSize: nat, pub: Incoming)
    returns (es: seq<R.Event>)
    requires 2 <= n <= MAX_CLIENTS && ValidMax(maxInflight) && 2 <= capacity <= Conservation.MAX_EGRESS && 0 < msgCount < INVALID
    requires maxFds > 0 && nodeCount > 0 && bufSize <= BUF_SIZE && pub.qos == 1 && pub.topicLen > 0
    requires pub.topicOff + pub.topicLen <= bufSize && pub.payloadOff + pub.payloadLen <= bufSize
    ensures var b := R.Init(n, maxInflight, capacity, msgCount, maxFds, nodeCount, bufSize);
            && Inv(b) && R.Feasible(b, es) && Loner(R.Run(b, es), 0, 0, pub)
            && var r := R.Run(b, es);
               && r.freeHead == 1 < |r.clients| && |r.fdToSlot| == maxFds && r.recvs == {}
               && forall fd :: 1 <= fd < maxFds ==> r.fdToSlot[fd] == -1
  {
    hide Inv, R.Feasible, R.Run, Loner;
    var b := R.Init(n, maxInflight, capacity, msgCount, maxFds, nodeCount, bufSize);
    R.InitHolds(n, maxInflight, capacity, msgCount, maxFds, nodeCount, bufSize);
    var e1, e2, e3 := R.Accept(0), R.Tick(0, 1), R.SubscribeAt(0, 0);
    R.StepKeeps(b, e1);
    var b1 := R.Step(b, e1);
    R.StepKeeps(b1, e2);
    var b2 := R.Step(b1, e2);
    R.StepKeeps(b2, e3);
    var b3 := R.Step(b2, e3);
    LonerThere(n, maxInflight, capacity, msgCount, maxFds, nodeCount, bufSize, pub);
    NoMore(b3);
    OneMore(b2, e3, []);
    OneMore(b1, e2, [e3] + []);
    es := [e1] + ([e2] + ([e3] + []));
    OneMore(b, e1, [e2] + ([e3] + []));
  }

  /** The same three steps, read off. */
  lemma LonerThere(n: nat, maxInflight: nat, capacity: nat, msgCount: nat, maxFds: nat, nodeCount: nat, bufSize: nat, pub: Incoming)
    requires 2 <= n <= MAX_CLIENTS && ValidMax(maxInflight) && 2 <= capacity && 0 < msgCount < INVALID && maxFds > 0 && nodeCount > 0
    requires bufSize <= BUF_SIZE && pub.qos == 1 && pub.topicLen > 0
    requires pub.topicOff + pub.topicLen <= bufSize && pub.payloadOff + pub.payloadLen <= bufSize
    ensures var b := R.Init(n, maxInflight, capacity, msgCount, maxFds, nodeCount, bufSize);
            var b1 := AllocSlot(b, 0).b;
            var b2 := b1.(p := b1.p.(now := 0, sqRoom := 1));
            && 0 < |b2.clients| && 0 < |b2.nodes| && Loner(Subscribe(b2, 0, 0), 0, 0, pub)
            && b1.freeHead == 1 < |b1.clients| && |b1.fdToSlot| == maxFds && b1.recvs == {}
            && forall fd :: 1 <= fd < maxFds ==> b1.fdToSlot[fd] == -1
  {
    hide EntryOk, NonFree;
    BlankIsFree(maxInflight);
  }

  lemma PairFromInit(n: nat, maxInflight: nat, capacity: nat, msgCount: nat, maxFds: nat, nodeCount: nat, bufSize: nat, pub: Incoming)
    returns (es: seq<R.Event>)
    requires 3 <= n <= MAX_CLIENTS && ValidMax(maxInflight) && 2 <= capacity <= Conservation.MAX_EGRESS && 0 < msgCount < INVALID
    requires maxFds >= 2 && nodeCount > 0 && bufSize <= BUF_SIZE && pub.qos == 1 && pub.topicLen > 0
    requires pub.topicOff + pub.topicLen <= bufSize && pub.payloadOff + pub.payloadLen <= bufSize
    ensures var b := R.Init(n, maxInflight, capacity, msgCount, maxFds, nodeCount, bufSize);
            Inv(b) && R.Feasible(b, es) && Pair(R.Run(b, es), 0, 1, 0, pub)
  {
    hide Inv, R.Feasible, R.Run, Pair;
    var b := R.Init(n, maxInflight, capacity, msgCount, maxFds, nodeCount, bufSize);
    R.InitHolds(n, maxInflight, capacity, msgCount, maxFds, nodeCount, bufSize);
    var e1, e2, e3, e4, e5 := R.Accept(0), R.Accept(1), R.Tick(0, 2), R.SubscribeAt(0, 0), R.SubscribeAt(1, 0);
    R.StepKeeps(b, e1);
    var b1 := R.Step(b, e1);
    R.StepKeeps(b1, e2);
    var b2 := R.Step(b1, e2);
    R.StepKeeps(b2, e3);
    var b3 := R.Step(b2, e3);
    R.StepKeeps(b3, e4);
    var b4 := R.Step(b3, e4);
    R.StepKeeps(b4, e5);
    var b5 := R.Step(b4, e5);
    PairThere(n, maxInflight, capacity, msgCount, maxFds, nodeCount, bufSize, pub);
    NoMore(b5);
    OneMore(b4, e5, []);
    OneMore(b3, e4, [e5] + []);
    OneMore(b2, e3, [e4] + ([e5] + []));
    OneMore(b1, e2, [e3] + ([e4] + ([e5] + [])));
    es := [e1] + ([e2] + ([e3] + ([e4] + ([e5] + []))));
    OneMore(b, e1, [e2] + ([e3] + ([e4] + ([e5] + []))));
  }

  lemma PairThere(n: nat, maxInflight: nat, capacity: nat, msgCount: nat, maxFds: nat, nodeCount: nat, bufSize: nat, pub: Incoming)
    requires 3 <= n <= MAX_CLIENTS && ValidMax(maxInflight) && 2 <= capacity && 0 < msgCount < INVALID && maxFds >= 2 && nodeCount > 0
    requires bufSize <= BUF_SIZE && pub.qos == 1 && pub.topicLen > 0
    requires pub.topicOff + pub.topicLen <= bufSize && pub.payloadOff + pub.payloadLen <= bufSize
    ensures var b := R.Init(n, maxInflight, capacity, msgCount, maxFds, nodeCount, bufSize);
            var b2 := AllocSlot(AllocSlot(b, 0).b, 1).b;
            var b3 := b2.(p := b2.p.(now := 0, sqRoom := 2));
            1 < |b3.clients| && 0 < |b3.nodes| && Pair(Subscribe(Subscribe(b3, 0, 0), 1, 0), 0, 1, 0, pub)
  {
    hide EntryOk, NonFree;
    BlankIsFree(maxInflight);
  }

  lemma {:induction false} RunOn(b: Broker, es: seq<R.Event>, fs: seq<R.Event>)
    requires Inv(b) && R.Feasible(b, es) && R.Feasible(R.Run(b, es), fs)
    ensures R.Feasible(b, es + fs) && R.Run(b, es + fs) == R.Run(R.Run(b, es), fs)
    decreases es
  {
    hide Inv, R.Possible, R.Step;
    if es == [] {
      assert es + fs == fs;
    } else {
      R.StepKeeps(b, es[0]);
      RunOn(R.Step(b, es[0]), es[1..], fs);
      assert (es + fs)[0] == es[0] && (es + fs)[1..] == es[1..] + fs;
    }
  }

  /** From broker_init on, in ten events: a segment is queued, and later, still queued, it would put other bytes on the wire. */
  lemma OverwrittenFromInit(n: nat, maxInflight: nat, capacity: nat, msgCount: nat, maxFds: nat, nodeCount: nat, bufSize: nat, pub: Incoming)
    returns (es: seq<R.Event>, fs: seq<R.Event>)
    requires 2 <= n <= MAX_CLIENTS && ValidMax(maxInflight) && 2 <= capacity <= Conservation.MAX_EGRESS && 0 < msgCount < INVALID
    requires maxFds >= 2 && nodeCount > 0 && bufSize <= BUF_SIZE && pub.qos == 1 && pub.topicLen > 0
    requires pub.topicOff + pub.topicLen <= bufSize && pub.payloadOff + pub.payloadLen <= bufSize
    ensures var b := R.Init(n, maxInflight, capacity, msgCount, maxFds, nodeCount, bufSize);
            && Inv(b) && R.Feasible(b, es) && R.Feasible(R.Run(b, es), fs)
            && var r := R.Run(b, es); var t := R.Run(r, fs);
               && 0 < |r.clients| && 0 < |t.clients| && r.clients[0].queue != [] && t.clients[0].queue == r.clients[0].queue
               && Wire(t.p, r.clients[0].queue[0]) != Wire(r.p, r.clients[0].queue[0])
  {
    hide Inv, R.Feasible, R.Run, Loner, Reusable, Wire, R.Init;
    var b := R.Init(n, maxInflight, capacity, msgCount, maxFds, nodeCount, bufSize);
    var first := LonerFromInit(n, maxInflight, capacity, msgCount, maxFds, nodeCount, bufSize, pub);
    var b1 := R.Run(b, first);
    LonerFacts(b1, 0, 0, pub);
    var second := ReusableIsReachable(b1, 0, 0, pub, b1.p.now + Qos2.INFLIGHT_TIMEOUT_MS + 1, 1);
    RunOn(b, first, second);
    es := first + second;
    var r := R.Run(b, es);
    ReusableHas(r, 0, 0);
    fs := DanglingIsOverwritten(r, 0, 0, 1);
  }

  lemma ReusableHas(b: Broker, i: nat, k: nat)
    requires Reusable(b, i, k)
    ensures i < |b.clients| && k < |b.clients[i].queue|
  {
  }
}
