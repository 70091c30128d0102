/** What one PUBLISH puts into the queues of its subscribers (src/broker/handler.h, src/broker/mqtt_fsm.h). */
module FanoutQueues {
  import opened Common
  import opened Inflight
  import opened Packet
  import Publish
  import opened Shared
  import opened Egress
  import opened Broker
  import opened BrokerInv
  import opened FanoutSteps
  import opened Ceremony
  import opened Flush
  import Acks
  import opened Progress
  import opened Qos2

  // ---- one delivery ----

  /** The PUBLISH of message m that a delivery queues: this QoS and RETAIN flag, no DUP, nothing sent yet. */
  predicate IsDelivery(s: Seg, m: u32, qos: byte, retain: bool, generation: byte) {
    s.kind == SEG_PUBLISH && s.msgIdx == m && s.qos == qos && s.retain == retain && !s.dup && s.cursor == 0 && s.slotGen == generation
  }

  /** d is c after a delivery: with a full ring nothing, otherwise the PUBLISH is queued last. */
  predicate DeliveredTo(c: Client, d: Client, m: u32, qos: byte, retain: bool) {
    if |c.queue| >= c.capacity then d == c
    else d.queue != [] && IsDelivery(d.queue[|d.queue| - 1], m, qos, retain, c.generation)
  }

  /** A flush leaves the last segment where it is, as long as it has something to send; it may give it a packet id. */
  lemma FlushKeepsTail(s: Site)
    requires Consistent(s.c.slots) && s.c.queue != [] && !Dead(s.c.queue[|s.c.queue| - 1], s.c.generation)
    ensures var q := EgressFlush(s).site.c.queue; var last := s.c.queue[|s.c.queue| - 1];
            q != [] && q[|q| - 1] == last.(packetId := q[|q| - 1].packetId)
  {
    hide EntryOk, NonFree, PreClean, Gather, Offer, Dead, DeadHeads, Joins, NeedsId;
    PreCleanExact(s);
    var x := PreClean(s);
    assert x.c.queue != [] && x.c.queue[|x.c.queue| - 1] == s.c.queue[|s.c.queue| - 1];
    BatchExact(x.p, x.c, 0);
  }

  lemma DeliveryQueues(s: Site, m: u32, qos: byte)
    requires Consistent(s.c.slots) && m < |s.p.msgs| && m != INVALID && WireLen(s.p.msgs[m], qos) < 0x1_0000_0000
    requires 0 < s.p.msgs[m].refCount < 0xFFFF_FFFF && Connected(s.c)
    ensures DeliveredTo(s.c, StartDelivery(s, m, qos).site.c, m, qos, s.p.msgs[m].retain)
  {
    hide EntryOk, NonFree, EgressFlush, StoreWireLen, LoadWireLen, Vbi, Refs;
    Acks.DeliveryExact(s, m, qos);
    if !Full(s.c) {
      var x := Acks.Enqueued(s, m, qos);
      var seg := x.c.queue[|x.c.queue| - 1];
      WireLenRoundTrip(seg, WireLen(x.p.msgs[m], qos), [0, 0, 0, 0]);
      SomeLength(x.p.msgs[m], qos);
      FlushKeepsTail(x);
    }
  }

  lemma SomeLength(m: Msg, qos: byte)
    ensures WireLen(m, qos) > 0
  {
  }

  // ---- the fan-out of one PUBLISH ----

  /** A slot in a fan-out of message m: not delivered to, it stays; delivered to, it got the PUBLISH once. */
  ghost predicate FannedTo(f: Fan, g: Fan, m: u32, qos: byte, j: nat)
    requires m < |f.b.p.msgs|
  {
    && j < |f.b.clients| == |g.b.clients|
    && (j in f.sent || j !in g.started ==> g.b.clients[j] == f.b.clients[j])
    && (j !in f.sent && j in g.started ==> DeliveredTo(f.b.clients[j], g.b.clients[j], m, qos, f.b.p.msgs[m].retain))
  }

  ghost predicate MessageFits(p: Pools, m: u32, qos: byte) {
    m < |p.msgs| && m != INVALID && WireLen(p.msgs[m], qos) < 0x1_0000_0000
  }

  lemma MessageStays(p: Pools, q: Pools, m: u32, qos: byte)
    requires MessageFits(p, m, qos) && SameStore(p, q)
    ensures MessageFits(q, m, qos) && q.msgs[m].retain == p.msgs[m].retain
  {
    hide Vbi;
    assert q.msgs[m].(refCount := 0) == p.msgs[m].(refCount := 0);
  }

  lemma DeliverOne(b: Broker, j: nat, m: u32, qos: byte)
    requires j < |b.clients| && b.clients[j].state == Active && Shaped(b.clients[j].slots) && MessageFits(b.p, m, qos)
    requires PoolInv(b, multiset{m})
    ensures DeliveredTo(b.clients[j], StartDelivery(At(b, j), m, qos).site.c, m, qos, b.p.msgs[m].retain)
  {
    hide StartDelivery, Owners, Holders, DeliveredTo, NonFree, EntryOk, Refs, Partitioned;
    assert ClientWell(b, b.clients[j]);
    CountsFit(b, multiset{m}, m);
    assert m in multiset{m} + Owners(b.clients);
    DeliveryQueues(At(b, j), m, qos);
  }

  /** One delivery, then the rest of the fan-out. */
  lemma FannedStep(f: Fan, f': Fan, g: Fan, m: u32, qos: byte, i: nat, j: nat)
    requires m < |f.b.p.msgs| && i < |f.b.clients| && i !in f.sent && i in g.started && f'.sent == f.sent + {i}
    requires |f'.b.clients| == |f.b.clients| && f'.b.clients == f.b.clients[i := f'.b.clients[i]]
    requires m < |f'.b.p.msgs| && f'.b.p.msgs[m].retain == f.b.p.msgs[m].retain
    requires DeliveredTo(f.b.clients[i], f'.b.clients[i], m, qos, f.b.p.msgs[m].retain)
    requires FannedTo(f', g, m, qos, j)
    ensures FannedTo(f, g, m, qos, j)
  {
    hide DeliveredTo;
  }

  lemma FannedSkip(f: Fan, g: Fan, m: u32, qos: byte, i: nat, j: nat)
    requires m < |f.b.p.msgs| && i !in f.sent && FannedTo(f.(sent := f.sent + {i}), g, m, qos, j) && i !in g.started
    ensures FannedTo(f, g, m, qos, j)
  {
    hide DeliveredTo;
  }

  lemma FannedSelf(f: Fan, m: u32, qos: byte, j: nat)
    requires m < |f.b.p.msgs| && j < |f.b.clients| && FanOk(f)
    ensures FannedTo(f, f, m, qos, j)
  {
    hide DeliveredTo;
  }

  lemma {:induction false} FanNodeDelivers(f: Fan, m: u32, qos: byte, node: map<int, byte>, i: nat, j: nat)
    requires AllShaped(f.b.clients) && FanOk(f) && j < |f.b.clients| && MessageFits(f.b.p, m, qos)
    requires PoolInv(f.b, multiset{m})
    ensures FannedTo(f, FanNode(f, m, qos, node, i), m, qos, j)
    decreases |f.b.clients| - i
  {
    hide PoolInv, Shaped, StartDelivery, DeliveredTo, SameStore, WireLen, SameId, FannedTo;
    if i < |f.b.clients| {
      FanNodeKeeps(f, m, qos, node, i);
      if i !in node || i in f.sent {
        FanNodeDelivers(f, m, qos, node, i + 1, j);
      } else if f.b.clients[i].state == Active && f.b.clients[i].generation == node[i] {
        DeliveryShape(At(f.b, i), m, qos);
        DeliverKeeps(f.b, i, m, qos);
        DeliverOne(f.b, i, m, qos);
        var b' := Put(f.b, i, StartDelivery(At(f.b, i), m, qos).site);
        MessageStays(f.b.p, b'.p, m, qos);
        var f' := Fan(b', f.sent + {i}, f.started + [i]);
        FanNodeKeeps(f', m, qos, node, i + 1);
        FanNodeDelivers(f', m, qos, node, i + 1, j);
        FannedStep(f, f', FanNode(f', m, qos, node, i + 1), m, qos, i, j);
      } else {
        FanNodeKeeps(f.(sent := f.sent + {i}), m, qos, node, i + 1);
        FanNodeDelivers(f.(sent := f.sent + {i}), m, qos, node, i + 1, j);
        FannedSkip(f, FanNode(f, m, qos, node, i), m, qos, i, j);
      }
    } else {
      FannedSelf(f, m, qos, j);
    }
  }

  lemma {:induction false} FanOutDelivers(f: Fan, m: u32, qos: byte, matches: seq<map<int, byte>>, j: nat)
    requires AllShaped(f.b.clients) && FanOk(f) && j < |f.b.clients| && MessageFits(f.b.p, m, qos)
    requires forall k :: 0 <= k < |matches| ==> NodeOk(f.b.clients, matches[k])
    requires PoolInv(f.b, multiset{m})
    ensures FannedTo(f, FanOut(f, m, qos, matches), m, qos, j)
    decreases |matches|
  {
    hide PoolInv, Shaped, FanNode, DeliveredTo, SameStore, MessageFits, NodeOk;
    if matches != [] {
      FanShape(f, m, qos, matches[0], 0);
      FanNodeKeeps(f, m, qos, matches[0], 0);
      FanNodeDelivers(f, m, qos, matches[0], 0, j);
      var g := FanNode(f, m, qos, matches[0], 0);
      MessageStays(f.b.p, g.b.p, m, qos);
      SameNodes(f.b, g.b, matches[1..], matches);
      FanOutKeeps(g, m, qos, matches[1..]);
      FanOutDelivers(g, m, qos, matches[1..], j);
    }
  }

  lemma AdoptedDelivers(b: Broker, b1: Broker, i: nat, m: u32, pub: Incoming, matches: seq<map<int, byte>>, j: nat)
    requires SameIds(b, b1) && PublishPossible(b, i, matches) && b1.p == b.p && j < |b.clients|
    requires b.p.bufFree != [] && b.p.msgFree != [] && m == b.p.msgFree[|b.p.msgFree| - 1] && m < |b.p.msgs|
    requires pub.topicLen + pub.payloadLen < VBI_LIMIT - 4
    requires Inv(b1)
    ensures AllShaped(Adopt(b1, i, m, pub).clients)
    ensures var f := Fan(Adopt(b1, i, m, pub), {}, []); var g := FanOut(f, m, pub.qos, matches);
            && |g.b.clients| == |b.clients| == |f.b.clients|
            && (j !in g.started ==> g.b.clients[j] == f.b.clients[j])
            && (j in g.started ==> DeliveredTo(f.b.clients[j], g.b.clients[j], m, pub.qos, pub.retain))
  {
    hide PoolInv, SlotInv, SlotRecvs, FanOut, DeliveredTo;
    assert forall k :: 0 <= k < |b.clients| ==> SameId(b.clients[k], b1.clients[k]);
    AdoptKeeps(b1, i, m, pub);
    var b2 := Adopt(b1, i, m, pub);
    AdoptShapes(b2, m);
    forall k | 0 <= k < |matches| ensures NodeOk(b2.clients, matches[k]) {
      assert matches[k] in b2.nodes;
    }
    AdoptedFits(b1, i, m, pub);
    FanOutDelivers(Fan(b2, {}, []), m, pub.qos, matches, j);
  }

  lemma AdoptedFits(b: Broker, i: nat, m: u32, pub: Incoming)
    requires i < |b.clients| && b.p.bufFree != [] && m < |b.p.msgs| && b.p.msgFree != [] && pub.topicLen + pub.payloadLen < VBI_LIMIT - 4
    requires PoolInv(b, multiset{})
    ensures MessageFits(Adopt(b, i, m, pub).p, m, pub.qos) && Adopt(b, i, m, pub).p.msgs[m].retain == pub.retain
  {
    hide Vbi, ClientsWell, Partitioned;
    var msg := Adopt(b, i, m, pub).p.msgs[m];
    VbiSize(Publish.Remaining(msg.topicLen, msg.payloadLen, pub.qos));
  }

  /** What one PUBLISH queues: each slot that a delivery starts for gets, unless its ring is full, one more segment behind
      everything else, the taken message under the publication's own QoS and RETAIN flag; nobody else's queue changes, and of
      the publisher itself only table and receive buffer besides. */
  lemma PublishQueues(b: Broker, i: nat, pub: Incoming, matches: seq<map<int, byte>>, j: nat)
    requires PublishPossible(b, i, matches) && pub.topicLen + pub.payloadLen < VBI_LIMIT - 4 && j < |b.clients|
    requires Inv(b)
    ensures AllShaped(b.clients) && forall k :: 0 <= k < |b.p.msgFree| ==> b.p.msgFree[k] < |b.p.msgs|
    ensures var (r, started) := PublishReceived(b, i, pub, matches);
            && |r.clients| == |b.clients|
            && var d := r.clients[j];
               var c := if j == i then b.clients[j].(slots := d.slots, recvBuf := d.recvBuf) else b.clients[j];
               && (j !in started ==> d == c)
               && (j in started ==> b.p.msgFree != [] && DeliveredTo(c, d, b.p.msgFree[|b.p.msgFree| - 1], pub.qos, pub.retain))
  {
    hide PoolInv, SlotInv, SubsInv, RecvInv, PubReceived, FanOut, DropBase, DeliveredTo;
    InvShapes(b);
    NotedKeeps(b, i, pub);
    var b1 := Noted(b, i, pub);
    if PubReceived(b.clients[i].slots, pub.qos, pub.packetId, b.p.now).forward && b.p.msgFree != [] && b.p.bufFree != [] {
      var m := b.p.msgFree[|b.p.msgFree| - 1];
      AdoptedDelivers(b, b1, i, m, pub, matches, j);
      var x := Adopt(b1, i, m, pub).clients[j];
      if j in PublishReceived(b, i, pub, matches).1 {
        OwnTable(x, PublishReceived(b, i, pub, matches).0.clients[j], m, pub.qos, pub.retain);
      }
    }
  }

  /** The publisher may be delivered to as well; its table and its receive buffer decide nothing about that. */
  lemma OwnTable(x: Client, d: Client, m: u32, qos: byte, retain: bool)
    requires DeliveredTo(x, d, m, qos, retain)
    ensures DeliveredTo(x.(slots := d.slots, recvBuf := d.recvBuf), d, m, qos, retain)
  {
  }
}
