/** What the methods of the broker object need to know about one turn of each of their loops and calls. */
module BrokerTurns {
  import opened Common
  import opened Inflight
  import opened Shared
  import opened Egress
  import opened Ceremony
  import opened Timeouts
  import opened Qos2
  import opened Conservation
  import opened Broker
  import opened BrokerInv
  import opened FanoutSteps
  import opened Runs
  import opened PoolObjects
  import opened CeremonyEngine

  /** What PublishReceived does once the ceremony lets the packet through. */
  function Spread(b: Broker, i: nat, pub: Incoming, matches: seq<map<int, byte>>): (Broker, seq<int>)
    requires i < |b.clients| && AllShaped(b.clients) && forall k :: 0 <= k < |b.p.msgFree| ==> b.p.msgFree[k] < |b.p.msgs|
  {
    if b.p.msgFree == [] then (b, [])
    else
      var m := b.p.msgFree[|b.p.msgFree| - 1];
      if b.p.bufFree == [] then (DropMessage(b, m), [])
      else
        var f := FanOut(Fan(Adopt(b, i, m, pub), {}, []), m, pub.qos, matches);
        (f.b.(p := DropBase(f.b.p, m, b.clients[i].recvBuf)), f.started)
  }

  /** r and started are what the PUBLISH makes of b. */
  ghost predicate Published(b: Broker, i: nat, pub: Incoming, found: seq<nat>, r: Broker, started: seq<int>) {
    && i < |b.clients| && Shapes(b) && (forall k :: 0 <= k < |found| ==> found[k] < |b.nodes|)
    && (r, started) == PublishReceived(b, i, pub, Picked(b.nodes, found))
  }

  /** What the publisher is answered. */
  ghost predicate Answers(b: Broker, i: nat, pub: Incoming, reply: Reply) {
    && i < |b.clients| && Shaped(b.clients[i].slots)
    && reply == PubReceived(b.clients[i].slots, pub.qos, pub.packetId, b.p.now).reply
  }

  lemma PublishCases(b: Broker, i: nat, pub: Incoming, matches: seq<map<int, byte>>)
    requires i < |b.clients| && AllShaped(b.clients) && forall k :: 0 <= k < |b.p.msgFree| ==> b.p.msgFree[k] < |b.p.msgs|
    ensures var b1 := Noted(b, i, pub);
            && AllShaped(b1.clients) && b1.p == b.p && b1.nodes == b.nodes && |b1.clients| == |b.clients|
            && b1.clients[i] == b.clients[i].(slots := b1.clients[i].slots)
            && PublishReceived(b, i, pub, matches) ==
               if PubReceived(b.clients[i].slots, pub.qos, pub.packetId, b.p.now).forward then Spread(b1, i, pub, matches) else (b1, [])
  {
    hide FanOut, Adopt, DropBase, Search, TrackedAt, FindDirect;
  }

  lemma SpreadShapes(b: Broker)
    requires Inv(b)
    ensures AllShaped(b.clients) && forall k :: 0 <= k < |b.p.msgFree| ==> b.p.msgFree[k] < |b.p.msgs|
    ensures |b.p.msgFree| <= |b.p.msgs|
  {
    hide SlotInv, SubsInv, RecvInv, ClientsWell, Partitioned;
    InvHasShapes(b);
    Pigeonhole(b.p.msgFree, |b.p.msgs|);
  }

  /** The adopted message can be fanned out. */
  lemma AdoptReady(b: Broker, i: nat, m: u32, pub: Incoming, r: Broker)
    requires i < |b.clients| && b.p.bufFree != [] && b.p.msgFree != [] && m == b.p.msgFree[|b.p.msgFree| - 1] && m < |b.p.msgs|
    requires r == Adopt(b, i, m, pub)
    requires b.clients[i].state == Active && !b.clients[i].recvPending && Inv(b)
    ensures r.nodes == b.nodes && |r.clients| == |b.clients|
    ensures AllShaped(r.clients) && PoolInv(r, multiset{m})
  {
    hide PoolInv, SlotInv, SubsInv, RecvInv, Sound, Owners;
    AdoptKeeps(b, i, m, pub);
    AdoptShapes(r, m);
  }

  /** After the fan-out the base reference of the adopted message can be released. */
  lemma SpreadReady(b: Broker, i: nat, m: u32, pub: Incoming, matches: seq<map<int, byte>>, r: Broker, f: Fan)
    requires i < |b.clients| && b.p.bufFree != [] && b.p.msgFree != [] && m == b.p.msgFree[|b.p.msgFree| - 1] && m < |b.p.msgs|
    requires r == Adopt(b, i, m, pub) && AllShaped(r.clients) && f == FanOut(Fan(r, {}, []), m, pub.qos, matches)
    requires PublishPossible(b, i, matches) && Inv(b)
    ensures m < |f.b.p.msgs| && f.b.p.msgs[m].bufIdx == b.clients[i].recvBuf && |f.b.clients| == |b.clients|
    ensures RoomFor(f.b.p, m)
  {
    hide PoolInv, SlotInv, SlotRecvs, FanOut, RoomFor, Sound, Owners;
    AdoptKeeps(b, i, m, pub);
    forall k | 0 <= k < |matches| ensures NodeOk(r.clients, matches[k]) {
      assert matches[k] in r.nodes;
    }
    FanOutKeeps(Fan(r, {}, []), m, pub.qos, matches);
    assert f.b.p.msgs[m].(refCount := 0) == r.p.msgs[m].(refCount := 0);
    BaseHasRoom(f.b, m);
  }

  lemma BaseHasRoom(b: Broker, m: u32)
    requires PoolInv(b, multiset{m})
    ensures RoomFor(b.p, m)
  {
    hide Sound, RoomFor;
    OwnedHasRoom(b.p, m, multiset{m} + Owners(b.clients), Holders(b.clients));
  }

  lemma SweepTurn(b: Broker, i: nat)
    requires i < |b.clients| && AllShaped(b.clients)
    ensures Shaped(b.clients[i].slots) && AllShaped(Put(b, i, SweepClient(At(b, i))).clients)
    ensures SweepFrom(b, i) == SweepFrom(Put(b, i, SweepClient(At(b, i))), i + 1)
    ensures b.clients[i].state != Active || b.clients[i].slots.count <= 0 ==>
              SweepFrom(b, i) == SweepFrom(b, i + 1)
  {
    SweepShape(b, i);
    PutSame(b, i);
    if b.clients[i].slots.count <= 0 {
      SweepEnds(At(b, i), 0, 0);
    }
  }

  lemma SweepDone(b: Broker, i: nat)
    requires AllShaped(b.clients) && i >= |b.clients|
    ensures SweepFrom(b, i) == b
  {
  }

  lemma AlwaysPubcomp(v: Slots, id: u16)
    requires v.hot != []
    ensures PubrelReceived(v, id).reply == Pubcomp(id)
  {
  }

  lemma SlotCount(b: Broker, i: nat)
    requires Inv(b) && i < |b.clients|
    ensures |b.clients[i].slots.hot| == b.maxInflight
  {
    hide Sound, ClientOk, SlotInv, SubsInv, RecvInv;
    assert ClientWell(b, b.clients[i]);
  }

  lemma MappedSlot(b: Broker, fd: int)
    requires Inv(b) && 0 <= fd < |b.fdToSlot| && b.fdToSlot[fd] >= 0
    ensures b.fdToSlot[fd] < |b.clients|
  {
    hide PoolInv, SubsInv, RecvInv, FreeList, Census;
    var chain :| SlotInv(b, chain);
  }

  lemma MappedFd(b: Broker, fd: int)
    requires Inv(b)
    ensures 0 <= fd < |b.fdToSlot| ==> b.fdToSlot[fd] < |b.clients|
  {
    hide Inv;
    if 0 <= fd < |b.fdToSlot| && b.fdToSlot[fd] >= 0 {
      MappedSlot(b, fd);
    }
  }

  lemma OrphanRoom(b: Broker, i: nat)
    requires Inv(b) && i < |b.clients|
    ensures b.clients[i].orphan != INVALID ==> |b.p.bufFree| < |b.p.bufs|
  {
    hide SlotInv, SubsInv, RecvInv, ClientsWell, Sound, Owners, Holders, Held;
    if b.clients[i].orphan != INVALID {
      HeldInHolders(b, i);
      HeldHasRoom(b.p, b.clients[i].orphan, multiset{} + Owners(b.clients), Holders(b.clients));
    }
  }

  /** After its references are gone a client's buffer still has room on the free stack. */
  lemma CloseRoom(b: Broker, i: nat)
    requires Inv(b) && i < |b.clients| && Connected(b.clients[i])
    ensures var r := Put(b, i, Disconnect(At(b, i)));
            && r.clients[i] == b.clients[i].(queue := [])
            && (b.clients[i].recvBuf != INVALID ==> |r.p.bufFree| < |r.p.bufs|)
  {
    hide PoolInv, SlotInv, SubsInv, RecvInv, Sound, Fit, Disconnect, Owners, Holders, OwnersBut;
    ActiveFits(b, i);
    DisconnectReleases(At(b, i), multiset{} + OwnersBut(b.clients, i), Holders(b.clients));
    if b.clients[i].recvBuf != INVALID {
      HeldInHolders(b, i);
      HeldHasRoom(Disconnect(At(b, i)).p, b.clients[i].recvBuf, multiset{} + OwnersBut(b.clients, i), Holders(b.clients));
    }
  }

  lemma HeldInHolders(b: Broker, i: nat)
    requires i < |b.clients|
    ensures forall x :: x in Held(b.clients[i]) ==> x in Holders(b.clients)
    ensures b.clients[i].recvBuf != INVALID ==> b.clients[i].recvBuf in Holders(b.clients)
    ensures b.clients[i].orphan != INVALID ==> b.clients[i].orphan in Holders(b.clients)
  {
    hide HoldersBut;
    HoldersSplit(b.clients, i, b.clients[i]);
  }

  /** The message record of a parsed packet, with the base reference taken. */
  function MessageOf(c: Client, pub: Incoming): Msg {
    Msg(c.recvBuf, pub.topicOff, pub.topicLen, pub.payloadOff, pub.payloadLen, pub.qos, pub.retain, 1)
  }

  /** Delivery during fan-out: the base reference makes the message owned, and counts are far from wrapping. */
  lemma DeliveryFits(b: Broker, i: nat, m: u32)
    requires PoolInv(b, multiset{m}) && i < |b.clients| && b.clients[i].state == Active
    ensures var X := multiset{m} + OwnersBut(b.clients, i);
            && Fit(At(b, i), X, Holders(b.clients)) && m in X && (X + Refs(b.clients[i]))[m] + 1 < 0x1_0000_0000
  {
    hide Sound, Refs, Owners, Holders, OwnersBut, Fit;
    FitAt(b, i, multiset{m});
    CountsFit(b, multiset{m}, m);
    OwnersSplit(b.clients, i, b.clients[i]);
    assert multiset{m} + OwnersBut(b.clients, i) + Refs(b.clients[i]) == multiset{m} + Owners(b.clients);
  }

  /** The subscriptions of the collected nodes. */
  function Picked(nodes: seq<map<int, byte>>, found: seq<nat>): (s: seq<map<int, byte>>)
    requires forall k :: 0 <= k < |found| ==> found[k] < |nodes|
    ensures |s| == |found| && forall k :: 0 <= k < |found| ==> s[k] == nodes[found[k]]
  {
    if found == [] then [] else [nodes[found[0]]] + Picked(nodes, found[1..])
  }

  /** What is left of the loop over the slots of a node comes to the same from f at slot i as from g at slot j. */
  ghost predicate SameRest(f: Fan, i: nat, g: Fan, j: nat, m: u32, qos: byte, node: map<int, byte>) {
    && AllShaped(f.b.clients) && AllShaped(g.b.clients)
    && FanNode(g, m, qos, node, j) == FanNode(f, m, qos, node, i)
  }

  /** The slot is skipped in the loop over the slots of a node, or marked without a delivery. */
  lemma FanSkip(f: Fan, m: u32, qos: byte, node: map<int, byte>, i: nat)
    requires AllShaped(f.b.clients) && i < |f.b.clients|
    ensures i !in node || i in f.sent ==> FanNode(f, m, qos, node, i) == FanNode(f, m, qos, node, i + 1)
    ensures i in node && i !in f.sent && !(f.b.clients[i].state == Active && f.b.clients[i].generation == node[i]) ==>
              FanNode(f, m, qos, node, i) == FanNode(f.(sent := f.sent + {i}), m, qos, node, i + 1)
  {
    hide Shaped, StartDelivery;
  }

  /** The slot gets its delivery. */
  lemma FanDeliver(f: Fan, m: u32, qos: byte, node: map<int, byte>, i: nat, b': Broker)
    requires AllShaped(f.b.clients) && i < |f.b.clients| && AllShaped(b'.clients)
    requires i in node && i !in f.sent && f.b.clients[i].state == Active && f.b.clients[i].generation == node[i]
    requires b' == Put(f.b, i, StartDelivery(At(f.b, i), m, qos).site)
    ensures b'.nodes == f.b.nodes
    ensures FanNode(f, m, qos, node, i) == FanNode(Fan(b', f.sent + {i}, f.started + [i]), m, qos, node, i + 1)
  {
    hide Shaped, StartDelivery;
  }

  lemma FanEnds(f: Fan, m: u32, qos: byte, node: map<int, byte>, i: nat)
    requires AllShaped(f.b.clients) && i >= |f.b.clients|
    ensures FanNode(f, m, qos, node, i) == f
  {
  }

  lemma FanOutEnds(f: Fan, m: u32, qos: byte, nodes: seq<map<int, byte>>, found: seq<nat>)
    requires AllShaped(f.b.clients) && found == []
    ensures FanOut(f, m, qos, Picked(nodes, found)) == f
  {
  }

  lemma FanOutTurn(f: Fan, m: u32, qos: byte, nodes: seq<map<int, byte>>, found: seq<nat>)
    requires AllShaped(f.b.clients) && found != [] && forall k :: 0 <= k < |found| ==> found[k] < |nodes|
    ensures AllShaped(FanNode(f, m, qos, nodes[found[0]], 0).b.clients)
    ensures FanOut(f, m, qos, Picked(nodes, found)) ==
            FanOut(FanNode(f, m, qos, nodes[found[0]], 0), m, qos, Picked(nodes, found[1..]))
  {
    hide FanNode;
    FanShape(f, m, qos, nodes[found[0]], 0);
    assert Picked(nodes, found)[1..] == Picked(nodes, found[1..]);
  }

  /** Only a connected client has anything queued. */
  lemma QueueIsConnected(b: Broker, i: nat)
    requires Inv(b) && i < |b.clients|
    ensures b.clients[i].queue != [] ==> Connected(b.clients[i])
  {
    hide Sound, ClientOk, SlotInv, SubsInv, RecvInv;
    assert ClientWell(b, b.clients[i]);
  }
}
