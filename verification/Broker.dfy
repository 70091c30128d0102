/** The broker: client slots, descriptor map, subscriptions and the pools (src/broker/state.h,
    src/broker/handler.h and the completion handlers of src/broker/loop.h). */
module Broker {
  import opened Common
  import opened Inflight
  import opened Shared
  import opened Egress
  import opened Ceremony
  import opened Qos2

  /** A receive the kernel has not completed: it may still write to the buffer. */
  datatype Recv = Recv(slot: nat, generation: byte, buf: u32)

  /** nodes[k] maps the slots subscribed at trie node k to the generation stored with the subscription. */
  datatype Broker = Broker(p: Pools, clients: seq<Client>, fdToSlot: seq<int>, freeHead: nat,
                           activeCount: int, dormantCount: int, maxInflight: nat,
                           nodes: seq<map<int, byte>>, recvs: set<Recv>)

  function At(b: Broker, i: nat): Site
    requires i < |b.clients|
  {
    Site(b.p, b.clients[i])
  }

  function Put(b: Broker, i: nat, s: Site): Broker
    requires i < |b.clients|
  {
    b.(p := s.p, clients := b.clients[i := s.c])
  }

  // ---- slots ----

  /** client_init; the orphan survives. */
  function InitClient(c: Client, fd: int, buf: u32, maxInflight: nat): Client {
    c.(state := Active, generation := (c.generation + 1) % 0x100, fd := fd, cleanSession := true,
       recvPending := false, recvBuf := buf, slots := Blank(maxInflight),
       queue := [], writing := false, batch := 0)
  }

  datatype Allocated = Allocated(b: Broker, slot: int)

  /** broker_alloc_slot: the slot, or -1. */
  function AllocSlot(b: Broker, fd: int): Allocated {
    if b.freeHead >= |b.clients| then Allocated(b, -1)
    else if fd < 0 || fd >= |b.fdToSlot| then Allocated(b, -1)
    else if b.p.bufFree == [] then Allocated(b, -1)
    else
      var top := |b.p.bufFree| - 1;
      var i := b.freeHead;
      var c := b.clients[i];
      Allocated(b.(p := b.p.(bufFree := b.p.bufFree[..top]),
                   clients := b.clients[i := InitClient(c, fd, b.p.bufFree[top], b.maxInflight)],
                   freeHead := if c.fd >= 0 then c.fd else |b.clients|,
                   fdToSlot := b.fdToSlot[fd := i],
                   activeCount := b.activeCount + 1), i)
  }

  /** broker_get_client_by_fd: the slot, or -1. */
  function SlotOf(b: Broker, fd: int): int {
    if 0 <= fd < |b.fdToSlot| && 0 <= b.fdToSlot[fd] < |b.clients| then b.fdToSlot[fd] else -1
  }

  function Unmap(b: Broker, fd: int): seq<int> {
    if 0 <= fd < |b.fdToSlot| then b.fdToSlot[fd := -1] else b.fdToSlot
  }

  /** The receive buffer of a client that goes away: orphaned while a receive is in flight, else freed. */
  function LetGo(p: Pools, c: Client): Site {
    if c.recvBuf == INVALID then Site(p, c)
    else if c.recvPending then Site(p, c.(orphan := c.recvBuf))
    else Site(FreeBuf(p, c.recvBuf), c)
  }

  /** broker_free_slot on a connected client, trie_remove_fd and client_free included. */
  function FreeClientSlot(b: Broker, i: nat): Broker
    requires i < |b.clients|
  {
    var s := LetGo(b.p, b.clients[i]);
    var c := s.c.(slots := FreeAll(s.c.slots), state := Vacant, recvBuf := INVALID, writing := false, fd := b.freeHead);
    b.(p := s.p, clients := b.clients[i := c], fdToSlot := Unmap(b, b.clients[i].fd), freeHead := i,
       activeCount := b.activeCount - 1,
       nodes := seq(|b.nodes|, k requires 0 <= k < |b.nodes| => b.nodes[k] - {i}))
  }

  /** broker_slot_go_dormant: the subscriptions and the inflight entries stay. */
  function GoDormant(b: Broker, i: nat): Broker
    requires i < |b.clients|
  {
    var s := LetGo(b.p, b.clients[i]);
    b.(p := s.p,
       clients := b.clients[i := s.c.(state := Dormant, recvBuf := INVALID, writing := false, fd := -1)],
       fdToSlot := Unmap(b, b.clients[i].fd),
       activeCount := b.activeCount - 1, dormantCount := b.dormantCount + 1)
  }

  /** handle_close */
  function CloseDone(b: Broker, fd: int): Broker {
    var i := SlotOf(b, fd);
    if i < 0 || !Connected(b.clients[i]) || b.clients[i].fd != fd then b
    else
      var s := Disconnect(At(b, i));
      var b1 := Put(b, i, s);
      if s.c.cleanSession then FreeClientSlot(b1, i) else GoDormant(b1, i)
  }

  // ---- receiving ----

  /** submit_close: the client stops taking new work until its close completes. */
  function SubmitClose(b: Broker, fd: int): Broker {
    var i := SlotOf(b, fd);
    if i >= 0 && b.clients[i].state == Active then b.(clients := b.clients[i := b.clients[i].(state := Closing)]) else b
  }

  /** submit_recv_internal on an active client: a full buffer closes it, otherwise a receive is outstanding. */
  function SubmitRecv(b: Broker, i: nat, bufferFull: bool): Broker
    requires i < |b.clients|
  {
    var c := b.clients[i];
    if c.recvBuf == INVALID then b
    else if bufferFull then b.(clients := b.clients[i := c.(state := Closing)])
    else b.(clients := b.clients[i := c.(recvPending := true)],
            recvs := b.recvs + {Recv(i, c.generation, c.recvBuf)})
  }

  function FreeOrphan(p: Pools, c: Client): Site {
    if c.orphan == INVALID then Site(p, c) else Site(FreeBuf(p, c.orphan), c.(orphan := INVALID))
  }

  /** handle_recv up to the processing of the bytes. */
  function RecvDone(b: Broker, r: Recv, res: int): Broker
    requires r.slot < |b.clients|
  {
    var b1 := b.(recvs := b.recvs - {r});
    var c := b.clients[r.slot];
    if c.generation != r.generation then Put(b1, r.slot, FreeOrphan(b.p, c))
    else
      var c1 := c.(recvPending := false);
      if c.state != Active then Put(b1, r.slot, FreeOrphan(b.p, c1))
      else
        var b2 := Put(b1, r.slot, Site(b.p, c1));
        if res <= 0 then SubmitClose(b2, c.fd) else b2
  }

  // ---- subscriptions ----

  function Subscribe(b: Broker, i: nat, k: nat): Broker
    requires i < |b.clients| && k < |b.nodes|
  {
    b.(nodes := b.nodes[k := b.nodes[k][i := b.clients[i].generation]])
  }

  function Unsubscribe(b: Broker, i: nat, k: nat): Broker
    requires k < |b.nodes|
  {
    b.(nodes := b.nodes[k := b.nodes[k] - {i}])
  }

  // ---- publishing ----

  datatype Fan = Fan(b: Broker, sent: set<int>, started: seq<int>)

  /** The slots of one matched node in ascending order, skipping those already marked as sent. */
  function FanNode(f: Fan, m: u32, qos: byte, node: map<int, byte>, i: nat): Fan
    requires forall j :: 0 <= j < |f.b.clients| ==> Shaped(f.b.clients[j].slots)
    decreases |f.b.clients| - i
  {
    if i >= |f.b.clients| then f
    else if i !in node || i in f.sent then FanNode(f, m, qos, node, i + 1)
    else
      var g := f.(sent := f.sent + {i});
      var c := f.b.clients[i];
      if c.state == Active && c.generation == node[i] then
        DeliveryShape(At(f.b, i), m, qos);
        FanNode(Fan(Put(f.b, i, StartDelivery(At(f.b, i), m, qos).site), g.sent, f.started + [i]), m, qos, node, i + 1)
      else FanNode(g, m, qos, node, i + 1)
  }

  lemma DeliveryShape(s: Site, m: u32, qos: byte)
    requires Shaped(s.c.slots)
    ensures Shaped(StartDelivery(s, m, qos).site.c.slots)
  {
  }

  lemma {:induction false} FanShape(f: Fan, m: u32, qos: byte, node: map<int, byte>, i: nat)
    requires forall j :: 0 <= j < |f.b.clients| ==> Shaped(f.b.clients[j].slots)
    ensures var g := FanNode(f, m, qos, node, i);
            |g.b.clients| == |f.b.clients| && forall j :: 0 <= j < |g.b.clients| ==> Shaped(g.b.clients[j].slots)
    decreases |f.b.clients| - i
  {
    hide Shaped, StartDelivery;
    if i < |f.b.clients| {
      if i !in node || i in f.sent {
        FanShape(f, m, qos, node, i + 1);
      } else if f.b.clients[i].state == Active && f.b.clients[i].generation == node[i] {
        DeliveryShape(At(f.b, i), m, qos);
        FanShape(Fan(Put(f.b, i, StartDelivery(At(f.b, i), m, qos).site), f.sent + {i}, f.started + [i]), m, qos, node, i + 1);
      } else {
        FanShape(f.(sent := f.sent + {i}), m, qos, node, i + 1);
      }
    }
  }

  /** process_publish_matches */
  function FanOut(f: Fan, m: u32, qos: byte, matches: seq<map<int, byte>>): Fan
    requires forall j :: 0 <= j < |f.b.clients| ==> Shaped(f.b.clients[j].slots)
    decreases |matches|
  {
    if matches == [] then f
    else
      FanShape(f, m, qos, matches[0], 0);
      FanOut(FanNode(f, m, qos, matches[0], 0), m, qos, matches[1..])
  }

  /** What the PUBLISH parser found, as offsets into the receive buffer. */
  datatype Incoming = Incoming(qos: byte, packetId: u16, retain: bool,
                               topicOff: u16, topicLen: u16, payloadOff: u32, payloadLen: u32)

  /** msg_pool_alloc, steal_recv_buffer and the base reference, when both pools have something left. */
  function Adopt(b: Broker, i: nat, m: u32, pub: Incoming): Broker
    requires i < |b.clients| && b.p.bufFree != [] && m < |b.p.msgs| && b.p.msgFree != []
  {
    var top := |b.p.bufFree| - 1;
    var c := b.clients[i];
    var msg := Msg(c.recvBuf, pub.topicOff, pub.topicLen, pub.payloadOff, pub.payloadLen, pub.qos, pub.retain, 1);
    b.(p := b.p.(msgs := b.p.msgs[m := msg], msgFree := b.p.msgFree[..|b.p.msgFree| - 1], bufFree := b.p.bufFree[..top]),
       clients := b.clients[i := c.(recvBuf := b.p.bufFree[top])])
  }

  /** A message slot taken and given back: its reset record is all that remains. */
  function DropMessage(b: Broker, m: u32): Broker
    requires m < |b.p.msgs|
  {
    b.(p := b.p.(msgs := b.p.msgs[m := b.p.msgs[m].(bufIdx := INVALID, refCount := 0)]))
  }

  /** The end of the MQTT_PUBLISH case: the base reference goes; the last one frees message and buffer. */
  function DropBase(p: Pools, m: u32, stolen: u32): Pools {
    var (q, n) := Unref(p, m);
    if n == 0 then FreeMsg(FreeBuf(q, stolen), m) else q
  }

  /** The MQTT_PUBLISH case of process_mqtt_packet_ex; started lists the slots delivery was started for. */
  function PublishReceived(b: Broker, i: nat, pub: Incoming, matches: seq<map<int, byte>>): (Broker, seq<int>)
    requires i < |b.clients|
    requires forall j :: 0 <= j < |b.clients| ==> Shaped(b.clients[j].slots)
    requires forall k :: 0 <= k < |b.p.msgFree| ==> b.p.msgFree[k] < |b.p.msgs|
  {
    var o := PubReceived(b.clients[i].slots, pub.qos, pub.packetId, b.p.now);
    var b1 := b.(clients := b.clients[i := b.clients[i].(slots := o.slots)]);
    if !o.forward then (b1, [])
    else if b.p.msgFree == [] then (b1, [])
    else
      var m := b.p.msgFree[|b.p.msgFree| - 1];
      if b.p.bufFree == [] then (DropMessage(b1, m), [])
      else
        var f := FanOut(Fan(Adopt(b1, i, m, pub), {}, []), m, pub.qos, matches);
        (f.b.(p := DropBase(f.b.p, m, b.clients[i].recvBuf)), f.started)
  }
}
