/** A PUBLISH from the bytes in the receive buffer to the message that subscribers are sent: the offsets the handler computes
    (src/broker/handler.h), what is forwarded for them, and why every message in use lies inside its buffer. */
module Arrival {
  import opened Common
  import opened Inflight
  import opened Packet
  import opened Framing
  import Publish
  import opened Shared
  import opened Egress
  import opened Flush
  import opened Ceremony
  import opened Broker
  import opened BrokerInv
  import opened SlotSteps
  import opened FanoutSteps
  import opened Runs
  import opened MessageBytes
  import Qos2

  /** w is one complete PUBLISH packet that the parser reads as m0. */
  predicate ParsedAs(w: seq<byte>, m0: Publish.Message) {
    var h := ParseFixedHeader(w);
    h.Ok? && h.value.kind == MQTT_PUBLISH && h.value.size + h.value.remaining == |w|
    && Publish.ParsePublish(h.value.flags, w[h.value.size..]) == Ok(m0)
  }

  /** The packet in client i's receive buffer, total bytes from position from on. */
  predicate Framed(b: Broker, i: nat, from: nat, total: nat) {
    && i < |b.clients| && b.clients[i].recvBuf < |b.p.bufs|
    && from + total <= |b.p.bufs[b.clients[i].recvBuf]| <= 65536
  }

  function PacketAt(b: Broker, i: nat, from: nat, total: nat): seq<byte>
    requires Framed(b, i, from, total)
  {
    b.p.bufs[b.clients[i].recvBuf][from..from + total]
  }

  /** pub is what the handler makes of the packet at this place, which reads as m0. */
  predicate Arrived(b: Broker, i: nat, from: nat, total: nat, m0: Publish.Message, pub: Incoming) {
    && Framed(b, i, from, total) && ParsedAs(PacketAt(b, i, from, total), m0)
    && Describes(pub, from + ParseFixedHeader(PacketAt(b, i, from, total)).value.size, m0)
  }

  /** The parser accepts the packet. */
  predicate Readable(b: Broker, i: nat, from: nat, total: nat) {
    Framed(b, i, from, total)
    && var w := PacketAt(b, i, from, total); var h := ParseFixedHeader(w);
       h.Ok? && Publish.ParsePublish(h.value.flags, w[h.value.size..]).Ok?
  }

  /** A complete PUBLISH packet, as the packet loop hands it over. */
  predicate IsPublish(b: Broker, i: nat, from: nat, total: nat) {
    Framed(b, i, from, total)
    && var h := ParseFixedHeader(PacketAt(b, i, from, total));
       h.Ok? && h.value.kind == MQTT_PUBLISH && h.value.size + h.value.remaining == total
  }

  /** What the packet loop finds at the start of the unread bytes is such a packet. */
  lemma WindowFrames(b: Broker, i: nat, start: nat, len: nat)
    requires Framed(b, i, start, len) && PacketComplete(PacketAt(b, i, start, len)).Ok?
    requires PacketAt(b, i, start, len)[0] / 0x10 == MQTT_PUBLISH
    ensures IsPublish(b, i, start, PacketComplete(PacketAt(b, i, start, len)).value)
  {
    var w := PacketAt(b, i, start, len);
    FirstPacketAlone(w);
    assert PacketAt(b, i, start, PacketComplete(w).value) == w[..PacketComplete(w).value];
  }

  /** The differences of pointers that become offsets, with the casts of the handler. */
  function OffsetsOf(at: nat, m0: Publish.Message, topicAt: nat, payloadAt: nat): Incoming
    requires |m0.topic| < 0x1_0000
  {
    Incoming(m0.qos, m0.packetId, m0.retain, (at + topicAt) % 0x1_0000, |m0.topic|,
             (at + payloadAt) % 0x1_0000_0000, |m0.payload| % 0x1_0000_0000)
  }

  /** In a receive buffer of 64 KiB no cast loses anything. */
  lemma OffsetsArrive(b: Broker, i: nat, from: nat, total: nat, m0: Publish.Message, at: nat)
    requires IsPublish(b, i, from, total) && ParsedAs(PacketAt(b, i, from, total), m0)
    requires at == from + ParseFixedHeader(PacketAt(b, i, from, total)).value.size
    ensures |m0.topic| < 0x1_0000
    ensures Arrived(b, i, from, total, m0, OffsetsOf(at, m0, 2, 2 + |m0.topic| + (if m0.qos > 0 then 2 else 0)))
  {
    hide ParsedAs, ParseFixedHeader;
    var start := BodyAt(b.p.bufs[b.clients[i].recvBuf], from, total, m0);
    OffsetsFit(b.p.bufs[b.clients[i].recvBuf], at, m0);
  }

  lemma BodyAt(buf: seq<byte>, from: nat, total: nat, m0: Publish.Message) returns (at: nat)
    requires from + total <= |buf| <= 65536 && ParsedAs(buf[from..from + total], m0)
    ensures Publish.Valid(m0) && at == from + ParseFixedHeader(buf[from..from + total]).value.size
    ensures at + |Publish.Body(m0)| == from + total && buf[at..from + total] == Publish.Body(m0)
  {
    hide ParseFixedHeader, Publish.ParsePublish, Publish.Body;
    var w := buf[from..from + total];
    var h := ParseFixedHeader(w).value;
    at := from + h.size;
    HeaderFlags(w);
    Publish.ParsedIsEncoded(h.flags, w[h.size..]);
    assert buf[at..from + total] == w[h.size..];
  }

  lemma HeaderFlags(w: seq<byte>)
    ensures ParseFixedHeader(w).Ok? ==> ParseFixedHeader(w).value.flags < 0x10
  {
  }

  /** Whatever the parser accepts, the offsets lie in the buffer, truncation to 16 bits included. */
  lemma ArrivedInBuffer(b: Broker, i: nat, from: nat, total: nat, m0: Publish.Message, pub: Incoming)
    requires Arrived(b, i, from, total, m0, pub)
    ensures InBuffer(b, i, pub) && Publish.Valid(m0)
  {
    hide ParsedAs, ParseFixedHeader;
    var at := BodyAt(b.p.bufs[b.clients[i].recvBuf], from, total, m0);
  }

  /** From bytes to bytes: what any subscriber is sent for a packet that arrived is the PUBLISH of that packet's topic, payload
      and retain flag, with the subscriber's own packet id. */
  lemma PacketForwarded(b: Broker, i: nat, m: u32, from: nat, total: nat, m0: Publish.Message, pub: Incoming,
                        c: Client, id: u16, qos: byte, dup: bool)
    requires Arrived(b, i, from, total, m0, pub) && b.p.bufFree != [] && b.p.msgFree != [] && m < |b.p.msgs|
    ensures Publish.Valid(m0)
    ensures var p := Adopt(b, i, m, pub).p; var seg := PublishSeg(Site(p, c), m, id, qos, dup);
            && Wire(p, seg) == Publish.Encoded(Publish.Message(m0.retain, qos, dup, m0.topic, id, m0.payload))
            && LoadWireLen(seg) == |Wire(p, seg)|
  {
    hide ParsedAs, ParseFixedHeader, Wire, LoadWireLen, Publish.Encoded, Publish.Body, Adopt;
    var at := BodyAt(b.p.bufs[b.clients[i].recvBuf], from, total, m0);
    ForwardedVerbatim(b, i, m, pub, at, m0, c, id, qos, dup);
  }

  // ---- every message in use lies in its buffer ----

  ghost predicate AllPlaced(p: Pools) {
    forall m: nat :: Live(p, m) ==> m < INVALID && Placed(p, m)
  }

  lemma UntouchedPlaced(p: Pools, q: Pools, m: nat)
    requires m < INVALID && Placed(p, m) && Untouched(p, q, m)
    ensures Placed(q, m)
  {
  }

  /** Only a PUBLISH takes a message off the free stack. */
  lemma NoneRevived(b: Broker, e: Event)
    requires Inv(b) && Shapes(b) && Possible(b, e) && !e.Publish?
    ensures forall m :: Live(Step(b, e).p, m) ==> Live(b.p, m)
  {
    hide Inv, AcceptPossible, CloseDone, EgressFlush, SweepClient, EgressCqe, PubackReceived, PubrecReceived;
    match e
    case CloseCqe(fd) => CloseStore(b, fd);
    case Puback(i, id) => AckStore(b, i, id);
    case Pubrec(i, id) => AckStore(b, i, id);
    case WritevCqe(i, generation, fd, res) => CqeStore(b, i, generation, fd, res);
    case RetryFlush(i) => FlushStore(b, i);
    case TimeoutSweep(i) => FlushStore(b, i);
    case _ =>
  }

  lemma StorePlaced(p: Pools, q: Pools)
    requires SameStore(p, q) && AllPlaced(p)
    ensures AllPlaced(q)
  {
    forall m: nat | Live(q, m)
      ensures m < INVALID && Placed(q, m)
    {
      assert q.msgs[m].(refCount := 0) == p.msgs[m].(refCount := 0);
      assert Live(p, m);
    }
  }

  lemma AdoptPlaced(b: Broker, i: nat, m: u32, pub: Incoming)
    requires InBuffer(b, i, pub) && AllPlaced(b.p) && m < INVALID
    requires b.p.bufFree != [] && b.p.msgFree != [] && m == b.p.msgFree[|b.p.msgFree| - 1] && m < |b.p.msgs|
    ensures AllPlaced(Adopt(b, i, m, pub).p)
  {
    var q := Adopt(b, i, m, pub).p;
    assert b.p.msgFree == q.msgFree + [m];
    forall n: nat | Live(q, n)
      ensures n < INVALID && Placed(q, n)
    {
      assert n != m ==> Live(b.p, n);
    }
  }

  lemma DropPlaced(b: Broker, m: u32)
    requires AllPlaced(b.p) && m < |b.p.msgs| && m in b.p.msgFree
    ensures AllPlaced(DropMessage(b, m).p)
  {
    var q := DropMessage(b, m).p;
    forall n: nat | Live(q, n)
      ensures n < INVALID && Placed(q, n)
    {
      assert Live(b.p, n);
    }
  }

  lemma PublishPlaced(b: Broker, i: nat, pub: Incoming, matches: seq<map<int, byte>>)
    requires Inv(b) && Shapes(b) && PublishPossible(b, i, matches) && AllPlaced(b.p) && InBuffer(b, i, pub)
    ensures AllPlaced(PublishReceived(b, i, pub, matches).0.p)
  {
    hide PoolInv, SlotInv, SubsInv, RecvInv, Qos2.PubReceived, FanOut, Shaped, AllPlaced, DropBase, Adopt, InBuffer, SameStore;
    NotedKeeps(b, i, pub);
    var b1 := Noted(b, i, pub);
    if Qos2.PubReceived(b.clients[i].slots, pub.qos, pub.packetId, b.p.now).forward && b.p.msgFree != [] {
      var m := b.p.msgFree[|b.p.msgFree| - 1];
      if b.p.bufFree == [] {
        DropPlaced(b1, m);
      } else {
        SameWindow(b, b1, i, pub);
        FewMessages(b);
        AdoptPlaced(b1, i, m, pub);
        AdoptKeeps(b1, i, m, pub);
        var b2 := Adopt(b1, i, m, pub);
        AdoptShapes(b2, m);
        AdoptNodes(b1, i, m, pub);
        NodesStillOk(b, b2, i, matches);
        FanOutKeeps(Fan(b2, {}, []), m, pub.qos, matches);
        var f := FanOut(Fan(b2, {}, []), m, pub.qos, matches);
        StorePlaced(b2.p, f.b.p);
        DropBaseStore(f.b.p, m, b.clients[i].recvBuf);
        StorePlaced(f.b.p, DropBase(f.b.p, m, b.clients[i].recvBuf));
      }
    }
  }

  lemma AdoptNodes(b: Broker, i: nat, m: u32, pub: Incoming)
    requires i < |b.clients| && b.p.bufFree != [] && m < |b.p.msgs| && b.p.msgFree != []
    ensures Adopt(b, i, m, pub).nodes == b.nodes
  {
  }

  lemma SameWindow(b: Broker, r: Broker, i: nat, pub: Incoming)
    requires i < |b.clients| && Shaped(b.clients[i].slots) && r == Noted(b, i, pub)
    ensures InBuffer(b, i, pub) <==> InBuffer(r, i, pub)
  {
  }

  lemma FewMessages(b: Broker)
    requires Inv(b)
    ensures |b.p.msgs| < INVALID
  {
    hide SlotInv, SubsInv, RecvInv, ClientsWell, Partitioned;
  }

  /** As long as PUBLISH offsets come from the parser, no event makes a message in use reach outside its buffer. */
  lemma StepPlaced(b: Broker, e: Event)
    requires Inv(b) && Possible(b, e) && AllPlaced(b.p) && (e.Publish? ==> InBuffer(b, e.i, e.pub))
    ensures Shapes(b) && AllPlaced(Step(b, e).p)
  {
    hide Inv, Placed, InBuffer, PublishReceived, PublishPossible, AcceptPossible, CloseDone, EgressFlush, SweepClient, EgressCqe, PubackReceived,
         PubrecReceived, Untouched;
    InvHasShapes(b);
    if e.Publish? {
      PublishPlaced(b, e.i, e.pub, e.matches);
    } else {
      NoneRevived(b, e);
      forall m: nat | Live(Step(b, e).p, m)
        ensures m < INVALID && Placed(Step(b, e).p, m)
      {
        LiveMessageStays(b, e, m);
        UntouchedPlaced(b.p, Step(b, e).p, m);
      }
    }
  }

  /** The offsets of every PUBLISH of the run lie in the publisher's buffer at that time. */
  ghost predicate OffsetsParsed(b: Broker, es: seq<Event>)
    requires Inv(b) && Feasible(b, es)
    decreases es
  {
    es != [] ==>
      && (es[0].Publish? ==> InBuffer(b, es[0].i, es[0].pub))
      && (StepKeeps(b, es[0]); OffsetsParsed(Step(b, es[0]), es[1..]))
  }

  lemma {:induction false} RunPlaced(b: Broker, es: seq<Event>)
    requires Inv(b) && Feasible(b, es) && AllPlaced(b.p) && OffsetsParsed(b, es)
    ensures AllPlaced(Run(b, es).p)
    decreases es
  {
    hide Inv, Possible, Step, AllPlaced, InBuffer;
    if es != [] {
      StepKeeps(b, es[0]);
      StepPlaced(b, es[0]);
      RunPlaced(Step(b, es[0]), es[1..]);
    }
  }
}
