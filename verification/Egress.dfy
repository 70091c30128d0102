/** Egress segments (src/broker/egress.h) and the client record they queue on (src/broker/client.h). */
module Egress {
  import opened Common
  import opened Bags
  import opened Inflight
  import opened Packet
  import Publish
  import opened Shared

  const SEG_PUBLISH: byte := 0
  const SEG_CTRL: byte := 1
  const EGRESS_BATCH_MAX := 64

  /** egress_segment. For SEG_PUBLISH the first four ctrl bytes hold the wire length. */
  datatype Seg = Seg(msgIdx: u32, packetId: u16, kind: byte, qos: byte, dup: bool, retain: bool,
                     slotGen: byte, ctrlLen: byte, ctrl: seq<byte>, cursor: u32)

  datatype ClientState = Vacant | Active | Dormant | Closing

  /** client_slot, without the identity, response and pending-message fields. The ring is the sequence it holds. */
  datatype Client = Client(state: ClientState, cleanSession: bool, generation: byte, fd: int,
                           recvPending: bool, recvBuf: u32, orphan: u32,
                           slots: Slots,
                           queue: seq<Seg>, capacity: nat, writing: bool, batch: byte)

  /** One client and the pools it shares. */
  datatype Site = Site(p: Pools, c: Client)

  predicate Connected(c: Client) { c.state == Active || c.state == Closing }

  /** egress_full */
  predicate Full(c: Client) { |c.queue| >= c.capacity }

  /** egress_seg_store_wire_len */
  function StoreWireLen(len: u32): (b: seq<byte>)
    ensures |b| == 4
  {
    [len % 0x100, len / 0x100 % 0x100, len / 0x1_0000 % 0x100, len / 0x100_0000]
  }

  /** egress_seg_load_wire_len */
  function LoadWireLen(s: Seg): u32 {
    if |s.ctrl| < 4 then 0
    else
      var b0: int, b1: int, b2: int, b3: int := s.ctrl[0], s.ctrl[1], s.ctrl[2], s.ctrl[3];
      b0 + b1 * 0x100 + b2 * 0x1_0000 + b3 * 0x100_0000
  }

  lemma WireLenRoundTrip(s: Seg, len: u32, rest: seq<byte>)
    requires s.ctrl == StoreWireLen(len) + rest
    ensures LoadWireLen(s) == len
  {
    var b := StoreWireLen(len);
    assert s.ctrl[0] == b[0] && s.ctrl[1] == b[1] && s.ctrl[2] == b[2] && s.ctrl[3] == b[3];
    assert len / 0x1_0000 == len / 0x100 / 0x100 && len / 0x100_0000 == len / 0x100 / 0x100 / 0x100;
  }

  /** egress_publish_wire_len */
  function WireLen(m: Msg, qos: byte): nat {
    var remaining := Publish.Remaining(m.topicLen, m.payloadLen, qos);
    1 + |Vbi(remaining)| + remaining
  }

  /** The loop of egress_publish_wire_len: one more byte for every seven bits. */
  method ComputeWireLen(m: Msg, qos: byte) returns (len: nat)
    ensures len == WireLen(m, qos)
  {
    var remaining := 2 + m.topicLen + m.payloadLen;
    if qos > 0 {
      remaining := remaining + 2;
    }
    var total, x, more := 1, remaining, true;
    while more
      invariant x >= 0
      invariant total + (if more then |Vbi(x)| else 0) == 1 + |Vbi(remaining)|
      decreases more, x
    {
      total := total + 1;
      x := x / 0x80;
      more := x > 0;
    }
    return total + remaining;
  }

  /** Length of the segment on the wire, as the completion handler reads it. */
  function SegLen(s: Seg): u32 {
    if s.kind == SEG_CTRL then s.ctrlLen else LoadWireLen(s)
  }

  // ---- what a segment puts on the wire ----

  function Slice(b: seq<byte>, off: nat, len: nat): seq<byte> {
    if off + len <= |b| then b[off..off + len] else []
  }

  function Topic(p: Pools, m: u32): seq<byte>
    requires m < |p.msgs| && p.msgs[m].bufIdx < |p.bufs|
  {
    Slice(p.bufs[p.msgs[m].bufIdx], p.msgs[m].topicOff, p.msgs[m].topicLen)
  }

  function Payload(p: Pools, m: u32): seq<byte>
    requires m < |p.msgs| && p.msgs[m].bufIdx < |p.bufs|
  {
    Slice(p.bufs[p.msgs[m].bufIdx], p.msgs[m].payloadOff, p.msgs[m].payloadLen)
  }

  /** The message exists and lies inside its buffer. */
  predicate Placed(p: Pools, m: u32) {
    && m < |p.msgs|
    && p.msgs[m].bufIdx < |p.bufs|
    && p.msgs[m].topicOff + p.msgs[m].topicLen <= |p.bufs[p.msgs[m].bufIdx]|
    && p.msgs[m].payloadOff + p.msgs[m].payloadLen <= |p.bufs[p.msgs[m].bufIdx]|
  }

  /** The fixed header and topic length materialized for a PUBLISH segment. */
  function Head(p: Pools, s: Seg): seq<byte>
    requires s.msgIdx < |p.msgs|
  {
    var m := p.msgs[s.msgIdx];
    FixedHeader(MQTT_PUBLISH, Publish.FlagsOf(s.retain, s.qos, s.dup),
                Publish.Remaining(m.topicLen, m.payloadLen, s.qos))
    + Publish.Bytes16(m.topicLen)
  }

  /** The four scatter-gather pieces of a PUBLISH segment. */
  function PublishIov(p: Pools, s: Seg): (v: seq<seq<byte>>)
    requires s.msgIdx < |p.msgs| && p.msgs[s.msgIdx].bufIdx < |p.bufs|
    ensures |v| == 4
  {
    [Head(p, s), Topic(p, s.msgIdx), if s.qos > 0 then Publish.Bytes16(s.packetId) else [], Payload(p, s.msgIdx)]
  }

  /** The complete packet a segment stands for. */
  ghost function Wire(p: Pools, s: Seg): seq<byte> {
    if s.kind == SEG_CTRL then Slice(s.ctrl, 0, s.ctrlLen)
    else if s.msgIdx < |p.msgs| && p.msgs[s.msgIdx].bufIdx < |p.bufs| then Flatten(PublishIov(p, s))
    else []
  }

  /** The pieces of a PUBLISH segment are exactly the packet that the encoder of src/mqtt/publish.h writes,
      its length is the stored wire length, and the materialized header fits its seven bytes. */
  lemma WireIsEncodedPublish(p: Pools, s: Seg)
    requires s.kind == SEG_PUBLISH && Placed(p, s.msgIdx)
    ensures Wire(p, s) == Publish.Encoded(Publish.Message(s.retain, s.qos, s.dup, Topic(p, s.msgIdx),
                                                          s.packetId, Payload(p, s.msgIdx)))
    ensures |Wire(p, s)| == WireLen(p.msgs[s.msgIdx], s.qos)
    ensures Publish.Remaining(p.msgs[s.msgIdx].topicLen, p.msgs[s.msgIdx].payloadLen, s.qos) < VBI_LIMIT
            ==> |Head(p, s)| <= 7 && |Wire(p, s)| == Publish.PublishSize(|Topic(p, s.msgIdx)|, |Payload(p, s.msgIdx)|, s.qos)
  {
    hide Vbi, FixedHeader, Flatten;
    var m := Publish.Message(s.retain, s.qos, s.dup, Topic(p, s.msgIdx), s.packetId, Payload(p, s.msgIdx));
    var v := PublishIov(p, s);
    FlattenFour(v);
    HeaderSize(MQTT_PUBLISH, Publish.FlagsOf(s.retain, s.qos, s.dup), |Publish.Body(m)|);
    HeadFirst(FixedHeader(MQTT_PUBLISH, Publish.FlagsOf(s.retain, s.qos, s.dup), |Publish.Body(m)|),
              Publish.Bytes16(|m.topic|), v[1], v[2], v[3]);
    VbiSize(|Publish.Body(m)|);
    Publish.SizeIsEncodedLength(m);
  }

  lemma HeaderSize(kind: byte, flags: byte, remaining: nat)
    requires kind < 0x10 && flags < 0x10
    ensures |FixedHeader(kind, flags, remaining)| == 1 + |Vbi(remaining)|
  {
  }

  lemma HeadFirst(head: seq<byte>, size: seq<byte>, topic: seq<byte>, id: seq<byte>, payload: seq<byte>)
    ensures head + (size + topic + id + payload) == (head + size) + topic + id + payload
  {
  }

  lemma FlattenFour(v: seq<seq<byte>>)
    requires |v| == 4
    ensures Flatten(v) == v[0] + v[1] + v[2] + v[3]
  {
    assert Flatten(v) == v[0] + Flatten(v[1..]);
    assert Flatten(v[1..]) == v[1] + Flatten(v[2..]);
    assert Flatten(v[2..]) == v[2] + Flatten(v[3..]);
    assert Flatten(v[3..]) == v[3] + [];
  }

  // ---- the references a client owns ----

  predicate Owns(s: Seg) {
    s.kind == SEG_PUBLISH && s.msgIdx != INVALID && s.packetId == 0
  }

  ghost function SegRef(s: Seg): multiset<int> {
    if Owns(s) then multiset{s.msgIdx} else multiset{}
  }

  ghost function EntryRef(e: Hot): multiset<int> {
    if Outgoing(e) && e.msgIdx != INVALID then multiset{e.msgIdx} else multiset{}
  }

  ghost function QueueBags(q: seq<Seg>): (b: seq<multiset<int>>)
    ensures |b| == |q| && forall k :: 0 <= k < |q| ==> b[k] == SegRef(q[k])
  {
    seq(|q|, k requires 0 <= k < |q| => SegRef(q[k]))
  }

  ghost function EntryBags(hot: seq<Hot>): (b: seq<multiset<int>>)
    ensures |b| == |hot| && forall k :: 0 <= k < |hot| ==> b[k] == EntryRef(hot[k])
  {
    seq(|hot|, k requires 0 <= k < |hot| => EntryRef(hot[k]))
  }

  ghost function QueueRefs(q: seq<Seg>): multiset<int> { Sum(QueueBags(q)) }

  ghost function EntryRefs(hot: seq<Hot>): multiset<int> { Sum(EntryBags(hot)) }

  /** Queued first sends that have no packet id yet, and outgoing inflight entries; a client that is not
      connected owns nothing, even though a dormant one keeps its entries. */
  ghost function Refs(c: Client): multiset<int> {
    if Connected(c) then QueueRefs(c.queue) + EntryRefs(c.slots.hot) else multiset{}
  }

  ghost function One(x: u32): multiset<int> {
    if x == INVALID then multiset{} else multiset{x}
  }

  /** The receive buffers a client slot holds. */
  ghost function Held(c: Client): multiset<int> {
    One(c.recvBuf) + One(c.orphan)
  }

  lemma QueuePush(q: seq<Seg>, s: Seg)
    ensures QueueRefs(q + [s]) == QueueRefs(q) + SegRef(s)
  {
    assert QueueBags(q + [s]) == QueueBags(q) + [SegRef(s)];
    SumPush(QueueBags(q), SegRef(s));
  }

  lemma QueuePop(q: seq<Seg>)
    requires q != []
    ensures QueueRefs(q) == SegRef(q[0]) + QueueRefs(q[1..])
  {
    assert QueueBags(q)[1..] == QueueBags(q[1..]);
  }

  lemma QueueUpdate(q: seq<Seg>, k: nat, s: Seg)
    requires k < |q|
    ensures QueueRefs(q[k := s]) + SegRef(q[k]) == QueueRefs(q) + SegRef(s)
  {
    assert QueueBags(q[k := s]) == QueueBags(q)[k := SegRef(s)];
    SumUpdate(QueueBags(q), k, SegRef(s));
  }

  lemma EntryUpdate(hot: seq<Hot>, k: nat, e: Hot)
    requires k < |hot|
    ensures EntryRefs(hot[k := e]) + EntryRef(hot[k]) == EntryRefs(hot) + EntryRef(e)
    ensures EntryRef(hot[k]) <= EntryRefs(hot)
  {
    assert EntryBags(hot[k := e]) == EntryBags(hot)[k := EntryRef(e)];
    SumUpdate(EntryBags(hot), k, EntryRef(e));
  }

  /** Neither list can name more messages than it has places, so no count reaches 2^32. */
  lemma RefsBounded(c: Client)
    requires |c.queue| <= c.capacity
    ensures |Refs(c)| <= c.capacity + |c.slots.hot|
  {
    SumSize(QueueBags(c.queue), 1);
    SumSize(EntryBags(c.slots.hot), 1);
  }
}
