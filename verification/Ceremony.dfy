/** The subscriber side of the QoS ceremonies (src/broker/mqtt_fsm.h). */
module Ceremony {
  import opened Common
  import opened Inflight
  import opened Shared
  import opened Egress
  import opened Flush
  import opened Qos2

  const MAX_RETRIES := 3 // LLMQ_MAX_RETRIES

  datatype Delivery = Delivery(site: Site, ok: bool)

  function WireLenBytes(p: Pools, m: u32, qos: byte): (b: seq<byte>)
    ensures |b| == 8
  {
    (if m < |p.msgs| then StoreWireLen(WireLen(p.msgs[m], qos) % 0x1_0000_0000) else [0, 0, 0, 0]) + [0, 0, 0, 0]
  }

  function PublishSeg(s: Site, m: u32, packetId: u16, qos: byte, dup: bool): Seg {
    Seg(m, packetId, SEG_PUBLISH, qos, dup, m < |s.p.msgs| && s.p.msgs[m].retain,
        s.c.generation, 0, WireLenBytes(s.p, m, qos), 0)
  }

  function Push(c: Client, seg: Seg): Client { c.(queue := c.queue + [seg]) }

  /** fsm_sub_start_delivery */
  function StartDelivery(s: Site, m: u32, qos: byte): Delivery
    requires Shaped(s.c.slots)
  {
    var p := Ref(s.p, m);
    if Full(s.c) then Delivery(Site(Release(p, m), s.c), false)
    else Delivery(EgressFlush(Site(p, Push(s.c, PublishSeg(s.(p := p), m, 0, qos, false)))).site, true)
  }

  /** The flush that follows a freed inflight slot. */
  function Kick(s: Site): (r: Site)
    requires Shaped(s.c.slots)
    ensures Shaped(r.c.slots)
  {
    if s.c.queue != [] && !s.c.writing then EgressFlush(s).site else s
  }

  /** Release the message of an outgoing entry and free the entry. */
  function Finish(s: Site, slot: nat): (r: Site)
    requires slot < |s.c.slots.hot|
    ensures Shaped(s.c.slots) ==> Shaped(r.c.slots)
  {
    Site(Release(s.p, s.c.slots.hot[slot].msgIdx), s.c.(slots := FreeSlot(s.c.slots, slot)))
  }

  /** The slot of an outgoing entry in the given state with this id, or -1. */
  function Awaiting(c: Client, id: u16, state: InflightState): (slot: int)
    requires Shaped(c.slots)
    ensures -1 <= slot < |c.slots.hot|
  {
    var slot := FindDirect(c.slots.hot, id);
    if 0 <= slot < |c.slots.hot| && c.slots.hot[slot].state == state then slot else -1
  }

  /** fsm_sub_puback_received */
  function PubackReceived(s: Site, id: u16): (r: Site)
    requires Shaped(s.c.slots)
    ensures Shaped(r.c.slots)
  {
    var slot := Awaiting(s.c, id, WaitPuback);
    if slot < 0 then s else Kick(Finish(s, slot))
  }

  function PubrelSeg(generation: byte, id: u16): Seg {
    Seg(INVALID, 0, SEG_CTRL, 0, false, false, generation, 4, [0x62, 0x02, id / 0x100, id % 0x100, 0, 0, 0, 0], 0)
  }

  /** enqueue_pubrel; on a full ring the packet goes out through a response slot instead. */
  function EnqueuePubrel(c: Client, id: u16): Client {
    if Full(c) then c else Push(c, PubrelSeg(c.generation, id))
  }

  /** fsm_sub_pubrec_received */
  function PubrecReceived(s: Site, id: u16): (r: Site)
    requires Shaped(s.c.slots)
    ensures Shaped(r.c.slots)
  {
    var slot := Awaiting(s.c, id, WaitPubrec);
    if slot < 0 then
      var s1 := s.(c := EnqueuePubrel(s.c, id));
      if !s1.c.writing then EgressFlush(s1).site else s1
    else
      var s1 := Finish(s, slot);
      Kick(s1.(c := EnqueuePubrel(s1.c, id)))
  }

  /** fsm_sub_timeout */
  function Timeout(s: Site, slot: nat): (r: Site)
    requires Shaped(s.c.slots) && slot < |s.c.slots.hot|
    ensures Shaped(r.c.slots) && |r.c.slots.hot| == |s.c.slots.hot|
  {
    var cold := s.c.slots.cold[slot];
    if cold.dupCount >= MAX_RETRIES then Finish(s, slot)
    else
      var cold' := cold.(dupCount := cold.dupCount + 1, deadline := s.p.now + INFLIGHT_TIMEOUT_MS);
      var s1 := s.(c := s.c.(slots := s.c.slots.(cold := s.c.slots.cold[slot := cold'])));
      if Full(s.c) then Finish(s1, slot)
      else
        var hot := s.c.slots.hot[slot];
        var f := EgressFlush(s1.(c := Push(s1.c, PublishSeg(s1, hot.msgIdx, hot.packetId, cold.qos, true))));
        FlushSlotCount(s1.(c := Push(s1.c, PublishSeg(s1, hot.msgIdx, hot.packetId, cold.qos, true))));
        f.site
  }

  lemma {:induction false} GatherSlotCount(p: Pools, c: Client, i: nat)
    requires Shaped(c.slots)
    ensures |Gather(p, c, i).c.slots.hot| == |c.slots.hot|
    decreases EGRESS_BATCH_MAX - i
  {
    if i < EGRESS_BATCH_MAX && i < |c.queue| && Joins(p, c, i) {
      if NeedsId(c.queue[i]) {
        var t := Alloc(c.slots, c.queue[i].qos, c.queue[i].msgIdx, p.now + INFLIGHT_TIMEOUT_MS);
        if t.slot >= 0 {
          GatherSlotCount(p, Numbered(c, i, t), i + 1);
        }
      } else {
        GatherSlotCount(p, c, i + 1);
      }
    }
  }

  lemma FlushSlotCount(s: Site)
    requires Shaped(s.c.slots)
    ensures |EgressFlush(s).site.c.slots.hot| == |s.c.slots.hot|
  {
    PreCleanShape(s);
    GatherSlotCount(PreClean(s).p, PreClean(s).c, 0);
  }

  /** An outgoing entry past its deadline. */
  predicate Expired(s: Site, slot: nat)
    requires Shaped(s.c.slots) && slot < |s.c.slots.hot|
  {
    var cold := s.c.slots.cold[slot];
    cold.deadline != 0 && s.p.now > cold.deadline && s.c.slots.hot[slot].direction == OUTGOING
  }

  /** The loop of fsm_sweep_client; its bound is the current inflight count. */
  function Sweep(s: Site, i: nat, found: nat): (r: Site)
    requires Shaped(s.c.slots)
    ensures Shaped(r.c.slots)
    decreases |s.c.slots.hot| - i
  {
    if i >= |s.c.slots.hot| || found >= s.c.slots.count then s
    else if s.c.slots.hot[i].state == Free then Sweep(s, i + 1, found)
    else if Expired(s, i) then Sweep(Timeout(s, i), i + 1, found + 1)
    else Sweep(s, i + 1, found + 1)
  }

  /** fsm_sweep_client */
  function SweepClient(s: Site): Site
    requires Shaped(s.c.slots)
  {
    if s.c.state != Active || s.c.slots.count == 0 then s else Sweep(s, 0, 0)
  }

  /** The queue drain of fsm_client_disconnect. */
  function Drain(s: Site): Site
    decreases |s.c.queue|
  {
    if s.c.queue == [] then s else Drain(DiscardHead(s))
  }

  /** The release loop of fsm_client_disconnect; the entries themselves stay. */
  function ReleaseEntries(p: Pools, hot: seq<Hot>, count: int, i: nat, found: nat): Pools
    decreases |hot| - i
  {
    if i >= |hot| || found >= count then p
    else if hot[i].state == Free then ReleaseEntries(p, hot, count, i + 1, found)
    else
      ReleaseEntries(if hot[i].direction == OUTGOING && hot[i].msgIdx != INVALID then Release(p, hot[i].msgIdx) else p,
                     hot, count, i + 1, found + 1)
  }

  /** fsm_client_disconnect */
  function Disconnect(s: Site): Site {
    var s1 := Drain(s);
    if s1.c.slots.count == 0 then s1
    else s1.(p := ReleaseEntries(s1.p, s1.c.slots.hot, s1.c.slots.count, 0, 0))
  }
}
