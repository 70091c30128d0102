/** What acknowledgements, deliveries and timeouts do to one client, entry by entry (src/broker/mqtt_fsm.h). */
module Acks {
  import opened Common
  import opened Inflight
  import opened Shared
  import opened Egress
  import opened Flush
  import opened Ceremony
  import opened Qos2

  // ---- which entry an acknowledgement names ----

  /** The outgoing entry in this state with this id. */
  predicate Awaits(c: Client, id: u16, state: InflightState, slot: int) {
    0 <= slot < |c.slots.hot| && Outgoing(c.slots.hot[slot]) && c.slots.hot[slot].state == state && c.slots.hot[slot].packetId == id
  }

  /** An acknowledgement is for a slot if and only if the slot holds the outgoing entry that waits for it with this id. */
  lemma AwaitingIff(c: Client, id: u16, state: InflightState, slot: int)
    requires Consistent(c.slots) && (state == WaitPuback || state == WaitPubrec)
    ensures slot >= 0 ==> (Awaiting(c, id, state) == slot <==> Awaits(c, id, state, slot))
    ensures Awaiting(c, id, state) < 0 <==> forall t :: 0 <= t < |c.slots.hot| ==> !Awaits(c, id, state, t)
  {
    var d := Awaiting(c, id, state);
    if d >= 0 {
      assert EntryOk(c.slots.hot, d);
      assert Awaits(c, id, state, d);
    }
    forall t | Awaits(c, id, state, t) ensures d == t {
      assert EntryOk(c.slots.hot, t);
    }
  }

  /** Finishing an entry frees this entry, gives up its reference and changes nothing else. */
  lemma FinishExact(s: Site, slot: nat)
    requires Consistent(s.c.slots) && slot < |s.c.slots.hot| && s.c.slots.hot[slot].state != Free
    ensures var r := Finish(s, slot); var v := s.c.slots;
            && r.c == s.c.(slots := r.c.slots) && r.p == Release(s.p, v.hot[slot].msgIdx)
            && r.c.slots == v.(hot := v.hot[slot := v.hot[slot].(state := Free, msgIdx := INVALID)], count := v.count - 1)
            && Consistent(r.c.slots)
  {
    FreeSlotKeeps(s.c.slots, slot);
    CountDecides(s.c.slots.hot);
  }

  /** Entries in use stay as they are, both halves. */
  ghost predicate KeepsEntries(v: Slots, w: Slots) {
    && |w.hot| == |v.hot| && |w.cold| == |v.cold| == |v.hot|
    && forall t :: 0 <= t < |v.hot| && v.hot[t].state != Free ==> w.hot[t] == v.hot[t] && w.cold[t] == v.cold[t]
  }

  lemma {:induction false} GatherKeepsEntries(p: Pools, c: Client, i: nat)
    requires Shaped(c.slots) && Consistent(c.slots)
    ensures KeepsEntries(c.slots, Gather(p, c, i).c.slots)
    decreases EGRESS_BATCH_MAX - i
  {
    hide Consistent, Alloc, Joins;
    if i < EGRESS_BATCH_MAX && i < |c.queue| && Joins(p, c, i) {
      if NeedsId(c.queue[i]) {
        var t := Alloc(c.slots, c.queue[i].qos, c.queue[i].msgIdx, p.now + INFLIGHT_TIMEOUT_MS);
        if t.slot >= 0 {
          AllocKeeps(c.slots, c.queue[i].qos, c.queue[i].msgIdx, p.now + INFLIGHT_TIMEOUT_MS);
          GatherKeepsEntries(p, Numbered(c, i, t), i + 1);
        }
      } else {
        GatherKeepsEntries(p, c, i + 1);
      }
    }
  }

  /** A flush takes free slots only. */
  lemma FlushKeepsEntries(s: Site)
    requires Shaped(s.c.slots) && Consistent(s.c.slots)
    ensures KeepsEntries(s.c.slots, EgressFlush(s).site.c.slots)
  {
    hide Consistent, PreClean, Gather;
    PreCleanShape(s);
    GatherKeepsEntries(PreClean(s).p, PreClean(s).c, 0);
  }

  // ---- the last segment of the queue ----

  predicate Sendable(s: Seg, generation: byte) {
    !Unsendable(s, generation) && !NeedsId(s)
  }

  predicate EndsIn(c: Client, s: Seg) {
    c.queue != [] && c.queue[|c.queue| - 1] == s
  }

  lemma {:induction false} PreCleanKeepsLast(s: Site, last: Seg)
    requires EndsIn(s.c, last) && Sendable(last, s.c.generation)
    ensures EndsIn(PreClean(s).c, last)
    decreases |s.c.queue|
  {
    if Unsendable(s.c.queue[0], s.c.generation) {
      PreCleanKeepsLast(DiscardHead(s), last);
    }
  }

  lemma {:induction false} GatherKeepsLast(p: Pools, c: Client, i: nat, last: Seg)
    requires Shaped(c.slots) && EndsIn(c, last) && !NeedsId(last)
    ensures EndsIn(Gather(p, c, i).c, last)
    decreases EGRESS_BATCH_MAX - i
  {
    hide Alloc, Joins;
    if i < EGRESS_BATCH_MAX && i < |c.queue| && Joins(p, c, i) {
      if NeedsId(c.queue[i]) {
        var t := Alloc(c.slots, c.queue[i].qos, c.queue[i].msgIdx, p.now + INFLIGHT_TIMEOUT_MS);
        AllocShape(c.slots, c.queue[i].qos, c.queue[i].msgIdx, p.now + INFLIGHT_TIMEOUT_MS);
        if t.slot >= 0 {
          GatherKeepsLast(p, Numbered(c, i, t), i + 1, last);
        }
      } else {
        GatherKeepsLast(p, c, i + 1, last);
      }
    }
  }

  lemma AllocShape(v: Slots, qos: byte, m: u32, deadline: int)
    requires Shaped(v)
    ensures Shaped(Alloc(v, qos, m, deadline).slots)
  {
  }

  /** What was queued last and can be sent is still last after a flush. */
  lemma FlushKeepsLast(s: Site, last: Seg)
    requires Shaped(s.c.slots) && EndsIn(s.c, last) && Sendable(last, s.c.generation)
    ensures EndsIn(EgressFlush(s).site.c, last)
  {
    hide PreClean, Gather, Unsendable;
    PreCleanShape(s);
    PreCleanKeepsLast(s, last);
    GatherKeepsLast(PreClean(s).p, PreClean(s).c, 0, last);
  }

  // ---- the ceremonies ----

  /** A PUBACK with no entry waiting for it changes nothing. Otherwise the entry is freed with its reference, the queue is
      kicked, and every other entry in use stays as it is. */
  lemma PubackExact(s: Site, id: u16)
    requires Consistent(s.c.slots) && Shaped(s.c.slots)
    ensures (forall t :: 0 <= t < |s.c.slots.hot| ==> !Awaits(s.c, id, WaitPuback, t)) ==> PubackReceived(s, id) == s
    ensures forall t: nat :: t < |s.c.slots.hot| && Awaits(s.c, id, WaitPuback, t) ==>
              && Shaped(Finish(s, t).c.slots)
              && PubackReceived(s, id) == Kick(Finish(s, t))
              && KeepsEntries(Finish(s, t).c.slots, PubackReceived(s, id).c.slots)
  {
    hide Consistent, Kick, Finish, KeepsEntries;
    AwaitingIff(s.c, id, WaitPuback, 0);
    forall t: nat | t < |s.c.slots.hot| && Awaits(s.c, id, WaitPuback, t)
      ensures Shaped(Finish(s, t).c.slots) && PubackReceived(s, id) == Kick(Finish(s, t))
      ensures KeepsEntries(Finish(s, t).c.slots, PubackReceived(s, id).c.slots)
    {
      AwaitingIff(s.c, id, WaitPuback, t);
      FinishExact(s, t);
      KickKeepsEntries(Finish(s, t));
    }
  }

  lemma KickKeepsEntries(s: Site)
    requires Consistent(s.c.slots) && Shaped(s.c.slots)
    ensures KeepsEntries(s.c.slots, Kick(s).c.slots)
  {
    hide Consistent, EgressFlush;
    FlushKeepsEntries(s);
  }

  /** A PUBREC frees the entry that waits for it with its reference, if there is one, and always queues PUBREL with its id
      behind everything else, unless the ring is full. Every other entry in use stays as it is. */
  lemma PubrecExact(s: Site, id: u16)
    requires Consistent(s.c.slots) && Shaped(s.c.slots)
    ensures !Full(s.c) ==> EndsIn(PubrecReceived(s, id).c, PubrelSeg(s.c.generation, id))
    ensures (forall t :: 0 <= t < |s.c.slots.hot| ==> !Awaits(s.c, id, WaitPubrec, t)) ==>
              KeepsEntries(s.c.slots, PubrecReceived(s, id).c.slots)
    ensures forall t: nat :: t < |s.c.slots.hot| && Awaits(s.c, id, WaitPubrec, t) ==>
              && KeepsEntries(Finish(s, t).c.slots, PubrecReceived(s, id).c.slots)
              && var f := Finish(s, t).(c := EnqueuePubrel(Finish(s, t).c, id));
                 Shaped(f.c.slots) && PubrecReceived(s, id) == Kick(f)
  {
    hide Consistent, Finish, KeepsEntries, EgressFlush, Kick;
    var d := Awaiting(s.c, id, WaitPubrec);
    AwaitingIff(s.c, id, WaitPubrec, d);
    assert Sendable(PubrelSeg(s.c.generation, id), s.c.generation);
    if d >= 0 {
      FinishExact(s, d);
      var f := Finish(s, d).(c := EnqueuePubrel(Finish(s, d).c, id));
      KickKeepsEntries(f);
      KickKeepsLast(f, PubrelSeg(s.c.generation, id));
      forall t: nat | t < |s.c.slots.hot| && Awaits(s.c, id, WaitPubrec, t) ensures t == d {
        AwaitingIff(s.c, id, WaitPubrec, t);
      }
    } else {
      var f := s.(c := EnqueuePubrel(s.c, id));
      FlushKeepsEntries(f);
      SameEntries(s.c.slots);
      if !Full(s.c) {
        FlushKeepsLast(f, PubrelSeg(s.c.generation, id));
      }
    }
  }

  /** What a PUBACK frees lets the queue go on in the same call: the queue is flushed. */
  lemma PubackFlushes(s: Site, id: u16, t: nat)
    requires Consistent(s.c.slots) && Shaped(s.c.slots) && Awaits(s.c, id, WaitPuback, t)
    ensures Shaped(Finish(s, t).c.slots) && PubackReceived(s, id) == EgressFlush(Finish(s, t)).site
  {
    hide Consistent, Finish, EgressFlush, Awaiting;
    AwaitingIff(s.c, id, WaitPuback, t);
    FinishExact(s, t);
    KickIsFlush(Finish(s, t));
  }

  /** The entry that waits for a PUBREC is finished, if there is one. */
  function Finished(s: Site, slot: int): Site
    requires slot < |s.c.slots.hot|
  {
    if slot >= 0 then Finish(s, slot) else s
  }

  /** And so is the queue after every PUBREC, with or without an entry, once the PUBREL is in it. */
  lemma PubrecFlushes(s: Site, id: u16)
    requires Consistent(s.c.slots) && Shaped(s.c.slots)
    ensures exists t: int :: t < |s.c.slots.hot| && (t >= 0 <==> Awaits(s.c, id, WaitPubrec, t))
              && var f := Finished(s, t); var x := f.(c := EnqueuePubrel(f.c, id));
                 Shaped(x.c.slots) && PubrecReceived(s, id) == EgressFlush(x).site
  {
    hide Consistent, Finish, EgressFlush, Awaiting, EnqueuePubrel;
    var d := Awaiting(s.c, id, WaitPubrec);
    AwaitingIff(s.c, id, WaitPubrec, d);
    if d >= 0 {
      FinishExact(s, d);
    }
    var f := Finished(s, d);
    EnqueueShape(f.c, id);
    KickIsFlush(f.(c := EnqueuePubrel(f.c, id)));
  }

  lemma EnqueueShape(c: Client, id: u16)
    ensures EnqueuePubrel(c, id) == c.(queue := EnqueuePubrel(c, id).queue)
  {
  }

  lemma KickIsFlush(s: Site)
    requires Shaped(s.c.slots)
    ensures Kick(s) == EgressFlush(s).site
    ensures s.c.writing ==> EgressFlush(s).site == s
  {
  }

  lemma SameEntries(v: Slots)
    requires Shaped(v)
    ensures KeepsEntries(v, v)
  {
  }

  lemma KickKeepsLast(s: Site, last: Seg)
    requires Shaped(s.c.slots)
    ensures EndsIn(s.c, last) && Sendable(last, s.c.generation) ==> EndsIn(Kick(s).c, last)
  {
    hide EgressFlush, Sendable;
    if EndsIn(s.c, last) && Sendable(last, s.c.generation) {
      FlushKeepsLast(s, last);
    }
  }

  /** The site in which fsm_sub_start_delivery flushes: one reference more, and one segment that owns it. */
  function Enqueued(s: Site, m: u32, qos: byte): Site {
    var p := Ref(s.p, m);
    Site(p, Push(s.c, PublishSeg(s.(p := p), m, 0, qos, false)))
  }

  /** A full ring leaves everything as it was, the reference included. Otherwise the client owns one reference more, the
      message counts one owner more, and a segment of this message and QoS is queued last. */
  lemma DeliveryExact(s: Site, m: u32, qos: byte)
    requires Shaped(s.c.slots) && Connected(s.c) && m < |s.p.msgs| && m != INVALID
    requires 0 < s.p.msgs[m].refCount < 0xFFFF_FFFF
    ensures Full(s.c) ==> StartDelivery(s, m, qos) == Delivery(s, false)
    ensures !Full(s.c) ==>
              var x := Enqueued(s, m, qos);
              && Shaped(x.c.slots) && StartDelivery(s, m, qos) == Delivery(EgressFlush(x).site, true)
              && Refs(x.c) == Refs(s.c) + multiset{m} && x.p.msgs[m].refCount == s.p.msgs[m].refCount + 1
              && x.c.queue[..|s.c.queue|] == s.c.queue && |x.c.queue| == |s.c.queue| + 1
              && x.c.queue[|s.c.queue|].msgIdx == m && x.c.queue[|s.c.queue|].qos == qos && Owns(x.c.queue[|s.c.queue|])
  {
    hide EgressFlush, EntryRefs, QueueRefs, LoadWireLen;
    var x := Enqueued(s, m, qos);
    if Full(s.c) {
      var p := Ref(s.p, m);
      assert Release(p, m).msgs == s.p.msgs;
    } else {
      QueuePush(s.c.queue, x.c.queue[|s.c.queue|]);
    }
  }

  /** An expired entry is given up after the last retry or with a full ring: it is freed with its reference. Otherwise it
      stays, one retry older, and its PUBLISH goes to the end of the queue again with the same message, id and QoS and with
      DUP; that segment owns no reference. */
  lemma TimeoutExact(s: Site, slot: nat)
    requires Consistent(s.c.slots) && Shaped(s.c.slots) && Connected(s.c) && slot < |s.c.slots.hot| && Outgoing(s.c.slots.hot[slot])
    ensures var v, e, cold := s.c.slots, s.c.slots.hot[slot], s.c.slots.cold[slot];
            var late := v.(cold := v.cold[slot := cold.(dupCount := (cold.dupCount + 1) % 0x100, deadline := s.p.now + INFLIGHT_TIMEOUT_MS)]);
            && (cold.dupCount >= MAX_RETRIES ==> Timeout(s, slot) == Finish(s, slot))
            && (cold.dupCount < MAX_RETRIES && Full(s.c) ==> Timeout(s, slot) == Finish(s.(c := s.c.(slots := late)), slot))
            && (cold.dupCount < MAX_RETRIES && !Full(s.c) ==>
                  exists seg ::
                    var x := s.(c := s.c.(slots := late, queue := s.c.queue + [seg]));
                    && Shaped(late) && Timeout(s, slot) == EgressFlush(x).site && Refs(x.c) == Refs(s.c)
                    && seg.kind == SEG_PUBLISH && seg.msgIdx == e.msgIdx && seg.packetId == e.packetId && seg.qos == cold.qos && seg.dup
                    && KeepsEntries(late, Timeout(s, slot).c.slots))
  {
    hide Finish, EgressFlush, LoadWireLen, EntryRefs, QueueRefs, KeepsEntries;
    var v, e, cold := s.c.slots, s.c.slots.hot[slot], s.c.slots.cold[slot];
    if cold.dupCount < MAX_RETRIES && !Full(s.c) {
      var late := v.(cold := v.cold[slot := cold.(dupCount := (cold.dupCount + 1) % 0x100, deadline := s.p.now + INFLIGHT_TIMEOUT_MS)]);
      var s1 := s.(c := s.c.(slots := late));
      var seg := PublishSeg(s1, e.msgIdx, e.packetId, cold.qos, true);
      var x := s.(c := s.c.(slots := late, queue := s.c.queue + [seg]));
      assert EntryOk(v.hot, slot);
      QueuePush(s.c.queue, seg);
      assert Refs(x.c) == Refs(s.c);
      FlushKeepsEntries(x);
      assert Timeout(s, slot) == EgressFlush(x).site;
    }
  }
}
