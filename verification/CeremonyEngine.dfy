/** The subscriber side of the QoS ceremonies in place (src/broker/mqtt_fsm.h). Every method is tied to its
    value-level operation in module Ceremony. */
module CeremonyEngine {
  import opened Common
  import opened Inflight
  import opened PacketIdIndex
  import opened Shared
  import opened Egress
  import opened Flush
  import opened Ceremony
  import opened Conservation
  import opened Qos2
  import opened PoolObjects
  import opened ClientObjects
  import opened EgressEngine
  import opened EgressCompletion

  /** fsm_pub_received on a client. */
  method PublishCeremony(c: ClientSlot, qos: byte, id: u16, now: int) returns (forward: bool, reply: Reply)
    requires c.Valid()
    modifies c.repr
    ensures c.Valid() && Shaped(old(c.View().slots))
    ensures var o := PubReceived(old(c.View()).slots, qos, id, now);
            o.forward == forward && o.reply == reply && c.View() == old(c.View()).(slots := o.slots)
  {
    hide Consistent, Indexes, PubReceived;
    TableShaped(c.table.View());
    forward, reply := OnPublish(c.table, qos, id, now);
  }

  /** fsm_pub_pubrel_received on a client. */
  method PubrelCeremony(c: ClientSlot, id: u16) returns (reply: Reply)
    requires c.Valid()
    modifies c.repr
    ensures c.Valid() && Shaped(old(c.View().slots))
    ensures var o := PubrelReceived(old(c.View()).slots, id);
            o.reply == reply && c.View() == old(c.View()).(slots := o.slots)
  {
    hide Consistent, Indexes, PubrelReceived;
    TableShaped(c.table.View());
    reply := OnPubrel(c.table, id);
  }

  /** The segment fields that fsm_sub_start_delivery and fsm_sub_timeout fill in. */
  method MakeSegment(a: Resources, generation: byte, m: u32, packetId: u16, qos: byte, dup: bool) returns (s: Seg)
    requires a.Valid()
    ensures forall c: Client :: c.generation == generation ==> s == PublishSeg(Site(a.View(), c), m, packetId, qos, dup)
  {
    var retain, lenBytes := false, [0, 0, 0, 0];
    if m < a.msgPool.msgs.Length {
      retain := a.msgPool.msgs[m].retain;
      var len := ComputeWireLen(a.msgPool.msgs[m], qos);
      lenBytes := StoreWireLen(len % 0x1_0000_0000);
    }
    s := Seg(m, packetId, SEG_PUBLISH, qos, dup, retain, generation, 0, lenBytes + [0, 0, 0, 0], 0);
  }

  /** Taking a reference for one more subscriber leaves room to give it up again, and a queued segment carries it. */
  lemma DeliveryStep(s: Site, m: u32, qos: byte, X: multiset<int>, Y: multiset<int>)
    requires Fit(s, X, Y) && m in X && (X + Refs(s.c))[m] + 1 < 0x1_0000_0000
    ensures Full(s.c) ==> RoomFor(Ref(s.p, m), m)
    ensures !Full(s.c) ==> Fit(Site(Ref(s.p, m), Push(s.c, PublishSeg(s.(p := Ref(s.p, m)), m, 0, qos, false))), X, Y)
  {
    hide Sound, Consistent, Refs, LoadWireLen, RoomFor;
    RefKeeps(s.p, m, X + Refs(s.c), Y);
    var p := Ref(s.p, m);
    RefShape(s.p, m, X + Refs(s.c), Y);
    OwnedHasRoom(p, m, X + Refs(s.c) + multiset{m}, Y);
    if !Full(s.c) {
      var seg := PublishSeg(s.(p := p), m, 0, qos, false);
      PushOk(s.c, seg);
      assert X + Refs(s.c) + multiset{m} == X + Refs(Push(s.c, seg));
    }
  }

  /** fsm_sub_start_delivery */
  method Deliver(a: Resources, c: ClientSlot, m: u32, qos: byte, ghost X: multiset<int>, ghost Y: multiset<int>)
    returns (ok: bool, code: FlushCode)
    requires Together(a, c) && Fit(SiteOf(a, c), X, Y) && m in X && (X + Refs(c.View()))[m] + 1 < 0x1_0000_0000
    modifies a.repr, c.repr
    ensures Together(a, c) && Shaped(old(c.View().slots))
    ensures Delivery(SiteOf(a, c), ok) == StartDelivery(old(SiteOf(a, c)), m, qos)
  {
    hide Fit, Refs, EgressFlush, Release, Ref, RoomFor, Consistent, Indexes, LoadWireLen, PublishSeg, Push, Resources.Valid, Resources.View;
    TableShaped(c.table.View());
    DeliveryStep(SiteOf(a, c), m, qos, X, Y);
    code := Noop;
    a.Ref(m);
    if c.ring.count >= c.ring.segs.Length {
      a.Release(m);
      return false, Noop;
    }
    code := Enqueue(a, c, m, 0, qos, false, X, Y);
    ok := true;
  }

  /** A PUBLISH segment goes to the end of the queue and the queue is flushed. */
  method Enqueue(a: Resources, c: ClientSlot, m: u32, packetId: u16, qos: byte, dup: bool, ghost X: multiset<int>, ghost Y: multiset<int>)
    returns (code: FlushCode)
    requires Together(a, c) && c.ring.count < c.ring.segs.Length
    requires Fit(Site(a.View(), Push(c.View(), PublishSeg(SiteOf(a, c), m, packetId, qos, dup))), X, Y)
    modifies a.repr, c.repr
    ensures Together(a, c) && Shaped(old(c.View().slots))
    ensures SiteOf(a, c) == EgressFlush(old(Site(a.View(), Push(c.View(), PublishSeg(SiteOf(a, c), m, packetId, qos, dup))))).site
  {
    hide Fit, EgressFlush, Consistent, Indexes, PublishSeg, Resources.Valid, Resources.View;
    TableShaped(c.table.View());
    var seg := MakeSegment(a, c.generation, m, packetId, qos, dup);
    c.ring.Push(seg);
    var iov;
    code, iov := FlushEgress(a, c, X, Y);
  }

  /** The flush that follows a freed inflight slot. */
  method KickEgress(a: Resources, c: ClientSlot, ghost X: multiset<int>, ghost Y: multiset<int>)
    requires Together(a, c) && Fit(SiteOf(a, c), X, Y)
    modifies a.repr, c.repr
    ensures Together(a, c) && Shaped(old(c.View().slots)) && SiteOf(a, c) == Kick(old(SiteOf(a, c)))
  {
    hide Fit, EgressFlush, Consistent, Indexes;
    TableShaped(c.table.View());
    if c.ring.count > 0 && !c.writing {
      var code, iov := FlushEgress(a, c, X, Y);
    }
  }

  /** Ending an entry: its message can be released, and the books stay in order. */
  lemma FinishStep(s: Site, slot: nat, X: multiset<int>, Y: multiset<int>)
    requires Fit(s, X, Y) && slot < |s.c.slots.hot| && s.c.slots.hot[slot].state != Free
    ensures RoomFor(s.p, s.c.slots.hot[slot].msgIdx) && Fit(Finish(s, slot), X, Y)
  {
    hide Sound, Consistent, Refs, Finish, RoomFor;
    EntryHasRoom(s, slot, X, Y);
    FinishKeeps(s, slot, X, Y);
    KeepsFit(s, Finish(s, slot), X, Y);
  }

  /** The slot of an outgoing entry in the given state with this id, or -1. */
  method FindAwaiting(c: ClientSlot, id: u16, state: InflightState) returns (slot: int)
    requires c.Valid()
    ensures Shaped(c.View().slots) && slot == Awaiting(c.View(), id, state)
  {
    hide Indexes, Consistent;
    TableShaped(c.table.View());
    slot := c.table.LookupDirect(id);
    if slot >= 0 && c.table.hot[slot].state != state {
      slot := -1;
    }
  }

  /** fsm_sub_puback_received */
  method OnPuback(a: Resources, c: ClientSlot, id: u16, ghost X: multiset<int>, ghost Y: multiset<int>)
    requires Together(a, c) && Fit(SiteOf(a, c), X, Y)
    modifies a.repr, c.repr
    ensures Together(a, c) && Shaped(old(c.View().slots)) && SiteOf(a, c) == PubackReceived(old(SiteOf(a, c)), id)
  {
    hide Fit, Kick, Release, FreeSlot, RoomFor, Consistent, Indexes;
    var slot := FindAwaiting(c, id, WaitPuback);
    if slot >= 0 {
      FinishStep(SiteOf(a, c), slot, X, Y);
      EndEntry(a, c, slot);
      KickEgress(a, c, X, Y);
    }
  }

  /** enqueue_pubrel */
  method QueuePubrel(c: ClientSlot, id: u16)
    requires c.Valid()
    modifies c.ring, c.ring.segs
    ensures c.Valid() && c.View() == EnqueuePubrel(old(c.View()), id)
  {
    if c.ring.count < c.ring.segs.Length {
      c.ring.Push(Seg(INVALID, 0, SEG_CTRL, 0, false, false, c.generation, 4, [0x62, 0x02, id / 0x100, id % 0x100, 0, 0, 0, 0], 0));
    }
  }

  lemma QueuePubrelStep(s: Site, id: u16, X: multiset<int>, Y: multiset<int>)
    requires Fit(s, X, Y)
    ensures Fit(s.(c := EnqueuePubrel(s.c, id)), X, Y)
  {
    hide Sound, Consistent, Refs;
    EnqueuePubrelKeeps(s, id, X, Y);
    KeepsFit(s, s.(c := EnqueuePubrel(s.c, id)), X, Y);
  }

  /** fsm_sub_pubrec_received */
  method OnPubrec(a: Resources, c: ClientSlot, id: u16, ghost X: multiset<int>, ghost Y: multiset<int>)
    requires Together(a, c) && Fit(SiteOf(a, c), X, Y)
    modifies a.repr, c.repr
    ensures Together(a, c) && Shaped(old(c.View().slots)) && SiteOf(a, c) == PubrecReceived(old(SiteOf(a, c)), id)
  {
    hide Fit, Kick, Release, FreeSlot, RoomFor, Consistent, Indexes, EnqueuePubrel, EgressFlush;
    var slot := FindAwaiting(c, id, WaitPubrec);
    if slot < 0 {
      QueuePubrelStep(SiteOf(a, c), id, X, Y);
      QueuePubrel(c, id);
      if !c.writing {
        var code, iov := FlushEgress(a, c, X, Y);
      }
      return;
    }
    FinishStep(SiteOf(a, c), slot, X, Y);
    EndEntry(a, c, slot);
    QueuePubrelStep(SiteOf(a, c), id, X, Y);
    QueuePubrel(c, id);
    KickEgress(a, c, X, Y);
  }

  // ---- timeouts ----

  function Delayed(s: Site, slot: nat): Site
    requires slot < |s.c.slots.cold|
  {
    var cold := s.c.slots.cold[slot];
    s.(c := s.c.(slots := s.c.slots.(cold := s.c.slots.cold[slot := cold.(dupCount := (cold.dupCount + 1) % 0x100,
                                                                          deadline := s.p.now + INFLIGHT_TIMEOUT_MS)])))
  }

  /** A retry keeps the books in order up to its retransmission, which takes no reference. */
  lemma RetryStep(s: Site, slot: nat, X: multiset<int>, Y: multiset<int>)
    requires Fit(s, X, Y) && slot < |s.c.slots.hot| && Outgoing(s.c.slots.hot[slot])
    ensures Consistent(Delayed(s, slot).c.slots)
    ensures Fit(Delayed(s, slot), X, Y)
    ensures var r := Delayed(s, slot); var e := r.c.slots.hot[slot];
            !Full(s.c) ==> Fit(r.(c := Push(r.c, PublishSeg(r, e.msgIdx, e.packetId, r.c.slots.cold[slot].qos, true))), X, Y)
  {
    hide Sound, Refs, LoadWireLen;
    var r := Delayed(s, slot);
    ColdKeeps(s.c, slot, r.c.slots.cold[slot]);
    if !Full(s.c) {
      var e := s.c.slots.hot[slot];
      var seg := PublishSeg(r, e.msgIdx, e.packetId, s.c.slots.cold[slot].qos, true);
      RetransmitOk(r, slot);
      PushOk(r.c, seg);
      assert Refs(Push(r.c, seg)) == Refs(r.c);
    }
  }

  /** fsm_sub_timeout on an outgoing entry. */
  method OnTimeout(a: Resources, c: ClientSlot, slot: nat, ghost X: multiset<int>, ghost Y: multiset<int>)
    requires Together(a, c) && Fit(SiteOf(a, c), X, Y) && slot < c.table.n && Outgoing(c.View().slots.hot[slot])
    modifies a.repr, c.repr
    ensures Together(a, c) && Shaped(old(c.View().slots)) && SiteOf(a, c) == Timeout(old(SiteOf(a, c)), slot)
  {
    hide Fit, Finish, RoomFor, Consistent, Indexes, EgressFlush, Push, PublishSeg, Delayed;
    TableShaped(c.table.View());
    ghost var was := SiteOf(a, c);
    FinishStep(was, slot, X, Y);
    TimeoutCases(was, slot);
    if c.table.cold[slot].dupCount >= MAX_RETRIES {
      FinishEntry(a, c, slot);
      return;
    }
    RetryStep(was, slot, X, Y);
    FinishDelayed(was, slot, X, Y);
    Delay(a, c, slot);
    if c.ring.count >= c.ring.segs.Length {
      FinishEntry(a, c, slot);
    } else {
      Retransmit(a, c, slot, X, Y);
    }
  }

  lemma FinishDelayed(s: Site, slot: nat, X: multiset<int>, Y: multiset<int>)
    requires slot < |s.c.slots.hot| == |s.c.slots.cold| && Fit(Delayed(s, slot), X, Y) && s.c.slots.hot[slot].state != Free
    ensures RoomFor(Delayed(s, slot).p, Delayed(s, slot).c.slots.hot[slot].msgIdx)
    ensures Delayed(s, slot).c.queue == s.c.queue && Delayed(s, slot).c.capacity == s.c.capacity
    ensures |Delayed(s, slot).c.slots.hot| == |s.c.slots.hot|
  {
    hide Fit, RoomFor;
    FinishStep(Delayed(s, slot), slot, X, Y);
  }

  /** The three ways a timeout ends. */
  lemma TimeoutCases(s: Site, slot: nat)
    requires Shaped(s.c.slots) && slot < |s.c.slots.hot|
    ensures s.c.slots.cold[slot].dupCount >= MAX_RETRIES ==> Timeout(s, slot) == Finish(s, slot)
    ensures s.c.slots.cold[slot].dupCount < MAX_RETRIES ==>
              var r := Delayed(s, slot); var e := r.c.slots.hot[slot];
              && |r.c.slots.hot| == |s.c.slots.hot| && Shaped(r.c.slots)
              && (Full(s.c) ==> Timeout(s, slot) == Finish(r, slot))
              && (!Full(s.c) ==>
                    Timeout(s, slot) ==
                    EgressFlush(r.(c := Push(r.c, PublishSeg(r, e.msgIdx, e.packetId, r.c.slots.cold[slot].qos, true)))).site)
  {
    hide Finish, EgressFlush, Push, PublishSeg;
  }

  /** Releases the message of an outgoing entry and frees the entry. */
  method FinishEntry(a: Resources, c: ClientSlot, slot: nat)
    requires Together(a, c) && slot < c.table.n && RoomFor(a.View(), c.View().slots.hot[slot].msgIdx)
    modifies a.repr, c.repr
    ensures Together(a, c) && SiteOf(a, c) == Finish(old(SiteOf(a, c)), slot)
  {
    hide Release, RoomFor, Consistent, Indexes, FreeSlot;
    EndEntry(a, c, slot);
  }

  /** One more retry and a new deadline. */
  method Delay(a: Resources, c: ClientSlot, slot: nat)
    requires Together(a, c) && slot < c.table.n && Consistent(Delayed(SiteOf(a, c), slot).c.slots)
    modifies c.table.cold
    ensures Together(a, c) && SiteOf(a, c) == Delayed(old(SiteOf(a, c)), slot)
  {
    hide Indexes;
    c.table.cold[slot] := c.table.cold[slot].(dupCount := (c.table.cold[slot].dupCount + 1) % 0x100, deadline := a.now + INFLIGHT_TIMEOUT_MS);
    assert c.table.cold[..] == old(c.table.cold[..])[slot := c.table.cold[slot]];
  }

  /** The PUBLISH of an entry goes out again with DUP set. */
  method Retransmit(a: Resources, c: ClientSlot, slot: nat, ghost X: multiset<int>, ghost Y: multiset<int>)
    requires Together(a, c) && slot < c.table.n && c.ring.count < c.ring.segs.Length
    requires var s := SiteOf(a, c); var e := s.c.slots.hot[slot];
             Fit(s.(c := Push(s.c, PublishSeg(s, e.msgIdx, e.packetId, s.c.slots.cold[slot].qos, true))), X, Y)
    modifies a.repr, c.repr
    ensures Together(a, c) && Shaped(old(c.View().slots))
    ensures var s := old(SiteOf(a, c)); var e := s.c.slots.hot[slot];
            SiteOf(a, c) == EgressFlush(s.(c := Push(s.c, PublishSeg(s, e.msgIdx, e.packetId, s.c.slots.cold[slot].qos, true)))).site
  {
    hide Fit, Consistent, Indexes, EgressFlush, PublishSeg, Push, Resources.Valid, Resources.View;
    var code := Enqueue(a, c, c.table.hot[slot].msgIdx, c.table.hot[slot].packetId, c.table.cold[slot].qos, true, X, Y);
  }

  /** One entry of the sweep. */
  lemma SweepStep(s: Site, i: nat, found: nat, X: multiset<int>, Y: multiset<int>)
    requires Fit(s, X, Y) && Shaped(s.c.slots) && i < |s.c.slots.hot| && found < s.c.slots.count
    ensures s.c.slots.hot[i].state == Free ==> Sweep(s, i, found) == Sweep(s, i + 1, found)
    ensures s.c.slots.hot[i].state != Free && !Expired(s, i) ==> Sweep(s, i, found) == Sweep(s, i + 1, found + 1)
    ensures s.c.slots.hot[i].state != Free && Expired(s, i) ==>
              && Outgoing(s.c.slots.hot[i]) && Fit(Timeout(s, i), X, Y)
              && Sweep(s, i, found) == Sweep(Timeout(s, i), i + 1, found + 1)
  {
    hide Sound, Consistent, Refs, Timeout;
    if s.c.slots.hot[i].state != Free && Expired(s, i) {
      TimeoutKeeps(s, i, X, Y);
      KeepsFit(s, Timeout(s, i), X, Y);
    }
  }

  /** fsm_sweep_client */
  method SweepEntries(a: Resources, c: ClientSlot, ghost X: multiset<int>, ghost Y: multiset<int>)
    requires Together(a, c) && (c.state == Active ==> Fit(SiteOf(a, c), X, Y))
    modifies a.repr, c.repr
    ensures Together(a, c) && Shaped(old(c.View().slots)) && SiteOf(a, c) == SweepClient(old(SiteOf(a, c)))
  {
    hide Fit, Timeout, Consistent, Indexes, Sweep;
    TableShaped(c.table.View());
    if c.state != Active || c.table.count == 0 {
      return;
    }
    ghost var was := SiteOf(a, c);
    var i: nat, found: nat := 0, 0;
    while i < c.table.n && found < c.table.count
      invariant Together(a, c) && Fit(SiteOf(a, c), X, Y) && Shaped(c.View().slots) && i <= c.table.n
      invariant Sweep(SiteOf(a, c), i, found) == Sweep(was, 0, 0)
      decreases c.table.n - i
    {
      found := SweepOne(a, c, i, found, X, Y);
      i := i + 1;
    }
    SweepEnds(SiteOf(a, c), i, found);
  }

  method SweepOne(a: Resources, c: ClientSlot, i: nat, found: nat, ghost X: multiset<int>, ghost Y: multiset<int>) returns (more: nat)
    requires Together(a, c) && Fit(SiteOf(a, c), X, Y) && Shaped(c.View().slots) && i < c.table.n && found < c.table.count
    modifies a.repr, c.repr
    ensures Together(a, c) && Fit(SiteOf(a, c), X, Y) && Shaped(c.View().slots)
    ensures Sweep(SiteOf(a, c), i + 1, more) == Sweep(old(SiteOf(a, c)), i, found)
  {
    hide Fit, Timeout, Consistent, Indexes, Sweep;
    ghost var now := SiteOf(a, c);
    SweepStep(now, i, found, X, Y);
    if c.table.hot[i].state == Free {
      return found;
    }
    more := found + 1;
    var cold := c.table.cold[i];
    if cold.deadline != 0 && a.now > cold.deadline && c.table.hot[i].direction == OUTGOING {
      assert Expired(now, i);
      OnTimeout(a, c, i, X, Y);
    }
  }

  lemma SweepEnds(s: Site, i: nat, found: nat)
    requires Shaped(s.c.slots) && (i >= |s.c.slots.hot| || found >= s.c.slots.count)
    ensures Sweep(s, i, found) == s
  {
  }

  // ---- disconnect ----

  lemma DrainStep(s: Site, X: multiset<int>, Y: multiset<int>)
    requires Sound(s.p, X + QueueRefs(s.c.queue), Y) && s.c.queue != []
    ensures HeadFits(s) && Sound(DiscardHead(s).p, X + QueueRefs(s.c.queue[1..]), Y)
    ensures DiscardHead(s).c == s.c.(queue := s.c.queue[1..])
  {
    hide Sound, RoomFor;
    var seg := s.c.queue[0];
    QueuePop(s.c.queue);
    if Owns(seg) {
      assert seg.msgIdx in X + QueueRefs(s.c.queue);
      OwnedHasRoom(s.p, seg.msgIdx, X + QueueRefs(s.c.queue), Y);
      ReleaseRef(s.p, seg.msgIdx, X, QueueRefs(s.c.queue), QueueRefs(s.c.queue[1..]), Y);
    } else {
      assert QueueRefs(s.c.queue) == QueueRefs(s.c.queue[1..]);
    }
  }

  /** The queue drain of fsm_client_disconnect. */
  method DrainQueue(a: Resources, c: ClientSlot, ghost X: multiset<int>, ghost Y: multiset<int>)
    requires Together(a, c) && Sound(a.View(), X + QueueRefs(c.View().queue), Y)
    modifies a.repr, c.ring
    ensures Together(a, c) && SiteOf(a, c) == Drain(old(SiteOf(a, c)))
  {
    hide Sound, DiscardHead, HeadFits, Consistent, Indexes;
    ghost var was := SiteOf(a, c);
    while c.ring.count > 0
      invariant Together(a, c) && Sound(a.View(), X + QueueRefs(c.View().queue), Y)
      invariant Drain(SiteOf(a, c)) == Drain(was)
      decreases c.ring.count
    {
      DrainStep(SiteOf(a, c), X, Y);
      Discard(a, c);
    }
  }

  lemma EntriesStep(p: Pools, hot: seq<Hot>, count: int, i: nat, found: nat, X: multiset<int>, Y: multiset<int>)
    requires i < |hot| && count == found + NonFree(hot[i..]) && found < count && (hot[i].state != Free ==> EntryOk(hot, i))
    requires Sound(p, X + EntryRefs(hot[i..]), Y)
    ensures var q := if Outgoing(hot[i]) && hot[i].msgIdx != INVALID then Release(p, hot[i].msgIdx) else p;
            var more := if hot[i].state == Free then found else found + 1;
            && Sound(q, X + EntryRefs(hot[i + 1..]), Y)
            && count == more + NonFree(hot[i + 1..])
            && ReleaseEntries(p, hot, count, i, found) == ReleaseEntries(q, hot, count, i + 1, more)
    ensures Outgoing(hot[i]) ==> RoomFor(p, hot[i].msgIdx)
  {
    hide Sound, Release, RoomFor;
    EntriesPop(hot, i);
    var e := hot[i];
    var rest := EntryRefs(hot[i + 1..]);
    if Outgoing(e) && e.msgIdx != INVALID {
      assert e.msgIdx in X + EntryRefs(hot[i..]);
      OwnedHasRoom(p, e.msgIdx, X + EntryRefs(hot[i..]), Y);
      ReleaseRef(p, e.msgIdx, X, EntryRefs(hot[i..]), rest, Y);
    } else {
      assert EntryRefs(hot[i..]) == rest;
      OwnedHasRoom(p, INVALID, X + rest, Y);
    }
  }

  /** The release loop of fsm_client_disconnect. */
  method ReleaseMessages(a: Resources, c: ClientSlot, ghost X: multiset<int>, ghost Y: multiset<int>)
    requires Together(a, c) && Sound(a.View(), X + EntryRefs(c.View().slots.hot), Y)
    modifies a.repr
    ensures Together(a, c) && c.View() == old(c.View())
    ensures a.View() == ReleaseEntries(old(a.View()), c.View().slots.hot, c.View().slots.count, 0, 0)
  {
    hide Sound, Release, RoomFor, ReleaseEntries, Indexes;
    ghost var p, hot, count := a.View(), c.View().slots.hot, c.table.count;
    assert hot[0..] == hot;
    var i: nat, found: nat := 0, 0;
    while i < c.table.n && found < c.table.count
      invariant Together(a, c) && c.View() == old(c.View()) && i <= c.table.n
      invariant Sound(a.View(), X + EntryRefs(hot[i..]), Y) && count == found + NonFree(hot[i..])
      invariant ReleaseEntries(a.View(), hot, count, i, found) == ReleaseEntries(p, hot, count, 0, 0)
      decreases c.table.n - i
    {
      var e := c.table.hot[i];
      assert e == hot[i] && (e.state != Free ==> EntryOk(hot, i));
      EntriesStep(a.View(), hot, count, i, found, X, Y);
      if e.state != Free {
        found := found + 1;
        if e.direction == OUTGOING && e.msgIdx != INVALID {
          a.Release(e.msgIdx);
        }
      }
      i := i + 1;
    }
    AllReleased(a.View(), hot, count, i, found);
  }

  lemma AllReleased(p: Pools, hot: seq<Hot>, count: int, i: nat, found: nat)
    requires i >= |hot| || found >= count
    ensures ReleaseEntries(p, hot, count, i, found) == p
  {
  }

  /** fsm_client_disconnect */
  method DisconnectClient(a: Resources, c: ClientSlot, ghost X: multiset<int>, ghost Y: multiset<int>)
    requires Together(a, c) && Fit(SiteOf(a, c), X, Y)
    modifies a.repr, c.ring
    ensures Together(a, c) && SiteOf(a, c) == Disconnect(old(SiteOf(a, c)))
  {
    hide Sound, ReleaseEntries, Drain, Indexes, Consistent, QueueRefs, EntryRefs;
    ghost var was := SiteOf(a, c);
    ghost var E := EntryRefs(was.c.slots.hot);
    assert X + Refs(was.c) == (X + E) + QueueRefs(was.c.queue);
    DrainReleases(was, X + E, Y);
    DrainQueue(a, c, X + E, Y);
    if c.table.count == 0 {
      return;
    }
    ReleaseMessages(a, c, X, Y);
  }
}
