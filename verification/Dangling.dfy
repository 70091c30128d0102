/** Queued segments that name a message already freed: when a step of one client creates one, in its own queue or in that of
    another client (src/broker/mqtt_fsm.h, src/broker/loop.h), and runs that do. */
module Dangling {
  import opened Common
  import opened Bags
  import opened Inflight
  import opened Packet
  import opened Shared
  import opened Egress
  import opened Flush
  import opened Ceremony
  import opened Conservation
  import opened Qos2
  import opened Acks
  import opened FatalWrite
  import opened Broker
  import opened FanoutSteps

  predicate Names(s: Seg, m: int) { s.kind == SEG_PUBLISH && s.msgIdx == m }

  ghost predicate Dangles(p: Pools, s: Seg) { s.kind == SEG_PUBLISH && !Live(p, s.msgIdx) }

  ghost predicate NoneDangles(p: Pools, q: seq<Seg>) {
    forall k :: 0 <= k < |q| ==> !Dangles(p, q[k])
  }

  // ---- one step of one client, for the queue of any client ----

  /** The step from s to a client d gives up all references that m counts. */
  ghost predicate GivesUp(s: Site, d: Client, m: u32) {
    m < |s.p.msgs| && s.p.msgs[m].refCount + Refs(d)[m] == Refs(s.c)[m]
  }

  /** A step on one client makes a queue dangle, its own or that of anybody else, if and only if the queue names a message all
      of whose references the step gives up. */
  lemma StepDanglesIff(s: Site, r: Site, q: seq<Seg>, X: multiset<int>, Y: multiset<int>)
    requires Fit(s, X, Y) && Keeps(s, r, X, Y) && NoneDangles(s.p, q)
    ensures !NoneDangles(r.p, q) <==> exists k :: 0 <= k < |q| && q[k].kind == SEG_PUBLISH && GivesUp(s, r.c, q[k].msgIdx)
  {
    hide ClientOk, Refs, Partitioned;
    forall k | 0 <= k < |q| && q[k].kind == SEG_PUBLISH
      ensures Dangles(r.p, q[k]) <==> GivesUp(s, r.c, q[k].msgIdx)
    {
      assert !Dangles(s.p, q[k]);
      GoneIff(s.p, r.p, q[k].msgIdx, X, Refs(s.c), Refs(r.c));
    }
  }

  lemma GoneIff(p: Pools, q: Pools, m: u32, X: multiset<int>, before: multiset<int>, after: multiset<int>)
    requires Counted(p, X + before) && Counted(q, X + after) && |q.msgs| == |p.msgs| && Live(p, m)
    ensures !Live(q, m) <==> p.msgs[m].refCount + after[m] == before[m]
  {
    assert m in X + before && p.msgs[m].refCount == X[m] + before[m];
    assert m in X + after <==> X[m] + after[m] > 0;
  }

  /** The same for a disconnect: the client's references are all there are. */
  lemma DisconnectDanglesIff(s: Site, q: seq<Seg>, X: multiset<int>, Y: multiset<int>)
    requires Fit(s, X, Y) && NoneDangles(s.p, q)
    ensures !NoneDangles(Disconnect(s).p, q) <==>
              exists k :: 0 <= k < |q| && q[k].kind == SEG_PUBLISH && q[k].msgIdx < |s.p.msgs| && s.p.msgs[q[k].msgIdx].refCount == Refs(s.c)[q[k].msgIdx]
  {
    hide ClientOk, Refs, Partitioned, Disconnect;
    DisconnectReleases(s, X, Y);
    assert X + multiset{} == X;
    forall k | 0 <= k < |q| && q[k].kind == SEG_PUBLISH
      ensures q[k].msgIdx < |s.p.msgs|
      ensures Dangles(Disconnect(s).p, q[k]) <==> s.p.msgs[q[k].msgIdx].refCount == Refs(s.c)[q[k].msgIdx]
    {
      assert !Dangles(s.p, q[k]);
      GoneIff(s.p, Disconnect(s).p, q[k].msgIdx, X, Refs(s.c), multiset{});
    }
  }

  /** And for the release of the base reference at the end of a PUBLISH: nobody took the message. */
  lemma DropBaseDanglesIff(p: Pools, m: u32, q: seq<Seg>, owners: multiset<int>, Y: multiset<int>)
    requires Sound(p, owners + multiset{m}, Y) && NoneDangles(p, q)
    ensures m < |p.msgs|
    ensures !NoneDangles(DropBase(p, m, p.msgs[m].bufIdx), q) <==> (exists k :: 0 <= k < |q| && Names(q[k], m)) && p.msgs[m].refCount == 1
  {
    hide Partitioned, Release;
    DropBaseIsRelease(p, m, owners, Y);
    ReleaseNames(p, m, q, owners + multiset{m});
  }

  lemma ReleaseNames(p: Pools, m: u32, q: seq<Seg>, owners: multiset<int>)
    requires Counted(p, owners) && m in owners && NoneDangles(p, q)
    ensures m < |p.msgs|
    ensures !NoneDangles(Release(p, m), q) <==> (exists k :: 0 <= k < |q| && Names(q[k], m)) && p.msgs[m].refCount == 1
  {
    hide Release;
    OneReleased(p, m, owners);
    if (exists k :: 0 <= k < |q| && Names(q[k], m)) && p.msgs[m].refCount == 1 {
      var k :| 0 <= k < |q| && Names(q[k], m);
      assert Dangles(Release(p, m), q[k]);
    }
    if !NoneDangles(Release(p, m), q) {
      var k :| 0 <= k < |q| && Dangles(Release(p, m), q[k]);
      assert !Dangles(p, q[k]);
    }
  }

  /** Finishing an entry makes a queue dangle, the client's own or any other, if and only if the queue names the entry's
      message and the message counts one reference. */
  lemma FinishDanglesIff(s: Site, slot: nat, q: seq<Seg>, X: multiset<int>, Y: multiset<int>)
    requires Fit(s, X, Y) && slot < |s.c.slots.hot| && Outgoing(s.c.slots.hot[slot]) && NoneDangles(s.p, q)
    ensures var m := s.c.slots.hot[slot].msgIdx; var r := Finish(s, slot);
            && m < |s.p.msgs| && r.c.queue == s.c.queue
            && (!NoneDangles(r.p, q) <==> (exists k :: 0 <= k < |q| && Names(q[k], m)) && s.p.msgs[m].refCount == 1)
  {
    hide Refs, Partitioned, Consistent, Release;
    EntryOwns(s, slot, X, Y);
    ReleaseNames(s.p, s.c.slots.hot[slot].msgIdx, q, X + Refs(s.c));
  }

  // ---- failed and completed writes, from the state before them ----

  /** The references that one turn of the fatal-error walk gives up: those of the entry it undoes, or of the segment. */
  ghost function HeadDrops(c: Client): multiset<int>
    requires c.queue != [] && c.slots.hot != []
  {
    var seg := c.queue[0];
    if seg.kind == SEG_PUBLISH && seg.qos > 0 && seg.packetId > 0 && !seg.dup then
      var inf := FindDirect(c.slots.hot, seg.packetId);
      if 0 <= inf < |c.slots.hot| then EntryRef(c.slots.hot[inf]) else multiset{}
    else SegRef(seg)
  }

  ghost function FailDrops(s: Site, batch: nat): multiset<int>
    requires Shaped(s.c.slots)
    decreases batch
  {
    if batch == 0 || s.c.queue == [] then multiset{} else HeadDrops(s.c) + FailDrops(FailHead(s), batch - 1)
  }

  lemma HeadGives(s: Site, X: multiset<int>, Y: multiset<int>)
    requires Fit(s, X, Y) && s.c.queue != [] && !s.c.writing
    ensures Refs(s.c) == Refs(FailHead(s).c) + HeadDrops(s.c)
  {
    hide Sound, EntryOk, NonFree, QueueRefs, EntryRefs, Release, Resendable, LoadWireLen, SegOk, BatchOk;
    var seg := s.c.queue[0];
    QueuePop(s.c.queue);
    if seg.kind == SEG_PUBLISH && seg.qos > 0 && seg.packetId > 0 && !seg.dup {
      assert SegRef(seg) == multiset{};
      var inf := FindDirect(s.c.slots.hot, seg.packetId);
      if inf >= 0 {
        var w := FreeSlot(s.c.slots, inf);
        EntryUpdate(s.c.slots.hot, inf, w.hot[inf]);
        assert w.hot == s.c.slots.hot[inf := w.hot[inf]];
        assert EntryRef(w.hot[inf]) == multiset{};
        Regroup(QueueRefs(s.c.queue[1..]), EntryRefs(s.c.slots.hot), EntryRefs(w.hot), EntryRef(s.c.slots.hot[inf]));
      } else {
        assert FailHead(s).c == s.c.(queue := s.c.queue[1..]);
      }
    }
  }

  lemma {:induction false} FailGives(s: Site, batch: nat, X: multiset<int>, Y: multiset<int>)
    requires Fit(s, X, Y) && !s.c.writing
    ensures Refs(s.c) == Refs(Fail(s, batch).c) + FailDrops(s, batch)
    decreases batch
  {
    hide Sound, Consistent, Refs, FailHead, HeadDrops;
    if batch != 0 && s.c.queue != [] {
      HeadGives(s, X, Y);
      FailHeadKeeps(s, X, Y);
      FailGives(FailHead(s), batch - 1, X, Y);
    }
  }

  /** A failed write makes a queue dangle if and only if the queue names a message all of whose references the walk gives up:
      those of the entries whose first sends are in the batch, and of the QoS 0 segments in it. */
  lemma FailDanglesIff(s: Site, batch: nat, q: seq<Seg>, X: multiset<int>, Y: multiset<int>)
    requires Fit(s, X, Y) && !s.c.writing && NoneDangles(s.p, q)
    ensures !NoneDangles(Fail(s, batch).p, q) <==>
              exists k :: 0 <= k < |q| && q[k].kind == SEG_PUBLISH && q[k].msgIdx < |s.p.msgs|
                          && s.p.msgs[q[k].msgIdx].refCount == FailDrops(s, batch)[q[k].msgIdx]
  {
    hide Consistent, Resendable, SegOk, Sound, Keeps, Refs, Fail, FailDrops, Live;
    FailKeeps(s, batch, X, Y);
    FailGives(s, batch, X, Y);
    StepDanglesIff(s, Fail(s, batch), q, X, Y);
    assert forall k :: 0 <= k < |q| && q[k].kind == SEG_PUBLISH ==>
      (GivesUp(s, Fail(s, batch).c, q[k].msgIdx) <==>
         q[k].msgIdx < |s.p.msgs| && s.p.msgs[q[k].msgIdx].refCount == FailDrops(s, batch)[q[k].msgIdx]);
  }

  /** The references of the segments that a write of n bytes completes. */
  ghost function CompleteDrops(q: seq<Seg>, batch: nat, n: nat): multiset<int>
    decreases batch
  {
    if batch == 0 || q == [] || n == 0 || n < Sub32(SegLen(q[0]), q[0].cursor) then multiset{}
    else SegRef(q[0]) + CompleteDrops(q[1..], batch - 1, n - Sub32(SegLen(q[0]), q[0].cursor))
  }

  lemma {:induction false} CompleteGives(s: Site, batch: nat, n: nat, X: multiset<int>, Y: multiset<int>)
    requires Fit(s, X, Y) && !s.c.writing && HaveIds(s.c, batch) && n < 0x1_0000_0000
    ensures Refs(s.c) == Refs(Complete(s, batch, n).c) + CompleteDrops(s.c.queue, batch, n)
    decreases batch
  {
    hide Sound, Consistent, Resendable, CompleteHead, LoadWireLen, SegLen, Refs, Sub32;
    if batch != 0 && s.c.queue != [] && n != 0 {
      var seg := s.c.queue[0];
      assert SegOk(seg, s.c.generation);
      var rest := Sub32(SegLen(seg), seg.cursor);
      if n >= rest {
        CompleteHeadKeeps(s, X, Y);
        CompletePops(s);
        PopGives(s.c);
        CompleteGives(CompleteHead(s), batch - 1, n - rest, X, Y);
      } else {
        SameRefs(s.c, (seg.cursor + n) % 0x1_0000_0000);
      }
    }
  }

  lemma PopGives(c: Client)
    requires c.queue != [] && Connected(c)
    ensures Refs(c) == SegRef(c.queue[0]) + Refs(c.(queue := c.queue[1..]))
  {
    hide QueueRefs, EntryRefs;
    QueuePop(c.queue);
  }

  lemma SameRefs(c: Client, cursor: u32)
    requires c.queue != []
    ensures Refs(c.(queue := c.queue[0 := c.queue[0].(cursor := cursor)])) == Refs(c)
  {
    var seg := c.queue[0].(cursor := cursor);
    QueueUpdate(c.queue, 0, seg);
    Cancel(QueueRefs(c.queue[0 := seg]), QueueRefs(c.queue), SegRef(seg));
  }

  /** A completed write makes a queue dangle if and only if the queue names a message all of whose references are QoS 0
      segments that the write completes. */
  lemma CompletionDanglesIff(s: Site, batch: nat, n: nat, q: seq<Seg>, X: multiset<int>, Y: multiset<int>)
    requires Fit(s, X, Y) && !s.c.writing && HaveIds(s.c, batch) && n < 0x1_0000_0000 && NoneDangles(s.p, q)
    ensures !NoneDangles(Complete(s, batch, n).p, q) <==>
              exists k :: 0 <= k < |q| && q[k].kind == SEG_PUBLISH && q[k].msgIdx < |s.p.msgs|
                          && s.p.msgs[q[k].msgIdx].refCount == CompleteDrops(s.c.queue, batch, n)[q[k].msgIdx]
  {
    hide Fit, Keeps, Refs, Complete, CompleteDrops, Live, HaveIds;
    CompleteKeeps(s, batch, n, X, Y);
    CompleteGives(s, batch, n, X, Y);
    StepDanglesIff(s, Complete(s, batch, n), q, X, Y);
    assert forall k :: 0 <= k < |q| && q[k].kind == SEG_PUBLISH ==>
      (GivesUp(s, Complete(s, batch, n).c, q[k].msgIdx) <==>
         q[k].msgIdx < |s.p.msgs| && s.p.msgs[q[k].msgIdx].refCount == CompleteDrops(s.c.queue, batch, n)[q[k].msgIdx]);
  }

  lemma EntryOwns(s: Site, slot: nat, X: multiset<int>, Y: multiset<int>)
    requires Fit(s, X, Y) && slot < |s.c.slots.hot| && Outgoing(s.c.slots.hot[slot])
    ensures s.c.slots.hot[slot].msgIdx in X + Refs(s.c)
  {
    hide Sound, Consistent, QueueRefs, EntryRefs;
    EntryUpdate(s.c.slots.hot, slot, s.c.slots.hot[slot]);
    assert s.c.slots.hot[slot].msgIdx in EntryRef(s.c.slots.hot[slot]);
  }

  /** Giving up a reference takes a message off the live ones exactly when it was the only one. */
  lemma OneReleased(p: Pools, m: u32, owners: multiset<int>)
    requires Counted(p, owners) && m in owners
    ensures m < |p.msgs| && Live(p, m)
    ensures forall n :: Live(Release(p, m), n) <==> Live(p, n) && !(n == m && p.msgs[m].refCount == 1)
  {
    assert Live(p, m);
  }

  /** A close frees a live message, whatever write still names it, if and only if all its references are the client's. */
  lemma CloseFreesIff(s: Site, m: nat, X: multiset<int>, Y: multiset<int>)
    requires Fit(s, X, Y) && Live(s.p, m)
    ensures !Live(Disconnect(s).p, m) <==> s.p.msgs[m].refCount == Refs(s.c)[m]
  {
    hide ClientOk, Refs, Partitioned, Disconnect;
    DisconnectReleases(s, X, Y);
    assert m in X + Refs(s.c) && s.p.msgs[m].refCount == X[m] + Refs(s.c)[m];
    assert m in X <==> X[m] > 0;
  }

  /** What the kernel is still writing from: the messages of the batch in flight. An acknowledgement that arrives before the
      completion takes the buffer away exactly when the acknowledged entry is the message's only owner. */
  lemma AckDuringWriteIff(s: Site, slot: nat, k: nat, X: multiset<int>, Y: multiset<int>)
    requires Fit(s, X, Y) && slot < |s.c.slots.hot| && Outgoing(s.c.slots.hot[slot])
    requires s.c.writing && k < s.c.batch && Names(s.c.queue[k], s.c.slots.hot[slot].msgIdx) && Live(s.p, s.c.slots.hot[slot].msgIdx)
    ensures s.c.slots.hot[slot].msgIdx < |s.p.msgs|
    ensures Dangles(Finish(s, slot).p, Finish(s, slot).c.queue[k]) <==> s.p.msgs[s.c.slots.hot[slot].msgIdx].refCount == 1
  {
    hide Refs, Partitioned, Consistent, Release;
    EntryOwns(s, slot, X, Y);
    OneReleased(s.p, s.c.slots.hot[slot].msgIdx, X + Refs(s.c));
  }

  // ---- a run that leaves a dangling segment ----

  /** An idle client, and a placed message that has an owner. */
  ghost predicate ReadyToSend(s: Site, m: u32) {
    && Shaped(s.c.slots) && Consistent(s.c.slots) && s.c.slots.count == 0
    && s.c.state == Active && s.c.queue == [] && !s.c.writing && s.c.capacity >= 2 && s.p.sqRoom > 0
    && Placed(s.p, m) && m != INVALID && 0 < s.p.msgs[m].refCount < 0xFFFF_FFFF && m !in s.p.msgFree
    && WireLen(s.p.msgs[m], 1) < 0x1_0000_0000
  }

  /** The client after its first send of m: the write is in flight and the entry waits for PUBACK. */
  ghost predicate SentTo(s: Site, m: u32, slot: nat, id: u16) {
    && Shaped(s.c.slots) && Consistent(s.c.slots) && slot < |s.c.slots.hot|
    && s.c.slots.hot[slot] == Hot(id, WaitPuback, OUTGOING, m)
    && s.c.state == Active && s.c.writing && s.c.queue != []
    && (forall k :: 0 <= k < |s.c.queue| ==> Names(s.c.queue[k], m))
    && Placed(s.p, m) && m != INVALID && m !in s.p.msgFree
  }

  /** One reference and one submission entry less. */
  function TakenOnce(p: Pools, m: u32): Pools
    requires m < |p.msgs| && p.msgs[m].refCount < 0xFFFF_FFFF && p.sqRoom > 0
  {
    p.(msgs := p.msgs[m := p.msgs[m].(refCount := p.msgs[m].refCount + 1)], sqRoom := p.sqRoom - 1)
  }

  /** A first send that carries its packet id, with the right length. */
  ghost predicate FirstOf(p: Pools, seg: Seg, m: u32, id: u16, generation: byte) {
    && SentFirst(seg) && Names(seg, m) && seg.packetId == id && seg.qos == 1 && seg.slotGen == generation && seg.cursor == 0
    && m < |p.msgs| && LoadWireLen(seg) == WireLen(p.msgs[m], 1) > 0
  }

  /** The table holds this one entry. */
  ghost predicate OnlyEntry(v: Slots, slot: nat) {
    v.count == 1 && forall t :: 0 <= t < |v.hot| && t != slot ==> v.hot[t].state == Free
  }

  lemma FirstSend(s: Site, m: u32) returns (slot: nat, id: u16)
    requires ReadyToSend(s, m)
    ensures var r := StartDelivery(s, m, 1).site;
            && SentTo(r, m, slot, id) && r.p == TakenOnce(s.p, m) && |r.c.queue| == 1 && id != 0
            && FirstOf(s.p, r.c.queue[0], m, id, s.c.generation) && OnlyEntry(r.c.slots, slot)
            && r.c.slots.cold[slot] == Cold(s.p.now + INFLIGHT_TIMEOUT_MS, 1, 0)
            && r.c == s.c.(slots := r.c.slots, queue := r.c.queue, writing := true, batch := 1)
  {
    hide EgressFlush, Ref, TakenOnce, FirstOf, OnlyEntry;
    var x := Enqueued(s, m, 1);
    slot, id := FlushSends(s, x, m);
  }

  lemma FlushSends(s: Site, x: Site, m: u32) returns (slot: nat, id: u16)
    requires ReadyToSend(s, m) && x == Enqueued(s, m, 1)
    ensures var r := EgressFlush(x).site;
            && SentTo(r, m, slot, id) && r.p == TakenOnce(s.p, m) && |r.c.queue| == 1 && id != 0
            && FirstOf(s.p, r.c.queue[0], m, id, s.c.generation) && OnlyEntry(r.c.slots, slot)
            && r.c.slots.cold[slot] == Cold(s.p.now + INFLIGHT_TIMEOUT_MS, 1, 0)
            && r.c == s.c.(slots := r.c.slots, queue := r.c.queue, writing := true, batch := 1)
  {
    hide EntryOk, NonFree, Alloc, LoadWireLen, WireLen, PreClean, Joins, EgressFlush, Placed, FirstOf, OnlyEntry;
    var t := Alloc(x.c.slots, 1, m, x.p.now + INFLIGHT_TIMEOUT_MS);
    CountDecides(x.c.slots.hot);
    AllocKeeps(x.c.slots, 1, m, x.p.now + INFLIGHT_TIMEOUT_MS);
    AllocShape(x.c.slots, 1, m, x.p.now + INFLIGHT_TIMEOUT_MS);
    slot, id := t.slot, t.packetId;
    HeadJoins(s, x, m);
    FlushOne(x, t);
    PlacedIn(s.p, m);
    StillPlaced(s.p, TakenOnce(s.p, m), m);
    AllocatedOnly(x.c.slots, m, x.p.now + INFLIGHT_TIMEOUT_MS);
    NumberedFirst(s, x.c.queue[0], m, id);
  }

  /** A flush of one first send that joins the batch. */
  lemma FlushOne(x: Site, t: Taken)
    requires Shaped(x.c.slots) && |x.c.queue| == 1 && PreClean(x) == x && Joins(x.p, x.c, 0) && NeedsId(x.c.queue[0])
    requires t == Alloc(x.c.slots, x.c.queue[0].qos, x.c.queue[0].msgIdx, x.p.now + INFLIGHT_TIMEOUT_MS) && t.slot >= 0 && Shaped(t.slots)
    requires x.c.state == Active && !x.c.writing && x.p.sqRoom > 0
    ensures EgressFlush(x).site == Site(x.p.(sqRoom := x.p.sqRoom - 1), Numbered(x.c, 0, t).(writing := true, batch := 1))
  {
    hide Alloc, Joins, PreClean, Gather, Offer, Shaped;
    GatherOne(x.p, x.c, t);
  }

  lemma NumberedFirst(s: Site, seg: Seg, m: u32, id: u16)
    requires m < |s.p.msgs| && Names(seg, m) && seg.qos == 1 && !seg.dup && seg.cursor == 0 && seg.slotGen == s.c.generation && id != 0
    requires LoadWireLen(seg) == WireLen(s.p.msgs[m], 1) > 0
    ensures FirstOf(s.p, seg.(packetId := id), m, id, s.c.generation)
  {
  }

  lemma AllocatedOnly(v: Slots, m: u32, deadline: int)
    requires Shaped(v) && v.count == 0 && forall t :: 0 <= t < |v.hot| ==> v.hot[t].state == Free
    ensures var t := Alloc(v, 1, m, deadline); t.slot >= 0 && OnlyEntry(t.slots, t.slot)
  {
    hide Search, AssignId;
  }

  lemma HeadJoins(s: Site, x: Site, m: u32)
    requires ReadyToSend(s, m) && x == Enqueued(s, m, 1)
    ensures |x.c.queue| == 1 && Joins(x.p, x.c, 0) && PreClean(x) == x && NeedsId(x.c.queue[0]) && x.c.queue[0].msgIdx == m
    ensures x.c.queue[0].qos == 1 && !x.c.queue[0].dup && x.c.queue[0].cursor == 0 && x.c.queue[0].slotGen == s.c.generation
    ensures LoadWireLen(x.c.queue[0]) == WireLen(s.p.msgs[m], 1) > 0
    ensures x.p == s.p.(msgs := s.p.msgs[m := s.p.msgs[m].(refCount := s.p.msgs[m].refCount + 1)])
  {
    hide Consistent, LoadWireLen, StoreWireLen, WireLen, PreClean;
    var seg := x.c.queue[0];
    CountNotInLength(s.p.msgs[m], s.p.msgs[m].refCount + 1);
    LengthStored(seg, x.p.msgs[m]);
    assert x.c.queue == [seg];
    SendableStays(x);
  }

  lemma CountNotInLength(m: Msg, n: u32)
    ensures WireLen(m.(refCount := n), 1) == WireLen(m, 1)
  {
  }

  lemma LengthStored(seg: Seg, m: Msg)
    requires WireLen(m, 1) < 0x1_0000_0000 && seg.ctrl == StoreWireLen(WireLen(m, 1) % 0x1_0000_0000) + [0, 0, 0, 0]
    ensures LoadWireLen(seg) == WireLen(m, 1) > 0
  {
    hide StoreWireLen, LoadWireLen;
    WireLenRoundTrip(seg, WireLen(m, 1), [0, 0, 0, 0]);
  }

  lemma SendableStays(x: Site)
    requires x.c.queue != [] && !Unsendable(x.c.queue[0], x.c.generation)
    ensures PreClean(x) == x
  {
  }

  lemma GatherOne(p: Pools, c: Client, t: Taken)
    requires Shaped(c.slots) && |c.queue| == 1 && Joins(p, c, 0) && NeedsId(c.queue[0])
    requires t == Alloc(c.slots, c.queue[0].qos, c.queue[0].msgIdx, p.now + INFLIGHT_TIMEOUT_MS) && t.slot >= 0 && Shaped(t.slots)
    ensures Gather(p, c, 0) == Batch(Numbered(c, 0, t), 1)
  {
    hide Alloc, Joins;
    assert Gather(p, Numbered(c, 0, t), 1) == Batch(Numbered(c, 0, t), 1);
  }

  lemma PlacedIn(p: Pools, m: u32)
    requires Placed(p, m)
    ensures m < |p.msgs| && p.msgs[m].bufIdx < |p.bufs|
  {
  }

  lemma StillPlaced(p: Pools, q: Pools, m: u32)
    requires Placed(p, m) && q.bufs == p.bufs && |q.msgs| == |p.msgs| && q.msgs[m].(refCount := 0) == p.msgs[m].(refCount := 0)
    ensures Placed(q, m)
  {
  }

  /** There is such a client: one inflight slot, one message of a topic of one byte. */
  lemma SomeSiteIsReady() returns (s: Site)
    ensures ReadyToSend(s, 0) && s.p.msgs[0].refCount == 1
  {
    var p := Pools([Msg(0, 0, 1, 0, 0, 1, false, 1)], [], [[0x61]], [], 1, 0);
    s := Site(p, Client(Active, true, 1, 0, false, 0, INVALID, Blank(1), [], 2, false, 0));
    BlankIsFree(1);
    VbiSize(5);
  }

  /** The retransmission of an entry. */
  function RetryOf(s: Site, slot: nat): Seg
    requires slot < |s.c.slots.hot| && slot < |s.c.slots.cold|
  {
    PublishSeg(s, s.c.slots.hot[slot].msgIdx, s.c.slots.hot[slot].packetId, s.c.slots.cold[slot].qos, true)
  }

  /** The retransmission is queued behind the write. */
  lemma RetryQueued(s: Site, m: u32, slot: nat, id: u16)
    requires SentTo(s, m, slot, id) && s.c.slots.cold[slot].dupCount == 0 && !Full(s.c)
    ensures var r := Timeout(s, slot);
            && r.p == s.p && SentTo(r, m, slot, id) && |r.c.queue| == |s.c.queue| + 1 && r.c.batch == s.c.batch
            && r.c == s.c.(slots := r.c.slots, queue := s.c.queue + [RetryOf(s, slot)])
            && r.c.slots.hot == s.c.slots.hot && r.c.slots.count == s.c.slots.count
  {
    hide LoadWireLen, Search;
    var r := Timeout(s, slot);
    assert forall t :: 0 <= t < |s.c.slots.hot| && s.c.slots.hot[t].state != Free ==> EntryOk(s.c.slots.hot, t);
    assert r.c.slots.hot == s.c.slots.hot;
  }

  /** PUBACK then frees the message that every queued segment still names. */
  lemma AckFrees(s: Site, m: u32, slot: nat, id: u16)
    requires SentTo(s, m, slot, id) && s.p.msgs[m].refCount == 1
    ensures var r := PubackReceived(s, id);
            && !Live(r.p, m) && r.c.queue == s.c.queue && r.c.writing && r.c.batch == s.c.batch
            && forall k :: 0 <= k < |r.c.queue| ==> Dangles(r.p, r.c.queue[k])
  {
    hide Consistent;
    assert Awaits(s.c, id, WaitPuback, slot);
    AwaitingIff(s.c, id, WaitPuback, slot);
  }

  /** First send, release of the base reference, timeout with the write still in flight, PUBACK: the message is freed and
      both the segment being written and its retransmission name it. */
  lemma DanglingIsReachable(s: Site, m: u32, later: int) returns (slot: nat, id: u16)
    requires ReadyToSend(s, m) && s.p.msgs[m].refCount == 1 && s.p.now >= 0 && later > s.p.now + INFLIGHT_TIMEOUT_MS
    ensures var s1 := StartDelivery(s, m, 1).site;
            var s2 := s1.(p := Release(s1.p, m).(now := later));
            && Shaped(s2.c.slots) && slot < |s2.c.slots.hot| && Expired(s2, slot)
            && var s4 := PubackReceived(Timeout(s2, slot), id);
               && |s4.c.queue| == 2 && !Live(s4.p, m)
               && Names(s4.c.queue[0], m) && Names(s4.c.queue[1], m) && s4.c.writing && s4.c.batch == 1
  {
    hide StartDelivery, Timeout, PubackReceived, Consistent;
    slot, id := FirstSend(s, m);
    var s1 := StartDelivery(s, m, 1).site;
    var s2 := s1.(p := Release(s1.p, m).(now := later));
    assert SentTo(s2, m, slot, id) && s2.p.msgs[m].refCount == 1;
    RetryQueued(s2, m, slot, id);
    var s3 := Timeout(s2, slot);
    assert s3.p.msgs[m].refCount == 1 && s3.c.queue[0].kind == SEG_PUBLISH;
    AckFrees(s3, m, slot, id);
  }
}
