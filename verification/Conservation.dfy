/** Every egress and ceremony step on one client moves references without creating or losing any,
    whatever the other clients own (X) and hold (Y). */
module Conservation {
  import opened Common
  import opened Bags
  import opened Inflight
  import opened Shared
  import opened Egress
  import opened Flush
  import opened Ceremony
  import opened Qos2

  const MAX_EGRESS := 8192 // upper bound on egress_capacity (src/config.def.h)

  ghost predicate SegOk(s: Seg, generation: byte) {
    && s.slotGen == generation
    && (s.kind == SEG_CTRL || s.kind == SEG_PUBLISH)
    && (s.kind == SEG_CTRL ==> s.packetId == 0 && s.ctrlLen == 4 && |s.ctrl| >= 4 && s.cursor < 4)
    && (s.kind == SEG_PUBLISH ==> s.qos == 0 ==> s.packetId == 0)
  }

  /** A segment in flight has its packet id. */
  ghost predicate BatchOk(c: Client) {
    c.writing ==> HaveIds(c, c.batch)
  }

  /** Retransmission reads the message of an outgoing entry from its hot half and the QoS from its cold half. */
  ghost predicate Resendable(v: Slots)
    requires |v.cold| == |v.hot|
  {
    forall s :: 0 <= s < |v.hot| && Outgoing(v.hot[s]) ==> v.hot[s].msgIdx != INVALID && v.cold[s].qos > 0
  }

  ghost predicate ClientOk(c: Client) {
    && Shaped(c.slots) && Consistent(c.slots) && Resendable(c.slots)
    && |c.queue| <= c.capacity <= MAX_EGRESS
    && (forall k :: 0 <= k < |c.queue| ==> SegOk(c.queue[k], c.generation))
    && BatchOk(c)
  }

  ghost predicate HaveIds(c: Client, n: int) {
    0 <= n <= |c.queue| && forall k :: 0 <= k < n ==> !NeedsId(c.queue[k])
  }

  ghost predicate Keeps(s: Site, r: Site, X: multiset<int>, Y: multiset<int>) {
    && ClientOk(r.c)
    && r.c == s.c.(queue := r.c.queue, slots := r.c.slots, writing := r.c.writing, batch := r.c.batch)
    && |r.c.slots.hot| == |s.c.slots.hot|
    && SameStore(s.p, r.p)
    && Sound(r.p, X + Refs(r.c), Y)
  }

  ghost predicate Fit(s: Site, X: multiset<int>, Y: multiset<int>) {
    ClientOk(s.c) && Connected(s.c) && Sound(s.p, X + Refs(s.c), Y)
  }

  /** Releasing a reference that left the client. */
  lemma ReleaseRef(p: Pools, m: u32, X: multiset<int>, before: multiset<int>, after: multiset<int>, Y: multiset<int>)
    requires Sound(p, X + before, Y) && before == after + One(m)
    ensures Sound(Release(p, m), X + after, Y)
    ensures SameStore(p, Release(p, m))
  {
    hide Sound;
    if m != INVALID {
      assert X + before == (X + after) + multiset{m};
      ReleaseKeeps(p, m, X + after, Y);
    } else {
      assert before == after;
    }
  }

  lemma PopOk(c: Client)
    requires ClientOk(c) && c.queue != [] && !c.writing
    ensures ClientOk(c.(queue := c.queue[1..]))
    ensures Refs(c) == if Connected(c) then Refs(c.(queue := c.queue[1..])) + SegRef(c.queue[0]) else multiset{}
  {
    QueuePop(c.queue);
  }

  lemma DiscardKeeps(s: Site, X: multiset<int>, Y: multiset<int>)
    requires Fit(s, X, Y) && s.c.queue != [] && !s.c.writing
    ensures Keeps(s, DiscardHead(s), X, Y)
  {
    PopOk(s.c);
    var seg := s.c.queue[0];
    var c' := s.c.(queue := s.c.queue[1..]);
    if Owns(seg) {
      ReleaseRef(s.p, seg.msgIdx, X, Refs(s.c), Refs(c'), Y);
    } else {
      assert Refs(s.c) == Refs(c');
    }
  }

  lemma {:induction false} PreCleanKeeps(s: Site, X: multiset<int>, Y: multiset<int>)
    requires Fit(s, X, Y) && !s.c.writing
    ensures Keeps(s, PreClean(s), X, Y)
    decreases |s.c.queue|
  {
    if s.c.queue != [] && Unsendable(s.c.queue[0], s.c.generation) {
      DiscardKeeps(s, X, Y);
      PreCleanKeeps(DiscardHead(s), X, Y);
    }
  }

  /** A first send hands its reference from the segment to the inflight entry. */
  lemma NumberedKeeps(p: Pools, c: Client, i: nat)
    requires ClientOk(c) && Connected(c) && !c.writing && i < |c.queue| && NeedsId(c.queue[i]) && c.queue[i].msgIdx != INVALID
    requires var t := Alloc(c.slots, c.queue[i].qos, c.queue[i].msgIdx, p.now + INFLIGHT_TIMEOUT_MS); t.slot >= 0
    ensures var t := Alloc(c.slots, c.queue[i].qos, c.queue[i].msgIdx, p.now + INFLIGHT_TIMEOUT_MS);
            && Shaped(t.slots) && ClientOk(Numbered(c, i, t))
            && t.packetId != 0
            && |t.slots.hot| == |c.slots.hot|
            && Refs(Numbered(c, i, t)) == Refs(c)
  {
    hide Consistent, Alloc, QueueRefs, EntryRefs, LoadWireLen;
    var seg := c.queue[i];
    var t := Alloc(c.slots, seg.qos, seg.msgIdx, p.now + INFLIGHT_TIMEOUT_MS);
    AllocKeeps(c.slots, seg.qos, seg.msgIdx, p.now + INFLIGHT_TIMEOUT_MS);
    var q := Numbered(c, i, t).queue;
    QueueUpdate(c.queue, i, q[i]);
    EntryUpdate(c.slots.hot, t.slot, t.slots.hot[t.slot]);
    assert t.slots.hot == c.slots.hot[t.slot := t.slots.hot[t.slot]];
    assert SegRef(q[i]) == multiset{} && EntryRef(c.slots.hot[t.slot]) == multiset{};
    Handover(QueueRefs(c.queue), QueueRefs(q), EntryRefs(c.slots.hot), EntryRefs(t.slots.hot), SegRef(seg));
  }

  lemma JoinsNamed(p: Pools, c: Client, i: nat)
    requires i < |c.queue| && Joins(p, c, i) && NeedsId(c.queue[i]) && |p.msgs| < INVALID
    ensures c.queue[i].msgIdx != INVALID
  {
  }

  lemma {:induction false} GatherKeeps(p: Pools, c: Client, i: nat)
    requires Shaped(c.slots) && ClientOk(c) && Connected(c) && !c.writing && HaveIds(c, i) && i <= EGRESS_BATCH_MAX
    requires |p.msgs| < INVALID
    ensures var b := Gather(p, c, i);
            && ClientOk(b.c) && Refs(b.c) == Refs(c)
            && b.c == c.(queue := b.c.queue, slots := b.c.slots)
            && |b.c.slots.hot| == |c.slots.hot|
            && HaveIds(b.c, b.n)
    decreases EGRESS_BATCH_MAX - i
  {
    hide Consistent, Alloc, Refs, ClientOk, Joins;
    if i < EGRESS_BATCH_MAX && i < |c.queue| && Joins(p, c, i) {
      if NeedsId(c.queue[i]) {
        var t := Alloc(c.slots, c.queue[i].qos, c.queue[i].msgIdx, p.now + INFLIGHT_TIMEOUT_MS);
        if t.slot >= 0 {
          JoinsNamed(p, c, i);
          NumberedKeeps(p, c, i);
          GatherKeeps(p, Numbered(c, i, t), i + 1);
        }
      } else {
        GatherKeeps(p, c, i + 1);
      }
    }
  }

  lemma FewMessages(p: Pools, owners: multiset<int>, Y: multiset<int>)
    requires Sound(p, owners, Y)
    ensures |p.msgs| < INVALID
  {
  }

  lemma FlushKeeps(s: Site, X: multiset<int>, Y: multiset<int>)
    requires Fit(s, X, Y)
    ensures Keeps(s, EgressFlush(s).site, X, Y)
  {
    hide Sound, Consistent, QueueRefs, EntryRefs, PreClean, Gather;
    if !(s.c.writing || s.c.queue == [] || s.c.state != Active) {
      PreCleanKeeps(s, X, Y);
      PreCleanShape(s);
      var s1 := PreClean(s);
      if s1.c.queue != [] {
        FewMessages(s1.p, X + Refs(s1.c), Y);
        GatherKeeps(s1.p, s1.c, 0);
        var b := Gather(s1.p, s1.c, 0);
        assert Refs(b.c) == Refs(s1.c);
        if b.n != 0 && s1.p.sqRoom != 0 {
          BooksOnly(s1.p, s1.p.(sqRoom := s1.p.sqRoom - 1), X + Refs(s1.c), Y);
        }
      }
    }
  }

  /** A completed segment gives up the reference it owns, and only then. */
  lemma CompleteHeadKeeps(s: Site, X: multiset<int>, Y: multiset<int>)
    requires Fit(s, X, Y) && s.c.queue != [] && !s.c.writing && !NeedsId(s.c.queue[0])
    ensures Keeps(s, CompleteHead(s), X, Y)
  {
    assert SegOk(s.c.queue[0], s.c.generation);
    assert CompleteHead(s) == DiscardHead(s);
    DiscardKeeps(s, X, Y);
  }

  lemma AdvanceKeeps(c: Client, cursor: u32)
    requires ClientOk(c) && c.queue != [] && !c.writing && (c.queue[0].kind == SEG_CTRL ==> cursor < 4)
    ensures ClientOk(c.(queue := c.queue[0 := c.queue[0].(cursor := cursor)]))
    ensures Refs(c.(queue := c.queue[0 := c.queue[0].(cursor := cursor)])) == Refs(c)
  {
    var seg := c.queue[0].(cursor := cursor);
    QueueUpdate(c.queue, 0, seg);
    assert SegRef(seg) == SegRef(c.queue[0]);
    Cancel(QueueRefs(c.queue[0 := seg]), QueueRefs(c.queue), SegRef(seg));
  }

  lemma {:induction false} CompleteKeeps(s: Site, batch: nat, bytesLeft: nat, X: multiset<int>, Y: multiset<int>)
    requires Fit(s, X, Y) && !s.c.writing && HaveIds(s.c, batch) && bytesLeft < 0x1_0000_0000
    ensures Keeps(s, Complete(s, batch, bytesLeft), X, Y)
    decreases batch
  {
    hide Sound, Consistent, Refs, CompleteHead, LoadWireLen;
    if batch != 0 && s.c.queue != [] && bytesLeft != 0 {
      var seg := s.c.queue[0];
      assert SegOk(seg, s.c.generation);
      var rest := Sub32(SegLen(seg), seg.cursor);
      if bytesLeft >= rest {
        CompleteHeadKeeps(s, X, Y);
        CompletePops(s);
        CompleteKeeps(CompleteHead(s), batch - 1, bytesLeft - rest, X, Y);
      } else {
        AdvanceKeeps(s.c, (seg.cursor + bytesLeft) % 0x1_0000_0000);
      }
    }
  }

  lemma CompletePops(s: Site)
    requires s.c.queue != []
    ensures CompleteHead(s).c == s.c.(queue := s.c.queue[1..])
  {
  }

  /** Freeing an entry together with the reference it owns. */
  lemma FinishKeeps(s: Site, slot: nat, X: multiset<int>, Y: multiset<int>)
    requires Fit(s, X, Y) && slot < |s.c.slots.hot| && s.c.slots.hot[slot].state != Free
    ensures Keeps(s, Finish(s, slot), X, Y)
  {
    hide Sound, Consistent, QueueRefs, EntryRefs;
    var e := s.c.slots.hot[slot];
    var w := FreeSlot(s.c.slots, slot);
    FreeSlotKeeps(s.c.slots, slot);
    EntryIsSimple(s.c.slots, slot);
    EntryUpdate(s.c.slots.hot, slot, w.hot[slot]);
    assert w.hot == s.c.slots.hot[slot := w.hot[slot]];
    Regroup(QueueRefs(s.c.queue), EntryRefs(s.c.slots.hot), EntryRefs(w.hot), EntryRef(e));
    ReleaseRef(s.p, e.msgIdx, X, Refs(s.c), Refs(Finish(s, slot).c), Y);
  }

  /** Acknowledging an entry frees its message exactly when nobody else owns it, whether or not a queued
      retransmission still names it. */
  lemma AckFreesIff(s: Site, slot: nat, X: multiset<int>, Y: multiset<int>)
    requires Fit(s, X, Y) && slot < |s.c.slots.hot|
    requires Outgoing(s.c.slots.hot[slot]) && s.c.slots.hot[slot].msgIdx != INVALID
    ensures Live(s.p, s.c.slots.hot[slot].msgIdx)
    ensures Live(Finish(s, slot).p, s.c.slots.hot[slot].msgIdx)
            <==> s.c.slots.hot[slot].msgIdx in X + Refs(Finish(s, slot).c)
    ensures Finish(s, slot).c.queue == s.c.queue
  {
    hide Sound, Consistent, QueueRefs, EntryRefs, Release;
    var e := s.c.slots.hot[slot];
    var r := Finish(s, slot);
    EntryUpdate(s.c.slots.hot, slot, r.c.slots.hot[slot]);
    assert r.c.slots.hot == s.c.slots.hot[slot := r.c.slots.hot[slot]];
    Regroup(QueueRefs(s.c.queue), EntryRefs(s.c.slots.hot), EntryRefs(r.c.slots.hot), EntryRef(e));
    assert X + Refs(s.c) == X + Refs(r.c) + multiset{e.msgIdx};
    ReleaseKeeps(s.p, e.msgIdx, X + Refs(r.c), Y);
  }

  /** Only an outgoing entry names a message. */
  lemma EntryIsSimple(v: Slots, slot: nat)
    requires Consistent(v) && slot < |v.hot|
    ensures EntryRef(v.hot[slot]) == if v.hot[slot].state == Free then multiset{} else One(v.hot[slot].msgIdx)
  {
    assert v.hot[slot].state != Free ==> EntryOk(v.hot, slot);
  }

  lemma Regroup(q: multiset<int>, e: multiset<int>, e': multiset<int>, x: multiset<int>)
    requires e' + x == e
    ensures q + e == q + e' + x
  {
  }

  lemma FailHeadKeeps(s: Site, X: multiset<int>, Y: multiset<int>)
    requires Fit(s, X, Y) && s.c.queue != [] && !s.c.writing
    ensures Keeps(s, FailHead(s), X, Y) && FailHead(s).c.writing == false
  {
    hide Sound, Consistent, QueueRefs, EntryRefs;
    var seg := s.c.queue[0];
    if seg.kind == SEG_PUBLISH && seg.qos > 0 && seg.packetId > 0 && !seg.dup {
      PopOk(s.c);
      var popped := s.(c := s.c.(queue := s.c.queue[1..]));
      assert Refs(popped.c) == Refs(s.c);
      var inf := FindDirect(s.c.slots.hot, seg.packetId);
      if inf >= 0 {
        FinishKeeps(popped, inf, X, Y);
      }
    } else {
      DiscardKeeps(s, X, Y);
    }
  }

  lemma {:induction false} FailKeeps(s: Site, batch: nat, X: multiset<int>, Y: multiset<int>)
    requires Fit(s, X, Y) && !s.c.writing
    ensures Keeps(s, Fail(s, batch), X, Y)
    decreases batch
  {
    hide Sound, Consistent, Refs, FailHead;
    if batch != 0 && s.c.queue != [] {
      FailHeadKeeps(s, X, Y);
      FailKeeps(FailHead(s), batch - 1, X, Y);
    }
  }

  /** A completion carries a result the kernel can give for the batch in flight: at most 2^31 bytes. */
  lemma SettleKeeps(s: Site, res: int, X: multiset<int>, Y: multiset<int>)
    requires Fit(s, X, Y) && (s.c.queue != [] ==> s.c.writing) && res < 0x8000_0000
    ensures Keeps(s, Settle(s, res), X, Y)
  {
    hide Sound, Consistent, QueueRefs, EntryRefs;
    var s1 := s.(c := s.c.(writing := false));
    assert Refs(s1.c) == Refs(s.c);
    if s.c.queue == [] {
    } else if res > 0 {
      CompleteKeeps(s1, s.c.batch, res, X, Y);
    } else if res != -EAGAIN && res != -EINTR {
      FailKeeps(s1, s.c.batch, X, Y);
    }
  }

  /** handle_egress_cqe, chained flush included. */
  lemma EgressCqeKeeps(s: Site, generation: byte, fd: int, res: int, X: multiset<int>, Y: multiset<int>)
    requires Fit(s, X, Y) && res < 0x8000_0000
    requires s.c.generation == generation && s.c.fd == fd && s.c.queue != [] ==> s.c.writing
    ensures Keeps(s, EgressCqe(s, generation, fd, res).site, X, Y)
  {
    hide Sound, Consistent, Refs, Settle, EgressFlush;
    if s.c.generation == generation && s.c.fd == fd {
      SettleKeeps(s, res, X, Y);
      FlushKeeps(Settle(s, res), X, Y);
    }
  }

  lemma PushOk(c: Client, seg: Seg)
    requires ClientOk(c) && !Full(c) && SegOk(seg, c.generation)
    ensures ClientOk(Push(c, seg))
    ensures Refs(Push(c, seg)) == if Connected(c) then Refs(c) + SegRef(seg) else multiset{}
  {
    hide Consistent, EntryRefs, QueueRefs, Resendable, LoadWireLen, NeedsId;
    QueuePush(c.queue, seg);
  }

  /** Delivery to one subscriber takes exactly one reference when it is accepted and none when it is not. */
  lemma StartDeliveryKeeps(s: Site, m: u32, qos: byte, X: multiset<int>, Y: multiset<int>)
    requires Fit(s, X, Y) && m in X && (X + Refs(s.c))[m] + 1 < 0x1_0000_0000
    ensures Keeps(s, StartDelivery(s, m, qos).site, X, Y)
    ensures StartDelivery(s, m, qos).ok <==> !Full(s.c)
  {
    hide Sound, Consistent, Refs, EgressFlush, LoadWireLen;
    RefKeeps(s.p, m, X + Refs(s.c), Y);
    var p := Ref(s.p, m);
    RefShape(s.p, m, X + Refs(s.c), Y);
    if Full(s.c) {
      assert X + Refs(s.c) + multiset{m} == X + (Refs(s.c) + multiset{m});
      ReleaseRef(p, m, X, Refs(s.c) + multiset{m}, Refs(s.c), Y);
    } else {
      var seg := PublishSeg(s.(p := p), m, 0, qos, false);
      PushOk(s.c, seg);
      assert X + Refs(s.c) + multiset{m} == X + Refs(Push(s.c, seg));
      FlushKeeps(Site(p, Push(s.c, seg)), X, Y);
    }
  }

  lemma RefShape(p: Pools, m: u32, owners: multiset<int>, Y: multiset<int>)
    requires Sound(p, owners, Y) && m in owners
    ensures m < |p.msgs| && m != INVALID
    ensures Ref(p, m) == p.(msgs := Ref(p, m).msgs)
    ensures SameStore(p, Ref(p, m))
  {
    assert Live(p, m);
  }

  lemma KickKeeps(s: Site, X: multiset<int>, Y: multiset<int>)
    requires Fit(s, X, Y)
    ensures Keeps(s, Kick(s), X, Y)
  {
    hide Sound, Consistent, Refs, EgressFlush;
    FlushKeeps(s, X, Y);
  }

  /** PUBACK releases the one reference of the entry it acknowledges, or nothing. */
  lemma PubackKeeps(s: Site, id: u16, X: multiset<int>, Y: multiset<int>)
    requires Fit(s, X, Y)
    ensures Keeps(s, PubackReceived(s, id), X, Y)
  {
    hide Sound, Consistent, Refs, Kick, Finish;
    var slot := Awaiting(s.c, id, WaitPuback);
    if slot >= 0 {
      FinishKeeps(s, slot, X, Y);
      KickKeeps(Finish(s, slot), X, Y);
    }
  }

  lemma EnqueuePubrelKeeps(s: Site, id: u16, X: multiset<int>, Y: multiset<int>)
    requires Fit(s, X, Y)
    ensures Keeps(s, s.(c := EnqueuePubrel(s.c, id)), X, Y)
  {
    hide Sound, Consistent, Refs;
    if !Full(s.c) {
      PushOk(s.c, PubrelSeg(s.c.generation, id));
      assert SegRef(PubrelSeg(s.c.generation, id)) == multiset{};
      assert Refs(EnqueuePubrel(s.c, id)) == Refs(s.c);
    }
  }

  /** PUBREC releases the entry's reference at once and queues PUBREL. */
  lemma PubrecKeeps(s: Site, id: u16, X: multiset<int>, Y: multiset<int>)
    requires Fit(s, X, Y)
    ensures Keeps(s, PubrecReceived(s, id), X, Y)
  {
    hide Sound, Consistent, Refs, Kick, Finish, EnqueuePubrel, EgressFlush;
    var slot := Awaiting(s.c, id, WaitPubrec);
    if slot >= 0 {
      FinishKeeps(s, slot, X, Y);
      var s1 := Finish(s, slot);
      EnqueuePubrelKeeps(s1, id, X, Y);
      KickKeeps(s1.(c := EnqueuePubrel(s1.c, id)), X, Y);
    } else {
      EnqueuePubrelKeeps(s, id, X, Y);
      FlushKeeps(s.(c := EnqueuePubrel(s.c, id)), X, Y);
    }
  }

  lemma ColdKeeps(c: Client, slot: nat, cold: Cold)
    requires ClientOk(c) && slot < |c.slots.hot| && cold.qos == c.slots.cold[slot].qos
    ensures ClientOk(c.(slots := c.slots.(cold := c.slots.cold[slot := cold])))
    ensures Refs(c.(slots := c.slots.(cold := c.slots.cold[slot := cold]))) == Refs(c)
  {
  }

  lemma RetransmitOk(s: Site, slot: nat)
    requires ClientOk(s.c) && slot < |s.c.slots.hot| && Outgoing(s.c.slots.hot[slot])
    ensures var seg := PublishSeg(s, s.c.slots.hot[slot].msgIdx, s.c.slots.hot[slot].packetId, s.c.slots.cold[slot].qos, true);
            SegOk(seg, s.c.generation) && SegRef(seg) == multiset{}
  {
    assert EntryOk(s.c.slots.hot, slot);
  }

  /** A timed-out entry is given up with its reference, or sent again without taking a new one. */
  lemma TimeoutKeeps(s: Site, slot: nat, X: multiset<int>, Y: multiset<int>)
    requires Fit(s, X, Y) && slot < |s.c.slots.hot| && Outgoing(s.c.slots.hot[slot])
    ensures Keeps(s, Timeout(s, slot), X, Y)
  {
    hide Sound, Consistent, Refs, Finish, EgressFlush, LoadWireLen;
    var cold := s.c.slots.cold[slot];
    if cold.dupCount >= MAX_RETRIES {
      FinishKeeps(s, slot, X, Y);
    } else {
      var cold' := cold.(dupCount := cold.dupCount + 1, deadline := s.p.now + INFLIGHT_TIMEOUT_MS);
      ColdKeeps(s.c, slot, cold');
      var s1 := s.(c := s.c.(slots := s.c.slots.(cold := s.c.slots.cold[slot := cold'])));
      if Full(s.c) {
        FinishKeeps(s1, slot, X, Y);
      } else {
        var hot := s.c.slots.hot[slot];
        var seg := PublishSeg(s1, hot.msgIdx, hot.packetId, cold.qos, true);
        RetransmitOk(s1, slot);
        PushOk(s1.c, seg);
        assert Refs(Push(s1.c, seg)) == Refs(s1.c);
        FlushKeeps(s1.(c := Push(s1.c, seg)), X, Y);
      }
    }
  }

  lemma {:induction false} SweepKeeps(s: Site, i: nat, found: nat, X: multiset<int>, Y: multiset<int>)
    requires Fit(s, X, Y)
    ensures Keeps(s, Sweep(s, i, found), X, Y)
    decreases |s.c.slots.hot| - i
  {
    hide Sound, Consistent, Refs, Timeout;
    if i < |s.c.slots.hot| && found < s.c.slots.count {
      if s.c.slots.hot[i].state == Free {
        SweepKeeps(s, i + 1, found, X, Y);
      } else if Expired(s, i) {
        TimeoutKeeps(s, i, X, Y);
        SweepKeeps(Timeout(s, i), i + 1, found + 1, X, Y);
      } else {
        SweepKeeps(s, i + 1, found + 1, X, Y);
      }
    }
  }

  lemma SweepClientKeeps(s: Site, X: multiset<int>, Y: multiset<int>)
    requires Fit(s, X, Y)
    ensures Keeps(s, SweepClient(s), X, Y)
  {
    hide Sound, Consistent, Refs, Sweep;
    SweepKeeps(s, 0, 0, X, Y);
  }

  // ---- disconnect ----

  /** Draining the queue gives up exactly the references the queue owns. */
  lemma {:induction false} DrainReleases(s: Site, X: multiset<int>, Y: multiset<int>)
    requires Sound(s.p, X + QueueRefs(s.c.queue), Y)
    ensures Drain(s).c == s.c.(queue := [])
    ensures Sound(Drain(s).p, X, Y)
    ensures Drain(s).p.bufs == s.p.bufs && |Drain(s).p.msgs| == |s.p.msgs|
    decreases |s.c.queue|
  {
    hide Sound;
    if s.c.queue == [] {
      assert X + QueueRefs(s.c.queue) == X;
    } else {
      var seg := s.c.queue[0];
      QueuePop(s.c.queue);
      if Owns(seg) {
        ReleaseRef(s.p, seg.msgIdx, X, QueueRefs(s.c.queue), QueueRefs(s.c.queue[1..]), Y);
      } else {
        assert QueueRefs(s.c.queue) == QueueRefs(s.c.queue[1..]);
      }
      DrainReleases(DiscardHead(s), X, Y);
    }
  }

  lemma EntriesPop(hot: seq<Hot>, i: nat)
    requires i < |hot|
    ensures EntryRefs(hot[i..]) == EntryRef(hot[i]) + EntryRefs(hot[i + 1..])
    ensures NonFree(hot[i..]) == (if hot[i].state != Free then 1 else 0) + NonFree(hot[i + 1..])
  {
    assert hot[i..][1..] == hot[i + 1..];
    assert EntryBags(hot[i..])[1..] == EntryBags(hot[i + 1..]);
  }

  lemma {:induction false} FreeEntriesOwnNothing(hot: seq<Hot>, i: nat)
    requires i <= |hot| && NonFree(hot[i..]) == 0
    ensures EntryRefs(hot[i..]) == multiset{}
    decreases |hot| - i
  {
    if i < |hot| {
      EntriesPop(hot, i);
      FreeEntriesOwnNothing(hot, i + 1);
    }
  }

  /** The release loop stops at the counter, and the counter is exact, so no entry's reference is missed. */
  lemma {:induction false} EntriesReleased(p: Pools, hot: seq<Hot>, count: int, i: nat, found: nat,
                                           X: multiset<int>, Y: multiset<int>)
    requires i <= |hot| && count - found == NonFree(hot[i..])
    requires forall s :: 0 <= s < |hot| && hot[s].state != Free ==> EntryOk(hot, s)
    requires Sound(p, X + EntryRefs(hot[i..]), Y)
    ensures Sound(ReleaseEntries(p, hot, count, i, found), X, Y)
    ensures ReleaseEntries(p, hot, count, i, found).bufs == p.bufs
    ensures |ReleaseEntries(p, hot, count, i, found).msgs| == |p.msgs|
    decreases |hot| - i
  {
    hide Sound, Release;
    if i >= |hot| || found >= count {
      FreeEntriesOwnNothing(hot, i);
      assert X + EntryRefs(hot[i..]) == X;
    } else {
      EntriesPop(hot, i);
      var e := hot[i];
      var rest := EntryRefs(hot[i + 1..]);
      if e.state == Free {
        assert EntryRefs(hot[i..]) == rest;
        EntriesReleased(p, hot, count, i + 1, found, X, Y);
      } else if e.direction == OUTGOING && e.msgIdx != INVALID {
        ReleaseRef(p, e.msgIdx, X, EntryRefs(hot[i..]), rest, Y);
        EntriesReleased(Release(p, e.msgIdx), hot, count, i + 1, found + 1, X, Y);
      } else {
        assert EntryOk(hot, i);
        assert EntryRefs(hot[i..]) == rest;
        EntriesReleased(p, hot, count, i + 1, found + 1, X, Y);
      }
    }
  }

  /** A disconnecting client gives up every reference it owns. */
  lemma DisconnectReleases(s: Site, X: multiset<int>, Y: multiset<int>)
    requires Fit(s, X, Y)
    ensures Disconnect(s).c == s.c.(queue := [])
    ensures Sound(Disconnect(s).p, X, Y)
    ensures Disconnect(s).p.bufs == s.p.bufs && |Disconnect(s).p.msgs| == |s.p.msgs|
  {
    hide Sound, QueueRefs, EntryRefs, Drain, ReleaseEntries;
    var hot := s.c.slots.hot;
    assert X + (QueueRefs(s.c.queue) + EntryRefs(hot)) == (X + EntryRefs(hot)) + QueueRefs(s.c.queue);
    DrainReleases(s, X + EntryRefs(hot), Y);
    assert hot[0..] == hot;
    if s.c.slots.count == 0 {
      FreeEntriesOwnNothing(hot, 0);
      assert X + EntryRefs(hot) == X;
    } else {
      EntriesReleased(Drain(s).p, hot, s.c.slots.count, 0, 0, X, Y);
    }
  }
}
