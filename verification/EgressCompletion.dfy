/** Completion of an egress write in place (handle_egress_cqe in src/broker/loop.h). */
module EgressCompletion {
  import opened Common
  import opened Inflight
  import opened PacketIdIndex
  import opened Shared
  import opened Egress
  import opened Flush
  import opened Conservation
  import opened PoolObjects
  import opened ClientObjects
  import opened EgressEngine

  /** One fully written head: what it owns can be released, and the rest of the batch is still in order. */
  lemma CompleteStep(s: Site, batch: nat, left: nat, X: multiset<int>, Y: multiset<int>)
    requires Fit(s, X, Y) && !s.c.writing && HaveIds(s.c, batch) && batch > 0 && left > 0
    requires left >= Sub32(SegLen(s.c.queue[0]), s.c.queue[0].cursor)
    ensures var head := s.c.queue[0];
            head.kind == SEG_PUBLISH && head.qos == 0 && head.msgIdx != INVALID ==> RoomFor(s.p, head.msgIdx)
    ensures CompleteHead(s).c == s.c.(queue := s.c.queue[1..])
    ensures Fit(CompleteHead(s), X, Y) && HaveIds(CompleteHead(s).c, batch - 1)
    ensures Complete(s, batch, left) ==
            Complete(CompleteHead(s), batch - 1, left - Sub32(SegLen(s.c.queue[0]), s.c.queue[0].cursor))
  {
    hide Sound, Consistent, RoomFor, EntryRefs, QueueRefs;
    assert SegOk(s.c.queue[0], s.c.generation);
    CompleteHeadKeeps(s, X, Y);
    FitHead(s, X, Y);
    KeepsFit(s, CompleteHead(s), X, Y);
    CompletePops(s);
  }

  lemma PartialStep(s: Site, batch: nat, left: nat)
    requires s.c.queue != [] && batch > 0 && left > 0 && left < Sub32(SegLen(s.c.queue[0]), s.c.queue[0].cursor)
    ensures Complete(s, batch, left) ==
            s.(c := s.c.(queue := s.c.queue[0 := s.c.queue[0].(cursor := (s.c.queue[0].cursor + left) % 0x1_0000_0000)]))
  {
  }

  lemma CompleteNothing(s: Site, batch: nat, left: nat)
    requires batch == 0 || s.c.queue == [] || left == 0
    ensures Complete(s, batch, left) == s
  {
  }

  /** The walk over the batch after a write of res bytes. */
  method WalkBatch(a: Resources, c: ClientSlot, batch: nat, res: u32, ghost X: multiset<int>, ghost Y: multiset<int>)
    requires Together(a, c) && Fit(SiteOf(a, c), X, Y) && !c.writing && HaveIds(c.View(), batch)
    modifies a.repr, c.ring, c.ring.segs
    ensures Together(a, c) && SiteOf(a, c) == Complete(old(SiteOf(a, c)), batch, res)
  {
    hide Fit, HaveIds, Complete, CompleteHead, Consistent, Indexes, RoomFor, LoadWireLen;
    ghost var was := SiteOf(a, c);
    var todo: nat, left: u32 := batch, res;
    while todo > 0 && c.ring.count > 0 && left > 0
      invariant Together(a, c) && !c.writing
      invariant left > 0 ==> Fit(SiteOf(a, c), X, Y) && HaveIds(c.View(), todo)
      invariant Complete(SiteOf(a, c), todo, left) == Complete(was, batch, res)
      decreases todo
    {
      left := CompleteNext(a, c, todo, left, X, Y);
      todo := todo - 1;
    }
    CompleteNothing(SiteOf(a, c), todo, left);
  }

  /** One turn of that walk; the result is what is left of the written bytes. */
  method CompleteNext(a: Resources, c: ClientSlot, ghost todo: nat, left: u32, ghost X: multiset<int>, ghost Y: multiset<int>)
    returns (rest: u32)
    requires Together(a, c) && Fit(SiteOf(a, c), X, Y) && !c.writing && HaveIds(c.View(), todo)
    requires todo > 0 && c.ring.count > 0 && left > 0
    modifies a.repr, c.ring, c.ring.segs
    ensures Together(a, c) && !c.writing
    ensures rest > 0 ==> Fit(SiteOf(a, c), X, Y) && HaveIds(c.View(), todo - 1)
    ensures Complete(SiteOf(a, c), todo - 1, rest) == Complete(old(SiteOf(a, c)), todo, left)
  {
    hide Fit, HaveIds, Complete, CompleteHead, Consistent, Indexes, RoomFor, LoadWireLen;
    ghost var now := SiteOf(a, c);
    var seg := c.ring.segs[c.ring.At(0)];
    assert seg == now.c.queue[0];
    var len := if seg.kind == SEG_CTRL then seg.ctrlLen else LoadWireLen(seg);
    var segRemaining := Sub32(len, seg.cursor);
    if left >= segRemaining {
      CompleteStep(now, todo, left, X, Y);
      CompleteFirst(a, c);
      rest := left - segRemaining;
    } else {
      PartialStep(now, todo, left);
      c.ring.Replace(0, seg.(cursor := (seg.cursor + left) % 0x1_0000_0000));
      rest := 0;
      CompleteNothing(SiteOf(a, c), todo - 1, 0);
    }
  }

  lemma FailStep(s: Site, batch: nat, X: multiset<int>, Y: multiset<int>)
    requires Fit(s, X, Y) && !s.c.writing && s.c.queue != [] && batch > 0
    ensures Shaped(s.c.slots) && Shaped(FailHead(s).c.slots) && HeadFits(s)
    ensures Fail(s, batch) == Fail(FailHead(s), batch - 1)
    ensures Fit(FailHead(s), X, Y) && !FailHead(s).c.writing
    ensures FailHead(s).c.queue == s.c.queue[1..]
    ensures var inf := FindDirect(s.c.slots.hot, s.c.queue[0].packetId);
            inf >= 0 ==> RoomFor(s.p, s.c.slots.hot[inf].msgIdx)
  {
    hide Sound, RoomFor, QueueRefs, Release;
    FailHeadKeeps(s, X, Y);
    KeepsFit(s, FailHead(s), X, Y);
    FitHead(s, X, Y);
    var inf := FindDirect(s.c.slots.hot, s.c.queue[0].packetId);
    if inf >= 0 {
      EntryHasRoom(s, inf, X, Y);
    }
  }

  /** What an entry owns can be released. */
  lemma EntryHasRoom(s: Site, slot: nat, X: multiset<int>, Y: multiset<int>)
    requires Fit(s, X, Y) && slot < |s.c.slots.hot| && s.c.slots.hot[slot].state != Free
    ensures RoomFor(s.p, s.c.slots.hot[slot].msgIdx)
  {
    hide Sound, Consistent, RoomFor, QueueRefs, EntryRefs;
    var e := s.c.slots.hot[slot];
    EntryIsSimple(s.c.slots, slot);
    EntryUpdate(s.c.slots.hot, slot, e);
    assert e.msgIdx != INVALID ==> e.msgIdx in EntryRef(e);
    assert e.msgIdx != INVALID ==> e.msgIdx in X + Refs(s.c);
    OwnedHasRoom(s.p, e.msgIdx, X + Refs(s.c), Y);
  }

  /** The walk over the batch after a fatal error. */
  method FailBatch(a: Resources, c: ClientSlot, batch: nat, ghost X: multiset<int>, ghost Y: multiset<int>)
    requires Together(a, c) && Fit(SiteOf(a, c), X, Y) && !c.writing
    modifies a.repr, c.repr
    ensures Together(a, c) && Shaped(old(c.View().slots)) && SiteOf(a, c) == Fail(old(SiteOf(a, c)), batch)
  {
    hide Fit, Fail, FailHead, Consistent, Indexes, RoomFor;
    TableShaped(c.table.View());
    ghost var was := SiteOf(a, c);
    var todo := batch;
    while todo > 0 && c.ring.count > 0
      invariant Together(a, c) && !c.writing && todo >= 0 && Fit(SiteOf(a, c), X, Y) && Shaped(c.View().slots)
      invariant Fail(SiteOf(a, c), todo) == Fail(was, batch)
      decreases todo
    {
      FailStep(SiteOf(a, c), todo, X, Y);
      FailFirst(a, c);
      todo := todo - 1;
    }
    NothingToFail(SiteOf(a, c), todo);
  }

  lemma NothingToFail(s: Site, batch: nat)
    requires Shaped(s.c.slots) && (batch == 0 || s.c.queue == [])
    ensures Fail(s, batch) == s
  {
  }

  /** One segment of that walk: a first send also gives up its inflight entry. */
  method FailFirst(a: Resources, c: ClientSlot)
    requires Together(a, c) && c.ring.count > 0 && HeadFits(SiteOf(a, c)) && Shaped(c.View().slots)
    requires var inf := FindDirect(c.View().slots.hot, c.View().queue[0].packetId);
             inf >= 0 ==> RoomFor(a.View(), c.View().slots.hot[inf].msgIdx)
    modifies a.repr, c.repr
    ensures Together(a, c) && SiteOf(a, c) == FailHead(old(SiteOf(a, c))) && c.writing == old(c.writing)
  {
    hide Release, RoomFor, Consistent, Indexes, FreeSlot;
    var seg := c.ring.segs[c.ring.At(0)];
    assert seg == c.View().queue[0];
    if seg.kind == SEG_PUBLISH && seg.qos > 0 && seg.packetId > 0 && !seg.dup {
      UndoFirstSend(a, c, seg.packetId);
    } else {
      Discard(a, c);
    }
  }

  method UndoFirstSend(a: Resources, c: ClientSlot, id: u16)
    requires Together(a, c) && c.ring.count > 0 && Shaped(c.View().slots)
    requires var inf := FindDirect(c.View().slots.hot, id); inf >= 0 ==> RoomFor(a.View(), c.View().slots.hot[inf].msgIdx)
    modifies a.repr, c.repr
    ensures Together(a, c) && c.writing == old(c.writing)
    ensures var was := old(SiteOf(a, c)); var inf := FindDirect(was.c.slots.hot, id);
            SiteOf(a, c) == if inf >= 0
                            then Site(Release(was.p, was.c.slots.hot[inf].msgIdx), was.c.(slots := FreeSlot(was.c.slots, inf), queue := was.c.queue[1..]))
                            else was.(c := was.c.(queue := was.c.queue[1..]))
  {
    hide Release, RoomFor, Consistent, Indexes, FreeSlot;
    var inf := c.table.LookupDirect(id);
    if inf >= 0 {
      EndEntry(a, c, inf);
    }
    c.ring.Pop();
  }

  /** Releases the message of an inflight entry and frees the entry. */
  method EndEntry(a: Resources, c: ClientSlot, slot: nat)
    requires Together(a, c) && slot < c.table.n && RoomFor(a.View(), c.View().slots.hot[slot].msgIdx)
    modifies a.repr, c.repr
    ensures Together(a, c)
    ensures SiteOf(a, c) == Site(Release(old(a.View()), old(c.View()).slots.hot[slot].msgIdx),
                                 old(c.View()).(slots := FreeSlot(old(c.View()).slots, slot)))
    ensures c.writing == old(c.writing) && c.ring.count == old(c.ring.count)
  {
    hide Release, RoomFor, Consistent, Indexes, FreeSlot;
    a.Release(c.table.hot[slot].msgIdx);
    c.table.Release(slot);
  }

  /** handle_egress_cqe up to the chained flush. */
  method SettleWrite(a: Resources, c: ClientSlot, res: int, ghost X: multiset<int>, ghost Y: multiset<int>)
    requires Together(a, c) && -0x8000_0000 <= res < 0x8000_0000
    requires c.ring.count > 0 ==> c.writing && Fit(SiteOf(a, c), X, Y)
    modifies a.repr, c.repr
    ensures Together(a, c) && Shaped(old(c.View().slots)) && SiteOf(a, c) == Settle(old(SiteOf(a, c)), res)
  {
    hide Fit, Fail, Complete, Consistent, Indexes, RoomFor, HaveIds;
    TableShaped(c.table.View());
    ghost var was := SiteOf(a, c);
    c.writing := false;
    if c.ring.count == 0 {
      return;
    }
    StopWriting(was, X, Y);
    if res > 0 {
      WalkBatch(a, c, c.batch, res, X, Y);
    } else if res == -EAGAIN || res == -EINTR {
    } else {
      FailBatch(a, c, c.batch, X, Y);
    }
  }

  lemma StopWriting(s: Site, X: multiset<int>, Y: multiset<int>)
    requires Fit(s, X, Y)
    ensures Fit(s.(c := s.c.(writing := false)), X, Y)
    ensures s.c.writing ==> HaveIds(s.c.(writing := false), s.c.batch)
  {
    hide Sound, Consistent, QueueRefs, EntryRefs;
    assert Refs(s.c.(writing := false)) == Refs(s.c);
  }

  /** handle_egress_cqe: a completion for another generation or descriptor is ignored. */
  method HandleEgressCqe(a: Resources, c: ClientSlot, generation: byte, fd: int, res: int, ghost X: multiset<int>, ghost Y: multiset<int>)
    returns (code: FlushCode, iov: seq<seq<byte>>)
    requires Together(a, c) && -0x8000_0000 <= res < 0x8000_0000
    requires c.generation == generation && c.fd == fd && c.ring.count > 0 ==> c.writing && Fit(SiteOf(a, c), X, Y)
    modifies a.repr, c.repr
    ensures Together(a, c) && Shaped(old(c.View().slots))
    ensures Flushed(SiteOf(a, c), code, iov) == EgressCqe(old(SiteOf(a, c)), generation, fd, res)
  {
    hide Fit, Settle, EgressFlush, Consistent, Indexes, RoomFor, HaveIds;
    TableShaped(c.table.View());
    code, iov := Noop, [];
    if c.generation != generation || c.fd != fd {
      return;
    }
    var had := c.ring.count > 0;
    ghost var was := SiteOf(a, c);
    SettleWrite(a, c, res, X, Y);
    if had && c.ring.count > 0 && c.state == Active {
      SettleKeeps(was, res, X, Y);
      KeepsFit(was, SiteOf(a, c), X, Y);
      code, iov := FlushEgress(a, c, X, Y);
    }
  }
}
