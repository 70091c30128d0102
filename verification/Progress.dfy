/** When a flush hands bytes to the kernel, and how many segments it takes (src/broker/loop.h). */
module Progress {
  import opened Common
  import opened Inflight
  import opened Shared
  import opened Egress
  import opened Flush
  import Acks
  import FatalWrite
  import opened Qos2

  /** A segment that puts something on the wire: of this generation, of a known kind, not sent in full, and if it is a
      PUBLISH, of a message whose buffer exists. */
  predicate HasBytes(p: Pools, s: Seg, generation: byte) {
    && s.slotGen == generation
    && (|| (s.kind == SEG_CTRL && s.cursor < s.ctrlLen)
        || (s.kind == SEG_PUBLISH && s.cursor < LoadWireLen(s) && s.msgIdx < |p.msgs| && p.msgs[s.msgIdx].bufIdx < |p.bufs|))
  }

  /** A segment that the pre-clean loop throws away: of another generation or kind, empty, or sent in full. */
  predicate Dead(s: Seg, generation: byte) {
    || s.slotGen != generation
    || (s.kind == SEG_CTRL && s.cursor >= s.ctrlLen)
    || (s.kind == SEG_PUBLISH && s.cursor >= LoadWireLen(s))
    || s.kind > SEG_CTRL
  }

  /** The number of dead segments at the head. */
  function DeadHeads(q: seq<Seg>, generation: byte): (n: nat)
    ensures n <= |q| && (n < |q| ==> !Dead(q[n], generation)) && forall k :: 0 <= k < n ==> Dead(q[k], generation)
  {
    if q == [] || !Dead(q[0], generation) then 0 else 1 + DeadHeads(q[1..], generation)
  }

  /** The head that a flush finds, and a submission entry and a packet id for it. */
  predicate CanSend(s: Site) {
    var n := DeadHeads(s.c.queue, s.c.generation);
    && s.c.state == Active && !s.c.writing && n < |s.c.queue|
    && HasBytes(s.p, s.c.queue[n], s.c.generation)
    && (s.c.queue[n].kind == SEG_PUBLISH && s.c.queue[n].qos > 0 && s.c.queue[n].packetId == 0 ==> s.c.slots.count < |s.c.slots.hot|)
  }

  /** The pools as the flush reads them. */
  ghost predicate SameStores(p: Pools, q: Pools) {
    && |q.msgs| == |p.msgs| && |q.bufs| == |p.bufs| && q.sqRoom == p.sqRoom && q.now == p.now
    && forall m :: 0 <= m < |p.msgs| ==> q.msgs[m].bufIdx == p.msgs[m].bufIdx
  }

  lemma {:induction false} PreCleanExact(s: Site)
    ensures var r := PreClean(s); r.c == s.c.(queue := s.c.queue[DeadHeads(s.c.queue, s.c.generation)..]) && SameStores(s.p, r.p)
    decreases |s.c.queue|
  {
    if s.c.queue != [] && Unsendable(s.c.queue[0], s.c.generation) {
      PreCleanExact(DiscardHead(s));
      DiscardStores(s);
    }
  }

  lemma DiscardStores(s: Site)
    requires s.c.queue != []
    ensures SameStores(s.p, DiscardHead(s).p)
  {
  }

  /** A batch is not empty exactly when its first segment has bytes and a packet id, or a slot for one. */
  lemma BatchStarts(p: Pools, c: Client)
    requires Consistent(c.slots) && c.queue != [] && !Dead(c.queue[0], c.generation)
    ensures Gather(p, c, 0).n > 0 <==>
              && HasBytes(p, c.queue[0], c.generation)
              && (c.queue[0].kind == SEG_PUBLISH && c.queue[0].qos > 0 && c.queue[0].packetId == 0 ==> c.slots.count < |c.slots.hot|)
  {
    hide EntryOk, NonFree, Alloc;
    if NeedsId(c.queue[0]) {
      AllocKeeps(c.slots, c.queue[0].qos, c.queue[0].msgIdx, p.now + INFLIGHT_TIMEOUT_MS);
    }
  }

  /** A flush submits a write if and only if the client is active with no write in flight, the first segment that is not dead
      has bytes and an id, or a free inflight slot, and a submission entry is left. It takes one entry, and not one
      otherwise. It reports a full submission queue exactly when only the entry is missing. */
  lemma FlushSubmitsIff(s: Site)
    requires Consistent(s.c.slots)
    ensures var f := EgressFlush(s);
            && (f.code == Submitted <==> CanSend(s) && s.p.sqRoom > 0)
            && (f.code == SqFull <==> CanSend(s) && s.p.sqRoom == 0)
            && f.site.p.sqRoom == s.p.sqRoom - (if f.code == Submitted then 1 else 0)
            && f.site.c.writing == (s.c.writing || f.code == Submitted)
  {
    hide EntryOk, NonFree, PreClean, Gather, Offer, Dead, HasBytes, DeadHeads;
    PreCleanExact(s);
    PreCleanShape(s);
    var n := DeadHeads(s.c.queue, s.c.generation);
    var x := PreClean(s);
    GatherFlags(x.p, x.c, 0);
    if n < |s.c.queue| {
      assert x.c.queue[0] == s.c.queue[n];
      BatchStarts(x.p, x.c);
      SameBytes(s.p, x.p, s.c.queue[n], s.c.generation);
    }
  }

  lemma SameBytes(p: Pools, q: Pools, s: Seg, generation: byte)
    requires SameStores(p, q)
    ensures HasBytes(q, s, generation) == HasBytes(p, s, generation)
  {
  }

  lemma {:induction false} GatherFlags(p: Pools, c: Client, i: nat)
    requires Shaped(c.slots)
    ensures var d := Gather(p, c, i).c; d == c.(slots := d.slots, queue := d.queue)
    decreases EGRESS_BATCH_MAX - i
  {
    hide Alloc, Joins;
    if i < EGRESS_BATCH_MAX && i < |c.queue| && Joins(p, c, i) {
      if NeedsId(c.queue[i]) {
        var t := Alloc(c.slots, c.queue[i].qos, c.queue[i].msgIdx, p.now + INFLIGHT_TIMEOUT_MS);
        Acks.AllocShape(c.slots, c.queue[i].qos, c.queue[i].msgIdx, p.now + INFLIGHT_TIMEOUT_MS);
        if t.slot >= 0 {
          GatherFlags(p, Numbered(c, i, t), i + 1);
        }
      } else {
        GatherFlags(p, c, i + 1);
      }
    }
  }

  // ---- completions ----

  /** A completion of the client's own write goes on with what is queued then, whatever its result was: it submits the next
      write if and only if a flush of that queue can send. Any other completion submits nothing and changes nothing. */
  lemma CompletionSubmitsIff(s: Site, generation: byte, fd: int, res: int)
    requires Consistent(s.c.slots)
    ensures var f := EgressCqe(s, generation, fd, res); var own := s.c.generation == generation && s.c.fd == fd;
            && (f.code == Submitted <==> own && s.c.queue != [] && CanSend(Settle(s, res)) && Settle(s, res).p.sqRoom > 0)
            && (!own ==> f.site == s)
  {
    hide EntryOk, NonFree, EgressFlush, Settle, DeadHeads, HasBytes;
    SettleKeepsTable(s, res);
    FlushSubmitsIff(Settle(s, res));
  }

  lemma SettleKeepsTable(s: Site, res: int)
    requires Consistent(s.c.slots)
    ensures Consistent(Settle(s, res).c.slots)
  {
    hide EntryOk, NonFree, Complete, Fail, Undo;
    var s1 := s.(c := s.c.(writing := false));
    if res > 0 {
      CompleteShape(s1, s.c.batch, res);
    }
    FatalWrite.FailUndoes(s1, s.c.batch);
    UndoKeeps(s.c.slots, FatalWrite.SentIds(s.c.queue, s.c.batch));
  }

  /** A short write goes on: of the head's packet fewer bytes were taken than are left, the rest is submitted in the same
      call, one submission entry provided. */
  lemma ShortWriteGoesOn(s: Site, res: int)
    requires Consistent(s.c.slots) && s.c.state == Active && s.c.queue != [] && s.c.batch > 0 && s.p.sqRoom > 0
    requires HasBytes(s.p, s.c.queue[0], s.c.generation) && !NeedsId(s.c.queue[0])
    requires 0 < res < SegLen(s.c.queue[0]) - s.c.queue[0].cursor
    ensures EgressCqe(s, s.c.generation, s.c.fd, res).code == Submitted
  {
    hide EntryOk, NonFree, EgressFlush;
    var head := s.c.queue[0];
    var c := s.c.(writing := false, queue := s.c.queue[0 := head.(cursor := head.cursor + res)]);
    assert Settle(s, res) == Site(s.p, c);
    FlushSubmitsIff(Site(s.p, c));
  }

  /** EAGAIN and EINTR, errors 11 and 4, only end the write; every other result that is not positive takes the whole batch off
      the queue. */
  lemma TransientOrFatal(s: Site, res: int)
    requires Shaped(s.c.slots) && res <= 0
    ensures res == -11 || res == -4 ==> Settle(s, res) == s.(c := s.c.(writing := false))
    ensures res != -11 && res != -4 ==>
              Settle(s, res).c.queue == (if s.c.batch <= |s.c.queue| then s.c.queue[s.c.batch..] else []) && !Settle(s, res).c.writing
  {
    hide Fail;
    var s1 := s.(c := s.c.(writing := false));
    FatalWrite.FailUndoes(s1, s.c.batch);
    FailFlags(s1, s.c.batch);
  }

  lemma {:induction false} FailFlags(s: Site, batch: nat)
    requires Shaped(s.c.slots)
    ensures Fail(s, batch).c.writing == s.c.writing
    decreases batch
  {
    if batch != 0 && s.c.queue != [] {
      FailFlags(FailHead(s), batch - 1);
    }
  }

  // ---- how many segments ----

  /** First sends among the first n segments. */
  function FirstSends(q: seq<Seg>, n: nat): nat
    requires n <= |q|
  {
    if n == 0 then 0 else FirstSends(q, n - 1) + (if NeedsId(q[n - 1]) then 1 else 0)
  }

  lemma AllocCounts(v: Slots, qos: byte, m: u32, deadline: int)
    requires Consistent(v)
    ensures var t := Alloc(v, qos, m, deadline);
            && t.slots.count == v.count + (if t.slot >= 0 then 1 else 0) && |t.slots.hot| == |v.hot|
            && (t.slot >= 0 ==> t.packetId != 0)
            && (t.slot < 0 ==> t.slots == v && v.count == |v.hot|)
  {
    hide EntryOk;
    AllocKeeps(v, qos, m, deadline);
    CountDecides(v.hot);
  }

  /** A packet id decides nothing about joining, and the segment that got it needs none any more. */
  lemma NumberedJoins(p: Pools, c: Client, i: nat, t: Taken)
    requires i < |c.queue| && NeedsId(c.queue[i]) && t.packetId != 0
    ensures var d := Numbered(c, i, t);
            && |d.queue| == |c.queue| && !NeedsId(d.queue[i])
            && (forall k :: 0 <= k < |c.queue| ==> Joins(p, d, k) == Joins(p, c, k))
            && (forall k :: 0 <= k < |c.queue| && k != i ==> d.queue[k] == c.queue[k])
            && FirstSends(d.queue, i) == FirstSends(c.queue, i)
            && forall n :: i < n <= |c.queue| ==> FirstSends(d.queue, n) == FirstSends(c.queue, n) - 1
  {
    hide FirstSends;
    var d := Numbered(c, i, t);
    FirstSendsSame(c.queue, d.queue, i, i);
    forall n | i < n <= |c.queue| ensures FirstSends(d.queue, n) == FirstSends(c.queue, n) - 1 {
      FirstSendsSame(c.queue, d.queue, i, n);
    }
  }

  lemma {:induction false} FirstSendsSame(q: seq<Seg>, r: seq<Seg>, i: nat, n: nat)
    requires |r| == |q| && i < |q| && n <= |q| && NeedsId(q[i]) && !NeedsId(r[i])
    requires forall k :: 0 <= k < |q| && k != i ==> r[k] == q[k]
    ensures FirstSends(r, n) == FirstSends(q, n) - (if n > i then 1 else 0)
  {
    if n > 0 {
      FirstSendsSame(q, r, i, n - 1);
    }
  }

  /** What the batch loop makes of a queue from segment i on. */
  ghost predicate Batched(p: Pools, c: Client, i: nat, n: nat, d: Client) {
    && i <= n <= |c.queue| == |d.queue| && |d.slots.hot| == |c.slots.hot|
    && d.slots.count == c.slots.count + FirstSends(c.queue, n) - FirstSends(c.queue, i)
    && (forall k :: i <= k < n ==> Joins(p, c, k))
    && (forall k :: i <= k < n ==> d.queue[k] == c.queue[k].(packetId := d.queue[k].packetId))
    && (forall k :: i <= k < n ==> if NeedsId(c.queue[k]) then d.queue[k].packetId != 0 else d.queue[k] == c.queue[k])
    && (forall k :: 0 <= k < i || n <= k < |c.queue| ==> d.queue[k] == c.queue[k])
    && (n == 64 || n == |c.queue| || !Joins(p, c, n) || (NeedsId(c.queue[n]) && d.slots.count == |d.slots.hot|))
  }

  lemma BatchedSend(p: Pools, c: Client, i: nat, t: Taken, n: nat, d: Client)
    requires i < |c.queue| && NeedsId(c.queue[i]) && Joins(p, c, i) && t.packetId != 0
    requires t.slots.count == c.slots.count + 1 && |t.slots.hot| == |c.slots.hot|
    requires Batched(p, Numbered(c, i, t), i + 1, n, d)
    ensures Batched(p, c, i, n, d)
  {
    hide Joins, NeedsId;
    NumberedJoins(p, c, i, t);
  }

  lemma BatchedOther(p: Pools, c: Client, i: nat, n: nat, d: Client)
    requires i < |c.queue| && !NeedsId(c.queue[i]) && Joins(p, c, i) && Batched(p, c, i + 1, n, d)
    ensures Batched(p, c, i, n, d)
  {
    hide Joins, NeedsId;
  }

  /** The batch runs to the first segment that cannot join it, to the first one that needs a packet id when all inflight slots
      are taken, to the end of the queue, or to 64 segments, whichever is first. Each first send in it has taken one slot and
      got an id; no segment changes otherwise. */
  lemma {:induction false} BatchExact(p: Pools, c: Client, i: nat)
    requires Consistent(c.slots) && i <= |c.queue| && i <= EGRESS_BATCH_MAX
    ensures var b := Gather(p, c, i); Batched(p, c, i, b.n, b.c)
    decreases EGRESS_BATCH_MAX - i
  {
    hide EntryOk, NonFree, Alloc, Joins, Batched, NeedsId;
    if i < EGRESS_BATCH_MAX && i < |c.queue| && Joins(p, c, i) {
      if NeedsId(c.queue[i]) {
        AllocKeeps(c.slots, c.queue[i].qos, c.queue[i].msgIdx, p.now + INFLIGHT_TIMEOUT_MS);
        AllocCounts(c.slots, c.queue[i].qos, c.queue[i].msgIdx, p.now + INFLIGHT_TIMEOUT_MS);
        var t := Alloc(c.slots, c.queue[i].qos, c.queue[i].msgIdx, p.now + INFLIGHT_TIMEOUT_MS);
        if t.slot >= 0 {
          BatchExact(p, Numbered(c, i, t), i + 1);
          BatchedSend(p, c, i, t, Gather(p, c, i).n, Gather(p, c, i).c);
        } else {
          BatchedEnd(p, c, i);
        }
      } else {
        BatchExact(p, c, i + 1);
        BatchedOther(p, c, i, Gather(p, c, i).n, Gather(p, c, i).c);
      }
    } else {
      BatchedEnd(p, c, i);
    }
  }

  lemma BatchedEnd(p: Pools, c: Client, i: nat)
    requires i <= |c.queue|
    requires i == 64 || i == |c.queue| || !Joins(p, c, i) || (NeedsId(c.queue[i]) && c.slots.count == |c.slots.hot|)
    ensures Batched(p, c, i, i, c)
  {
  }

  /** The entry of a first send: it waits for the acknowledgement of its QoS under the id of its segment, 30 seconds from now,
      with no retry counted. */
  predicate SentAt(v: Slots, s: Seg, now: int) {
    && v.hot != [] && |v.cold| == |v.hot|
    && var t := Direct(s.packetId, |v.hot|);
       && v.hot[t] == Hot(s.packetId, if s.qos == 1 then WaitPuback else WaitPubrec, OUTGOING, s.msgIdx)
       && v.cold[t] == Cold(now + 30000, s.qos, 0)
  }

  lemma SentStays(v: Slots, w: Slots, s: Seg, now: int)
    requires Acks.KeepsEntries(v, w) && SentAt(v, s, now)
    ensures SentAt(w, s, now)
  {
  }

  lemma JustSent(v: Slots, s: Seg, now: int)
    requires Consistent(v) && NeedsId(s)
    ensures var t := Alloc(v, s.qos, s.msgIdx, now + INFLIGHT_TIMEOUT_MS);
            t.slot >= 0 ==> SentAt(t.slots, s.(packetId := t.packetId), now)
  {
    hide EntryOk, NonFree;
    AllocKeeps(v, s.qos, s.msgIdx, now + INFLIGHT_TIMEOUT_MS);
  }

  ghost predicate AllSent(c: Client, i: nat, n: nat, d: Client, now: int) {
    && i <= n <= |c.queue| == |d.queue| && Acks.KeepsEntries(c.slots, d.slots)
    && forall k :: i <= k < n && NeedsId(c.queue[k]) ==> SentAt(d.slots, d.queue[k], now)
  }

  /** Every first send of a batch has its entry, and the entries that were in use before are as they were. */
  lemma {:induction false} BatchEntries(p: Pools, c: Client, i: nat)
    requires Consistent(c.slots) && i <= |c.queue| && i <= EGRESS_BATCH_MAX
    ensures AllSent(c, i, Gather(p, c, i).n, Gather(p, c, i).c, p.now)
    decreases EGRESS_BATCH_MAX - i
  {
    hide EntryOk, NonFree, Alloc, Joins, NeedsId, SentAt, Acks.KeepsEntries, AllSent;
    if i < EGRESS_BATCH_MAX && i < |c.queue| && Joins(p, c, i) {
      if NeedsId(c.queue[i]) {
        var t := Alloc(c.slots, c.queue[i].qos, c.queue[i].msgIdx, p.now + INFLIGHT_TIMEOUT_MS);
        AllocKeeps(c.slots, c.queue[i].qos, c.queue[i].msgIdx, p.now + INFLIGHT_TIMEOUT_MS);
        AllocCounts(c.slots, c.queue[i].qos, c.queue[i].msgIdx, p.now + INFLIGHT_TIMEOUT_MS);
        if t.slot >= 0 {
          BatchEntries(p, Numbered(c, i, t), i + 1);
          FirstSent(p, c, i);
        } else {
          NoneSent(c, i, p.now);
        }
      } else {
        BatchEntries(p, c, i + 1);
        OtherSent(c, i, Gather(p, c, i).n, Gather(p, c, i).c, p.now);
      }
    } else {
      NoneSent(c, i, p.now);
    }
  }

  lemma NoneSent(c: Client, i: nat, now: int)
    requires Shaped(c.slots) && i <= |c.queue|
    ensures AllSent(c, i, i, c, now)
  {
  }

  lemma OtherSent(c: Client, i: nat, n: nat, d: Client, now: int)
    requires i < |c.queue| && !NeedsId(c.queue[i]) && AllSent(c, i + 1, n, d, now)
    ensures AllSent(c, i, n, d, now)
  {
    hide NeedsId, SentAt, Acks.KeepsEntries;
  }

  lemma FirstSent(p: Pools, c: Client, i: nat)
    requires Consistent(c.slots) && i < |c.queue| && i < EGRESS_BATCH_MAX && Joins(p, c, i) && NeedsId(c.queue[i])
    requires var t := Alloc(c.slots, c.queue[i].qos, c.queue[i].msgIdx, p.now + INFLIGHT_TIMEOUT_MS);
             && t.slot >= 0 && Consistent(t.slots)
             && AllSent(Numbered(c, i, t), i + 1, Gather(p, Numbered(c, i, t), i + 1).n, Gather(p, Numbered(c, i, t), i + 1).c, p.now)
    ensures AllSent(c, i, Gather(p, c, i).n, Gather(p, c, i).c, p.now)
  {
    hide EntryOk, NonFree, Alloc, Joins, NeedsId, SentAt, Acks.KeepsEntries, Batched;
    var t := Alloc(c.slots, c.queue[i].qos, c.queue[i].msgIdx, p.now + INFLIGHT_TIMEOUT_MS);
    var d := Numbered(c, i, t);
    var r := Gather(p, d, i + 1);
    assert Gather(p, c, i) == r;
    Acks.GatherKeepsEntries(p, c, i);
    BatchExact(p, d, i + 1);
    BatchedKeeps(d, i + 1, i, p, r.n, r.c);
    JustSent(c.slots, c.queue[i], p.now);
    SentStays(t.slots, r.c.slots, d.queue[i], p.now);
  }

  lemma BatchedKeeps(c: Client, i: nat, k: nat, p: Pools, n: nat, d: Client)
    requires k < i <= |c.queue| && Batched(p, c, i, n, d)
    ensures |d.queue| == |c.queue| && d.queue[k] == c.queue[k]
  {
    hide Joins, NeedsId;
  }
}
