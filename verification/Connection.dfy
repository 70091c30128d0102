/** One connection over a whole run: what the kernel has accepted is exactly the encodings of the packets queued first,
    in the order they were queued, plus the first bytes of the head. */
module Connection {
  import opened Common
  import opened Inflight
  import opened Shared
  import opened Egress
  import opened Flush
  import opened Stream
  import opened Dangling

  /** offered is the write in flight, accepted all bytes taken so far, packets the packets completed so far and log
      everything that was ever queued. */
  datatype Conn = Conn(s: Site, offered: seq<byte>, accepted: seq<byte>, packets: seq<seq<byte>>, log: seq<Frame>)

  datatype Move =
    | Enqueue(seg: Seg)                       // fan-out, retransmission or PUBREL
    | FlushNow
    | Answer(res: int)                        // the kernel completes the write in flight
    | Elsewhere(p: Pools, c: Client)          // anything that leaves the queue and the write in flight alone

  ghost predicate InFlight(x: Conn) {
    var q := x.s.c.queue;
    && 0 < x.s.c.batch <= |q|
    && (forall k :: 0 <= k < x.s.c.batch ==> !NeedsId(q[k]))
    && x.offered == if CountWraps(q[..x.s.c.batch]) then [] else Owed(x.s.p, q[..x.s.c.batch])
  }

  /** A message that can be sent: inside its buffer, with a length of 32 bits. */
  ghost predicate Deliverable(p: Pools, m: u32) {
    Placed(p, m) && WireLen(p.msgs[m], 1) < 0x1_0000_0000
  }

  /** Outgoing entries can be sent again. */
  ghost predicate EntriesDeliverable(p: Pools, v: Slots) {
    forall s :: 0 <= s < |v.hot| && Outgoing(v.hot[s]) ==> Deliverable(p, v.hot[s].msgIdx)
  }

  /** First in, first out: the completed packets encode the first entries of the log, and the queue holds the rest. */
  ghost predicate Logged(p: Pools, q: seq<Seg>, packets: seq<seq<byte>>, log: seq<Frame>) {
    && |log| == |packets| + |q|
    && (forall j :: 0 <= j < |packets| ==> Encodes(log[j], packets[j]))
    && (forall j :: 0 <= j < |q| ==> FrameOf(p, q[j]) == log[|packets| + j])
  }

  ghost predicate StreamInv(x: Conn) {
    && Shaped(x.s.c.slots)
    && QueueReady(x.s.p, x.s.c.queue) && !CtrlResumed(x.s.c.queue)
    && EntriesDeliverable(x.s.p, x.s.c.slots)
    && (forall k :: 0 <= k < |x.s.c.queue| ==> x.s.c.queue[k].slotGen == x.s.c.generation)
    && x.accepted == Flatten(x.packets) + HeadSent(x.s.p, x.s.c.queue)
    && Logged(x.s.p, x.s.c.queue, x.packets, x.log)
    && (x.s.c.writing ==> InFlight(x))
  }

  /** What happens to the shared store: nothing but releases, or whatever leaves alone the live messages and those that
      dangling segments of the queue name. */
  ghost predicate Harmless(p: Pools, p': Pools, q: seq<Seg>) {
    || SameStore(p, p')
    || (&& |p'.msgs| == |p.msgs| && (forall m: nat :: Live(p, m) ==> Untouched(p, p', m))
        && forall k :: 0 <= k < |q| && Dangles(p, q[k]) && q[k].msgIdx < |p.msgs| ==> Untouched(p, p', q[k].msgIdx))
  }

  /** A change of the client that its connection does not notice. */
  ghost predicate Unnoticed(c: Client, d: Client) {
    && d.queue == c.queue && d.writing == c.writing && d.batch == c.batch && d.generation == c.generation
    && Shaped(d.slots)
  }

  ghost predicate Allowed(x: Conn, m: Move)
    requires Shaped(x.s.c.slots)
  {
    match m
    case Enqueue(seg) => Ready(x.s.p, seg) && seg.cursor == 0 && seg.slotGen == x.s.c.generation
    case FlushNow => true
    case Answer(res) =>
      && x.s.c.writing
      && ((0 < res <= |x.offered| && !CtrlResumed(Walked(x.s.c.queue, x.s.c.batch, res))) || res == -EAGAIN || res == -EINTR)
    case Elsewhere(p, c) => Unnoticed(x.s.c, c) && Harmless(x.s.p, p, x.s.c.queue) && EntriesDeliverable(p, c.slots)
  }

  ghost function After(x: Conn, m: Move): Conn
    requires Shaped(x.s.c.slots) && Allowed(x, m)
  {
    match m
    case Enqueue(seg) => x.(s := x.s.(c := x.s.c.(queue := x.s.c.queue + [seg])), log := x.log + [FrameOf(x.s.p, seg)])
    case FlushNow =>
      var f := EgressFlush(x.s);
      x.(s := f.site, offered := if f.code == Submitted then Flatten(f.iov) else x.offered)
    case Answer(res) =>
      x.(s := Settle(x.s, res),
         accepted := if res > 0 then x.accepted + x.offered[..res] else x.accepted,
         packets := if res > 0 then x.packets + Packets(x.s.p, x.s.c.queue, x.s.c.batch, res) else x.packets)
    case Elsewhere(p, c) => x.(s := Site(p, c))
  }

  // ---- releases do not touch bytes ----

  lemma {:induction false} CompleteStore(s: Site, batch: nat, n: nat)
    ensures SameStore(s.p, Complete(s, batch, n).p)
    decreases batch
  {
    hide Release;
    if batch != 0 && s.c.queue != [] && n != 0 {
      var rest := Sub32(SegLen(s.c.queue[0]), s.c.queue[0].cursor);
      if n >= rest {
        ReleaseStore(s.p, s.c.queue[0].msgIdx);
        CompleteStore(CompleteHead(s), batch - 1, n - rest);
      }
    }
  }

  lemma KeptSeg(p: Pools, q: Pools, s: Seg)
    requires SameStore(p, q)
    ensures Ready(p, s) ==> Ready(q, s)
    ensures Wire(q, s) == Wire(p, s)
  {
    if s.msgIdx < |p.msgs| {
      assert q.msgs[s.msgIdx].(refCount := 0) == p.msgs[s.msgIdx].(refCount := 0);
    }
  }

  lemma KeptFrame(p: Pools, q: Pools, s: Seg)
    requires SameStore(p, q)
    ensures FrameOf(q, s) == FrameOf(p, s)
  {
    if s.msgIdx < |p.msgs| {
      assert q.msgs[s.msgIdx].(refCount := 0) == p.msgs[s.msgIdx].(refCount := 0);
    }
  }

  lemma KeptQueue(p: Pools, q: Pools, segs: seq<Seg>)
    requires SameStore(p, q) && QueueReady(p, segs)
    ensures QueueReady(q, segs) && HeadSent(q, segs) == HeadSent(p, segs)
    ensures forall k :: 0 <= k < |segs| ==> FrameOf(q, segs[k]) == FrameOf(p, segs[k])
  {
    hide Ready, Wire, SameStore, FrameOf;
    forall k | 0 <= k < |segs|
      ensures FrameOf(q, segs[k]) == FrameOf(p, segs[k])
    {
      KeptFrame(p, q, segs[k]);
    }
    forall k | 0 <= k < |segs|
      ensures Ready(q, segs[k]) && Wire(q, segs[k]) == Wire(p, segs[k])
    {
      KeptSeg(p, q, segs[k]);
    }
  }

  // ---- the steps ----

  lemma {:induction false} SameOwed(p: Pools, p': Pools, q: seq<Seg>)
    requires forall k :: 0 <= k < |q| ==> Wire(p', q[k]) == Wire(p, q[k])
    ensures Owed(p', q) == Owed(p, q)
  {
    hide Wire;
    if q != [] {
      SameOwed(p, p', q[1..]);
    }
  }

  /** A segment whose message was left alone still stands for the same packet. */
  lemma UntouchedSeg(p: Pools, q: Pools, s: Seg)
    requires Ready(p, s) && (s.kind == SEG_PUBLISH ==> Untouched(p, q, s.msgIdx))
    ensures Ready(q, s) && Wire(q, s) == Wire(p, s) && FrameOf(q, s) == FrameOf(p, s)
  {
  }

  lemma NamedExists(p: Pools, s: Seg)
    requires Ready(p, s)
    ensures s.kind == SEG_PUBLISH ==> s.msgIdx < |p.msgs|
  {
  }

  /** As long as no message named in the queue is used again, or only releases happen, all queued packets keep their bytes. */
  lemma HarmlessKeepsBytes(p: Pools, p': Pools, q: seq<Seg>)
    requires Harmless(p, p', q) && QueueReady(p, q)
    ensures QueueReady(p', q) && HeadSent(p', q) == HeadSent(p, q)
    ensures forall k :: 0 <= k < |q| ==> Ready(p', q[k]) && Wire(p', q[k]) == Wire(p, q[k]) && FrameOf(p', q[k]) == FrameOf(p, q[k])
  {
    hide Ready, Wire, FrameOf, Untouched, SameStore;
    forall k | 0 <= k < |q|
      ensures Ready(p', q[k]) && Wire(p', q[k]) == Wire(p, q[k]) && FrameOf(p', q[k]) == FrameOf(p, q[k])
    {
      if SameStore(p, p') {
        KeptSeg(p, p', q[k]);
        KeptFrame(p, p', q[k]);
      } else {
        NamedExists(p, q[k]);
        UntouchedSeg(p, p', q[k]);
      }
    }
  }

  lemma ElsewhereKeeps(x: Conn, p: Pools, c: Client)
    requires StreamInv(x) && Allowed(x, Elsewhere(p, c))
    ensures StreamInv(After(x, Elsewhere(p, c)))
  {
    hide Ready, Wire, Shaped, FrameOf, Encodes, Harmless, EntriesDeliverable, QueueReady, HeadSent;
    var q := x.s.c.queue;
    HarmlessKeepsBytes(x.s.p, p, q);
    if x.s.c.writing {
      SameOwed(x.s.p, p, q[..x.s.c.batch]);
    }
  }

  lemma EnqueueKeeps(x: Conn, seg: Seg)
    requires StreamInv(x) && Allowed(x, Enqueue(seg))
    ensures StreamInv(After(x, Enqueue(seg)))
  {
    hide Ready, Wire, Shaped, FrameOf, Encodes;
    var q := x.s.c.queue;
    if q == [] {
      assert HeadSent(x.s.p, [seg]) == [];
    }
    if x.s.c.writing {
      assert (q + [seg])[..x.s.c.batch] == q[..x.s.c.batch];
    }
  }

  lemma HeadIsSendable(s: Site)
    requires QueueReady(s.p, s.c.queue) && s.c.queue != [] && s.c.queue[0].slotGen == s.c.generation
    ensures PreClean(s) == s
  {
    assert Ready(s.p, s.c.queue[0]);
  }

  /** Numbering keeps what there is of a head: only a segment that was never started is numbered. */
  lemma NumberedCtrl(q: seq<Seg>, r: seq<Seg>)
    requires OnlyNumbered(q, r)
    ensures CtrlResumed(r) <==> CtrlResumed(q)
    ensures forall n :: 0 < n <= |r| ==> (CtrlResumed(r[..n]) <==> CtrlResumed(q))
  {
    if q != [] {
      assert r[0] == q[0] || NeedsId(q[0]);
    }
  }

  /** An entry made from a segment that is ready to be sent can be sent again. */
  lemma {:induction false} GatherEntries(p: Pools, c: Client, i: nat)
    requires Shaped(c.slots) && QueueReady(p, c.queue) && EntriesDeliverable(p, c.slots)
    ensures EntriesDeliverable(p, Gather(p, c, i).c.slots)
    decreases EGRESS_BATCH_MAX - i
  {
    hide QueueReady, Joins, NeedsId, Alloc, Shaped, EntriesDeliverable;
    if i < EGRESS_BATCH_MAX && i < |c.queue| && Joins(p, c, i) {
      if NeedsId(c.queue[i]) {
        var s := c.queue[i];
        var t := Alloc(c.slots, s.qos, s.msgIdx, p.now + Qos2.INFLIGHT_TIMEOUT_MS);
        if t.slot >= 0 {
          AllocIdNotZero(c.slots, s.qos, s.msgIdx, p.now + Qos2.INFLIGHT_TIMEOUT_MS);
          NumberedQueue(p, c.queue, i, t.packetId);
          NewEntry(p, c, i, t);
          GatherEntries(p, Numbered(c, i, t), i + 1);
        }
      } else {
        GatherEntries(p, c, i + 1);
      }
    }
  }

  lemma NewEntry(p: Pools, c: Client, i: nat, t: Taken)
    requires Shaped(c.slots) && QueueReady(p, c.queue) && EntriesDeliverable(p, c.slots) && i < |c.queue| && NeedsId(c.queue[i])
    requires t == Alloc(c.slots, c.queue[i].qos, c.queue[i].msgIdx, p.now + Qos2.INFLIGHT_TIMEOUT_MS) && t.slot >= 0
    ensures EntriesDeliverable(p, t.slots)
  {
    hide LoadWireLen, Search, AssignId;
    assert Ready(p, c.queue[i]);
    SameLength(p.msgs[c.queue[i].msgIdx], c.queue[i].qos);
  }

  /** The length of a packet with a packet id does not depend on its QoS. */
  lemma SameLength(m: Msg, qos: byte)
    ensures qos > 0 ==> WireLen(m, qos) == WireLen(m, 1)
  {
  }

  lemma EntriesRoom(p: Pools, v: Slots)
    requires EntriesDeliverable(p, v)
    ensures forall room: nat :: EntriesDeliverable(p.(sqRoom := room), v)
  {
    hide WireLen;
  }

  lemma FlushKeepsStream(x: Conn)
    requires StreamInv(x) && Allowed(x, FlushNow)
    ensures StreamInv(After(x, FlushNow))
  {
    hide Ready, Wire, Shaped, Gather, Offer, QueueReady, Owed, HeadSent, PreClean, CountWraps, CtrlResumed, NeedsId,
         Logged, EntriesDeliverable, OnlyNumbered;
    var c := x.s.c;
    if !(c.writing || c.queue == [] || c.state != Active) {
      HeadIsSendable(x.s);
      GatherReady(x.s.p, c, 0);
      GatherEntries(x.s.p, c, 0);
      var b := Gather(x.s.p, c, 0);
      NumberedHeadSent(x.s.p, c.queue, b.c.queue);
      NumberedCtrl(c.queue, b.c.queue);
      NumberedGen(c.queue, b.c.queue);
      RoomOnly(x.s.p, b.c.queue);
      EntriesRoom(x.s.p, b.c.slots);
      LogNumbered(x.s.p, c.queue, b.c.queue, x.packets, x.log);
      if b.n != 0 && x.s.p.sqRoom != 0 {
        var q := b.c.queue[..b.n];
        BatchReady(x.s.p, b.c.queue, b.n);
        if CountWraps(q) { WrappedOfferIsEmpty(x.s.p, q); } else { OfferExactIff(x.s.p, q); }
        SameOwedRoom(x.s.p, q);
      }
    }
  }

  lemma NumberedGen(q: seq<Seg>, r: seq<Seg>)
    requires OnlyNumbered(q, r)
    ensures forall k :: 0 <= k < |r| ==> r[k].slotGen == q[k].slotGen
  {
  }

  /** Neither a packet id nor the submission room enters the log. */
  lemma LogNumbered(p: Pools, q: seq<Seg>, r: seq<Seg>, packets: seq<seq<byte>>, log: seq<Frame>)
    requires Logged(p, q, packets, log) && OnlyNumbered(q, r)
    ensures forall room: nat :: Logged(p.(sqRoom := room), r, packets, log)
    ensures Logged(p, r, packets, log)
  {
    hide Encodes;
    forall room: nat
      ensures Logged(p.(sqRoom := room), r, packets, log)
    {
      var p' := p.(sqRoom := room);
      forall j | 0 <= j < |r| ensures FrameOf(p', r[j]) == log[|packets| + j] {
        assert FrameOf(p', r[j]) == FrameOf(p, q[j]);
      }
    }
    assert p.(sqRoom := p.sqRoom) == p;
  }

  /** A completed write moves whole packets from the queue's front to the completed ones. */
  lemma LogWalked(p: Pools, p': Pools, q: seq<Seg>, batch: nat, n: nat, packets: seq<seq<byte>>, log: seq<Frame>)
    requires Logged(p, q, packets, log) && QueueReady(p, q) && batch <= |q|
    requires forall j :: 0 <= j < |Walked(q, batch, n)| ==> FrameOf(p', Walked(q, batch, n)[j]) == FrameOf(p, Walked(q, batch, n)[j])
    ensures Logged(p', Walked(q, batch, n), packets + Packets(p, q, batch, n), log)
  {
    hide Encodes, FrameOf, Wire, Ready, Walked, Packets;
    WalkTakesPrefix(p, q, batch, n);
    var more, r := Packets(p, q, batch, n), Walked(q, batch, n);
    forall j | 0 <= j < |more| ensures Encodes(log[|packets| + j], more[j]) {
      WireEncodes(p, q[j]);
    }
    forall j | 0 <= j < |r| ensures FrameOf(p', r[j]) == log[|packets| + |more| + j] {
      CursorOnly(p, r[j], q[|more| + j]);
    }
  }

  lemma CursorOnly(p: Pools, s: Seg, t: Seg)
    requires s.(cursor := 0) == t.(cursor := 0)
    ensures FrameOf(p, s) == FrameOf(p, t)
  {
  }

  lemma BatchReady(p: Pools, q: seq<Seg>, n: nat)
    requires QueueReady(p, q) && n <= |q|
    ensures QueueReady(p, q[..n])
  {
    hide Ready;
  }

  lemma RoomOnly(p: Pools, q: seq<Seg>)
    requires QueueReady(p, q)
    ensures forall room: nat :: QueueReady(p.(sqRoom := room), q) && HeadSent(p.(sqRoom := room), q) == HeadSent(p, q)
  {
    forall room: nat
      ensures QueueReady(p.(sqRoom := room), q) && HeadSent(p.(sqRoom := room), q) == HeadSent(p, q)
    {
      KeptQueue(p, p.(sqRoom := room), q);
    }
  }

  lemma SameOwedRoom(p: Pools, q: seq<Seg>)
    ensures forall room: nat :: Owed(p.(sqRoom := room), q) == Owed(p, q)
  {
    hide Wire;
    forall room: nat
      ensures Owed(p.(sqRoom := room), q) == Owed(p, q)
    {
      forall k | 0 <= k < |q| ensures Wire(p.(sqRoom := room), q[k]) == Wire(p, q[k]) {
        KeptSeg(p, p.(sqRoom := room), q[k]);
      }
      SameOwed(p, p.(sqRoom := room), q);
    }
  }

  lemma EntriesKept(p: Pools, q: Pools, v: Slots)
    requires SameStore(p, q) && EntriesDeliverable(p, v)
    ensures EntriesDeliverable(q, v)
  {
    hide WireLen;
    forall s | 0 <= s < |v.hot| && Outgoing(v.hot[s])
      ensures Deliverable(q, v.hot[s].msgIdx)
    {
      var m := v.hot[s].msgIdx;
      assert q.msgs[m].(refCount := 0) == p.msgs[m].(refCount := 0);
      SameMsgLength(p.msgs[m], q.msgs[m]);
    }
  }

  /** The reference count does not enter the length. */
  lemma SameMsgLength(m: Msg, n: Msg)
    requires m.(refCount := 0) == n.(refCount := 0)
    ensures forall qos: byte :: WireLen(m, qos) == WireLen(n, qos)
  {
  }

  lemma AnswerKeeps(x: Conn, res: int)
    requires StreamInv(x) && Allowed(x, Answer(res))
    ensures StreamInv(After(x, Answer(res)))
  {
    hide Ready, Wire, Shaped, QueueReady, Owed, HeadSent, Completed, NeedsId, Complete, SameStore, Logged, Packets, FrameOf,
         CountWraps, CtrlResumed, EntriesDeliverable, Walked;
    var c := x.s.c;
    if res > 0 {
      var s1 := x.s.(c := c.(writing := false));
      CompleteShape(s1, c.batch, res);
      CompleteIsWalked(s1, c.batch, res);
      WalkExact(x.s.p, c.queue, c.batch, res);
      CompleteStore(s1, c.batch, res);
      var r := Complete(s1, c.batch, res);
      EntriesKept(x.s.p, r.p, c.slots);
      KeptQueue(x.s.p, r.p, r.c.queue);
      WalkKeepsGen(c.queue, c.batch, res, c.generation);
      LogWalked(x.s.p, r.p, c.queue, c.batch, res, x.packets, x.log);
      CompletedIsPackets(x.s.p, c.queue, c.batch, res);
      FlattenAppend(x.packets, Packets(x.s.p, c.queue, c.batch, res));
      JoinStream(x, res, HeadSent(x.s.p, r.c.queue));
    }
  }

  lemma JoinStream(x: Conn, res: int, head: seq<byte>)
    requires x.accepted == Flatten(x.packets) + HeadSent(x.s.p, x.s.c.queue) && 0 <= res <= |x.offered|
    requires HeadSent(x.s.p, x.s.c.queue) + x.offered[..res] == Completed(x.s.p, x.s.c.queue, x.s.c.batch, res) + head
    ensures x.accepted + x.offered[..res] == (Flatten(x.packets) + Completed(x.s.p, x.s.c.queue, x.s.c.batch, res)) + head
  {
    hide HeadSent, Completed, Flatten;
    assert x.accepted + x.offered[..res] == Flatten(x.packets) + (HeadSent(x.s.p, x.s.c.queue) + x.offered[..res]);
  }

  lemma {:induction false} WalkKeepsGen(q: seq<Seg>, batch: nat, n: nat, generation: byte)
    requires forall k :: 0 <= k < |q| ==> q[k].slotGen == generation
    ensures forall k :: 0 <= k < |Walked(q, batch, n)| ==> Walked(q, batch, n)[k].slotGen == generation
    decreases batch
  {
    if batch != 0 && q != [] && n != 0 {
      var rest := Sub32(SegLen(q[0]), q[0].cursor);
      if n >= rest {
        WalkKeepsGen(q[1..], batch - 1, n - rest, generation);
      }
    }
  }

  lemma MoveKeeps(x: Conn, m: Move)
    requires StreamInv(x) && Allowed(x, m)
    ensures StreamInv(After(x, m))
  {
    hide StreamInv, Allowed;
    match m
    case Enqueue(seg) => EnqueueKeeps(x, seg);
    case FlushNow => FlushKeepsStream(x);
    case Answer(res) => AnswerKeeps(x, res);
    case Elsewhere(p, c) => ElsewhereKeeps(x, p, c);
  }

  ghost predicate Feasible(x: Conn, ms: seq<Move>)
    requires StreamInv(x)
    decreases ms
  {
    ms != [] ==> Allowed(x, ms[0]) && (MoveKeeps(x, ms[0]); Feasible(After(x, ms[0]), ms[1..]))
  }

  /** Over every run with arbitrary short writes and retries: the bytes accepted are whole packets plus the head's first
      bytes, and those packets are the encodings of what was queued, in that order. */
  ghost function Run(x: Conn, ms: seq<Move>): (r: Conn)
    requires StreamInv(x) && Feasible(x, ms)
    ensures StreamInv(r)
    ensures r.accepted == Flatten(r.packets) + HeadSent(r.s.p, r.s.c.queue)
    ensures |r.packets| <= |r.log| && forall j :: 0 <= j < |r.packets| ==> Encodes(r.log[j], r.packets[j])
    ensures forall k :: 0 < k < |r.s.c.queue| ==> r.s.c.queue[k].cursor == 0
    decreases ms
  {
    if ms == [] then x else MoveKeeps(x, ms[0]); Run(After(x, ms[0]), ms[1..])
  }
}
