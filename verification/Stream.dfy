/** What goes out on one connection, byte for byte, under arbitrary short writes (src/broker/loop.h). */
module Stream {
  import opened Common
  import opened Inflight
  import opened Shared
  import opened Egress
  import opened Flush
  import Publish
  import Qos2

  /** A queued segment whose message is in place and whose stored length is its length on the wire. */
  ghost predicate Ready(p: Pools, s: Seg) {
    && (s.kind == SEG_CTRL || s.kind == SEG_PUBLISH)
    && (s.kind == SEG_CTRL ==> 0 < s.ctrlLen <= |s.ctrl|)
    && (s.kind == SEG_PUBLISH ==> Placed(p, s.msgIdx) && LoadWireLen(s) == WireLen(p.msgs[s.msgIdx], s.qos))
    && s.cursor < SegLen(s)
    && (NeedsId(s) ==> s.cursor == 0)
  }

  /** Only the head may have been partly sent. */
  ghost predicate QueueReady(p: Pools, q: seq<Seg>) {
    && (forall k :: 0 <= k < |q| ==> Ready(p, q[k]))
    && (forall k :: 0 < k < |q| ==> q[k].cursor == 0)
  }

  lemma WireLength(p: Pools, s: Seg)
    requires Ready(p, s)
    ensures |Wire(p, s)| == SegLen(s)
  {
    if s.kind == SEG_PUBLISH {
      WireIsEncodedPublish(p, s);
    }
  }

  function Drop(w: seq<byte>, k: nat): seq<byte> { if k <= |w| then w[k..] else [] }
  function Take(w: seq<byte>, k: nat): seq<byte> { if k <= |w| then w[..k] else w }

  /** The bytes of these segments that are still to be sent. */
  ghost function Owed(p: Pools, q: seq<Seg>): seq<byte> {
    if q == [] then [] else Drop(Wire(p, q[0]), q[0].cursor) + Owed(p, q[1..])
  }

  // ---- one flush ----

  lemma ReadyIov(p: Pools, s: Seg)
    requires Ready(p, s)
    ensures s.kind == SEG_CTRL || s.kind == SEG_PUBLISH
    ensures |SegIov(p, s)| == if s.kind == SEG_CTRL then 1 else 4
    ensures Flatten(SegIov(p, s)) == if s.kind == SEG_CTRL then Drop(Wire(p, s), s.cursor) else Wire(p, s)
    ensures s.cursor < SegLen(s) == |Wire(p, s)|
  {
    WireLength(p, s);
    if s.kind == SEG_CTRL {
      var piece := Slice(s.ctrl, s.cursor, s.ctrlLen - s.cursor);
      assert Flatten([piece]) == piece + Flatten([]);
      assert piece == Drop(Slice(s.ctrl, 0, s.ctrlLen), s.cursor);
    }
  }

  lemma {:induction false} IovCount(p: Pools, q: seq<Seg>)
    requires forall k :: 0 <= k < |q| ==> Ready(p, q[k])
    ensures |Iovs(p, q)| <= 4 * |q|
    ensures |Iovs(p, q)| == 4 * |q| <==> forall k :: 0 <= k < |q| ==> q[k].kind == SEG_PUBLISH
    ensures q != [] ==> |Iovs(p, q)| >= if q[0].kind == SEG_CTRL then 1 else 4
  {
    hide Ready, SegIov;
    if q != [] {
      ReadyIov(p, q[0]);
      IovCount(p, q[1..]);
      assert forall k :: 1 <= k < |q| ==> q[k] == q[1..][k - 1];
    }
  }

  /** Scatter-gather entries of segments that have not been started are the packets one after another. */
  lemma {:induction false} IovsOwed(p: Pools, q: seq<Seg>)
    requires forall k :: 0 <= k < |q| ==> Ready(p, q[k]) && q[k].cursor == 0
    ensures Flatten(Iovs(p, q)) == Owed(p, q)
  {
    hide Ready, SegIov;
    if q != [] {
      ReadyIov(p, q[0]);
      IovsOwed(p, q[1..]);
      FlattenAppend(SegIov(p, q[0]), Iovs(p, q[1..]));
    }
  }

  /** Applying a cursor drops that many bytes of the entries it is applied to. */
  lemma {:induction false} CursorDrops(iov: seq<seq<byte>>, cursor: nat)
    ensures Flatten(ApplyCursor(iov, |iov|, cursor)) == Drop(Flatten(iov), cursor)
    decreases |iov|
  {
    if iov != [] && cursor != 0 {
      if |iov[0]| <= cursor {
        CursorDrops(iov[1..], cursor - |iov[0]|);
        assert Flatten([[]] + ApplyCursor(iov[1..], |iov| - 1, cursor - |iov[0]|)) == [] + Flatten(ApplyCursor(iov[1..], |iov| - 1, cursor - |iov[0]|));
      } else {
        assert Flatten([iov[0][cursor..]] + iov[1..]) == iov[0][cursor..] + Flatten(iov[1..]);
      }
    }
  }

  /** The entries behind the head's are left alone. */
  lemma {:induction false} CursorStays(iov: seq<seq<byte>>, rest: seq<seq<byte>>, cursor: nat)
    ensures ApplyCursor(iov + rest, |iov|, cursor) == ApplyCursor(iov, |iov|, cursor) + rest
    decreases |iov|
  {
    if iov == [] {
      assert iov + rest == rest;
    } else if cursor != 0 {
      assert (iov + rest)[1..] == iov[1..] + rest;
      if |iov[0]| <= cursor {
        CursorStays(iov[1..], rest, cursor - |iov[0]|);
      }
    }
  }

  /** The iov count wraps to zero: a full batch of PUBLISH segments. */
  predicate CountWraps(q: seq<Seg>) {
    |q| == EGRESS_BATCH_MAX && forall k :: 0 <= k < |q| ==> q[k].kind == SEG_PUBLISH
  }

  /** The cursor of a partly sent CTRL head is applied twice. */
  predicate CtrlResumed(q: seq<Seg>) {
    q != [] && q[0].kind == SEG_CTRL && q[0].cursor > 0
  }

  /** What the kernel is offered, count wrap aside. */
  lemma OfferUnwrapped(p: Pools, q: seq<Seg>)
    requires q != [] && |q| <= EGRESS_BATCH_MAX && QueueReady(p, q) && !CountWraps(q)
    ensures Flatten(Offer(p, q)) == Drop(Flatten(SegIov(p, q[0])), q[0].cursor) + Owed(p, q[1..])
  {
    hide Ready, SegIov, Flatten, Owed, ApplyCursor, Drop;
    IovCount(p, q);
    ReadyIov(p, q[0]);
    var head, rest := SegIov(p, q[0]), Iovs(p, q[1..]);
    CursorStays(head, rest, q[0].cursor);
    CursorDrops(head, q[0].cursor);
    assert Offer(p, q) == ApplyCursor(head, |head|, q[0].cursor) + rest;
    FlattenAppend(ApplyCursor(head, |head|, q[0].cursor), rest);
    assert forall k :: 0 <= k < |q[1..]| ==> q[1..][k] == q[k + 1];
    IovsOwed(p, q[1..]);
  }

  /** The kernel is offered exactly the bytes still owed for the batch, if and only if the batch is not a full
      one of PUBLISH segments and its head is not a partly sent CTRL segment. */
  lemma OfferExactIff(p: Pools, q: seq<Seg>)
    requires q != [] && |q| <= EGRESS_BATCH_MAX && QueueReady(p, q)
    ensures Flatten(Offer(p, q)) == Owed(p, q) <==> !CountWraps(q) && !CtrlResumed(q)
  {
    hide Ready, SegIov, Offer;
    ReadyIov(p, q[0]);
    var w, k := Wire(p, q[0]), q[0].cursor;
    assert |Drop(w, k)| == |w| - k > 0;
    if CountWraps(q) {
      WrappedOfferIsEmpty(p, q);
    } else {
      OfferUnwrapped(p, q);
      assert |Drop(Drop(w, k), k)| == if k <= |w| - k then |w| - 2 * k else 0;
    }
  }

  lemma WrappedOfferIsEmpty(p: Pools, q: seq<Seg>)
    requires q != [] && QueueReady(p, q) && CountWraps(q)
    ensures Flatten(Offer(p, q)) == []
  {
    hide Ready, SegIov;
    IovCount(p, q);
  }

  // ---- one completion ----

  /** Bytes of the head that earlier writes already took. */
  ghost function HeadSent(p: Pools, q: seq<Seg>): seq<byte> {
    if q == [] then [] else Take(Wire(p, q[0]), q[0].cursor)
  }

  /** The packets that a write of n bytes completes, in order. */
  ghost function Packets(p: Pools, q: seq<Seg>, batch: nat, n: nat): seq<seq<byte>>
    decreases batch
  {
    if batch == 0 || q == [] || n == 0 || n < SegLen(q[0]) - q[0].cursor then []
    else [Wire(p, q[0])] + Packets(p, q[1..], batch - 1, n - (SegLen(q[0]) - q[0].cursor))
  }

  ghost function Completed(p: Pools, q: seq<Seg>, batch: nat, n: nat): seq<byte>
    decreases batch
  {
    if batch == 0 || q == [] || n == 0 || n < SegLen(q[0]) - q[0].cursor then []
    else Wire(p, q[0]) + Completed(p, q[1..], batch - 1, n - (SegLen(q[0]) - q[0].cursor))
  }

  /** Completed packets are whole packets. */
  lemma {:induction false} CompletedIsPackets(p: Pools, q: seq<Seg>, batch: nat, n: nat)
    ensures Completed(p, q, batch, n) == Flatten(Packets(p, q, batch, n))
    decreases batch
  {
    hide Wire, SegLen;
    if !(batch == 0 || q == [] || n == 0 || n < SegLen(q[0]) - q[0].cursor) {
      CompletedIsPackets(p, q[1..], batch - 1, n - (SegLen(q[0]) - q[0].cursor));
    }
  }

  /** The completed packets are those of the first segments, and the walk leaves the other segments in order. */
  lemma {:induction false} WalkTakesPrefix(p: Pools, q: seq<Seg>, batch: nat, n: nat)
    requires QueueReady(p, q) && batch <= |q|
    ensures var k := |Packets(p, q, batch, n)|; var r := Walked(q, batch, n);
            && k + |r| == |q|
            && (forall j :: 0 <= j < k ==> Packets(p, q, batch, n)[j] == Wire(p, q[j]))
            && (forall j :: 0 <= j < |r| ==> r[j].(cursor := 0) == q[k + j].(cursor := 0))
    decreases batch
  {
    hide QueueReady, Ready, Wire, SegLen, SegIov, Packets, Walked, Sub32;
    if batch == 0 || q == [] || n == 0 {
      TakeNone(p, q, batch, n);
    } else {
      HeadIsReady(p, q);
      var rest := SegLen(q[0]) - q[0].cursor;
      HeadRest(p, q[0]);
      TakeOne(p, q, batch, n);
      if n >= rest {
        QueueTail(p, q);
        WalkTakesPrefix(p, q[1..], batch - 1, n - rest);
        PrefixJoin(p, q, Packets(p, q[1..], batch - 1, n - rest), Walked(q, batch, n));
      }
    }
  }

  lemma HeadRest(p: Pools, s: Seg)
    requires Ready(p, s)
    ensures 0 < SegLen(s) - s.cursor == Sub32(SegLen(s), s.cursor)
  {
    hide Wire, LoadWireLen;
    ReadyIov(p, s);
  }

  lemma TakeNone(p: Pools, q: seq<Seg>, batch: nat, n: nat)
    requires batch == 0 || q == [] || n == 0
    ensures Packets(p, q, batch, n) == [] && Walked(q, batch, n) == q
  {
  }

  lemma TakeOne(p: Pools, q: seq<Seg>, batch: nat, n: nat)
    requires batch != 0 && q != [] && n != 0 && SegLen(q[0]) - q[0].cursor == Sub32(SegLen(q[0]), q[0].cursor)
    ensures var rest := SegLen(q[0]) - q[0].cursor;
            && (n >= rest ==> Packets(p, q, batch, n) == [Wire(p, q[0])] + Packets(p, q[1..], batch - 1, n - rest)
                              && Walked(q, batch, n) == Walked(q[1..], batch - 1, n - rest))
            && (n < rest ==> Packets(p, q, batch, n) == []
                             && Walked(q, batch, n) == q[0 := q[0].(cursor := (q[0].cursor + n) % 0x1_0000_0000)])
  {
    hide Wire, SegLen;
  }

  lemma PrefixJoin(p: Pools, q: seq<Seg>, more: seq<seq<byte>>, r: seq<Seg>)
    requires q != [] && |more| + |r| == |q| - 1
    requires forall j :: 0 <= j < |more| ==> more[j] == Wire(p, q[1..][j])
    requires forall j :: 0 <= j < |r| ==> r[j].(cursor := 0) == q[1..][|more| + j].(cursor := 0)
    ensures forall j :: 0 <= j < |more| + 1 ==> ([Wire(p, q[0])] + more)[j] == Wire(p, q[j])
    ensures forall j :: 0 <= j < |r| ==> r[j].(cursor := 0) == q[|more| + 1 + j].(cursor := 0)
  {
    hide Wire;
    forall j | 0 <= j < |more| + 1 ensures ([Wire(p, q[0])] + more)[j] == Wire(p, q[j]) {
      assert j > 0 ==> q[1..][j - 1] == q[j];
    }
    forall j | 0 <= j < |r| ensures r[j].(cursor := 0) == q[|more| + 1 + j].(cursor := 0) {
      assert q[1..][|more| + j] == q[|more| + 1 + j];
    }
  }

  // ---- what a segment stands for ----

  /** A queued packet apart from its packet id, which is assigned when it is sent. */
  datatype Frame = Control(bytes: seq<byte>) | Message(m: Publish.Message)

  ghost function FrameOf(p: Pools, s: Seg): Frame {
    if s.kind == SEG_PUBLISH && Placed(p, s.msgIdx)
    then Message(Publish.Message(s.retain, s.qos, s.dup, Topic(p, s.msgIdx), 0, Payload(p, s.msgIdx)))
    else Control(Slice(s.ctrl, 0, s.ctrlLen))
  }

  /** The bytes are the packet, with whatever packet id it got. */
  ghost predicate Encodes(f: Frame, bytes: seq<byte>) {
    match f
    case Control(b) => bytes == b
    case Message(m) => |m.topic| < 0x1_0000 && exists id: u16 :: bytes == Publish.Encoded(m.(packetId := id))
  }

  /** A segment that is ready to be sent puts the encoding of its packet on the wire. */
  lemma WireEncodes(p: Pools, s: Seg)
    requires Ready(p, s)
    ensures Encodes(FrameOf(p, s), Wire(p, s))
  {
    hide Wire, Publish.Encoded, LoadWireLen;
    if s.kind == SEG_PUBLISH {
      WireIsEncodedPublish(p, s);
      var m := FrameOf(p, s).m;
      assert Wire(p, s) == Publish.Encoded(m.(packetId := s.packetId));
    } else {
      CtrlWire(p, s);
    }
  }

  lemma CtrlWire(p: Pools, s: Seg)
    requires s.kind == SEG_CTRL
    ensures Wire(p, s) == Slice(s.ctrl, 0, s.ctrlLen)
  {
  }

  /** The queue that the completion walk leaves. */
  function Walked(q: seq<Seg>, batch: nat, n: nat): seq<Seg>
    decreases batch
  {
    if batch == 0 || q == [] || n == 0 then q
    else
      var rest := Sub32(SegLen(q[0]), q[0].cursor);
      if n >= rest then Walked(q[1..], batch - 1, n - rest)
      else q[0 := q[0].(cursor := (q[0].cursor + n) % 0x1_0000_0000)]
  }

  lemma {:induction false} CompleteIsWalked(s: Site, batch: nat, n: nat)
    ensures Complete(s, batch, n).c.queue == Walked(s.c.queue, batch, n)
    decreases batch
  {
    if batch != 0 && s.c.queue != [] && n != 0 {
      var rest := Sub32(SegLen(s.c.queue[0]), s.c.queue[0].cursor);
      if n >= rest {
        CompleteIsWalked(CompleteHead(s), batch - 1, n - rest);
      }
    }
  }

  lemma OwedPop(p: Pools, q: seq<Seg>, batch: nat)
    requires 0 < batch <= |q| && Ready(p, q[0])
    ensures Owed(p, q[..batch]) == Drop(Wire(p, q[0]), q[0].cursor) + Owed(p, q[1..][..batch - 1])
    ensures |Drop(Wire(p, q[0]), q[0].cursor)| == SegLen(q[0]) - q[0].cursor == Sub32(SegLen(q[0]), q[0].cursor) > 0
    ensures HeadSent(p, q) + Drop(Wire(p, q[0]), q[0].cursor) == Wire(p, q[0])
  {
    hide Ready, Wire, LoadWireLen;
    ReadyIov(p, q[0]);
    assert q[..batch][1..] == q[1..][..batch - 1];
  }

  lemma OwedNone(p: Pools, q: seq<Seg>)
    ensures Owed(p, q[..0]) == []
  {
  }

  lemma HeadIsReady(p: Pools, q: seq<Seg>)
    requires q != [] && QueueReady(p, q)
    ensures Ready(p, q[0])
  {
  }

  lemma QueueTail(p: Pools, q: seq<Seg>)
    requires q != [] && QueueReady(p, q)
    ensures QueueReady(p, q[1..]) && HeadSent(p, q[1..]) == []
  {
    assert forall k :: 0 <= k < |q[1..]| ==> q[1..][k] == q[k + 1];
  }

  /** However short the write, the bytes it took are the packets it completed plus the new head's first bytes. */
  lemma {:induction false} WalkExact(p: Pools, q: seq<Seg>, batch: nat, n: nat)
    requires QueueReady(p, q) && batch <= |q| && n <= |Owed(p, q[..batch])|
    requires forall k :: 0 <= k < batch ==> !NeedsId(q[k])
    ensures QueueReady(p, Walked(q, batch, n))
    ensures HeadSent(p, q) + Owed(p, q[..batch])[..n] == Completed(p, q, batch, n) + HeadSent(p, Walked(q, batch, n))
    decreases batch
  {
    hide QueueReady, Ready, Wire, SegLen, NeedsId, Owed, HeadSent, Drop, Sub32;
    if batch == 0 || q == [] || n == 0 {
      OwedNone(p, q);
      assert HeadSent(p, q) + Owed(p, q[..batch])[..n] == HeadSent(p, q);
    } else {
      assert Ready(p, q[0]) by { HeadIsReady(p, q); }
      OwedPop(p, q, batch);
      var w, d := Wire(p, q[0]), Drop(Wire(p, q[0]), q[0].cursor);
      var owed := Owed(p, q[1..][..batch - 1]);
      if n >= |d| {
        QueueTail(p, q);
        assert forall k :: 0 <= k < batch - 1 ==> q[1..][k] == q[k + 1];
        WalkExact(p, q[1..], batch - 1, n - |d|);
        JoinPopped(HeadSent(p, q), d, w, owed, n, Completed(p, q[1..], batch - 1, n - |d|),
                   HeadSent(p, Walked(q[1..], batch - 1, n - |d|)), HeadSent(p, q[1..]));
      } else {
        PartialHead(p, q, n);
        JoinPartial(HeadSent(p, q), d, owed, n);
      }
    }
  }

  lemma JoinPopped(h: seq<byte>, d: seq<byte>, w: seq<byte>, owed: seq<byte>, n: nat,
                   done: seq<byte>, head: seq<byte>, none: seq<byte>)
    requires h + d == w && |d| <= n <= |d| + |owed| && none == []
    requires none + owed[..n - |d|] == done + head
    ensures h + (d + owed)[..n] == (w + done) + head
  {
    assert (d + owed)[..n] == d + owed[..n - |d|];
    assert none + owed[..n - |d|] == owed[..n - |d|];
    assert h + (d + (done + head)) == ((h + d) + done) + head;
  }

  lemma JoinPartial(h: seq<byte>, d: seq<byte>, owed: seq<byte>, n: nat)
    requires n < |d|
    ensures h + (d + owed)[..n] == [] + (h + Take(d, n))
  {
    assert (d + owed)[..n] == d[..n];
  }

  lemma PartialHead(p: Pools, q: seq<Seg>, n: nat)
    requires q != [] && QueueReady(p, q) && !NeedsId(q[0]) && n < SegLen(q[0]) - q[0].cursor
    ensures var r := q[0 := q[0].(cursor := (q[0].cursor + n) % 0x1_0000_0000)];
            QueueReady(p, r) && HeadSent(p, r) == HeadSent(p, q) + Take(Drop(Wire(p, q[0]), q[0].cursor), n)
  {
    hide Ready, Wire, LoadWireLen, NeedsId, SegIov;
    ReadyIov(p, q[0]);
    AdvancedReady(p, q[0], q[0].cursor + n);
    TakeOn(Wire(p, q[0]), q[0].cursor, n);
  }

  lemma TakeOn(w: seq<byte>, c: nat, n: nat)
    requires c + n <= |w|
    ensures Take(w, c + n) == Take(w, c) + Take(Drop(w, c), n)
  {
  }

  lemma AdvancedReady(p: Pools, s: Seg, cursor: u32)
    requires Ready(p, s) && !NeedsId(s) && cursor < SegLen(s)
    ensures Ready(p, s.(cursor := cursor)) && Wire(p, s.(cursor := cursor)) == Wire(p, s)
  {
  }

  // ---- packet ids are assigned before anything is sent ----

  /** Numbering a first send changes nothing else about it. */
  lemma NumberedReady(p: Pools, s: Seg, id: u16)
    requires Ready(p, s) && NeedsId(s) && id != 0
    ensures Ready(p, s.(packetId := id)) && !NeedsId(s.(packetId := id))
  {
  }

  ghost predicate OnlyNumbered(q: seq<Seg>, r: seq<Seg>) {
    && |r| == |q|
    && forall k :: 0 <= k < |q| ==> r[k] == q[k] || (NeedsId(q[k]) && r[k] == q[k].(packetId := r[k].packetId))
  }

  lemma NumberedQueue(p: Pools, q: seq<Seg>, i: nat, id: u16)
    requires QueueReady(p, q) && i < |q| && NeedsId(q[i]) && id != 0
    ensures QueueReady(p, q[i := q[i].(packetId := id)]) && OnlyNumbered(q, q[i := q[i].(packetId := id)])
    ensures !NeedsId(q[i].(packetId := id))
  {
    hide Ready;
    NumberedReady(p, q[i], id);
  }

  lemma OnlyNumberedTrans(q: seq<Seg>, r: seq<Seg>, t: seq<Seg>)
    requires OnlyNumbered(q, r) && OnlyNumbered(r, t)
    ensures OnlyNumbered(q, t)
  {
  }

  lemma {:induction false} GatherReady(p: Pools, c: Client, i: nat)
    requires Shaped(c.slots) && QueueReady(p, c.queue) && i <= |c.queue| && i <= EGRESS_BATCH_MAX
    requires forall k :: 0 <= k < i ==> !NeedsId(c.queue[k])
    ensures var b := Gather(p, c, i);
            && QueueReady(p, b.c.queue) && OnlyNumbered(c.queue, b.c.queue)
            && b.c == c.(queue := b.c.queue, slots := b.c.slots)
            && forall k :: 0 <= k < b.n ==> !NeedsId(b.c.queue[k])
    decreases EGRESS_BATCH_MAX - i
  {
    hide QueueReady, Joins, NeedsId, Alloc, Shaped;
    if i < EGRESS_BATCH_MAX && i < |c.queue| && Joins(p, c, i) {
      if NeedsId(c.queue[i]) {
        var t := Alloc(c.slots, c.queue[i].qos, c.queue[i].msgIdx, p.now + Qos2.INFLIGHT_TIMEOUT_MS);
        if t.slot >= 0 {
          AllocIdNotZero(c.slots, c.queue[i].qos, c.queue[i].msgIdx, p.now + Qos2.INFLIGHT_TIMEOUT_MS);
          NumberedQueue(p, c.queue, i, t.packetId);
          GatherReady(p, Numbered(c, i, t), i + 1);
          OnlyNumberedTrans(c.queue, Numbered(c, i, t).queue, Gather(p, c, i).c.queue);
        }
      } else {
        GatherReady(p, c, i + 1);
      }
    }
  }

  lemma AllocIdNotZero(v: Slots, qos: byte, m: u32, deadline: int)
    requires Shaped(v)
    ensures var t := Alloc(v, qos, m, deadline); Shaped(t.slots) && (t.slot >= 0 ==> t.packetId != 0)
  {
    AssignedIdLocates(Search(v.hot, v.hint, 0), v.generation, |v.hot|);
  }

  lemma NumberedHeadSent(p: Pools, q: seq<Seg>, r: seq<Seg>)
    requires QueueReady(p, q) && OnlyNumbered(q, r)
    ensures HeadSent(p, r) == HeadSent(p, q)
  {
    if q != [] {
      assert r[0] == q[0] || NeedsId(q[0]);
      assert Ready(p, q[0]);
      assert forall w :: Take(w, 0) == [];
    }
  }
}
