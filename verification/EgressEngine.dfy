/** The egress engine in place (src/broker/loop.h): what flushing, completing and failing do to the ring, the
    inflight table and the pools. Every method is tied to its value-level operation in module Flush. */
module EgressEngine {
  import opened Common
  import opened Inflight
  import opened Packet
  import Publish
  import opened Shared
  import opened Egress
  import opened Flush
  import opened Qos2
  import opened Conservation
  import opened PacketIdIndex
  import opened PoolObjects
  import opened ClientObjects

  /** What a queue owns can be released: its free stacks have room. */
  ghost predicate HeadFits(s: Site) {
    s.c.queue != [] && Owns(s.c.queue[0]) ==> RoomFor(s.p, s.c.queue[0].msgIdx)
  }

  /** egress_discard_head */
  method Discard(a: Resources, c: ClientSlot)
    requires Together(a, c) && c.ring.count > 0 && HeadFits(SiteOf(a, c))
    modifies a.repr, c.ring
    ensures Together(a, c) && SiteOf(a, c) == DiscardHead(old(SiteOf(a, c)))
  {
    hide Release, RoomFor;
    var seg := c.ring.segs[c.ring.At(0)];
    if seg.kind == SEG_PUBLISH && seg.msgIdx != INVALID && seg.packetId == 0 {
      a.Release(seg.msgIdx);
    }
    c.ring.Pop();
  }

  /** egress_complete_head */
  method CompleteFirst(a: Resources, c: ClientSlot)
    requires Together(a, c) && c.ring.count > 0
    requires var s := SiteOf(a, c).c.queue[0];
             s.kind == SEG_PUBLISH && s.qos == 0 && s.msgIdx != INVALID ==> RoomFor(a.View(), s.msgIdx)
    modifies a.repr, c.ring
    ensures Together(a, c) && SiteOf(a, c) == CompleteHead(old(SiteOf(a, c)))
  {
    hide Release, RoomFor;
    var seg := c.ring.segs[c.ring.At(0)];
    if seg.kind == SEG_PUBLISH && seg.qos == 0 && seg.msgIdx != INVALID {
      a.Release(seg.msgIdx);
    }
    c.ring.Pop();
  }

  lemma KeepsFit(s: Site, r: Site, X: multiset<int>, Y: multiset<int>)
    requires Fit(s, X, Y) && Keeps(s, r, X, Y)
    ensures Fit(r, X, Y)
  {
  }

  lemma FitHead(s: Site, X: multiset<int>, Y: multiset<int>)
    requires Fit(s, X, Y) && s.c.queue != [] && !s.c.writing
    ensures HeadFits(s) && Fit(DiscardHead(s), X, Y)
  {
    hide Sound, Consistent, RoomFor, EntryRefs, QueueRefs;
    DiscardKeeps(s, X, Y);
    QueuePop(s.c.queue);
    if Owns(s.c.queue[0]) {
      assert s.c.queue[0].msgIdx in X + Refs(s.c);
      OwnedHasRoom(s.p, s.c.queue[0].msgIdx, X + Refs(s.c), Y);
    }
  }

  /** The pre-clean loop of egress_flush. */
  method Clean(a: Resources, c: ClientSlot, ghost X: multiset<int>, ghost Y: multiset<int>)
    requires Together(a, c) && Fit(SiteOf(a, c), X, Y) && !c.writing
    modifies a.repr, c.ring
    ensures Together(a, c) && SiteOf(a, c) == PreClean(old(SiteOf(a, c)))
  {
    hide Fit, HeadFits, DiscardHead;
    ghost var was := SiteOf(a, c);
    while c.ring.count > 0
      invariant Together(a, c) && Fit(SiteOf(a, c), X, Y) && !c.writing
      invariant PreClean(SiteOf(a, c)) == PreClean(was)
      decreases c.ring.count
    {
      ghost var now := SiteOf(a, c);
      var seg := c.ring.segs[c.ring.At(0)];
      assert seg == now.c.queue[0];
      if seg.slotGen == c.generation {
        if seg.kind == SEG_PUBLISH {
          var len := LoadWireLen(seg);
          if !(len == 0 || seg.cursor >= len) {
            break;
          }
        } else if seg.kind == SEG_CTRL {
          if !(seg.ctrlLen == 0 || seg.cursor >= seg.ctrlLen) {
            break;
          }
        }
      }
      assert Unsendable(seg, c.generation);
      FitHead(now, X, Y);
      DiscardPops(now);
      Discard(a, c);
    }
  }

  lemma DiscardPops(s: Site)
    requires s.c.queue != []
    ensures DiscardHead(s).c == s.c.(queue := s.c.queue[1..])
  {
  }

  /** The fixed header and topic length that egress_flush builds in the scratch area. */
  method Materialize(m: Msg, s: Seg) returns (h: seq<byte>)
    ensures h == FixedHeader(MQTT_PUBLISH, Publish.FlagsOf(s.retain, s.qos, s.dup), Publish.Remaining(m.topicLen, m.payloadLen, s.qos))
                 + Publish.Bytes16(m.topicLen)
  {
    var remaining := 2 + m.topicLen + m.payloadLen;
    if s.qos > 0 {
      remaining := remaining + 2;
    }
    var flags: byte := 0;
    if s.retain {
      flags := flags + 0x01;
    }
    flags := flags + s.qos % 4 * 2;
    if s.dup {
      flags := flags + 0x08;
    }
    h := [0x30 + flags];
    var x, more := remaining, true;
    while more
      invariant x >= 0
      invariant h + (if more then Vbi(x) else []) == [0x30 + flags] + Vbi(remaining)
      decreases more, x
    {
      var b := x % 0x80;
      x := x / 0x80;
      if x > 0 {
        b := b + 0x80;
        assert h + ([b] + Vbi(x)) == h + [b] + Vbi(x);
      }
      h := h + [b];
      more := x > 0;
    }
    h := h + [m.topicLen / 0x100] + [m.topicLen % 0x100];
  }

  /** The scatter-gather entries one segment adds. */
  method AddIov(a: Resources, seg: Seg, iov: seq<seq<byte>>) returns (r: seq<seq<byte>>)
    requires a.Valid()
    requires seg.kind == SEG_CTRL || (seg.kind == SEG_PUBLISH && seg.msgIdx < |a.View().msgs| && a.View().msgs[seg.msgIdx].bufIdx < |a.View().bufs|)
    requires seg.kind == SEG_CTRL ==> seg.cursor <= seg.ctrlLen
    ensures r == iov + SegIov(a.View(), seg)
  {
    if seg.kind == SEG_CTRL {
      r := iov + [Slice(seg.ctrl, seg.cursor, seg.ctrlLen - seg.cursor)];
    } else {
      var m := a.msgPool.msgs[seg.msgIdx];
      var buf := a.recvPool.bufs[m.bufIdx];
      var h := Materialize(m, seg);
      r := iov + [h];
      r := r + [Slice(buf, m.topicOff, m.topicLen)];
      r := r + [if seg.qos > 0 then Publish.Bytes16(seg.packetId) else []];
      r := r + [Slice(buf, m.payloadOff, m.payloadLen)];
    }
  }

  /** The tests that end the batch loop before segment i. */
  method CanJoin(a: Resources, c: ClientSlot, i: nat) returns (b: bool)
    requires Together(a, c) && i < c.ring.count
    ensures b == Joins(a.View(), c.View(), i)
  {
    var seg := c.ring.segs[c.ring.At(i)];
    assert seg == c.View().queue[i];
    if seg.slotGen != c.generation {
      return false;
    }
    if seg.kind == SEG_CTRL {
      return seg.ctrlLen != 0 && seg.cursor < seg.ctrlLen && !(i > 0 && seg.cursor > 0);
    }
    if seg.kind != SEG_PUBLISH || seg.msgIdx >= a.msgPool.msgs.Length {
      return false;
    }
    if a.msgPool.msgs[seg.msgIdx].bufIdx >= a.recvPool.bufs.Length {
      return false;
    }
    return LoadWireLen(seg) != 0 && !(i > 0 && seg.cursor > 0);
  }

  lemma IovsPush(p: Pools, q: seq<Seg>, s: Seg)
    ensures Iovs(p, q + [s]) == Iovs(p, q) + SegIov(p, s)
  {
    if q == [] {
      assert q + [s] == [s];
      assert Iovs(p, [s]) == SegIov(p, s) + Iovs(p, []);
    } else {
      assert (q + [s])[1..] == q[1..] + [s];
      IovsPush(p, q[1..], s);
    }
  }

  ghost function FirstSend(p: Pools, c: Client, i: nat): Taken
    requires Shaped(c.slots) && i < |c.queue|
  {
    Alloc(c.slots, c.queue[i].qos, c.queue[i].msgIdx, p.now + INFLIGHT_TIMEOUT_MS)
  }

  /** A first send of QoS 1/2 takes its inflight slot and packet id, or finds the client full. */
  method Number(a: Resources, c: ClientSlot, i: nat) returns (ok: bool)
    requires Together(a, c) && i < c.ring.count && NeedsId(c.View().queue[i])
    requires Shaped(c.View().slots)
    modifies c.ring.segs, c.table, c.table.hot, c.table.cold
    ensures Together(a, c) && a.View() == old(a.View()) && c.ring.count == old(c.ring.count)
    ensures ok == (old(FirstSend(a.View(), c.View(), i)).slot >= 0) && Shaped(c.View().slots)
    ensures c.View() == if ok then Numbered(old(c.View()), i, old(FirstSend(a.View(), c.View(), i))) else old(c.View())
  {
    hide Alloc, Indexes, Consistent, Resources.Valid;
    ghost var p, now := a.View(), c.View();
    var seg := c.ring.segs[c.ring.At(i)];
    assert seg == now.queue[i];
    var slot, id := c.table.AllocOutgoing(seg.qos, seg.msgIdx, a.now + INFLIGHT_TIMEOUT_MS);
    FullIsUnchanged(now.slots, seg.qos, seg.msgIdx, p.now + INFLIGHT_TIMEOUT_MS);
    TableShaped(c.table.View());
    ok := slot >= 0;
    if ok {
      c.ring.Replace(i, seg.(packetId := id));
    }
  }

  /** The batch loop of egress_flush: it assigns packet ids and takes inflight slots as it goes. */
  method Batch(a: Resources, c: ClientSlot) returns (n: nat, iov: seq<seq<byte>>)
    requires Together(a, c)
    modifies c.ring.segs, c.table, c.table.hot, c.table.cold
    ensures Together(a, c) && a.View() == old(a.View()) && Shaped(old(c.View().slots))
    ensures Flush.Batch(c.View(), n) == Gather(a.View(), old(c.View()), 0)
    ensures n <= c.ring.count && iov == Iovs(a.View(), c.View().queue[..n])
  {
    hide Alloc, Joins, Iovs, SegIov, Consistent, Numbered, Indexes, Gather, Resources.Valid, Resources.View;
    TableShaped(c.table.View());
    ghost var p, was := a.View(), c.View();
    n := 0;
    iov := [];
    NoIovs(p);
    var more := true;
    while more
      invariant Together(a, c) && a.View() == p && Shaped(c.View().slots)
      invariant n <= EGRESS_BATCH_MAX && n <= c.ring.count
      invariant if more then Gather(p, c.View(), n) == Gather(p, was, 0) else Flush.Batch(c.View(), n) == Gather(p, was, 0)
      invariant iov == Iovs(p, c.View().queue[..n])
      decreases EGRESS_BATCH_MAX - n, more
    {
      more, iov := Join(a, c, n, iov);
      if more {
        n := n + 1;
      }
    }
  }

  lemma RingIsQueue(a: Resources, c: ClientSlot)
    requires Together(a, c)
    ensures |c.View().queue| == c.ring.count
  {
  }

  /** One turn of the batch loop. */
  method Join(a: Resources, c: ClientSlot, n: nat, iov: seq<seq<byte>>) returns (ok: bool, r: seq<seq<byte>>)
    requires Together(a, c) && Shaped(c.View().slots) && n <= EGRESS_BATCH_MAX && n <= c.ring.count
    requires iov == Iovs(a.View(), c.View().queue[..n])
    modifies c.ring.segs, c.table, c.table.hot, c.table.cold
    ensures Together(a, c) && a.View() == old(a.View()) && Shaped(c.View().slots) && c.ring.count == old(c.ring.count)
    ensures ok ==> n < EGRESS_BATCH_MAX && n < c.ring.count && Gather(a.View(), old(c.View()), n) == Gather(a.View(), c.View(), n + 1)
    ensures !ok ==> Gather(a.View(), old(c.View()), n) == Flush.Batch(c.View(), n)
    ensures r == Iovs(a.View(), c.View().queue[..if ok then n + 1 else n])
  {
    hide Alloc, Joins, Iovs, SegIov, Consistent, Numbered, Indexes, Gather, Resources.Valid, Resources.View, ClientSlot.Valid;
    RingIsQueue(a, c);
    ghost var now := c.View();
    GatherStep(a.View(), now, n);
    ok, r := false, iov;
    if n < EGRESS_BATCH_MAX && n < c.ring.count {
      ok := CanJoin(a, c, n);
      if ok {
        ok := Prepare(a, c, n);
        if ok {
          r := TakeSegment(a, c, n, now, iov);
        }
      }
    }
  }

  /** Segment i as the batch needs it: with a packet id if it is a first send of QoS 1/2. */
  method Prepare(a: Resources, c: ClientSlot, i: nat) returns (ok: bool)
    requires Together(a, c) && i < c.ring.count && Shaped(c.View().slots)
    modifies c.ring.segs, c.table, c.table.hot, c.table.cold
    ensures Together(a, c) && a.View() == old(a.View()) && c.ring.count == old(c.ring.count) && Shaped(c.View().slots)
    ensures ok == (!NeedsId(old(c.View().queue[i])) || old(FirstSend(a.View(), c.View(), i)).slot >= 0)
    ensures c.View() == if ok && NeedsId(old(c.View().queue[i]))
                        then Numbered(old(c.View()), i, old(FirstSend(a.View(), c.View(), i))) else old(c.View())
  {
    hide Alloc, Consistent, Numbered, Indexes;
    ok := true;
    var seg := c.ring.segs[c.ring.At(i)];
    assert seg == c.View().queue[i];
    if seg.kind == SEG_PUBLISH && seg.qos > 0 && seg.packetId == 0 {
      ok := Number(a, c, i);
    }
  }

  /** One turn of the batch loop. */
  lemma GatherStep(p: Pools, c: Client, i: nat)
    requires Shaped(c.slots) && i <= EGRESS_BATCH_MAX && i <= |c.queue|
    ensures i == EGRESS_BATCH_MAX || i == |c.queue| || !Joins(p, c, i) ==> Gather(p, c, i) == Flush.Batch(c, i)
    ensures i < EGRESS_BATCH_MAX && i < |c.queue| && Joins(p, c, i) && !NeedsId(c.queue[i]) ==> Gather(p, c, i) == Gather(p, c, i + 1)
    ensures i < EGRESS_BATCH_MAX && i < |c.queue| && Joins(p, c, i) && NeedsId(c.queue[i]) ==>
              var t := FirstSend(p, c, i);
              && (t.slot < 0 ==> Gather(p, c, i) == Flush.Batch(c, i))
              && (t.slot >= 0 ==> Shaped(Numbered(c, i, t).slots) && Gather(p, c, i) == Gather(p, Numbered(c, i, t), i + 1))
    ensures i < |c.queue| ==>
              var d := Numbered(c, i, FirstSend(p, c, i));
              |d.queue| == |c.queue| && d.queue[..i] == c.queue[..i] && d.queue[i].(packetId := 0) == c.queue[i].(packetId := 0)
  {
    hide Joins, Search, AssignId;
  }

  /** Segment n joins the batch. */
  method TakeSegment(a: Resources, c: ClientSlot, n: nat, ghost now: Client, iov: seq<seq<byte>>) returns (r: seq<seq<byte>>)
    requires Together(a, c) && n < c.ring.count && |now.queue| == c.ring.count && Joins(a.View(), now, n)
    requires c.View().queue[n].(packetId := 0) == now.queue[n].(packetId := 0) && c.View().queue[..n] == now.queue[..n]
    requires iov == Iovs(a.View(), now.queue[..n])
    ensures r == Iovs(a.View(), c.View().queue[..n + 1])
  {
    hide Joins, Iovs, SegIov, Consistent, Indexes;
    ghost var q := c.View().queue;
    var seg := c.ring.segs[c.ring.At(n)];
    assert seg == q[n];
    JoinsIsJoinable(a.View(), now, n, seg);
    r := AddIov(a, seg, iov);
    IovsPush(a.View(), q[..n], seg);
    assert q[..n + 1] == q[..n] + [seg];
  }

  lemma TableShaped(v: Slots)
    requires Consistent(v)
    ensures Shaped(v)
  {
  }

  ghost predicate Joinable(p: Pools, s: Seg) {
    && (s.kind == SEG_CTRL || (s.kind == SEG_PUBLISH && s.msgIdx < |p.msgs| && p.msgs[s.msgIdx].bufIdx < |p.bufs|))
    && (s.kind == SEG_CTRL ==> s.cursor <= s.ctrlLen)
  }

  lemma JoinsIsJoinable(p: Pools, c: Client, i: nat, s: Seg)
    requires i < |c.queue| && Joins(p, c, i) && s.(packetId := 0) == c.queue[i].(packetId := 0)
    ensures Joinable(p, s)
  {
  }

  lemma NoIovs(p: Pools)
    ensures Iovs(p, []) == []
  {
  }

  lemma FullIsUnchanged(v: Slots, qos: byte, m: u32, deadline: int)
    requires Shaped(v)
    ensures Alloc(v, qos, m, deadline).slot < 0 ==> Alloc(v, qos, m, deadline).slots == v
  {
  }

  /** egress_apply_cursor */
  method SkipSent(iov: seq<seq<byte>>, n: nat, cursor: nat) returns (r: seq<seq<byte>>)
    requires n <= |iov|
    ensures r == ApplyCursor(iov, n, cursor)
  {
    r := iov;
    var i, left := 0, cursor;
    while i < n && left > 0
      invariant 0 <= i <= n && left >= 0 && |r| == |iov| && r[i..] == iov[i..]
      invariant r[..i] + ApplyCursor(iov[i..], n - i, left) == ApplyCursor(iov, n, cursor)
      decreases n - i, left
    {
      var len := |r[i]|;
      assert r[i] == iov[i..][0] && iov[i..][1..] == iov[i + 1..];
      if left >= len {
        left := left - len;
        r := r[i := []];
        assert r[..i + 1] == r[..i] + [[]];
      } else {
        r := r[i := r[i][left..]];
        assert r == r[..i] + ([r[i]] + iov[i + 1..]);
        return;
      }
      i := i + 1;
    }
    assert r == r[..i] + iov[i..];
  }

  /** egress_flush */
  method FlushEgress(a: Resources, c: ClientSlot, ghost X: multiset<int>, ghost Y: multiset<int>)
    returns (code: FlushCode, iov: seq<seq<byte>>)
    requires Together(a, c) && (c.state == Active ==> Fit(SiteOf(a, c), X, Y))
    modifies a.repr, c.repr
    ensures Together(a, c) && Shaped(old(c.View().slots))
    ensures Flushed(SiteOf(a, c), code, iov) == EgressFlush(old(SiteOf(a, c)))
  {
    hide Fit, PreClean, Gather, Iovs, Consistent, Indexes, Offer;
    TableShaped(c.table.View());
    code, iov := Noop, [];
    if c.writing || c.ring.count == 0 || c.state != Active {
      return;
    }
    PreCleanShape(SiteOf(a, c));
    Clean(a, c, X, Y);
    if c.ring.count == 0 {
      return;
    }
    var n, pieces := Batch(a, c);
    if n != 0 {
      code, iov := Submit(a, c, n, pieces);
    }
  }

  /** The head's cursor is applied to the entries of the head. */
  method Resume(head: Seg, pieces: seq<seq<byte>>) returns (r: seq<seq<byte>>)
    ensures |r| == |pieces|
    ensures var heads := if head.kind == SEG_CTRL then 1 else 4;
            r == if heads <= |pieces| then ApplyCursor(pieces, heads, head.cursor) else pieces
  {
    r := pieces;
    if head.cursor > 0 {
      var heads := if head.kind == SEG_CTRL then 1 else 4;
      if heads <= |pieces| {
        r := SkipSent(pieces, heads, head.cursor);
      }
    }
  }

  /** The end of egress_flush: the entries of the batch go to the kernel when a submission entry is left. */
  method Submit(a: Resources, c: ClientSlot, n: byte, pieces: seq<seq<byte>>) returns (code: FlushCode, iov: seq<seq<byte>>)
    requires Together(a, c) && 0 < n <= c.ring.count && pieces == Iovs(a.View(), c.View().queue[..n])
    modifies a, c
    ensures Together(a, c)
    ensures old(a.sqRoom) == 0 ==> SiteOf(a, c) == old(SiteOf(a, c)) && code == SqFull && iov == []
    ensures old(a.sqRoom) != 0 ==>
              && SiteOf(a, c) == Site(old(a.View()).(sqRoom := old(a.sqRoom) - 1), old(c.View()).(writing := true, batch := n))
              && code == Submitted && iov == Offer(old(a.View()), c.View().queue[..n])
  {
    hide Iovs, Consistent, Indexes, ApplyCursor;
    ghost var segs := c.View().queue[..n];
    var first := c.ring.segs[c.ring.At(0)];
    assert first == segs[0];
    var moved := Resume(first, pieces);
    if a.sqRoom == 0 {
      return SqFull, [];
    }
    a.sqRoom := a.sqRoom - 1;
    c.writing := true;
    c.batch := n;
    code, iov := Submitted, moved[..|pieces| % 0x100];
  }
}
