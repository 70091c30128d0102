/** The egress engine (src/broker/loop.h): batching queued segments into one writev, and its completion. */
module Flush {
  import opened Common
  import opened Inflight
  import opened Shared
  import opened Egress
  import opened Qos2

  const EAGAIN := 11
  const EINTR := 4

  datatype FlushCode = Noop | Submitted | SqFull

  /** iov is what the kernel was given; it means something only after Submitted. */
  datatype Flushed = Flushed(site: Site, code: FlushCode, iov: seq<seq<byte>>)

  /** egress_discard_head */
  function DiscardHead(s: Site): Site
    requires s.c.queue != []
  {
    var seg := s.c.queue[0];
    Site(if Owns(seg) then Release(s.p, seg.msgIdx) else s.p, s.c.(queue := s.c.queue[1..]))
  }

  /** egress_complete_head */
  function CompleteHead(s: Site): Site
    requires s.c.queue != []
  {
    var seg := s.c.queue[0];
    Site(if seg.kind == SEG_PUBLISH && seg.qos == 0 && seg.msgIdx != INVALID then Release(s.p, seg.msgIdx) else s.p,
         s.c.(queue := s.c.queue[1..]))
  }

  /** A head segment the pre-clean loop throws away. */
  predicate Unsendable(s: Seg, generation: byte) {
    || s.slotGen != generation
    || (s.kind == SEG_PUBLISH && (LoadWireLen(s) == 0 || s.cursor >= LoadWireLen(s)))
    || (s.kind == SEG_CTRL && (s.ctrlLen == 0 || s.cursor >= s.ctrlLen))
    || (s.kind != SEG_PUBLISH && s.kind != SEG_CTRL)
  }

  function PreClean(s: Site): Site
    decreases |s.c.queue|
  {
    if s.c.queue != [] && Unsendable(s.c.queue[0], s.c.generation) then PreClean(DiscardHead(s)) else s
  }

  /** Whether segment i can join the batch, packet id aside. */
  predicate Joins(p: Pools, c: Client, i: nat)
    requires i < |c.queue|
  {
    var s := c.queue[i];
    && s.slotGen == c.generation
    && (s.kind == SEG_CTRL || s.kind == SEG_PUBLISH)
    && (s.kind == SEG_CTRL ==> s.ctrlLen != 0 && s.cursor < s.ctrlLen)
    && (s.kind == SEG_PUBLISH ==>
          && s.msgIdx < |p.msgs| && p.msgs[s.msgIdx].bufIdx < |p.bufs|
          && LoadWireLen(s) != 0)
    && (i > 0 ==> s.cursor == 0)
  }

  predicate NeedsId(s: Seg) {
    s.kind == SEG_PUBLISH && s.qos > 0 && s.packetId == 0
  }

  datatype Batch = Batch(c: Client, n: nat)

  /** The batch loop from segment i on: a first send of QoS 1/2 takes an inflight slot here. */
  function Gather(p: Pools, c: Client, i: nat): (b: Batch)
    requires Shaped(c.slots)
    ensures Shaped(b.c.slots)
    ensures i <= EGRESS_BATCH_MAX ==> i <= b.n <= EGRESS_BATCH_MAX
    ensures i <= |c.queue| ==> b.n <= |b.c.queue| == |c.queue|
    decreases EGRESS_BATCH_MAX - i
  {
    if i >= EGRESS_BATCH_MAX || i >= |c.queue| || !Joins(p, c, i) then Batch(c, i)
    else if NeedsId(c.queue[i]) then
      var t := Alloc(c.slots, c.queue[i].qos, c.queue[i].msgIdx, p.now + INFLIGHT_TIMEOUT_MS);
      if t.slot < 0 then Batch(c, i) else Gather(p, Numbered(c, i, t), i + 1)
    else Gather(p, c, i + 1)
  }

  function Numbered(c: Client, i: nat, t: Taken): Client
    requires i < |c.queue|
  {
    c.(slots := t.slots, queue := c.queue[i := c.queue[i].(packetId := t.packetId)])
  }

  /** The scatter-gather entries of one batched segment. */
  function SegIov(p: Pools, s: Seg): seq<seq<byte>> {
    if s.kind == SEG_CTRL then [Slice(s.ctrl, s.cursor, if s.cursor <= s.ctrlLen then s.ctrlLen - s.cursor else 0)]
    else if s.msgIdx < |p.msgs| && p.msgs[s.msgIdx].bufIdx < |p.bufs| then PublishIov(p, s)
    else []
  }

  function Iovs(p: Pools, segs: seq<Seg>): seq<seq<byte>> {
    if segs == [] then [] else SegIov(p, segs[0]) + Iovs(p, segs[1..])
  }

  /** egress_apply_cursor on the first n entries. */
  function ApplyCursor(iov: seq<seq<byte>>, n: nat, cursor: nat): (r: seq<seq<byte>>)
    requires n <= |iov|
    ensures |r| == |iov|
    decreases n
  {
    if n == 0 || cursor == 0 then iov
    else if |iov[0]| <= cursor then [[]] + ApplyCursor(iov[1..], n - 1, cursor - |iov[0]|)
    else [iov[0][cursor..]] + iov[1..]
  }

  /** The entries handed to the kernel: the cursor is applied to the head's entries, and the count is a u8. */
  function Offer(p: Pools, segs: seq<Seg>): seq<seq<byte>>
    requires segs != []
  {
    var iov := Iovs(p, segs);
    var heads := if segs[0].kind == SEG_CTRL then 1 else 4;
    var moved := if heads <= |iov| then ApplyCursor(iov, heads, segs[0].cursor) else iov;
    moved[..|iov| % 0x100]
  }

  /** egress_flush */
  function EgressFlush(s: Site): (f: Flushed)
    requires Shaped(s.c.slots)
    ensures Shaped(f.site.c.slots)
  {
    if s.c.writing || s.c.queue == [] || s.c.state != Active then Flushed(s, Noop, [])
    else
      PreCleanShape(s);
      var s1 := PreClean(s);
      if s1.c.queue == [] then Flushed(s1, Noop, [])
      else
        var b := Gather(s1.p, s1.c, 0);
        if b.n == 0 then Flushed(Site(s1.p, b.c), Noop, [])
        else if s1.p.sqRoom == 0 then Flushed(Site(s1.p, b.c), SqFull, [])
        else Flushed(Site(s1.p.(sqRoom := s1.p.sqRoom - 1), b.c.(writing := true, batch := b.n)),
                     Submitted, Offer(s1.p, b.c.queue[..b.n]))
  }

  lemma {:induction false} PreCleanShape(s: Site)
    ensures PreClean(s).c.(queue := s.c.queue) == s.c
    ensures |PreClean(s).c.queue| <= |s.c.queue|
    decreases |s.c.queue|
  {
    if s.c.queue != [] && Unsendable(s.c.queue[0], s.c.generation) {
      PreCleanShape(DiscardHead(s));
    }
  }

  function Sub32(a: u32, b: u32): u32 { (a - b) % 0x1_0000_0000 }

  /** The walk over the batch after a write of bytesLeft bytes. */
  function Complete(s: Site, batch: nat, bytesLeft: nat): Site
    decreases batch
  {
    if batch == 0 || s.c.queue == [] || bytesLeft == 0 then s
    else
      var seg := s.c.queue[0];
      var rest := Sub32(SegLen(seg), seg.cursor);
      if bytesLeft >= rest then Complete(CompleteHead(s), batch - 1, bytesLeft - rest)
      else s.(c := s.c.(queue := s.c.queue[0 := seg.(cursor := (seg.cursor + bytesLeft) % 0x1_0000_0000)]))
  }

  /** One segment of the fatal-error walk: a first send also gives up its inflight entry. */
  function FailHead(s: Site): Site
    requires s.c.queue != [] && s.c.slots.hot != []
  {
    var seg := s.c.queue[0];
    if seg.kind == SEG_PUBLISH && seg.qos > 0 && seg.packetId > 0 && !seg.dup then
      var inf := FindDirect(s.c.slots.hot, seg.packetId);
      var q := s.c.queue[1..];
      if 0 <= inf < |s.c.slots.hot|
      then Site(Release(s.p, s.c.slots.hot[inf].msgIdx), s.c.(slots := FreeSlot(s.c.slots, inf), queue := q))
      else s.(c := s.c.(queue := q))
    else DiscardHead(s)
  }

  function Fail(s: Site, batch: nat): (r: Site)
    requires Shaped(s.c.slots)
    ensures Shaped(r.c.slots)
    decreases batch
  {
    if batch == 0 || s.c.queue == [] then s else Fail(FailHead(s), batch - 1)
  }

  /** handle_egress_cqe up to the chained flush. */
  function Settle(s: Site, res: int): (r: Site)
    requires Shaped(s.c.slots)
    ensures Shaped(r.c.slots)
  {
    var s1 := s.(c := s.c.(writing := false));
    if s.c.queue == [] then s1
    else if res > 0 then CompleteShape(s1, s.c.batch, res); Complete(s1, s.c.batch, res)
    else if res == -EAGAIN || res == -EINTR then s1
    else Fail(s1, s.c.batch)
  }

  lemma {:induction false} CompleteShape(s: Site, batch: nat, bytesLeft: nat)
    ensures Complete(s, batch, bytesLeft).c.(queue := s.c.queue) == s.c
    decreases batch
  {
    if batch != 0 && s.c.queue != [] && bytesLeft != 0 {
      var seg := s.c.queue[0];
      var rest := Sub32(SegLen(seg), seg.cursor);
      if bytesLeft >= rest {
        CompleteShape(CompleteHead(s), batch - 1, bytesLeft - rest);
      }
    }
  }

  /** handle_egress_cqe: a completion for another generation or descriptor is ignored. */
  function EgressCqe(s: Site, generation: byte, fd: int, res: int): (f: Flushed)
    requires Shaped(s.c.slots)
    ensures Shaped(f.site.c.slots)
  {
    if s.c.generation != generation || s.c.fd != fd then Flushed(s, Noop, [])
    else
      var s1 := Settle(s, res);
      if s.c.queue != [] && s1.c.queue != [] && s1.c.state == Active then EgressFlush(s1) else Flushed(s1, Noop, [])
  }
}
