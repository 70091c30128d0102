/** Resources all clients share: the canonical message pool (src/mem/msgbuf.h), the receive buffer pool
    (src/mem/pool.h), the submission queue room, and release_msg_ref (src/broker/loop.h). */
module Shared {
  import opened Common
  import opened Bags

  const BUF_SIZE := 65536 // LLMQ_RECV_BUF_SIZE

  /** canonical_msg: offsets into a stolen receive buffer, and the count of owners. */
  datatype Msg = Msg(bufIdx: u32, topicOff: u16, topicLen: u16, payloadOff: u32, payloadLen: u32,
                     qos: byte, retain: bool, refCount: u32)

  /** The stacks list the free indices, top last. sqRoom is how many submission entries are left. */
  datatype Pools = Pools(msgs: seq<Msg>, msgFree: seq<u32>, bufs: seq<seq<byte>>, bufFree: seq<u32>,
                         sqRoom: nat, now: int)

  /** msg_pool_ref */
  function Ref(p: Pools, m: u32): Pools {
    if m >= |p.msgs| then p
    else p.(msgs := p.msgs[m := p.msgs[m].(refCount := (p.msgs[m].refCount + 1) % 0x1_0000_0000)])
  }

  /** msg_pool_unref; the new count, or 0 for an index out of range. */
  function Unref(p: Pools, m: u32): (Pools, u32) {
    if m >= |p.msgs| then (p, 0)
    else
      var n := (p.msgs[m].refCount - 1) % 0x1_0000_0000;
      (p.(msgs := p.msgs[m := p.msgs[m].(refCount := n)]), n)
  }

  /** msg_pool_free */
  function FreeMsg(p: Pools, m: u32): Pools {
    if m >= |p.msgs| then p else p.(msgFree := p.msgFree + [m])
  }

  /** buf_pool_free */
  function FreeBuf(p: Pools, x: u32): Pools {
    if x >= |p.bufs| then p else p.(bufFree := p.bufFree + [x])
  }

  /** release_msg_ref */
  function Release(p: Pools, m: u32): Pools {
    if m == INVALID then p
    else
      var (q, n) := Unref(p, m);
      if n == 0 && m < |q.msgs| then
        FreeMsg(if q.msgs[m].bufIdx != INVALID then FreeBuf(q, q.msgs[m].bufIdx) else q, m)
      else q
  }

  // ---- the ownership invariant ----

  ghost predicate Live(p: Pools, m: int) {
    0 <= m < |p.msgs| && m !in p.msgFree
  }

  ghost function LiveBag(p: Pools, m: int): multiset<int>
    requires 0 <= m < |p.msgs|
  {
    if m in p.msgFree then multiset{} else multiset{p.msgs[m].bufIdx}
  }

  ghost function LiveBags(p: Pools): (s: seq<multiset<int>>)
    ensures |s| == |p.msgs|
    ensures forall m :: 0 <= m < |s| ==> s[m] == LiveBag(p, m)
  {
    seq(|p.msgs|, m requires 0 <= m < |p.msgs| => LiveBag(p, m))
  }

  /** The receive buffers that live messages occupy. */
  ghost function LiveBufs(p: Pools): multiset<int> {
    Sum(LiveBags(p))
  }

  ghost function Bag(s: seq<int>): multiset<int> { multiset(s) }

  /** A message off the free stack has an owner and counts its owners; one on it has none. */
  ghost predicate Counted(p: Pools, owners: multiset<int>) {
    && |p.msgs| < INVALID
    && Distinct(p.msgFree)
    && (forall k :: 0 <= k < |p.msgFree| ==> p.msgFree[k] < |p.msgs|)
    && (forall m :: m in owners ==> Live(p, m))
    && (forall m :: Live(p, m) ==> m in owners && p.msgs[m].refCount == owners[m])
  }

  /** Every buffer is in exactly one place: the free stack, a live message, or a client. */
  ghost predicate Partitioned(p: Pools, held: multiset<int>) {
    && |p.bufs| < INVALID
    && Bag(p.bufFree) + LiveBufs(p) + held == multiset(Below(|p.bufs|))
  }

  /** Reference conservation and the buffer partition, against the references owners and the buffers
      held that exist outside the pools. */
  ghost predicate Sound(p: Pools, owners: multiset<int>, held: multiset<int>) {
    Counted(p, owners) && Partitioned(p, held)
  }

  /** The bytes of all buffers and the records of all messages stay, reference counts aside, and no message is taken
      from the free stack. */
  ghost predicate SameStore(p: Pools, q: Pools) {
    && q.bufs == p.bufs && |q.msgs| == |p.msgs| && p.msgFree <= q.msgFree
    && forall m :: 0 <= m < |p.msgs| ==> q.msgs[m].(refCount := 0) == p.msgs[m].(refCount := 0)
  }

  /** The record and the bytes of message m. */
  ghost predicate Untouched(p: Pools, q: Pools, m: nat)
    requires m < |p.msgs|
  {
    && m < |q.msgs| && q.msgs[m].(refCount := 0) == p.msgs[m].(refCount := 0)
    && |q.bufs| == |p.bufs|
    && (p.msgs[m].bufIdx < |p.bufs| ==> q.bufs[p.msgs[m].bufIdx] == p.bufs[p.msgs[m].bufIdx])
  }

  lemma SameStoreTrans(p: Pools, q: Pools, r: Pools)
    requires SameStore(p, q) && SameStore(q, r)
    ensures SameStore(p, r)
  {
    forall m | 0 <= m < |p.msgs|
      ensures r.msgs[m].(refCount := 0) == p.msgs[m].(refCount := 0)
    {
      assert q.msgs[m].(refCount := 0) == p.msgs[m].(refCount := 0);
    }
  }

  lemma SameStoreSelf(p: Pools)
    ensures SameStore(p, p)
  {
  }

  lemma ReleaseStore(p: Pools, m: u32)
    ensures SameStore(p, Release(p, m))
  {
  }

  /** Neither the bytes in the buffers nor the clock nor the submission queue enter the books. */
  lemma BooksOnly(p: Pools, q: Pools, owners: multiset<int>, held: multiset<int>)
    requires Sound(p, owners, held)
    requires q == p.(bufs := q.bufs, now := q.now, sqRoom := q.sqRoom) && |q.bufs| == |p.bufs|
    ensures Sound(q, owners, held)
  {
    assert LiveBags(q) == LiveBags(p);
  }

  lemma RefKeeps(p: Pools, m: u32, owners: multiset<int>, held: multiset<int>)
    requires Sound(p, owners, held) && m in owners && owners[m] + 1 < 0x1_0000_0000
    ensures Sound(Ref(p, m), owners + multiset{m}, held)
    ensures Ref(p, m).msgs[m].refCount == p.msgs[m].refCount + 1
  {
    assert Live(p, m);
    assert LiveBags(Ref(p, m)) == LiveBags(p);
  }

  /** Giving up one owned reference: the count never passes zero, and the last owner frees the
      message and its buffer, exactly once. */
  lemma ReleaseKeeps(p: Pools, m: u32, owners: multiset<int>, held: multiset<int>)
    requires Sound(p, owners + multiset{m}, held)
    ensures Sound(Release(p, m), owners, held)
    ensures Live(p, m) && (Live(Release(p, m), m) <==> m in owners)
    ensures Release(p, m).msgFree == if m in owners then p.msgFree else p.msgFree + [m]
  {
    assert m in owners + multiset{m} && (owners + multiset{m})[m] == owners[m] + 1;
    assert Live(p, m);
    LiveBufIsReal(p, m, held);
    if m in owners {
      ReleaseCounted(p, m, owners);
      assert LiveBags(Release(p, m)) == LiveBags(p);
    } else {
      ReleaseCounted(p, m, owners);
      LastReleaseMoves(p, m, held);
    }
  }

  lemma ReleaseCounted(p: Pools, m: u32, owners: multiset<int>)
    requires Counted(p, owners + multiset{m})
    ensures Live(p, m) && (p.msgs[m].refCount == 1 <==> m !in owners)
    ensures Release(p, m).msgFree == if m in owners then p.msgFree else p.msgFree + [m]
    ensures Counted(Release(p, m), owners)
  {
    var all := owners + multiset{m};
    assert m in all && all[m] == owners[m] + 1;
    assert Live(p, m);
    var r := Release(p, m);
    assert r.msgFree == if m in owners then p.msgFree else p.msgFree + [m];
    assert forall k :: k in owners ==> k in all;
    assert forall k :: k != m && k in all ==> k in owners && owners[k] == all[k];
    assert forall k :: k in r.msgFree <==> k in p.msgFree || (k == m && m !in owners);
  }

  lemma LiveBufIsReal(p: Pools, m: u32, held: multiset<int>)
    requires Partitioned(p, held) && Live(p, m)
    ensures p.msgs[m].bufIdx < |p.bufs|
  {
    SumUpdate(LiveBags(p), m, multiset{});
    assert p.msgs[m].bufIdx in LiveBag(p, m);
    assert p.msgs[m].bufIdx in multiset(Below(|p.bufs|));
  }

  lemma LastReleaseMoves(p: Pools, m: u32, held: multiset<int>)
    requires Partitioned(p, held) && Live(p, m) && p.msgs[m].bufIdx < |p.bufs| && p.msgs[m].refCount == 1 && m != INVALID
    ensures Partitioned(Release(p, m), held)
  {
    MoveToFree(p, Release(p, m), m, held);
  }

  /** A message leaves and its buffer goes to the free stack. */
  lemma MoveToFree(p: Pools, r: Pools, m: u32, held: multiset<int>)
    requires Partitioned(p, held) && Live(p, m) && |r.bufs| == |p.bufs| && |r.msgs| == |p.msgs|
    requires r.msgFree == p.msgFree + [m] && r.bufFree == p.bufFree + [p.msgs[m].bufIdx]
    requires forall k :: 0 <= k < |p.msgs| ==> r.msgs[k].bufIdx == p.msgs[k].bufIdx
    ensures Partitioned(r, held)
  {
    var x := p.msgs[m].bufIdx;
    assert LiveBags(r) == LiveBags(p)[m := multiset{}];
    SumUpdate(LiveBags(p), m, multiset{});
    assert LiveBufs(r) + multiset{x} == LiveBufs(p);
    assert Bag(r.bufFree) == Bag(p.bufFree) + multiset{x};
    Move(Bag(p.bufFree), LiveBufs(p), LiveBufs(r), held, x);
  }

  /** With no owner left, every message is back on the free stack and every buffer not held is free. */
  lemma AllFreeWhenUnowned(p: Pools, held: multiset<int>)
    requires Sound(p, multiset{}, held)
    ensures |p.msgFree| == |p.msgs|
    ensures Bag(p.bufFree) + held == multiset(Below(|p.bufs|))
  {
    forall m | 0 <= m < |p.msgs| ensures m in p.msgFree {
      assert m !in p.msgFree ==> Live(p, m);
    }
    Pigeonhole(p.msgFree, |p.msgs|);
    var free: seq<int> := p.msgFree;
    DistinctCount(free);
    SubsetCount(Below(|p.msgs|), set x | x in free);
    SumEmpty(LiveBags(p));
  }
}
