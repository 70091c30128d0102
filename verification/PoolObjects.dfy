/** The message pool and the receive buffer pool in place (src/mem/msgbuf.h, src/mem/pool.h), and
    release_msg_ref over both (src/broker/loop.h). */
module PoolObjects {
  import opened Common
  import opened Bags
  import opened Shared

  /** msg_pool */
  class MsgPool {
    const msgs: array<Msg>
    const freeStack: array<u32>
    var freeCount: nat

    ghost predicate Valid()
      reads this, freeStack
    {
      && msgs.Length == freeStack.Length < INVALID && freeCount <= freeStack.Length
      && forall k :: 0 <= k < freeCount ==> freeStack[k] < msgs.Length
    }

    ghost function Free(): seq<u32>
      requires Valid()
      reads this, freeStack
    {
      freeStack[..freeCount]
    }

    /** msg_pool_init: every index is free, the lowest on top. */
    constructor (capacity: nat)
      requires capacity < INVALID
      ensures Valid() && fresh(msgs) && fresh(freeStack) && msgs.Length == capacity
      ensures forall i :: 0 <= i < capacity ==> msgs[i] == Msg(0, 0, 0, 0, 0, 0, false, 0)
      ensures |Free()| == capacity && forall i :: 0 <= i < capacity ==> Free()[i] == capacity - 1 - i
    {
      msgs := new Msg[capacity](_ => Msg(0, 0, 0, 0, 0, 0, false, 0));
      freeStack := new u32[capacity](i => if 0 <= i < capacity then capacity - 1 - i else 0);
      freeCount := capacity;
    }

    /** msg_pool_alloc */
    method Alloc() returns (idx: u32)
      requires Valid()
      modifies this, msgs
      ensures Valid()
      ensures idx == if old(Free()) == [] then INVALID else old(Free())[|old(Free())| - 1]
      ensures Free() == if old(Free()) == [] then [] else old(Free())[..|old(Free())| - 1]
      ensures msgs[..] == if old(Free()) == [] then old(msgs[..])
                          else old(msgs[..])[idx := old(msgs[..])[idx].(bufIdx := INVALID, refCount := 0)]
    {
      if freeCount == 0 {
        return INVALID;
      }
      freeCount := freeCount - 1;
      idx := freeStack[freeCount];
      msgs[idx] := msgs[idx].(bufIdx := INVALID, refCount := 0);
    }

    /** msg_pool_free. The stack has room because idx is not on it. */
    method FreeIndex(idx: u32)
      requires Valid() && (idx < msgs.Length ==> freeCount < freeStack.Length)
      modifies this, freeStack
      ensures Valid()
      ensures Free() == if idx < msgs.Length then old(Free()) + [idx] else old(Free())
    {
      if idx >= msgs.Length {
        return;
      }
      freeStack[freeCount] := idx;
      freeCount := freeCount + 1;
    }

    /** msg_pool_ref */
    method Ref(idx: u32)
      requires Valid()
      modifies msgs
      ensures msgs[..] == if idx >= msgs.Length then old(msgs[..])
                          else old(msgs[..])[idx := old(msgs[idx]).(refCount := (old(msgs[idx]).refCount + 1) % 0x1_0000_0000)]
    {
      if idx >= msgs.Length {
        return;
      }
      msgs[idx] := msgs[idx].(refCount := (msgs[idx].refCount + 1) % 0x1_0000_0000);
    }

    /** msg_pool_unref */
    method Unref(idx: u32) returns (n: u32)
      requires Valid()
      modifies msgs
      ensures n == if idx >= msgs.Length then 0 else (old(msgs[idx]).refCount - 1) % 0x1_0000_0000
      ensures msgs[..] == if idx >= msgs.Length then old(msgs[..]) else old(msgs[..])[idx := old(msgs[idx]).(refCount := n)]
    {
      if idx >= msgs.Length {
        return 0;
      }
      n := (msgs[idx].refCount - 1) % 0x1_0000_0000;
      msgs[idx] := msgs[idx].(refCount := n);
    }
  }

  /** buf_pool; each buffer is the bytes it holds. */
  class BufPool {
    const bufs: array<seq<byte>>
    const freeStack: array<u32>
    var freeCount: nat

    ghost predicate Valid()
      reads this, freeStack
    {
      && bufs.Length == freeStack.Length < INVALID && freeCount <= freeStack.Length
      && forall k :: 0 <= k < freeCount ==> freeStack[k] < bufs.Length
    }

    ghost function Free(): seq<u32>
      requires Valid()
      reads this, freeStack
    {
      freeStack[..freeCount]
    }

    /** buf_pool_init */
    constructor (capacity: nat, bufSize: nat)
      requires capacity < INVALID
      ensures Valid() && fresh(bufs) && fresh(freeStack) && bufs.Length == capacity
      ensures forall i :: 0 <= i < capacity ==> bufs[i] == seq(bufSize, _ => 0)
      ensures |Free()| == capacity && forall i :: 0 <= i < capacity ==> Free()[i] == capacity - 1 - i
    {
      bufs := new seq<byte>[capacity](_ => seq(bufSize, _ => 0));
      freeStack := new u32[capacity](i => if 0 <= i < capacity then capacity - 1 - i else 0);
      freeCount := capacity;
    }

    /** buf_pool_alloc */
    method Alloc() returns (idx: u32)
      requires Valid()
      modifies this
      ensures Valid()
      ensures idx == if old(Free()) == [] then INVALID else old(Free())[|old(Free())| - 1]
      ensures Free() == if old(Free()) == [] then [] else old(Free())[..|old(Free())| - 1]
    {
      if freeCount == 0 {
        return INVALID;
      }
      freeCount := freeCount - 1;
      idx := freeStack[freeCount];
    }

    /** buf_pool_free. The stack has room because idx is not on it. */
    method FreeIndex(idx: u32)
      requires Valid() && (idx < bufs.Length ==> freeCount < freeStack.Length)
      modifies this, freeStack
      ensures Valid()
      ensures Free() == if idx < bufs.Length then old(Free()) + [idx] else old(Free())
    {
      if idx >= bufs.Length {
        return;
      }
      freeStack[freeCount] := idx;
      freeCount := freeCount + 1;
    }
  }

  /** What all clients share. */
  class Resources {
    const msgPool: MsgPool
    const recvPool: BufPool
    var sqRoom: nat // submission entries left
    var now: int

    ghost const repr: set<object>

    ghost predicate Valid()
      reads repr
    {
      && {this, msgPool, msgPool.msgs, msgPool.freeStack, recvPool, recvPool.bufs, recvPool.freeStack} <= repr
      && msgPool.Valid() && recvPool.Valid() && msgPool.freeStack != recvPool.freeStack
    }

    ghost function View(): Pools
      requires Valid()
      reads repr
    {
      Pools(msgPool.msgs[..], msgPool.Free(), recvPool.bufs[..], recvPool.Free(), sqRoom, now)
    }

    constructor (messages: nat, buffers: nat, bufSize: nat)
      requires messages < INVALID && buffers < INVALID
      ensures Valid() && fresh(repr)
      ensures var p := View();
              && |p.msgs| == |p.msgFree| == messages && |p.bufs| == |p.bufFree| == buffers
              && p.sqRoom == 0 && p.now == 0
              && (forall i :: 0 <= i < messages ==> p.msgs[i] == Msg(0, 0, 0, 0, 0, 0, false, 0))
              && (forall i :: 0 <= i < buffers ==> p.bufs[i] == seq(bufSize, _ => 0))
              && (forall i :: 0 <= i < messages ==> p.msgFree[i] == messages - 1 - i)
              && (forall i :: 0 <= i < buffers ==> p.bufFree[i] == buffers - 1 - i)
    {
      var m := new MsgPool(messages);
      var r := new BufPool(buffers, bufSize);
      msgPool, recvPool := m, r;
      repr := {this, m, m.msgs, m.freeStack, r, r.bufs, r.freeStack};
      sqRoom, now := 0, 0;
    }

    method Ref(m: u32)
      requires Valid()
      modifies repr
      ensures Valid() && View() == Shared.Ref(old(View()), m)
    {
      msgPool.Ref(m);
    }

    method AllocBuf() returns (buf: u32)
      requires Valid()
      modifies repr
      ensures Valid() && (buf == INVALID <==> old(View()).bufFree == [])
      ensures var free := old(View()).bufFree;
              && (free == [] ==> View() == old(View()))
              && (free != [] ==> buf == free[|free| - 1] && View() == old(View()).(bufFree := free[..|free| - 1]))
    {
      buf := recvPool.Alloc();
    }

    method FreeBuf(x: u32)
      requires Valid() && (x < |View().bufs| ==> |View().bufFree| < |View().bufs|)
      modifies repr
      ensures Valid() && View() == Shared.FreeBuf(old(View()), x)
    {
      recvPool.FreeIndex(x);
    }

    method AllocMsg() returns (m: u32)
      requires Valid()
      modifies repr
      ensures Valid() && (m == INVALID <==> old(View()).msgFree == [])
      ensures var p := old(View()); var free := p.msgFree;
              && (free == [] ==> View() == p)
              && (free != [] ==>
                    && m == free[|free| - 1] && m < |p.msgs|
                    && View() == p.(msgs := p.msgs[m := p.msgs[m].(bufIdx := INVALID, refCount := 0)], msgFree := free[..|free| - 1]))
    {
      m := msgPool.Alloc();
    }

    /** The record of a message just allocated, and its first reference. */
    method FillMsg(m: u32, msg: Msg)
      requires Valid() && m < |View().msgs| && View().msgs[m].refCount == 0 && msg.refCount == 1
      modifies repr
      ensures Valid() && View() == old(View()).(msgs := old(View()).msgs[m := msg])
    {
      ghost var was := msgPool.msgs[..];
      msgPool.msgs[m] := msg.(refCount := msgPool.msgs[m].refCount);
      msgPool.Ref(m);
      assert msgPool.msgs[..] == was[m := msg];
    }

    method FreeMsg(m: u32)
      requires Valid() && (m < |View().msgs| ==> |View().msgFree| < |View().msgs|)
      modifies repr
      ensures Valid() && View() == Shared.FreeMsg(old(View()), m)
    {
      msgPool.FreeIndex(m);
    }

    /** release_msg_ref */
    method Release(m: u32)
      requires Valid() && RoomFor(View(), m)
      modifies repr
      ensures Valid() && View() == Shared.Release(old(View()), m)
    {
      if m == INVALID {
        return;
      }
      var n := msgPool.Unref(m);
      if n == 0 && m < msgPool.msgs.Length {
        if msgPool.msgs[m].bufIdx != INVALID {
          recvPool.FreeIndex(msgPool.msgs[m].bufIdx);
        }
        msgPool.FreeIndex(m);
      }
    }
  }

  /** The stacks can take what giving up a reference to m may free. */
  ghost predicate RoomFor(p: Pools, m: u32) {
    m < |p.msgs| && p.msgs[m].refCount == 1 ==>
      |p.msgFree| < |p.msgs| && (p.msgs[m].bufIdx < |p.bufs| ==> |p.bufFree| < |p.bufs|)
  }

  /** A free stack never overflows: what is released is in use, so it is not on the stack. */
  lemma OwnedHasRoom(p: Pools, m: u32, owners: multiset<int>, held: multiset<int>)
    requires Sound(p, owners, held) && (m == INVALID || m in owners)
    ensures RoomFor(p, m)
  {
    if m != INVALID {
      assert Live(p, m);
      var all: seq<int> := p.msgFree + [m];
      assert forall k :: 0 <= k < |p.msgFree| ==> p.msgFree[k] != m;
      Pigeonhole(all, |p.msgs|);
      LiveBufIsReal(p, m, held);
      SumUpdate(LiveBags(p), m, multiset{});
      assert |LiveBufs(p)| >= |LiveBag(p, m)|;
      BufRoom(Bag(p.bufFree), LiveBufs(p), held, |p.bufs|);
      assert |Bag(p.bufFree)| == |p.bufFree|;
    }
  }

  /** A buffer that somebody holds is not on the free stack, so the stack has room for it. */
  lemma HeldHasRoom(p: Pools, x: u32, owners: multiset<int>, held: multiset<int>)
    requires Sound(p, owners, held) && x in held
    ensures |p.bufFree| < |p.bufs|
  {
    assert |held| >= 1;
    var all := Bag(p.bufFree) + LiveBufs(p) + held;
    assert |all| == |Bag(p.bufFree)| + |LiveBufs(p)| + |held|;
    assert |multiset(Below(|p.bufs|))| == |Below(|p.bufs|)|;
  }

  lemma BufRoom(free: multiset<int>, live: multiset<int>, held: multiset<int>, n: nat)
    requires free + live + held == multiset(Below(n)) && |live| >= 1
    ensures |free| < n
  {
    assert |free + live + held| == |free| + |live| + |held|;
  }
}
