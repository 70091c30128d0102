/** A client slot in place: the egress ring (src/broker/egress.h) and the record around it (src/broker/client.h). */
module ClientObjects {
  import opened Common
  import opened Inflight
  import opened InflightTable
  import opened Egress
  import opened PacketIdIndex
  import opened Broker
  import opened PoolObjects

  /** The ring of egress segments: head and count wrap on a power-of-two capacity. */
  class EgressRing {
    const segs: array<Seg>
    var head: nat
    var count: nat

    ghost predicate Valid()
      reads this
    {
      head < segs.Length && count <= segs.Length
    }

    /** The queued segments, oldest first. */
    ghost function Queue(): (q: seq<Seg>)
      requires Valid()
      reads this, segs
      ensures |q| == count
      ensures forall k :: 0 <= k < count ==> q[k] == segs[At(k)]
    {
      if head + count <= segs.Length then segs[head..head + count]
      else segs[head..] + segs[..head + count - segs.Length]
    }

    /** (head + k) & mask */
    function At(k: nat): (i: nat)
      requires Valid() && k <= segs.Length
      reads this
      ensures i < segs.Length
    {
      if head + k < segs.Length then head + k else head + k - segs.Length
    }

    constructor (capacity: nat)
      requires capacity > 0
      ensures Valid() && Queue() == [] && segs.Length == capacity && fresh(segs)
    {
      segs := new Seg[capacity](_ => Seg(0, 0, 0, 0, false, false, 0, 0, [], 0));
      head, count := 0, 0;
    }

    /** egress_push and the count update that follows it. */
    method Push(s: Seg)
      requires Valid() && count < segs.Length
      modifies this, segs
      ensures Valid() && Queue() == old(Queue()) + [s]
    {
      segs[At(count)] := s;
      count := count + 1;
    }

    /** egress_pop */
    method Pop()
      requires Valid() && count > 0
      modifies this
      ensures Valid() && Queue() == old(Queue())[1..]
    {
      head := At(1);
      count := count - 1;
    }

    method Replace(k: nat, s: Seg)
      requires Valid() && k < count
      modifies segs
      ensures Valid() && Queue() == old(Queue())[k := s]
    {
      segs[At(k)] := s;
    }

    method Clear()
      modifies this
      requires Valid()
      ensures Valid() && Queue() == []
    {
      head, count := 0, 0;
    }
  }

  /** client_slot */
  class ClientSlot {
    var state: ClientState
    var cleanSession: bool
    var generation: byte
    var fd: int
    var recvPending: bool
    var recvBuf: u32
    var orphan: u32
    const table: Table
    const ring: EgressRing
    var writing: bool
    var batch: byte

    ghost const repr: set<object>

    ghost predicate Valid()
      reads repr
    {
      {this, ring, ring.segs} + table.Repr() <= repr && ring.Valid() && table.Valid()
    }

    ghost function View(): Client
      requires Valid()
      reads repr
    {
      Client(state, cleanSession, generation, fd, recvPending, recvBuf, orphan, table.View(),
             ring.Queue(), ring.segs.Length, writing, batch)
    }

    /** A free slot as broker_init leaves it. */
    constructor (maxInflight: nat, capacity: nat, link: int)
      requires ValidMax(maxInflight) && capacity > 0
      ensures Valid() && fresh(repr)
      ensures View() == Client(Vacant, false, 0, link, false, INVALID, INVALID, Blank(maxInflight), [], capacity, false, 0)
    {
      state, cleanSession, generation, fd := Vacant, false, 0, link;
      recvPending, recvBuf, orphan := false, INVALID, INVALID;
      var entries := new Table(maxInflight);
      var queue := new EgressRing(capacity);
      table, ring := entries, queue;
      writing, batch := false, 0;
      repr := {this, queue, queue.segs} + entries.Repr();
    }
  
    /** client_init */
    method Init(descriptor: int, buf: u32)
      requires Valid()
      modifies repr
      ensures Valid() && View() == InitClient(old(View()), descriptor, buf, table.n)
    {
      hide Table.Valid, Table.View, Table.Repr, EgressRing.Valid, EgressRing.Queue, Blank;
      ResetParts();
      state, generation, fd, cleanSession := Active, (generation + 1) % 0x100, descriptor, true;
      recvPending, recvBuf := false, buf;
      writing, batch := false, 0;
    }

    /** The inflight entries and the egress ring of a new connection. */
    method ResetParts()
      requires Valid()
      modifies repr
      ensures Valid() && View() == old(View()).(slots := Blank(table.n), queue := [])
    {
      hide Consistent, Indexes, Blank;
      table.Reset();
      ring.Clear();
    }

    method SetRecvBuf(buf: u32)
      requires Valid()
      modifies repr
      ensures Valid() && View() == old(View()).(recvBuf := buf)
    {
      hide Consistent, Indexes;
      recvBuf := buf;
    }

    method SetOrphan(x: u32)
      requires Valid()
      modifies repr
      ensures Valid() && View() == old(View()).(orphan := x)
    {
      hide Consistent, Indexes;
      orphan := x;
    }

    /** client_go_dormant */
    method GoDormant()
      requires Valid()
      modifies repr
      ensures Valid() && View() == old(View()).(state := Dormant, recvBuf := INVALID, writing := false, fd := -1)
    {
      hide Consistent, Indexes;
      state, recvBuf, writing, fd := Dormant, INVALID, false, -1;
    }

    /** client_free together with client_inflight_free_all; the link of the free list goes into fd. */
    method Free(link: int)
      requires Valid()
      modifies repr
      ensures Valid()
      ensures View() == old(View()).(slots := FreeAll(old(View()).slots), state := Vacant, recvBuf := INVALID, writing := false, fd := link)
    {
      hide Consistent, Indexes, FreeAll;
      table.ReleaseAll();
      state, recvBuf, writing, fd := Vacant, INVALID, false, link;
    }
  }

  /** One client beside the shared resources, sharing no memory with them. */
  ghost predicate Together(a: Resources, c: ClientSlot)
    reads a.repr, c.repr
  {
    a.Valid() && c.Valid() && a.repr !! c.repr
  }

  ghost function SiteOf(a: Resources, c: ClientSlot): Site
    requires Together(a, c)
    reads a.repr, c.repr
  {
    Site(a.View(), c.View())
  }
}
