/** What every broker event keeps: reference conservation, the buffer partition, the slot lists and
    the subscription generations. */
module BrokerInv {
  import opened Common
  import opened Bags
  import opened Inflight
  import opened Shared
  import opened Egress
  import opened Conservation
  import opened Broker

  const MAX_CLIENTS := 65536 // LLMQ_MAX_CONNS_LIMIT

  ghost function OwnerBags(cs: seq<Client>): (s: seq<multiset<int>>)
    ensures |s| == |cs| && forall i :: 0 <= i < |cs| ==> s[i] == Refs(cs[i])
  {
    seq(|cs|, i requires 0 <= i < |cs| => Refs(cs[i]))
  }

  ghost function HolderBags(cs: seq<Client>): (s: seq<multiset<int>>)
    ensures |s| == |cs| && forall i :: 0 <= i < |cs| ==> s[i] == Held(cs[i])
  {
    seq(|cs|, i requires 0 <= i < |cs| => Held(cs[i]))
  }

  /** All references clients own, and all buffers they hold. */
  ghost function Owners(cs: seq<Client>): multiset<int> { Sum(OwnerBags(cs)) }
  ghost function Holders(cs: seq<Client>): multiset<int> { Sum(HolderBags(cs)) }

  /** The part of each total that does not come from client i. */
  ghost function OwnersBut(cs: seq<Client>, i: nat): multiset<int>
    requires i < |cs|
  {
    Owners(cs) - Refs(cs[i])
  }

  ghost function HoldersBut(cs: seq<Client>, i: nat): multiset<int>
    requires i < |cs|
  {
    Holders(cs) - Held(cs[i])
  }

  lemma OwnersSplit(cs: seq<Client>, i: nat, c: Client)
    requires i < |cs|
    ensures Owners(cs) == OwnersBut(cs, i) + Refs(cs[i])
    ensures Owners(cs[i := c]) == OwnersBut(cs, i) + Refs(c)
  {
    assert OwnerBags(cs[i := c]) == OwnerBags(cs)[i := Refs(c)];
    SumUpdate(OwnerBags(cs), i, Refs(c));
    Exchange(Owners(cs), Owners(cs[i := c]), Refs(cs[i]), Refs(c));
  }

  lemma HoldersSplit(cs: seq<Client>, i: nat, c: Client)
    requires i < |cs|
    ensures Holders(cs) == HoldersBut(cs, i) + Held(cs[i])
    ensures Holders(cs[i := c]) == HoldersBut(cs, i) + Held(c)
  {
    assert HolderBags(cs[i := c]) == HolderBags(cs)[i := Held(c)];
    SumUpdate(HolderBags(cs), i, Held(c));
    Exchange(Holders(cs), Holders(cs[i := c]), Held(cs[i]), Held(c));
  }

  /** What a client satisfies besides its queue and table: who is not connected has nothing queued. */
  ghost predicate ClientWell(b: Broker, c: Client) {
    && ClientOk(c)
    && |c.slots.hot| == b.maxInflight
    && (if Connected(c) then c.recvBuf != INVALID else c.queue == [] && !c.writing && c.recvBuf == INVALID)
    && (c.state == Vacant ==> NonFree(c.slots.hot) == 0)
  }

  ghost predicate ClientsWell(b: Broker) {
    && |b.clients| <= MAX_CLIENTS && ValidMax(b.maxInflight)
    && forall i :: 0 <= i < |b.clients| ==> ClientWell(b, b.clients[i])
  }

  /** Conservation over the whole broker; base is the reference held during fan-out. */
  ghost predicate PoolInv(b: Broker, base: multiset<int>) {
    ClientsWell(b) && |base| <= 1 && Sound(b.p, base + Owners(b.clients), Holders(b.clients))
  }

  /** A step on one connected client that keeps its own books keeps the broker's. */
  lemma LiftKeeps(b: Broker, i: nat, r: Site, base: multiset<int>)
    requires PoolInv(b, base) && i < |b.clients| && Connected(b.clients[i])
    requires Keeps(At(b, i), r, base + OwnersBut(b.clients, i), Holders(b.clients))
    ensures PoolInv(Put(b, i, r), base)
  {
    hide Sound, ClientOk, Refs;
    OwnersSplit(b.clients, i, r.c);
    HoldersSplit(b.clients, i, r.c);
    assert base + (OwnersBut(b.clients, i) + Refs(r.c)) == base + OwnersBut(b.clients, i) + Refs(r.c);
    assert Held(r.c) == Held(b.clients[i]);
  }

  /** The view of one connected client that the conservation lemmas need. */
  lemma FitAt(b: Broker, i: nat, base: multiset<int>)
    requires PoolInv(b, base) && i < |b.clients| && Connected(b.clients[i])
    ensures Fit(At(b, i), base + OwnersBut(b.clients, i), Holders(b.clients))
  {
    hide Sound, ClientOk, Refs;
    OwnersSplit(b.clients, i, b.clients[i]);
    assert base + (OwnersBut(b.clients, i) + Refs(b.clients[i])) == base + OwnersBut(b.clients, i) + Refs(b.clients[i]);
    assert ClientWell(b, b.clients[i]);
  }

  /** There are never enough owners for a count to wrap. */
  lemma CountsFit(b: Broker, base: multiset<int>, m: int)
    requires PoolInv(b, base)
    ensures (base + Owners(b.clients))[m] + 1 < 0x1_0000_0000
  {
    hide Sound, ClientOk, Refs;
    forall i | 0 <= i < |b.clients|
      ensures |Refs(b.clients[i])| <= MAX_EGRESS + MAX_INFLIGHT
    {
      assert ClientWell(b, b.clients[i]);
      ClientBounds(b.clients[i]);
      RefsBounded(b.clients[i]);
    }
    SumSize(OwnerBags(b.clients), MAX_EGRESS + MAX_INFLIGHT);
    CountAtMost(base + Owners(b.clients), m);
    assert |b.clients| * (MAX_EGRESS + MAX_INFLIGHT) <= MAX_CLIENTS * (MAX_EGRESS + MAX_INFLIGHT);
  }

  lemma ClientBounds(c: Client)
    requires ClientOk(c)
    ensures |c.queue| <= c.capacity <= MAX_EGRESS && |c.slots.hot| <= MAX_INFLIGHT
  {
  }

  // ---- slots ----

  /** The fd of a free slot is the link: the next free slot, or anything outside the table at the end. */
  function LinkOf(cs: seq<Client>, i: nat): int
    requires i < |cs|
  {
    if cs[i].fd >= 0 then cs[i].fd else |cs|
  }

  function NextFree(chain: seq<int>, k: nat, n: nat): int {
    if k + 1 < |chain| then chain[k + 1] else n
  }

  /** chain lists exactly the free slots, without repetition. */
  ghost predicate FreeMembers(cs: seq<Client>, chain: seq<int>) {
    && Distinct(chain)
    && (forall k :: 0 <= k < |chain| ==> 0 <= chain[k] < |cs| && cs[chain[k]].state == Vacant)
    && (forall i :: 0 <= i < |cs| && cs[i].state == Vacant ==> i in chain)
  }

  /** The links run through the chain in order, from head to the end marker. */
  ghost predicate FreeLinks(cs: seq<Client>, head: int, chain: seq<int>) {
    && head == NextFree([-1] + chain, 0, |cs|)
    && (forall k :: 0 <= k < |chain| ==> 0 <= chain[k] < |cs| && LinkOf(cs, chain[k]) == NextFree(chain, k, |cs|))
  }

  ghost predicate FreeList(cs: seq<Client>, head: int, chain: seq<int>) {
    FreeMembers(cs, chain) && FreeLinks(cs, head, chain)
  }

  function Kind(c: Client): int {
    if c.state == Vacant then 0 else if Connected(c) then 1 else 2
  }

  ghost function KindBags(cs: seq<Client>): (s: seq<multiset<int>>)
    ensures |s| == |cs| && forall i :: 0 <= i < |cs| ==> s[i] == multiset{Kind(cs[i])}
  {
    seq(|cs|, i requires 0 <= i < |cs| => multiset{Kind(cs[i])})
  }

  /** How many slots are free (0), connected (1) and dormant (2). */
  ghost function Census(cs: seq<Client>): multiset<int> { Sum(KindBags(cs)) }

  /** fd_to_slot and the fd of a connected client are inverse to each other. */
  ghost predicate FdsMapped(b: Broker) {
    && (forall fd :: 0 <= fd < |b.fdToSlot| && b.fdToSlot[fd] != -1 ==>
          0 <= b.fdToSlot[fd] < |b.clients| && Connected(b.clients[b.fdToSlot[fd]]) && b.clients[b.fdToSlot[fd]].fd == fd)
    && (forall i :: 0 <= i < |b.clients| && Connected(b.clients[i]) ==>
          0 <= b.clients[i].fd < |b.fdToSlot| && b.fdToSlot[b.clients[i].fd] == i)
  }

  ghost predicate SlotInv(b: Broker, chain: seq<int>) {
    && FreeList(b.clients, b.freeHead, chain)
    && |chain| == Census(b.clients)[0]
    && b.activeCount == Census(b.clients)[1]
    && b.dormantCount == Census(b.clients)[2]
    && FdsMapped(b)
  }

  /** A subscription carries its slot's current generation, and a free slot has none. */
  ghost predicate SubsInv(b: Broker) {
    forall k :: 0 <= k < |b.nodes| ==> NodeOk(b.clients, b.nodes[k])
  }

  ghost predicate NodeOk(cs: seq<Client>, node: map<int, byte>) {
    forall i :: i in node ==> 0 <= i < |cs| && cs[i].state != Vacant && node[i] == cs[i].generation
  }

  /** The receive of the present connection. */
  ghost predicate Current(c: Client, r: Recv) {
    Connected(c) && c.recvPending && r.generation == c.generation && r.buf == c.recvBuf
  }

  /** Every receive the kernel still works on for slot i targets a buffer the slot holds: the present one,
      or the orphan, which waits for exactly one stale receive. */
  ghost predicate SlotRecvs(recvs: set<Recv>, i: nat, c: Client) {
    && (forall r :: r in recvs && r.slot == i ==>
          && r.buf != INVALID
          && (Current(c, r) || c.orphan == r.buf)
          && (Connected(c) && r.generation == c.generation ==> Current(c, r)))
    && (forall r, q :: r in recvs && q in recvs && r.slot == i && q.slot == i && !Current(c, r) && !Current(c, q) ==> r == q)
    && (c.orphan != INVALID ==> exists r :: r in recvs && r.slot == i && !Current(c, r) && r.buf == c.orphan)
    && (Connected(c) && c.recvPending ==> Recv(i, c.generation, c.recvBuf) in recvs)
  }

  ghost predicate RecvInv(b: Broker) {
    && (forall r :: r in b.recvs ==> r.slot < |b.clients|)
    && forall i :: 0 <= i < |b.clients| ==> SlotRecvs(b.recvs, i, b.clients[i])
  }

  /** Everything, between two events. */
  ghost predicate Inv(b: Broker) {
    && PoolInv(b, multiset{})
    && (exists chain :: SlotInv(b, chain))
    && SubsInv(b)
    && RecvInv(b)
  }

  /** Nothing changed but queues, tables and the pools' books. */
  ghost predicate SameIds(b: Broker, r: Broker) {
    && |r.clients| == |b.clients|
    && r == b.(p := r.p, clients := r.clients)
    && (forall i :: 0 <= i < |b.clients| ==> SameId(b.clients[i], r.clients[i]))
    && SameStore(b.p, r.p)
  }

  ghost predicate SameId(c: Client, d: Client) {
    d == c.(queue := d.queue, slots := d.slots, writing := d.writing, batch := d.batch)
  }

  lemma SameFreeList(cs: seq<Client>, ds: seq<Client>, head: int, chain: seq<int>)
    requires |cs| == |ds| && (forall i :: 0 <= i < |cs| ==> ds[i].state == cs[i].state && ds[i].fd == cs[i].fd)
    requires FreeList(cs, head, chain)
    ensures FreeList(ds, head, chain)
  {
    forall k | 0 <= k < |chain|
      ensures LinkOf(ds, chain[k]) == NextFree(chain, k, |ds|)
    {
      assert LinkOf(ds, chain[k]) == LinkOf(cs, chain[k]);
    }
  }

  lemma SameSlots(b: Broker, r: Broker, chain: seq<int>)
    requires SameIds(b, r) && SlotInv(b, chain)
    ensures SlotInv(r, chain)
  {
    hide FreeList;
    assert forall i :: 0 <= i < |b.clients| ==> SameId(b.clients[i], r.clients[i]);
    assert KindBags(r.clients) == KindBags(b.clients);
    SameFreeList(b.clients, r.clients, b.freeHead, chain);
  }

  lemma SameSlotRecvs(recvs: set<Recv>, i: nat, c: Client, d: Client)
    requires SameId(c, d) && SlotRecvs(recvs, i, c)
    ensures SlotRecvs(recvs, i, d)
  {
    assert forall r :: Current(c, r) == Current(d, r);
  }

  lemma SameIdsKeep(b: Broker, r: Broker)
    requires SameIds(b, r)
    ensures (exists chain :: SlotInv(b, chain)) ==> exists chain :: SlotInv(r, chain)
    ensures SubsInv(b) ==> SubsInv(r)
    ensures RecvInv(b) ==> RecvInv(r)
  {
    hide SlotInv;
    if chain :| SlotInv(b, chain) {
      SameSlots(b, r, chain);
    }
    assert forall i :: 0 <= i < |b.clients| ==> SameId(b.clients[i], r.clients[i]);
    if RecvInv(b) {
      forall i | 0 <= i < |b.clients|
        ensures SlotRecvs(r.recvs, i, r.clients[i])
      {
        SameSlotRecvs(b.recvs, i, b.clients[i], r.clients[i]);
      }
    }
  }

  /** Any step on one connected client that keeps its books keeps the whole invariant. */
  lemma SiteStepKeeps(b: Broker, i: nat, r: Site)
    requires Inv(b) && i < |b.clients| && Connected(b.clients[i])
    requires Keeps(At(b, i), r, multiset{} + OwnersBut(b.clients, i), Holders(b.clients))
    ensures Inv(Put(b, i, r))
  {
    hide PoolInv, SlotInv, SubsInv, RecvInv, Sound, ClientOk, Refs;
    LiftKeeps(b, i, r, multiset{});
    assert SameIds(b, Put(b, i, r));
    SameIdsKeep(b, Put(b, i, r));
  }
}
