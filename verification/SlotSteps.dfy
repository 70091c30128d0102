/** Accepting, closing and receiving: what the slot events do to the broker's invariants, and where the
    single orphan per slot is not enough. */
module SlotSteps {
  import opened Common
  import opened Bags
  import opened Inflight
  import opened Shared
  import opened Egress
  import opened Conservation
  import opened Broker
  import opened BrokerInv

  // ---- buffers ----

  /** A buffer taken from the free stack. */
  lemma TakeBuf(p: Pools, owners: multiset<int>, Y: multiset<int>)
    requires Sound(p, owners, Y) && p.bufFree != []
    ensures var top := |p.bufFree| - 1;
            && p.bufFree[top] != INVALID
            && Sound(p.(bufFree := p.bufFree[..top]), owners, Y + multiset{p.bufFree[top]})
  {
    var top := |p.bufFree| - 1;
    var q := p.(bufFree := p.bufFree[..top]);
    assert p.bufFree == q.bufFree + [p.bufFree[top]];
    assert Bag(p.bufFree) == Bag(q.bufFree) + multiset{p.bufFree[top]};
    assert LiveBags(q) == LiveBags(p);
    assert p.bufFree[top] in multiset(Below(|p.bufs|));
    assert Bag(q.bufFree) + LiveBufs(q) + (Y + multiset{p.bufFree[top]}) == Bag(p.bufFree) + LiveBufs(p) + Y;
  }

  /** A held buffer goes back to the free stack. */
  lemma ReturnBuf(p: Pools, x: u32, owners: multiset<int>, Y: multiset<int>)
    requires Sound(p, owners, Y + multiset{x})
    ensures x < |p.bufs| && FreeBuf(p, x) == p.(bufFree := p.bufFree + [x])
    ensures Sound(FreeBuf(p, x), owners, Y)
  {
    assert x in Y + multiset{x};
    assert x in multiset(Below(|p.bufs|));
    var q := FreeBuf(p, x);
    assert LiveBags(q) == LiveBags(p);
    assert Bag(q.bufFree) == Bag(p.bufFree) + multiset{x};
    assert Bag(q.bufFree) + LiveBufs(q) + Y == Bag(p.bufFree) + LiveBufs(p) + (Y + multiset{x});
  }

  /** The departing client's buffer is freed or orphaned; it is lost exactly when an orphan is already waiting. */
  lemma LetGoIff(p: Pools, c: Client, owners: multiset<int>, Y: multiset<int>)
    requires Sound(p, owners, Y + Held(c)) && c.recvBuf != INVALID
    ensures var s := LetGo(p, c);
            Sound(s.p, owners, Y + Held(s.c.(recvBuf := INVALID))) <==> !(c.recvPending && c.orphan != INVALID)
    ensures LetGo(p, c).p.msgs == p.msgs && LetGo(p, c).p.bufs == p.bufs
    ensures LetGo(p, c).c == c.(orphan := LetGo(p, c).c.orphan)
  {
    var s := LetGo(p, c);
    var after := Held(s.c.(recvBuf := INVALID));
    if !c.recvPending {
      assert Y + Held(c) == (Y + after) + multiset{c.recvBuf};
      ReturnBuf(p, c.recvBuf, owners, Y + after);
    } else if c.orphan == INVALID {
      assert after == Held(c);
    } else {
      assert Y + Held(c) == (Y + after) + multiset{c.orphan};
      BufferLost(p, Y + Held(c), Y + after, c.orphan);
    }
  }

  lemma BufferLost(p: Pools, Y: multiset<int>, Y': multiset<int>, x: u32)
    requires Partitioned(p, Y) && Y == Y' + multiset{x}
    ensures !Partitioned(p, Y')
  {
    var rest := Bag(p.bufFree) + LiveBufs(p);
    assert |rest + Y| == |rest| + |Y'| + 1;
    assert |rest + Y'| == |rest| + |Y'|;
  }

  lemma FreeOrphanKeeps(p: Pools, c: Client, owners: multiset<int>, Y: multiset<int>)
    requires Sound(p, owners, Y + Held(c))
    ensures var s := FreeOrphan(p, c);
            && Sound(s.p, owners, Y + Held(s.c))
            && s.c == c.(orphan := INVALID) && s.p.msgs == p.msgs && s.p.bufs == p.bufs
  {
    if c.orphan != INVALID {
      assert Y + Held(c) == (Y + One(c.recvBuf)) + multiset{c.orphan};
      ReturnBuf(p, c.orphan, owners, Y + One(c.recvBuf));
      assert Y + One(c.recvBuf) == Y + Held(c.(orphan := INVALID));
    }
  }

  // ---- the slot lists ----

  lemma CensusUpdate(cs: seq<Client>, i: nat, c: Client)
    requires i < |cs|
    ensures Census(cs[i := c])[0] + (if Kind(cs[i]) == 0 then 1 else 0) == Census(cs)[0] + (if Kind(c) == 0 then 1 else 0)
    ensures Census(cs[i := c])[1] + (if Kind(cs[i]) == 1 then 1 else 0) == Census(cs)[1] + (if Kind(c) == 1 then 1 else 0)
    ensures Census(cs[i := c])[2] + (if Kind(cs[i]) == 2 then 1 else 0) == Census(cs)[2] + (if Kind(c) == 2 then 1 else 0)
  {
    assert KindBags(cs[i := c]) == KindBags(cs)[i := multiset{Kind(c)}];
    SumUpdate(KindBags(cs), i, multiset{Kind(c)});
    var left, right := Census(cs[i := c]) + multiset{Kind(cs[i])}, Census(cs) + multiset{Kind(c)};
    assert left[0] == right[0] && left[1] == right[1] && left[2] == right[2];
  }

  /** Taking the first free slot. */
  lemma PopFree(cs: seq<Client>, chain: seq<int>, c: Client)
    requires chain != [] && FreeList(cs, chain[0], chain) && c.state != Vacant
    ensures FreeList(cs[chain[0] := c], LinkOf(cs, chain[0]), chain[1..])
  {
    PopMembers(cs, chain, c);
    var i := chain[0];
    var ds := cs[i := c];
    assert LinkOf(cs, i) == NextFree(chain, 0, |cs|) == NextFree([-1] + chain[1..], 0, |ds|);
    forall k | 0 <= k < |chain[1..]|
      ensures LinkOf(ds, chain[1..][k]) == NextFree(chain[1..], k, |ds|)
    {
      assert LinkOf(cs, chain[k + 1]) == NextFree(chain, k + 1, |cs|);
      assert chain[1..][k] == chain[k + 1] != i;
    }
  }

  lemma PopMembers(cs: seq<Client>, chain: seq<int>, c: Client)
    requires chain != [] && FreeMembers(cs, chain) && c.state != Vacant
    ensures FreeMembers(cs[chain[0] := c], chain[1..])
  {
    assert forall j :: j in chain ==> j == chain[0] || j in chain[1..];
    assert forall k :: 0 <= k < |chain[1..]| ==> chain[1..][k] == chain[k + 1] != chain[0];
  }

  /** Putting a slot in front. */
  lemma PushFree(cs: seq<Client>, head: nat, chain: seq<int>, i: nat, c: Client)
    requires i < |cs| && FreeList(cs, head, chain) && cs[i].state != Vacant
    requires c.state == Vacant && c.fd == head
    ensures FreeList(cs[i := c], i, [i] + chain)
  {
    PushMembers(cs, chain, i, c);
    var ds := cs[i := c];
    var longer := [i] + chain;
    forall k | 0 <= k < |longer|
      ensures LinkOf(ds, longer[k]) == NextFree(longer, k, |ds|)
    {
      if k > 0 {
        assert LinkOf(cs, chain[k - 1]) == NextFree(chain, k - 1, |cs|);
      } else {
        assert NextFree([-1] + chain, 0, |cs|) == NextFree(longer, 0, |ds|);
      }
    }
  }

  lemma PushMembers(cs: seq<Client>, chain: seq<int>, i: nat, c: Client)
    requires i < |cs| && FreeMembers(cs, chain) && cs[i].state != Vacant && c.state == Vacant
    ensures FreeMembers(cs[i := c], [i] + chain)
  {
    assert i !in chain;
    assert forall j :: j in chain ==> j in [i] + chain;
  }

  /** A slot that was not free and stays so does not touch the list. */
  lemma OtherFree(cs: seq<Client>, head: nat, chain: seq<int>, i: nat, c: Client)
    requires i < |cs| && FreeList(cs, head, chain) && cs[i].state != Vacant && c.state != Vacant
    ensures FreeList(cs[i := c], head, chain)
  {
    forall k | 0 <= k < |chain|
      ensures LinkOf(cs[i := c], chain[k]) == LinkOf(cs, chain[k])
    {
    }
  }

  // ---- one client replaced ----

  lemma ReplaceClient(b: Broker, r: Broker, i: nat, d: Client)
    requires PoolInv(b, multiset{}) && i < |b.clients| && r.clients == b.clients[i := d]
    requires ClientWell(b, d) && r.maxInflight == b.maxInflight
    requires Sound(r.p, OwnersBut(b.clients, i) + Refs(d), HoldersBut(b.clients, i) + Held(d))
    ensures PoolInv(r, multiset{})
  {
    hide Sound, ClientOk, Refs, Held, Owners, Holders, OwnersBut, HoldersBut, Connected;
    OwnersSplit(b.clients, i, d);
    HoldersSplit(b.clients, i, d);
    assert multiset{} + Owners(r.clients) == Owners(r.clients);
  }

  lemma SoundAt(b: Broker, i: nat)
    requires PoolInv(b, multiset{}) && i < |b.clients|
    ensures Sound(b.p, OwnersBut(b.clients, i) + Refs(b.clients[i]), HoldersBut(b.clients, i) + Held(b.clients[i]))
    ensures ClientWell(b, b.clients[i])
  {
    hide Sound, ClientOk, Refs, Held;
    OwnersSplit(b.clients, i, b.clients[i]);
    HoldersSplit(b.clients, i, b.clients[i]);
    assert multiset{} + Owners(b.clients) == Owners(b.clients);
  }

  /** Receives of other slots do not care. */
  lemma OtherRecvs(b: Broker, r: Broker, i: nat, d: Client)
    requires RecvInv(b) && i < |b.clients| && r.clients == b.clients[i := d]
    requires forall q :: q in r.recvs && q.slot != i ==> q in b.recvs
    requires forall q :: q in b.recvs && q.slot != i ==> q in r.recvs
    requires SlotRecvs(r.recvs, i, d)
    ensures RecvInv(r)
  {
    forall j | 0 <= j < |r.clients|
      ensures SlotRecvs(r.recvs, j, r.clients[j])
    {
      if j != i {
        assert SlotRecvs(b.recvs, j, b.clients[j]);
      }
    }
    forall q | q in r.recvs
      ensures q.slot < |r.clients|
    {
      if q.slot != i { assert q in b.recvs; }
    }
  }

  // ---- accept ----

  /** The kernel hands out a descriptor that is not in use, and every receive of the slot's earlier lives
      that carries the next generation has completed. */
  ghost predicate AcceptPossible(b: Broker, fd: int) {
    && (0 <= fd < |b.fdToSlot| ==> b.fdToSlot[fd] == -1)
    && (b.freeHead < |b.clients| ==>
          forall r :: r in b.recvs && r.slot == b.freeHead ==> r.generation != (b.clients[b.freeHead].generation + 1) % 0x100)
  }

  lemma BlankOwnsNothing(n: nat)
    requires ValidMax(n)
    ensures Consistent(Blank(n)) && NonFree(Blank(n).hot) == 0 && EntryRefs(Blank(n).hot) == multiset{}
  {
    BlankIsFree(n);
    assert Blank(n).hot[0..] == Blank(n).hot;
    FreeEntriesOwnNothing(Blank(n).hot, 0);
  }

  lemma FreshClient(c: Client, fd: int, buf: u32, maxInflight: nat)
    requires ValidMax(maxInflight) && c.capacity <= MAX_EGRESS
    ensures var d := InitClient(c, fd, buf, maxInflight);
            ClientOk(d) && Refs(d) == multiset{} && Held(d) == One(buf) + One(c.orphan)
  {
    hide EntryRefs;
    BlankOwnsNothing(maxInflight);
  }

  lemma AcceptKeepsPools(b: Broker, fd: int)
    requires PoolInv(b, multiset{}) && AllocSlot(b, fd).slot >= 0 && b.clients[b.freeHead].state == Vacant
    ensures PoolInv(AllocSlot(b, fd).b, multiset{})
  {
    hide Sound, ClientOk, Refs, Held, OwnersBut, HoldersBut;
    var i := b.freeHead;
    var c := b.clients[i];
    var x := b.p.bufFree[|b.p.bufFree| - 1];
    var r := AllocSlot(b, fd).b;
    SoundAt(b, i);
    WellCapacity(b, c);
    FreshClient(c, fd, x, b.maxInflight);
    TakeBuf(b.p, OwnersBut(b.clients, i) + Refs(c), HoldersBut(b.clients, i) + Held(c));
    NotConnected(c);
    assert HoldersBut(b.clients, i) + Held(c) + multiset{x} == HoldersBut(b.clients, i) + Held(r.clients[i]);
    ReplaceClient(b, r, i, r.clients[i]);
  }

  lemma WellCapacity(b: Broker, c: Client)
    requires ClientWell(b, c)
    ensures c.capacity <= MAX_EGRESS
  {
  }

  lemma NotConnected(c: Client)
    requires !Connected(c) && c.recvBuf == INVALID
    ensures Refs(c) == multiset{} && Held(c) == One(c.orphan)
  {
  }

  lemma AcceptKeepsSlots(b: Broker, fd: int, chain: seq<int>)
    requires SlotInv(b, chain) && AcceptPossible(b, fd) && AllocSlot(b, fd).slot >= 0
    ensures chain != [] && b.clients[b.freeHead].state == Vacant
    ensures SlotInv(AllocSlot(b, fd).b, chain[1..])
  {
    hide FreeMembers, FdsMapped, Census;
    var i := b.freeHead;
    var r := AllocSlot(b, fd).b;
    assert chain != [] && chain[0] == i;
    HeadIsFree(b.clients, chain);
    assert r.clients == b.clients[i := r.clients[i]];
    CensusUpdate(b.clients, i, r.clients[i]);
    PopFree(b.clients, chain, r.clients[i]);
    AcceptKeepsFds(b, fd);
  }

  lemma HeadIsFree(cs: seq<Client>, chain: seq<int>)
    requires FreeMembers(cs, chain) && chain != []
    ensures 0 <= chain[0] < |cs| && cs[chain[0]].state == Vacant
  {
  }

  lemma AcceptKeepsFds(b: Broker, fd: int)
    requires FdsMapped(b) && AcceptPossible(b, fd) && AllocSlot(b, fd).slot >= 0 && b.clients[b.freeHead].state == Vacant
    ensures FdsMapped(AllocSlot(b, fd).b)
  {
  }

  /** Accepting succeeds exactly when a slot, a receive buffer and a usable descriptor are there,
      and keeps every invariant. */
  lemma AcceptKeeps(b: Broker, fd: int)
    requires Inv(b) && AcceptPossible(b, fd)
    ensures Inv(AllocSlot(b, fd).b)
    ensures AllocSlot(b, fd).slot >= 0 <==>
              (exists i :: 0 <= i < |b.clients| && b.clients[i].state == Vacant) && 0 <= fd < |b.fdToSlot| && b.p.bufFree != []
  {
    hide PoolInv, SlotRecvs, FdsMapped;
    var chain :| SlotInv(b, chain);
    AcceptNeedsSlot(b, chain);
    var a := AllocSlot(b, fd);
    if a.slot >= 0 {
      AcceptKeepsSlots(b, fd, chain);
      AcceptKeepsPools(b, fd);
      AcceptKeepsRecvs(b, fd);
      AcceptKeepsSubs(b, fd);
    }
  }

  lemma AcceptNeedsSlot(b: Broker, chain: seq<int>)
    requires SlotInv(b, chain)
    ensures b.freeHead < |b.clients| <==> exists i :: 0 <= i < |b.clients| && b.clients[i].state == Vacant
  {
    if chain != [] {
      assert b.freeHead == chain[0] && b.clients[chain[0]].state == Vacant;
    }
  }

  lemma AcceptKeepsSubs(b: Broker, fd: int)
    requires SubsInv(b) && AllocSlot(b, fd).slot >= 0 && b.clients[b.freeHead].state == Vacant
    ensures SubsInv(AllocSlot(b, fd).b)
  {
    forall k | 0 <= k < |b.nodes|
      ensures NodeOk(AllocSlot(b, fd).b.clients, b.nodes[k])
    {
      assert NodeOk(b.clients, b.nodes[k]);
    }
  }

  lemma AcceptKeepsRecvs(b: Broker, fd: int)
    requires RecvInv(b) && AcceptPossible(b, fd) && AllocSlot(b, fd).slot >= 0 && b.clients[b.freeHead].state == Vacant
    ensures RecvInv(AllocSlot(b, fd).b)
  {
    var i := b.freeHead;
    var r := AllocSlot(b, fd).b;
    assert SlotRecvs(b.recvs, i, b.clients[i]);
    assert forall q :: q in b.recvs && q.slot == i ==> !Current(b.clients[i], q) && !Current(r.clients[i], q);
    OtherRecvs(b, r, i, r.clients[i]);
  }
}
